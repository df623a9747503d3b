/** Turning a graph result into the API's response: the status, the pending interrupt, the
    candidate lists of each category and the rendered message log. */
module Response {
  import opened Wrappers
  import opened Json
  import opened Seqs
  import opened Candidates
  import opened Schemas
  import opened Nodes
  import opened PostProcessing

  /** What a graph run returns: the state's values, and the `__interrupt__` list (the values of
      its interrupts) when the run suspended. */
  datatype RunResult = RunResult(state: State, interrupt: Option<seq<Json>>)

  // ---------------------------------------------------------------------------------------
  // Status and interrupt
  // ---------------------------------------------------------------------------------------

  datatype Status = Interrupted | NeedsFollowUp | Complete | NoPlan

  function StatusName(s: Status): string {
    match s
    case Interrupted => "interrupt"
    case NeedsFollowUp => "needs_follow_up"
    case Complete => "complete"
    case NoPlan => "no_plan"
  }

  /** Distinct statuses have distinct names. */
  lemma StatusNameInjective(a: Status, b: Status)
    requires StatusName(a) == StatusName(b)
    ensures a == b
  {
  }

  /** `_determine_status`: a suspension first, then a final plan that asks for more research
      (any research plan object is truthy, an empty one included), then a final plan. */
  function DetermineStatus(res: RunResult): (r: Status)
    ensures r == Interrupted <==> res.interrupt.Some?
    ensures r == NeedsFollowUp <==> res.interrupt.None? && res.state.finalPlan.Some? && res.state.finalPlan.value.researchPlan.Some?
    ensures r == Complete <==> res.interrupt.None? && res.state.finalPlan.Some? && res.state.finalPlan.value.researchPlan.None?
    ensures r == NoPlan <==> res.interrupt.None? && res.state.finalPlan.None?
  {
    if res.interrupt.Some? then Interrupted
    else if res.state.finalPlan.Some? && res.state.finalPlan.value.researchPlan.Some? then NeedsFollowUp
    else if res.state.finalPlan.Some? then Complete
    else NoPlan
  }

  /** `_extract_interrupt`: a copy of the first interrupt's value when the list is non-empty and
      that value is a mapping. */
  function ExtractInterrupt(res: RunResult): (r: Option<map<string, Json>>)
    ensures r.Some? <==> res.interrupt.Some? && res.interrupt.value != [] && res.interrupt.value[0].JObj?
    ensures r.Some? ==> r.value == res.interrupt.value[0].fields
  {
    match res.interrupt
    case None => None
    case Some(items) => if items != [] && items[0].JObj? then Some(items[0].fields) else None
  }

  /** An interrupt in the response always comes with the "interrupt" status. */
  lemma InterruptImpliesStatus(res: RunResult)
    requires ExtractInterrupt(res).Some?
    ensures DetermineStatus(res) == Interrupted
  {
  }

  /** The review node's suspension value as the mapping it passes to `interrupt`. */
  function EntryJson(e: Entry): Json {
    JObj(map["type" := JStr(CategoryKey(e.kind)), "task" := JStr(e.task), "options" := JArr(e.options)])
  }

  function InterruptJson(i: Interrupt): Json {
    JObj(map["task" := JStr(i.task),
             "selections" := JArr(Map(EntryJson, i.selections)),
             "research_plan" := i.plan])
  }

  /** A run suspended by the review node is reported as an interrupt carrying the node's task
      text and one selection entry per category with options. */
  lemma ReviewSuspensionReported(s: State)
    requires Assemble(s).Some?
    ensures var res := RunResult(s, Some([InterruptJson(Assemble(s).value)]));
      && DetermineStatus(res) == Interrupted
      && ExtractInterrupt(res).Some?
      && ExtractInterrupt(res).value["task"] == JStr(ReviewTask)
      && ExtractInterrupt(res).value["selections"] == JArr(Map(EntryJson, Assemble(s).value.selections))
  {
  }

  // ---------------------------------------------------------------------------------------
  // Category lists
  // ---------------------------------------------------------------------------------------

  /** A value of the result under a category key: missing, a wrapper model with its one field,
      or a plain value (a dict or list written by a node). */
  datatype Slot = Absent | ModelSlot(field: string, items: seq<Candidate>) | PlainSlot(j: Json)

  /** The list a response shows for a slot, reading `field`: a model with that attribute gives
      its list (a model is truthy even when the list is empty), a truthy dict gives its entry
      under `field`, a truthy list is passed through; anything else gives nothing. */
  function ListFrom(slot: Slot, field: string): (r: Option<Json>)
    ensures slot.Absent? ==> r.None?
    ensures slot.ModelSlot? ==> (r.Some? <==> slot.field == field)
    ensures slot.ModelSlot? && r.Some? ==> r.value == JArr(Map(Dump, slot.items))
    ensures slot.PlainSlot? && !Truthy(slot.j) ==> r.None?
    ensures slot.PlainSlot? && Truthy(slot.j) && slot.j.JArr? ==> r == Some(slot.j)
    ensures slot.PlainSlot? && Truthy(slot.j) && slot.j.JObj? ==> (r.Some? <==> field in slot.j.fields)
    ensures slot.PlainSlot? && r.Some? && slot.j.JObj? ==> r.value == slot.j.fields[field]
    ensures slot.PlainSlot? && !slot.j.JObj? && !slot.j.JArr? ==> r.None?
  {
    match slot
    case Absent => None
    case ModelSlot(f, items) => if f == field then Some(JArr(Map(Dump, items))) else None
    case PlainSlot(j) =>
      if !Truthy(j) then None
      else if j.JObj? && field in j.fields then Some(j.fields[field])
      else if j.JArr? then Some(j)
      else None
  }

  /** The slot a typed state holds under a category's key. */
  function SlotOf(s: State, cat: Category): Slot {
    match ListOf(s, cat)
    case None => Absent
    case Some(items) => ModelSlot(WrapperField(cat), items)
  }

  /** The attribute the response reads for each category; transport reads `transport`. */
  function ResponseField(cat: Category): string {
    match cat
    case Lodging => "lodging"
    case Activities => "activities"
    case Food => "food"
    case Transport => "transport"
  }

  /** For a typed state every category's response list is exactly the state's list, dumped,
      and nothing when the category has not been researched. */
  lemma ResponseListMatchesState(s: State, cat: Category)
    ensures ListOf(s, cat).None? ==> ListFrom(SlotOf(s, cat), ResponseField(cat)).None?
    ensures ListOf(s, cat).Some? ==>
      ListFrom(SlotOf(s, cat), ResponseField(cat)) == Some(JArr(Map(Dump, ListOf(s, cat).value)))
  {
  }

  /** A plain dict holding a wrapper's dump shows the same list as the wrapper itself. */
  lemma ResponseListOfDict(cat: Category, items: seq<Candidate>)
    ensures ListFrom(PlainSlot(JObj(map[ResponseField(cat) := JArr(Map(Dump, items))])), ResponseField(cat))
            == ListFrom(ModelSlot(WrapperField(cat), items), ResponseField(cat))
  {
  }

  // ---------------------------------------------------------------------------------------
  // Messages
  // ---------------------------------------------------------------------------------------

  /** An entry of the result's message list: a chat message with its content, or anything else. */
  datatype LogEntry = ChatEntry(content: Json) | OtherEntry(value: Json)

  /** `_messages_to_strings`: a chat message's string content verbatim, otherwise the given
      `repr` of the message or `str` of the value. */
  function RenderMessages(log: seq<LogEntry>, repr: LogEntry -> string, str: Json -> string): (r: seq<string>)
    ensures |r| == |log|
    ensures forall i :: 0 <= i < |log| && log[i].ChatEntry? && log[i].content.JStr? ==> r[i] == log[i].content.s
    ensures forall i :: 0 <= i < |log| && log[i].ChatEntry? && !log[i].content.JStr? ==> r[i] == repr(log[i])
    ensures forall i :: 0 <= i < |log| && log[i].OtherEntry? ==> r[i] == str(log[i].value)
  {
    Map((e: LogEntry) =>
          match e
          case ChatEntry(c) => if c.JStr? then c.s else repr(e)
          case OtherEntry(v) => str(v), log)
  }

  function LogOf(ms: seq<Message>): seq<LogEntry> {
    Map((m: Message) => ChatEntry(JStr(m.content)), ms)
  }

  /** A state's messages render as their contents, in order, whatever `repr` and `str` are. */
  lemma RenderStateMessages(ms: seq<Message>, repr: LogEntry -> string, str: Json -> string)
    ensures RenderMessages(LogOf(ms), repr, str) == Map((m: Message) => m.content, ms)
  {
  }

  // ---------------------------------------------------------------------------------------
  // The response
  // ---------------------------------------------------------------------------------------

  datatype PlanningResponse = PlanningResponse(
    status: Status,
    config: map<string, Json>,
    budget: Option<Budget>,
    plan: Option<ResearchPlan>,
    lodging: Option<Json>,
    activities: Option<Json>,
    food: Option<Json>,
    transport: Option<Json>,
    recommendations: Option<Recs>,
    finalPlan: Option<FinalPlan>,
    interrupt: Option<map<string, Json>>,
    messages: seq<string>)

  /** `_result_to_response` for a typed result; `repr` and `str` are Python's, never reached here. */
  function ToResponse(config: map<string, Json>, res: RunResult, repr: LogEntry -> string, str: Json -> string): (r: PlanningResponse)
    ensures r.interrupt.Some? ==> r.status == Interrupted
    ensures r.messages == Map((m: Message) => m.content, res.state.messages)
    ensures (r.lodging.Some? <==> res.state.lodging.Some?) && (r.transport.Some? <==> res.state.transport.Some?)
    ensures (r.activities.Some? <==> res.state.activities.Some?) && (r.food.Some? <==> res.state.food.Some?)
  {
    var s := res.state;
    ResponseListMatchesState(s, Lodging);
    ResponseListMatchesState(s, Activities);
    ResponseListMatchesState(s, Food);
    ResponseListMatchesState(s, Transport);
    RenderStateMessages(s.messages, repr, str);
    PlanningResponse(
      DetermineStatus(res), config, s.budget, s.plan,
      ListFrom(SlotOf(s, Lodging), ResponseField(Lodging)),
      ListFrom(SlotOf(s, Activities), ResponseField(Activities)),
      ListFrom(SlotOf(s, Food), ResponseField(Food)),
      ListFrom(SlotOf(s, Transport), ResponseField(Transport)),
      s.recommendations, s.finalPlan, ExtractInterrupt(res),
      RenderMessages(LogOf(s.messages), repr, str))
  }
}
