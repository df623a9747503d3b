/** The API's session bookkeeping around the planning graph: configuration check, per-thread
    contexts, configs, pending states and interrupts, the resume payload built from a
    client's selection indices, and the start, resume, final-plan and extra-research calls.
    The graph itself is a parameter: a function from its input, the trip context and the
    config to a run result or the message of the exception it raised. */
module Session {
  import opened Wrappers
  import opened Json
  import opened Text
  import opened Seqs
  import opened Candidates
  import opened Schemas
  import opened Nodes
  import opened PostProcessing
  import opened Response

  // ---------------------------------------------------------------------------------------
  // Configuration
  // ---------------------------------------------------------------------------------------

  const RequiredSettings: seq<string> := [
    "openai_api_key", "tavily_api_key", "reddit_client_id", "reddit_client_secret",
    "trip_advisor_api_key", "amadeus_api_key", "amadeus_api_secret"]

  /** A setting is set when it is present and not empty. */
  predicate IsSet(settings: map<string, string>, name: string) {
    name in settings && settings[name] != ""
  }

  /** The required settings that are not set, in the order they are listed. */
  function MissingSettings(settings: map<string, string>): (r: seq<string>)
    ensures forall x :: x in r <==> x in RequiredSettings && !IsSet(settings, x)
    ensures IsSubseq(r, RequiredSettings)
  {
    Filter((name: string) => !IsSet(settings, name), RequiredSettings)
  }

  /** `_ensure_configuration`: fails, naming every missing setting in list order, exactly when
      some required setting is not set. */
  function EnsureConfiguration(settings: map<string, string>): (r: Result<(), string>)
    ensures r.Ok? <==> forall i :: 0 <= i < |RequiredSettings| ==> IsSet(settings, RequiredSettings[i])
    ensures r.Err? ==> r.error == "Missing required environment variables for planner workflow: "
                                  + Join(MissingSettings(settings), ", ")
  {
    var missing := MissingSettings(settings);
    if missing == [] then Ok(())
    else Err("Missing required environment variables for planner workflow: " + Join(missing, ", "))
  }

  // ---------------------------------------------------------------------------------------
  // Sessions
  // ---------------------------------------------------------------------------------------

  /** The per-thread maps of the service. Timestamps are in seconds. */
  datatype Session = Session(
    contexts: map<string, Context>,
    configs: map<string, map<string, Json>>,
    states: map<string, RunResult>,
    interrupts: map<string, map<string, Json>>,
    timestamps: map<string, int>)

  /** What the service raises. */
  datatype SessionError =
    | MissingThreadId
    | UnknownThread(id: Json)
    | ConfigurableNotMapping
    | UnhashableThreadId
    | NoOptions(key: string)
    | OutOfRange(key: string, index: int)
    | NotAModel
    | GraphFailed(message: string)
    | NoCleanupMethod

  const UnknownPrefix := "Unknown planning thread '"
  const NoOptionsPrefix := "No options stored for '"

  /** The message of a `RuntimeError` the service raises itself, the thread id rendered with
      `str`; the other errors carry the messages of Python's own exceptions, not modelled. */
  function ErrorMessage(e: SessionError, show: Show): (r: Option<string>)
    ensures r.Some? <==> e.MissingThreadId? || e.UnknownThread? || e.NoOptions? || e.OutOfRange?
    ensures e.UnknownThread? ==>
              |r.value| == |UnknownPrefix| + |PyStr(e.id, show)| + 2 && r.value[|UnknownPrefix|..|r.value| - 2] == PyStr(e.id, show)
    ensures e.NoOptions? ==> |r.value| > |NoOptionsPrefix| + |e.key| && r.value[|NoOptionsPrefix|..|NoOptionsPrefix| + |e.key|] == e.key
    ensures e.OutOfRange? ==> |r.value| > |e.key| + 2 && r.value[|r.value| - |e.key| - 2..|r.value| - 2] == e.key
  {
    match e
    case MissingThreadId => Some("Resume config must include configurable.thread_id.")
    case UnknownThread(id) => Some(UnknownPrefix + PyStr(id, show) + "'.")
    case NoOptions(key) => Some(NoOptionsPrefix + key + "' to select from.")
    case OutOfRange(key, index) => Some("Selection index " + IntToString(index) + " is out of range for '" + key + "'.")
    case _ => None
  }

  /** `_make_config`. */
  function MakeConfig(limit: int, tid: string): map<string, Json> {
    map["recursion_limit" := JInt(limit), "configurable" := JObj(map["thread_id" := JStr(tid)])]
  }

  /** The thread a client's config names, checked against the known threads: a missing or
      falsy id, an id that is not a known thread, a `configurable` value that is not a mapping
      (its `.get` raises) and an unhashable id (the `in` test raises) are errors. */
  function LookupThread(config: map<string, Json>, contexts: map<string, Context>): (r: Result<string, SessionError>)
    ensures r.Ok? ==> r.value in contexts
    ensures r.Ok? ==> "configurable" in config && config["configurable"].JObj?
                      && Get(config["configurable"].fields, "thread_id") == JStr(r.value)
  {
    var configurable := if "configurable" in config then config["configurable"] else JObj(map[]);
    if !configurable.JObj? then Err(ConfigurableNotMapping)
    else
      var t := Get(configurable.fields, "thread_id");
      if !Truthy(t) then Err(MissingThreadId)
      else if t.JArr? || t.JObj? then Err(UnhashableThreadId)
      else if !t.JStr? || t.s !in contexts then Err(UnknownThread(t))
      else Ok(t.s)
  }

  /** A config made for a known thread leads back to that thread. */
  lemma LookupMadeConfig(limit: int, tid: string, contexts: map<string, Context>)
    ensures tid in contexts && tid != "" ==> LookupThread(MakeConfig(limit, tid), contexts) == Ok(tid)
    ensures tid !in contexts && tid != "" ==> LookupThread(MakeConfig(limit, tid), contexts) == Err(UnknownThread(JStr(tid)))
    ensures tid == "" ==> LookupThread(MakeConfig(limit, tid), contexts) == Err(MissingThreadId)
  {
    var c := MakeConfig(limit, tid);
    assert c["configurable"] == JObj(map["thread_id" := JStr(tid)]);
  }

  /** `_store_result`: the latest result is always kept; the interrupt is recorded when the
      first interrupt value is a mapping, and dropped when the result has none. */
  function StoreResult(s: Session, tid: string, res: RunResult): (r: Session)
    ensures r.states == s.states[tid := res]
    ensures r.contexts == s.contexts && r.configs == s.configs && r.timestamps == s.timestamps
    ensures forall t :: t != tid ==> (t in r.interrupts <==> t in s.interrupts)
    ensures forall t :: t != tid && t in r.interrupts ==> r.interrupts[t] == s.interrupts[t]
  {
    match res.interrupt
    case Some(items) =>
      if items != [] then
        if items[0].JObj? then s.(states := s.states[tid := res], interrupts := s.interrupts[tid := items[0].fields])
        else s.(states := s.states[tid := res])
      else s.(states := s.states[tid := res], interrupts := s.interrupts - {tid})
    case None => s.(states := s.states[tid := res], interrupts := s.interrupts - {tid})
  }

  /** The stored interrupt agrees with the response's: whenever the response shows one it is
      stored; a result without an interrupt list clears the thread's; a list whose first value
      is not a mapping leaves the previous one in place. */
  lemma StoreResultMatchesResponse(s: Session, tid: string, res: RunResult)
    ensures ExtractInterrupt(res).Some? ==> StoreResult(s, tid, res).interrupts == s.interrupts[tid := ExtractInterrupt(res).value]
    ensures res.interrupt.None? || res.interrupt.value == [] ==> tid !in StoreResult(s, tid, res).interrupts
    ensures res.interrupt.Some? && res.interrupt.value != [] && !res.interrupt.value[0].JObj? ==>
              StoreResult(s, tid, res).interrupts == s.interrupts
  {
  }

  // ---------------------------------------------------------------------------------------
  // The resume payload
  // ---------------------------------------------------------------------------------------

  /** `ResumeSelections`: a 0-based index for lodging and transport, index lists for
      activities and food. */
  datatype Selections = Selections(
    lodging: Option<int>, transport: Option<int>, activities: Option<seq<int>>, food: Option<seq<int>>)

  /** An element of the stored options: a candidate model, or a `(field, value)` pair, which is
      what iterating over a wrapper model yields. */
  datatype Resolved = ModelOption(c: Candidate) | FieldPair(field: string, items: seq<Candidate>)

  /** `model_dump(exclude_none=True)` of an option; a pair has no such method. */
  function DumpResolved(o: Resolved): Option<Json> {
    match o
    case ModelOption(c) => Some(Dump(c))
    case FieldPair(_, _) => None
  }

  /** The candidates held for a category, as options to choose from. */
  function StoredOptions(s: State, cat: Category): (r: seq<Resolved>)
    ensures |r| == |ListOf(s, cat).GetOr([])|
    ensures forall i :: 0 <= i < |r| ==> r[i] == ModelOption(ListOf(s, cat).GetOr([])[i])
  {
    Map((c: Candidate) => ModelOption(c), ListOf(s, cat).GetOr([]))
  }

  /** The options as the source resolves them: `list()` of the wrapper, one `(field, list)`
      pair for a present wrapper whatever it holds. */
  function ResolveAsWritten(s: State, cat: Category): (r: seq<Resolved>)
    ensures ListOf(s, cat).None? ==> r == []
    ensures ListOf(s, cat).Some? ==> |r| == 1 && r[0].FieldPair?
  {
    match ListOf(s, cat)
    case None => []
    case Some(items) => [FieldPair(WrapperField(cat), items)]
  }

  /** A single choice: no index leaves the payload alone; otherwise the options must be
      non-empty and the index in range, and the chosen option's dump goes under `key`. */
  function PutSingle(p: map<string, Json>, key: string, index: Option<int>, options: seq<Resolved>): (r: Result<map<string, Json>, SessionError>)
    ensures index.None? ==> r == Ok(p)
    ensures index.Some? && options == [] ==> r == Err(NoOptions(key))
    ensures index.Some? && options != [] && !(0 <= index.value < |options|) ==> r == Err(OutOfRange(key, index.value))
    ensures r.Ok? && index.Some? ==>
              0 <= index.value < |options| && key in r.value &&
              Some(r.value[key]) == DumpResolved(options[index.value]) && r.value == p[key := r.value[key]]
  {
    match index
    case None => Ok(p)
    case Some(i) =>
      if options == [] then Err(NoOptions(key))
      else if i < 0 || i >= |options| then Err(OutOfRange(key, i))
      else match DumpResolved(options[i])
        case None => Err(NotAModel)
        case Some(d) => Ok(p[key := d])
  }

  /** The first index outside `[0, n)`, if any. */
  function FirstBadIndex(indices: seq<int>, n: int): (r: Option<int>)
    ensures r.None? <==> forall i :: 0 <= i < |indices| ==> 0 <= indices[i] < n
    ensures r.Some? ==> exists i :: 0 <= i < |indices| && indices[i] == r.value && !(0 <= r.value < n)
  {
    if indices == [] then None
    else if !(0 <= indices[0] < n) then Some(indices[0])
    else
      assert forall i :: 1 <= i < |indices| ==> indices[i] == indices[1..][i - 1];
      FirstBadIndex(indices[1..], n)
  }

  /** The dumps of the chosen options, in the order chosen, or `None` when one cannot be dumped. */
  function DumpChosen(indices: seq<int>, options: seq<Resolved>): (r: Option<seq<Json>>)
    requires forall i :: 0 <= i < |indices| ==> 0 <= indices[i] < |options|
    ensures r.Some? ==> |r.value| == |indices|
    ensures r.Some? ==> forall i :: 0 <= i < |indices| ==> Some(r.value[i]) == DumpResolved(options[indices[i]])
    ensures r.None? <==> exists i :: 0 <= i < |indices| && DumpResolved(options[indices[i]]).None?
  {
    if indices == [] then Some([])
    else
      assert forall i :: 1 <= i < |indices| ==> indices[i] == indices[1..][i - 1];
      match DumpResolved(options[indices[0]])
      case None => None
      case Some(d) =>
        match DumpChosen(indices[1..], options)
        case None => None
        case Some(rest) => Some([d] + rest)
  }

  /** A multiple choice: no list leaves the payload alone; otherwise the options must be
      non-empty and every index in range, and the dumps of the chosen options, duplicates
      kept, go under `key` — an empty list gives `[]`. */
  function PutMulti(p: map<string, Json>, key: string, indices: Option<seq<int>>, options: seq<Resolved>): (r: Result<map<string, Json>, SessionError>)
    ensures indices.None? ==> r == Ok(p)
    ensures indices.Some? && options == [] ==> r == Err(NoOptions(key))
    ensures indices.Some? && options != [] && FirstBadIndex(indices.value, |options|).Some? ==>
              r == Err(OutOfRange(key, FirstBadIndex(indices.value, |options|).value))
    ensures r.Ok? && indices.Some? ==>
              (forall i :: 0 <= i < |indices.value| ==> 0 <= indices.value[i] < |options|) &&
              key in r.value && r.value[key].JArr? && |r.value[key].items| == |indices.value| &&
              (forall i :: 0 <= i < |indices.value| ==> Some(r.value[key].items[i]) == DumpResolved(options[indices.value[i]])) &&
              r.value == p[key := r.value[key]]
  {
    match indices
    case None => Ok(p)
    case Some(idx) =>
      if options == [] then Err(NoOptions(key))
      else match FirstBadIndex(idx, |options|)
        case Some(i) => Err(OutOfRange(key, i))
        case None =>
          match DumpChosen(idx, options)
          case None => Err(NotAModel)
          case Some(ds) => Ok(p[key := JArr(ds)])
  }

  /** `_build_resume_payload`, resolving options with `resolve`: the research-plan override
      (dumped without `None` fields) first; without a stored state nothing else; otherwise
      lodging and transport as single choices, then activities and food as multiple choices. */
  function BuildPayloadWith(stored: Option<State>, sel: Selections, plan: Option<ResearchPlan>,
                            resolve: (State, Category) -> seq<Resolved>): Result<map<string, Json>, SessionError> {
    var base := if plan.Some? then map["research_plan" := DumpPlan(plan.value, true)] else map[];
    match stored
    case None => Ok(base)
    case Some(st) =>
      var p1 :- PutSingle(base, CategoryKey(Lodging), sel.lodging, resolve(st, Lodging));
      var p2 :- PutSingle(p1, CategoryKey(Transport), sel.transport, resolve(st, Transport));
      var p3 :- PutMulti(p2, CategoryKey(Activities), sel.activities, resolve(st, Activities));
      PutMulti(p3, CategoryKey(Food), sel.food, resolve(st, Food))
  }

  function BuildPayload(stored: Option<State>, sel: Selections, plan: Option<ResearchPlan>): Result<map<string, Json>, SessionError> {
    BuildPayloadWith(stored, sel, plan, StoredOptions)
  }

  function BuildPayloadAsWritten(stored: Option<State>, sel: Selections, plan: Option<ResearchPlan>): Result<map<string, Json>, SessionError> {
    BuildPayloadWith(stored, sel, plan, ResolveAsWritten)
  }

  /** Without a stored state the payload holds at most the research-plan override. */
  lemma PayloadWithoutState(sel: Selections, plan: Option<ResearchPlan>,
                            resolve: (State, Category) -> seq<Resolved>)
    ensures BuildPayloadWith(None, sel, plan, resolve).Ok?
    ensures BuildPayloadWith(None, sel, plan, resolve).value.Keys <= {"research_plan"}
    ensures "research_plan" in BuildPayloadWith(None, sel, plan, resolve).value <==> plan.Some?
  {
  }

  /** The research-plan override is copied into any payload that builds, whatever the selections. */
  lemma PayloadKeepsPlan(stored: Option<State>, sel: Selections, p: ResearchPlan)
    requires BuildPayload(stored, sel, Some(p)).Ok?
    ensures "research_plan" in BuildPayload(stored, sel, Some(p)).value
    ensures BuildPayload(stored, sel, Some(p)).value["research_plan"] == DumpPlan(p, true)
  {
    PayloadKeepsPlanWith(stored, sel, p, StoredOptions);
  }

  /** The same, whatever the options resolve to: no selection step writes the override's key. */
  lemma PayloadKeepsPlanWith(stored: Option<State>, sel: Selections, p: ResearchPlan,
                             resolve: (State, Category) -> seq<Resolved>)
    requires BuildPayloadWith(stored, sel, Some(p), resolve).Ok?
    ensures "research_plan" in BuildPayloadWith(stored, sel, Some(p), resolve).value
    ensures BuildPayloadWith(stored, sel, Some(p), resolve).value["research_plan"] == DumpPlan(p, true)
  {
    var d := DumpPlan(p, true);
    var base := map["research_plan" := d];
    if stored.Some? {
      var st := stored.value;
      var r1 := PutSingle(base, "lodging", sel.lodging, resolve(st, Lodging));
      assert r1.Ok? && r1.value["research_plan"] == d;
      var r2 := PutSingle(r1.value, "intercity_transport", sel.transport, resolve(st, Transport));
      assert r2.Ok? && r2.value["research_plan"] == d;
      var r3 := PutMulti(r2.value, "activities", sel.activities, resolve(st, Activities));
      assert r3.Ok? && r3.value["research_plan"] == d;
      var r4 := PutMulti(r3.value, "food", sel.food, resolve(st, Food));
      assert BuildPayloadWith(stored, sel, Some(p), resolve) == r4;
    }
  }

  /** A selection of one category only. */
  function OnlySelection(cat: Category, idx: seq<int>): Selections {
    match cat
    case Lodging => Selections(if idx != [] then Some(idx[0]) else None, None, None, None)
    case Transport => Selections(None, if idx != [] then Some(idx[0]) else None, None, None)
    case Activities => Selections(None, None, Some(idx), None)
    case Food => Selections(None, None, None, Some(idx))
  }

  /** The candidates the indices pick from a list. */
  function Pick(items: seq<Candidate>, idx: seq<int>): (r: seq<Candidate>)
    requires forall i :: 0 <= i < |idx| ==> 0 <= idx[i] < |items|
    ensures |r| == |idx| && forall i :: 0 <= i < |idx| ==> r[i] == items[idx[i]]
  {
    seq(|idx|, i requires 0 <= i < |idx| => items[idx[i]])
  }

  /** Choosing activities or food by index builds exactly the answer of those candidates
      that the review node reads. */
  lemma MultiPayload(st: State, cat: Category, idx: seq<int>)
    requires cat == Activities || cat == Food
    requires ListOf(st, cat).Some? && ListOf(st, cat).value != []
    requires forall i :: 0 <= i < |idx| ==> 0 <= idx[i] < |ListOf(st, cat).value|
    ensures BuildPayload(Some(st), OnlySelection(cat, idx), None) == Ok(SelectionAnswer(cat, Pick(ListOf(st, cat).value, idx)))
  {
    var items := ListOf(st, cat).value;
    var opts := StoredOptions(st, cat);
    var chosen := Pick(items, idx);
    var r := PutMulti(map[], CategoryKey(cat), Some(idx), opts);
    assert r.Ok?;
    assert r.value[CategoryKey(cat)].items == seq(|chosen|, i requires 0 <= i < |chosen| => Dump(chosen[i]));
  }

  /** Choosing lodging or transport by index builds the one-candidate answer the review node
      reads, a dump not wrapped in a list. */
  lemma SinglePayload(st: State, cat: Category, i: int)
    requires cat == Lodging || cat == Transport
    requires ListOf(st, cat).Some? && 0 <= i < |ListOf(st, cat).value|
    ensures BuildPayload(Some(st), OnlySelection(cat, [i]), None) == Ok(map[CategoryKey(cat) := Dump(ListOf(st, cat).value[i])])
  {
  }

  /** An index out of range is refused, with the index and key in the error. */
  lemma SingleOutOfRange(st: State, cat: Category, i: int)
    requires cat == Lodging || cat == Transport
    requires ListOf(st, cat).Some? && ListOf(st, cat).value != [] && !(0 <= i < |ListOf(st, cat).value|)
    ensures BuildPayload(Some(st), OnlySelection(cat, [i]), None) == Err(OutOfRange(CategoryKey(cat), i))
  {
  }

  /** End to end: indices chosen for activities or food, answered to the review node and merged
      by the reducer, leave exactly the chosen candidates in the state, in the order chosen. */
  lemma SelectionNarrowsState(st: State, cat: Category, idx: seq<int>)
    requires cat == Activities || cat == Food
    requires ListOf(st, cat).Some? && ListOf(st, cat).value != []
    requires forall i :: 0 <= i < |ListOf(st, cat).value| ==> WellFormed(cat, ListOf(st, cat).value[i])
    requires idx != [] && |idx| <= |ListOf(st, cat).value|
    requires forall i :: 0 <= i < |idx| ==> 0 <= idx[i] < |ListOf(st, cat).value|
    ensures var chosen := Pick(ListOf(st, cat).value, idx);
      && BuildPayload(Some(st), OnlySelection(cat, idx), None).Ok?
      && ApplyResume(BuildPayload(Some(st), OnlySelection(cat, idx), None).value).Ok?
      && ListOf(Apply(st, ApplyResume(BuildPayload(Some(st), OnlySelection(cat, idx), None).value).value), cat) == Some(chosen)
  {
    var items := ListOf(st, cat).value;
    var chosen := Pick(items, idx);
    MultiPayload(st, cat, idx);
    ResumeWithSelection(cat, chosen);
    Reducer.MergeSelection(items, chosen);
  }

  /** As written, the same selection makes the reducer raise instead: the review node writes
      the chosen list as a dumped dictionary, and the channel already holds the options. */
  lemma SelectionAsWrittenRaises(st: State, cat: Category, idx: seq<int>)
    requires cat == Activities || cat == Food
    requires ListOf(st, cat).Some? && ListOf(st, cat).value != []
    requires forall i :: 0 <= i < |ListOf(st, cat).value| ==> WellFormed(cat, ListOf(st, cat).value[i])
    requires idx != []
    requires forall i :: 0 <= i < |idx| ==> 0 <= idx[i] < |ListOf(st, cat).value|
    ensures BuildPayload(Some(st), OnlySelection(cat, idx), None).Ok?
    ensures ApplyResume(BuildPayload(Some(st), OnlySelection(cat, idx), None).value).Ok?
    ensures MergeReviewAsWritten(st, ApplyResume(BuildPayload(Some(st), OnlySelection(cat, idx), None).value).value, cat)
              == Err(Reducer.NoModelFields)
  {
    var items := ListOf(st, cat).value;
    var chosen := Pick(items, idx);
    MultiPayload(st, cat, idx);
    ResumeWithSelection(cat, chosen);
  }

  // ---------------------------------------------------------------------------------------
  // Graph calls
  // ---------------------------------------------------------------------------------------

  /** What the graph is started or resumed with. */
  datatype GraphInput = StartWith(state: State) | ResumeWith(answer: map<string, Json>)

  /** The compiled graph: a run result, or the message of what it raised. */
  type Graph = (GraphInput, Context, map<string, Json>) -> Result<RunResult, string>

  /** The session after a call, and what the call returned (the config and the run result). */
  datatype Outcome = Outcome(session: Session, result: Result<(map<string, Json>, RunResult), SessionError>)

  /** Runs the graph and stores the result under `tid`. */
  function RunAndStore(s: Session, tid: string, graph: Graph, input: GraphInput, ctx: Context, config: map<string, Json>): (r: Outcome)
    ensures r.result.Ok? ==> r.result.value.0 == config && r.session == StoreResult(s, tid, r.result.value.1)
    ensures r.result.Ok? ==> tid in r.session.states && r.session.states[tid] == r.result.value.1
    ensures r.result.Err? ==> r.session == s
  {
    match graph(input, ctx, config)
    case Err(e) => Outcome(s, Err(GraphFailed(e)))
    case Ok(res) => Outcome(StoreResult(s, tid, res), Ok((config, res)))
  }

  const StartMessage := Message(Human, "Start the trip planning workflow.", None)

  /** `plan_trip`: a fresh `trip_` thread, its context and config stored, no pending state or
      interrupt, and a run from a state holding only `messages`. */
  function PlanTrip(s: Session, uuid: string, ctx: Context, limit: int, messages: seq<Message>, graph: Graph): (r: Outcome)
    ensures var tid := "trip_" + uuid;
      && r.session.contexts == s.contexts[tid := ctx]
      && r.session.configs == s.configs[tid := MakeConfig(limit, tid)]
      && (r.result.Ok? ==> r.result.value.0 == MakeConfig(limit, tid) && tid in r.session.states && r.session.states[tid] == r.result.value.1)
      && (r.result.Err? ==> tid !in r.session.states && tid !in r.session.interrupts)
  {
    var tid := "trip_" + uuid;
    var config := MakeConfig(limit, tid);
    var s1 := s.(contexts := s.contexts[tid := ctx], configs := s.configs[tid := config],
                 states := s.states - {tid}, interrupts := s.interrupts - {tid});
    RunAndStore(s1, tid, graph, StartWith(Initial(messages)), ctx, config)
  }

  /** The thread a planning run started can be found again from the config it returned. */
  lemma PlanTripResumable(s: Session, uuid: string, ctx: Context, limit: int, messages: seq<Message>, graph: Graph)
    ensures var r := PlanTrip(s, uuid, ctx, limit, messages, graph);
      r.result.Ok? ==> LookupThread(r.result.value.0, r.session.contexts) == Ok("trip_" + uuid)
  {
    var r := PlanTrip(s, uuid, ctx, limit, messages, graph);
    LookupMadeConfig(limit, "trip_" + uuid, r.session.contexts);
  }

  /** `resume_trip` without the thread swap: the payload is built against the named thread's
      stored state and the result is stored under that thread. */
  function ResumeTrip(s: Session, ctx: Context, config: Option<map<string, Json>>, sel: Selections,
                      plan: Option<ResearchPlan>, graph: Graph): (r: Outcome)
    ensures r.result.Err? && r.result.error.NoOptions? ==> r.session.states == s.states && r.session.interrupts == s.interrupts
    ensures r.result.Err? && r.result.error.OutOfRange? ==> r.session.states == s.states && r.session.interrupts == s.interrupts
  {
    var cfg := config.GetOr(map[]);
    match LookupThread(cfg, s.contexts)
    case Err(e) => Outcome(s, Err(e))
    case Ok(tid) =>
      var s1 := s.(configs := s.configs[tid := cfg]);
      var stored := if tid in s.states then Some(s.states[tid].state) else None;
      match BuildPayload(stored, sel, plan)
      case Err(e) => Outcome(s1, Err(e))
      case Ok(payload) => RunAndStore(s1, tid, graph, ResumeWith(payload), ctx, cfg)
  }

  /** `resume_trip` as written: a known thread is swapped for a fresh one, whose state was just
      cleared, so the payload is built without a stored state, the graph resumes the old
      thread through the old config, and the result is stored under the fresh id. */
  function ResumeTripAsWritten(s: Session, uuid: string, ctx: Context, config: Option<map<string, Json>>,
                               sel: Selections, plan: Option<ResearchPlan>, graph: Graph): Outcome {
    var cfg := config.GetOr(map[]);
    match LookupThread(cfg, s.contexts)
    case Err(e) => Outcome(s, Err(e))
    case Ok(prev) =>
      var tid := "trip_" + uuid;
      var s1 := s.(contexts := s.contexts[tid := ctx], states := s.states - {tid},
                   interrupts := s.interrupts - {tid});
      var s2 := s1.(configs := s1.configs[tid := cfg]);
      var stored := if tid in s2.states then Some(s2.states[tid].state) else None;
      match BuildPayload(stored, sel, plan)
      case Err(e) => Outcome(s2, Err(e))
      case Ok(payload) => RunAndStore(s2, tid, graph, ResumeWith(payload), ctx, cfg)
  }

  /** The graph a resume reaches is told only about the research-plan override: whatever the
      client selected is dropped, and the result lands under a thread other than the one
      resumed when the fresh id is new. */
  lemma ResumeAsWrittenDropsSelections(s: Session, uuid: string, ctx: Context, config: map<string, Json>,
                                       sel: Selections, graph: Graph)
    requires LookupThread(config, s.contexts).Ok?
    requires "trip_" + uuid != LookupThread(config, s.contexts).value
    ensures var r := ResumeTripAsWritten(s, uuid, ctx, Some(config), sel, None, graph);
      var prev := LookupThread(config, s.contexts).value;
      && (r.result.Ok? <==> graph(ResumeWith(map[]), ctx, config).Ok?)
      && (r.result.Ok? ==> "trip_" + uuid in r.session.states)
      && (prev in s.states ==> prev in r.session.states && r.session.states[prev] == s.states[prev])
  {
  }

  /** The selection that is dropped as written reaches the review node once the stored state
      of the named thread is used. */
  lemma ResumeUsesSelection(s: Session, ctx: Context, config: map<string, Json>, cat: Category, idx: seq<int>, graph: Graph)
    requires LookupThread(config, s.contexts).Ok?
    requires var tid := LookupThread(config, s.contexts).value;
      tid in s.states && (cat == Activities || cat == Food) &&
      ListOf(s.states[tid].state, cat).Some? && ListOf(s.states[tid].state, cat).value != [] &&
      forall i :: 0 <= i < |idx| ==> 0 <= idx[i] < |ListOf(s.states[tid].state, cat).value|
    ensures var tid := LookupThread(config, s.contexts).value;
      var answer := SelectionAnswer(cat, Pick(ListOf(s.states[tid].state, cat).value, idx));
      ResumeTrip(s, ctx, Some(config), OnlySelection(cat, idx), None, graph)
        == RunAndStore(s.(configs := s.configs[tid := config]), tid, graph, ResumeWith(answer), ctx, config)
  {
    var tid := LookupThread(config, s.contexts).value;
    MultiPayload(s.states[tid].state, cat, idx);
  }

  /** As written, choosing any stored lodging fails: index 0 meets a pair with no
      `model_dump`, any other index is out of range, however many candidates are held. */
  lemma ResolveAsWrittenRefuses(st: State, i: int)
    requires ListOf(st, Lodging).Some? && |ListOf(st, Lodging).value| >= 2
    ensures BuildPayloadAsWritten(Some(st), OnlySelection(Lodging, [i]), None).Err?
    ensures i == 1 ==> BuildPayloadAsWritten(Some(st), OnlySelection(Lodging, [i]), None) == Err(OutOfRange("lodging", 1))
    ensures i == 1 ==> BuildPayload(Some(st), OnlySelection(Lodging, [i]), None) == Ok(map["lodging" := Dump(ListOf(st, Lodging).value[1])])
  {
  }

  /** `final_plan`: the thread must be known; the graph resumes with the stored context and
      exactly `{"selections": …}`. */
  function FinalPlan(s: Session, config: map<string, Json>, selections: Json, graph: Graph): (r: Outcome)
    ensures LookupThread(config, s.contexts).Err? ==> r == Outcome(s, Err(LookupThread(config, s.contexts).error))
  {
    match LookupThread(config, s.contexts)
    case Err(e) => Outcome(s, Err(e))
    case Ok(tid) => RunAndStore(s, tid, graph, ResumeWith(map["selections" := selections]), s.contexts[tid], config)
  }

  /** The final-plan answer names no plan and no category: review clears the plan, narrows no
      list, and the route goes to the planner. */
  lemma FinalPlanAnswerGoesToPlanner(selections: Json)
    ensures ApplyResume(map["selections" := selections]) == Ok(Update([ReviewDone], Some(None), map[], None))
    ensures Route(None) == [Planner]
  {
    var a := map["selections" := selections];
    forall cat ensures CategoryKey(cat) !in a {
    }
    RouteToPlanner(None);
  }

  /** `extra_research`: the thread must be known; the graph resumes with the stored context and
      exactly `{"research_plan": …}`, the plan dumped without `None` fields. */
  function ExtraResearch(s: Session, config: map<string, Json>, plan: ResearchPlan, graph: Graph): (r: Outcome)
    ensures LookupThread(config, s.contexts).Err? ==> r == Outcome(s, Err(LookupThread(config, s.contexts).error))
  {
    match LookupThread(config, s.contexts)
    case Err(e) => Outcome(s, Err(e))
    case Ok(tid) => RunAndStore(s, tid, graph, ResumeWith(map["research_plan" := DumpPlan(plan, true)]), s.contexts[tid], config)
  }

  /** The extra-research answer becomes the plan, without the directives whose fields are all
      `None`; a plan with nothing set clears it. */
  lemma ExtraResearchAnswer(p: ResearchPlan)
    ensures ApplyResume(map["research_plan" := DumpPlan(p, true)]).Ok?
    ensures var u := ApplyResume(map["research_plan" := DumpPlan(p, true)]).value;
      && u.lists == map[]
      && u.plan == (if Truthy(DumpPlan(p, true)) then Some(Some(Keep(p))) else Some(None))
  {
    var a := map["research_plan" := DumpPlan(p, true)];
    PlanAnswerOfDump(p);
    forall cat ensures CategoryKey(cat) !in a {
    }
    assert ApplyResume(a).Ok?;
    ResumePlan(a);
  }

  // ---------------------------------------------------------------------------------------
  // Cleanup
  // ---------------------------------------------------------------------------------------

  /** The threads whose timestamp is strictly earlier than `maxAgeMinutes` before `now`. */
  function OldThreads(timestamps: map<string, int>, now: int, maxAgeMinutes: int): (r: set<string>)
    ensures forall t :: t in r <==> t in timestamps && timestamps[t] < now - maxAgeMinutes * 60
  {
    set t | t in timestamps && timestamps[t] < now - maxAgeMinutes * 60
  }

  /** Forgets everything held for a thread. */
  function CleanupThread(s: Session, tid: string): (r: Session)
    ensures tid !in r.contexts && tid !in r.configs && tid !in r.states && tid !in r.interrupts && tid !in r.timestamps
  {
    Session(s.contexts - {tid}, s.configs - {tid}, s.states - {tid}, s.interrupts - {tid}, s.timestamps - {tid})
  }

  function Without<V>(m: map<string, V>, ts: set<string>): (r: map<string, V>)
    ensures forall t :: t in r <==> t in m && t !in ts
    ensures forall t :: t in r ==> r[t] == m[t]
  {
    map t | t in m && t !in ts :: m[t]
  }

  /** `cleanup_old_threads` with a working per-thread cleanup: every old thread is forgotten,
      every other one kept, and the count reported. */
  function CleanupOldThreads(s: Session, now: int, maxAgeMinutes: int): (r: (Session, string))
    ensures var stale := OldThreads(s.timestamps, now, maxAgeMinutes);
      && r.1 == "Cleaned up " + NatToString(|stale|) + " threads"
      && (forall t :: t in r.0.timestamps <==> t in s.timestamps && t !in stale)
      && (forall t :: t in r.0.contexts <==> t in s.contexts && t !in stale)
      && (forall t :: t in r.0.states <==> t in s.states && t !in stale)
      && (forall t :: t in r.0.contexts ==> r.0.contexts[t] == s.contexts[t])
  {
    var stale := OldThreads(s.timestamps, now, maxAgeMinutes);
    (Session(Without(s.contexts, stale), Without(s.configs, stale), Without(s.states, stale),
             Without(s.interrupts, stale), Without(s.timestamps, stale)),
     "Cleaned up " + NatToString(|stale|) + " threads")
  }

  /** As written: the per-thread cleanup it calls is not defined, so the first stale thread
      raises; only a call with no stale thread returns. */
  function CleanupOldThreadsAsWritten(s: Session, now: int, maxAgeMinutes: int): Result<(Session, string), SessionError> {
    var stale := OldThreads(s.timestamps, now, maxAgeMinutes);
    if stale == {} then Ok((s, "Cleaned up 0 threads")) else Err(NoCleanupMethod)
  }

  /** The source's cleanup fails exactly when there is something to clean, and agrees with the
      working cleanup otherwise. */
  lemma CleanupAsWrittenFails(s: Session, now: int, maxAgeMinutes: int)
    ensures CleanupOldThreadsAsWritten(s, now, maxAgeMinutes).Err? <==> OldThreads(s.timestamps, now, maxAgeMinutes) != {}
    ensures OldThreads(s.timestamps, now, maxAgeMinutes) == {} ==>
              CleanupOldThreadsAsWritten(s, now, maxAgeMinutes) == Ok(CleanupOldThreads(s, now, maxAgeMinutes))
  {
    var stale := OldThreads(s.timestamps, now, maxAgeMinutes);
    if stale == {} {
      assert |stale| == 0 && NatToString(0) == "0";
      var c := CleanupOldThreads(s, now, maxAgeMinutes);
      assert c.1 == "Cleaned up 0 threads";
      assert Without(s.contexts, stale) == s.contexts;
      assert Without(s.configs, stale) == s.configs;
      assert Without(s.states, stale) == s.states;
      assert Without(s.interrupts, stale) == s.interrupts;
      assert Without(s.timestamps, stale) == s.timestamps;
      assert c.0 == s;
    }
  }

  /** A thread stamped at `now` is never cleaned up with a non-negative age limit. */
  lemma FreshThreadSurvives(s: Session, tid: string, now: int, maxAgeMinutes: int)
    requires tid in s.timestamps && s.timestamps[tid] >= now && maxAgeMinutes >= 0
    ensures tid in CleanupOldThreads(s, now, maxAgeMinutes).0.timestamps
  {
  }
}
