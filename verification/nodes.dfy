/** The graph state and the nodes of the planning graph that do more than call a model:
    the research nodes' output handling, the human-review node split into the suspension it
    raises and the update it makes on resume, and the conditional edge that follows review. */
module Nodes {
  import opened Wrappers
  import opened Json
  import opened Text
  import opened Seqs
  import opened Candidates
  import opened Schemas
  import Reducer

  // ---------------------------------------------------------------------------
  // State and updates

  datatype Role = Human | Ai

  /** A chat message: who sent it, its text and an optional sender name. */
  datatype Message = Message(role: Role, content: string, name: Option<string>)

  /** `State`: the values the graph carries between nodes. */
  datatype State = State(
    messages: seq<Message>,
    coordinates: Option<string>,
    budget: Option<Budget>,
    plan: Option<ResearchPlan>,
    lodging: Option<seq<Candidate>>,
    activities: Option<seq<Candidate>>,
    food: Option<seq<Candidate>>,
    transport: Option<seq<Candidate>>,
    recommendations: Option<Recs>,
    finalPlan: Option<FinalPlan>)

  /** A state holding only the given messages. */
  function Initial(messages: seq<Message>): State {
    State(messages, None, None, None, None, None, None, None, None, None)
  }

  /** The candidate list a category's research produced so far. */
  function ListOf(s: State, cat: Category): Option<seq<Candidate>> {
    match cat
    case Lodging => s.lodging
    case Activities => s.activities
    case Food => s.food
    case Transport => s.transport
  }

  /** What a node returns: messages to append, and the keys it sets. A category in `lists`
      is merged into the state by the reducer; `plan` and `recommendations` overwrite. */
  datatype Update = Update(
    messages: seq<Message>,
    plan: Option<Option<ResearchPlan>>,
    lists: map<Category, Option<seq<Candidate>>>,
    recommendations: Option<Option<Recs>>)

  /** The empty update `{}`. */
  const NoUpdate := Update([], None, map[], None)

  function MergedList(s: State, u: Update, cat: Category): Option<seq<Candidate>> {
    if cat in u.lists then Reducer.Merge(ListOf(s, cat), u.lists[cat]) else ListOf(s, cat)
  }

  /** How the graph folds an update into the state: messages are appended, the candidate
      lists go through the reducer, other keys are overwritten. */
  function Apply(s: State, u: Update): (r: State)
    ensures |r.messages| == |s.messages| + |u.messages| && r.messages[..|s.messages|] == s.messages
    ensures forall cat :: cat !in u.lists ==> ListOf(r, cat) == ListOf(s, cat)
    ensures u.plan.None? ==> r.plan == s.plan
    ensures r.coordinates == s.coordinates && r.budget == s.budget && r.finalPlan == s.finalPlan
  {
    s.(messages := s.messages + u.messages,
       plan := if u.plan.Some? then u.plan.value else s.plan,
       lodging := MergedList(s, u, Lodging),
       activities := MergedList(s, u, Activities),
       food := MergedList(s, u, Food),
       transport := MergedList(s, u, Transport),
       recommendations := if u.recommendations.Some? then u.recommendations.value else s.recommendations)
  }

  /** The empty update changes nothing. */
  lemma ApplyNoUpdate(s: State)
    ensures Apply(s, NoUpdate) == s
  {
  }

  // ---------------------------------------------------------------------------
  // Research nodes

  /** What a research agent returns: `structured_response` and `messages`, each of which may
      be missing (`None` in the outer option) or, for the payload, present but `None`. */
  datatype AgentResponse<P> = AgentResponse(structured: Option<Option<P>>, messages: Option<seq<Message>>)

  /** `{"messages": ..., key: payload}`. */
  datatype AgentOutput<P> = AgentOutput(messages: seq<Message>, payload: Option<P>)

  const EmptyResponse := Message(Ai, "Empty response", None)

  /** `_extract_agent_output`: the default replaces a missing payload only, not a `None` one. */
  function ExtractAgentOutput<P>(response: AgentResponse<P>, default: P): (r: AgentOutput<P>)
    ensures response.structured.Some? ==> r.payload == response.structured.value
    ensures response.structured.None? ==> r.payload == Some(default)
    ensures response.messages.Some? ==> r.messages == response.messages.value
    ensures response.messages.None? ==> r.messages == [EmptyResponse]
  {
    AgentOutput(response.messages.GetOr([EmptyResponse]),
                if response.structured.Some? then response.structured.value else Some(default))
  }

  /** How a research call fails: the agent raised, and then reading its history raised too. */
  datatype ResearchFailure = HistoryFailed(agentError: string)

  /** `make_research`: calls the agent with the stripped prompt as a named human message.
      When the call raises, the output is the default with the error as an AI message; the
      history lookup made on that path may itself raise, which `historyOk` stands for. */
  function MakeResearch<P>(prompt: string, name: string, default: P,
                           agent: Message -> Result<AgentResponse<P>, string>,
                           historyOk: bool): (r: Result<AgentOutput<P>, ResearchFailure>)
    ensures agent(Message(Human, Strip(prompt), Some(name))).Ok? ==>
      r == Ok(ExtractAgentOutput(agent(Message(Human, Strip(prompt), Some(name))).value, default))
    ensures agent(Message(Human, Strip(prompt), Some(name))).Err? ==>
      var e := agent(Message(Human, Strip(prompt), Some(name))).error;
      (historyOk ==> r == Ok(AgentOutput([Message(Ai, "Error: " + e, None)], Some(default))))
      && (!historyOk ==> r == Err(HistoryFailed(e)))
  {
    match agent(Message(Human, Strip(prompt), Some(name)))
    case Ok(response) => Ok(ExtractAgentOutput(response, default))
    case Err(e) =>
      if historyOk then Ok(AgentOutput([Message(Ai, "Error: " + e, None)], Some(default)))
      else Err(HistoryFailed(e))
  }

  /** The state key a category's research node writes. */
  function CategoryKey(cat: Category): string {
    match cat
    case Lodging => "lodging"
    case Activities => "activities"
    case Food => "food"
    case Transport => "intercity_transport"
  }

  lemma CategoryKeyInjective(a: Category, b: Category)
    requires CategoryKey(a) == CategoryKey(b)
    ensures a == b
  {
  }

  /** The update of a candidate research node: its messages and its list. The default of
      every such node is the empty list. */
  function ResearchUpdate(cat: Category, out: AgentOutput<seq<Candidate>>): (u: Update)
    ensures u.lists.Keys == {cat} && u.plan.None? && u.recommendations.None?
  {
    Update(out.messages, None, map[cat := out.payload], None)
  }

  /** The update of the recommendations node, which overwrites instead of merging. */
  function RecommendationsUpdate(out: AgentOutput<Recs>): (u: Update)
    ensures u.lists == map[] && u.recommendations == Some(out.payload)
  {
    Update(out.messages, None, map[], Some(out.payload))
  }

  /** A research node whose agent failed falls back to the empty list, which leaves a list the
      state already holds as it was and starts an empty one otherwise. */
  lemma FailedResearchKeepsList(s: State, cat: Category, e: string)
    ensures var u := ResearchUpdate(cat, AgentOutput([Message(Ai, "Error: " + e, None)], Some([])));
      ListOf(Apply(s, u), cat) == (if ListOf(s, cat).None? then Some([]) else ListOf(s, cat))
  {
    if ListOf(s, cat).Some? {
      var e := ListOf(s, cat).value;
      assert !Reducer.Replaces(e, []);
      assert Reducer.Dedup(Reducer.Ids(e), []) == [];
      assert e + [] == e;
    }
  }

  // ---------------------------------------------------------------------------
  // Human review: the suspension

  /** One category offered for review. */
  datatype Entry = Entry(kind: Category, task: string, options: seq<Json>)

  /** The value the review node suspends with. */
  datatype Interrupt = Interrupt(task: string, selections: seq<Entry>, plan: Json)

  const ReviewTask := "Make your selections for the following options"

  /** The order in which categories are offered. */
  const ReviewOrder: seq<Category> := [Lodging, Transport, Activities, Food]

  function TaskText(cat: Category): string {
    match cat
    case Lodging => "Choose lodging option"
    case Transport => "Choose intercity_transport option"
    case Activities => "Choose activity option"
    case Food => "Choose food option"
  }

  lemma AllInReviewOrder()
    ensures forall cat :: cat in ReviewOrder
  {
    forall cat ensures cat in ReviewOrder {
      match cat
      case Lodging => assert ReviewOrder[0] == cat;
      case Transport => assert ReviewOrder[1] == cat;
      case Activities => assert ReviewOrder[2] == cat;
      case Food => assert ReviewOrder[3] == cat;
    }
  }

  /** The category has a non-empty candidate list. */
  predicate HasOptions(s: State, cat: Category) {
    ListOf(s, cat).Some? && ListOf(s, cat).value != []
  }

  /** Every candidate, as `model_dump()` writes it. */
  function DumpAll(cat: Category, cs: seq<Candidate>): (r: seq<Json>)
    ensures |r| == |cs|
  {
    seq(|cs|, i requires 0 <= i < |cs| => DumpFull(cat, cs[i]))
  }

  function EntryFor(s: State, cat: Category): Entry {
    Entry(cat, TaskText(cat), DumpAll(cat, ListOf(s, cat).GetOr([])))
  }

  /** The entries for the categories of `cats` that have options, in the order of `cats`. */
  function Entries(s: State, cats: seq<Category>): (r: seq<Entry>)
    ensures |r| <= |cats|
    ensures forall i :: 0 <= i < |r| ==> r[i].kind in cats && HasOptions(s, r[i].kind)
    ensures forall c :: c in cats && HasOptions(s, c) ==> exists i :: 0 <= i < |r| && r[i].kind == c
  {
    if cats == [] then []
    else
      var rest := Entries(s, cats[1..]);
      assert forall c :: c in cats[1..] ==> c in cats;
      if HasOptions(s, cats[0]) then
        assert ([EntryFor(s, cats[0])] + rest)[0].kind == cats[0];
        assert forall i :: 0 <= i < |rest| ==> ([EntryFor(s, cats[0])] + rest)[i + 1] == rest[i];
        [EntryFor(s, cats[0])] + rest
      else rest
  }

  /** The first half of the review node: `None` where it returns `{}` without suspending,
      otherwise the value it suspends with. */
  function Assemble(s: State): (r: Option<Interrupt>)
    ensures r.None? <==> forall cat :: !HasOptions(s, cat)
    ensures r.Some? ==> r.value.task == ReviewTask
    ensures r.Some? ==> r.value.plan == (if s.plan.Some? then DumpPlan(s.plan.value, false) else JNull)
    ensures r.Some? ==> forall cat :: HasOptions(s, cat) <==> exists i :: 0 <= i < |r.value.selections| && r.value.selections[i].kind == cat
  {
    var entries := Entries(s, ReviewOrder);
    AllInReviewOrder();
    if entries == [] then None
    else
      assert HasOptions(s, entries[0].kind);
      Some(Interrupt(ReviewTask, entries, if s.plan.Some? then DumpPlan(s.plan.value, false) else JNull))
  }

  /** The entries are exactly the categories with options, filtered from the review order, each
      carrying all of its category's candidates. */
  lemma {:induction false} EntriesAreFiltered(s: State, cats: seq<Category>)
    ensures Entries(s, cats) == Map(c => EntryFor(s, c), Filter(c => HasOptions(s, c), cats))
  {
    if cats != [] {
      EntriesAreFiltered(s, cats[1..]);
    }
  }

  /** Every option offered for review validates back to the candidate it was dumped from, so
      a client echoing an option returns exactly that candidate. */
  lemma AssembledOptionsRecover(s: State, i: int, j: int)
    requires Assemble(s).Some? && 0 <= i < |Assemble(s).value.selections|
    requires var cat := Assemble(s).value.selections[i].kind;
      forall k :: 0 <= k < |ListOf(s, cat).value| ==> WellFormed(cat, ListOf(s, cat).value[k])
    requires 0 <= j < |Assemble(s).value.selections[i].options|
    ensures var e := Assemble(s).value.selections[i];
      j < |ListOf(s, e.kind).value| && Load(e.kind, e.options[j]) == Some(ListOf(s, e.kind).value[j])
  {
    var e := Assemble(s).value.selections[i];
    EntriesAreFiltered(s, ReviewOrder);
    var kinds := Filter(c => HasOptions(s, c), ReviewOrder);
    assert e == EntryFor(s, kinds[i]);
    LoadDumpFull(e.kind, ListOf(s, e.kind).value[j]);
  }

  // ---------------------------------------------------------------------------
  // Human review: the resume

  datatype ReviewError = BadPlan | BadSelection(cat: Category)

  const ReviewDone := Message(Human, "Human review completed", None)

  /** The keys of an object whose values are truthy. */
  function TruthyPart(m: map<string, Json>): (r: map<string, Json>)
    ensures r.Keys <= m.Keys
    ensures forall k :: k in r ==> r[k] == m[k] && Truthy(m[k])
    ensures forall k :: k in m && Truthy(m[k]) ==> k in r
  {
    map k | k in m && Truthy(m[k]) :: m[k]
  }

  /** A research-plan answer: an object whose truthy entries become directives. */
  function PlanAnswer(v: Json): Option<ResearchPlan> {
    if v.JObj? then LoadPlan(JObj(TruthyPart(v.fields))) else None
  }

  /** Validates every item as a candidate of `cat`, keeping the order. */
  function LoadAll(cat: Category, items: seq<Json>): (r: Option<seq<Candidate>>)
    ensures r.Some? <==> forall i :: 0 <= i < |items| ==> Load(cat, items[i]).Some?
    ensures r.Some? ==> |r.value| == |items| && forall i :: 0 <= i < |items| ==> Load(cat, items[i]) == Some(r.value[i])
  {
    MapAll(j => Load(cat, j), items)
  }

  /** One category's answer: a single object is wrapped in a list; anything other than an
      object or a list of candidate objects makes the node raise. */
  function Selection(cat: Category, v: Json): Option<seq<Candidate>> {
    if v.JObj? then LoadAll(cat, [v])
    else if v.JArr? then LoadAll(cat, v.items)
    else None
  }

  /** The category's answer, when there is a non-empty one: `Ok(None)` leaves the list alone. */
  function ApplySelection(a: map<string, Json>, cat: Category): Result<Option<seq<Candidate>>, ReviewError> {
    var key := CategoryKey(cat);
    if key in a && Truthy(a[key]) then
      match Selection(cat, a[key])
      case Some(cs) => Ok(Some(cs))
      case None => Err(BadSelection(cat))
    else Ok(None)
  }

  function PutList(m: map<Category, Option<seq<Candidate>>>, cat: Category, o: Option<seq<Candidate>>): map<Category, Option<seq<Candidate>>> {
    if o.Some? then m[cat := Some(o.value)] else m
  }

  /** The research-plan part of the answer: a truthy answer must validate as a plan; otherwise
      the plan is cleared. */
  function PlanPart(a: map<string, Json>): Result<Option<ResearchPlan>, ReviewError> {
    if "research_plan" in a && Truthy(a["research_plan"]) then
      match PlanAnswer(a["research_plan"])
      case Some(p) => Ok(Some(p))
      case None => Err(BadPlan)
    else Ok(None)
  }

  /** The lists of an update, from the answers for activities, food, lodging and transport. */
  function Lists(activities: Option<seq<Candidate>>, food: Option<seq<Candidate>>,
                 lodging: Option<seq<Candidate>>, transport: Option<seq<Candidate>>): map<Category, Option<seq<Candidate>>> {
    PutList(PutList(PutList(PutList(map[], Activities, activities), Food, food), Lodging, lodging), Transport, transport)
  }

  /** The second half of the review node: the update it returns for the resume value `a`, or
      the error it raises. The plan is handled first, then activities, food, lodging and
      intercity transport. */
  function ApplyResume(a: map<string, Json>): (r: Result<Update, ReviewError>)
    ensures r.Ok? ==> r.value.messages == [ReviewDone] && r.value.plan.Some? && r.value.recommendations.None?
  {
    var plan :- PlanPart(a);
    var activities :- ApplySelection(a, Activities);
    var food :- ApplySelection(a, Food);
    var lodging :- ApplySelection(a, Lodging);
    var transport :- ApplySelection(a, Transport);
    Ok(Update([ReviewDone], Some(plan), Lists(activities, food, lodging, transport), None))
  }

  /** An accepted answer: every part accepted, and the update built from the parts. */
  lemma ResumeOfParts(a: map<string, Json>)
    requires ApplyResume(a).Ok?
    ensures PlanPart(a).Ok? && forall cat :: ApplySelection(a, cat).Ok?
    ensures ApplyResume(a).value == Update([ReviewDone], Some(PlanPart(a).value),
              Lists(ApplySelection(a, Activities).value, ApplySelection(a, Food).value,
                    ApplySelection(a, Lodging).value, ApplySelection(a, Transport).value), None)
  {
    forall cat ensures ApplySelection(a, cat).Ok? {
      match cat
      case Activities =>
      case Food =>
      case Lodging =>
      case Transport =>
    }
  }

  /** An answer whose parts are all accepted is accepted. */
  lemma ResumeFromParts(a: map<string, Json>)
    requires PlanPart(a).Ok? && forall cat :: ApplySelection(a, cat).Ok?
    ensures ApplyResume(a).Ok?
  {
    assert ApplySelection(a, Activities).Ok? && ApplySelection(a, Food).Ok?;
    assert ApplySelection(a, Lodging).Ok? && ApplySelection(a, Transport).Ok?;
  }

  /** A category is in the lists exactly when its answer is present, with that answer. */
  lemma ListsAt(act: Option<seq<Candidate>>, food: Option<seq<Candidate>>,
                lodging: Option<seq<Candidate>>, transport: Option<seq<Candidate>>, cat: Category)
    ensures var o := match cat
                     case Activities => act case Food => food case Lodging => lodging case Transport => transport;
      (cat in Lists(act, food, lodging, transport) <==> o.Some?)
      && (o.Some? ==> Lists(act, food, lodging, transport)[cat] == o)
  {
  }

  /** A category's list is touched exactly when the answer holds something truthy for it, and
      then it is set to the validated answer. */
  lemma ResumeTouches(a: map<string, Json>, cat: Category)
    requires ApplyResume(a).Ok?
    ensures var u := ApplyResume(a).value;
      (cat in u.lists <==> CategoryKey(cat) in a && Truthy(a[CategoryKey(cat)]))
      && (cat in u.lists ==> u.lists[cat] == Selection(cat, a[CategoryKey(cat)]))
  {
    ResumeOfParts(a);
    ListsAt(ApplySelection(a, Activities).value, ApplySelection(a, Food).value,
            ApplySelection(a, Lodging).value, ApplySelection(a, Transport).value, cat);
  }

  /** Without a truthy `research_plan` answer the plan is cleared; with one, it is replaced. */
  lemma ResumePlan(a: map<string, Json>)
    requires ApplyResume(a).Ok?
    ensures var u := ApplyResume(a).value;
      if "research_plan" in a && Truthy(a["research_plan"]) then u.plan == Some(PlanAnswer(a["research_plan"]))
      else u.plan == Some(None)
  {
  }

  /** The answer a client builds from a plan: each directive that has at least one field set is
      kept, and the other categories get no directive. */
  lemma PlanAnswerOfDump(p: ResearchPlan)
    ensures PlanAnswer(DumpPlan(p, true)) == Some(Keep(p))
  {
    var m := DumpPlan(p, true).fields;
    var t := TruthyPart(m);
    forall cat
      ensures DirectiveOf(Keep(p), cat).Some? ==> PlanKey(cat) in t && t[PlanKey(cat)] == DumpDirective(DirectiveOf(p, cat).value, true)
      ensures DirectiveOf(Keep(p), cat).None? ==> PlanKey(cat) !in t
    {
      DumpPlanEntry(p, true, cat);
      if DirectiveOf(p, cat).Some? {
        DumpDirectiveTruthy(DirectiveOf(p, cat).value);
      }
    }
    assert t.Keys <= PlanKeys;
    var q := LoadPlan(JObj(t));
    forall cat
      ensures LoadPlanEntry(t, cat) == Some(DirectiveOf(Keep(p), cat))
    {
      if DirectiveOf(Keep(p), cat).Some? {
        LoadDumpDirective(DirectiveOf(p, cat).value, true);
      }
    }
    assert LoadPlanEntry(t, Lodging) == Some(Keep(p).lodging);
    assert LoadPlanEntry(t, Activities) == Some(Keep(p).activities);
    assert LoadPlanEntry(t, Food) == Some(Keep(p).food);
    assert LoadPlanEntry(t, Transport) == Some(Keep(p).transport);
  }

  /** A directive survives the review step only if it has a field set. */
  function KeepDirective(d: Option<Directive>): Option<Directive> {
    if d.Some? && !EmptyDirective(d.value) then d else None
  }

  /** The plan the review node keeps from an answer built by dumping `p` without `None` fields. */
  function Keep(p: ResearchPlan): (r: ResearchPlan)
    ensures forall cat :: DirectiveOf(r, cat).Some? <==> DirectiveOf(p, cat).Some? && !EmptyDirective(DirectiveOf(p, cat).value)
    ensures forall cat :: DirectiveOf(r, cat).Some? ==> DirectiveOf(r, cat) == DirectiveOf(p, cat)
  {
    ResearchPlan(KeepDirective(p.lodging), KeepDirective(p.activities), KeepDirective(p.food), KeepDirective(p.transport))
  }

  /** The answer a client sends for a selection: the chosen candidates of one category, each
      dumped without `None` fields. */
  function SelectionAnswer(cat: Category, chosen: seq<Candidate>): map<string, Json> {
    map[CategoryKey(cat) := JArr(seq(|chosen|, i requires 0 <= i < |chosen| => Dump(chosen[i])))]
  }

  /** Validating dumped well-formed candidates gives them back, in order. */
  lemma LoadAllDumps(cat: Category, chosen: seq<Candidate>)
    requires forall i :: 0 <= i < |chosen| ==> WellFormed(cat, chosen[i])
    ensures LoadAll(cat, seq(|chosen|, i requires 0 <= i < |chosen| => Dump(chosen[i]))) == Some(chosen)
  {
    var items := seq(|chosen|, i requires 0 <= i < |chosen| => Dump(chosen[i]));
    forall i | 0 <= i < |chosen| ensures Load(cat, items[i]) == Some(chosen[i]) {
      LoadDump(cat, chosen[i]);
    }
    var r := LoadAll(cat, items).value;
    assert r == chosen;
  }

  /** Resuming with a non-empty selection of well-formed candidates sets that category's update
      to exactly those candidates, clears the plan and touches no other category. */
  lemma ResumeWithSelection(cat: Category, chosen: seq<Candidate>)
    requires chosen != []
    requires forall i :: 0 <= i < |chosen| ==> WellFormed(cat, chosen[i])
    ensures ApplyResume(SelectionAnswer(cat, chosen)) == Ok(Update([ReviewDone], Some(None), map[cat := Some(chosen)], None))
  {
    var a := SelectionAnswer(cat, chosen);
    SelectionParts(cat, chosen);
    ResumeFromParts(a);
    ResumeOfParts(a);
    OneList(cat, chosen);
  }

  /** The value the review node writes for a category it sets: the `model_dump()` of the
      category's wrapper, a dictionary holding the full dumps under the wrapper's field. */
  function ReviewWrite(cat: Category, cs: seq<Candidate>): Reducer.Written {
    Reducer.Dumped(map[WrapperField(cat) := JArr(seq(|cs|, i requires 0 <= i < |cs| => DumpFull(cat, cs[i])))])
  }

  /** What a category's channel holds: the research node's model, if any. */
  function Held(s: State, cat: Category): Option<Reducer.Written> {
    match ListOf(s, cat)
    case None => None
    case Some(cs) => Some(Reducer.Model(cs))
  }

  /** The review update's merge into one channel as written: a list it sets reaches the reducer
      as the dumped dictionary. */
  function MergeReviewAsWritten(s: State, u: Update, cat: Category): Result<Option<Reducer.Written>, Reducer.MergeError> {
    if cat in u.lists && u.lists[cat].Some? then Reducer.MergeWritten(Held(s, cat), Some(ReviewWrite(cat, u.lists[cat].value)))
    else Ok(Held(s, cat))
  }

  /** As written, a truthy answer for a category whose options the state holds, which are the
      only categories review offers, makes the reducer raise; a category the answer leaves
      alone keeps its channel. */
  lemma ResumeAsWrittenRaises(s: State, a: map<string, Json>, cat: Category)
    requires ApplyResume(a).Ok?
    ensures ListOf(s, cat).Some? && CategoryKey(cat) in a && Truthy(a[CategoryKey(cat)]) ==>
              MergeReviewAsWritten(s, ApplyResume(a).value, cat).Err?
    ensures !(CategoryKey(cat) in a && Truthy(a[CategoryKey(cat)])) ==>
              MergeReviewAsWritten(s, ApplyResume(a).value, cat) == Ok(Held(s, cat))
  {
    ResumeTouches(a, cat);
    ResumeOfParts(a);
  }

  /** The parts of a one-category selection answer: no plan, the chosen candidates for that
      category and nothing for the others. */
  lemma SelectionParts(cat: Category, chosen: seq<Candidate>)
    requires chosen != []
    requires forall i :: 0 <= i < |chosen| ==> WellFormed(cat, chosen[i])
    ensures PlanPart(SelectionAnswer(cat, chosen)) == Ok(None)
    ensures forall c :: ApplySelection(SelectionAnswer(cat, chosen), c) == if c == cat then Ok(Some(chosen)) else Ok(None)
  {
    var a := SelectionAnswer(cat, chosen);
    var items := seq(|chosen|, i requires 0 <= i < |chosen| => Dump(chosen[i]));
    assert a == map[CategoryKey(cat) := JArr(items)];
    LoadAllDumps(cat, chosen);
    forall c ensures ApplySelection(a, c) == if c == cat then Ok(Some(chosen)) else Ok(None) {
      if c != cat && CategoryKey(c) == CategoryKey(cat) {
        CategoryKeyInjective(c, cat);
      }
    }
    assert "research_plan" !in a;
  }

  /** The lists of an answer for one category only. */
  lemma OneList(cat: Category, chosen: seq<Candidate>)
    ensures Lists(if cat == Activities then Some(chosen) else None, if cat == Food then Some(chosen) else None,
                  if cat == Lodging then Some(chosen) else None, if cat == Transport then Some(chosen) else None)
            == map[cat := Some(chosen)]
  {
  }

  // ---------------------------------------------------------------------------
  // The edge after review

  /** The nodes of the planning graph. */
  datatype NodeName =
    | BudgetEstimate | ResearchPlanNode
    | ResearchLodging | ResearchActivities | ResearchFood | ResearchTransport | ResearchRecommendations
    | HumanReview | Planner

  function ResearchNode(cat: Category): NodeName {
    match cat
    case Lodging => ResearchLodging
    case Activities => ResearchActivities
    case Food => ResearchFood
    case Transport => ResearchTransport
  }

  lemma ResearchNodeInjective(a: Category, b: Category)
    requires ResearchNode(a) == ResearchNode(b)
    ensures a == b
  {
  }

  /** The order in which follow-up research nodes are listed. */
  const RouteOrder: seq<Category> := [Activities, Food, Lodging, Transport]

  lemma AllInRouteOrder()
    ensures forall cat :: cat in RouteOrder
  {
    forall cat ensures cat in RouteOrder {
      match cat
      case Activities => assert RouteOrder[0] == cat;
      case Food => assert RouteOrder[1] == cat;
      case Lodging => assert RouteOrder[2] == cat;
      case Transport => assert RouteOrder[3] == cat;
    }
  }

  predicate Directed(p: ResearchPlan, cat: Category) {
    DirectiveOf(p, cat).Some?
  }

  /** The categories the plan has a directive for, in routing order. */
  function Requested(p: ResearchPlan): (r: seq<Category>)
    ensures forall cat :: cat in r <==> Directed(p, cat)
  {
    var directed := c => Directed(p, c);
    AllInRouteOrder();
    FilterIff(directed, RouteOrder);
    Filter(directed, RouteOrder)
  }

  /** `route_from_human_response`: the research nodes of the categories the plan has a directive
      for (a directive is truthy even when it asks for zero candidates), or the planner. */
  function Route(plan: Option<ResearchPlan>): (r: seq<NodeName>)
    ensures r != []
    ensures Planner in r ==> r == [Planner]
  {
    if plan.None? || Requested(plan.value) == [] then [Planner]
    else
      ResearchNodesNotPlanner(Requested(plan.value));
      Map(ResearchNode, Requested(plan.value))
  }

  /** Research nodes are never the planner. */
  lemma ResearchNodesNotPlanner(cats: seq<Category>)
    ensures |Map(ResearchNode, cats)| == |cats| && Planner !in Map(ResearchNode, cats)
  {
  }

  /** The edge goes to the planner exactly when there is no plan or the plan directs no research;
      otherwise to exactly the research nodes of the directed categories, and never to the
      recommendations node or back to the budget or planning nodes. */
  lemma RouteToPlanner(plan: Option<ResearchPlan>)
    ensures Route(plan) == [Planner] <==> plan.None? || forall cat :: !Directed(plan.value, cat)
  {
    if plan.Some? && Requested(plan.value) != [] {
      var req := Requested(plan.value);
      assert Route(plan)[0] == ResearchNode(req[0]);
      assert req[0] in req;
    }
  }

  lemma RouteTargets(plan: Option<ResearchPlan>)
    ensures forall cat :: ResearchNode(cat) in Route(plan) <==> plan.Some? && Directed(plan.value, cat)
    ensures forall n :: n in Route(plan) ==> n == Planner || exists cat :: n == ResearchNode(cat)
  {
    if plan.Some? && Requested(plan.value) != [] {
      MapResearchIff(Requested(plan.value));
    }
  }

  /** The route names only the four candidate research nodes and the planner. */
  lemma RouteNodes(plan: Option<ResearchPlan>)
    ensures forall n :: n in Route(plan) ==>
      n == Planner || n == ResearchLodging || n == ResearchActivities || n == ResearchFood || n == ResearchTransport
  {
    var r := Route(plan);
    if plan.Some? && Requested(plan.value) != [] {
      var req := Requested(plan.value);
      forall n | n in r
        ensures n == ResearchLodging || n == ResearchActivities || n == ResearchFood || n == ResearchTransport
      {
        var i :| 0 <= i < |r| && r[i] == n;
        assert n == ResearchNode(req[i]);
      }
    }
  }

  /** A research node is among the mapped categories exactly when its category is, and every
      mapped node is a research node. */
  lemma MapResearchIff(cats: seq<Category>)
    ensures forall cat :: ResearchNode(cat) in Map(ResearchNode, cats) <==> cat in cats
    ensures forall n :: n in Map(ResearchNode, cats) ==> exists cat :: n == ResearchNode(cat)
  {
    var r := Map(ResearchNode, cats);
    forall cat | ResearchNode(cat) in r ensures cat in cats {
      var i :| 0 <= i < |r| && r[i] == ResearchNode(cat);
      ResearchNodeInjective(cats[i], cat);
    }
    forall cat | cat in cats ensures ResearchNode(cat) in r {
      var i :| 0 <= i < |cats| && cats[i] == cat;
      assert r[i] == ResearchNode(cat);
    }
    forall n | n in r ensures exists cat :: n == ResearchNode(cat) {
      var i :| 0 <= i < |r| && r[i] == n;
      assert n == ResearchNode(cats[i]);
    }
  }

  /** The research nodes come in the order activities, food, lodging, intercity transport, each
      at most once. */
  lemma RouteOrdered(plan: ResearchPlan)
    requires exists cat :: Directed(plan, cat)
    ensures IsSubseq(Route(Some(plan)), Map(ResearchNode, RouteOrder))
  {
    var cat :| Directed(plan, cat);
    assert cat in Requested(plan);
    MapSubseq(ResearchNode, Requested(plan), RouteOrder);
  }

  /** When review finds nothing to offer it returns no update, so the plan is the one research
      was started with and the edge after review sends the graph back to the same research. */
  lemma EmptyReviewRoutesAgain(s: State)
    requires Assemble(s).None?
    ensures Route(Apply(s, NoUpdate).plan) == Route(s.plan)
  {
    ApplyNoUpdate(s);
  }
}
