/** The wiring of the planning graph as a transition relation: fixed edges, plus the
    conditional edge after human review, whose targets depend on the research plan. */
module Graph {
  import opened Wrappers
  import opened Candidates
  import opened Schemas
  import opened Nodes

  datatype Vertex = Start | End | At(node: NodeName)

  /** The compiled graph: its fixed edges and the node whose successors the route decides. */
  datatype Wiring = Wiring(edges: set<(Vertex, Vertex)>, conditional: NodeName)

  const ResearchNodes: set<NodeName> :=
    {ResearchLodging, ResearchActivities, ResearchFood, ResearchTransport, ResearchRecommendations}

  /** `build_research_graph`: one edge per `add_edge` call; the review mode argument is
      accepted and not used. */
  function Build(humanReview: string): (w: Wiring)
    ensures w.conditional == HumanReview
  {
    Wiring(
      {(Start, At(BudgetEstimate)),
       (At(BudgetEstimate), At(ResearchPlanNode)),
       (At(ResearchPlanNode), At(ResearchActivities)),
       (At(ResearchPlanNode), At(ResearchLodging)),
       (At(ResearchPlanNode), At(ResearchFood)),
       (At(ResearchPlanNode), At(ResearchTransport)),
       (At(ResearchPlanNode), At(ResearchRecommendations)),
       (At(ResearchActivities), At(HumanReview)),
       (At(ResearchLodging), At(HumanReview)),
       (At(ResearchFood), At(HumanReview)),
       (At(ResearchTransport), At(HumanReview)),
       (At(ResearchRecommendations), At(HumanReview)),
       (At(Planner), End)},
      HumanReview)
  }

  /** The wiring is the same whatever review mode is asked for. */
  lemma BuildIgnoresMode(a: string, b: string)
    ensures Build(a) == Build(b)
  {
  }

  /** One step of the graph when the state holds `plan`: a fixed edge, or the route out of review. */
  predicate Step(w: Wiring, plan: Option<ResearchPlan>, v: Vertex, x: Vertex) {
    (v, x) in w.edges || (v == At(w.conditional) && x.At? && x.node in Route(plan))
  }

  /** Where the graph can go from `v`, under any plan. */
  function Successors(v: Vertex): set<Vertex> {
    match v
    case Start => {At(BudgetEstimate)}
    case End => {}
    case At(n) =>
      if n == BudgetEstimate then {At(ResearchPlanNode)}
      else if n == ResearchPlanNode then
        {At(ResearchLodging), At(ResearchActivities), At(ResearchFood), At(ResearchTransport), At(ResearchRecommendations)}
      else if n in ResearchNodes then {At(HumanReview)}
      else if n == HumanReview then
        {At(ResearchLodging), At(ResearchActivities), At(ResearchFood), At(ResearchTransport), At(Planner)}
      else {End}
  }

  /** Every step the graph takes stays within `Successors`. */
  lemma StepSound(mode: string, plan: Option<ResearchPlan>, v: Vertex, x: Vertex)
    requires Step(Build(mode), plan, v, x)
    ensures x in Successors(v)
  {
    if (v, x) in Build(mode).edges {
      FixedSound(mode, v, x);
    } else {
      ReviewSound(plan, x);
    }
  }

  /** Every fixed edge is a member of `Successors`. */
  lemma FixedSound(mode: string, v: Vertex, x: Vertex)
    requires (v, x) in Build(mode).edges
    ensures x in Successors(v)
  {
  }

  /** Every target of the route out of review is a member of `Successors`. */
  lemma ReviewSound(plan: Option<ResearchPlan>, x: Vertex)
    requires x.At? && x.node in Route(plan)
    ensures x in Successors(At(HumanReview))
  {
    RouteNodes(plan);
    ReviewSuccessor(x.node);
  }

  /** The candidate research nodes and the planner are the successors of review. */
  lemma ReviewSuccessor(n: NodeName)
    requires n == Planner || n == ResearchLodging || n == ResearchActivities || n == ResearchFood || n == ResearchTransport
    ensures At(n) in Successors(At(HumanReview))
  {
    assert HumanReview !in ResearchNodes;
  }

  /** A plan with a directive for one category only. */
  function OnlyDirective(cat: Category): ResearchPlan {
    var d := Some(Directive(None, None, None));
    ResearchPlan(if cat == Lodging then d else None, if cat == Activities then d else None,
                 if cat == Food then d else None, if cat == Transport then d else None)
  }

  /** Outside review, every member of `Successors` is a fixed edge. */
  lemma FixedComplete(mode: string, v: Vertex, x: Vertex)
    requires x in Successors(v) && v != At(HumanReview)
    ensures (v, x) in Build(mode).edges
  {
  }

  /** Out of review, each research category and the planner are reachable under a suitable plan. */
  lemma ReviewComplete(x: Vertex)
    requires x in Successors(At(HumanReview))
    ensures exists plan :: x.At? && x.node in Route(plan)
  {
    if x == At(Planner) {
      RouteToPlanner(None);
      assert x.node in Route(None);
    } else {
      var cat := if x == At(ResearchLodging) then Lodging else if x == At(ResearchActivities) then Activities
                 else if x == At(ResearchFood) then Food else Transport;
      assert x.node == ResearchNode(cat);
      var p := Some(OnlyDirective(cat));
      assert Directed(p.value, cat);
      RouteTargets(p);
      assert x.node in Route(p);
    }
  }

  /** Every member of `Successors` is a step the graph takes under some plan. */
  lemma StepComplete(mode: string, v: Vertex, x: Vertex)
    requires x in Successors(v)
    ensures exists plan :: Step(Build(mode), plan, v, x)
  {
    if v == At(HumanReview) {
      ReviewComplete(x);
      var plan :| x.At? && x.node in Route(plan);
      assert Step(Build(mode), plan, v, x);
    } else {
      FixedComplete(mode, v, x);
      assert Step(Build(mode), None, v, x);
    }
  }

  /** A run of the graph: starts at START and takes an edge at every step, whatever the plan. */
  predicate IsPath(p: seq<Vertex>) {
    |p| >= 1 && p[0] == Start && forall i :: 0 <= i < |p| - 1 ==> p[i + 1] in Successors(p[i])
  }

  /** A run in which the state's plan may change between steps. */
  predicate IsRun(mode: string, p: seq<Vertex>, plans: seq<Option<ResearchPlan>>) {
    |p| >= 1 && |plans| == |p| - 1 && p[0] == Start &&
    forall i :: 0 <= i < |p| - 1 ==> Step(Build(mode), plans[i], p[i], p[i + 1])
  }

  /** Every actual run is a path through `Successors`, so what is proved about paths holds for runs. */
  lemma RunIsPath(mode: string, p: seq<Vertex>, plans: seq<Option<ResearchPlan>>)
    requires IsRun(mode, p, plans)
    ensures IsPath(p)
  {
    forall i | 0 <= i < |p| - 1
      ensures p[i + 1] in Successors(p[i])
    {
      StepSound(mode, plans[i], p[i], p[i + 1]);
    }
  }

  /** The vertices a run can be at from its fourth step on. */
  predicate Late(v: Vertex) {
    v == End || (v.At? && (v.node in ResearchNodes || v.node == HumanReview || v.node == Planner))
  }

  lemma LateClosed(v: Vertex, x: Vertex)
    requires Late(v) && x in Successors(v)
    ensures Late(x)
  {
  }

  /** The first steps of every run are fixed: budget estimate, then research planning, then
      research; after that the run stays among the research, review and planner nodes. */
  lemma {:induction false} PathPhases(p: seq<Vertex>, i: int)
    requires IsPath(p) && 0 <= i < |p|
    ensures i == 0 ==> p[i] == Start
    ensures i == 1 ==> p[i] == At(BudgetEstimate)
    ensures i == 2 ==> p[i] == At(ResearchPlanNode)
    ensures i == 3 ==> p[i].At? && p[i].node in ResearchNodes
    ensures i >= 3 ==> Late(p[i])
  {
    if i > 0 {
      PathPhases(p, i - 1);
      assert p[i] in Successors(p[i - 1]);
      if i > 3 {
        LateClosed(p[i - 1], p[i]);
      }
    }
  }

  /** On every run the budget estimate happens once, at step 1, and research planning once, at
      step 2, both before any research node. */
  lemma PlanningOnce(p: seq<Vertex>, i: int)
    requires IsPath(p) && 0 <= i < |p|
    ensures p[i] == At(BudgetEstimate) <==> i == 1
    ensures p[i] == At(ResearchPlanNode) <==> i == 2
    ensures p[i].At? && p[i].node in ResearchNodes ==> i >= 3
  {
    PathPhases(p, i);
  }

  /** Only the planner leads to END, and it leads nowhere else: planning never loops back to
      research by itself. */
  lemma EndOnlyAfterPlanner(v: Vertex)
    ensures End in Successors(v) <==> v == At(Planner)
    ensures Successors(At(Planner)) == {End}
  {
  }

  /** Research planning fans out to exactly the five research nodes, and review is the only
      successor of each of them. */
  lemma FanOutFanIn(n: NodeName)
    ensures Successors(At(ResearchPlanNode)) == set m | m in ResearchNodes :: At(m)
    ensures n in ResearchNodes ==> Successors(At(n)) == {At(HumanReview)}
  {
  }
}
