/** The records of the trip planner besides the candidates themselves: the budget estimate,
    the research plan, travellers and the trip context, and the records the planner and the
    recommendations agent produce. */
module Schemas {
  import opened Wrappers
  import opened Json
  import opened Types
  import opened Dates
  import opened Candidates

  // ---------------------------------------------------------------------------
  // BudgetEstimate

  datatype Budget = Budget(
    level: Option<string>,
    currency: string,
    intercityTransport: real,
    localTransport: real,
    food: real,
    activities: real,
    lodging: real,
    other: real,
    perDay: real,
    notes: Option<string>)

  /** What validation guarantees of a budget estimate. */
  predicate BudgetValid(b: Budget) {
    && (b.level.Some? ==> IsPriceLevel(b.level.value))
    && IsIso4217(b.currency)
    && IsNonNegMoney(b.intercityTransport) && IsNonNegMoney(b.localTransport)
    && IsNonNegMoney(b.food) && IsNonNegMoney(b.activities)
    && IsNonNegMoney(b.lodging) && IsNonNegMoney(b.other) && IsNonNegMoney(b.perDay)
  }

  /** The six spending categories the total covers (the daily average is not one of them). */
  function Amounts(b: Budget): seq<real> {
    [b.intercityTransport, b.localTransport, b.food, b.activities, b.lodging, b.other]
  }

  function Sum(xs: seq<real>): real {
    if xs == [] then 0.0 else xs[0] + Sum(xs[1..])
  }

  /** `BudgetEstimate.total`. */
  function Total(b: Budget): (t: real)
    ensures BudgetValid(b) ==> t >= 0.0
    ensures BudgetValid(b) ==> forall i :: 0 <= i < |Amounts(b)| ==> Amounts(b)[i] <= t
  {
    b.intercityTransport + b.localTransport + b.food + b.activities + b.lodging + b.other
  }

  /** The total is the sum of the six category amounts. */
  lemma TotalIsSum(b: Budget)
    ensures Total(b) == Sum(Amounts(b))
  {
    var a := Amounts(b);
    assert Sum(a[5..]) == b.other by { assert a[5..][1..] == []; }
    assert Sum(a[4..]) == b.lodging + Sum(a[5..]) by { assert a[4..][1..] == a[5..]; }
    assert Sum(a[3..]) == b.activities + Sum(a[4..]) by { assert a[3..][1..] == a[4..]; }
    assert Sum(a[2..]) == b.food + Sum(a[3..]) by { assert a[2..][1..] == a[3..]; }
    assert Sum(a[1..]) == b.localTransport + Sum(a[2..]) by { assert a[1..][1..] == a[2..]; }
  }

  /** A valid budget totals zero exactly when nothing is spent in any category. */
  lemma TotalZero(b: Budget)
    requires BudgetValid(b)
    ensures Total(b) == 0.0 <==> forall i :: 0 <= i < |Amounts(b)| ==> Amounts(b)[i] == 0.0
  {
    var a := Amounts(b);
    if Total(b) == 0.0 {
      forall i | 0 <= i < |a| ensures a[i] == 0.0 {
        assert a[i] <= Total(b);
      }
    } else {
      assert a[0] != 0.0 || a[1] != 0.0 || a[2] != 0.0 || a[3] != 0.0 || a[4] != 0.0 || a[5] != 0.0;
    }
  }

  // ---------------------------------------------------------------------------
  // CandidateResearch and ResearchPlan

  /** How many candidates of one category to research, and how. */
  datatype Directive = Directive(name: Option<string>, description: Option<string>, count: Option<int>)

  /** `ResearchPlan`: one optional directive per category. */
  datatype ResearchPlan = ResearchPlan(
    lodging: Option<Directive>,
    activities: Option<Directive>,
    food: Option<Directive>,
    transport: Option<Directive>)

  const NoPlanDirectives := ResearchPlan(None, None, None, None)

  /** The key of a category's directive in a serialised plan. */
  function PlanKey(cat: Category): string {
    match cat
    case Lodging => "lodging_candidates"
    case Activities => "activities_candidates"
    case Food => "food_candidates"
    case Transport => "intercity_transport_candidates"
  }

  const PlanKeys: set<string> :=
    {"lodging_candidates", "activities_candidates", "food_candidates", "intercity_transport_candidates"}

  function DirectiveOf(p: ResearchPlan, cat: Category): Option<Directive> {
    match cat
    case Lodging => p.lodging
    case Activities => p.activities
    case Food => p.food
    case Transport => p.transport
  }

  /** A directive with every field `None`. */
  predicate EmptyDirective(d: Directive) {
    d.name.None? && d.description.None? && d.count.None?
  }

  function OptStr(m: map<string, Json>, k: string): Option<Option<string>> {
    if k !in m || m[k] == JNull then Some(None)
    else if m[k].JStr? then Some(Some(m[k].s))
    else None
  }

  function OptInt(m: map<string, Json>, k: string): Option<Option<int>> {
    if k !in m || m[k] == JNull then Some(None)
    else if m[k].JInt? then Some(Some(m[k].i))
    else None
  }

  /** `CandidateResearch(**d)`: unknown keys are ignored; a non-object is refused. */
  function LoadDirective(j: Json): (r: Option<Directive>)
    ensures r.Some? ==> j.JObj?
  {
    if !j.JObj? then None
    else
      var name :- OptStr(j.fields, "name");
      var description :- OptStr(j.fields, "description");
      var count :- OptInt(j.fields, "candidates_number");
      Some(Directive(name, description, count))
  }

  function PutStr(m: map<string, Json>, k: string, o: Option<string>, excludeNone: bool): map<string, Json> {
    if o.Some? then m[k := JStr(o.value)] else if excludeNone then m else m[k := JNull]
  }

  function PutInt(m: map<string, Json>, k: string, o: Option<int>, excludeNone: bool): map<string, Json> {
    if o.Some? then m[k := JInt(o.value)] else if excludeNone then m else m[k := JNull]
  }

  /** `directive.model_dump(exclude_none=excludeNone)`. */
  function DumpDirective(d: Directive, excludeNone: bool): Json {
    JObj(PutInt(PutStr(PutStr(map[], "name", d.name, excludeNone), "description", d.description, excludeNone),
                "candidates_number", d.count, excludeNone))
  }

  /** Dumping without `None` fields leaves an empty object exactly for an empty directive,
      and an empty object is falsy. */
  lemma DumpDirectiveTruthy(d: Directive)
    ensures Truthy(DumpDirective(d, true)) <==> !EmptyDirective(d)
  {
    if d.name.Some? {
      assert "name" in DumpDirective(d, true).fields;
    } else if d.description.Some? {
      assert "description" in DumpDirective(d, true).fields;
    } else if d.count.Some? {
      assert "candidates_number" in DumpDirective(d, true).fields;
    }
  }

  lemma LoadDumpDirective(d: Directive, excludeNone: bool)
    ensures LoadDirective(DumpDirective(d, excludeNone)) == Some(d)
  {
  }

  function LoadPlanEntry(m: map<string, Json>, cat: Category): Option<Option<Directive>> {
    var k := PlanKey(cat);
    if k !in m || m[k] == JNull then Some(None)
    else match LoadDirective(m[k])
      case None => None
      case Some(d) => Some(Some(d))
  }

  /** `ResearchPlan(**d)`: every key must name a category; `null` means no directive. */
  function LoadPlan(j: Json): (r: Option<ResearchPlan>)
    ensures r.Some? ==> j.JObj? && j.fields.Keys <= PlanKeys
  {
    if !j.JObj? || !(j.fields.Keys <= PlanKeys) then None
    else
      var m := j.fields;
      var lodging :- LoadPlanEntry(m, Lodging);
      var activities :- LoadPlanEntry(m, Activities);
      var food :- LoadPlanEntry(m, Food);
      var transport :- LoadPlanEntry(m, Transport);
      Some(ResearchPlan(lodging, activities, food, transport))
  }

  function PutDirective(m: map<string, Json>, cat: Category, o: Option<Directive>, excludeNone: bool): map<string, Json> {
    if o.Some? then m[PlanKey(cat) := DumpDirective(o.value, excludeNone)]
    else if excludeNone then m else m[PlanKey(cat) := JNull]
  }

  /** `plan.model_dump(exclude_none=excludeNone)`. */
  function DumpPlan(p: ResearchPlan, excludeNone: bool): Json {
    JObj(PutDirective(PutDirective(PutDirective(PutDirective(map[],
      Lodging, p.lodging, excludeNone), Activities, p.activities, excludeNone),
      Food, p.food, excludeNone), Transport, p.transport, excludeNone))
  }

  lemma DumpPlanEntry(p: ResearchPlan, excludeNone: bool, cat: Category)
    ensures var m := DumpPlan(p, excludeNone).fields;
      && (DirectiveOf(p, cat).Some? ==> PlanKey(cat) in m && m[PlanKey(cat)] == DumpDirective(DirectiveOf(p, cat).value, excludeNone))
      && (DirectiveOf(p, cat).None? ==> PlanKey(cat) !in m || m[PlanKey(cat)] == JNull)
  {
    var m0: map<string, Json> := map[];
    var m1 := PutDirective(m0, Lodging, p.lodging, excludeNone);
    var m2 := PutDirective(m1, Activities, p.activities, excludeNone);
    var m3 := PutDirective(m2, Food, p.food, excludeNone);
    var m4 := PutDirective(m3, Transport, p.transport, excludeNone);
    assert DumpPlan(p, excludeNone).fields == m4;
    var k := PlanKey(cat);
    var o := DirectiveOf(p, cat);
    match cat
    case Lodging =>
      PutDirectiveAt(m0, cat, o, excludeNone);
      PutDirectiveFrame(m1, Activities, p.activities, excludeNone, k);
      PutDirectiveFrame(m2, Food, p.food, excludeNone, k);
      PutDirectiveFrame(m3, Transport, p.transport, excludeNone, k);
    case Activities =>
      PutDirectiveFrame(m0, Lodging, p.lodging, excludeNone, k);
      PutDirectiveAt(m1, cat, o, excludeNone);
      PutDirectiveFrame(m2, Food, p.food, excludeNone, k);
      PutDirectiveFrame(m3, Transport, p.transport, excludeNone, k);
    case Food =>
      PutDirectiveFrame(m0, Lodging, p.lodging, excludeNone, k);
      PutDirectiveFrame(m1, Activities, p.activities, excludeNone, k);
      PutDirectiveAt(m2, cat, o, excludeNone);
      PutDirectiveFrame(m3, Transport, p.transport, excludeNone, k);
    case Transport =>
      PutDirectiveFrame(m0, Lodging, p.lodging, excludeNone, k);
      PutDirectiveFrame(m1, Activities, p.activities, excludeNone, k);
      PutDirectiveFrame(m2, Food, p.food, excludeNone, k);
      PutDirectiveAt(m3, cat, o, excludeNone);
  }

  /** Writing one category's directive leaves every other key alone. */
  lemma PutDirectiveFrame(m: map<string, Json>, cat: Category, o: Option<Directive>, excludeNone: bool, k: string)
    requires k != PlanKey(cat)
    ensures k in PutDirective(m, cat, o, excludeNone) <==> k in m
    ensures k in m ==> PutDirective(m, cat, o, excludeNone)[k] == m[k]
  {
  }

  /** What writing a category's directive leaves under its key. */
  lemma PutDirectiveAt(m: map<string, Json>, cat: Category, o: Option<Directive>, excludeNone: bool)
    ensures var r := PutDirective(m, cat, o, excludeNone);
      && (o.Some? ==> PlanKey(cat) in r && r[PlanKey(cat)] == DumpDirective(o.value, excludeNone))
      && (o.None? && excludeNone ==> r == m)
      && (o.None? && !excludeNone ==> PlanKey(cat) in r && r[PlanKey(cat)] == JNull)
  {
  }

  /** A plan survives serialisation, with or without its `None` fields. */
  lemma LoadDumpPlan(p: ResearchPlan, excludeNone: bool)
    ensures LoadPlan(DumpPlan(p, excludeNone)) == Some(p)
  {
    var m := DumpPlan(p, excludeNone).fields;
    assert m.Keys <= PlanKeys;
    forall cat ensures LoadPlanEntry(m, cat) == Some(DirectiveOf(p, cat)) {
      DumpPlanEntry(p, excludeNone, cat);
      if DirectiveOf(p, cat).Some? {
        LoadDumpDirective(DirectiveOf(p, cat).value, excludeNone);
      }
    }
    LoadPlanOfEntries(DumpPlan(p, excludeNone), p);
  }

  /** A plan is read from an object of category keys whose entries each read back as `p`'s. */
  lemma LoadPlanOfEntries(j: Json, p: ResearchPlan)
    requires j.JObj? && j.fields.Keys <= PlanKeys
    requires forall cat :: LoadPlanEntry(j.fields, cat) == Some(DirectiveOf(p, cat))
    ensures LoadPlan(j) == Some(p)
  {
    assert LoadPlanEntry(j.fields, Lodging) == Some(p.lodging);
    assert LoadPlanEntry(j.fields, Activities) == Some(p.activities);
    assert LoadPlanEntry(j.fields, Food) == Some(p.food);
    assert LoadPlanEntry(j.fields, Transport) == Some(p.transport);
  }

  // ---------------------------------------------------------------------------
  // Traveller and Context

  datatype AgeGroup = Infant | Child | Adult

  datatype Traveller = Traveller(
    name: string,
    birth: Date,
    languages: Option<seq<string>>,
    interests: Option<seq<string>>,
    nationality: Option<string>,
    notes: Option<string>)

  /** Python's tuple comparison `(m1, d1) < (m2, d2)`. */
  predicate MonthDayBefore(m1: int, d1: int, m2: int, d2: int) {
    m1 < m2 || (m1 == m2 && d1 < d2)
  }

  /** Completed years of age on `today`. */
  function Age(birth: Date, today: Date): int {
    today.year - birth.year - (if MonthDayBefore(today.month, today.day, birth.month, birth.day) then 1 else 0)
  }

  /** The age is the number of birthdays reached: it is at least `k` exactly when the `k`-th
      anniversary of the birth date is not after today. */
  lemma AgeCountsBirthdays(birth: Date, today: Date, k: int)
    ensures Age(birth, today) >= k <==> !Before(today, Date(birth.year + k, birth.month, birth.day))
  {
  }

  function GroupOfAge(age: int): (g: AgeGroup)
    ensures g == Infant <==> age < 2
    ensures g == Child <==> 2 <= age < 18
    ensures g == Adult <==> age >= 18
  {
    if age < 2 then Infant else if age < 18 then Child else Adult
  }

  /** `Traveller.age_group`, with today's date as a parameter. */
  function AgeGroupOn(t: Traveller, today: Date): AgeGroup {
    GroupOfAge(Age(t.birth, today))
  }

  /** `Context.adults_num`, `children_num` and `infant_num`. */
  function CountGroup(ts: seq<Traveller>, today: Date, g: AgeGroup): (n: nat)
    ensures n <= |ts|
  {
    if ts == [] then 0
    else (if AgeGroupOn(ts[0], today) == g then 1 else 0) + CountGroup(ts[1..], today, g)
  }

  /** Every traveller is counted in exactly one of the three groups. */
  lemma {:induction false} CountsPartition(ts: seq<Traveller>, today: Date)
    ensures CountGroup(ts, today, Adult) + CountGroup(ts, today, Child) + CountGroup(ts, today, Infant) == |ts|
  {
    if ts != [] {
      CountsPartition(ts[1..], today);
    }
  }

  datatype GroupType = Family | Couple | Alone | Friends | Business

  datatype Context = Context(
    travellers: seq<Traveller>,
    budget: real,
    currency: string,
    destination: string,
    country: string,
    dateFrom: Date,
    dateTo: Date,
    group: GroupType,
    purpose: Option<string>,
    location: Option<string>,
    notes: Option<string>)

  const DefaultBudget: real := 1000.0
  const DefaultCurrency: string := "USD"

  datatype ContextError = InvalidField | DatesOutOfOrder(message: string)

  const DatesMessage := "date_from must be before or equal to date_to"

  /** What the field validators demand of a context. */
  predicate FieldsValid(c: Context) {
    && IsNonNegMoney(c.budget) && IsIso4217(c.currency) && Valid(c.dateFrom) && Valid(c.dateTo)
    && (forall i :: 0 <= i < |c.travellers| ==> Valid(c.travellers[i].birth))
  }

  /** Field validation, then the after-validator on the dates. */
  function ValidateContext(c: Context): (r: Result<Context, ContextError>)
    ensures r.Ok? ==> r.value == c
    ensures r.Ok? <==> FieldsValid(c) && !Before(c.dateTo, c.dateFrom)
    ensures r == Err(DatesOutOfOrder(DatesMessage)) <==> FieldsValid(c) && Before(c.dateTo, c.dateFrom)
  {
    if !FieldsValid(c) then
      Err(InvalidField)
    else if Before(c.dateTo, c.dateFrom) then Err(DatesOutOfOrder(DatesMessage))
    else Ok(c)
  }

  /** `Context.days_number`: both ends of the trip count. */
  function DaysNumber(c: Context): int
    requires Valid(c.dateFrom) && Valid(c.dateTo)
  {
    Ordinal(c.dateTo) - Ordinal(c.dateFrom) + 1
  }

  /** A validated context lasts at least one day, and exactly one when it starts and ends on
      the same date. */
  lemma DaysNumberPositive(c: Context)
    requires ValidateContext(c).Ok?
    ensures DaysNumber(c) >= 1
    ensures DaysNumber(c) == 1 <==> c.dateFrom == c.dateTo
  {
    if Before(c.dateFrom, c.dateTo) {
      OrdinalMonotone(c.dateFrom, c.dateTo);
    } else {
      assert c.dateFrom == c.dateTo;
    }
  }

  /** Extending the trip by one day adds one to the day count. */
  lemma DaysNumberNext(c: Context)
    requires Valid(c.dateFrom) && Valid(c.dateTo) && c.dateTo.year < 9999
    ensures DaysNumber(c.(dateTo := Next(c.dateTo))) == DaysNumber(c) + 1
  {
    NextOrdinal(c.dateTo);
  }

  // ---------------------------------------------------------------------------
  // IntracityHop, PlanForDay, RecommendationsOutput, FinalPlan

  const HopModes: set<string> := {"walk", "bus", "subway", "taxi", "bike", "rideshare", "tram", "ferry"}

  datatype Hop = Hop(mode: string, fromPlace: Option<string>, toPlace: Option<string>, minutes: Option<int>)

  /** `IntracityHop(**d)`: a hop within the destination lasts at most a day. */
  function LoadHop(j: Json): (r: Option<Hop>)
    ensures r.Some? ==> r.value.mode in HopModes
    ensures r.Some? && r.value.minutes.Some? ==> 0 <= r.value.minutes.value <= 24 * 60
    ensures r.Some? ==> j.JObj? && j.fields.Keys <= {"mode", "from_place", "to_place", "duration_min"}
  {
    if !j.JObj? || !(j.fields.Keys <= {"mode", "from_place", "to_place", "duration_min"}) then None
    else
      var m := j.fields;
      if !("mode" in m && m["mode"].JStr? && m["mode"].s in HopModes) then None
      else
        var from :- OptStr(m, "from_place");
        var to :- OptStr(m, "to_place");
        var minutes :- OptInt(m, "duration_min");
        if minutes.Some? && !(0 <= minutes.value <= 24 * 60) then None
        else Some(Hop(m["mode"].s, from, to, minutes))
  }

  /** One day of the final itinerary. */
  datatype Day = Day(
    number: int,
    date: Date,
    activities: seq<Candidate>,
    food: seq<Candidate>,
    moves: seq<Hop>,
    budget: real,
    start: Option<string>,
    end: Option<string>,
    notes: Option<string>)

  /** What validation guarantees of a `PlanForDay`. */
  predicate DayValid(d: Day) {
    && d.number >= 1
    && Valid(d.date)
    && (forall i :: 0 <= i < |d.activities| ==> WellFormed(Activities, d.activities[i]))
    && (forall i :: 0 <= i < |d.food| ==> WellFormed(Food, d.food[i]))
    && IsNonNegMoney(d.budget)
    && (d.start.Some? ==> ValidateTime(d.start.value) == Some(d.start.value))
    && (d.end.Some? ==> ValidateTime(d.end.value) == Some(d.end.value))
  }

  /** How a `RecommendationsOutput` field is typed. */
  datatype RecsKind = Safety | StrList | StrMap | BoolMap | Rating15 | Str

  const RecsListKeys: set<string> :=
    {"safety_notes", "travel_advisories", "cultural_considerations", "dress_code_recommendations",
     "local_customs", "language_barriers", "infant_considerations", "elderly_accessibility",
     "seasonal_considerations", "payment_methods", "religious_restrictions"}

  /** The fields of `RecommendationsOutput`. */
  const RecsKeys: set<string> :=
    RecsListKeys + {"safety_level", "visa_requirements", "dietary_restrictions_support",
                    "child_friendly_rating", "weather_conditions", "best_time_to_visit", "currency_info"}

  function RecsKindOf(k: string): RecsKind {
    if k == "safety_level" then Safety
    else if k in RecsListKeys then StrList
    else if k == "visa_requirements" then StrMap
    else if k == "dietary_restrictions_support" then BoolMap
    else if k == "child_friendly_rating" then Rating15
    else Str
  }

  /** The default of a missing field: an empty list or map, or `None`. */
  function RecsDefault(k: string): Json {
    match RecsKindOf(k)
    case StrList => JArr([])
    case StrMap => JObj(map[])
    case BoolMap => JObj(map[])
    case _ => JNull
  }

  predicate RecsValueOk(kind: RecsKind, v: Json) {
    v == JNull ||
    match kind
    case Safety => v.JStr? && v.s in {"very_safe", "safe", "moderate", "risky", "dangerous"}
    case StrList => v.JArr? && AllStrings(v.items)
    case StrMap => v.JObj? && forall k :: k in v.fields ==> v.fields[k].JStr?
    case BoolMap => v.JObj? && forall k :: k in v.fields ==> v.fields[k].JBool?
    case Rating15 => IntIn(v, 1, 5)
    case Str => v.JStr?
  }

  /** The fields of a validated recommendations record, every one of them present. */
  datatype Recs = Recs(fields: map<string, Json>)

  /** `RecommendationsOutput()`: every field at its default. */
  const DefaultRecs := Recs(map k | k in RecsKeys :: RecsDefault(k))

  /** `RecommendationsOutput.model_validate(d)`: unknown keys are ignored, every known key must
      have its type, and a missing field takes its default. */
  function LoadRecs(j: Json): (r: Option<Recs>)
    ensures r.Some? ==> j.JObj? && r.value.fields.Keys == RecsKeys
    ensures r.Some? ==> forall k :: k in RecsKeys && k in j.fields ==> r.value.fields[k] == j.fields[k]
    ensures r.Some? ==> forall k :: k in RecsKeys ==> RecsValueOk(RecsKindOf(k), r.value.fields[k])
  {
    if !j.JObj? then None
    else
      var m := j.fields;
      if forall k :: k in m && k in RecsKeys ==> RecsValueOk(RecsKindOf(k), m[k]) then
        Some(Recs(map k | k in RecsKeys :: if k in m then m[k] else RecsDefault(k)))
      else None
  }

  /** Validating an empty object gives the record with every default, and so does an object
      holding only keys the record does not know. */
  lemma LoadRecsDefaults(m: map<string, Json>)
    requires m.Keys !! RecsKeys
    ensures LoadRecs(JObj(m)) == Some(DefaultRecs)
  {
    assert forall k :: k in m && k in RecsKeys ==> RecsValueOk(RecsKindOf(k), m[k]);
    assert (map k | k in RecsKeys :: if k in m then m[k] else RecsDefault(k)) == DefaultRecs.fields;
  }

  /** A validated child-friendliness rating is absent or an integer from 1 to 5. */
  lemma RecsRatingBound(j: Json)
    requires LoadRecs(j).Some?
    ensures var v := LoadRecs(j).value.fields["child_friendly_rating"]; v == JNull || (v.JInt? && 1 <= v.i <= 5)
  {
    RatingKind();
  }

  lemma RatingKind()
    ensures "child_friendly_rating" in RecsKeys && RecsKindOf("child_friendly_rating") == Rating15
  {
    assert "child_friendly_rating" !in RecsListKeys;
  }

  /** `FinalPlan`: a completed itinerary, or a request for more research. */
  datatype FinalPlan = FinalPlan(
    days: Option<seq<Day>>,
    totalBudget: Option<real>,
    lodging: Option<Candidate>,
    transport: Option<Candidate>,
    currency: Option<string>,
    recommendations: Option<Recs>,
    researchPlan: Option<ResearchPlan>)

  predicate FinalPlanValid(p: FinalPlan) {
    && (p.days.Some? ==> forall i :: 0 <= i < |p.days.value| ==> DayValid(p.days.value[i]))
    && (p.totalBudget.Some? ==> IsNonNegMoney(p.totalBudget.value))
    && (p.lodging.Some? ==> WellFormed(Lodging, p.lodging.value))
    && (p.transport.Some? ==> WellFormed(Transport, p.transport.value))
    && (p.currency.Some? ==> IsIso4217(p.currency.value))
  }
}
