/** The post-model hook that turns an agent's raw text into a structured output when the
    agent returned none: JSON extraction from tolerant candidates, collection normalisation,
    and the order-preserving, skip-invalid construction of the candidate list. */
module PostProcessing {
  import opened Wrappers
  import opened Json
  import opened Text
  import opened Seqs
  import opened Candidates
  import opened Schemas

  // ---------------------------------------------------------------------------------------
  // Output types and the hook's state
  // ---------------------------------------------------------------------------------------

  datatype OutputType = OutCandidates(cat: Category) | OutRecommendations

  function OutputTypeName(t: OutputType): string {
    match t
    case OutRecommendations => "recommendations"
    case OutCandidates(cat) =>
      match cat
      case Lodging => "lodging"
      case Activities => "activities"
      case Food => "food"
      case Transport => "intercity_transport"
  }

  /** The names the constructor accepts. */
  const OutputTypeNames: set<string> := {"lodging", "activities", "food", "intercity_transport", "recommendations"}

  /** What an agent output converts to: a category's candidate list, or travel advice. */
  datatype Converted = Items(cat: Category, items: seq<Candidate>) | Advice(recs: Recs)

  /** The hook: its output type and the raw text it captured, if any. */
  datatype Hook = Hook(kind: OutputType, raw: Option<string>)

  /** The constructor: an unknown output type raises `ValueError` with this message. */
  function NewHook(name: string): (r: Result<Hook, string>)
    ensures r.Ok? <==> name in OutputTypeNames
    ensures r.Ok? ==> OutputTypeName(r.value.kind) == name && r.value.raw.None?
    ensures r.Err? ==> r.error == "Unsupported output_type '" + name + "' for PydanticPostModelHook"
  {
    if name == "lodging" then Ok(Hook(OutCandidates(Lodging), None))
    else if name == "activities" then Ok(Hook(OutCandidates(Activities), None))
    else if name == "food" then Ok(Hook(OutCandidates(Food), None))
    else if name == "intercity_transport" then Ok(Hook(OutCandidates(Transport), None))
    else if name == "recommendations" then Ok(Hook(OutRecommendations, None))
    else Err("Unsupported output_type '" + name + "' for PydanticPostModelHook")
  }

  /** Every output type is accepted under its own name and no other. */
  lemma NewHookNames(t: OutputType)
    ensures NewHook(OutputTypeName(t)) == Ok(Hook(t, None))
  {
  }

  /** `on_chain_start`: forgets any captured text. */
  function OnChainStart(h: Hook): (r: Hook)
    ensures r.kind == h.kind && r.raw.None?
  {
    h.(raw := None)
  }

  /** One generation of an LLM response; `text` is `None` when it has no such attribute. */
  datatype Generation = Generation(text: Option<string>)

  /** `on_llm_end`: captures the text of the first generation of the first batch, when there is one. */
  function OnLlmEnd(h: Hook, generations: seq<seq<Generation>>): (r: Hook)
    ensures r.kind == h.kind
    ensures generations != [] && generations[0] != [] && generations[0][0].text.Some?
            ==> r.raw == generations[0][0].text
    ensures !(generations != [] && generations[0] != [] && generations[0][0].text.Some?) ==> r == h
  {
    if generations == [] || generations[0] == [] then h
    else match generations[0][0].text
      case None => h
      case Some(t) => h.(raw := Some(t))
  }

  // ---------------------------------------------------------------------------------------
  // JSON extraction
  // ---------------------------------------------------------------------------------------

  /** The text-level helpers the extraction relies on and that are not modelled: `json.loads`
      (`None` where it raises) and the bodies the fenced-code-block pattern captures, in order. */
  datatype Parsers = Parsers(parse: string -> Option<Json>, fenced: string -> seq<string>)

  /** The elements of `s` not in `seen`, each once, in order of first occurrence
      (`dict.fromkeys`). */
  function UniqueFrom(s: seq<string>, seen: set<string>): (r: seq<string>)
    ensures forall x :: x in r <==> x in s && x !in seen
    ensures forall i, j :: 0 <= i < j < |r| ==> r[i] != r[j]
    ensures IsSubseq(r, s)
    decreases |s|
  {
    if s == [] then []
    else if s[0] in seen then
      var rest := UniqueFrom(s[1..], seen);
      SubseqOfTail(rest, s);
      rest
    else
      var rest := UniqueFrom(s[1..], seen + {s[0]});
      assert forall x :: x in s <==> x == s[0] || x in s[1..];
      [s[0]] + rest
  }

  function Unique(s: seq<string>): seq<string> {
    UniqueFrom(s, {})
  }

  /** The first candidate that parses, if any. */
  function FirstParse(parse: string -> Option<Json>, cs: seq<string>): (r: Option<Json>)
    ensures r.Some? ==> exists i :: 0 <= i < |cs| && parse(cs[i]) == r
    ensures r.None? <==> forall i :: 0 <= i < |cs| ==> parse(cs[i]).None?
  {
    if cs == [] then None
    else if parse(cs[0]).Some? then parse(cs[0])
    else
      var r := FirstParse(parse, cs[1..]);
      assert forall i :: 1 <= i < |cs| ==> cs[i] == cs[1..][i - 1];
      r
  }

  /** The candidate that parses first wins. */
  lemma {:induction false} FirstParseWins(parse: string -> Option<Json>, cs: seq<string>, i: int)
    requires 0 <= i < |cs| && parse(cs[i]).Some?
    requires forall j :: 0 <= j < i ==> parse(cs[j]).None?
    ensures FirstParse(parse, cs) == parse(cs[i])
    decreases i
  {
    if i > 0 {
      FirstParseWins(parse, cs[1..], i - 1);
    }
  }

  /** Skipping repeats does not change which candidate wins: a repeat of a candidate that
      failed to parse fails again. */
  lemma {:induction false} FirstParseUnique(parse: string -> Option<Json>, cs: seq<string>, seen: set<string>)
    requires forall x :: x in seen ==> parse(x).None?
    ensures FirstParse(parse, UniqueFrom(cs, seen)) == FirstParse(parse, cs)
    decreases |cs|
  {
    if cs != [] {
      if cs[0] in seen {
        FirstParseUnique(parse, cs[1..], seen);
      } else if parse(cs[0]).None? {
        FirstParseUnique(parse, cs[1..], seen + {cs[0]});
        assert UniqueFrom(cs, seen)[1..] == UniqueFrom(cs[1..], seen + {cs[0]});
      }
    }
  }

  /** The first position of `{` or `[` in `s`, if either occurs. */
  function FirstOpening(s: string): (r: Option<nat>)
    ensures r.Some? ==> r.value < |s| && (s[r.value] == '{' || s[r.value] == '[')
    ensures r.Some? ==> forall i :: 0 <= i < r.value ==> s[i] != '{' && s[i] != '['
    ensures r.None? ==> forall i :: 0 <= i < |s| ==> s[i] != '{' && s[i] != '['
  {
    match (Find(s, '{'), Find(s, '['))
    case (None, None) => None
    case (Some(a), None) => Some(a)
    case (None, Some(b)) => Some(b)
    case (Some(a), Some(b)) => if a <= b then Some(a) else Some(b)
  }

  /** The span from the first `{` or `[` of `stripped` to the last matching closer, stripped. */
  function BracketSpan(stripped: string): (r: Option<string>)
    ensures r.Some? ==> r.value != ""
  {
    match FirstOpening(stripped)
    case None => None
    case Some(start) =>
      var closing := if stripped[start] == '{' then '}' else ']';
      match RFind(stripped, closing)
      case None => None
      case Some(end) =>
        if end >= start then
          var piece := stripped[start..end + 1];
          OpeningNotSpace(piece[0]);
          StripKeepsNonSpace(piece);
          Some(Strip(piece))
        else None
  }

  lemma OpeningNotSpace(c: char)
    requires c == '{' || c == '['
    ensures !IsSpace(c)
  {
  }

  /** Stripping a text that starts with a non-space character leaves something. */
  lemma StripKeepsNonSpace(s: string)
    requires s != [] && !IsSpace(s[0])
    ensures Strip(s) != ""
  {
    assert LStripBy(s, IsSpace) == s;
  }

  /** The non-empty stripped bodies of the fenced blocks. */
  function Blocks(bodies: seq<string>): (r: seq<string>)
    ensures forall i :: 0 <= i < |r| ==> r[i] != ""
  {
    Filter((b: string) => b != "", Map(Strip, bodies))
  }

  /** The texts tried as JSON, in order: the stripped input, each fenced block, the bracket span. */
  function ParseCandidates(p: Parsers, raw: string): (r: seq<string>)
    ensures forall i :: 0 <= i < |r| ==> r[i] != ""
    ensures Strip(raw) != "" ==> r != [] && r[0] == Strip(raw)
  {
    var stripped := Strip(raw);
    var head := NonEmptyList(Some(stripped));
    var blocks := Blocks(p.fenced(raw));
    var tail := NonEmptyList(BracketSpan(stripped));
    NonEmptyConcat(head, blocks, tail);
    head + blocks + tail
  }

  /** The text held, as a list of one, unless it is absent or empty. */
  function NonEmptyList(o: Option<string>): (r: seq<string>)
    ensures forall i :: 0 <= i < |r| ==> r[i] != ""
    ensures o.Some? && o.value != "" ==> r == [o.value]
  {
    if o.Some? && o.value != "" then [o.value] else []
  }

  /** Joining three lists of non-empty texts gives non-empty texts, led by the first list's head. */
  lemma NonEmptyConcat(a: seq<string>, b: seq<string>, c: seq<string>)
    requires forall i :: 0 <= i < |a| ==> a[i] != ""
    requires forall i :: 0 <= i < |b| ==> b[i] != ""
    requires forall i :: 0 <= i < |c| ==> c[i] != ""
    ensures forall i :: 0 <= i < |a + b + c| ==> (a + b + c)[i] != ""
    ensures a != [] ==> (a + b + c)[0] == a[0]
  {
  }

  /** `_extract_json_from_output`: the first candidate, without repeats, that parses. */
  function ExtractJson(p: Parsers, raw: string): (r: Option<Json>)
    ensures raw == "" ==> r.None?
    ensures r.Some? ==> exists c :: c in ParseCandidates(p, raw) && p.parse(c) == r
  {
    if raw == "" then None
    else
      var r := FirstParse(p.parse, Unique(ParseCandidates(p, raw)));
      assert r.Some? ==> exists i :: 0 <= i < |Unique(ParseCandidates(p, raw))| && p.parse(Unique(ParseCandidates(p, raw))[i]) == r;
      r
  }

  /** Extraction fails exactly when no candidate parses, and a stripped input that parses wins. */
  lemma ExtractJsonFirst(p: Parsers, raw: string)
    requires raw != ""
    ensures ExtractJson(p, raw) == FirstParse(p.parse, ParseCandidates(p, raw))
    ensures ExtractJson(p, raw).None? <==> forall c :: c in ParseCandidates(p, raw) ==> p.parse(c).None?
    ensures Strip(raw) != "" && p.parse(Strip(raw)).Some? ==> ExtractJson(p, raw) == p.parse(Strip(raw))
  {
    FirstParseUnique(p.parse, ParseCandidates(p, raw), {});
    var cs := ParseCandidates(p, raw);
    if Strip(raw) != "" && p.parse(Strip(raw)).Some? {
      FirstParseWins(p.parse, cs, 0);
    }
  }

  // ---------------------------------------------------------------------------------------
  // Collections and items
  // ---------------------------------------------------------------------------------------

  /** The first of `keys` present in `m`. */
  function FirstKey(m: map<string, Json>, keys: seq<string>): (r: Option<string>)
    ensures r.Some? ==> r.value in m && r.value in keys
    ensures r.None? <==> forall i :: 0 <= i < |keys| ==> keys[i] !in m
    ensures keys != [] && keys[0] in m ==> r == Some(keys[0])
  {
    if keys == [] then None
    else if keys[0] in m then Some(keys[0])
    else
      assert forall i :: 1 <= i < |keys| ==> keys[i] == keys[1..][i - 1];
      FirstKey(m, keys[1..])
  }

  /** The value of a collection key as a list of entries: a list as is, `null` as none, anything else alone. */
  function AsEntries(v: Json): (r: seq<Json>)
    ensures v.JArr? ==> r == v.items
    ensures !v.JArr? ==> |r| <= 1
  {
    if v.JArr? then v.items else if v == JNull then [] else [v]
  }

  /** `_normalise_collection`: the entries under the first listed key of an object, the
      object itself when it has none of them, a list as is, nothing for `null`, anything else alone. */
  function NormaliseCollection(j: Json, keys: seq<string>): (r: seq<Json>)
    ensures j.JArr? ==> r == j.items
    ensures j == JNull ==> r == []
    ensures j.JObj? && FirstKey(j.fields, keys).None? ==> r == [j]
    ensures j.JObj? && FirstKey(j.fields, keys).Some? ==> r == AsEntries(j.fields[FirstKey(j.fields, keys).value])
    ensures !j.JObj? && !j.JArr? && j != JNull ==> r == [j]
  {
    match j
    case JObj(m) =>
      (match FirstKey(m, keys) case Some(k) => AsEntries(m[k]) case None => [j])
    case JArr(items) => items
    case JNull => []
    case _ => [j]
  }

  /** The keys an agent's list may be found under. */
  function CollectionKeys(cat: Category): seq<string> {
    match cat
    case Lodging => ["lodging"]
    case Activities => ["activities"]
    case Food => ["food"]
    case Transport => ["intercity_transport", "transport"]
  }

  /** A transfer leg `Transfer(**leg)` accepts. */
  predicate IsValidLeg(leg: Json) {
    leg.JObj? && LegValid(leg.fields)
  }

  /** The transfer-leg transform applied to a truthy `transfer` value: a list keeps the legs
      that validate, in order; a string or an object iterates to non-dicts and gives no legs;
      a number or `true` cannot be iterated and fails the item. */
  function TransformLegs(v: Json): (r: Option<Json>)
    requires Truthy(v)
    ensures r.Some? ==> r.value.JArr? && forall i :: 0 <= i < |r.value.items| ==> IsValidLeg(r.value.items[i])
    ensures r.None? <==> v.JInt? || v.JFloat? || v.JBool?
  {
    match v
    case JArr(items) => Some(JArr(Filter(IsValidLeg, items)))
    case JStr(_) => Some(JArr([]))
    case JObj(_) => Some(JArr([]))
    case _ => None
  }

  /** Legs the transform keeps are exactly the valid ones, in their order. */
  lemma TransformLegsKeeps(items: seq<Json>)
    requires items != []
    ensures TransformLegs(JArr(items)).value.items == Filter(IsValidLeg, items)
    ensures IsSubseq(TransformLegs(JArr(items)).value.items, items)
    ensures forall i :: 0 <= i < |items| && IsValidLeg(items[i]) ==> items[i] in TransformLegs(JArr(items)).value.items
  {
  }

  /** After the transform, the `transfer` field passes the candidate's own validation. */
  lemma TransformedLegsValidate(v: Json)
    requires Truthy(v) && TransformLegs(v).Some?
    ensures NormalizeKind(Transfers, TransformLegs(v).value).Some?
  {
  }

  /** The per-item transform: only transport candidates have one. `None` where it raises. */
  function Transform(cat: Category, item: map<string, Json>): (r: Option<map<string, Json>>)
    ensures r.Some? ==> r.value.Keys == item.Keys
    ensures r.Some? ==> forall k :: k in item && k != "transfer" ==> r.value[k] == item[k]
  {
    if cat != Transport || !Truthy(Get(item, "transfer")) then Some(item)
    else match TransformLegs(item["transfer"])
      case None => None
      case Some(legs) => Some(item["transfer" := legs])
  }

  /** One entry of the collection: kept when it is an object that survives the transform and validation. */
  function BuildItem(cat: Category, e: Json): (r: Option<Candidate>)
    ensures r.Some? ==> e.JObj?
  {
    if !e.JObj? then None
    else match Transform(cat, e.fields)
      case None => None
      case Some(m) => Load(cat, JObj(m))
  }

  /** `_build_output_from_items`' loop: the candidates built from the entries that survive, in order. */
  function BuildItems(cat: Category, entries: seq<Json>): (r: seq<Candidate>)
    ensures |r| <= |entries|
    decreases |entries|
  {
    if entries == [] then []
    else
      var rest := BuildItems(cat, entries[1..]);
      match BuildItem(cat, entries[0])
      case Some(c) => [c] + rest
      case None => rest
  }

  /** Building distributes over concatenation: entries are handled one by one, in order. */
  lemma {:induction false} BuildItemsAppend(cat: Category, a: seq<Json>, b: seq<Json>)
    ensures BuildItems(cat, a + b) == BuildItems(cat, a) + BuildItems(cat, b)
    decreases |a|
  {
    if a == [] {
      assert a + b == b;
    } else {
      assert (a + b)[1..] == a[1..] + b;
      BuildItemsAppend(cat, a[1..], b);
    }
  }

  /** A single entry yields its candidate, or nothing when it is skipped. */
  lemma BuildItemsOne(cat: Category, e: Json)
    ensures BuildItems(cat, [e]) == (match BuildItem(cat, e) case Some(c) => [c] case None => [])
  {
    assert [e][1..] == [];
  }

  /** When no entry survives the result is empty; when every entry survives, nothing is dropped. */
  lemma {:induction false} BuildItemsExtremes(cat: Category, entries: seq<Json>)
    ensures (forall i :: 0 <= i < |entries| ==> BuildItem(cat, entries[i]).None?) ==> BuildItems(cat, entries) == []
    ensures (forall i :: 0 <= i < |entries| ==> BuildItem(cat, entries[i]).Some?) ==>
              |BuildItems(cat, entries)| == |entries| &&
              forall i :: 0 <= i < |entries| ==> Some(BuildItems(cat, entries)[i]) == BuildItem(cat, entries[i])
  {
    if forall i :: 0 <= i < |entries| ==> BuildItem(cat, entries[i]).None? {
      BuildItemsNone(cat, entries);
    }
    if forall i :: 0 <= i < |entries| ==> BuildItem(cat, entries[i]).Some? {
      BuildItemsAll(cat, entries);
    }
  }

  lemma {:induction false} BuildItemsNone(cat: Category, entries: seq<Json>)
    requires forall i :: 0 <= i < |entries| ==> BuildItem(cat, entries[i]).None?
    ensures BuildItems(cat, entries) == []
    decreases |entries|
  {
    if entries != [] {
      assert BuildItem(cat, entries[0]).None?;
      assert forall i :: 1 <= i < |entries| ==> entries[i] == entries[1..][i - 1];
      BuildItemsNone(cat, entries[1..]);
    }
  }

  lemma {:induction false} BuildItemsAll(cat: Category, entries: seq<Json>)
    requires forall i :: 0 <= i < |entries| ==> BuildItem(cat, entries[i]).Some?
    ensures |BuildItems(cat, entries)| == |entries|
    ensures forall i :: 0 <= i < |entries| ==> Some(BuildItems(cat, entries)[i]) == BuildItem(cat, entries[i])
    decreases |entries|
  {
    if entries != [] {
      var tail := entries[1..];
      assert forall i :: 0 <= i < |tail| ==> BuildItem(cat, tail[i]).Some? by {
        assert forall i :: 0 <= i < |tail| ==> tail[i] == entries[i + 1];
      }
      BuildItemsAll(cat, tail);
      var c := BuildItem(cat, entries[0]).value;
      var r := BuildItems(cat, tail);
      assert BuildItems(cat, entries) == [c] + r;
      forall i | 0 <= i < |entries|
        ensures Some(([c] + r)[i]) == BuildItem(cat, entries[i])
      {
        if i > 0 {
          assert entries[i] == tail[i - 1];
        }
      }
    }
  }

  // ---------------------------------------------------------------------------------------
  // Conversion
  // ---------------------------------------------------------------------------------------

  /** Constructing a wrapper: its one field must be named, as it forbids other keys. */
  function Wrap(cat: Category, field: string, items: seq<Candidate>): (r: Option<Converted>)
    ensures r.Some? <==> field == WrapperField(cat)
    ensures r.Some? ==> r.value == Items(cat, items)
  {
    if field == WrapperField(cat) then Some(Items(cat, items)) else None
  }

  /** The field name the converter passes for each category: the wrapper's own. */
  function OutputField(cat: Category): string {
    WrapperField(cat)
  }

  /** The field name the source passes for each category. */
  function OutputFieldAsWritten(cat: Category): string {
    if cat == Transport then "intercity_transport" else WrapperField(cat)
  }

  /** Converts parsed JSON to the hook's output type, naming the wrapper field with `field`. */
  function ConvertWith(t: OutputType, j: Json, field: Category -> string): Option<Converted> {
    if j == JNull then None
    else match t
      case OutRecommendations =>
        (match LoadRecs(j) case Some(r) => Some(Advice(r)) case None => None)
      case OutCandidates(cat) =>
        Wrap(cat, field(cat), BuildItems(cat, NormaliseCollection(j, CollectionKeys(cat))))
  }

  /** The conversion of parsed JSON to the hook's output type. */
  function Convert(t: OutputType, j: Json): (r: Option<Converted>)
    ensures j == JNull ==> r.None?
    ensures t.OutCandidates? && j != JNull ==> r.Some? && r.value.Items? && r.value.cat == t.cat
    ensures t.OutRecommendations? ==> (r.Some? <==> j != JNull && LoadRecs(j).Some?)
  {
    ConvertWith(t, j, OutputField)
  }

  /** The conversion as the source writes it: the transport wrapper is given the wrong field. */
  function ConvertAsWritten(t: OutputType, j: Json): Option<Converted> {
    ConvertWith(t, j, OutputFieldAsWritten)
  }

  /** A scalar where a collection is expected converts to an empty list, not a failure. */
  lemma ConvertScalar(cat: Category, j: Json)
    requires j.JInt? || j.JFloat? || j.JBool? || j.JStr?
    ensures Convert(OutCandidates(cat), j) == Some(Items(cat, []))
  {
    BuildItemsOne(cat, j);
  }

  /** The JSON an agent would emit for a list of candidates: the wrapper's field holding their dumps. */
  function WrapperJson(cat: Category, cs: seq<Candidate>): Json {
    JObj(map[WrapperField(cat) := JArr(Map(Dump, cs))])
  }

  /** A dumped well-formed transport candidate passes the leg transform unchanged. */
  lemma TransformDump(cat: Category, c: Candidate)
    requires WellFormed(cat, c)
    ensures Transform(cat, Dump(c).fields) == Some(Dump(c).fields)
  {
    if cat == Transport {
      DumpFields(c);
      var m := Dump(c).fields;
      assert "transfer" in c.rest && (m - CoreKeys)["transfer"] == c.rest["transfer"];
      var v := Get(m, "transfer");
      assert v == c.rest["transfer"];
      if Truthy(v) {
        StoredLegsKept(v);
        MapSetSame(m, "transfer");
      }
    }
  }

  /** A stored, non-empty `transfer` list passes the leg transform unchanged. */
  lemma StoredLegsKept(v: Json)
    requires NormalizeField("transfer", v) == Some(v) && Truthy(v)
    ensures TransformLegs(v) == Some(v)
  {
    KindOfTransfer();
    assert NormalizeKind(Transfers, v) == Some(v);
    var items := v.items;
    assert NormalizeTransfers(items).Some?;
    forall i | 0 <= i < |items| ensures IsValidLeg(items[i]) {
      assert NormalizeTransfer(items[i]).Some?;
    }
    FilterAll(IsValidLeg, items);
  }

  /** Each dumped well-formed candidate is rebuilt as itself. */
  lemma BuildDump(cat: Category, c: Candidate)
    requires WellFormed(cat, c)
    ensures BuildItem(cat, Dump(c)) == Some(c)
  {
    TransformDump(cat, c);
    LoadDump(cat, c);
  }

  lemma {:induction false} BuildDumps(cat: Category, cs: seq<Candidate>)
    requires forall i :: 0 <= i < |cs| ==> WellFormed(cat, cs[i])
    ensures BuildItems(cat, Map(Dump, cs)) == cs
    decreases |cs|
  {
    if cs != [] {
      BuildDump(cat, cs[0]);
      MapTail(Dump, cs);
      BuildDumps(cat, cs[1..]);
    }
  }

  /** Converting the JSON of a wrapper of well-formed candidates gives back exactly those
      candidates, in order. */
  lemma ConvertWrapper(cat: Category, cs: seq<Candidate>)
    requires forall i :: 0 <= i < |cs| ==> WellFormed(cat, cs[i])
    ensures Convert(OutCandidates(cat), WrapperJson(cat, cs)) == Some(Items(cat, cs))
  {
    var j := WrapperJson(cat, cs);
    assert FirstKey(j.fields, CollectionKeys(cat)) == Some(WrapperField(cat));
    BuildDumps(cat, cs);
  }

  /** As written, transport conversion never succeeds, whatever the agent returned. */
  lemma TransportAsWrittenFails(j: Json)
    ensures ConvertAsWritten(OutCandidates(Transport), j).None?
  {
  }

  /** A transport payload of one train with one leg. */
  const TrainPayload: Json :=
    JObj(map["intercity_transport" := JArr([JObj(TrainItem)])])

  const TrainLeg: Json := JObj(map["name" := JStr("Tokyo Station"), "place" := JStr("Tokyo")])
  const TrainItem: map<string, Json> := map["name" := JStr("Shinkansen"), "transfer" := JArr([TrainLeg])]

  lemma TrainItemTransforms()
    ensures Transform(Transport, TrainItem) == Some(TrainItem)
  {
    assert IsValidLeg(TrainLeg);
    assert Filter(IsValidLeg, [TrainLeg]) == [TrainLeg];
    MapSetSame(TrainItem, "transfer");
  }

  /** The train validates as a transport option with its one leg and nothing else set. */
  lemma TrainItemLoads()
    ensures Load(Transport, JObj(TrainItem)) == Some(Candidate(None, "Shinkansen", None, None, TrainRest))
  {
    TrainRestLoads();
    var c := Candidate(None, "Shinkansen", None, None, TrainRest);
    assert TrainItem.Keys <= AllowedKeys(Transport);
    assert Defaults(Transport) + TrainRest == TrainRest;
    LoadOfParts(Transport, JObj(TrainItem), c);
  }

  const TrainRest: map<string, Json> := map["transfer" := JArr([TrainLeg])]

  /** The train's fields other than the core four validate to its one leg. */
  lemma TrainRestLoads()
    ensures NormalizeRest(TrainItem - CoreKeys) == Some(TrainRest)
  {
    var m := TrainItem - CoreKeys;
    assert m == TrainRest;
    TrainLegsNormal();
    NormalizeRestExact(m, TrainRest);
  }

  /** The train's list of legs is already in its stored form. */
  lemma TrainLegsNormal()
    ensures NormalizeField("transfer", JArr([TrainLeg])) == Some(JArr([TrainLeg]))
  {
    TrainLegLoads();
    var legs: seq<Json> := [TrainLeg];
    var out := NormalizeTransfers(legs).value.items;
    assert |out| == 1 && out[0] == TrainLeg;
    assert out == legs;
  }

  /** The train's leg is already in its stored form. */
  lemma TrainLegLoads()
    ensures NormalizeTransfer(TrainLeg) == Some(TrainLeg)
  {
    var n := TrainLeg.fields;
    assert LegValid(n);
    assert DropNulls(n) == n;
    assert LegNormal(n) == n;
  }

  /** The train payload loses its one candidate as written, and keeps it once the wrapper is
      given its declared field. */
  lemma TrainPayloadConverts()
    ensures ConvertAsWritten(OutCandidates(Transport), TrainPayload).None?
    ensures Convert(OutCandidates(Transport), TrainPayload).Some?
    ensures |Convert(OutCandidates(Transport), TrainPayload).value.items| == 1
  {
    TrainAsWrittenDrops();
    TrainConvertsOne();
  }

  /** As written, the train payload converts to nothing. */
  lemma TrainAsWrittenDrops()
    ensures ConvertAsWritten(OutCandidates(Transport), TrainPayload).None?
  {
    TrainItemTransforms();
    TrainItemLoads();
    assert NormaliseCollection(TrainPayload, CollectionKeys(Transport)) == [JObj(TrainItem)];
    BuildItemsOne(Transport, JObj(TrainItem));
  }

  /** With the wrapper's declared field, the train payload converts to its one candidate. */
  lemma TrainConvertsOne()
    ensures Convert(OutCandidates(Transport), TrainPayload).Some?
    ensures |Convert(OutCandidates(Transport), TrainPayload).value.items| == 1
  {
    TrainItemTransforms();
    TrainItemLoads();
    assert NormaliseCollection(TrainPayload, CollectionKeys(Transport)) == [JObj(TrainItem)];
    BuildItemsOne(Transport, JObj(TrainItem));
  }

  /** The other output types are unaffected by the wrong field name. */
  lemma AsWrittenAgrees(t: OutputType, j: Json)
    requires t != OutCandidates(Transport)
    ensures ConvertAsWritten(t, j) == Convert(t, j)
  {
  }

  // ---------------------------------------------------------------------------------------
  // The hook's callbacks
  // ---------------------------------------------------------------------------------------

  /** The outputs dictionary as far as the hook reads it: the structured response (`None`
      also when missing) and the `output` value (`null` when missing). */
  datatype Outputs = Outputs(structured: Option<Converted>, output: Json)

  datatype ChainEnd = ChainEnd(hook: Hook, outputs: Outputs, result: Option<Converted>)

  /** `_convert_to_pydantic_model`: extraction, then conversion; `None` where either fails. */
  function ConvertRaw(p: Parsers, t: OutputType, raw: string): Option<Converted> {
    match ExtractJson(p, raw)
    case None => None
    case Some(j) => Convert(t, j)
  }

  /** `on_chain_end`: settles the raw text (an explicit one, else the captured one, else a
      string `output`), then converts only when there is no structured response and the raw
      text is non-empty; a successful conversion is stored into the outputs. */
  function OnChainEnd(p: Parsers, h: Hook, outs: Outputs, rawArg: Option<string>): (r: ChainEnd)
    ensures r.hook.kind == h.kind
    ensures rawArg.Some? ==> r.hook.raw == rawArg
    ensures rawArg.None? && !outs.output.JStr? ==> r.hook.raw == h.raw
    ensures outs.structured.Some? ==> r.result == outs.structured && r.outputs == outs
    ensures outs.structured.None? && (r.hook.raw.None? || r.hook.raw.value == "") ==> r.outputs == outs && r.result.None?
    ensures outs.structured.None? && r.hook.raw.Some? && r.hook.raw.value != "" ==>
              r.result == ConvertRaw(p, h.kind, r.hook.raw.value) &&
              r.outputs == (if r.result.Some? then outs.(structured := r.result) else outs)
  {
    var raw :=
      if rawArg.Some? then rawArg
      else if (h.raw.None? || h.raw.value == "") && outs.output.JStr? then Some(outs.output.s)
      else h.raw;
    var h' := h.(raw := raw);
    if outs.structured.None? && raw.Some? && raw.value != "" then
      match ConvertRaw(p, h.kind, raw.value)
      case Some(c) => ChainEnd(h', outs.(structured := Some(c)), Some(c))
      case None => ChainEnd(h', outs, None)
    else ChainEnd(h', outs, outs.structured)
  }

  /** `convert`: a present structured response is returned as is; otherwise the raw text is
      the given one or a string `output`, and `on_chain_end` runs on fresh outputs. */
  function ConvertResponse(p: Parsers, h: Hook, response: Outputs, rawArg: Option<string>): (r: (Hook, Option<Converted>))
    ensures response.structured.Some? ==> r == (h, response.structured)
  {
    if response.structured.Some? then (h, response.structured)
    else
      var raw := if rawArg.None? && response.output.JStr? then Some(response.output.s) else rawArg;
      var e := OnChainEnd(p, h, Outputs(None, JNull), raw);
      (e.hook, e.result)
  }

  /** With no structured response and a non-empty text, `convert` is the conversion of that text. */
  lemma ConvertResponseText(p: Parsers, h: Hook, text: string)
    requires text != ""
    ensures ConvertResponse(p, h, Outputs(None, JStr(text)), None).1 == ConvertRaw(p, h.kind, text)
    ensures ConvertResponse(p, h, Outputs(None, JNull), Some(text)).1 == ConvertRaw(p, h.kind, text)
  {
    ConvertOutputText(p, h, text);
    ConvertArgText(p, h, text);
  }

  /** A string `output` is the text converted. */
  lemma ConvertOutputText(p: Parsers, h: Hook, text: string)
    requires text != ""
    ensures ConvertResponse(p, h, Outputs(None, JStr(text)), None).1 == ConvertRaw(p, h.kind, text)
  {
    var e := OnChainEnd(p, h, Outputs(None, JNull), Some(text));
    assert ConvertResponse(p, h, Outputs(None, JStr(text)), None) == (e.hook, e.result);
  }

  /** A text given to `convert` is the text converted. */
  lemma ConvertArgText(p: Parsers, h: Hook, text: string)
    requires text != ""
    ensures ConvertResponse(p, h, Outputs(None, JNull), Some(text)).1 == ConvertRaw(p, h.kind, text)
  {
    var e := OnChainEnd(p, h, Outputs(None, JNull), Some(text));
    assert ConvertResponse(p, h, Outputs(None, JNull), Some(text)) == (e.hook, e.result);
  }

  /** A captured text is used when `convert` has neither a structured response nor a text of its own. */
  lemma ConvertUsesCapture(p: Parsers, h: Hook)
    requires h.raw.Some? && h.raw.value != ""
    ensures ConvertResponse(p, h, Outputs(None, JNull), None).1 == ConvertRaw(p, h.kind, h.raw.value)
  {
    var e := OnChainEnd(p, h, Outputs(None, JNull), None);
    assert e.hook.raw == h.raw;
    assert ConvertResponse(p, h, Outputs(None, JNull), None) == (e.hook, e.result);
  }

  /** Text that parses as a wrapper of well-formed candidates converts to those candidates. */
  lemma ConvertRawWrapper(p: Parsers, cat: Category, raw: string, cs: seq<Candidate>)
    requires Strip(raw) != "" && p.parse(Strip(raw)) == Some(WrapperJson(cat, cs))
    requires forall i :: 0 <= i < |cs| ==> WellFormed(cat, cs[i])
    ensures ConvertRaw(p, OutCandidates(cat), raw) == Some(Items(cat, cs))
  {
    ExtractJsonFirst(p, raw);
    ConvertWrapper(cat, cs);
  }
}
