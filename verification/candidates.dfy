/** Researched candidates (lodging, activity, food and intercity-transport options):
    the shape the reducer and the review step rely on, and the pydantic validation
    that turns a serialised candidate back into one. */
module Candidates {
  import opened Wrappers
  import opened Json
  import opened Text
  import opened Types

  /** The four research categories whose output is a list of candidates. */
  datatype Category = Lodging | Activities | Food | Transport

  /** The field each agent-output wrapper declares. */
  function WrapperField(cat: Category): string {
    match cat
    case Lodging => "lodging"
    case Activities => "activities"
    case Food => "food"
    case Transport => "transport"
  }

  /** One researched option. `id`, `name`, `url` and `address` are the fields the merge
      logic reads; `rest` holds every other serialised field, keyed by field name. */
  datatype Candidate = Candidate(
    id: Option<string>,
    name: string,
    url: Option<string>,
    address: Option<string>,
    rest: map<string, Json>)

  /** The fields kept outside `rest`. */
  const CoreKeys: set<string> := {"id", "name", "url", "address"}

  /** Fields of `CandidateBase`. */
  const BaseKeys: set<string> :=
    {"id", "name", "address", "price_level", "rating", "reviews", "photos", "url",
     "lat", "lon", "evidence_score", "source_id", "notes"}

  /** Every record forbids extra keys, so a serialised candidate may only use these. */
  function AllowedKeys(cat: Category): set<string> {
    match cat
    case Lodging => BaseKeys + {"area", "price_night", "cancel_policy"}
    case Activities => BaseKeys + {"open_time", "close_time", "duration_min", "price", "tags"}
    case Food => BaseKeys + {"open_time", "close_time", "tags"}
    case Transport =>
      {"name", "fare_class", "refundable", "url", "price", "transfer", "total_duration_min", "note"}
  }

  /** Fields whose default is not `None`: validation fills them in when they are missing. */
  function Defaults(cat: Category): map<string, Json> {
    match cat
    case Lodging => map["evidence_score" := JFloat(0.0)]
    case Activities => map["evidence_score" := JFloat(0.0), "tags" := JArr([])]
    case Food => map["evidence_score" := JFloat(0.0), "tags" := JArr([])]
    case Transport => map["transfer" := JArr([])]
  }

  predicate IsPriceLevel(s: string) {
    s == "$" || s == "$$" || s == "$$$" || s == "$$$$"
  }

  predicate NumberIn(v: Json, lo: real, hi: real) {
    IsNumber(v) && lo <= NumValue(v) <= hi
  }

  predicate IntIn(v: Json, lo: int, hi: int) {
    v.JInt? && lo <= v.i <= hi
  }

  predicate AllStrings(items: seq<Json>) {
    forall i :: 0 <= i < |items| ==> items[i].JStr?
  }

  /** A non-null clock-time field: stored stripped. */
  function NormalizeTime(v: Json): Option<Json> {
    if v.JStr? && ValidateTime(v.s).Some? then Some(JStr(ValidateTime(v.s).value)) else None
  }

  /** One photo URL, stripped; anything else is left as it is. */
  function NormalUrl(j: Json): Json {
    if j.JStr? && ValidateUrl(j.s).Some? then JStr(ValidateUrl(j.s).value) else j
  }

  /** A list of photo URLs: each stripped and checked. */
  function NormalizeUrls(items: seq<Json>): Option<Json> {
    if forall i :: 0 <= i < |items| ==> items[i].JStr? && ValidateUrl(items[i].s).Some? then
      Some(JArr(seq(|items|, i requires 0 <= i < |items| => NormalUrl(items[i]))))
    else None
  }

  const TransferKeys: set<string> := {"name", "place", "departure_time", "arrival_time", "duration_min"}

  /** Replaces a present clock-time field by its stripped form. */
  function PutTime(m: map<string, Json>, k: string): map<string, Json> {
    if k in m && NormalizeTime(m[k]).Some? then m[k := NormalizeTime(m[k]).value] else m
  }

  predicate OptTime(m: map<string, Json>, k: string) {
    k !in m || m[k] == JNull || NormalizeTime(m[k]).Some?
  }

  /** The checks `Transfer` makes: `name` and `place` are required strings, the times are
      clock times and the leg lasts at most a week; no other key is allowed. */
  predicate LegValid(m: map<string, Json>) {
    && m.Keys <= TransferKeys
    && "name" in m && m["name"].JStr? && "place" in m && m["place"].JStr?
    && ("duration_min" in m && m["duration_min"] != JNull ==> IntIn(m["duration_min"], 0, 7 * 24 * 60))
    && OptTime(m, "departure_time") && OptTime(m, "arrival_time")
  }

  /** The stored form of a valid leg: `None` fields left out, times stripped. */
  function LegNormal(m: map<string, Json>): map<string, Json> {
    PutTime(PutTime(DropNulls(m), "departure_time"), "arrival_time")
  }

  /** One transfer leg (`Transfer`). */
  function NormalizeTransfer(v: Json): (r: Option<Json>)
    ensures r.Some? ==> r.value.JObj? && "name" in r.value.fields && "place" in r.value.fields
  {
    if v.JObj? && LegValid(v.fields) then Some(JObj(LegNormal(v.fields))) else None
  }

  /** A list of transfer legs, every one of which must validate. */
  function NormalizeTransfers(items: seq<Json>): Option<Json> {
    if forall i :: 0 <= i < |items| ==> NormalizeTransfer(items[i]).Some? then
      Some(JArr(seq(|items|, i requires 0 <= i < |items| => NormalizeTransfer(items[i]).GetOr(items[i]))))
    else None
  }

  /** How a field outside the core four is validated. */
  datatype FieldKind =
    | PriceLevel | Rating | Latitude | Longitude | Score | Money | Strings | Photos
    | ClockTime | Minutes(max: int) | Flag | Transfers | Text

  function KindOf(k: string): FieldKind {
    if k == "price_level" then PriceLevel
    else if k == "rating" then Rating
    else if k == "lat" then Latitude
    else if k == "lon" then Longitude
    else if k == "evidence_score" then Score
    else if k == "price" || k == "price_night" then Money
    else if k == "reviews" || k == "tags" then Strings
    else if k == "photos" then Photos
    else if k == "open_time" || k == "close_time" then ClockTime
    else if k == "duration_min" then Minutes(12 * 60)
    else if k == "total_duration_min" then Minutes(7 * 24 * 60)
    else if k == "refundable" then Flag
    else if k == "transfer" then Transfers
    else Text
  }

  lemma KindOfTransfer()
    ensures KindOf("transfer") == Transfers
  {
  }

  /** Validation of one non-null value of the given kind, giving the stored value. */
  function NormalizeKind(kind: FieldKind, v: Json): Option<Json> {
    match kind
    case PriceLevel => if v.JStr? && IsPriceLevel(v.s) then Some(v) else None
    case Rating => if IsNumber(v) && IsRating(NumValue(v)) then Some(v) else None
    case Latitude => if IsNumber(v) && IsLat(NumValue(v)) then Some(v) else None
    case Longitude => if IsNumber(v) && IsLon(NumValue(v)) then Some(v) else None
    case Score => if NumberIn(v, 0.0, 1.0) then Some(v) else None
    case Money => if IsNumber(v) && IsNonNegMoney(NumValue(v)) then Some(v) else None
    case Strings => if v.JArr? && AllStrings(v.items) then Some(v) else None
    case Photos => if v.JArr? then NormalizeUrls(v.items) else None
    case ClockTime => NormalizeTime(v)
    case Minutes(max) => if IntIn(v, 0, max) then Some(v) else None
    case Flag => if v.JBool? then Some(v) else None
    case Transfers => if v.JArr? then NormalizeTransfers(v.items) else None
    case Text => if v.JStr? then Some(v) else None
  }

  /** Validation of one non-null field outside the core four. */
  function NormalizeField(k: string, v: Json): Option<Json> {
    NormalizeKind(KindOf(k), v)
  }

  /** The remaining fields of a candidate: `null` leaves an optional field unset, anything else must validate. */
  function NormalizeRest(m: map<string, Json>): (r: Option<map<string, Json>>)
    ensures r.Some? ==> forall k :: k in r.value <==> k in m && m[k] != JNull
  {
    if forall k :: k in m && m[k] != JNull ==> NormalizeField(k, m[k]).Some? then
      Some(map k | k in m && m[k] != JNull :: NormalizeField(k, m[k]).value)
    else None
  }

  /** The fields with a default (`evidence_score`, `tags`, `transfer`) are not optional: they may be
      missing, but not `null`. */
  predicate NoNullDefaults(cat: Category, m: map<string, Json>) {
    forall k :: k in Defaults(cat) && k in m ==> m[k] != JNull
  }

  /** An optional string field: absent or `null` gives `None`. */
  function LoadOptString(m: map<string, Json>, k: string): Option<Option<string>> {
    if k !in m || m[k] == JNull then Some(None)
    else if m[k].JStr? then Some(Some(m[k].s))
    else None
  }

  /** An optional `HttpURLStr` field. */
  function LoadOptUrl(m: map<string, Json>, k: string): Option<Option<string>> {
    if k !in m || m[k] == JNull then Some(None)
    else if m[k].JStr? && ValidateUrl(m[k].s).Some? then Some(Some(ValidateUrl(m[k].s).value))
    else None
  }

  /** `CandidateLodging(**d)`, `CandidateActivity(**d)`, `CandidateFood(**d)` or
      `CandidateIntercityTransport(**d)`: `None` where pydantic raises. */
  function Load(cat: Category, j: Json): (r: Option<Candidate>)
    ensures r.Some? ==> j.JObj? && j.fields.Keys <= AllowedKeys(cat)
    ensures r.Some? ==> "name" in j.fields && j.fields["name"] == JStr(r.value.name)
  {
    if !j.JObj? then None
    else
      var m := j.fields;
      if !(m.Keys <= AllowedKeys(cat)) then None
      else if !("name" in m && m["name"].JStr?) then None
      else if !NoNullDefaults(cat, m) then None
      else
        var id :- LoadOptString(m, "id");
        var address :- LoadOptString(m, "address");
        var url :- LoadOptUrl(m, "url");
        var rest :- NormalizeRest(m - CoreKeys);
        Some(Candidate(id, m["name"].s, url, address, Defaults(cat) + rest))
  }

  /** Adds `k: s` when the optional string is present (`exclude_none=True`). */
  function PutOpt(m: map<string, Json>, k: string, o: Option<string>): map<string, Json> {
    if o.Some? then m[k := JStr(o.value)] else m
  }

  /** `candidate.model_dump(exclude_none=True)`. */
  function Dump(c: Candidate): Json {
    JObj(PutOpt(PutOpt(PutOpt(c.rest["name" := JStr(c.name)], "id", c.id), "url", c.url), "address", c.address))
  }

  /** Every field is present with a validated value in its stored form. */
  predicate NormalFields(r: map<string, Json>) {
    forall k :: k in r ==> r[k] != JNull && NormalizeField(k, r[k]) == Some(r[k])
  }

  /** What validation guarantees of a candidate of category `cat`. */
  predicate WellFormed(cat: Category, c: Candidate) {
    && c.rest.Keys !! CoreKeys
    && c.rest.Keys <= AllowedKeys(cat)
    && Defaults(cat).Keys <= c.rest.Keys
    && NormalFields(c.rest)
    && (cat == Transport ==> c.id.None? && c.address.None?)
    && (c.url.Some? ==> ValidateUrl(c.url.value) == Some(c.url.value))
  }

  lemma DumpFields(c: Candidate)
    requires c.rest.Keys !! CoreKeys
    ensures var m := Dump(c).fields;
      && m - CoreKeys == c.rest
      && "name" in m && m["name"] == JStr(c.name)
      && LoadOptString(m, "id") == Some(c.id)
      && LoadOptString(m, "address") == Some(c.address)
      && ("url" in m <==> c.url.Some?)
      && (c.url.Some? ==> m["url"] == JStr(c.url.value))
      && m.Keys == c.rest.Keys + {"name"} + (if c.id.Some? then {"id"} else {})
                   + (if c.url.Some? then {"url"} else {}) + (if c.address.Some? then {"address"} else {})
  {
  }

  lemma RestNormal(rest: map<string, Json>)
    requires NormalFields(rest)
    ensures NormalizeRest(rest) == Some(rest)
  {
    assert forall k :: k in rest && rest[k] != JNull ==> NormalizeField(k, rest[k]).Some?;
    assert (map k | k in rest && rest[k] != JNull :: NormalizeField(k, rest[k]).value) == rest;
  }

  /** Serialising a well-formed candidate and validating the result gives the candidate back:
      a selection sent through the resume payload arrives unchanged. */
  lemma LoadDump(cat: Category, c: Candidate)
    requires WellFormed(cat, c)
    ensures Load(cat, Dump(c)) == Some(c)
  {
    var m := Dump(c).fields;
    DumpFields(c);
    RestNormal(c.rest);
    assert m.Keys <= AllowedKeys(cat);
    forall k | k in Defaults(cat) && k in m
      ensures m[k] != JNull
    {
      assert (m - CoreKeys)[k] == c.rest[k];
    }
    assert LoadOptUrl(m, "url") == Some(c.url);
    DefaultsAbsorbed(cat, c);
    LoadOfParts(cat, Dump(c), c);
  }

  /** The defaults are overridden when every defaulted field is present. */
  lemma DefaultsAbsorbed(cat: Category, c: Candidate)
    requires Defaults(cat).Keys <= c.rest.Keys
    ensures Defaults(cat) + c.rest == c.rest
  {
  }

  /** `Load` from its parts: an object of allowed keys with a string `name`, no `null` default,
      and core and remaining fields that each read back as `c`'s. */
  lemma LoadOfParts(cat: Category, j: Json, c: Candidate)
    requires j.JObj? && j.fields.Keys <= AllowedKeys(cat)
    requires "name" in j.fields && j.fields["name"] == JStr(c.name)
    requires NoNullDefaults(cat, j.fields)
    requires LoadOptString(j.fields, "id") == Some(c.id) && LoadOptString(j.fields, "address") == Some(c.address)
    requires LoadOptUrl(j.fields, "url") == Some(c.url)
    requires NormalizeRest(j.fields - CoreKeys) == Some(c.rest)
    requires Defaults(cat) + c.rest == c.rest
    ensures Load(cat, j) == Some(c)
  {
  }

  /** Trimming is idempotent on its own output. */
  lemma TrimTrimmed(s: string)
    ensures Trim(Trim(s)) == Trim(s)
  {
  }

  lemma TimeNormalIdempotent(v: Json)
    requires NormalizeTime(v).Some?
    ensures NormalizeTime(NormalizeTime(v).value) == NormalizeTime(v)
  {
    TrimTrimmed(v.s);
  }

  lemma UrlNormalIdempotent(s: string)
    requires ValidateUrl(s).Some?
    ensures ValidateUrl(ValidateUrl(s).value) == ValidateUrl(s)
  {
    TrimTrimmed(s);
  }

  /** A transfer leg as validation leaves it. */
  predicate NormalLeg(n: map<string, Json>) {
    && n.Keys <= TransferKeys
    && (forall k :: k in n ==> n[k] != JNull)
    && "name" in n && n["name"].JStr? && "place" in n && n["place"].JStr?
    && ("duration_min" in n ==> IntIn(n["duration_min"], 0, 7 * 24 * 60))
    && ("departure_time" in n ==> NormalizeTime(n["departure_time"]) == Some(n["departure_time"]))
    && ("arrival_time" in n ==> NormalizeTime(n["arrival_time"]) == Some(n["arrival_time"]))
  }

  /** `PutTime` keeps the keys, leaves the other fields alone and introduces no `null`. */
  lemma PutTimeFrame(m: map<string, Json>, k: string)
    ensures PutTime(m, k).Keys == m.Keys
    ensures forall k' :: k' in m && k' != k ==> PutTime(m, k)[k'] == m[k']
    ensures (forall k' :: k' in m ==> m[k'] != JNull) ==> forall k' :: k' in PutTime(m, k) ==> PutTime(m, k)[k'] != JNull
  {
  }

  /** After `PutTime`, a clock-time field that was valid is in normal form. */
  lemma PutTimeNormal(m: map<string, Json>, k: string)
    requires k in m ==> NormalizeTime(m[k]).Some?
    ensures k in PutTime(m, k) ==> NormalizeTime(PutTime(m, k)[k]) == Some(PutTime(m, k)[k])
  {
    if k in m {
      TimeNormalIdempotent(m[k]);
    }
  }

  lemma LegNormalDeparture(m: map<string, Json>)
    requires LegValid(m)
    ensures var n := LegNormal(m);
      "departure_time" in n ==> NormalizeTime(n["departure_time"]) == Some(n["departure_time"])
  {
    var d := DropNulls(m);
    PutTimeFrame(d, "departure_time");
    PutTimeNormal(d, "departure_time");
    PutTimeFrame(PutTime(d, "departure_time"), "arrival_time");
  }

  lemma LegNormalArrival(m: map<string, Json>)
    requires LegValid(m)
    ensures var n := LegNormal(m);
      "arrival_time" in n ==> NormalizeTime(n["arrival_time"]) == Some(n["arrival_time"])
  {
    var d := DropNulls(m);
    PutTimeFrame(d, "departure_time");
    PutTimeNormal(PutTime(d, "departure_time"), "arrival_time");
  }

  lemma LegNormalShape(m: map<string, Json>)
    requires LegValid(m)
    ensures var n := LegNormal(m);
      && n.Keys <= TransferKeys
      && (forall k :: k in n ==> n[k] != JNull)
      && "name" in n && n["name"].JStr? && "place" in n && n["place"].JStr?
      && ("duration_min" in n ==> IntIn(n["duration_min"], 0, 7 * 24 * 60))
  {
    var d := DropNulls(m);
    PutTimeFrame(d, "departure_time");
    PutTimeFrame(PutTime(d, "departure_time"), "arrival_time");
  }

  lemma TransferNormal(m: map<string, Json>)
    requires LegValid(m)
    ensures NormalLeg(LegNormal(m))
  {
    LegNormalDeparture(m);
    LegNormalArrival(m);
    LegNormalShape(m);
  }

  lemma DropNullsFixed(n: map<string, Json>)
    requires forall k :: k in n ==> n[k] != JNull
    ensures DropNulls(n) == n
  {
  }

  lemma NormalLegValid(n: map<string, Json>)
    requires NormalLeg(n)
    ensures LegValid(n)
  {
  }

  lemma MapSetSame(m: map<string, Json>, k: string)
    requires k in m
    ensures m[k := m[k]] == m
  {
  }

  lemma PutTimeFixed(m: map<string, Json>, k: string)
    requires k in m ==> NormalizeTime(m[k]) == Some(m[k])
    ensures PutTime(m, k) == m
  {
    if k in m {
      MapSetSame(m, k);
    }
  }

  lemma NormalLegFixed(n: map<string, Json>)
    requires NormalLeg(n)
    ensures LegNormal(n) == n
  {
    DropNullsFixed(n);
    PutTimeFixed(n, "departure_time");
    PutTimeFixed(n, "arrival_time");
  }

  lemma TransferIdempotent(v: Json)
    requires NormalizeTransfer(v).Some?
    ensures NormalizeTransfer(NormalizeTransfer(v).value) == NormalizeTransfer(v)
  {
    var n := LegNormal(v.fields);
    TransferNormal(v.fields);
    NormalLegValid(n);
    NormalLegFixed(n);
  }

  lemma UrlsIdempotent(items: seq<Json>)
    requires NormalizeUrls(items).Some?
    ensures NormalizeUrls(NormalizeUrls(items).value.items) == NormalizeUrls(items)
  {
    var out := NormalizeUrls(items).value.items;
    assert |out| == |items|;
    forall i | 0 <= i < |items|
      ensures out[i].JStr? && ValidateUrl(out[i].s) == Some(out[i].s)
    {
      UrlNormalIdempotent(items[i].s);
    }
    var again := NormalizeUrls(out).value.items;
    assert again == out;
  }

  lemma TransfersIdempotent(items: seq<Json>)
    requires NormalizeTransfers(items).Some?
    ensures NormalizeTransfers(NormalizeTransfers(items).value.items) == NormalizeTransfers(items)
  {
    var out := NormalizeTransfers(items).value.items;
    assert |out| == |items|;
    forall i | 0 <= i < |items|
      ensures NormalizeTransfer(out[i]) == Some(out[i])
    {
      TransferIdempotent(items[i]);
    }
    var again := NormalizeTransfers(out).value.items;
    assert again == out;
  }

  lemma KindIdempotent(kind: FieldKind, v: Json)
    requires NormalizeKind(kind, v).Some?
    ensures NormalizeKind(kind, NormalizeKind(kind, v).value) == NormalizeKind(kind, v)
  {
    match kind
    case Photos =>
      UrlsIdempotent(v.items);
    case ClockTime =>
      TimeNormalIdempotent(v);
    case Transfers =>
      TransfersIdempotent(v.items);
    case _ =>
  }

  lemma DefaultsNormal(cat: Category)
    ensures Defaults(cat).Keys <= AllowedKeys(cat) && Defaults(cat).Keys !! CoreKeys
    ensures NormalFields(Defaults(cat))
  {
    var d := Defaults(cat);
    forall k | k in d
      ensures d[k] != JNull && NormalizeField(k, d[k]) == Some(d[k])
    {
      DefaultNormal(k);
    }
  }

  /** Each default value is a stored value of its field. */
  lemma DefaultNormal(k: string)
    ensures k == "evidence_score" ==> NormalizeField(k, JFloat(0.0)) == Some(JFloat(0.0))
    ensures k == "tags" ==> NormalizeField(k, JArr([])) == Some(JArr([]))
    ensures k == "transfer" ==> NormalizeField(k, JArr([])) == Some(JArr([]))
  {
    if k == "transfer" {
      var none: seq<Json> := [];
      var out := NormalizeTransfers(none).value.items;
      assert |out| == 0;
      assert out == none;
    }
  }

  /** The fields `Load` accepted besides the core four, validated. */
  lemma LoadRest(cat: Category, j: Json)
    requires Load(cat, j).Some?
    ensures var m := j.fields - CoreKeys;
      && NormalizeRest(m).Some?
      && Load(cat, j).value.rest == Defaults(cat) + NormalizeRest(m).value
      && NormalizeRest(m).value.Keys <= AllowedKeys(cat) - CoreKeys
  {
  }

  lemma GivenNormal(m: map<string, Json>)
    requires NormalizeRest(m).Some?
    ensures NormalFields(NormalizeRest(m).value)
  {
    var g := NormalizeRest(m).value;
    forall k | k in g
      ensures g[k] != JNull && NormalizeField(k, g[k]) == Some(g[k])
    {
      KindIdempotent(KindOf(k), m[k]);
      NonNullNormal(KindOf(k), m[k]);
    }
  }

  lemma NonNullNormal(kind: FieldKind, v: Json)
    requires NormalizeKind(kind, v).Some?
    ensures NormalizeKind(kind, v).value != JNull
  {
  }

  lemma NormalFieldsUnion(a: map<string, Json>, b: map<string, Json>)
    requires NormalFields(a) && NormalFields(b)
    ensures NormalFields(a + b)
  {
  }

  /** A transport option has no `id` or `address` field. */
  lemma LoadTransportCore(j: Json)
    requires Load(Transport, j).Some?
    ensures Load(Transport, j).value.id.None? && Load(Transport, j).value.address.None?
  {
    LoadCore(Transport, j);
    assert "id" !in AllowedKeys(Transport) && "address" !in AllowedKeys(Transport);
  }

  /** The `id` and `address` a loaded candidate keeps are the ones given. */
  lemma LoadCore(cat: Category, j: Json)
    requires Load(cat, j).Some?
    ensures j.JObj? && LoadOptString(j.fields, "id").Some? && LoadOptString(j.fields, "address").Some?
    ensures Load(cat, j).value.id == LoadOptString(j.fields, "id").value
    ensures Load(cat, j).value.address == LoadOptString(j.fields, "address").value
  {
  }

  /** The `url` field `Load` keeps is the validated one. */
  lemma LoadUrl(cat: Category, j: Json)
    requires Load(cat, j).Some?
    ensures var c := Load(cat, j).value;
      c.url.Some? ==> "url" in j.fields && j.fields["url"].JStr? && c.url == ValidateUrl(j.fields["url"].s)
  {
    var c := Load(cat, j).value;
    assert LoadOptUrl(j.fields, "url") == Some(c.url);
  }

  /** Whatever validation accepts is well-formed, so it survives a further dump-and-load unchanged. */
  lemma LoadWellFormed(cat: Category, j: Json)
    requires Load(cat, j).Some?
    ensures WellFormed(cat, Load(cat, j).value)
  {
    var c := Load(cat, j).value;
    var g := NormalizeRest(j.fields - CoreKeys);
    LoadRest(cat, j);
    LoadUrl(cat, j);
    if cat == Transport {
      LoadTransportCore(j);
    }
    DefaultsNormal(cat);
    GivenNormal(j.fields - CoreKeys);
    NormalFieldsUnion(Defaults(cat), g.value);
    if c.url.Some? {
      UrlNormalIdempotent(j.fields["url"].s);
    }
  }

  // ---------------------------------------------------------------------------
  // The full dump: `model_dump()` without `exclude_none`, as the review step shows options.

  /** A transfer leg with every field of `Transfer` present, `null` where unset. */
  function FullLeg(j: Json): Json {
    if j.JObj? then JObj(map k | k in TransferKeys :: Get(j.fields, k)) else j
  }

  /** A stored field value as the full dump writes it: nested transfer legs gain their `null` fields. */
  function FullValue(k: string, v: Json): Json {
    if KindOf(k) == Transfers && v.JArr? then
      JArr(seq(|v.items|, i requires 0 <= i < |v.items| => FullLeg(v.items[i])))
    else v
  }

  function PutFull(m: map<string, Json>, k: string, o: Option<string>): map<string, Json> {
    m[k := if o.Some? then JStr(o.value) else JNull]
  }

  /** The non-core fields of the full dump. */
  function RestFull(cat: Category, c: Candidate): map<string, Json> {
    map k | k in AllowedKeys(cat) - CoreKeys :: if k in c.rest then FullValue(k, c.rest[k]) else JNull
  }

  /** `candidate.model_dump()`: every field of the category's record, `null` where unset. */
  function DumpFull(cat: Category, c: Candidate): (r: Json)
    ensures r.JObj? && r.fields.Keys == AllowedKeys(cat)
  {
    var base := if cat == Transport then RestFull(cat, c)
                else PutFull(PutFull(RestFull(cat, c), "id", c.id), "address", c.address);
    JObj(PutFull(base["name" := JStr(c.name)], "url", c.url))
  }

  lemma FullLegValid(n: map<string, Json>)
    requires NormalLeg(n)
    ensures LegValid(FullLeg(JObj(n)).fields)
  {
    var full := FullLeg(JObj(n)).fields;
    assert full["name"] == n["name"] && full["place"] == n["place"];
    assert full["duration_min"] == Get(n, "duration_min");
    assert full["departure_time"] == Get(n, "departure_time");
    assert full["arrival_time"] == Get(n, "arrival_time");
  }

  lemma FullLegDrop(n: map<string, Json>)
    requires NormalLeg(n)
    ensures DropNulls(FullLeg(JObj(n)).fields) == n
  {
    var full := FullLeg(JObj(n)).fields;
    var d := DropNulls(full);
    forall k | k in d ensures k in n && d[k] == n[k] {
      assert full[k] == Get(n, k);
    }
    forall k | k in n ensures k in d {
      assert full[k] == n[k];
    }
  }

  /** A normal leg with its `null` fields added validates back to itself. */
  lemma FullLegNormal(n: map<string, Json>)
    requires NormalLeg(n)
    ensures NormalizeTransfer(FullLeg(JObj(n))) == Some(JObj(n))
  {
    var full := FullLeg(JObj(n)).fields;
    FullLegValid(n);
    FullLegDrop(n);
    PutTimeFixed(n, "departure_time");
    PutTimeFixed(n, "arrival_time");
  }

  /** A stored leg is a normal leg. */
  lemma StoredLegNormal(v: Json)
    requires NormalizeTransfer(v) == Some(v)
    ensures v.JObj? && NormalLeg(v.fields)
  {
    TransferNormal(v.fields);
  }

  /** The full dump of a stored field validates back to the stored value. */
  lemma FullValueNormal(k: string, v: Json)
    requires NormalizeField(k, v) == Some(v)
    ensures NormalizeField(k, FullValue(k, v)) == Some(v)
  {
    if KindOf(k) == Transfers {
      var items := v.items;
      var full := FullValue(k, v).items;
      forall i | 0 <= i < |items|
        ensures NormalizeTransfer(full[i]) == Some(items[i])
      {
        assert NormalizeTransfer(items[i]).Some?;
        assert NormalizeTransfer(items[i]).GetOr(items[i]) == items[i];
        StoredLegNormal(items[i]);
        FullLegNormal(items[i].fields);
      }
      assert NormalizeTransfers(full).value.items == items;
    }
  }

  lemma DumpFullSplit(cat: Category, c: Candidate)
    ensures DumpFull(cat, c).fields - CoreKeys == RestFull(cat, c)
  {
  }

  /** The non-core part of the full dump validates back to the stored fields. */
  lemma DumpFullRest(cat: Category, c: Candidate)
    requires WellFormed(cat, c)
    ensures NormalizeRest(DumpFull(cat, c).fields - CoreKeys) == Some(c.rest)
  {
    DumpFullSplit(cat, c);
    var m := RestFull(cat, c);
    forall k | k in m && m[k] != JNull
      ensures k in c.rest
    {
    }
    forall k | k in c.rest
      ensures k in m && m[k] != JNull && NormalizeField(k, m[k]) == Some(c.rest[k])
    {
      assert m[k] == FullValue(k, c.rest[k]);
      FullValueNormal(k, c.rest[k]);
    }
    NormalizeRestExact(m, c.rest);
  }

  /** Validation of the remaining fields gives `r` when `r` holds exactly the non-null fields,
      each validated. */
  lemma NormalizeRestExact(m: map<string, Json>, r: map<string, Json>)
    requires forall k :: k in m && m[k] != JNull ==> k in r
    requires forall k :: k in r ==> k in m && m[k] != JNull && NormalizeField(k, m[k]) == Some(r[k])
    ensures NormalizeRest(m) == Some(r)
  {
    var g := map k | k in m && m[k] != JNull :: NormalizeField(k, m[k]).value;
    assert g.Keys == r.Keys;
    assert g == r;
  }

  /** The options shown for review, fed back through validation, are the candidates that were stored. */
  lemma LoadDumpFull(cat: Category, c: Candidate)
    requires WellFormed(cat, c)
    ensures Load(cat, DumpFull(cat, c)) == Some(c)
  {
    DumpFullRest(cat, c);
    DumpFullCore(cat, c);
    DumpFullDefaults(cat, c);
    DefaultsAbsorbed(cat, c);
    LoadOfParts(cat, DumpFull(cat, c), c);
  }

  /** The four core fields read back from the full dump. */
  lemma DumpFullCore(cat: Category, c: Candidate)
    requires WellFormed(cat, c)
    ensures var m := DumpFull(cat, c).fields;
      && "name" in m && m["name"] == JStr(c.name)
      && LoadOptString(m, "id") == Some(c.id)
      && LoadOptString(m, "address") == Some(c.address)
      && LoadOptUrl(m, "url") == Some(c.url)
  {
    DumpFullIds(cat, c);
    DumpFullUrl(cat, c);
  }

  lemma DumpFullIds(cat: Category, c: Candidate)
    requires cat == Transport ==> c.id.None? && c.address.None?
    ensures var m := DumpFull(cat, c).fields;
      LoadOptString(m, "id") == Some(c.id) && LoadOptString(m, "address") == Some(c.address)
  {
    if cat == Transport {
      DumpFullNoIds(c);
    } else {
      DumpFullHasIds(cat, c);
    }
  }

  /** The full dump of a transport option has neither an id nor an address. */
  lemma DumpFullNoIds(c: Candidate)
    ensures var m := DumpFull(Transport, c).fields; "id" !in m && "address" !in m
  {
    assert "id" !in AllowedKeys(Transport) && "address" !in AllowedKeys(Transport);
  }

  /** The full dump of another category holds the id and the address, `null` where unset. */
  lemma DumpFullHasIds(cat: Category, c: Candidate)
    requires cat != Transport
    ensures var m := DumpFull(cat, c).fields;
      "id" in m && m["id"] == (if c.id.Some? then JStr(c.id.value) else JNull)
      && "address" in m && m["address"] == (if c.address.Some? then JStr(c.address.value) else JNull)
  {
    var withId := PutFull(RestFull(cat, c), "id", c.id);
    var base := PutFull(withId, "address", c.address);
    var m := PutFull(base["name" := JStr(c.name)], "url", c.url);
    assert DumpFull(cat, c).fields == m;
    assert m["id"] == base["id"] == withId["id"];
    assert m["address"] == base["address"];
  }

  lemma DumpFullUrl(cat: Category, c: Candidate)
    requires c.url.Some? ==> ValidateUrl(c.url.value) == Some(c.url.value)
    ensures var m := DumpFull(cat, c).fields;
      "name" in m && m["name"] == JStr(c.name) && LoadOptUrl(m, "url") == Some(c.url)
  {
  }

  lemma DumpFullDefaults(cat: Category, c: Candidate)
    requires WellFormed(cat, c)
    ensures NoNullDefaults(cat, DumpFull(cat, c).fields)
  {
    var m := DumpFull(cat, c).fields;
    DumpFullSplit(cat, c);
    forall k | k in Defaults(cat) && k in m
      ensures m[k] != JNull
    {
      DefaultsNormal(cat);
      assert (m - CoreKeys)[k] == RestFull(cat, c)[k];
    }
  }
}
