/** The message the flight-search tool raises when the Amadeus SDK reports an error: an HTTP
    prefix, and details taken from the response body — its `errors` list, or else its
    `result`, `message` or `error` text, or else the raw body when it is not JSON. */
module Amadeus {
  import opened Wrappers
  import opened Json
  import opened Text

  /** How the parts of a section are turned into text. As written, `str.join` accepts only
      strings and raises `TypeError` on anything else; `Lenient` renders every part with `str`. */
  datatype TextMode = Strict | Lenient

  /** The `TypeError` `str.join` raises, with the offending value. */
  datatype JoinError = NonStringPart(part: Json)

  /** A value as a part of a join: strings as they are; anything else raises as written and is
      rendered with `str` when lenient. */
  function AsText(mode: TextMode, j: Json, show: Show): (r: Result<string, JoinError>)
    ensures j.JStr? ==> r == Ok(j.s)
    ensures !j.JStr? ==> (r.Err? <==> mode == Strict)
    ensures r.Ok? ==> r.value == PyStr(j, show)
  {
    if j.JStr? then Ok(j.s)
    else if mode == Strict then Err(NonStringPart(j))
    else Ok(PyStr(j, show))
  }

  /** One entry of the `errors` list: the truthy ones of `code` and `title` joined by a space,
      then `": detail"` when `detail` is truthy, or the detail alone when there is no name. */
  function Section(mode: TextMode, item: map<string, Json>, show: Show): (r: Result<string, JoinError>)
    ensures var c, t, d := Get(item, "code"), Get(item, "title"), Get(item, "detail");
      r.Err? <==> (mode == Strict && (
                     (Truthy(c) && !c.JStr?) || (Truthy(t) && !t.JStr?) ||
                     (!Truthy(c) && !Truthy(t) && Truthy(d) && !d.JStr?)))
    ensures var c, t, d := Get(item, "code"), Get(item, "title"), Get(item, "detail");
      && (r.Ok? && !Truthy(c) && !Truthy(t) ==> r.value == (if Truthy(d) then PyStr(d, show) else ""))
      && (r.Ok? && Truthy(c) && Truthy(t) && !Truthy(d) ==> r.value == PyStr(c, show) + " " + PyStr(t, show))
      && (r.Ok? && Truthy(c) != Truthy(t) && !Truthy(d) ==> r.value == PyStr(if Truthy(c) then c else t, show))
      && (r.Ok? && (Truthy(c) || Truthy(t)) && Truthy(d) ==>
            |r.value| > |PyStr(d, show)| + 2 &&
            r.value[|r.value| - |PyStr(d, show)| - 2..] == ": " + PyStr(d, show))
  {
    var c, t, d := Get(item, "code"), Get(item, "title"), Get(item, "detail");
    var section :- JoinNames(mode, Names(c, t), show);
    if Truthy(d) then
      if section != "" then
        DetailSuffix(section, PyStr(d, show));
        Ok(section + ": " + PyStr(d, show))
      else AsText(mode, d, show)
    else Ok(section)
  }

  /** The truthy ones of a code and a title, in that order. */
  function Names(c: Json, t: Json): (r: seq<Json>)
    ensures |r| <= 2 && forall i :: 0 <= i < |r| ==> Truthy(r[i])
    ensures (exists i :: 0 <= i < |r| && !r[i].JStr?) <==> (Truthy(c) && !c.JStr?) || (Truthy(t) && !t.JStr?)
    ensures |r| == 0 <==> !Truthy(c) && !Truthy(t)
    ensures |r| == 1 ==> r[0] == (if Truthy(c) then c else t)
    ensures |r| == 2 ==> Truthy(c) && Truthy(t) && r == [c, t]
  {
    if Truthy(c) && Truthy(t) then
      assert !c.JStr? ==> 0 < 2 && ![c, t][0].JStr?;
      assert !t.JStr? ==> 1 < 2 && ![c, t][1].JStr?;
      [c, t]
    else if Truthy(c) then
      assert !c.JStr? ==> ![c][0].JStr?;
      [c]
    else if Truthy(t) then
      assert !t.JStr? ==> ![t][0].JStr?;
      [t]
    else []
  }

  /** A non-empty section followed by `": "` and the detail ends with them. */
  lemma DetailSuffix(section: string, detail: string)
    requires section != ""
    ensures |section + ": " + detail| > |detail| + 2
    ensures (section + ": " + detail)[|section + ": " + detail| - |detail| - 2..] == ": " + detail
  {
    var s := section + ": " + detail;
    assert s == section + (": " + detail);
  }

  /** `" ".join` of up to two truthy values. */
  function JoinNames(mode: TextMode, names: seq<Json>, show: Show): (r: Result<string, JoinError>)
    requires |names| <= 2 && forall i :: 0 <= i < |names| ==> Truthy(names[i])
    ensures r.Err? <==> mode == Strict && exists i :: 0 <= i < |names| && !names[i].JStr?
    ensures r.Ok? && |names| == 0 ==> r.value == ""
    ensures r.Ok? && |names| == 1 ==> r.value == PyStr(names[0], show) && r.value != ""
    ensures r.Ok? && |names| == 2 ==> r.value == PyStr(names[0], show) + " " + PyStr(names[1], show)
  {
    if names == [] then Ok("")
    else
      var a :- AsText(mode, names[0], show);
      if |names| == 1 then
        NonEmptyText(mode, names[0], show);
        Ok(a)
      else
        var b :- AsText(mode, names[1], show);
        assert Join([a, b], " ") == a + " " + Join([b], " ");
        Ok(Join([a, b], " "))
  }

  /** The text of a truthy value is never empty. */
  lemma NonEmptyText(mode: TextMode, j: Json, show: Show)
    requires Truthy(j) && AsText(mode, j, show).Ok?
    ensures AsText(mode, j, show).value != "" || !j.JStr?
  {
  }

  /** The non-empty sections of the dict entries of an `errors` list, in order; other entries
      are skipped. As written the first entry whose section cannot be joined raises. */
  function Sections(mode: TextMode, errors: seq<Json>, show: Show): (r: Result<seq<string>, JoinError>)
    ensures r.Ok? ==> |r.value| <= |errors| && forall i :: 0 <= i < |r.value| ==> r.value[i] != ""
    ensures mode == Lenient ==> r.Ok?
    decreases |errors|
  {
    if errors == [] then Ok([])
    else if !errors[0].JObj? then Sections(mode, errors[1..], show)
    else
      var s :- Section(mode, errors[0].fields, show);
      var rest :- Sections(mode, errors[1..], show);
      Ok(if s != "" then [s] + rest else rest)
  }

  /** Entries that are not dicts contribute nothing. */
  lemma {:induction false} SectionsSkipNonDicts(mode: TextMode, a: seq<Json>, b: seq<Json>, show: Show)
    requires forall i :: 0 <= i < |a| ==> !a[i].JObj?
    ensures Sections(mode, a + b, show) == Sections(mode, b, show)
    decreases |a|
  {
    if a != [] {
      assert (a + b)[0] == a[0] && !a[0].JObj?;
      assert forall i :: 0 <= i < |a[1..]| ==> a[1..][i] == a[i + 1];
      assert (a + b)[1..] == a[1..] + b;
      assert Sections(mode, a + b, show) == Sections(mode, a[1..] + b, show);
      SectionsSkipNonDicts(mode, a[1..], b, show);
    } else {
      assert a + b == b;
    }
  }

  /** An entry whose values are strings wherever they are truthy. */
  predicate PlainEntry(item: map<string, Json>) {
    forall k :: k in ["code", "title", "detail"] && Truthy(Get(item, k)) ==> Get(item, k).JStr?
  }

  /** On entries with string values only, the lenient sections are the ones written. */
  lemma {:induction false} SectionsAgree(errors: seq<Json>, show: Show)
    requires forall i :: 0 <= i < |errors| && errors[i].JObj? ==> PlainEntry(errors[i].fields)
    ensures Sections(Strict, errors, show) == Sections(Lenient, errors, show)
    decreases |errors|
  {
    if errors != [] {
      assert forall i :: 1 <= i < |errors| ==> errors[1..][i - 1] == errors[i];
      SectionsAgree(errors[1..], show);
      if errors[0].JObj? {
        var item := errors[0].fields;
        assert PlainEntry(item);
        assert Truthy(Get(item, "code")) ==> Get(item, "code").JStr?;
        assert Truthy(Get(item, "title")) ==> Get(item, "title").JStr?;
        assert Truthy(Get(item, "detail")) ==> Get(item, "detail").JStr?;
        var s, l := Section(Strict, item, show), Section(Lenient, item, show);
        assert s.Ok? && l.Ok?;
      }
    }
  }

  /** The first of `keys` present in `m` with a string value, as `details` reads it. */
  function FirstString(m: map<string, Json>, keys: seq<string>): (r: Option<string>)
    ensures r.Some? <==> exists i :: 0 <= i < |keys| && keys[i] in m && m[keys[i]].JStr?
    ensures r.Some? ==> exists i :: 0 <= i < |keys| && keys[i] in m && m[keys[i]] == JStr(r.value) &&
                         forall j :: 0 <= j < i ==> !(keys[j] in m && m[keys[j]].JStr?)
  {
    if keys == [] then None
    else if keys[0] in m && m[keys[0]].JStr? then Some(m[keys[0]].s)
    else
      var r := FirstString(m, keys[1..]);
      assert forall i :: 1 <= i < |keys| ==> keys[1..][i - 1] == keys[i];
      if r.Some? then
        var i :| 0 <= i < |keys[1..]| && keys[1..][i] in m && m[keys[1..][i]] == JStr(r.value) &&
                 forall j :: 0 <= j < i ==> !(keys[1..][j] in m && m[keys[1..][j]].JStr?);
        assert keys[i + 1] in m && m[keys[i + 1]] == JStr(r.value);
        r
      else r
  }

  const FallbackKeys: seq<string> := ["result", "message", "error"]

  /** The details of an error response: none for a missing or empty body; the stripped body
      when it is not JSON; the joined sections of its `errors` list; else the first string
      among `result`, `message`, `error`. `parse` stands for `json.loads`, `None` for a
      decoding error. */
  function Details(mode: TextMode, body: Option<string>, parse: string -> Option<Json>, show: Show): (r: Result<Option<string>, JoinError>)
    ensures body.None? || body.value == "" ==> r == Ok(None)
    ensures body.Some? && body.value != "" && parse(body.value).None? ==> r == Ok(Some(Strip(body.value)))
    ensures body.Some? && body.value != "" && parse(body.value).Some? && !parse(body.value).value.JObj? ==> r == Ok(None)
    ensures mode == Lenient ==> r.Ok?
  {
    match body
    case None => Ok(None)
    case Some(raw) =>
      if raw == "" then Ok(None)
      else match parse(raw)
        case None => Ok(Some(Strip(raw)))
        case Some(parsed) =>
          var errors := if parsed.JObj? then Get(parsed.fields, "errors") else JNull;
          var fromErrors :-
            if errors.JArr? then
              var parts :- Sections(mode, errors.items, show);
              Ok(if parts != [] then Some(Join(parts, "; ")) else None)
            else Ok(None);
          if fromErrors.None? && parsed.JObj? then Ok(FirstString(parsed.fields, FallbackKeys))
          else Ok(fromErrors)
  }

  /** "HTTP <status>" for a truthy status code, "Amadeus API error" otherwise. */
  function Prefix(status: Option<int>): string {
    if status.Some? && status.value != 0 then "HTTP " + IntToString(status.value) else "Amadeus API error"
  }

  /** `_format_response_error`: the prefix, followed by `": details"` when the details are
      non-empty. */
  function FormatWith(mode: TextMode, status: Option<int>, body: Option<string>,
                      parse: string -> Option<Json>, show: Show): (r: Result<string, JoinError>)
    ensures mode == Lenient ==> r.Ok?
  {
    var details :- Details(mode, body, parse, show);
    if details.Some? && details.value != "" then Ok(Prefix(status) + ": " + details.value)
    else Ok(Prefix(status))
  }

  function FormatAsWritten(status: Option<int>, body: Option<string>, parse: string -> Option<Json>, show: Show): Result<string, JoinError> {
    FormatWith(Strict, status, body, parse, show)
  }

  /** The message as evidently intended: every part rendered with `str`, so it never fails. */
  function Format(status: Option<int>, body: Option<string>, parse: string -> Option<Json>, show: Show): (r: string)
    ensures StartsWith(r, Prefix(status))
    ensures r == Prefix(status) || (|r| > |Prefix(status)| + 2 && r[|Prefix(status)|..|Prefix(status)| + 2] == ": ")
  {
    FormatWith(Lenient, status, body, parse, show).value
  }

  /** The prefix names the status exactly when there is a truthy one. */
  lemma PrefixCases(status: Option<int>)
    ensures status.Some? && status.value != 0 ==> Prefix(status) == "HTTP " + IntToString(status.value)
    ensures status.None? || status.value == 0 ==> Prefix(status) == "Amadeus API error"
    ensures Prefix(status) != ""
  {
  }

  /** No body, or an empty one, gives the bare prefix. */
  lemma EmptyBodyIsPrefix(status: Option<int>, body: Option<string>, parse: string -> Option<Json>, show: Show)
    requires body.None? || body.value == ""
    ensures FormatAsWritten(status, body, parse, show) == Ok(Prefix(status))
    ensures Format(status, body, parse, show) == Prefix(status)
  {
  }

  /** A body that is not JSON is reported stripped, unless it is only whitespace. */
  lemma UnparsedBodyReported(status: Option<int>, raw: string, parse: string -> Option<Json>, show: Show)
    requires raw != "" && parse(raw).None?
    ensures Strip(raw) != "" ==> FormatAsWritten(status, Some(raw), parse, show) == Ok(Prefix(status) + ": " + Strip(raw))
    ensures Strip(raw) == "" ==> FormatAsWritten(status, Some(raw), parse, show) == Ok(Prefix(status))
  {
  }

  /** When the `errors` list yields no section, the first string among `result`, `message`,
      `error` is reported, and nothing when there is none. */
  lemma FallbackReported(status: Option<int>, raw: string, fields: map<string, Json>,
                         parse: string -> Option<Json>, show: Show)
    requires raw != "" && parse(raw) == Some(JObj(fields))
    requires Get(fields, "errors").JArr? ==> Sections(Lenient, Get(fields, "errors").items, show) == Ok([])
    ensures var d := FirstString(fields, FallbackKeys);
      Format(status, Some(raw), parse, show) == (if d.Some? && d.value != "" then Prefix(status) + ": " + d.value else Prefix(status))
  {
  }

  /** The sections of an `errors` list are reported joined by `"; "`, in order. */
  lemma SectionsReported(status: Option<int>, raw: string, errors: seq<Json>, fields: map<string, Json>,
                         parse: string -> Option<Json>, show: Show)
    requires raw != "" && parse(raw) == Some(JObj(fields)) && Get(fields, "errors") == JArr(errors)
    requires Sections(Lenient, errors, show).value != []
    ensures Format(status, Some(raw), parse, show) == Prefix(status) + ": " + Join(Sections(Lenient, errors, show).value, "; ")
  {
    JoinNonEmpty(Sections(Lenient, errors, show).value, "; ");
  }

  lemma {:induction false} JoinNonEmpty(parts: seq<string>, sep: string)
    requires parts != [] && parts[0] != ""
    ensures Join(parts, sep) != ""
  {
  }

  /** The message as written equals the intended one whenever the codes, titles and details
      of the reported entries are strings. */
  lemma AsWrittenAgrees(status: Option<int>, raw: string, errors: seq<Json>, fields: map<string, Json>,
                        parse: string -> Option<Json>, show: Show)
    requires raw != "" && parse(raw) == Some(JObj(fields)) && Get(fields, "errors") == JArr(errors)
    requires forall i :: 0 <= i < |errors| && errors[i].JObj? ==> PlainEntry(errors[i].fields)
    ensures FormatAsWritten(status, Some(raw), parse, show) == Ok(Format(status, Some(raw), parse, show))
  {
    SectionsAgree(errors, show);
  }

  /** An Amadeus error entry, whose `code` is a number. */
  const Entry477: map<string, Json> := map["code" := JInt(477), "title" := JStr("INVALID FORMAT")]

  /** The entry's section: the code rendered with `str` when lenient, a `TypeError` as written. */
  lemma Entry477Section(show: Show)
    ensures Section(Lenient, Entry477, show) == Ok("477 INVALID FORMAT")
    ensures Section(Strict, Entry477, show) == Err(NonStringPart(JInt(477)))
  {
    Entry477Lenient(show);
    Entry477Strict(show);
  }

  lemma Entry477Parts()
    ensures Get(Entry477, "code") == JInt(477) && Get(Entry477, "title") == JStr("INVALID FORMAT")
    ensures Get(Entry477, "detail") == JNull
  {
  }

  lemma Str477(show: Show)
    ensures PyStr(JInt(477), show) == "477"
  {
    assert IntToString(477) == "477";
  }

  lemma Entry477Lenient(show: Show)
    ensures Section(Lenient, Entry477, show) == Ok("477 INVALID FORMAT")
  {
    Entry477Parts();
    assert Names(JInt(477), JStr("INVALID FORMAT")) == [JInt(477), JStr("INVALID FORMAT")];
    Join477(show);
  }

  lemma Join477(show: Show)
    ensures JoinNames(Lenient, [JInt(477), JStr("INVALID FORMAT")], show) == Ok("477 INVALID FORMAT")
  {
    var names := [JInt(477), JStr("INVALID FORMAT")];
    var r := JoinNames(Lenient, names, show);
    assert r.Ok?;
    assert r.value == PyStr(names[0], show) + " " + PyStr(names[1], show);
    Str477(show);
    assert PyStr(names[1], show) == "INVALID FORMAT";
    assert "477" + " " + "INVALID FORMAT" == "477 INVALID FORMAT";
  }

  lemma Entry477Strict(show: Show)
    ensures Section(Strict, Entry477, show) == Err(NonStringPart(JInt(477)))
  {
    Entry477Parts();
    assert Names(JInt(477), JStr("INVALID FORMAT")) == [JInt(477), JStr("INVALID FORMAT")];
  }

  lemma Entry477Sections(show: Show)
    ensures Sections(Lenient, [JObj(Entry477)], show) == Ok(["477 INVALID FORMAT"])
    ensures Sections(Strict, [JObj(Entry477)], show) == Err(NonStringPart(JInt(477)))
  {
    var items := [JObj(Entry477)];
    Entry477Section(show);
    assert items[1..] == [] && items[0].fields == Entry477;
    assert ["477 INVALID FORMAT"] + [] == ["477 INVALID FORMAT"];
  }

  /** As written, a numeric code makes the formatter raise `TypeError` instead of returning a
      message; the intended message is "HTTP 400: 477 INVALID FORMAT". */
  lemma NumericCodeRaises(raw: string, parse: string -> Option<Json>, show: Show)
    requires raw != "" && parse(raw) == Some(JObj(map["errors" := JArr([JObj(Entry477)])]))
    ensures FormatAsWritten(Some(400), Some(raw), parse, show) == Err(NonStringPart(JInt(477)))
    ensures Format(Some(400), Some(raw), parse, show) == "HTTP 400: 477 INVALID FORMAT"
  {
    var m := map["errors" := JArr([JObj(Entry477)])];
    assert Get(m, "errors") == JArr([JObj(Entry477)]);
    Entry477Sections(show);
    assert Join(["477 INVALID FORMAT"], "; ") == "477 INVALID FORMAT";
    assert Details(Lenient, Some(raw), parse, show) == Ok(Some("477 INVALID FORMAT"));
    assert Details(Strict, Some(raw), parse, show) == Err(NonStringPart(JInt(477)));
    Prefix400();
  }

  lemma Prefix400()
    ensures Prefix(Some(400)) + ": " + "477 INVALID FORMAT" == "HTTP 400: 477 INVALID FORMAT"
  {
    assert IntToString(400) == "400";
  }
}
