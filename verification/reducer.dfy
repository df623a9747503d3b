/** The state reducer that merges a research node's candidate list into the list already
    held in the workflow state: a narrowed selection replaces the list, anything else is
    appended with duplicate ids dropped. */
module Reducer {
  import opened Wrappers
  import opened Json
  import opened Seqs
  import opened Candidates

  /** The identity the subset test compares candidates by. */
  datatype CandidateKey =
    | IdKey(id: string)
    | Fallback(name: string, url: Option<string>, address: Option<string>)

  /** A candidate "has an id" when its id is present and non-empty (Python truthiness). */
  predicate HasId(c: Candidate) {
    c.id.Some? && c.id.value != ""
  }

  predicate NoId(c: Candidate) {
    !HasId(c)
  }

  function Key(c: Candidate): CandidateKey {
    if HasId(c) then IdKey(c.id.value) else Fallback(c.name, c.url, c.address)
  }

  /** The non-empty ids of a list. */
  function Ids(s: seq<Candidate>): set<string> {
    set i | 0 <= i < |s| && HasId(s[i]) :: s[i].id.value
  }

  function Keys(s: seq<Candidate>): set<CandidateKey> {
    set i | 0 <= i < |s| :: Key(s[i])
  }

  /** The incoming list only names candidates already held: by id when it carries ids,
      by fallback key when it carries none. */
  predicate IsSubset(existing: seq<Candidate>, incoming: seq<Candidate>) {
    || (Ids(incoming) != {} && Ids(incoming) <= Ids(existing))
    || (Ids(incoming) == {} && forall i :: 0 <= i < |incoming| ==> Key(incoming[i]) in Keys(existing))
  }

  /** When the reducer replaces the held list with the incoming one. */
  predicate Replaces(existing: seq<Candidate>, incoming: seq<Candidate>) {
    existing != [] && incoming != [] && |incoming| <= |existing| && IsSubset(existing, incoming)
  }

  /** The incoming candidates the append path keeps, in order: those without an id, and
      the first of each id that is not in `seen` yet. */
  function Dedup(seen: set<string>, items: seq<Candidate>): seq<Candidate>
    decreases |items|
  {
    if items == [] then []
    else
      var c := items[0];
      if NoId(c) then [c] + Dedup(seen, items[1..])
      else if c.id.value !in seen then [c] + Dedup(seen + {c.id.value}, items[1..])
      else Dedup(seen, items[1..])
  }

  /** `reducer(existing, new)` on the candidate lists of two agent outputs. */
  function Merge(existing: Option<seq<Candidate>>, incoming: Option<seq<Candidate>>): (r: Option<seq<Candidate>>)
    ensures incoming.None? ==> r == existing
    ensures existing.None? ==> r == incoming
    ensures existing.Some? && incoming.Some? ==> r.Some? && |r.value| <= |existing.value| + |incoming.value|
  {
    match (existing, incoming)
    case (_, None) => existing
    case (None, _) => incoming
    case (Some(e), Some(n)) =>
      if Replaces(e, n) then Some(n)
      else
        DedupLength(Ids(e), n);
        Some(e + Dedup(Ids(e), n))
  }

  // ---------------------------------------------------------------------------
  // The values a channel is written with

  /** What a node writes to a candidate channel: an agent-output model holding its list, or a
      plain dictionary, which is what `model_dump()` of such a model gives. */
  datatype Written = Model(items: seq<Candidate>) | Dumped(fields: map<string, Json>)

  /** Why `reducer` raises: `type(new).model_fields` does not exist on a dictionary's type. */
  datatype MergeError = NoModelFields

  /** `reducer(existing, new)` on the values as written. Two models merge as `Merge` does; a
      dictionary meeting a held value raises; a held dictionary yields no items to `getattr`,
      so a new model's items are only deduplicated among themselves. */
  function MergeWritten(existing: Option<Written>, incoming: Option<Written>): (r: Result<Option<Written>, MergeError>)
    ensures incoming.None? ==> r == Ok(existing)
    ensures existing.None? ==> r == Ok(incoming)
    ensures existing.Some? && incoming.Some? ==> (r.Err? <==> incoming.value.Dumped?)
    ensures existing.Some? && existing.value.Model? && incoming.Some? && incoming.value.Model? ==>
              r == Ok(Some(Model(Merge(Some(existing.value.items), Some(incoming.value.items)).value)))
  {
    match (existing, incoming)
    case (_, None) => Ok(existing)
    case (None, _) => Ok(incoming)
    case (Some(_), Some(Dumped(_))) => Err(NoModelFields)
    case (Some(Model(e)), Some(Model(n))) => Ok(Some(Model(Merge(Some(e), Some(n)).value)))
    case (Some(Dumped(_)), Some(Model(n))) => Ok(Some(Model(Dedup({}, n))))
  }

  lemma {:induction false} DedupLength(seen: set<string>, items: seq<Candidate>)
    ensures |Dedup(seen, items)| <= |items|
    decreases |items|
  {
    if items != [] {
      var c := items[0];
      DedupLength(seen, items[1..]);
      DedupLength(seen + if HasId(c) then {c.id.value} else {}, items[1..]);
    }
  }

  // ---------------------------------------------------------------------------
  // A backward reference definition of the append path

  /** Item `c` following the prefix `before` is kept when it has no id, or when its id is
      neither in `seen` nor carried by any earlier item. */
  predicate Kept(seen: set<string>, before: seq<Candidate>, c: Candidate) {
    NoId(c) || c.id.value !in seen + Ids(before)
  }

  /** The same selection, described item by item from the back. */
  function DedupSpec(seen: set<string>, items: seq<Candidate>): seq<Candidate> {
    if items == [] then []
    else
      var before := items[..|items| - 1];
      DedupSpec(seen, before) + (if Kept(seen, before, items[|items| - 1]) then [items[|items| - 1]] else [])
  }

  lemma IdsCons(c: Candidate, s: seq<Candidate>)
    ensures Ids([c] + s) == (if HasId(c) then {c.id.value} else {}) + Ids(s)
  {
    var t := [c] + s;
    if HasId(c) {
      assert t[0] == c;
    }
    forall x | x in Ids(t) ensures x in (if HasId(c) then {c.id.value} else {}) + Ids(s) {
      var i :| 0 <= i < |t| && HasId(t[i]) && t[i].id.value == x;
      if i > 0 {
        assert s[i - 1] == t[i];
      }
    }
    forall x | x in Ids(s) ensures x in Ids(t) {
      var i :| 0 <= i < |s| && HasId(s[i]) && s[i].id.value == x;
      assert t[i + 1] == s[i];
    }
  }

  /** Appending one item to the input of `Dedup` appends at most that item to its output. */
  lemma {:induction false} DedupSnoc(seen: set<string>, a: seq<Candidate>, c: Candidate)
    ensures Dedup(seen, a + [c]) == Dedup(seen, a) + (if Kept(seen, a, c) then [c] else [])
    decreases |a|
  {
    if a == [] {
      assert Ids(a) == {};
      assert a + [c] == [c];
    } else {
      var h := a[0];
      var t := a[1..];
      assert (a + [c])[1..] == t + [c];
      assert a == [h] + t;
      IdsCons(h, t);
      if NoId(h) {
        DedupSnoc(seen, t, c);
      } else if h.id.value !in seen {
        DedupSnoc(seen + {h.id.value}, t, c);
      } else {
        DedupSnoc(seen, t, c);
      }
    }
  }

  /** The forward loop of the source and the backward description select the same items. */
  lemma {:induction false} DedupMatchesSpec(seen: set<string>, items: seq<Candidate>)
    ensures Dedup(seen, items) == DedupSpec(seen, items)
    decreases |items|
  {
    if items != [] {
      var before := items[..|items| - 1];
      var last := items[|items| - 1];
      assert items == before + [last];
      DedupMatchesSpec(seen, before);
      DedupSnoc(seen, before, last);
    }
  }

  // ---------------------------------------------------------------------------
  // What the append path keeps and drops

  /** The kept items appear in the input, in the same order. */
  lemma {:induction false} DedupSubseq(seen: set<string>, items: seq<Candidate>)
    ensures IsSubseq(Dedup(seen, items), items)
    decreases |items|
  {
    if items != [] {
      var c := items[0];
      var seen' := if NoId(c) || c.id.value in seen then seen else seen + {c.id.value};
      DedupSubseq(seen', items[1..]);
      var rest := Dedup(seen', items[1..]);
      if NoId(c) || c.id.value !in seen {
        assert Dedup(seen, items) == [c] + rest;
        assert ([c] + rest)[1..] == rest;
      } else {
        SubseqOfTail(rest, items);
      }
    }
  }

  /** Every item without an id is kept, in order. */
  lemma {:induction false} DedupKeepsNoId(seen: set<string>, items: seq<Candidate>)
    ensures Filter(NoId, Dedup(seen, items)) == Filter(NoId, items)
    decreases |items|
  {
    if items != [] {
      var c := items[0];
      var seen' := if NoId(c) || c.id.value in seen then seen else seen + {c.id.value};
      DedupKeepsNoId(seen', items[1..]);
      var rest := Dedup(seen', items[1..]);
      if NoId(c) || c.id.value !in seen {
        assert Dedup(seen, items) == [c] + rest;
        assert ([c] + rest)[1..] == rest;
      }
    }
  }

  /** The kept ids are exactly the incoming ids not already seen. */
  lemma {:induction false} DedupIds(seen: set<string>, items: seq<Candidate>)
    ensures Ids(Dedup(seen, items)) == Ids(items) - seen
    decreases |items|
  {
    if items != [] {
      var c := items[0];
      var seen' := if NoId(c) || c.id.value in seen then seen else seen + {c.id.value};
      DedupIds(seen', items[1..]);
      var rest := Dedup(seen', items[1..]);
      assert items == [c] + items[1..];
      IdsCons(c, items[1..]);
      if NoId(c) || c.id.value !in seen {
        IdsCons(c, rest);
      }
    }
  }

  /** No two items of the list share an id. */
  predicate IdsDistinct(s: seq<Candidate>) {
    forall i, j :: 0 <= i < j < |s| && HasId(s[i]) && HasId(s[j]) ==> s[i].id != s[j].id
  }

  /** No item of the list carries an id from `seen`. */
  predicate IdsAvoid(s: seq<Candidate>, seen: set<string>) {
    forall i :: 0 <= i < |s| && HasId(s[i]) ==> s[i].id.value !in seen
  }

  /** No kept item repeats an id, whether one from `seen` or one kept earlier. */
  lemma {:induction false} DedupDistinct(seen: set<string>, items: seq<Candidate>)
    ensures IdsDistinct(Dedup(seen, items))
    ensures IdsAvoid(Dedup(seen, items), seen)
    decreases |items|
  {
    if items != [] {
      var c := items[0];
      var seen' := if NoId(c) || c.id.value in seen then seen else seen + {c.id.value};
      DedupDistinct(seen', items[1..]);
      var rest := Dedup(seen', items[1..]);
      if NoId(c) || c.id.value !in seen {
        var r := [c] + rest;
        assert Dedup(seen, items) == r;
        forall j | 1 <= j < |r| && HasId(r[j])
          ensures r[j].id.value !in seen && (HasId(c) ==> r[j].id != c.id)
        {
          assert r[j] == rest[j - 1];
        }
        assert IdsAvoid(r, seen);
        forall i, j | 0 <= i < j < |r| && HasId(r[i]) && HasId(r[j]) ensures r[i].id != r[j].id {
          assert r[j] == rest[j - 1];
          if i > 0 {
            assert r[i] == rest[i - 1];
          }
        }
      } else {
        assert Dedup(seen, items) == rest;
      }
    }
  }

  // ---------------------------------------------------------------------------
  // Properties of the merge

  /** A narrowed selection replaces the held list. */
  lemma MergeReplaces(e: seq<Candidate>, n: seq<Candidate>)
    requires Replaces(e, n)
    ensures Merge(Some(e), Some(n)) == Some(n)
  {
  }

  /** Any non-empty selection drawn from the held candidates, no longer than the held list,
      replaces it: this is how a human selection narrows the state to the chosen options. */
  lemma MergeSelection(e: seq<Candidate>, n: seq<Candidate>)
    requires n != [] && |n| <= |e|
    requires forall i :: 0 <= i < |n| ==> n[i] in e
    ensures Merge(Some(e), Some(n)) == Some(n)
  {
    assert Ids(n) <= Ids(e) by {
      forall x | x in Ids(n) ensures x in Ids(e) {
        var i :| 0 <= i < |n| && HasId(n[i]) && n[i].id.value == x;
        var j :| 0 <= j < |e| && e[j] == n[i];
      }
    }
    forall i | 0 <= i < |n| ensures Key(n[i]) in Keys(e) {
      var j :| 0 <= j < |e| && e[j] == n[i];
    }
    assert Replaces(e, n);
  }

  /** Merging a non-empty list with itself leaves it unchanged. */
  lemma MergeSelf(x: seq<Candidate>)
    requires x != []
    ensures Merge(Some(x), Some(x)) == Some(x)
  {
    MergeSelection(x, x);
  }

  /** On the append path the held list is kept as a prefix, every incoming item without an
      id follows in order, no incoming id the list already holds is added, and every other
      incoming id is added exactly once. */
  lemma MergeAppends(e: seq<Candidate>, n: seq<Candidate>)
    requires !Replaces(e, n)
    ensures var r := Merge(Some(e), Some(n)).value;
      && |e| <= |r| <= |e| + |n|
      && r[..|e|] == e
      && IsSubseq(r[|e|..], n)
      && Filter(NoId, r[|e|..]) == Filter(NoId, n)
      && Ids(r) == Ids(e) + Ids(n)
      && forall i :: |e| <= i < |r| && HasId(r[i]) ==> r[i].id.value !in Ids(e)
  {
    var added := Dedup(Ids(e), n);
    var r := e + added;
    assert Merge(Some(e), Some(n)) == Some(r);
    assert r[|e|..] == added;
    DedupLength(Ids(e), n);
    DedupSubseq(Ids(e), n);
    DedupKeepsNoId(Ids(e), n);
    DedupIds(Ids(e), n);
    DedupDistinct(Ids(e), n);
    IdsAppend(e, added);
    forall i | |e| <= i < |r| && HasId(r[i]) ensures r[i].id.value !in Ids(e) {
      assert r[i] == added[i - |e|];
    }
  }

  lemma IdsAppend(a: seq<Candidate>, b: seq<Candidate>)
    ensures Ids(a + b) == Ids(a) + Ids(b)
  {
    var t := a + b;
    forall x | x in Ids(t) ensures x in Ids(a) + Ids(b) {
      var i :| 0 <= i < |t| && HasId(t[i]) && t[i].id.value == x;
      if i >= |a| {
        assert b[i - |a|] == t[i];
      }
    }
    forall x | x in Ids(b) ensures x in Ids(t) {
      var i :| 0 <= i < |b| && HasId(b[i]) && b[i].id.value == x;
      assert t[i + |a|] == b[i];
    }
    forall x | x in Ids(a) ensures x in Ids(t) {
      var i :| 0 <= i < |a| && HasId(a[i]) && a[i].id.value == x;
      assert t[i] == a[i];
    }
  }

  /** Ids stay distinct: when the held list repeats no id, neither does the merged list
      on the append path. */
  lemma MergeKeepsIdsDistinct(e: seq<Candidate>, n: seq<Candidate>)
    requires !Replaces(e, n)
    requires IdsDistinct(e)
    ensures IdsDistinct(Merge(Some(e), Some(n)).value)
  {
    var added := Dedup(Ids(e), n);
    var r := e + added;
    assert Merge(Some(e), Some(n)) == Some(r);
    DedupDistinct(Ids(e), n);
    forall i, j | 0 <= i < j < |r| && HasId(r[i]) && HasId(r[j]) ensures r[i].id != r[j].id {
      if j >= |e| {
        assert r[j] == added[j - |e|];
        if i >= |e| {
          assert r[i] == added[i - |e|];
        } else {
          assert r[i] == e[i];
          assert r[i].id.value in Ids(e);
        }
      } else {
        assert r[i] == e[i] && r[j] == e[j];
      }
    }
  }
}
