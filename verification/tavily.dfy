/** `process_pages`: the clean-up of the pages the Tavily tools return before they are
    re-ranked. The four regular-expression substitutions (dropping `http(s)://` and `www.`
    links, collapsing blank-line runs and runs of spaces and tabs) are the parameter `subs`;
    the carriage-return removal, the strip and the length filter are modelled here. */
module Tavily {
  import opened Text
  import opened Seqs
  import opened Documents

  /** Pages whose cleaned text is no longer than this are dropped. */
  const MinLength := 50

  /** Neither starts nor ends with whitespace: what `strip` leaves, and what it leaves alone. */
  predicate Stripped(t: string) {
    t == [] || (!IsSpace(t[0]) && !IsSpace(t[|t| - 1]))
  }

  /** The cleaned text of a page. */
  function Clean(subs: string -> string, text: string): (r: string)
    ensures '\r' !in r
    ensures Stripped(r)
  {
    var noCr := RemoveChar(subs(text), '\r');
    StripKeepsChars(noCr);
    Strip(noCr)
  }

  /** Text as a pass leaves it: no carriage return, stripped, longer than `MinLength`. */
  predicate IsClean(t: string) {
    '\r' !in t && Stripped(t) && |t| > MinLength
  }

  /** A page is kept when it has content and its cleaned text is longer than `MinLength`. */
  predicate Kept(subs: string -> string, d: Document) {
    d.content != "" && |Clean(subs, d.content)| > MinLength
  }

  /** A kept page, its content replaced by the cleaned text and its metadata untouched. */
  function Cleaned(subs: string -> string, d: Document): (r: Document)
    ensures r.metadata == d.metadata
  {
    d.(content := Clean(subs, d.content))
  }

  /** What `process_pages` returns, read as a filter: the first page, cleaned, when it is kept,
      followed by the result for the rest. */
  function ProcessPagesSpec(subs: string -> string, docs: seq<Document>): (r: seq<Document>)
    ensures |r| <= |docs|
    decreases |docs|
  {
    if docs == [] then [] else Out(subs, docs[0]) + ProcessPagesSpec(subs, docs[1..])
  }

  /** What one page contributes: itself, cleaned, when kept, and nothing otherwise. */
  function Out(subs: string -> string, d: Document): (r: seq<Document>)
    ensures |r| <= 1
  {
    if Kept(subs, d) then [Cleaned(subs, d)] else []
  }

  /** `process_pages`: one pass over the pages, appending each kept page, cleaned. */
  method ProcessPages(subs: string -> string, docs: seq<Document>) returns (cleaned: seq<Document>)
    ensures cleaned == ProcessPagesSpec(subs, docs)
  {
    cleaned := [];
    var n := 0;
    while n < |docs|
      invariant 0 <= n <= |docs|
      invariant cleaned == ProcessPagesSpec(subs, docs[..n])
    {
      var d := docs[n];
      assert docs[..n + 1] == docs[..n] + [d];
      SpecAppend(subs, docs[..n], [d]);
      SpecSingle(subs, d);
      if d.content != "" {
        var text := Clean(subs, d.content);
        if |text| > MinLength {
          cleaned := cleaned + [d.(content := text)];
        }
      }
      n := n + 1;
    }
    assert docs[..n] == docs;
  }

  lemma AppendAssoc(a: seq<Document>, b: seq<Document>, c: seq<Document>)
    ensures (a + b) + c == a + (b + c)
  {
  }

  /** Pages are processed independently and in order: the result for two runs of pages is
      the result for the first followed by the result for the second. */
  lemma {:induction false} SpecAppend(subs: string -> string, a: seq<Document>, b: seq<Document>)
    ensures ProcessPagesSpec(subs, a + b) == ProcessPagesSpec(subs, a) + ProcessPagesSpec(subs, b)
    decreases |a|
  {
    if a == [] {
      assert a + b == b;
    } else {
      var x, t := a[0], a[1..];
      assert a == [x] + t;
      assert a + b == [x] + (t + b);
      SpecCons(subs, x, t + b);
      SpecCons(subs, x, t);
      SpecAppend(subs, t, b);
      AppendAssoc(Out(subs, x), ProcessPagesSpec(subs, t), ProcessPagesSpec(subs, b));
    }
  }

  /** The result for a page followed by others: what the page contributes, then the rest. */
  lemma SpecCons(subs: string -> string, x: Document, t: seq<Document>)
    ensures ProcessPagesSpec(subs, [x] + t) == Out(subs, x) + ProcessPagesSpec(subs, t)
  {
    assert ([x] + t)[0] == x;
    assert ([x] + t)[1..] == t;
  }

  /** A single page is returned, cleaned, exactly when it has content and its cleaned text is
      longer than `MinLength`; otherwise it is dropped. */
  lemma SpecSingle(subs: string -> string, d: Document)
    ensures d.content == "" ==> ProcessPagesSpec(subs, [d]) == []
    ensures d.content != "" && |Clean(subs, d.content)| > MinLength ==>
              ProcessPagesSpec(subs, [d]) == [d.(content := Clean(subs, d.content))]
    ensures d.content != "" && |Clean(subs, d.content)| <= MinLength ==> ProcessPagesSpec(subs, [d]) == []
  {
    assert [d][1..] == [];
  }

  /** Every page returned is clean: no carriage return, stripped, longer than `MinLength`. */
  lemma {:induction false} SpecClean(subs: string -> string, docs: seq<Document>)
    ensures forall i :: 0 <= i < |ProcessPagesSpec(subs, docs)| ==> IsClean(ProcessPagesSpec(subs, docs)[i].content)
    decreases |docs|
  {
    if docs != [] {
      SpecClean(subs, docs[1..]);
    }
  }

  /** Cleaning is stable: the pages a pass returns, run through a pass whose substitutions leave
      them unchanged, come back unchanged and all kept. */
  lemma {:induction false} CleanStable(subs: string -> string, docs: seq<Document>)
    requires Settled(subs, docs)
    ensures ProcessPagesSpec(subs, docs) == docs
    decreases |docs|
  {
    if docs != [] {
      var x, t := docs[0], docs[1..];
      assert docs == [x] + t;
      CleanFixesClean(subs, x);
      CleanStable(subs, t);
      SpecCons(subs, x, t);
    }
  }

  /** Every page is clean and left alone by the substitutions. */
  predicate Settled(subs: string -> string, docs: seq<Document>)
    decreases |docs|
  {
    docs == [] || (subs(docs[0].content) == docs[0].content && IsClean(docs[0].content) && Settled(subs, docs[1..]))
  }

  /** A page already clean, under substitutions that leave it alone, is kept as it is. */
  lemma CleanFixesClean(subs: string -> string, d: Document)
    requires subs(d.content) == d.content && IsClean(d.content)
    ensures Kept(subs, d) && Cleaned(subs, d) == d
  {
    RemoveNothing(d.content, '\r');
  }

  /** Removing a character that does not occur changes nothing. */
  lemma {:induction false} RemoveNothing(s: string, c: char)
    requires c !in s
    ensures RemoveChar(s, c) == s
    decreases |s|
  {
    if s != [] {
      assert c !in s[1..];
      RemoveNothing(s[1..], c);
    }
  }
}
