/** LangChain documents as the search tools produce them, and the string clean-ups they share. */
module Documents {
  import opened Json
  import opened Text

  /** A retrieved document: its text and its metadata. */
  datatype Document = Document(content: string, metadata: map<string, Json>)

  /** Python's `s.replace(c, "")`. */
  function RemoveChar(s: string, c: char): (r: string)
    ensures c !in r
    ensures |r| <= |s|
    ensures forall x :: x in r <==> x in s && x != c
    decreases |s|
  {
    if s == [] then []
    else if s[0] == c then RemoveChar(s[1..], c)
    else
      assert forall x :: x in s <==> x == s[0] || x in s[1..];
      [s[0]] + RemoveChar(s[1..], c)
  }

  /** `strip` only removes characters, so every character it keeps was in the input. */
  lemma StripKeepsChars(s: string)
    ensures forall x :: x in Strip(s) ==> x in s
  {
    var l := LStripBy(s, IsSpace);
    var r := RStripBy(l, IsSpace);
    assert Strip(s) == r;
    SliceKeepsChars(s, |s| - |l|, |s|);
    SliceKeepsChars(l, 0, |r|);
  }

  /** A slice holds only characters of the whole. */
  lemma SliceKeepsChars(s: string, a: int, b: int)
    requires 0 <= a <= b <= |s|
    ensures forall x :: x in s[a..b] ==> x in s
  {
    forall x | x in s[a..b]
      ensures x in s
    {
      var i :| 0 <= i < b - a && s[a..b][i] == x;
      assert s[a + i] == x;
    }
  }
}
