/** `parse_reddit_results`: turning the Reddit tool's text report into documents. The
    regular-expression scan is the parameter `scan`, which gives the seven named groups of each
    post it matches, in order; the removal of `http(s)://` links from the content is the
    parameter `dropLinks`. */
module Reddit {
  import opened Wrappers
  import opened Json
  import opened Text
  import opened Seqs
  import opened Documents

  /** The named groups of one match of the post pattern. */
  datatype PostMatch = PostMatch(
    title: string, user: string, subreddit: string, body: string, url: string, category: string, score: string)

  /** The report text of a payload: a dict's `"result"` entry when it has one, else the payload
      itself; only a string has a report. */
  function PayloadText(payload: Json): (r: Option<string>)
    ensures payload.JObj? && "result" in payload.fields ==>
              (r.Some? <==> payload.fields["result"].JStr?) && (r.Some? ==> r.value == payload.fields["result"].s)
    ensures !(payload.JObj? && "result" in payload.fields) ==> (r.Some? <==> payload.JStr?) && (r.Some? ==> r.value == payload.s)
  {
    var text := if payload.JObj? && "result" in payload.fields then payload.fields["result"] else payload;
    if text.JStr? then Some(text.s) else None
  }

  predicate IsQuote(c: char) {
    c == '\'' || c == '"'
  }

  /** The title, stripped of whitespace and then of surrounding quotes. */
  function CleanTitle(t: string): (r: string)
    ensures r == [] || (!IsQuote(r[0]) && !IsQuote(r[|r| - 1]))
    ensures |r| <= |t|
  {
    StripBy(Strip(t), IsQuote)
  }

  /** The subreddit, stripped of whitespace and then of trailing colons. */
  function CleanSubreddit(s: string): (r: string)
    ensures r == [] || r[|r| - 1] != ':'
  {
    RStripBy(Strip(s), c => c == ':')
  }

  /** `int(score)` when the stripped score is a non-empty run of digits, `None` otherwise. */
  function Score(s: string): (r: Option<nat>)
    ensures r.Some? <==> Strip(s) != "" && All(Strip(s), IsDigit)
  {
    var t := Strip(s);
    if t != "" && All(t, IsDigit) then Some(DigitsValue(t)) else None
  }

  /** The page content: title and body separated by a blank line and stripped, or the URL when
      that is empty, with links removed. */
  function Content(title: string, body: string, url: string, dropLinks: string -> string): (r: string)
    ensures Strip(title + "\n\n" + body) != "" ==> r == dropLinks(Strip(title + "\n\n" + body))
    ensures Strip(title + "\n\n" + body) == "" ==> r == dropLinks(url)
  {
    var joined := Strip(title + "\n\n" + body);
    dropLinks(if joined != "" then joined else url)
  }

  const MetadataKeys: set<string> := {"source", "title", "url", "subreddit", "author", "category", "score"}

  /** The metadata of a post, before it is written out as a dict. */
  datatype PostMeta = PostMeta(
    title: string, url: string, subreddit: string, author: string, category: string, score: Option<nat>)

  /** The metadata dict: the source tag, the cleaned groups, and the score or `None`. */
  function MetadataMap(p: PostMeta): (r: map<string, Json>)
    ensures r.Keys == MetadataKeys
    ensures r["source"] == JStr("reddit")
    ensures r["score"] == (if p.score.Some? then JInt(p.score.value) else JNull)
    ensures r["title"] == JStr(p.title) && r["subreddit"] == JStr(p.subreddit) && r["url"] == JStr(p.url)
    ensures r["author"] == JStr(p.author) && r["category"] == JStr(p.category)
  {
    map["source" := JStr("reddit"), "title" := JStr(p.title), "url" := JStr(p.url),
        "subreddit" := JStr(p.subreddit), "author" := JStr(p.author), "category" := JStr(p.category),
        "score" := if p.score.Some? then JInt(p.score.value) else JNull]
  }

  /** The metadata of one match: every group stripped, the title also of quotes, the subreddit
      also of trailing colons, and the score read as a number when it is one. */
  function MetaOf(m: PostMatch): PostMeta {
    PostMeta(CleanTitle(m.title), Strip(m.url), CleanSubreddit(m.subreddit), Strip(m.user), Strip(m.category), Score(m.score))
  }

  /** The document made from one match. */
  function ToDocument(m: PostMatch, dropLinks: string -> string): (d: Document)
    ensures d.metadata == MetadataMap(MetaOf(m))
    ensures d.content == Content(MetaOf(m).title, Strip(m.body), MetaOf(m).url, dropLinks)
  {
    var meta := MetaOf(m);
    Document(Content(meta.title, Strip(m.body), meta.url, dropLinks), MetadataMap(meta))
  }

  /** `parse_reddit_results`: one document per match of the report, in match order; nothing when
      the payload has no report text. */
  function ParseRedditResults(payload: Json, scan: string -> seq<PostMatch>, dropLinks: string -> string): (r: seq<Document>)
    ensures PayloadText(payload).None? ==> r == []
    ensures PayloadText(payload).Some? ==> |r| == |scan(PayloadText(payload).value)|
    ensures PayloadText(payload).Some? ==>
              forall i :: 0 <= i < |r| ==> r[i] == ToDocument(scan(PayloadText(payload).value)[i], dropLinks)
    ensures forall i :: 0 <= i < |r| ==> "source" in r[i].metadata && r[i].metadata["source"] == JStr("reddit")
  {
    match PayloadText(payload)
    case None => []
    case Some(text) => Map((m: PostMatch) => ToDocument(m, dropLinks), scan(text))
  }

  /** A dict wrapping the report under `"result"` reads the same as the report itself. */
  lemma ResultUnwrapped(s: string, scan: string -> seq<PostMatch>, dropLinks: string -> string)
    ensures ParseRedditResults(JObj(map["result" := JStr(s)]), scan, dropLinks) == ParseRedditResults(JStr(s), scan, dropLinks)
  {
  }

  /** A payload that is neither a string nor a dict with a string `"result"` gives no documents;
      a dict with another `"result"` is not read any further. */
  lemma NoTextNoDocuments(payload: Json, scan: string -> seq<PostMatch>, dropLinks: string -> string)
    requires !payload.JStr?
    requires payload.JObj? && "result" in payload.fields ==> !payload.fields["result"].JStr?
    ensures ParseRedditResults(payload, scan, dropLinks) == []
  {
  }

  /** A score written out as decimal digits, with any whitespace before and after it, reads
      back as that number. */
  lemma ScoreRoundTrip(n: nat, left: string, right: string)
    requires All(left, IsSpace) && All(right, IsSpace)
    ensures Score(left + NatToString(n) + right) == Some(n)
  {
    var digits := NatToString(n);
    StripPadded(left, digits, right);
    DigitsRoundTrip(n);
  }

  /** Stripping removes whitespace padding around a run of digits. */
  lemma StripPadded(left: string, s: string, right: string)
    requires All(left, IsSpace) && All(right, IsSpace)
    requires s != [] && All(s, IsDigit)
    ensures Strip(left + s + right) == s
  {
    assert left + s + right == left + (s + right);
    LStripPad(left, s + right);
    RStripPad(s, right);
  }

  lemma {:induction false} LStripPad(pad: string, s: string)
    requires All(pad, IsSpace)
    requires s != [] && IsDigit(s[0])
    ensures LStripBy(pad + s, IsSpace) == s
    decreases |pad|
  {
    if pad == [] {
      assert pad + s == s;
      DigitNotSpace(s[0]);
    } else {
      assert (pad + s)[0] == pad[0];
      assert (pad + s)[1..] == pad[1..] + s;
      LStripPad(pad[1..], s);
    }
  }

  lemma {:induction false} RStripPad(s: string, pad: string)
    requires All(pad, IsSpace)
    requires s != [] && IsDigit(s[|s| - 1])
    ensures RStripBy(s + pad, IsSpace) == s
    decreases |pad|
  {
    if pad == [] {
      assert s + pad == s;
      DigitNotSpace(s[|s| - 1]);
    } else {
      assert (s + pad)[|s + pad| - 1] == pad[|pad| - 1];
      assert (s + pad)[..|s + pad| - 1] == s + pad[..|pad| - 1];
      RStripPad(s, pad[..|pad| - 1]);
    }
  }

  lemma DigitNotSpace(c: char)
    requires IsDigit(c)
    ensures !IsSpace(c)
  {
  }

  /** A post whose title and body are blank is represented by its URL. */
  lemma BlankPostUsesUrl(m: PostMatch, dropLinks: string -> string)
    requires MetaOf(m).title == "" && Strip(m.body) == ""
    ensures ToDocument(m, dropLinks).content == dropLinks(Strip(m.url))
  {
    var meta := MetaOf(m);
    ContentBlank(meta.title, Strip(m.body), meta.url, dropLinks);
  }

  /** Blank title and body leave only the URL. */
  lemma ContentBlank(title: string, body: string, url: string, dropLinks: string -> string)
    requires title == "" && body == ""
    ensures Content(title, body, url, dropLinks) == dropLinks(url)
  {
    assert title + "\n\n" + body == "\n\n";
    BlankStrips();
  }

  lemma BlankStrips()
    ensures Strip("\n\n") == ""
  {
    assert LStripBy("\n\n"[1..], IsSpace) == LStripBy("\n", IsSpace);
    assert "\n"[1..] == "";
  }
}
