/**
 * The pair-text split both copies do with `/([^/]*)\/([^/]*)/im`: the
 * pattern is unanchored and the flags change nothing for these classes,
 * so it matches iff the text holds a '/', and then at position 0.
 */
module PairText {
  import opened Wrappers

  /** What `[^/]*` consumes from the start of `s`: everything before the first '/'. */
  function Segment(s: string): (r: string)
    ensures |r| <= |s| && r == s[..|r|]
    ensures '/' !in r
    ensures |r| < |s| ==> s[|r|] == '/'
  {
    if s == [] || s[0] == '/' then [] else [s[0]] + Segment(s[1..])
  }

  /**
   * `f` and `t` are the two groups of a match in `text`: `f` is everything
   * before the first '/', `t` everything after it up to the next '/' or the end.
   */
  ghost predicate IsPairSplit(text: string, f: string, t: string)
  {
    && '/' !in f && '/' !in t
    && |f| + 1 + |t| <= |text|
    && text[..|f|] == f
    && text[|f|] == '/'
    && text[|f| + 1..|f| + 1 + |t|] == t
    && (|f| + 1 + |t| == |text| || text[|f| + 1 + |t|] == '/')
  }

  /** `text.match(keypairRegexp)`, as its two groups. */
  function ParsePairText(text: string): (r: Option<(string, string)>)
    ensures r.None? <==> '/' !in text
    ensures r.Some? ==> IsPairSplit(text, r.value.0, r.value.1)
  {
    var f := Segment(text);
    if |f| == |text| then None
    else
      var t := Segment(text[|f| + 1..]);
      assert text[|f| + 1..][..|t|] == text[|f| + 1..|f| + 1 + |t|];
      Some((f, t))
  }

  /** A '/'-free prefix followed by '/' is determined by the text. */
  lemma SlashFreePrefixUnique(text: string, a: string, b: string)
    requires '/' !in a && '/' !in b
    requires |a| < |text| && text[..|a|] == a && text[|a|] == '/'
    requires |b| < |text| && text[..|b|] == b && text[|b|] == '/'
    ensures a == b
  {
  }

  /** The same for a '/'-free run followed by '/' or by the end of the text. */
  lemma SlashFreeRunUnique(text: string, a: string, b: string)
    requires '/' !in a && '/' !in b
    requires |a| <= |text| && text[..|a|] == a && (|a| == |text| || text[|a|] == '/')
    requires |b| <= |text| && text[..|b|] == b && (|b| == |text| || text[|b|] == '/')
    ensures a == b
  {
  }

  /** The two groups are unique: no text splits two ways. */
  lemma PairSplitUnique(text: string, f1: string, t1: string, f2: string, t2: string)
    requires IsPairSplit(text, f1, t1) && IsPairSplit(text, f2, t2)
    ensures f1 == f2 && t1 == t2
  {
    SlashFreePrefixUnique(text, f1, f2);
    var rest := text[|f1| + 1..];
    assert rest[..|t1|] == t1 && rest[..|t2|] == t2;
    SlashFreeRunUnique(rest, t1, t2);
  }

  /** Whatever splits the text is what the parse returns. */
  lemma ParsePairTextComplete(text: string, f: string, t: string)
    requires IsPairSplit(text, f, t)
    ensures ParsePairText(text) == Some((f, t))
  {
    assert text[|f|] in text;
    var r := ParsePairText(text);
    PairSplitUnique(text, f, t, r.value.0, r.value.1);
  }

  /** Round trip: joining two '/'-free symbols with '/' (and any tail starting at a '/') parses back to them. */
  lemma ParseRoundTrip(f: string, t: string, tail: string)
    requires '/' !in f && '/' !in t
    requires tail == [] || tail[0] == '/'
    ensures ParsePairText(f + "/" + t + tail) == Some((f, t))
  {
    var text := f + "/" + t + tail;
    assert text[..|f|] == f;
    assert text[|f|] == '/';
    assert text[|f| + 1..|f| + 1 + |t|] == t;
    assert |f| + 1 + |t| < |text| ==> text[|f| + 1 + |t|] == tail[0];
    ParsePairTextComplete(text, f, t);
  }
}
