/** The clean-up applied to the downloaded guide before it is parsed
    (epg-to-rss.js, lines 17-18). */
module Sanitizer {
  import opened Sequences
  import opened Text

  /** U+3000, the full-width (ideographic) space. */
  const IdeographicSpace: char := '\U{3000}'
  const CR: char := '\r'
  const LF: char := '\n'

  /** `xml.replace(/\u3000/g, '')`: every ideographic space is deleted. */
  function RemoveIdeographicSpaces(s: string): (r: string)
    ensures forall i :: 0 <= i < |r| ==> r[i] != IdeographicSpace
    ensures IsSubsequence(r, s)
  {
    Delete(s, {IdeographicSpace})
  }

  /** `xml.replace(/\r?\n|\r/g, '')`, written as the scan the regular expression
      performs: at each position it first tries `\r\n`, then `\n`, then `\r`, and
      deletes what matched; any other character is kept. The whole effect is that
      of deleting every CR and every LF. */
  function RemoveLineBreaks(s: string): (r: string)
    ensures r == Delete(s, {CR, LF})
    decreases |s|
  {
    if s == [] then []
    else if |s| >= 2 && s[0] == CR && s[1] == LF then
      assert s[1..][1..] == s[2..];
      RemoveLineBreaks(s[2..])
    else if s[0] == LF || s[0] == CR then RemoveLineBreaks(s[1..])
    else [s[0]] + RemoveLineBreaks(s[1..])
  }

  /** The two replacements of lines 17-18, in that order. The result is the input
      with exactly the ideographic spaces, CRs and LFs deleted. */
  function Sanitize(s: string): (r: string)
    ensures r == Delete(s, {IdeographicSpace, CR, LF})
    ensures forall i :: 0 <= i < |r| ==> r[i] != IdeographicSpace && r[i] != CR && r[i] != LF
  {
    DeleteTwice(s, {IdeographicSpace}, {CR, LF});
    assert {IdeographicSpace} + {CR, LF} == {IdeographicSpace, CR, LF};
    RemoveLineBreaks(RemoveIdeographicSpaces(s))
  }

  /** Sanitizing keeps every other character as often as it occurs in the input;
      with the subsequence property of `Delete`, the kept characters are in their
      original order and nothing is inserted. */
  lemma SanitizeKeepsOthers(s: string, c: char)
    requires c != IdeographicSpace && c != CR && c != LF
    ensures multiset(Sanitize(s))[c] == multiset(s)[c]
    ensures IsSubsequence(Sanitize(s), s)
  {
    DeleteCounts(s, {IdeographicSpace, CR, LF}, c);
  }

  /** Sanitizing already sanitized text changes nothing. */
  lemma SanitizeIdempotent(s: string)
    ensures Sanitize(Sanitize(s)) == Sanitize(s)
  {
    DeleteNothing(Sanitize(s), {IdeographicSpace, CR, LF});
  }

  /** Deleting one ideographic space, CR or LF anywhere in the raw text does not
      change the sanitized text. */
  lemma SanitizeIgnoresDeleted(a: string, c: char, b: string)
    requires c == IdeographicSpace || c == CR || c == LF
    ensures Sanitize(a + [c] + b) == Sanitize(a + b)
  {
    DeleteDropped(a, c, b, {IdeographicSpace, CR, LF});
  }

  /** An ideographic space and a Windows line break between pieces of clean text
      vanish, and the pieces are joined with nothing inserted between them. */
  lemma SanitizeJoinsAcrossLineBreak(a: string, b: string, c: string)
    requires forall i :: 0 <= i < |a + b + c| ==> (a + b + c)[i] !in {IdeographicSpace, CR, LF}
    ensures Sanitize(a + [IdeographicSpace] + b + [CR, LF] + c) == a + b + c
  {
    var s := a + [IdeographicSpace] + b + [CR, LF] + c;
    assert Sanitize(s) == Delete(s, {IdeographicSpace, CR, LF});
    DeleteAcrossLineBreak(a, b, c, IdeographicSpace, CR, LF, {IdeographicSpace, CR, LF});
  }

  /** Deleting three characters of `drop` placed between clean pieces joins the
      pieces. */
  lemma DeleteAcrossLineBreak(a: string, b: string, c: string, x: char, y: char, z: char, drop: set<char>)
    requires x in drop && y in drop && z in drop
    requires forall i :: 0 <= i < |a + b + c| ==> (a + b + c)[i] !in drop
    ensures Delete(a + [x] + b + [y, z] + c, drop) == a + b + c
  {
    var s0 := a + [x] + b + [y, z] + c;
    var t1 := b + [y] + ([z] + c);
    assert s0 == a + [x] + t1;
    DeleteDropped(a, x, t1, drop);
    assert Delete(s0, drop) == Delete(a + t1, drop);
    assert a + t1 == a + b + [y] + ([z] + c);
    DeleteDropped(a + b, y, [z] + c, drop);
    assert Delete(s0, drop) == Delete(a + b + ([z] + c), drop);
    assert a + b + ([z] + c) == a + b + [z] + c;
    DeleteDropped(a + b, z, c, drop);
    assert Delete(s0, drop) == Delete(a + b + c, drop);
    DeleteNothing(a + b + c, drop);
  }
}
