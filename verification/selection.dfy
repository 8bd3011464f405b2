/** Choosing the programmes that go into the feed (epg-to-rss.js, lines 23-35). */
module Selection {
  import opened Wrappers
  import opened Sequences
  import opened Text
  import opened Epg

  /** The text every selected programme's title must contain. */
  const Needle: string := "東京女子プロレス"

  /** The largest number of items the feed holds. */
  const MaxItems: nat := 30

  /** `result.tv.programme || []`: the programme list, empty when absent. */
  function Programmes(tv: Tv): (r: seq<Programme>)
    ensures tv.programme.None? ==> r == []
    ensures tv.programme.Some? ==> r == tv.programme.value
  {
    tv.programme.GetOr([])
  }

  /** The filter callback of lines 27-30: the first title, or `''` when there is none,
      includes the needle. */
  predicate Matches(p: Programme)
    ensures Matches(p) <==> p.titles != [] && Includes(p.titles[0], Needle)
    ensures Matches(p) ==> p.titles[0] != ""
  {
    Includes(OrElse(First(p.titles), ""), Needle)
  }

  /** `programmes.filter(...)`: the matching programmes, in their original order. */
  function Filter(ps: seq<Programme>): (r: seq<Programme>)
    ensures forall i :: 0 <= i < |r| ==> Matches(r[i])
    ensures IsSubsequence(r, ps)
    decreases |ps|
  {
    if ps == [] then []
    else if Matches(ps[0]) then [ps[0]] + Filter(ps[1..])
    else Filter(ps[1..])
  }

  /** `filtered.slice(0, 30)`. */
  function Select(ps: seq<Programme>): (r: seq<Programme>)
    ensures |r| == if |Filter(ps)| < MaxItems then |Filter(ps)| else MaxItems
    ensures r == Filter(ps)[..|r|]
    ensures forall i :: 0 <= i < |r| ==> Matches(r[i])
    ensures IsSubsequence(r, ps)
    ensures |r| <= |ps|
  {
    PrefixOfSubsequence(Filter(ps), ps, if |Filter(ps)| < MaxItems then |Filter(ps)| else MaxItems);
    SubsequenceLength(Slice(Filter(ps), 0, MaxItems), ps);
    Slice(Filter(ps), 0, MaxItems)
  }

  /** The filter keeps every matching programme as often as it occurs and drops every
      other one: with `IsSubsequence`, it is exactly the matching entries in order. */
  lemma {:induction false} FilterCounts(ps: seq<Programme>, x: Programme)
    ensures multiset(Filter(ps))[x] == if Matches(x) then multiset(ps)[x] else 0
    decreases |ps|
  {
    if ps != [] {
      FilterCounts(ps[1..], x);
      assert ps == [ps[0]] + ps[1..];
    }
  }

  /** Filtering a concatenation filters each part. */
  lemma {:induction false} FilterAppend(a: seq<Programme>, b: seq<Programme>)
    ensures Filter(a + b) == Filter(a) + Filter(b)
    decreases |a|
  {
    if a == [] {
      assert a + b == b;
    } else {
      assert (a + b)[1..] == a[1..] + b;
      FilterAppend(a[1..], b);
    }
  }

  /** Once 30 matches have been seen, the programmes after them never change the
      selection: it is the first 30 matches. */
  lemma SelectIgnoresLater(a: seq<Programme>, b: seq<Programme>)
    requires |Filter(a)| >= MaxItems
    ensures Select(a + b) == Select(a)
  {
    FilterAppend(a, b);
  }

  /** With at most 30 matches, every match is selected. */
  lemma SelectAllWhenFew(ps: seq<Programme>)
    requires |Filter(ps)| <= MaxItems
    ensures Select(ps) == Filter(ps)
  {
  }

  /** Every selected programme has a first title, and that title is not empty and
      contains the needle. */
  lemma SelectedHaveTitle(ps: seq<Programme>, i: nat)
    requires i < |Select(ps)|
    ensures Select(ps)[i].titles != []
    ensures Select(ps)[i].titles[0] != "" && Includes(Select(ps)[i].titles[0], Needle)
  {
    assert Matches(Select(ps)[i]);
  }

  /** A programme without a title, or whose first title is empty, is never selected. */
  lemma UntitledNeverSelected(ps: seq<Programme>, p: Programme)
    requires p.titles == [] || p.titles[0] == ""
    ensures p !in Select(ps)
  {
  }

  /** Every selected programme comes from the input. */
  lemma SelectedFromInput(ps: seq<Programme>, p: Programme)
    requires p in Select(ps)
    ensures p in ps
  {
    SubsequenceMembers(Select(ps), ps, p);
  }
}
