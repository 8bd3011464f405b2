/** String operations of the JavaScript runtime that the feed generator relies on,
    over strings modelled as sequences of characters. */
module Text {
  import opened Sequences

  /** `s` with every character that is in `drop` deleted: nothing else is removed,
      nothing is inserted and the kept characters stay in order. This is the
      reference meaning of a global regular-expression replacement by `''` whose
      pattern matches exactly the characters of `drop`. */
  function Delete(s: string, drop: set<char>): (r: string)
    ensures forall i :: 0 <= i < |r| ==> r[i] !in drop
    ensures IsSubsequence(r, s)
    decreases |s|
  {
    if s == [] then []
    else if s[0] in drop then Delete(s[1..], drop)
      else [s[0]] + Delete(s[1..], drop)
  }

  /** Every character outside `drop` occurs as often after the deletion as before,
      and no character of `drop` is left: with `IsSubsequence`, nothing but the
      characters of `drop` is removed. */
  lemma {:induction false} DeleteCounts(s: string, drop: set<char>, c: char)
    ensures multiset(Delete(s, drop))[c] == if c in drop then 0 else multiset(s)[c]
    decreases |s|
  {
    if s != [] {
      DeleteCounts(s[1..], drop, c);
      assert s == [s[0]] + s[1..];
    }
  }

  /** Deleting distributes over concatenation. */
  lemma {:induction false} DeleteAppend(a: string, b: string, drop: set<char>)
    ensures Delete(a + b, drop) == Delete(a, drop) + Delete(b, drop)
    decreases |a|
  {
    if a != [] {
      assert (a + b)[1..] == a[1..] + b;
      DeleteAppend(a[1..], b, drop);
    } else {
      assert a + b == b;
    }
  }

  /** Deleting a character of `drop` first does not change the result. */
  lemma DeleteDropped(a: string, x: char, b: string, drop: set<char>)
    requires x in drop
    ensures Delete(a + [x] + b, drop) == Delete(a + b, drop)
  {
    DeleteAppend(a + [x], b, drop);
    DeleteAppend(a, [x], drop);
    DeleteAppend(a, b, drop);
  }

  /** Text that holds none of the characters of `drop` is left as it is. */
  lemma {:induction false} DeleteNothing(s: string, drop: set<char>)
    requires forall i :: 0 <= i < |s| ==> s[i] !in drop
    ensures Delete(s, drop) == s
    decreases |s|
  {
    if s != [] {
      DeleteNothing(s[1..], drop);
    }
  }

  /** Two deletions in a row delete the union of the two sets. */
  lemma {:induction false} DeleteTwice(s: string, first: set<char>, second: set<char>)
    ensures Delete(Delete(s, first), second) == Delete(s, first + second)
    decreases |s|
  {
    if s != [] {
      DeleteTwice(s[1..], first, second);
    }
  }

  /** `sub` occurs in `s` starting at index `i`. */
  predicate OccursAt(s: string, sub: string, i: nat) {
    i + |sub| <= |s| && s[i..i + |sub|] == sub
  }

  /** `String.prototype.includes`: `sub` occurs somewhere in `s` (the empty string
      occurs in every string). */
  predicate Includes(s: string, sub: string)
    ensures Includes(s, sub) ==> |sub| <= |s|
    ensures sub == [] ==> Includes(s, sub)
    decreases |s|
  {
    |sub| <= |s| && (s[..|sub|] == sub || Includes(s[1..], sub))
  }

  /** `s` starts with `prefix`. */
  predicate StartsWith(s: string, prefix: string) {
    |prefix| <= |s| && s[..|prefix|] == prefix
  }

  /** `s` ends with `suffix`. */
  predicate EndsWith(s: string, suffix: string) {
    |suffix| <= |s| && s[|s| - |suffix|..] == suffix
  }

  /** `Includes` holds exactly when there is an index at which `sub` occurs. */
  lemma {:induction false} IncludesIffOccurs(s: string, sub: string)
    ensures Includes(s, sub) <==> exists i: nat :: OccursAt(s, sub, i)
    decreases |s|
  {
    if |sub| <= |s| {
      if s[..|sub|] == sub {
        assert OccursAt(s, sub, 0);
      } else {
        IncludesIffOccurs(s[1..], sub);
        if Includes(s[1..], sub) {
          var i: nat :| OccursAt(s[1..], sub, i);
          assert s[i + 1..i + 1 + |sub|] == s[1..][i..i + |sub|];
          assert OccursAt(s, sub, i + 1);
        }
        if exists i: nat :: OccursAt(s, sub, i) {
          var i: nat :| OccursAt(s, sub, i);
          assert i != 0;
          assert s[1..][i - 1..i - 1 + |sub|] == s[i..i + |sub|];
          assert OccursAt(s[1..], sub, i - 1);
        }
      }
    }
  }

  /** A string includes every part of a concatenation it is built from. */
  lemma IncludesParts(a: string, b: string, c: string)
    ensures Includes(a + b + c, b)
  {
    var s := a + b + c;
    assert s[|a|..|a| + |b|] == b;
    assert OccursAt(s, b, |a|);
    IncludesIffOccurs(s, b);
  }
}
