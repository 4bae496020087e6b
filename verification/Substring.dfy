/** Occurrences of one string in another, as Rust's str methods find and replace them. */
module Substring {

  predicate OccursAt(s: string, p: string, i: int) {
    0 <= i && i + |p| <= |s| && s[i..i + |p|] == p
  }

  ghost predicate Contains(s: string, p: string) { exists i :: OccursAt(s, p, i) }

  /** The one place where p occurs. */
  ghost predicate Once(s: string, p: string, i: int) {
    OccursAt(s, p, i) && forall j :: OccursAt(s, p, j) ==> j == i
  }

  /** str::match_indices: left to right, never overlapping the previous match. */
  function MatchIndices(s: string, p: string, from: nat): (found: seq<nat>)
    requires p != []
    ensures forall k :: 0 <= k < |found| ==> from <= found[k] && OccursAt(s, p, found[k])
    decreases |s| - from
  {
    if from + |p| > |s| then []
    else if OccursAt(s, p, from) then [from] + MatchIndices(s, p, from + |p|)
    else MatchIndices(s, p, from + 1)
  }

  /** str::matches(p).count() */
  function Matches(s: string, p: string): nat
    requires p != []
  {
    |MatchIndices(s, p, 0)|
  }

  /** Some listed match covers position i. */
  ghost predicate Covered(found: seq<nat>, width: nat, i: int) {
    exists k :: 0 <= k < |found| && found[k] <= i < found[k] + width
  }

  lemma CoveredLater(first: nat, rest: seq<nat>, width: nat, i: int)
    requires Covered(rest, width, i)
    ensures Covered([first] + rest, width, i)
  {
    var k :| 0 <= k < |rest| && rest[k] <= i < rest[k] + width;
    assert ([first] + rest)[k + 1] == rest[k];
  }

  /** Every occurrence is listed or overlapped by a listed one that begins before it. */
  lemma {:induction false} ListedOrOverlapped(s: string, p: string, from: nat, i: nat)
    requires p != [] && from <= i && OccursAt(s, p, i)
    ensures Covered(MatchIndices(s, p, from), |p|, i)
    decreases |s| - from
  {
    if !OccursAt(s, p, from) {
      ListedOrOverlapped(s, p, from + 1, i);
    } else if from + |p| <= i {
      ListedOrOverlapped(s, p, from + |p|, i);
      CoveredLater(from, MatchIndices(s, p, from + |p|), |p|, i);
    } else {
      assert MatchIndices(s, p, from)[0] == from;
    }
  }

  /** The pattern's first two characters, as far as they fit, come again at j. */
  predicate StartsAgain(p: string, j: nat)
    requires |p| >= 2 && j < |p|
  {
    p[j] == p[0] && (j + 1 == |p| || p[j + 1] == p[1])
  }

  /** A pattern whose first two characters come together only at its start. */
  ghost predicate Solo(p: string) {
    |p| >= 2 && forall j :: 0 < j < |p| ==> !StartsAgain(p, j)
  }

  lemma OccursChar(s: string, p: string, i: int, t: int)
    requires OccursAt(s, p, i) && 0 <= t < |p|
    ensures s[i + t] == p[t]
  {
    assert s[i..i + |p|][t] == p[t];
  }

  lemma NoSelfOverlap(s: string, p: string, m: int, i: int)
    requires Solo(p) && OccursAt(s, p, m) && OccursAt(s, p, i) && m <= i < m + |p|
    ensures i == m
  {
    if m < i {
      var j := i - m;
      assert !StartsAgain(p, j);
      OccursChar(s, p, m, j);
      OccursChar(s, p, i, 0);
      if j + 1 < |p| {
        OccursChar(s, p, m, j + 1);
        OccursChar(s, p, i, 1);
      }
    }
  }

  /** Such a pattern does not overlap itself, so the listed matches are all occurrences. */
  lemma SoloIsListed(s: string, p: string, i: nat)
    requires Solo(p) && OccursAt(s, p, i)
    ensures i in MatchIndices(s, p, 0)
  {
    ListedOrOverlapped(s, p, 0, i);
    var found := MatchIndices(s, p, 0);
    var k :| 0 <= k < |found| && found[k] <= i < found[k] + |p|;
    NoSelfOverlap(s, p, found[k], i);
  }

  lemma SoloOnce(s: string, p: string)
    requires Solo(p) && Matches(s, p) == 1
    ensures Once(s, p, MatchIndices(s, p, 0)[0])
  {
    forall j | OccursAt(s, p, j) ensures j == MatchIndices(s, p, 0)[0] {
      SoloIsListed(s, p, j);
    }
  }

  lemma MatchThenRest(s: string, p: string, from: nat)
    requires p != [] && OccursAt(s, p, from)
    ensures
      var rest := MatchIndices(s, p, from + |p|);
      MatchIndices(s, p, from) == [from] + rest && forall k :: 0 <= k < |rest| ==> from < rest[k]
  {
  }

  ghost predicate Increasing(found: seq<nat>) { forall i, j :: 0 <= i < j < |found| ==> found[i] < found[j] }

  lemma IncreasingFrom(first: nat, rest: seq<nat>)
    requires Increasing(rest) && forall k :: 0 <= k < |rest| ==> first < rest[k]
    ensures Increasing([first] + rest)
  {
  }

  /** Matches are listed from left to right. */
  lemma {:induction false} MatchesIncrease(s: string, p: string, from: nat)
    requires p != []
    ensures Increasing(MatchIndices(s, p, from))
    decreases |s| - from
  {
    if from + |p| <= |s| {
      if OccursAt(s, p, from) {
        MatchThenRest(s, p, from);
        MatchesIncrease(s, p, from + |p|);
        IncreasingFrom(from, MatchIndices(s, p, from + |p|));
      } else {
        MatchesIncrease(s, p, from + 1);
      }
    }
  }

  /** A single occurrence is the single match. */
  lemma OnceIsListed(s: string, p: string, i: nat)
    requires p != [] && Once(s, p, i)
    ensures MatchIndices(s, p, 0) == [i]
  {
    var found := MatchIndices(s, p, 0);
    ListedOrOverlapped(s, p, 0, i);
    assert found[0] == i && found[|found| - 1] == i;
    MatchesIncrease(s, p, 0);
  }

  /** For a pattern that does not overlap itself, one match is one occurrence and back. */
  lemma SoloCount(s: string, p: string)
    requires Solo(p)
    ensures Matches(s, p) == 1 <==> exists i :: Once(s, p, i)
  {
    if Matches(s, p) == 1 { SoloOnce(s, p); }
    if i :| Once(s, p, i) { OnceIsListed(s, p, i); }
  }

  // ----- concatenation

  lemma OccursLeft(a: string, b: string, p: string, i: int)
    requires i + |p| <= |a|
    ensures OccursAt(a + b, p, i) <==> OccursAt(a, p, i)
  {
    if 0 <= i { assert (a + b)[i..i + |p|] == a[i..i + |p|]; }
  }

  lemma OccursRight(a: string, b: string, p: string, i: int)
    requires |a| <= i
    ensures OccursAt(a + b, p, i) <==> OccursAt(b, p, i - |a|)
  {
    if i + |p| <= |a + b| { assert (a + b)[i..i + |p|] == b[i - |a|..i - |a| + |p|]; }
  }

  /** No occurrence of p straddles the seam between a and b. */
  ghost predicate Seamless(a: string, b: string, p: string) {
    forall i :: OccursAt(a + b, p, i) ==> i + |p| <= |a| || |a| <= i
  }

  lemma OccursEither(a: string, b: string, p: string, i: int)
    requires Seamless(a, b, p)
    ensures OccursAt(a + b, p, i) <==> OccursAt(a, p, i) || OccursAt(b, p, i - |a|)
  {
    if i + |p| <= |a| { OccursLeft(a, b, p, i); }
    if |a| <= i { OccursRight(a, b, p, i); }
  }

  lemma NoneInConcat(a: string, b: string, p: string)
    requires Seamless(a, b, p) && !Contains(a, p) && !Contains(b, p)
    ensures !Contains(a + b, p)
  {
    forall i ensures !OccursAt(a + b, p, i) { OccursEither(a, b, p, i); }
  }

  lemma OnceLeft(a: string, b: string, p: string, i: int)
    requires Seamless(a, b, p) && Once(a, p, i) && !Contains(b, p)
    ensures Once(a + b, p, i)
  {
    forall j ensures OccursAt(a + b, p, j) <==> j == i { OccursEither(a, b, p, j); }
  }

  lemma OnceRight(a: string, b: string, p: string, i: int)
    requires Seamless(a, b, p) && !Contains(a, p) && Once(b, p, i)
    ensures Once(a + b, p, |a| + i)
  {
    forall j ensures OccursAt(a + b, p, j) <==> j == |a| + i { OccursEither(a, b, p, j); }
  }

  /** A character that p does not have, at either side of the seam, keeps p off it. */
  lemma SeamByChar(a: string, b: string, p: string)
    requires (a != [] && a[|a| - 1] !in p) || (b != [] && b[0] !in p)
    ensures Seamless(a, b, p)
  {
    forall i | OccursAt(a + b, p, i) ensures i + |p| <= |a| || |a| <= i {
      if i < |a| < i + |p| {
        OccursChar(a + b, p, i, |a| - 1 - i);
        OccursChar(a + b, p, i, |a| - i);
      }
    }
  }

  // ----- str::replace

  function Replace(s: string, p: string, r: string): string
    requires p != []
    decreases |s|
  {
    if s == [] then []
    else if p <= s then r + Replace(s[|p|..], p, r)
    else [s[0]] + Replace(s[1..], p, r)
  }

  lemma {:induction false} ReplaceNone(s: string, p: string, r: string)
    requires p != [] && !Contains(s, p)
    ensures Replace(s, p, r) == s
    decreases |s|
  {
    if s != [] {
      assert p <= s ==> OccursAt(s, p, 0);
      assert s == [s[0]] + s[1..];
      SeamlessTail(s, p);
      ReplaceNone(s[1..], p, r);
    }
  }

  lemma SeamlessTail(s: string, p: string)
    requires s != []
    ensures forall i :: OccursAt(s[1..], p, i) ==> OccursAt(s, p, i + 1)
  {
    forall i | OccursAt(s[1..], p, i) ensures OccursAt(s, p, i + 1) {
      assert s == [s[0]] + s[1..];
      OccursRight([s[0]], s[1..], p, i + 1);
    }
  }

  /** Replacement works on the two sides of a clean seam separately. */
  lemma {:induction false} ReplaceConcat(a: string, b: string, p: string, r: string)
    requires p != [] && Seamless(a, b, p)
    ensures Replace(a + b, p, r) == Replace(a, p, r) + Replace(b, p, r)
    decreases |a|
  {
    if a == [] {
      assert a + b == b;
    } else {
      var n := if p <= a + b then |p| else 1;
      if p <= a + b {
        assert OccursAt(a + b, p, 0);
        assert |p| <= |a|;
        OccursLeft(a, b, p, 0);
        assert p <= a;
      }
      assert (a + b)[n..] == a[n..] + b;
      assert Seamless(a[n..], b, p) by {
        forall i | OccursAt(a[n..] + b, p, i) ensures i + |p| <= |a[n..]| || |a[n..]| <= i {
          assert a + b == a[..n] + (a[n..] + b);
          OccursRight(a[..n], a[n..] + b, p, i + n);
        }
      }
      ReplaceConcat(a[n..], b, p, r);
    }
  }
}
