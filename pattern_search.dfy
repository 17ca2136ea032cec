/**
 * The sequence matcher of analyzeStrategy (services/StrategyEngine.ts),
 * stated as functions over sequences: which suffix of the recent spins is
 * looked for, where it occurs in the history, which numbers followed it,
 * and which depth the step-down search settles on.
 */
module PatternSearch {

  /** The longest suffix of the recent spins that is looked for. */
  const SearchCap: nat := 5

  /** The last `d` spins, oldest first (`lastSpins.slice(lastSpins.length - d)`). */
  function Suffix(s: seq<int>, d: nat): (q: seq<int>)
    requires d <= |s|
    ensures |q| == d
  {
    s[|s| - d..]
  }

  /** `q` occurs in `h` starting at `i`, and a number follows the occurrence. */
  predicate OccursAt(h: seq<int>, q: seq<int>, i: nat) {
    i + |q| < |h| && h[i..i + |q|] == q
  }

  /** Ascending list of the starting indices below `n` at which `q` occurs with a follower. */
  function MatchesBelow(h: seq<int>, q: seq<int>, n: nat): (r: seq<nat>)
    ensures forall k :: 0 <= k < |r| ==> r[k] < n && OccursAt(h, q, r[k])
    ensures forall i: nat :: i < n && OccursAt(h, q, i) ==> i in r
    ensures forall k, j :: 0 <= k < j < |r| ==> r[k] < r[j]
  {
    if n == 0 then []
    else MatchesBelow(h, q, n - 1) + (if OccursAt(h, q, n - 1) then [n - 1] else [])
  }

  /** The numbers that followed the occurrences starting below `n`, in that order. */
  function FollowersBelow(h: seq<int>, q: seq<int>, n: nat): seq<int> {
    if n == 0 then []
    else FollowersBelow(h, q, n - 1) + (if OccursAt(h, q, n - 1) then [h[n - 1 + |q|]] else [])
  }

  /** There are as many followers below `n` as occurrences below `n`. */
  lemma {:induction false} FollowersBelowLength(h: seq<int>, q: seq<int>, n: nat)
    ensures |FollowersBelow(h, q, n)| == |MatchesBelow(h, q, n)|
  {
    if n > 0 {
      FollowersBelowLength(h, q, n - 1);
    }
  }

  /** The k-th follower below `n` is the number right after the k-th occurrence below `n`. */
  lemma {:induction false} FollowerBelowAt(h: seq<int>, q: seq<int>, n: nat, k: nat)
    requires k < |MatchesBelow(h, q, n)|
    ensures k < |FollowersBelow(h, q, n)|
    ensures FollowersBelow(h, q, n)[k] == h[MatchesBelow(h, q, n)[k] + |q|]
  {
    FollowersBelowLength(h, q, n);
    FollowersBelowLength(h, q, n - 1);
    if k < |MatchesBelow(h, q, n - 1)| {
      FollowerBelowAt(h, q, n - 1, k);
    }
  }

  /** One past the last index the scan tries: an occurrence must leave room for a follower. */
  function ScanEnd(h: seq<int>, q: seq<int>): nat {
    if |h| > |q| then |h| - |q| else 0
  }

  /** Every starting index at which `q` occurs with a follower, ascending. */
  function Matches(h: seq<int>, q: seq<int>): seq<nat> {
    MatchesBelow(h, q, ScanEnd(h, q))
  }

  /** The numbers that followed each occurrence of `q` in `h`, in history order. */
  function Followers(h: seq<int>, q: seq<int>): (fs: seq<int>)
    ensures |fs| == |Matches(h, q)|
  {
    FollowersBelowLength(h, q, ScanEnd(h, q));
    FollowersBelow(h, q, ScanEnd(h, q))
  }

  /**
   * The match list is sound and complete: an index is in it exactly when
   * `q` occurs there with a follower; it is ascending; and the followers
   * are the numbers right after those occurrences, in the same order.
   */
  lemma MatchesSoundAndComplete(h: seq<int>, q: seq<int>)
    ensures forall i: nat :: i in Matches(h, q) <==> OccursAt(h, q, i)
    ensures forall k, j :: 0 <= k < j < |Matches(h, q)| ==> Matches(h, q)[k] < Matches(h, q)[j]
    ensures |Followers(h, q)| == |Matches(h, q)|
    ensures forall k :: 0 <= k < |Matches(h, q)| ==> Followers(h, q)[k] == h[Matches(h, q)[k] + |q|]
  {
    FollowersBelowLength(h, q, ScanEnd(h, q));
    forall k | 0 <= k < |Matches(h, q)| ensures Followers(h, q)[k] == h[Matches(h, q)[k] + |q|] {
      FollowerBelowAt(h, q, ScanEnd(h, q), k);
    }
  }

  /** A number is among the followers of `q` exactly when it comes right after an occurrence of `q`. */
  lemma FollowersAreNextSpins(h: seq<int>, q: seq<int>)
    ensures forall x :: x in Followers(h, q) <==> exists i: nat :: OccursAt(h, q, i) && h[i + |q|] == x
  {
    var ms := Followers(h, q);
    forall x | x in ms ensures exists i: nat :: OccursAt(h, q, i) && h[i + |q|] == x {
      var k :| 0 <= k < |ms| && ms[k] == x;
      FollowerOfMatch(h, q, k);
    }
    forall i: nat | OccursAt(h, q, i) ensures h[i + |q|] in ms {
      MatchFollower(h, q, i);
    }
  }

  lemma FollowerOfMatch(h: seq<int>, q: seq<int>, k: int)
    requires 0 <= k < |Followers(h, q)|
    ensures k < |Matches(h, q)|
    ensures OccursAt(h, q, Matches(h, q)[k]) && h[Matches(h, q)[k] + |q|] == Followers(h, q)[k]
  {
    FollowersBelowLength(h, q, ScanEnd(h, q));
    forall k | 0 <= k < |Matches(h, q)| ensures Followers(h, q)[k] == h[Matches(h, q)[k] + |q|] {
      FollowerBelowAt(h, q, ScanEnd(h, q), k);
    }
  }

  lemma MatchFollower(h: seq<int>, q: seq<int>, i: nat)
    requires OccursAt(h, q, i)
    ensures h[i + |q|] in Followers(h, q)
  {
    var n := ScanEnd(h, q);
    var ms := MatchesBelow(h, q, n);
    assert i < n;
    assert i in ms;
    var k :| 0 <= k < |ms| && ms[k] == i;
    FollowerBelowAt(h, q, n, k);
    assert FollowersBelow(h, q, n)[k] == h[i + |q|];
  }

  /** Some number followed `q` exactly when `q` occurs with a follower somewhere. */
  lemma FollowersNonEmptyIffOccurs(h: seq<int>, q: seq<int>)
    ensures Followers(h, q) != [] <==> exists i: nat :: OccursAt(h, q, i)
  {
    MatchesSoundAndComplete(h, q);
    if Followers(h, q) != [] {
      assert OccursAt(h, q, Matches(h, q)[0]);
    }
  }

  /**
   * The depth the step-down search settles on, trying `d`, `d - 1`, ... 1;
   * 0 when no suffix of length 1..d has a follower in the history.
   */
  function ChosenDepth(h: seq<int>, s: seq<int>, d: nat): (r: nat)
    requires d <= |s|
    ensures r <= d
    ensures r > 0 ==> Followers(h, Suffix(s, r)) != []
    ensures forall e: nat :: r < e <= d ==> Followers(h, Suffix(s, e)) == []
  {
    if d == 0 then 0
    else if Followers(h, Suffix(s, d)) != [] then d
    else ChosenDepth(h, s, d - 1)
  }

  /** An occurrence of a suffix is, one step later, an occurrence of the suffix one shorter. */
  lemma OccurrenceShortens(h: seq<int>, s: seq<int>, e: nat, i: nat)
    requires 1 < e <= |s|
    requires OccursAt(h, Suffix(s, e), i)
    ensures OccursAt(h, Suffix(s, e - 1), i + 1)
  {
    var q, q' := Suffix(s, e), Suffix(s, e - 1);
    assert q' == q[1..];
    assert h[i + 1..i + 1 + |q'|] == h[i..i + |q|][1..];
  }

  /** If a suffix of length `e` occurs with a follower, so does every shorter non-empty suffix. */
  lemma {:induction false} ShorterSuffixesOccur(h: seq<int>, s: seq<int>, e: nat, i: nat, e': nat)
    requires 1 <= e' <= e <= |s|
    requires OccursAt(h, Suffix(s, e), i)
    ensures OccursAt(h, Suffix(s, e'), i + (e - e'))
    decreases e - e'
  {
    if e' < e {
      OccurrenceShortens(h, s, e, i);
      ShorterSuffixesOccur(h, s, e - 1, i + 1, e');
    }
  }

  /** A single spin occurs, with a follower, wherever the history holds it before its last entry. */
  lemma SpinOccurs(h: seq<int>, x: int, i: nat)
    requires i < |h| - 1
    ensures h[i] == x ==> OccursAt(h, [x], i)
  {
    if h[i] == x {
      assert h[i..i + 1] == [x];
    }
  }

  /**
   * The search gives up (depth 0) exactly when the last spin never occurs
   * in the history with a number after it: a longer suffix cannot match
   * when the last spin alone does not.
   */
  lemma NoDepthIffLastSpinUnseen(h: seq<int>, s: seq<int>, d: nat)
    requires 1 <= d <= |s|
    ensures ChosenDepth(h, s, d) == 0 <==> forall i :: 0 <= i < |h| - 1 ==> h[i] != s[|s| - 1]
  {
    var r := ChosenDepth(h, s, d);
    var last := Suffix(s, 1);
    assert last == [s[|s| - 1]];
    if r == 0 {
      FollowersNonEmptyIffOccurs(h, last);
      forall i | 0 <= i < |h| - 1 ensures h[i] != s[|s| - 1] {
        SpinOccurs(h, s[|s| - 1], i);
      }
    } else {
      FollowersNonEmptyIffOccurs(h, Suffix(s, r));
      var i: nat :| OccursAt(h, Suffix(s, r), i);
      ShorterSuffixesOccur(h, s, r, i, 1);
      var j := i + (r - 1);
      assert h[j..j + 1] == last;
      assert h[j] == s[|s| - 1];
    }
  }
}
