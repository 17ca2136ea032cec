/**
 * The six-line aggregation of analyzeStrategy (services/StrategyEngine.ts):
 * getLineForNumber, the per-line tally of the follower numbers, the ranking
 * of the lines by tally (a stable sort on the entries of the tally record,
 * whose integer keys JavaScript enumerates in ascending order), the top two
 * lines, and the sorted numbers of the chosen lines.
 */
module LineRanking {
  import opened Wrappers
  import opened Catalog

  /** `lines.find(line => line.numbers.includes(n))` */
  function FindLine(lines: seq<BetDefinition>, n: int): (r: Option<BetDefinition>)
    ensures r.Some? ==> r.value in lines && n in r.value.numbers
    ensures r.None? ==> forall k :: 0 <= k < |lines| ==> n !in lines[k].numbers
  {
    if lines == [] then None
    else if n in lines[0].numbers then Some(lines[0])
    else FindLine(lines[1..], n)
  }

  /** The id of the six-line that holds `n`, when 1 <= n <= 36. */
  function LineIdOf(n: int): int {
    (n - 1) / 6 + 1
  }

  lemma LineIdOfRange(id: int, n: int)
    ensures 6 * id - 5 <= n <= 6 * id <==> LineIdOf(n) == id
  {
  }

  /** `lines` are the six-lines with ids k+1 .. 6, in order, each with its six numbers. */
  predicate IsLineRun(lines: seq<BetDefinition>, k: nat) {
    && |lines| + k == 6
    && forall j :: 0 <= j < |lines| ==> lines[j].id == k + j + 1 && lines[j].numbers == LineRange(k + j + 1)
  }

  lemma CatalogIsLineRun()
    ensures IsLineRun(SixLines, 0)
  {
    SixLinesLayout();
  }

  /** Searching a run of six-lines finds the line of `n` when `n` is on the run, and nothing otherwise. */
  lemma {:induction false} FindLineInRun(lines: seq<BetDefinition>, k: nat, n: int)
    requires IsLineRun(lines, k)
    ensures FindLine(lines, n) == if 6 * k + 1 <= n <= 36 then Some(lines[LineIdOf(n) - k - 1]) else None
    decreases |lines|
  {
    LineIdOfRange(k + 1, n);
    LineRangeMembership(k + 1, n);
    if lines != [] {
      assert IsLineRun(lines[1..], k + 1);
      FindLineInRun(lines[1..], k + 1, n);
    }
  }

  /**
   * getLineForNumber: the id of the six-line holding `n`, which is
   * (n-1)/6 + 1 for 1..36 and nothing for every other number, 0 included.
   */
  function GetLineForNumber(n: int): (r: Option<int>)
    ensures r == if 1 <= n <= 36 then Some((n - 1) / 6 + 1) else None
  {
    CatalogIsLineRun();
    FindLineInRun(SixLines, 0, n);
    match FindLine(SixLines, n)
    case Some(line) => Some(line.id)
    case None => None
  }

  /** `n` is a number of six-line `id`. */
  predicate OnLine(n: int, id: int) {
    1 <= n <= 36 && LineIdOf(n) == id
  }

  /** How many of `ms` lie on six-line `id`. */
  function CountOnLine(ms: seq<int>, id: int): nat {
    if ms == [] then 0
    else CountOnLine(ms[..|ms| - 1], id) + (if OnLine(ms[|ms| - 1], id) then 1 else 0)
  }

  /** One more follower adds one to the count of its own line and to no other. */
  lemma CountOnLineSnoc(ms: seq<int>, x: int, id: int)
    ensures CountOnLine(ms + [x], id) == CountOnLine(ms, id) + if OnLine(x, id) then 1 else 0
  {
    assert (ms + [x])[..|ms|] == ms;
  }

  /**
   * `lineFrequencies` after `matches.forEach(...)`: a key for every line
   * that holds at least one of `ms`, mapped to how many of `ms` it holds.
   */
  function Tally(ms: seq<int>): (freq: map<int, int>)
    ensures forall id :: id in freq ==> 1 <= id <= |SixLines|
    ensures forall id :: id in freq <==> CountOnLine(ms, id) > 0
    ensures forall id :: id in freq ==> freq[id] == CountOnLine(ms, id)
  {
    if ms == [] then map[]
    else
      var freq := Tally(ms[..|ms| - 1]);
      match GetLineForNumber(ms[|ms| - 1])
      case None => freq
      case Some(id) => freq[id := (if id in freq then freq[id] else 0) + 1]
  }

  /** One entry `{ id, count }` of the tally. */
  datatype LineScore = LineScore(id: int, count: int)

  /** The entries of `freq` with keys 1..n, in ascending key order. */
  function EntriesUpTo(freq: map<int, int>, n: int): (es: seq<LineScore>)
    ensures forall e :: e in es <==> 1 <= e.id <= n && e.id in freq && e.count == freq[e.id]
    ensures forall k, j :: 0 <= k < j < |es| ==> es[k].id < es[j].id
  {
    if n <= 0 then []
    else
      var es := EntriesUpTo(freq, n - 1);
      if n in freq then
        assert forall k :: 0 <= k < |es| ==> es[k] in es;
        es + [LineScore(n, freq[n])]
      else es
  }

  /**
   * `Object.entries(lineFrequencies).map(...)`: every key of the tally is
   * a six-line id, and integer-like keys come out in ascending order.
   */
  function Entries(freq: map<int, int>): (es: seq<LineScore>)
    ensures forall e :: e in es <==> 1 <= e.id <= |SixLines| && e.id in freq && e.count == freq[e.id]
    ensures forall k, j :: 0 <= k < j < |es| ==> es[k].id < es[j].id
  {
    EntriesUpTo(freq, |SixLines|)
  }

  /** `a` goes before `b` in the ranking: a higher count, or the same count and a smaller id. */
  predicate RanksBefore(a: LineScore, b: LineScore) {
    a.count > b.count || (a.count == b.count && a.id < b.id)
  }

  predicate IsRanked(es: seq<LineScore>) {
    forall k, j :: 0 <= k < j < |es| ==> RanksBefore(es[k], es[j])
  }

  /** Stable insertion of `e` in front of every entry with a count not above its own. */
  function InsertByCount(e: LineScore, sorted: seq<LineScore>): (r: seq<LineScore>)
    ensures multiset(r) == multiset(sorted) + multiset{e}
  {
    if sorted == [] || e.count >= sorted[0].count then [e] + sorted
    else
      assert sorted == [sorted[0]] + sorted[1..];
      [sorted[0]] + InsertByCount(e, sorted[1..])
  }

  /** `.sort((a, b) => b.count - a.count)`, a stable sort by descending count. */
  function SortByCount(es: seq<LineScore>): (r: seq<LineScore>)
    ensures multiset(r) == multiset(es)
  {
    if es == [] then []
    else
      assert es == [es[0]] + es[1..];
      InsertByCount(es[0], SortByCount(es[1..]))
  }

  lemma {:induction false} InsertKeepsRanking(e: LineScore, sorted: seq<LineScore>)
    requires IsRanked(sorted)
    requires forall k :: 0 <= k < |sorted| ==> e.id < sorted[k].id
    ensures IsRanked(InsertByCount(e, sorted))
  {
    if sorted == [] || e.count >= sorted[0].count {
    } else {
      var tail := InsertByCount(e, sorted[1..]);
      InsertKeepsRanking(e, sorted[1..]);
      forall x | x in tail ensures RanksBefore(sorted[0], x) {
        assert x in multiset(tail);
        if x != e {
          assert x in multiset(sorted[1..]);
          var k :| 0 <= k < |sorted[1..]| && sorted[1..][k] == x;
          assert x == sorted[k + 1];
        }
      }
      var r := [sorted[0]] + tail;
      forall k, j | 0 <= k < j < |r| ensures RanksBefore(r[k], r[j]) {
        if k == 0 {
          assert r[j] == tail[j - 1] && r[j] in tail;
        } else {
          assert r[k] == tail[k - 1] && r[j] == tail[j - 1];
        }
      }
    }
  }

  /**
   * The stable sort of entries listed in ascending id order ranks them by
   * descending count with ties broken towards the smaller id.
   */
  lemma {:induction false} SortRanksEntries(es: seq<LineScore>)
    requires forall k, j :: 0 <= k < j < |es| ==> es[k].id < es[j].id
    ensures IsRanked(SortByCount(es))
  {
    if es != [] {
      var rest := SortByCount(es[1..]);
      SortRanksEntries(es[1..]);
      forall k | 0 <= k < |rest| ensures es[0].id < rest[k].id {
        assert rest[k] in multiset(es[1..]);
        var j :| 0 <= j < |es[1..]| && es[1..][j] == rest[k];
      }
      InsertKeepsRanking(es[0], rest);
    }
  }

  /** Sorting entries that are already ranked changes nothing. */
  lemma {:induction false} SortRankedIsIdentity(es: seq<LineScore>)
    requires IsRanked(es)
    ensures SortByCount(es) == es
  {
    if es != [] {
      SortRankedIsIdentity(es[1..]);
      if |es| > 1 {
        assert RanksBefore(es[0], es[1]);
      }
      assert [es[0]] + es[1..] == es;
    }
  }

  /** `sortedLines.slice(0, 2).map(l => l.id)` */
  function TopIds(sorted: seq<LineScore>): (ids: seq<int>)
    ensures |ids| == Min2(|sorted|)
    ensures forall k :: 0 <= k < |ids| ==> ids[k] == sorted[k].id
  {
    var top := sorted[..Min2(|sorted|)];
    seq(|top|, k requires 0 <= k < |top| => top[k].id)
  }

  function Min2(n: nat): nat {
    if n < 2 then n else 2
  }

  /** The ids of the (at most) two lines the engine suggests for tally `freq`. */
  function TopLines(freq: map<int, int>): (top: seq<int>)
    ensures |top| <= 2
  {
    TopIds(SortByCount(Entries(freq)))
  }

  /** Some follower lies on six-line `id`. */
  predicate Hit(ms: seq<int>, id: int) {
    CountOnLine(ms, id) > 0
  }

  /** The tally entries of `ms`, ranked. */
  function RankedTally(ms: seq<int>): seq<LineScore> {
    SortByCount(Entries(Tally(ms)))
  }

  /** No follower lies on 1..36. */
  predicate AllOffBoard(ms: seq<int>) {
    forall k :: 0 <= k < |ms| ==> ms[k] < 1 || 36 < ms[k]
  }

  /** No six-line is hit exactly when every follower is 0 or outside 1..36. */
  lemma {:induction false} NoLineHitIffOffBoard(ms: seq<int>)
    ensures (forall id :: 1 <= id <= 6 ==> !Hit(ms, id)) <==> AllOffBoard(ms)
  {
    if ms != [] {
      var prefix, x := ms[..|ms| - 1], ms[|ms| - 1];
      NoLineHitIffOffBoard(prefix);
      assert forall k :: 0 <= k < |prefix| ==> ms[k] == prefix[k];
      if !AllOffBoard(ms) {
        var k :| 0 <= k < |ms| && 1 <= ms[k] <= 36;
        HitByNumber(ms, k, LineIdOf(ms[k]));
      } else {
        forall id | 1 <= id <= 6 ensures Hit(ms, id) <==> Hit(prefix, id) {
        }
      }
    }
  }

  /** A follower on six-line `id` makes `id` a hit. */
  lemma {:induction false} HitByNumber(ms: seq<int>, k: int, id: int)
    requires 0 <= k < |ms| && OnLine(ms[k], id)
    ensures Hit(ms, id)
  {
    var prefix := ms[..|ms| - 1];
    if k < |prefix| {
      assert prefix[k] == ms[k];
      HitByNumber(prefix, k, id);
    }
  }

  /** The entries of the tally of `ms` are the lines it hits, each with its count. */
  lemma EntriesOfTally(ms: seq<int>)
    ensures forall e :: e in Entries(Tally(ms)) <==> 1 <= e.id <= 6 && Hit(ms, e.id) && e.count == CountOnLine(ms, e.id)
  {
    SixLinesCount();
  }

  /**
   * The ranked entries are exactly the lines hit by `ms`, each with its
   * count, in ranking order.
   */
  lemma RankedTallyLists(ms: seq<int>)
    ensures IsRanked(RankedTally(ms))
    ensures forall e :: e in RankedTally(ms) <==> 1 <= e.id <= 6 && Hit(ms, e.id) && e.count == CountOnLine(ms, e.id)
  {
    var es := Entries(Tally(ms));
    SortRanksEntries(es);
    EntriesOfTally(ms);
    var sorted := SortByCount(es);
    assert forall e :: e in sorted <==> e in multiset(sorted);
    assert forall e :: e in es <==> e in multiset(es);
  }

  /** The ranked tally of `ms` names each line at most once. */
  lemma RankedTallyDistinct(ms: seq<int>)
    ensures IsRanked(RankedTally(ms))
    ensures forall e :: e in RankedTally(ms) <==> 1 <= e.id <= 6 && Hit(ms, e.id) && e.count == CountOnLine(ms, e.id)
    ensures forall k, j :: 0 <= k < j < |RankedTally(ms)| ==> RankedTally(ms)[k].id != RankedTally(ms)[j].id
  {
    var sorted := RankedTally(ms);
    RankedTallyLists(ms);
    forall k, j | 0 <= k < j < |sorted| ensures sorted[k].id != sorted[j].id {
      assert sorted[k] in sorted && sorted[j] in sorted;
      assert RanksBefore(sorted[k], sorted[j]);
    }
  }

  /**
   * The choice of suggested lines for followers `ms`: two of them when at
   * least two lines were hit, one when one was, none when no follower lies
   * on a six-line (0 or out of range); each is a six-line id that was hit,
   * and they differ.
   */
  lemma TopLinesChoice(ms: seq<int>)
    ensures |TopLines(Tally(ms))| <= 2
    ensures |TopLines(Tally(ms))| == 0 <==> forall id :: 1 <= id <= 6 ==> !Hit(ms, id)
    ensures |TopLines(Tally(ms))| < 2 ==> forall id :: 1 <= id <= 6 && id !in TopLines(Tally(ms)) ==> !Hit(ms, id)
    ensures forall k :: 0 <= k < |TopLines(Tally(ms))| ==> 1 <= TopLines(Tally(ms))[k] <= 6 && Hit(ms, TopLines(Tally(ms))[k])
    ensures Distinct(TopLines(Tally(ms)))
  {
    var sorted := RankedTally(ms);
    var top := TopLines(Tally(ms));
    RankedTallyDistinct(ms);
    TopOfRanked(sorted);
    assert top == TopIds(sorted);
    forall k | 0 <= k < |top| ensures 1 <= top[k] <= 6 && Hit(ms, top[k]) {
      assert sorted[k] in sorted;
    }
    forall u | 1 <= u <= 6 && Hit(ms, u) ensures LineScore(u, CountOnLine(ms, u)) in sorted {
    }
  }

  /**
   * The ranking of suggested lines for followers `ms`: no line outside the
   * choice was hit more often than a chosen line, and one hit equally often
   * has a larger id; the first chosen line ranks before the second.
   */
  lemma TopLinesRanking(ms: seq<int>)
    ensures forall k, u :: 0 <= k < |TopLines(Tally(ms))| && 1 <= u <= 6 && u !in TopLines(Tally(ms)) ==>
      CountOnLine(ms, u) < CountOnLine(ms, TopLines(Tally(ms))[k]) ||
      (CountOnLine(ms, u) == CountOnLine(ms, TopLines(Tally(ms))[k]) && TopLines(Tally(ms))[k] < u)
    ensures |TopLines(Tally(ms))| == 2 ==>
      RanksBefore(LineScore(TopLines(Tally(ms))[0], CountOnLine(ms, TopLines(Tally(ms))[0])),
                  LineScore(TopLines(Tally(ms))[1], CountOnLine(ms, TopLines(Tally(ms))[1])))
  {
    var sorted := RankedTally(ms);
    var top := TopLines(Tally(ms));
    RankedTallyDistinct(ms);
    TopOfRanked(sorted);
    assert top == TopIds(sorted);
    forall k | 0 <= k < |top| ensures sorted[k].count == CountOnLine(ms, top[k]) {
      assert sorted[k] in sorted;
    }
    forall u | 1 <= u <= 6 && Hit(ms, u) ensures LineScore(u, CountOnLine(ms, u)) in sorted {
    }
  }

  /** The first two entries of a list carry the ids `TopIds` picks. */
  lemma TopIdsAreLeading(sorted: seq<LineScore>)
    ensures forall j :: 0 <= j < Min2(|sorted|) ==> sorted[j].id in TopIds(sorted)
  {
    var top := TopIds(sorted);
    forall j | 0 <= j < Min2(|sorted|) ensures sorted[j].id in top {
      assert top[j] == sorted[j].id;
    }
  }

  /**
   * The top of a ranked list: every entry outside the first two ranks
   * below each of them, and the first ranks before the second.
   */
  lemma TopOfRanked(sorted: seq<LineScore>)
    requires IsRanked(sorted)
    requires forall k, j :: 0 <= k < j < |sorted| ==> sorted[k].id != sorted[j].id
    ensures Distinct(TopIds(sorted))
    ensures forall k, e :: 0 <= k < |TopIds(sorted)| && e in sorted && e.id !in TopIds(sorted) ==> RanksBefore(sorted[k], e)
    ensures forall e :: e in sorted && |TopIds(sorted)| < 2 ==> e.id in TopIds(sorted)
    ensures |TopIds(sorted)| == 2 ==> RanksBefore(sorted[0], sorted[1])
  {
    var top := TopIds(sorted);
    TopIdsAreLeading(sorted);
    forall k, e | 0 <= k < |top| && e in sorted && e.id !in top ensures RanksBefore(sorted[k], e) {
      var j :| 0 <= j < |sorted| && sorted[j] == e;
    }
    forall e | e in sorted && |top| < 2 ensures e.id in top {
      var j :| 0 <= j < |sorted| && sorted[j] == e;
    }
  }

  // ----- the numbers to bet -----

  /** `SIX_LINES.filter(line => top.includes(line.id))` */
  function ChosenLines(lines: seq<BetDefinition>, top: seq<int>): seq<BetDefinition> {
    if lines == [] then []
    else (if lines[0].id in top then [lines[0]] else []) + ChosenLines(lines[1..], top)
  }

  /** `.flatMap(line => line.numbers)` */
  function FlatNumbers(lines: seq<BetDefinition>): seq<int> {
    if lines == [] then [] else lines[0].numbers + FlatNumbers(lines[1..])
  }

  predicate IsSorted(xs: seq<int>) {
    forall k, j :: 0 <= k < j < |xs| ==> xs[k] <= xs[j]
  }

  predicate IsStrictlySorted(xs: seq<int>) {
    forall k, j :: 0 <= k < j < |xs| ==> xs[k] < xs[j]
  }

  function InsertNumber(x: int, sorted: seq<int>): (r: seq<int>)
    requires IsSorted(sorted)
    ensures |r| == |sorted| + 1
    ensures r[0] == if sorted == [] || x <= sorted[0] then x else sorted[0]
    ensures IsSorted(r) && multiset(r) == multiset(sorted) + multiset{x}
  {
    if sorted == [] || x <= sorted[0] then [x] + sorted
    else
      assert sorted == [sorted[0]] + sorted[1..];
      var tail := InsertNumber(x, sorted[1..]);
      assert sorted[0] <= tail[0];
      SortedCons(sorted[0], tail);
      [sorted[0]] + tail
  }

  lemma SortedCons(x: int, xs: seq<int>)
    requires IsSorted(xs) && (xs != [] ==> x <= xs[0])
    ensures IsSorted([x] + xs)
  {
    var r := [x] + xs;
    forall k, j | 0 <= k < j < |r| ensures r[k] <= r[j] {
      if k == 0 && j > 1 {
        assert r[1] <= r[j];
      }
    }
  }

  /** `.sort((a, b) => a - b)`: ascending numeric order. */
  function SortAscending(xs: seq<int>): (r: seq<int>)
    ensures IsSorted(r) && multiset(r) == multiset(xs)
  {
    if xs == [] then []
    else
      assert xs == [xs[0]] + xs[1..];
      InsertNumber(xs[0], SortAscending(xs[1..]))
  }

  /** The numbers of the chosen lines, ascending. */
  function SuggestedNumbers(top: seq<int>): seq<int> {
    SortAscending(FlatNumbers(ChosenLines(SixLines, top)))
  }

  /** Sorting numbers that are already in order changes nothing. */
  lemma {:induction false} SortSortedIsIdentity(xs: seq<int>)
    requires IsSorted(xs)
    ensures SortAscending(xs) == xs
  {
    if xs != [] {
      SortSortedIsIdentity(xs[1..]);
      assert [xs[0]] + xs[1..] == xs;
    }
  }

  predicate Distinct(xs: seq<int>) {
    forall k, j :: 0 <= k < j < |xs| ==> xs[k] != xs[j]
  }

  /** A sequence without repeats has as many elements as its set. */
  lemma {:induction false} DistinctCardinality(xs: seq<int>)
    requires Distinct(xs)
    ensures |set x | x in xs| == |xs|
  {
    if xs != [] {
      DistinctCardinality(xs[1..]);
      assert (set x | x in xs) == {xs[0]} + (set x | x in xs[1..]);
      assert xs[0] !in (set x | x in xs[1..]);
    }
  }

  function LineIds(lines: seq<BetDefinition>): (ids: seq<int>)
    ensures |ids| == |lines|
    ensures forall k :: 0 <= k < |ids| ==> ids[k] == lines[k].id
  {
    seq(|lines|, k requires 0 <= k < |lines| => lines[k].id)
  }

  /** Two strictly ascending runs, the first entirely below the second, make one. */
  lemma StrictConcat(a: seq<int>, b: seq<int>)
    requires IsStrictlySorted(a) && IsStrictlySorted(b)
    requires forall i, j :: 0 <= i < |a| && 0 <= j < |b| ==> a[i] < b[j]
    ensures IsStrictlySorted(a + b)
  {
    var r := a + b;
    forall i, j | 0 <= i < j < |r| ensures r[i] < r[j] {
      if j < |a| {
      } else if i < |a| {
        assert r[i] == a[i] && r[j] == b[j - |a|];
      } else {
        assert r[i] == b[i - |a|] && r[j] == b[j - |a|];
      }
    }
  }

  /**
   * Putting the six numbers of a chosen line `k + 1` in front of the
   * numbers chosen from the lines above it keeps them ascending and adds
   * exactly that line's numbers.
   */
  lemma PrependChosenLine(k: nat, numbers: seq<int>, restFlat: seq<int>, top: seq<int>)
    requires k < 6 && numbers == LineRange(k + 1) && k + 1 in top
    requires IsStrictlySorted(restFlat)
    requires forall x :: x in restFlat <==> 6 * (k + 1) + 1 <= x <= 36 && LineIdOf(x) in top
    ensures IsStrictlySorted(numbers + restFlat)
    ensures forall x :: x in numbers + restFlat <==> 6 * k + 1 <= x <= 36 && LineIdOf(x) in top
  {
    forall x ensures x in numbers <==> 6 * k + 1 <= x <= 6 * k + 6 {
      LineRangeMembership(k + 1, x);
    }
    forall x | 6 * k + 1 <= x <= 6 * k + 6 ensures LineIdOf(x) == k + 1 {
      LineIdOfRange(k + 1, x);
    }
    forall i, j | 0 <= i < 6 && 0 <= j < |restFlat| ensures numbers[i] < restFlat[j] {
      assert restFlat[j] in restFlat;
    }
    StrictConcat(numbers, restFlat);
  }

  /** Skipping an unchosen line `k + 1` adds none of its numbers. */
  lemma SkipUnchosenLine(k: nat, restFlat: seq<int>, top: seq<int>)
    requires k + 1 !in top
    requires forall x :: x in restFlat <==> 6 * (k + 1) + 1 <= x <= 36 && LineIdOf(x) in top
    ensures forall x :: x in restFlat <==> 6 * k + 1 <= x <= 36 && LineIdOf(x) in top
  {
    forall x | 6 * k + 1 <= x <= 6 * k + 6 ensures LineIdOf(x) !in top {
      LineIdOfRange(k + 1, x);
    }
  }

  /**
   * The numbers of the chosen lines of a run of six-lines with ids above
   * `k`: strictly ascending, exactly the numbers of 6k+1..36 whose line was
   * chosen, six per chosen line.
   */
  lemma {:induction false} ChosenNumbersOfRun(lines: seq<BetDefinition>, k: nat, top: seq<int>)
    requires IsLineRun(lines, k)
    ensures IsStrictlySorted(FlatNumbers(ChosenLines(lines, top)))
    ensures forall x :: x in FlatNumbers(ChosenLines(lines, top)) <==> 6 * k + 1 <= x <= 36 && LineIdOf(x) in top
    ensures |FlatNumbers(ChosenLines(lines, top))| == 6 * |ChosenLines(lines, top)|
    decreases |lines|
  {
    if lines != [] {
      assert IsLineRun(lines[1..], k + 1);
      ChosenNumbersOfRun(lines[1..], k + 1, top);
      var line := lines[0];
      var rest := ChosenLines(lines[1..], top);
      if line.id in top {
        assert ChosenLines(lines, top) == [line] + rest;
        assert FlatNumbers(ChosenLines(lines, top)) == line.numbers + FlatNumbers(rest);
        PrependChosenLine(k, line.numbers, FlatNumbers(rest), top);
      } else {
        assert ChosenLines(lines, top) == rest;
        SkipUnchosenLine(k, FlatNumbers(rest), top);
      }
    }
  }

  lemma LineIdsCons(line: BetDefinition, rest: seq<BetDefinition>)
    ensures LineIds([line] + rest) == [line.id] + LineIds(rest)
  {
    assert LineIds([line] + rest)[1..] == LineIds(rest);
  }

  /** Putting a chosen id `k + 1` in front of the chosen ids above it keeps them ascending. */
  lemma PrependChosenId(k: nat, restIds: seq<int>, top: seq<int>)
    requires k < 6 && k + 1 in top
    requires IsStrictlySorted(restIds)
    requires forall id :: id in restIds <==> k + 1 < id <= 6 && id in top
    ensures IsStrictlySorted([k + 1] + restIds)
    ensures forall id :: id in [k + 1] + restIds <==> k < id <= 6 && id in top
  {
    forall j | 0 <= j < |restIds| ensures k + 1 < restIds[j] {
      assert restIds[j] in restIds;
    }
    StrictConcat([k + 1], restIds);
  }

  /** The ids of the chosen lines of a run of six-lines: ascending, and the chosen ids above `k`. */
  lemma {:induction false} ChosenIdsOfRun(lines: seq<BetDefinition>, k: nat, top: seq<int>)
    requires IsLineRun(lines, k)
    ensures IsStrictlySorted(LineIds(ChosenLines(lines, top)))
    ensures forall id :: id in LineIds(ChosenLines(lines, top)) <==> k < id <= 6 && id in top
    decreases |lines|
  {
    if lines != [] {
      assert IsLineRun(lines[1..], k + 1);
      ChosenIdsOfRun(lines[1..], k + 1, top);
      var line := lines[0];
      var rest := ChosenLines(lines[1..], top);
      if line.id in top {
        assert ChosenLines(lines, top) == [line] + rest;
        LineIdsCons(line, rest);
        PrependChosenId(k, LineIds(rest), top);
      } else {
        assert ChosenLines(lines, top) == rest;
      }
    }
  }

  /** Two sequences without repeats and with the same elements have the same length. */
  lemma SameElementsSameLength(a: seq<int>, b: seq<int>)
    requires Distinct(a) && Distinct(b)
    requires forall x :: x in a <==> x in b
    ensures |a| == |b|
  {
    DistinctCardinality(a);
    DistinctCardinality(b);
    assert (set x | x in a) == (set x | x in b);
  }

  /**
   * The numbers to bet for distinct chosen ids from 1..6: ascending without
   * repeats, exactly the numbers of the chosen lines, six per chosen line.
   */
  lemma SuggestedNumbersUnion(top: seq<int>)
    requires Distinct(top)
    requires forall k :: 0 <= k < |top| ==> 1 <= top[k] <= 6
    ensures IsStrictlySorted(SuggestedNumbers(top))
    ensures forall x :: x in SuggestedNumbers(top) <==> 1 <= x <= 36 && LineIdOf(x) in top
    ensures |SuggestedNumbers(top)| == 6 * |top|
  {
    CatalogIsLineRun();
    var chosen := ChosenLines(SixLines, top);
    ChosenNumbersOfRun(SixLines, 0, top);
    ChosenIdsOfRun(SixLines, 0, top);
    SortSortedIsIdentity(FlatNumbers(chosen));
    SameElementsSameLength(LineIds(chosen), top);
  }
}
