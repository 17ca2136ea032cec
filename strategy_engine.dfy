/**
 * analyzeStrategy (services/StrategyEngine.ts): the step-down suffix search
 * over the history, the six-line tally of the numbers that followed, and the
 * result record. `AnalyzeStrategy` is the loop-based procedure; `Analyze`
 * states its result over sequences, and the lemmas below state what that
 * result promises.
 */
module StrategyEngine {
  import opened Wrappers
  import opened PatternSearch
  import opened LineRanking

  /**
   * The record analyzeStrategy builds. It carries `suggestedLines` and no
   * bet type, unlike the StrategyResult interface declared beside the
   * catalogs (Catalog.DeclaredStrategyResult).
   */
  datatype StrategyResult = StrategyResult(
    searchLevel: int,
    patternMatches: int,
    suggestedLines: seq<int>,
    suggestedNumbers: seq<int>,
    foundNumbers: seq<int>)

  /** `Math.min(lastSpins.length, 5)`: the first depth tried. */
  function MaxSearch(lastSpins: seq<int>): (d: nat)
    ensures d <= |lastSpins| && d <= SearchCap
    ensures d == |lastSpins| || d == SearchCap
  {
    if |lastSpins| < SearchCap then |lastSpins| else SearchCap
  }

  /** The index of the first occurrence of `x` in `ms`. */
  function FirstIndex(ms: seq<int>, x: int): (i: nat)
    requires x in ms
    ensures i < |ms| && ms[i] == x && forall j :: 0 <= j < i ==> ms[j] != x
  {
    if ms[0] == x then 0 else 1 + FirstIndex(ms[1..], x)
  }

  /**
   * `Array.from(new Set(ms))`: the values of `ms`, each once, in the order
   * a Set keeps them (the order of their first insertion).
   */
  function UniqueInOrder(ms: seq<int>): (r: seq<int>)
    ensures forall x :: x in r <==> x in ms
    ensures Distinct(r)
  {
    if ms == [] then []
    else
      var seen := UniqueInOrder(ms[..|ms| - 1]);
      var x := ms[|ms| - 1];
      assert forall y :: y in ms <==> y in ms[..|ms| - 1] || y == x;
      if x in seen then seen else seen + [x]
  }

  /** The distinct values come out in the order of their first occurrence in `ms`. */
  lemma {:induction false} UniqueInOrderFollowsFirstOccurrence(ms: seq<int>)
    ensures forall i, j :: 0 <= i < j < |UniqueInOrder(ms)| ==>
      FirstIndex(ms, UniqueInOrder(ms)[i]) < FirstIndex(ms, UniqueInOrder(ms)[j])
  {
    if ms != [] {
      var prefix := ms[..|ms| - 1];
      var x := ms[|ms| - 1];
      var seen := UniqueInOrder(prefix);
      UniqueInOrderFollowsFirstOccurrence(prefix);
      forall y | y in prefix ensures FirstIndex(ms, y) == FirstIndex(prefix, y) {
        var i' := FirstIndex(prefix, y);
        assert ms[i'] == y;
      }
      var r := UniqueInOrder(ms);
      forall i, j | 0 <= i < j < |r| ensures FirstIndex(ms, r[i]) < FirstIndex(ms, r[j]) {
        assert r[i] in seen;
        if j < |seen| {
          assert r[i] == seen[i] && r[j] == seen[j];
        } else {
          assert r[j] == x && x !in prefix;
          assert FirstIndex(ms, x) == |ms| - 1;
        }
      }
    }
  }

  /**
   * What analyzeStrategy returns, stated over sequences: nothing for an
   * empty history or no recent spin; otherwise the deepest suffix (at most
   * five spins) with a follower, the followers of all its occurrences, the
   * top two six-lines among them and their numbers; nothing when no depth
   * matches or no follower lies on a six-line.
   */
  function Analyze(history: seq<int>, lastSpins: seq<int>): (r: Option<StrategyResult>)
    ensures r.Some? ==> 1 <= r.value.searchLevel <= MaxSearch(lastSpins)
    ensures r.Some? ==> 1 <= |r.value.suggestedLines| <= 2
  {
    if |history| == 0 || |lastSpins| < 1 then None
    else
      var level := ChosenDepth(history, lastSpins, MaxSearch(lastSpins));
      if level == 0 then None
      else Outcome(level, Followers(history, Suffix(lastSpins, level)))
  }

  /** The result for followers `matches` found at depth `level`: nothing when none lies on a six-line. */
  function Outcome(level: int, matches: seq<int>): (r: Option<StrategyResult>)
    ensures r.Some? ==> r.value.searchLevel == level && 1 <= |r.value.suggestedLines| <= 2
  {
    var top := TopLines(Tally(matches));
    if top == [] then None
    else Some(StrategyResult(level, |matches|, top, SuggestedNumbers(top), UniqueInOrder(matches)))
  }

  /**
   * The scan of analyzeStrategy at one depth: every start index whose
   * window equals `sequenceToMatch` and is followed by a spin contributes
   * that spin, in history order.
   */
  method FindFollowers(history: seq<int>, sequenceToMatch: seq<int>) returns (matches: seq<int>)
    ensures matches == Followers(history, sequenceToMatch)
  {
    var searchLevel := |sequenceToMatch|;
    matches := [];
    var i := 0;
    while i <= |history| - searchLevel - 1
      invariant 0 <= i <= ScanEnd(history, sequenceToMatch)
      invariant matches == FollowersBelow(history, sequenceToMatch, i)
    {
      var isMatch := true;
      var j := 0;
      while j < searchLevel
        invariant 0 <= j <= searchLevel
        invariant isMatch
        invariant forall t :: 0 <= t < j ==> history[i + t] == sequenceToMatch[t]
      {
        if history[i + j] != sequenceToMatch[j] {
          isMatch := false;
          break;
        }
        j := j + 1;
      }
      if isMatch {
        assert history[i..i + searchLevel] == sequenceToMatch;
        matches := matches + [history[i + searchLevel]];
      } else {
        assert history[i..i + searchLevel][j] != sequenceToMatch[j];
      }
      i := i + 1;
    }
  }

  /** The frequency loop of analyzeStrategy: followers counted per six-line. */
  method CountByLine(matches: seq<int>) returns (lineFrequencies: map<int, int>)
    ensures lineFrequencies == Tally(matches)
  {
    lineFrequencies := map[];
    var k := 0;
    while k < |matches|
      invariant 0 <= k <= |matches|
      invariant lineFrequencies == Tally(matches[..k])
    {
      var lineId := GetLineForNumber(matches[k]);
      assert matches[..k + 1][..k] == matches[..k];
      if lineId.Some? {
        var id := lineId.value;
        lineFrequencies := lineFrequencies[id := (if id in lineFrequencies then lineFrequencies[id] else 0) + 1];
      }
      k := k + 1;
    }
    assert matches[..k] == matches;
  }

  /**
   * The step-down loop of analyzeStrategy: from depth `MaxSearch` down to
   * 1, scan for the suffix of that length and stop at the first depth whose
   * occurrences have followers; depth 0 and no followers when none has.
   */
  method SearchDeepest(history: seq<int>, lastSpins: seq<int>) returns (searchLevel: nat, matches: seq<int>)
    ensures searchLevel == ChosenDepth(history, lastSpins, MaxSearch(lastSpins))
    ensures searchLevel == 0 ==> matches == []
    ensures searchLevel > 0 ==> matches == Followers(history, Suffix(lastSpins, searchLevel))
  {
    var maxPossibleSearch := MaxSearch(lastSpins);
    searchLevel := maxPossibleSearch;
    matches := [];
    while searchLevel >= 1
      invariant 0 <= searchLevel <= maxPossibleSearch
      invariant matches == []
      invariant ChosenDepth(history, lastSpins, searchLevel) == ChosenDepth(history, lastSpins, maxPossibleSearch)
    {
      var sequenceToMatch := lastSpins[|lastSpins| - searchLevel..];
      assert sequenceToMatch == Suffix(lastSpins, searchLevel);
      matches := FindFollowers(history, sequenceToMatch);
      if |matches| > 0 {
        return;
      }
      searchLevel := searchLevel - 1;
    }
  }

  /** analyzeStrategy */
  method AnalyzeStrategy(history: seq<int>, lastSpins: seq<int>) returns (result: Option<StrategyResult>)
    ensures result == Analyze(history, lastSpins)
  {
    if |history| == 0 || |lastSpins| < 1 {
      return None;
    }
    var searchLevel, matches := SearchDeepest(history, lastSpins);
    if |matches| == 0 {
      return None;
    }

    var lineFrequencies := CountByLine(matches);
    var sortedLines := SortByCount(Entries(lineFrequencies));
    var top2LineIds := TopIds(sortedLines);
    if |top2LineIds| == 0 {
      return None;
    }
    var suggestedNumbers := SuggestedNumbers(top2LineIds);
    result := Some(StrategyResult(searchLevel, |matches|, top2LineIds, suggestedNumbers, UniqueInOrder(matches)));
  }

  // ----- what a result promises -----

  /**
   * There is no result exactly when the history or the recent spins are
   * empty, when the last spin never occurs in the history with a number
   * after it, or when every number that followed the chosen suffix is 0 or
   * outside 1..36 (on no six-line).
   */
  lemma AnalyzeNone(history: seq<int>, lastSpins: seq<int>)
    ensures Analyze(history, lastSpins) == None <==>
      || |history| == 0
      || |lastSpins| == 0
      || (forall i :: 0 <= i < |history| - 1 ==> history[i] != lastSpins[|lastSpins| - 1])
      || AllOffBoard(Followers(history, Suffix(lastSpins, ChosenDepth(history, lastSpins, MaxSearch(lastSpins)))))
  {
    if |history| > 0 && |lastSpins| > 0 {
      var level := ChosenDepth(history, lastSpins, MaxSearch(lastSpins));
      NoDepthIffLastSpinUnseen(history, lastSpins, MaxSearch(lastSpins));
      if level > 0 {
        var matches := Followers(history, Suffix(lastSpins, level));
        TopLinesChoice(matches);
        NoLineHitIffOffBoard(matches);
      }
    }
  }

  /**
   * The depth of a result is between 1 and min(|lastSpins|, 5); the suffix
   * of that length occurs in the history with a number after it, and no
   * longer suffix within the cap does.
   */
  lemma AnalyzeLevel(history: seq<int>, lastSpins: seq<int>)
    requires Analyze(history, lastSpins).Some?
    ensures 1 <= Analyze(history, lastSpins).value.searchLevel <= MaxSearch(lastSpins)
    ensures exists i: nat :: OccursAt(history, Suffix(lastSpins, Analyze(history, lastSpins).value.searchLevel), i)
    ensures forall e: nat, i: nat :: Analyze(history, lastSpins).value.searchLevel < e <= MaxSearch(lastSpins) ==>
      !OccursAt(history, Suffix(lastSpins, e), i)
  {
    var level := Analyze(history, lastSpins).value.searchLevel;
    FollowersNonEmptyIffOccurs(history, Suffix(lastSpins, level));
    forall e: nat | level < e <= MaxSearch(lastSpins) ensures forall i: nat :: !OccursAt(history, Suffix(lastSpins, e), i) {
      FollowersNonEmptyIffOccurs(history, Suffix(lastSpins, e));
    }
  }

  /**
   * `patternMatches` counts the occurrences of the chosen suffix that have
   * a number after them; `foundNumbers` holds each number that followed
   * one of them exactly once, in the order of first appearance.
   */
  lemma AnalyzeFoundNumbers(history: seq<int>, lastSpins: seq<int>)
    requires Analyze(history, lastSpins).Some?
    ensures var r := Analyze(history, lastSpins).value;
      var q := Suffix(lastSpins, r.searchLevel);
      && r.patternMatches == |Matches(history, q)| >= 1
      && (forall x :: x in r.foundNumbers <==> exists i: nat :: OccursAt(history, q, i) && history[i + |q|] == x)
      && Distinct(r.foundNumbers)
      && forall a, b :: 0 <= a < b < |r.foundNumbers| ==>
           FirstIndex(Followers(history, q), r.foundNumbers[a]) < FirstIndex(Followers(history, q), r.foundNumbers[b])
  {
    var r := Analyze(history, lastSpins).value;
    var q := Suffix(lastSpins, r.searchLevel);
    var ms := Followers(history, q);
    MatchesSoundAndComplete(history, q);
    FollowersAreNextSpins(history, q);
    UniqueInOrderFollowsFirstOccurrence(ms);
  }

  /**
   * The suggested lines of a result: one or two distinct six-line ids, each
   * hit by the followers; every hit line is chosen when fewer than two are;
   * no unchosen line was hit more often than a chosen one, or as often with
   * a smaller id; and the first ranks before the second.
   */
  lemma AnalyzeSuggestedLines(history: seq<int>, lastSpins: seq<int>)
    requires Analyze(history, lastSpins).Some?
    ensures var r := Analyze(history, lastSpins).value;
      var ms := Followers(history, Suffix(lastSpins, r.searchLevel));
      var lines := r.suggestedLines;
      && 1 <= |lines| <= 2
      && Distinct(lines)
      && (forall k :: 0 <= k < |lines| ==> 1 <= lines[k] <= 6 && Hit(ms, lines[k]))
      && (|lines| < 2 ==> forall id :: 1 <= id <= 6 && id !in lines ==> !Hit(ms, id))
      && (forall k, u :: 0 <= k < |lines| && 1 <= u <= 6 && u !in lines ==>
            CountOnLine(ms, u) < CountOnLine(ms, lines[k]) ||
            (CountOnLine(ms, u) == CountOnLine(ms, lines[k]) && lines[k] < u))
      && (|lines| == 2 ==> RanksBefore(LineScore(lines[0], CountOnLine(ms, lines[0])), LineScore(lines[1], CountOnLine(ms, lines[1]))))
  {
    var r := Analyze(history, lastSpins).value;
    var ms := Followers(history, Suffix(lastSpins, r.searchLevel));
    assert r.suggestedLines == TopLines(Tally(ms));
    SuggestedLinesOf(ms);
  }

  /** What a non-empty choice of lines promises, for any list of followers. */
  lemma SuggestedLinesOf(ms: seq<int>)
    requires TopLines(Tally(ms)) != []
    ensures var lines := TopLines(Tally(ms));
      && 1 <= |lines| <= 2
      && Distinct(lines)
      && (forall k :: 0 <= k < |lines| ==> 1 <= lines[k] <= 6 && Hit(ms, lines[k]))
      && (|lines| < 2 ==> forall id :: 1 <= id <= 6 && id !in lines ==> !Hit(ms, id))
      && (forall k, u :: 0 <= k < |lines| && 1 <= u <= 6 && u !in lines ==>
            CountOnLine(ms, u) < CountOnLine(ms, lines[k]) ||
            (CountOnLine(ms, u) == CountOnLine(ms, lines[k]) && lines[k] < u))
      && (|lines| == 2 ==> RanksBefore(LineScore(lines[0], CountOnLine(ms, lines[0])), LineScore(lines[1], CountOnLine(ms, lines[1]))))
  {
    TopLinesChoice(ms);
    TopLinesRanking(ms);
  }

  /**
   * The numbers to bet of a result: ascending without repeats, exactly the
   * numbers 1..36 whose six-line was suggested, six per suggested line.
   */
  lemma AnalyzeSuggestedNumbers(history: seq<int>, lastSpins: seq<int>)
    requires Analyze(history, lastSpins).Some?
    ensures var r := Analyze(history, lastSpins).value;
      && IsStrictlySorted(r.suggestedNumbers)
      && (forall x :: x in r.suggestedNumbers <==> 1 <= x <= 36 && LineIdOf(x) in r.suggestedLines)
      && |r.suggestedNumbers| == 6 * |r.suggestedLines|
  {
    var r := Analyze(history, lastSpins).value;
    var ms := Followers(history, Suffix(lastSpins, r.searchLevel));
    TopLinesChoice(ms);
    SuggestedNumbersUnion(r.suggestedLines);
  }

  // ----- worked examples -----

  /** The suffix [1, 2] occurs twice in [1, 2, 3, 1, 2, 9], followed by 3 and by 9. */
  lemma ExampleTwoOccurrences()
    ensures Analyze([1, 2, 3, 1, 2, 9], [1, 2]) ==
      Some(StrategyResult(2, 2, [1, 2], [1, 2, 3, 4, 5, 6, 7, 8, 9, 10, 11, 12], [3, 9]))
  {
    var h, s := [1, 2, 3, 1, 2, 9], [1, 2];
    assert Suffix(s, 2) == [1, 2];
    FollowersOfTwoOccurrences();
    assert ChosenDepth(h, s, 2) == 2;
    assert Analyze(h, s) == Outcome(2, [3, 9]);
    CountsOfFirstTwo();
    OutcomeOfTie(2, [3, 9]);
    UniqueOfPair(3, 9);
  }

  /** The result for followers that hit lines 1 and 2 once each, line 3 at most once and no other line. */
  lemma OutcomeOfTie(level: int, ms: seq<int>)
    requires CountOnLine(ms, 1) == CountOnLine(ms, 2) == 1 && CountOnLine(ms, 3) <= 1
    requires CountOnLine(ms, 4) == CountOnLine(ms, 5) == CountOnLine(ms, 6) == 0
    ensures Outcome(level, ms) ==
      Some(StrategyResult(level, |ms|, [1, 2], [1, 2, 3, 4, 5, 6, 7, 8, 9, 10, 11, 12], UniqueInOrder(ms)))
  {
    TieFavoursLinesOneAndTwo(ms);
    NumbersOfFirstTwoLines();
  }

  lemma NumbersOfFirstTwoLines()
    ensures SuggestedNumbers([1, 2]) == [1, 2, 3, 4, 5, 6, 7, 8, 9, 10, 11, 12]
  {
    var top := [1, 2];
    NumbersOfLines(top);
    CountingFromOne(SuggestedNumbers(top), 12);
  }

  lemma NumbersOfFirstLine()
    ensures SuggestedNumbers([1]) == [1, 2, 3, 4, 5, 6]
  {
    var top := [1];
    NumbersOfLines(top);
    CountingFromOne(SuggestedNumbers(top), 6);
  }

  /** A sequence whose k-th element is k + 1, of length 6 or 12, written out. */
  lemma CountingFromOne(xs: seq<int>, n: int)
    requires n == 6 || n == 12
    requires |xs| == n && forall k :: 0 <= k < n ==> xs[k] == k + 1
    ensures n == 6 ==> xs == [1, 2, 3, 4, 5, 6]
    ensures n == 12 ==> xs == [1, 2, 3, 4, 5, 6, 7, 8, 9, 10, 11, 12]
  {
  }

  /** Two different values come out of the set once each, in order. */
  lemma UniqueOfPair(a: int, b: int)
    requires a != b
    ensures UniqueInOrder([a, b]) == [a, b]
  {
    assert [a, b][..1] == [a] && [a][..0] == [];
    assert UniqueInOrder([a]) == [a];
    assert b !in [a];
  }

  lemma FollowersOfTwoOccurrences()
    ensures Followers([1, 2, 3, 1, 2, 9], [1, 2]) == [3, 9]
  {
    var h, q := [1, 2, 3, 1, 2, 9], [1, 2];
    assert h[0..2] == q && h[3..5] == q;
    assert h[1..3][0] != q[0] && h[2..4][0] != q[0];
    assert FollowersBelow(h, q, 1) == [3];
    assert FollowersBelow(h, q, 3) == [3];
    assert FollowersBelow(h, q, 4) == [3, 9];
  }

  /** 3 and 9 lie on lines 1 and 2, one on each. */
  lemma CountsOfFirstTwo()
    ensures CountOnLine([3, 9], 1) == CountOnLine([3, 9], 2) == 1 && CountOnLine([3, 9], 3) == 0
    ensures CountOnLine([3, 9], 4) == CountOnLine([3, 9], 5) == CountOnLine([3, 9], 6) == 0
  {
    assert [] + [3] == [3] && [3] + [9] == [3, 9];
    forall id ensures CountOnLine([3, 9], id) == if 1 <= id <= 2 then 1 else 0 {
      assert CountOnLine([], id) == 0;
      CountOnLineSnoc([], 3, id);
      CountOnLineSnoc([3], 9, id);
    }
  }

  /** The numbers to bet for chosen lines 1, 2, .., m are 1 .. 6m, in order. */
  lemma NumbersOfLines(top: seq<int>)
    requires |top| <= 6
    requires forall k :: 0 <= k < |top| ==> top[k] == k + 1
    ensures |SuggestedNumbers(top)| == 6 * |top|
    ensures forall k :: 0 <= k < 6 * |top| ==> SuggestedNumbers(top)[k] == k + 1
  {
    var xs := SuggestedNumbers(top);
    SuggestedNumbersUnion(top);
    forall x ensures x in xs <==> 1 <= x < 1 + |xs| {
      OnFirstLines(top, x);
    }
    StrictlySortedRange(xs, 1);
  }

  /** With lines 1..m chosen, a number is on a chosen line exactly when it is in 1..6m. */
  lemma OnFirstLines(top: seq<int>, x: int)
    requires |top| <= 6
    requires forall k :: 0 <= k < |top| ==> top[k] == k + 1
    ensures (1 <= x <= 36 && LineIdOf(x) in top) <==> 1 <= x <= 6 * |top|
  {
    if 1 <= x <= 36 && LineIdOf(x) in top {
      var k :| 0 <= k < |top| && top[k] == LineIdOf(x);
    }
    if 1 <= x <= 6 * |top| {
      assert top[LineIdOf(x) - 1] == LineIdOf(x);
    }
  }

  /** A strictly ascending sequence holding exactly lo .. lo + |xs| - 1 is that range, in order. */
  lemma {:induction false} StrictlySortedRange(xs: seq<int>, lo: int)
    requires IsStrictlySorted(xs)
    requires forall x :: x in xs <==> lo <= x < lo + |xs|
    ensures forall k :: 0 <= k < |xs| ==> xs[k] == lo + k
  {
    if xs != [] {
      assert lo in xs;
      var i :| 0 <= i < |xs| && xs[i] == lo;
      assert xs[0] in xs;
      assert xs[0] == lo;
      var tail := xs[1..];
      forall x ensures x in tail <==> lo + 1 <= x < lo + 1 + |tail| {
        if x in tail {
          var j :| 0 <= j < |tail| && tail[j] == x;
          assert xs[j + 1] == x && xs[0] < xs[j + 1];
          assert xs[j + 1] in xs;
        }
        if lo + 1 <= x < lo + 1 + |tail| {
          assert x in xs;
          var j :| 0 <= j < |xs| && xs[j] == x;
          assert j != 0;
          assert tail[j - 1] == x;
        }
      }
      StrictlySortedRange(tail, lo + 1);
      forall k | 1 <= k < |xs| ensures xs[k] == lo + k {
        assert xs[k] == tail[k - 1];
      }
    }
  }

  /** A one-spin history has no occurrence with a number after it. */
  lemma ExampleNoFollower()
    ensures Analyze([5], [5]) == None
  {
  }

  /** [1, 1, 1] occurs once in [1, 1, 1, 1] with a follower: at the start, followed by 1. */
  lemma ExampleOverlappingRun()
    ensures Analyze([1, 1, 1, 1], [1, 1, 1]) == Some(StrategyResult(3, 1, [1], [1, 2, 3, 4, 5, 6], [1]))
  {
    var h, s := [1, 1, 1, 1], [1, 1, 1];
    assert Suffix(s, 3) == [1, 1, 1];
    assert h[0..3] == [1, 1, 1];
    assert FollowersBelow(h, [1, 1, 1], 1) == [1];
    assert ChosenDepth(h, s, 3) == 3;
    assert Analyze(h, s) == Outcome(3, [1]);
    OutcomeOfSingle(3, 1);
  }

  /** The result for a single follower on line 1. */
  lemma OutcomeOfSingle(level: int, x: int)
    requires 1 <= x <= 6
    ensures Outcome(level, [x]) == Some(StrategyResult(level, 1, [1], [1, 2, 3, 4, 5, 6], [x]))
  {
    CountsOfSingle(x);
    SingleLine([x]);
    NumbersOfFirstLine();
    assert UniqueInOrder([x]) == [x];
  }

  /** A single follower from 1..6 lies on line 1 and on no other line. */
  lemma CountsOfSingle(x: int)
    requires 1 <= x <= 6
    ensures CountOnLine([x], 1) == 1
    ensures forall id :: 2 <= id <= 6 ==> CountOnLine([x], id) == 0
  {
    assert [] + [x] == [x];
    forall id ensures CountOnLine([x], id) == if id == 1 then 1 else 0 {
      CountOnLineSnoc([], x, id);
    }
  }

  /** Followers that hit line 1 only select line 1 alone. */
  lemma SingleLine(ms: seq<int>)
    requires CountOnLine(ms, 1) > 0
    requires forall id :: 2 <= id <= 6 ==> CountOnLine(ms, id) == 0
    ensures TopLines(Tally(ms)) == [1]
  {
    var top := TopLines(Tally(ms));
    if |top| < 2 {
      ChosenWhenFew(ms, 1);
      assert top == [top[0]];
    } else {
      Chosen(ms, 0);
      Chosen(ms, 1);
      ChosenDiffer(ms);
      assert false;
    }
  }

  /**
   * Followers 2, 8 and 14 hit lines 1, 2 and 3 once each; the tie goes to
   * the smaller ids. The choice follows from the ranking lemmas alone.
   */
  lemma ExampleTie()
    ensures TopLines(Tally([2, 8, 14])) == [1, 2]
  {
    CountsOfTie();
    TieFavoursLinesOneAndTwo([2, 8, 14]);
  }

  /**
   * Followers hitting lines 1 and 2 once each, line 3 at most once and no
   * other line select lines 1 and 2.
   */
  lemma TieFavoursLinesOneAndTwo(ms: seq<int>)
    requires CountOnLine(ms, 1) == CountOnLine(ms, 2) == 1 && CountOnLine(ms, 3) <= 1
    requires CountOnLine(ms, 4) == CountOnLine(ms, 5) == CountOnLine(ms, 6) == 0
    ensures TopLines(Tally(ms)) == [1, 2]
  {
    var top := TopLines(Tally(ms));
    TieChoosesTwoOfFirstThree(ms);
    var a, b := top[0], top[1];
    if a == 2 {
      // the top would be [2, 3], though line 1 ties with line 2 and has the smaller id
      NotInPair(top, 1);
      Outranks(ms, 0, 1);
      assert false;
    } else if b == 3 {
      // the top would be [1, 3], though line 2 ties with line 3 and has the smaller id
      NotInPair(top, 2);
      Outranks(ms, 1, 2);
      assert false;
    } else {
      PairIs(top, 1, 2);
    }
  }

  lemma NotInPair(s: seq<int>, x: int)
    requires |s| == 2 && s[0] != x && s[1] != x
    ensures x !in s
  {
  }

  lemma PairIs(s: seq<int>, x: int, y: int)
    requires |s| == 2 && s[0] == x && s[1] == y
    ensures s == [x, y]
  {
  }

  /** One instance of the ranking: chosen line `k` outranks unchosen line `u`. */
  lemma Outranks(ms: seq<int>, k: int, u: int)
    requires 0 <= k < |TopLines(Tally(ms))| && 1 <= u <= 6 && u !in TopLines(Tally(ms))
    ensures CountOnLine(ms, u) < CountOnLine(ms, TopLines(Tally(ms))[k]) ||
      (CountOnLine(ms, u) == CountOnLine(ms, TopLines(Tally(ms))[k]) && TopLines(Tally(ms))[k] < u)
  {
    TopLinesRanking(ms);
  }

  /** With lines 1 and 2 hit once each and only line 3 besides, two of 1..3 are chosen, ascending. */
  lemma TieChoosesTwoOfFirstThree(ms: seq<int>)
    requires CountOnLine(ms, 1) == CountOnLine(ms, 2) == 1 && CountOnLine(ms, 3) <= 1
    requires CountOnLine(ms, 4) == CountOnLine(ms, 5) == CountOnLine(ms, 6) == 0
    ensures |TopLines(Tally(ms))| == 2
    ensures 1 <= TopLines(Tally(ms))[0] < TopLines(Tally(ms))[1] <= 3
  {
    var top := TopLines(Tally(ms));
    if |top| < 2 {
      ChosenWhenFew(ms, 1);
      ChosenWhenFew(ms, 2);
      assert false;
    }
    var a, b := top[0], top[1];
    Chosen(ms, 0);
    Chosen(ms, 1);
    TiedLine(ms, a);
    TiedLine(ms, b);
    FirstBeforeSecond(ms);
    assert a < b;
  }

  /** Under those counts a line that was hit is one of 1..3, hit once. */
  lemma TiedLine(ms: seq<int>, id: int)
    requires CountOnLine(ms, 1) == CountOnLine(ms, 2) == 1 && CountOnLine(ms, 3) <= 1
    requires CountOnLine(ms, 4) == CountOnLine(ms, 5) == CountOnLine(ms, 6) == 0
    requires 1 <= id <= 6 && Hit(ms, id)
    ensures id <= 3 && CountOnLine(ms, id) == 1
  {
  }

  /** One instance of the choice: chosen line `k` is a line that was hit. */
  lemma Chosen(ms: seq<int>, k: int)
    requires 0 <= k < |TopLines(Tally(ms))|
    ensures 1 <= TopLines(Tally(ms))[k] <= 6 && Hit(ms, TopLines(Tally(ms))[k])
  {
    TopLinesChoice(ms);
  }

  /** One instance of the choice: with fewer than two chosen, hit line `id` is the first. */
  lemma ChosenWhenFew(ms: seq<int>, id: int)
    requires |TopLines(Tally(ms))| < 2 && 1 <= id <= 6 && Hit(ms, id)
    ensures |TopLines(Tally(ms))| == 1 && TopLines(Tally(ms))[0] == id
  {
    TopLinesChoice(ms);
  }

  /** One instance of the choice: two chosen lines differ. */
  lemma ChosenDiffer(ms: seq<int>)
    requires |TopLines(Tally(ms))| == 2
    ensures TopLines(Tally(ms))[0] != TopLines(Tally(ms))[1]
  {
    TopLinesChoice(ms);
  }

  /** One instance of the ranking: the first of two chosen lines ranks before the second. */
  lemma FirstBeforeSecond(ms: seq<int>)
    requires |TopLines(Tally(ms))| == 2
    ensures RanksBefore(LineScore(TopLines(Tally(ms))[0], CountOnLine(ms, TopLines(Tally(ms))[0])),
                        LineScore(TopLines(Tally(ms))[1], CountOnLine(ms, TopLines(Tally(ms))[1])))
  {
    TopLinesRanking(ms);
  }

  /** 2, 8 and 14 lie on lines 1, 2 and 3, one on each. */
  lemma CountsOfTie()
    ensures forall id :: CountOnLine([2, 8, 14], id) == if 1 <= id <= 3 then 1 else 0
  {
    assert [] + [2] == [2] && [2] + [8] == [2, 8] && [2, 8] + [14] == [2, 8, 14];
    forall id ensures CountOnLine([2, 8, 14], id) == if 1 <= id <= 3 then 1 else 0 {
      assert CountOnLine([], id) == 0;
      CountOnLineSnoc([], 2, id);
      CountOnLineSnoc([2], 8, id);
      CountOnLineSnoc([2, 8], 14, id);
    }
  }
}
