/**
 * The static bet catalogs and result shapes of types.ts.
 *
 * A six-line covers six consecutive numbers; the six of them split 1..36.
 * A corner covers the four numbers of a 2x2 square of the table layout,
 * where the table has three numbers per row (1 2 3 / 4 5 6 / ...).
 */
module Catalog {

  /** One bet sector: an id, a display name and the numbers it covers. */
  datatype BetDefinition = BetDefinition(id: int, name: string, numbers: seq<int>)

  /** The two literal values of the declared `betType` field. */
  datatype BetType = SixLine | Corner

  /**
   * The result shape that types.ts DECLARES. The engine never builds this
   * value: it returns a record with `suggestedLines` instead of
   * `suggestedIds` and without `betType` (see StrategyEngine.StrategyResult).
   */
  datatype DeclaredStrategyResult = DeclaredStrategyResult(
    searchLevel: int,
    patternMatches: int,
    suggestedIds: seq<int>,
    suggestedNumbers: seq<int>,
    foundNumbers: seq<int>,
    betType: BetType)

  const SixLines: seq<BetDefinition> := [
    BetDefinition(1, "Line 1-6", [1, 2, 3, 4, 5, 6]),
    BetDefinition(2, "Line 7-12", [7, 8, 9, 10, 11, 12]),
    BetDefinition(3, "Line 13-18", [13, 14, 15, 16, 17, 18]),
    BetDefinition(4, "Line 19-24", [19, 20, 21, 22, 23, 24]),
    BetDefinition(5, "Line 25-30", [25, 26, 27, 28, 29, 30]),
    BetDefinition(6, "Line 31-36", [31, 32, 33, 34, 35, 36])
  ]

  const Corners: seq<BetDefinition> := [
    BetDefinition(101, "Corner 1-5", [1, 2, 4, 5]),
    BetDefinition(102, "Corner 2-6", [2, 3, 5, 6]),
    BetDefinition(103, "Corner 4-8", [4, 5, 7, 8]),
    BetDefinition(104, "Corner 5-9", [5, 6, 8, 9]),
    BetDefinition(105, "Corner 7-11", [7, 8, 10, 11]),
    BetDefinition(106, "Corner 8-12", [8, 9, 11, 12]),
    BetDefinition(107, "Corner 10-14", [10, 11, 13, 14]),
    BetDefinition(108, "Corner 11-15", [11, 12, 14, 15]),
    BetDefinition(109, "Corner 13-17", [13, 14, 16, 17]),
    BetDefinition(110, "Corner 14-18", [14, 15, 17, 18]),
    BetDefinition(111, "Corner 16-20", [16, 17, 19, 20]),
    BetDefinition(112, "Corner 17-21", [17, 18, 20, 21]),
    BetDefinition(113, "Corner 19-23", [19, 20, 22, 23]),
    BetDefinition(114, "Corner 20-24", [20, 21, 23, 24]),
    BetDefinition(115, "Corner 22-26", [22, 23, 25, 26]),
    BetDefinition(116, "Corner 23-27", [23, 24, 26, 27]),
    BetDefinition(117, "Corner 25-29", [25, 26, 28, 29]),
    BetDefinition(118, "Corner 26-30", [26, 27, 29, 30]),
    BetDefinition(119, "Corner 28-32", [28, 29, 31, 32]),
    BetDefinition(120, "Corner 29-33", [29, 30, 32, 33]),
    BetDefinition(121, "Corner 31-35", [31, 32, 34, 35]),
    BetDefinition(122, "Corner 32-36", [32, 33, 35, 36])
  ]

  /** The six consecutive numbers of the six-line with id `id`. */
  function LineRange(id: int): seq<int> {
    var a := 6 * id - 5;
    [a, a + 1, a + 2, a + 3, a + 4, a + 5]
  }

  /** The 2x2 square of the table whose top-left number is `a`. */
  function Square(a: int): seq<int> {
    [a, a + 1, a + 3, a + 4]
  }

  /** Top-left number of the k-th corner: two squares per row pair, 1 2, 4 5, 7 8, ... */
  function CornerAnchor(k: nat): int {
    3 * (k / 2) + 1 + k % 2
  }

  lemma SixLinesCount()
    ensures |SixLines| == 6
  {
  }

  /** Six-line k has id k+1 and lists 6k+1 .. 6k+6 in ascending order. */
  lemma SixLinesLayout()
    ensures |SixLines| == 6
    ensures forall k :: 0 <= k < 6 ==> SixLines[k].id == k + 1 && SixLines[k].numbers == LineRange(k + 1)
  {
    forall k | 0 <= k < 6
      ensures SixLines[k].id == k + 1 && SixLines[k].numbers == LineRange(k + 1)
    {
      if k == 0 { assert SixLines[k].numbers == LineRange(1); }
      else if k == 1 { assert SixLines[k].numbers == LineRange(2); }
      else if k == 2 { assert SixLines[k].numbers == LineRange(3); }
      else if k == 3 { assert SixLines[k].numbers == LineRange(4); }
      else if k == 4 { assert SixLines[k].numbers == LineRange(5); }
      else { assert SixLines[k].numbers == LineRange(6); }
    }
  }

  /** `n` is listed by some six-line of the catalog. */
  predicate OnSomeSixLine(n: int) {
    exists k :: 0 <= k < |SixLines| && n in SixLines[k].numbers
  }

  /** The numbers of LineRange(id) are exactly 6*id-5 .. 6*id. */
  lemma LineRangeMembership(id: int, n: int)
    ensures n in LineRange(id) <==> 6 * id - 5 <= n <= 6 * id
  {
  }

  /**
   * The six-lines partition 1..36: a number lies in some six-line exactly
   * when it is in 1..36, and then in the one at index (n-1)/6 and no other.
   */
  lemma SixLinesPartition()
    ensures forall n :: OnSomeSixLine(n) <==> 1 <= n <= 36
    ensures forall k, n :: 0 <= k < |SixLines| && n in SixLines[k].numbers ==> k == (n - 1) / 6
  {
    SixLinesLayout();
    forall k, n | 0 <= k < 6 && n in SixLines[k].numbers
      ensures 1 <= n <= 36 && k == (n - 1) / 6
    {
      LineRangeMembership(k + 1, n);
    }
    forall n | 1 <= n <= 36
      ensures OnSomeSixLine(n)
    {
      var k := (n - 1) / 6;
      LineRangeMembership(k + 1, n);
      assert n in SixLines[k].numbers;
    }
  }

  /**
   * Corner k has id 101+k and covers the square anchored at CornerAnchor(k);
   * every anchor is off the right-hand column (anchor mod 3 is not 0) and
   * every square lies inside 1..36.
   */
  lemma CornersLayout()
    ensures |Corners| == 22
    ensures forall k :: 0 <= k < 22 ==>
      && Corners[k].id == 101 + k
      && Corners[k].numbers == Square(CornerAnchor(k))
      && CornerAnchor(k) % 3 != 0
      && 1 <= CornerAnchor(k) && CornerAnchor(k) + 4 <= 36
  {
    forall k | 0 <= k < 22
      ensures Corners[k].id == 101 + k && Corners[k].numbers == Square(CornerAnchor(k))
    {
      if k < 11 { CornersLow(k); } else { CornersHigh(k); }
    }
  }

  lemma CornersLow(k: nat)
    requires k < 11
    ensures Corners[k].id == 101 + k && Corners[k].numbers == Square(CornerAnchor(k))
  {
    if k == 0 {} else if k == 1 {} else if k == 2 {} else if k == 3 {} else if k == 4 {}
    else if k == 5 {} else if k == 6 {} else if k == 7 {} else if k == 8 {} else if k == 9 {}
    else {}
  }

  lemma CornersHigh(k: nat)
    requires 11 <= k < 22
    ensures Corners[k].id == 101 + k && Corners[k].numbers == Square(CornerAnchor(k))
  {
    if k == 11 {} else if k == 12 {} else if k == 13 {} else if k == 14 {} else if k == 15 {}
    else if k == 16 {} else if k == 17 {} else if k == 18 {} else if k == 19 {} else if k == 20 {}
    else {}
  }

  /** Every 2x2 square of the table appears in the corner catalog. */
  lemma CornersCoverEverySquare(a: int)
    requires 1 <= a && a + 4 <= 36 && a % 3 != 0
    ensures exists k :: 0 <= k < |Corners| && Corners[k].numbers == Square(a)
  {
    CornersLayout();
    var k := 2 * (a / 3) + a % 3 - 1;
    assert CornerAnchor(k) == a;
  }

  /** 0 is on no six-line and on no corner. */
  lemma ZeroInNoSector()
    ensures forall k :: 0 <= k < |SixLines| ==> 0 !in SixLines[k].numbers
    ensures forall k :: 0 <= k < |Corners| ==> 0 !in Corners[k].numbers
  {
    SixLinesPartition();
    assert !OnSomeSixLine(0);
    CornersLayout();
  }

  /**
   * A number is on at most one six-line but can be on several corners:
   * 5 is on corners 101, 102, 103 and 104.
   */
  lemma OverlapOfCorners()
    ensures forall k1, k2 :: 0 <= k1 < k2 < |SixLines| ==> 5 !in SixLines[k1].numbers || 5 !in SixLines[k2].numbers
    ensures forall k :: 0 <= k < 4 ==> Corners[k].id == 101 + k && 5 in Corners[k].numbers
  {
    SixLinesPartition();
    CornersLow(0);
    CornersLow(1);
    CornersLow(2);
    CornersLow(3);
  }
}
