/** The physical-bin classifier shared, verbatim, by all five scripts: jet and b-tag counts to a
    bin id, bin id to table index and to canvas pad, and the `mj12` sub-bin. */
module Classifier {

  /** Number of physical bins (`nBins`). */
  const NumBins: nat := 14

  /** The bin enumeration `binNumbers`: Nb=0, 1, 2, 3 rows of three jet categories, then the two
      Nb>=4 bins. Bin 34 is deliberately absent. */
  const BinNumbers: seq<int> := [22, 23, 24, 25, 26, 27, 28, 29, 30, 31, 32, 33, 35, 36]

  /** Number of `mj12` sub-bins (`nMjBins`). */
  const NumMjBins: nat := 3

  /** Lower edges of the three half-open `mj12` intervals [500,800), [800,1100), [1100,inf). */
  const MjEdges: seq<real> := [500.0, 800.0, 1100.0]

  /** The bin table holds no id twice. */
  predicate DistinctTable(s: seq<int>) {
    forall i, j :: 0 <= i < j < |s| ==> s[i] != s[j]
  }

  /** The jet category `j_cat` of `getBinNumber`: 4-5 jets, 6-7 jets, 8 or more, else -1. */
  function JetCategory(njets: int): (c: int)
    ensures -1 <= c <= 2
    ensures c == -1 <==> njets < 4
    ensures c != -1 ==> 4 + 2 * c <= njets && (c < 2 ==> njets <= 5 + 2 * c)
  {
    if 4 <= njets <= 5 then 0
    else if 6 <= njets <= 7 then 1
    else if njets >= 8 then 2
    else -1
  }

  /** The b-tag row of the pad grid: 0..3 for exactly that many b-tags, 4 for four or more,
      -1 for a negative count. */
  function BTagRow(nbm: int): int {
    if nbm < 0 then -1 else if nbm >= 4 then 4 else nbm
  }

  /** `getBinNumber`: the physical bin of an event, or -1 when it is unclassifiable. The 4+ b-tag,
      low-jet population is merged into bin 31, and bin 34 is never produced. */
  function BinNumber(njets: int, nbm: int): (b: int)
    ensures b == -1 <==> njets < 4 || nbm < 0
    ensures b != -1 ==> b in BinNumbers && b != 34
  {
    var j := JetCategory(njets);
    if j == -1 then -1
    else if nbm == 0 then 22 + j
    else if nbm == 1 then 25 + j
    else if nbm == 2 then 28 + j
    else if nbm == 3 then 31 + j
    else if nbm >= 4 then
      // j is 0, 1 or 2 here, so the script's trailing `return -1` after this block is not reached
      if j == 0 then 31 else if j == 1 then 35 else 36
    else -1
  }

  /** The first position at or after `from` where `binNum` stands in the table, or -1. */
  function IndexFrom(binNum: int, from: nat): (i: int)
    requires from <= NumBins
    ensures -1 <= i < NumBins
    ensures i == -1 <==> binNum !in BinNumbers[from..]
    ensures i != -1 ==> from <= i && BinNumbers[i] == binNum
    decreases NumBins - from
  {
    if from == NumBins then -1
    else if BinNumbers[from] == binNum then from
    else IndexFrom(binNum, from + 1)
  }

  /** The table index of a bin id (what `getIdx` computes), -1 when the id is not in the table. */
  function BinIndex(binNum: int): (i: int)
    ensures -1 <= i < NumBins
    ensures i == -1 <==> binNum !in BinNumbers
    ensures i != -1 ==> BinNumbers[i] == binNum
  {
    IndexFrom(binNum, 0)
  }

  /** `getIdx`: linear search of the bin table. */
  method GetIdx(binNum: int) returns (idx: int)
    ensures -1 <= idx < NumBins
    ensures idx == -1 <==> binNum !in BinNumbers
    ensures idx != -1 ==> BinNumbers[idx] == binNum
    ensures forall i :: 0 <= i < NumBins && BinNumbers[i] == binNum ==> idx == i
    ensures idx == BinIndex(binNum)
  {
    var i := 0;
    while i < NumBins
      invariant 0 <= i <= NumBins
      invariant binNum !in BinNumbers[..i]
    {
      if BinNumbers[i] == binNum {
        TableIsDistinct();
        return i;
      }
      i := i + 1;
    }
    assert BinNumbers[..NumBins] == BinNumbers;
    return -1;
  }

  /** `getPadNumber`: the pad of a bin on the 3-column by 5-row canvas, -1 for any other id. */
  function PadNumber(binNum: int): (p: int)
    ensures p == -1 <==> binNum !in BinNumbers
    ensures p != -1 ==> 1 <= p <= 15 && p != 13
  {
    if binNum == 22 then 1 else if binNum == 23 then 2 else if binNum == 24 then 3
    else if binNum == 25 then 4 else if binNum == 26 then 5 else if binNum == 27 then 6
    else if binNum == 28 then 7 else if binNum == 29 then 8 else if binNum == 30 then 9
    else if binNum == 31 then 10 else if binNum == 32 then 11 else if binNum == 33 then 12
    else if binNum == 35 then 14 else if binNum == 36 then 15
    else -1
  }

  /** `getMjBinIndex`: which half-open `mj12` interval holds the value, -1 below 500. */
  function MjBinIndex(mj12: real): (m: int)
    ensures -1 <= m < NumMjBins
    ensures m == -1 <==> mj12 < MjEdges[0]
    ensures m != -1 ==> MjEdges[m] <= mj12 && (m + 1 < NumMjBins ==> mj12 < MjEdges[m + 1])
  {
    if 500.0 <= mj12 < 800.0 then 0
    else if 800.0 <= mj12 < 1100.0 then 1
    else if mj12 >= 1100.0 then 2
    else -1
  }

  lemma TableIsDistinct()
    ensures DistinctTable(BinNumbers)
  {
  }

  /** The table index of every bin id round-trips: `getIdx(binNumbers[i]) == i`. */
  lemma BinIndexRoundTrip(i: int)
    requires 0 <= i < NumBins
    ensures BinIndex(BinNumbers[i]) == i
  {
    TableIsDistinct();
  }

  /** Merge rule: with 4 or 5 jets, four or more b-tags land in the same bin as exactly three. */
  lemma MergeIntoBin31(njets: int, nbm: int)
    requires 4 <= njets <= 5 && nbm >= 4
    ensures BinNumber(njets, nbm) == 31 == BinNumber(njets, 3)
  {
  }

  /** Every bin of the table is produced by some jet and b-tag count. */
  lemma BinNumberOnto(i: int)
    requires 0 <= i < NumBins
    ensures exists nj, nb :: BinNumber(nj, nb) == BinNumbers[i]
  {
    var nj := 4 + 2 * (i % 3 + (if i >= 12 then 1 else 0));
    var nb := if i >= 12 then 4 else i / 3;
    assert BinNumber(nj, nb) == BinNumbers[i];
  }

  /** Two classified events share a bin only when they share jet category and b-tag row, apart
      from the merge of (4-5 jets, 3 b-tags) with (4-5 jets, 4+ b-tags). */
  lemma BinNumberSeparatesCategories(nj1: int, nb1: int, nj2: int, nb2: int)
    requires BinNumber(nj1, nb1) != -1 && BinNumber(nj1, nb1) == BinNumber(nj2, nb2)
    ensures JetCategory(nj1) == JetCategory(nj2)
    ensures BTagRow(nb1) == BTagRow(nb2) || (JetCategory(nj1) == 0 && BTagRow(nb1) >= 3 && BTagRow(nb2) >= 3)
  {
  }

  /** `getPadNumber` is injective on the fourteen bins. */
  lemma PadNumberInjective(b1: int, b2: int)
    requires b1 in BinNumbers && b2 in BinNumbers && b1 != b2
    ensures PadNumber(b1) != PadNumber(b2)
  {
  }

  /** Pad layout: row = b-tag row, column = jet category, so pad = 3 * row + column + 1; the merged
      population goes to bin 31's pad 10, which leaves pad 13 (row 4, column 0) empty. */
  lemma PadGrid(njets: int, nbm: int)
    requires BinNumber(njets, nbm) != -1
    ensures !(JetCategory(njets) == 0 && BTagRow(nbm) == 4) ==>
              PadNumber(BinNumber(njets, nbm)) == 3 * BTagRow(nbm) + JetCategory(njets) + 1
    ensures JetCategory(njets) == 0 && BTagRow(nbm) == 4 ==> PadNumber(BinNumber(njets, nbm)) == 10
  {
  }

  /** The three `mj12` intervals are disjoint and cover [500, inf). */
  lemma MjIntervalsPartition(mj12: real, m: int)
    requires 0 <= m < NumMjBins
    ensures MjBinIndex(mj12) == m <==>
              MjEdges[m] <= mj12 && (m + 1 < NumMjBins ==> mj12 < MjEdges[m + 1])
  {
  }
}
