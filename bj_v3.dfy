/** The BJ v3 collector of plot_pdf_variations_BJ_v3.cpp: every accepted event stores its two
    `sys_pdf` values (up, then down) in its bin's list, and the running minimum and maximum of all
    stored values fix the y range of the heat map. */
module BjV3 {
  import opened Events
  import opened Classifier
  import opened Order
  import opened Bins

  /** The script skips events whose `sys_pdf` has fewer than two entries. */
  const MinWeights: nat := 2
  /** Fallback y range when nothing was stored. */
  const DefaultLow: real := 0.0
  const DefaultHigh: real := 2.0

  /** The table index of an event's bin, or None when the event loop skips it. */
  function AcceptedBin(e: Event): (r: Option<nat>)
    ensures r.None? <==> |e.weights| < MinWeights || e.nleps != 1 || BinNumber(e.njets, e.nbm) == -1
    ensures r.Some? ==> r.value < NumBins && BinNumbers[r.value] == BinNumber(e.njets, e.nbm)
  {
    if |e.weights| < MinWeights || e.nleps != 1 then None
    else
      var binNum := BinNumber(e.njets, e.nbm);
      if binNum == -1 then None else Some(BinIndex(binNum))
  }

  /** What an accepted event appends: `sys_pdf[0]` (up) then `sys_pdf[1]` (down). The script
      only reads them after the size check, so a shorter vector yields nothing here. */
  function UpDown(e: Event): seq<real> {
    if |e.weights| >= MinWeights then [e.weights[0], e.weights[1]] else []
  }

  /** Step 1, the event loop: the bin lists and the running min and max. */
  method Collect(events: seq<Event>) returns (binData: seq<seq<real>>, yMin: real, yMax: real)
    ensures binData == BinLists(events, AcceptedBin, UpDown)
    ensures IsBoundedMin(yMin, MinSentinel, AllValues(events, AcceptedBin, UpDown))
    ensures IsBoundedMax(yMax, MaxSentinel, AllValues(events, AcceptedBin, UpDown))
  {
    binData := EmptyLists(NumBins);
    yMin, yMax := MinSentinel, MaxSentinel;
    for i := 0 to |events|
      invariant binData == BinLists(events[..i], AcceptedBin, UpDown)
      invariant IsBoundedMin(yMin, MinSentinel, AllValues(events[..i], AcceptedBin, UpDown))
      invariant IsBoundedMax(yMax, MaxSentinel, AllValues(events[..i], AcceptedBin, UpDown))
    {
      var e := events[i];
      if |e.weights| < MinWeights || e.nleps != 1 {
        SkippedStep(events, i, AcceptedBin, UpDown);
        continue;
      }
      var binNum := BinNumber(e.njets, e.nbm);
      if binNum == -1 {
        SkippedStep(events, i, AcceptedBin, UpDown);
        continue;
      }
      var bIdx := GetIdx(binNum);
      assert bIdx != -1;  // the `bIdx == -1` skip cannot fire
      AcceptedStep(events, i, AcceptedBin, UpDown, bIdx);
      var valUp, valDown := e.weights[0], e.weights[1];
      ghost var seen := AllValues(events[..i], AcceptedBin, UpDown);
      binData := binData[bIdx := binData[bIdx] + [valUp, valDown]];
      BoundedStep(yMin, yMax, MinSentinel, MaxSentinel, seen, valUp);
      if valUp < yMin { yMin := valUp; }
      if valUp > yMax { yMax := valUp; }
      BoundedStep(yMin, yMax, MinSentinel, MaxSentinel, seen + [valUp], valDown);
      if valDown < yMin { yMin := valDown; }
      if valDown > yMax { yMax := valDown; }
      assert seen + [valUp] + [valDown] == seen + [valUp, valDown];
    }
    assert events[..|events|] == events;
  }

  /** The bin count of the heat map's y axis: `ceilRange` is the script's `(int)ceil(range / 0.01)`,
      floored at one bin. */
  function YBinCount(ceilRange: int): (n: int)
    ensures n >= 1
    ensures ceilRange >= 1 ==> n == ceilRange
    ensures ceilRange < 1 ==> n == 1
  {
    if ceilRange < 1 then 1 else ceilRange
  }

  /** The script up to the histogram booking: the lists, the y range after the fallback and the bin
      count, with `ceil` standing for `(int)ceil(x / 0.01)` on doubles. */
  method Run(events: seq<Event>, ceil: real -> int) returns (binData: seq<seq<real>>, lo: real, hi: real, nYbins: int)
    ensures binData == BinLists(events, AcceptedBin, UpDown)
    ensures lo <= hi && nYbins >= 1
    ensures AllValues(events, AcceptedBin, UpDown) == [] ==> lo == DefaultLow && hi == DefaultHigh
    ensures AllValues(events, AcceptedBin, UpDown) != [] ==>
              IsBoundedMin(lo, MinSentinel, AllValues(events, AcceptedBin, UpDown)) &&
              IsBoundedMax(hi, MaxSentinel, AllValues(events, AcceptedBin, UpDown))
    ensures nYbins == YBinCount(ceil(hi - lo))
    ensures forall v :: v in AllValues(events, AcceptedBin, UpDown) ==> lo <= v <= hi
    ensures forall b, v :: 0 <= b < NumBins && v in binData[b] ==> lo <= v <= hi
  {
    var yMin, yMax;
    binData, yMin, yMax := Collect(events);
    ghost var vals := AllValues(events, AcceptedBin, UpDown);
    InvertedIffEmpty(yMin, yMax, vals);
    var range := DisplayRange(yMin, yMax, DefaultLow, DefaultHigh);
    lo, hi := range.0, range.1;
    forall v | v in vals
      ensures lo <= v <= hi
    {
      RangeCovers(yMin, yMax, vals, DefaultLow, DefaultHigh, v);
    }
    forall b, v | 0 <= b < NumBins && v in binData[b]
      ensures lo <= v <= hi
    {
      BinValueSeen(events, AcceptedBin, UpDown, b, v);
    }
    nYbins := YBinCount(ceil(hi - lo));
  }

  /** The lists hold exactly two values per accepted event. */
  lemma {:induction false} TwoValuesPerEvent(events: seq<Event>)
    ensures TotalLength(BinLists(events, AcceptedBin, UpDown)) == 2 * AcceptedCount(events, AcceptedBin)
    ensures |AllValues(events, AcceptedBin, UpDown)| == 2 * AcceptedCount(events, AcceptedBin)
    decreases |events|
  {
    StoredCount(events, AcceptedBin, UpDown);
    if events != [] {
      TwoValuesPerEvent(events[..|events| - 1]);
    }
  }

  /** An accepted event appends up then down to its own list and leaves every other list alone;
      a skipped event changes nothing. */
  lemma OneEventStep(events: seq<Event>, e: Event, b: nat)
    requires b < NumBins
    ensures BinLists(events + [e], AcceptedBin, UpDown)[b] ==
              if AcceptedBin(e) == Some(b) then BinLists(events, AcceptedBin, UpDown)[b] + [e.weights[0], e.weights[1]]
              else BinLists(events, AcceptedBin, UpDown)[b]
  {
    assert (events + [e])[..|events|] == events;
  }
}
