/** The BJ v4 collector of plot_pdf_variations_BJ_v4.cpp: every accepted event stores one value,
    the sum of its first (at most) 100 weights over the constant 100; each bin's list is then
    sorted in place and drawn as one horizontal line per value, the lines at the 16th and 84th
    percentile indices in blue and all others in cyan. */
module BjV4 {
  import opened Events
  import opened Classifier
  import opened Order
  import opened Bins

  /** How many leading weights the average takes at most. */
  const AverageWindow: nat := 100
  /** The average's divisor, fixed whatever the number of weights summed. */
  const AverageDivisor: real := 100.0
  /** Fallback y range when nothing was stored. */
  const DefaultLow: real := 0.0
  const DefaultHigh: real := 1.0

  /** The table index of an event's bin, or None when the event loop skips it. */
  function AcceptedBin(e: Event): (r: Option<nat>)
    ensures r.None? <==> |e.weights| == 0 || e.nleps != 1 || BinNumber(e.njets, e.nbm) == -1
    ensures r.Some? ==> r.value < NumBins && BinNumbers[r.value] == BinNumber(e.njets, e.nbm)
  {
    if |e.weights| == 0 || e.nleps != 1 then None
    else
      var binNum := BinNumber(e.njets, e.nbm);
      if binNum == -1 then None else Some(BinIndex(binNum))
  }

  /** Sum of the first `n` weights. */
  function WeightSum(w: seq<real>, n: nat): real
    requires n <= |w|
  {
    if n == 0 then 0.0 else WeightSum(w, n - 1) + w[n - 1]
  }

  /** The number of weights summed: `min(size, 100)`. */
  function Limit(w: seq<real>): (n: nat)
    ensures n <= |w| && n <= AverageWindow
    ensures n == |w| || n == AverageWindow
  {
    if |w| < AverageWindow then |w| else AverageWindow
  }

  /** The stored per-event value. */
  function AverageOf(w: seq<real>): (avg: real)
    ensures |w| <= AverageWindow ==> avg * AverageDivisor == WeightSum(w, |w|)
    ensures |w| >= AverageWindow ==> avg * AverageDivisor == WeightSum(w, AverageWindow)
  {
    WeightSum(w, Limit(w)) / AverageDivisor
  }

  /** What an accepted event appends: its one average value. */
  function AveragePayload(e: Event): seq<real> {
    [AverageOf(e.weights)]
  }

  /** The averaging loop of one event. */
  method EventAverage(w: seq<real>) returns (avg: real)
    ensures avg == AverageOf(w)
  {
    var sum := 0.0;
    var limit := if |w| < AverageWindow then |w| else AverageWindow;
    for k := 0 to limit
      invariant sum == WeightSum(w, k)
    {
      sum := sum + w[k];
    }
    avg := sum / AverageDivisor;
  }

  /** Step 1, the event loop: the bin lists and the running min and max. */
  method Collect(events: seq<Event>) returns (binData: seq<seq<real>>, yMin: real, yMax: real)
    ensures binData == BinLists(events, AcceptedBin, AveragePayload)
    ensures IsBoundedMin(yMin, MinSentinel, AllValues(events, AcceptedBin, AveragePayload))
    ensures IsBoundedMax(yMax, MaxSentinel, AllValues(events, AcceptedBin, AveragePayload))
  {
    binData := EmptyLists(NumBins);
    yMin, yMax := MinSentinel, MaxSentinel;
    for i := 0 to |events|
      invariant binData == BinLists(events[..i], AcceptedBin, AveragePayload)
      invariant IsBoundedMin(yMin, MinSentinel, AllValues(events[..i], AcceptedBin, AveragePayload))
      invariant IsBoundedMax(yMax, MaxSentinel, AllValues(events[..i], AcceptedBin, AveragePayload))
    {
      var e := events[i];
      if |e.weights| == 0 || e.nleps != 1 {
        SkippedStep(events, i, AcceptedBin, AveragePayload);
        continue;
      }
      var binNum := BinNumber(e.njets, e.nbm);
      if binNum == -1 {
        SkippedStep(events, i, AcceptedBin, AveragePayload);
        continue;
      }
      var bIdx := GetIdx(binNum);
      assert bIdx != -1;  // the `bIdx == -1` skip cannot fire
      AcceptedStep(events, i, AcceptedBin, AveragePayload, bIdx);
      var avgVal := EventAverage(e.weights);
      BoundedStep(yMin, yMax, MinSentinel, MaxSentinel, AllValues(events[..i], AcceptedBin, AveragePayload), avgVal);
      binData := binData[bIdx := binData[bIdx] + [avgVal]];
      if avgVal < yMin { yMin := avgVal; }
      if avgVal > yMax { yMax := avgVal; }
    }
    assert events[..|events|] == events;
  }

  /** The lower percentile index `(int)(N * 0.16)`. */
  function LowPick(n: nat): (p: nat)
    ensures p * 100 <= n * 16 < p * 100 + 100
    ensures n >= 1 ==> p < n
  {
    n * 16 / 100
  }

  /** The upper percentile index `(int)(N * 0.84)`, clamped to `N - 1`. */
  function HighPick(n: nat): (p: int)
    ensures n == 0 ==> p == -1
    ensures n >= 1 ==> 0 <= p < n && p * 100 <= n * 84 < p * 100 + 100
  {
    assert n >= 1 ==> n * 84 < n * 100;
    if n * 84 / 100 >= n then n - 1 else n * 84 / 100
  }

  /** Whether the value at sorted position `i` of `n` is drawn in blue. */
  predicate IsBlue(i: int, n: nat)
    ensures IsBlue(i, n) && n >= 1 ==> 0 <= i < n
  {
    i == LowPick(n) || i == HighPick(n)
  }

  /** One line of the plot: bin `bin`'s value `value`, drawn across that bin. */
  datatype Line = Line(bin: nat, value: real)

  /** The lines of sorted positions `0..i-1` of the list `s` of bin `b` that go to the blue list
      (`blue`) or to the cyan one (`!blue`), in drawing order. */
  function Lines(b: nat, s: seq<real>, i: nat, blue: bool): (r: seq<Line>)
    requires i <= |s|
    ensures |r| <= i
    ensures forall l :: l in r ==> l.bin == b
  {
    if i == 0 then []
    else Lines(b, s, i - 1, blue) + (if IsBlue(i - 1, |s|) == blue then [Line(b, s[i - 1])] else [])
  }

  /** The lines of bin `b`'s list once sorted. */
  function BinLines(b: nat, vals: seq<real>, blue: bool): seq<Line> {
    var s := SortedSeq(vals);
    Lines(b, s, |s|, blue)
  }

  /** The blue or cyan lines of all bins, bin by bin. */
  function AllLines(bins: seq<seq<real>>, blue: bool): seq<Line>
    decreases |bins|
  {
    if bins == [] then []
    else AllLines(bins[..|bins| - 1], blue) + BinLines(|bins| - 1, bins[|bins| - 1], blue)
  }

  lemma AllLinesStep(bins: seq<seq<real>>, b: nat)
    requires b < |bins|
    ensures AllLines(bins[..b + 1], true) == AllLines(bins[..b], true) + BinLines(b, bins[b], true)
    ensures AllLines(bins[..b + 1], false) == AllLines(bins[..b], false) + BinLines(b, bins[b], false)
  {
    assert bins[..b + 1][..b] == bins[..b];
  }

  /** The line loop of one sorted, non-empty bin. */
  method AppendBinLines(b: nat, values: seq<real>, blue0: seq<Line>, cyan0: seq<Line>) returns (blue: seq<Line>, cyan: seq<Line>)
    requires |values| >= 1
    ensures blue == blue0 + Lines(b, values, |values|, true)
    ensures cyan == cyan0 + Lines(b, values, |values|, false)
  {
    var n := |values|;
    var idx16 := n * 16 / 100;
    var idx84 := n * 84 / 100;
    if idx84 >= n {
      idx84 := n - 1;
    }
    blue, cyan := blue0, cyan0;
    for i := 0 to n
      invariant blue == blue0 + Lines(b, values, i, true)
      invariant cyan == cyan0 + Lines(b, values, i, false)
    {
      var line := Line(b, values[i]);
      if i == idx16 || i == idx84 {
        blue := blue + [line];
      } else {
        cyan := cyan + [line];
      }
    }
  }

  /** `std::sort` on one bin's list, on an array holding the list. */
  method SortValues(values: seq<real>) returns (ordered: seq<real>)
    ensures ordered == SortedSeq(values)
    ensures Sorted(ordered) && multiset(ordered) == multiset(values)
  {
    var a := new real[|values|](i requires 0 <= i < |values| => values[i]);
    assert a[..] == values;
    SortInPlace(a);
    ordered := a[..];
  }

  /** One iteration of the bin loop: an empty list is skipped, any other is sorted and its lines
      are appended. */
  method DrawBin(b: nat, values: seq<real>, blue0: seq<Line>, cyan0: seq<Line>) returns (ordered: seq<real>, blue: seq<Line>, cyan: seq<Line>)
    ensures ordered == SortedSeq(values)
    ensures blue == blue0 + BinLines(b, values, true) && cyan == cyan0 + BinLines(b, values, false)
  {
    if |values| == 0 {
      return values, blue0, cyan0;
    }
    ordered := SortValues(values);
    blue, cyan := AppendBinLines(b, ordered, blue0, cyan0);
  }

  /** The state of the bin loop before bin `b`: bins below `b` are sorted and drawn, the others
      untouched. */
  ghost predicate DrawnUpTo(binData: seq<seq<real>>, b: nat, sorted: seq<seq<real>>, blue: seq<Line>, cyan: seq<Line>)
    requires b <= |binData|
  {
    && |sorted| == |binData|
    && (forall i :: 0 <= i < b ==> sorted[i] == SortedSeq(binData[i]))
    && (forall i :: b <= i < |binData| ==> sorted[i] == binData[i])
    && blue == AllLines(binData[..b], true)
    && cyan == AllLines(binData[..b], false)
  }

  /** One iteration of the bin loop, on the whole loop state. */
  method DrawStep(binData: seq<seq<real>>, b: nat, sorted0: seq<seq<real>>, blue0: seq<Line>, cyan0: seq<Line>)
    returns (sorted: seq<seq<real>>, blue: seq<Line>, cyan: seq<Line>)
    requires b < |binData| && DrawnUpTo(binData, b, sorted0, blue0, cyan0)
    ensures DrawnUpTo(binData, b + 1, sorted, blue, cyan)
  {
    AllLinesStep(binData, b);
    var ordered;
    ordered, blue, cyan := DrawBin(b, sorted0[b], blue0, cyan0);
    sorted := sorted0[b := ordered];
  }

  /** Step 2: sort each non-empty list in place and emit its lines; empty lists are skipped. */
  method DrawLines(binData: seq<seq<real>>) returns (sorted: seq<seq<real>>, blue: seq<Line>, cyan: seq<Line>)
    requires |binData| == NumBins
    ensures |sorted| == NumBins
    ensures forall b :: 0 <= b < NumBins ==> sorted[b] == SortedSeq(binData[b])
    ensures blue == AllLines(binData, true) && cyan == AllLines(binData, false)
  {
    sorted := binData;
    blue, cyan := [], [];
    for b := 0 to NumBins
      invariant DrawnUpTo(binData, b, sorted, blue, cyan)
    {
      sorted, blue, cyan := DrawStep(binData, b, sorted, blue, cyan);
    }
    assert binData[..NumBins] == binData;
  }

  /** The script's steps from the event loop to the line lists. */
  method Run(events: seq<Event>) returns (sorted: seq<seq<real>>, lo: real, hi: real, blue: seq<Line>, cyan: seq<Line>)
    ensures |sorted| == NumBins
    ensures forall b :: 0 <= b < NumBins ==> sorted[b] == SortedSeq(BinLists(events, AcceptedBin, AveragePayload)[b])
    ensures blue == AllLines(BinLists(events, AcceptedBin, AveragePayload), true)
    ensures cyan == AllLines(BinLists(events, AcceptedBin, AveragePayload), false)
    ensures lo <= hi
    ensures AllValues(events, AcceptedBin, AveragePayload) == [] ==> lo == DefaultLow && hi == DefaultHigh
    ensures AllValues(events, AcceptedBin, AveragePayload) != [] ==>
              IsBoundedMin(lo, MinSentinel, AllValues(events, AcceptedBin, AveragePayload)) &&
              IsBoundedMax(hi, MaxSentinel, AllValues(events, AcceptedBin, AveragePayload))
    ensures forall v :: v in AllValues(events, AcceptedBin, AveragePayload) ==> lo <= v <= hi
  {
    var binData, yMin, yMax := Collect(events);
    ghost var vals := AllValues(events, AcceptedBin, AveragePayload);
    InvertedIffEmpty(yMin, yMax, vals);
    var range := DisplayRange(yMin, yMax, DefaultLow, DefaultHigh);
    lo, hi := range.0, range.1;
    forall v | v in vals
      ensures lo <= v <= hi
    {
      RangeCovers(yMin, yMax, vals, DefaultLow, DefaultHigh, v);
    }
    sorted, blue, cyan := DrawLines(binData);
  }

  // ---------------------------------------------------------------------------------------
  // Properties

  lemma {:induction false} WeightSumConstant(w: seq<real>, n: nat, c: real)
    requires n <= |w| && forall k :: 0 <= k < n ==> w[k] == c
    ensures WeightSum(w, n) == n as real * c
  {
    if n > 0 {
      WeightSumConstant(w, n - 1, c);
    }
  }

  /** Only the leading 100 weights count: anything after them leaves the average unchanged. */
  lemma AverageIgnoresTail(w: seq<real>, extra: seq<real>)
    requires |w| >= AverageWindow
    ensures AverageOf(w + extra) == AverageOf(w)
  {
    WeightSumPrefix(w, extra, AverageWindow);
  }

  lemma {:induction false} WeightSumPrefix(w: seq<real>, extra: seq<real>, n: nat)
    requires n <= |w|
    ensures WeightSum(w + extra, n) == WeightSum(w, n)
  {
    if n > 0 {
      WeightSumPrefix(w, extra, n - 1);
    }
  }

  /** With 100 or more weights all equal to `c`, the average is `c`. */
  lemma AverageOfConstant(w: seq<real>, c: real)
    requires |w| >= AverageWindow && forall k :: 0 <= k < |w| ==> w[k] == c
    ensures AverageOf(w) == c
  {
    WeightSumConstant(w, AverageWindow, c);
  }

  /** With fewer than 100 weights the divisor stays 100: `n` weights equal to `c` average to
      `c * n / 100`, not to `c`. */
  lemma AverageOfShortConstant(w: seq<real>, c: real)
    requires |w| < AverageWindow && forall k :: 0 <= k < |w| ==> w[k] == c
    ensures AverageOf(w) == c * |w| as real / AverageDivisor
  {
    WeightSumConstant(w, |w|, c);
  }

  /** Each accepted event stores exactly one value. */
  lemma {:induction false} OneValuePerEvent(events: seq<Event>)
    ensures TotalLength(BinLists(events, AcceptedBin, AveragePayload)) == AcceptedCount(events, AcceptedBin)
    ensures |AllValues(events, AcceptedBin, AveragePayload)| == AcceptedCount(events, AcceptedBin)
    decreases |events|
  {
    StoredCount(events, AcceptedBin, AveragePayload);
    if events != [] {
      OneValuePerEvent(events[..|events| - 1]);
    }
  }

  /** For a non-empty list `0 <= idx_16 <= idx_84 < N`, and the clamp to `N - 1` never fires. */
  lemma PercentileBounds(n: nat)
    requires n >= 1
    ensures 0 <= LowPick(n) <= HighPick(n) < n
    ensures HighPick(n) == n * 84 / 100
  {
    assert n * 84 < n * 100;
    assert n * 84 / 100 < n;
    assert n * 16 / 100 <= n * 84 / 100;
  }

  /** Ten values: positions 1 and 8 are blue, as `(int)(10 * 0.16)` and `(int)(10 * 0.84)`. */
  lemma PicksOfTen()
    ensures LowPick(10) == 1 && HighPick(10) == 8
    ensures forall i :: 0 <= i < 10 ==> (IsBlue(i, 10) <==> i == 1 || i == 8)
  {
  }

  /** An accepted event appends its one average to its own list and leaves every other list
      alone; a skipped event changes nothing. */
  lemma OneEventStep(events: seq<Event>, e: Event, b: nat)
    requires b < NumBins
    ensures BinLists(events + [e], AcceptedBin, AveragePayload)[b] ==
              if AcceptedBin(e) == Some(b) then BinLists(events, AcceptedBin, AveragePayload)[b] + [AverageOf(e.weights)]
              else BinLists(events, AcceptedBin, AveragePayload)[b]
  {
    assert (events + [e])[..|events|] == events;
  }

  /** Every value of a list goes to exactly one of the two line lists. */
  lemma {:induction false} LinesPartition(b: nat, s: seq<real>, i: nat)
    requires i <= |s|
    ensures |Lines(b, s, i, true)| + |Lines(b, s, i, false)| == i
  {
    if i > 0 {
      LinesPartition(b, s, i - 1);
    }
  }

  /** The blue lines of positions below `i` are those of the two percentile picks below `i`. */
  lemma {:induction false} BlueLinesPrefix(b: nat, s: seq<real>, i: nat)
    requires |s| >= 1 && i <= |s|
    ensures Lines(b, s, i, true) ==
              (if LowPick(|s|) < i then [Line(b, s[LowPick(|s|)])] else []) +
              (if HighPick(|s|) < i && HighPick(|s|) != LowPick(|s|) then [Line(b, s[HighPick(|s|)])] else [])
  {
    PercentileBounds(|s|);
    if i > 0 {
      BlueLinesPrefix(b, s, i - 1);
    }
  }

  /** A non-empty list draws exactly its 16th- and 84th-percentile values in blue: one line when
      the two picks coincide, two otherwise; all other values are cyan. */
  lemma BlueLinesOfBin(b: nat, s: seq<real>)
    requires |s| >= 1
    ensures Lines(b, s, |s|, true) ==
              if LowPick(|s|) == HighPick(|s|) then [Line(b, s[LowPick(|s|)])]
              else [Line(b, s[LowPick(|s|)]), Line(b, s[HighPick(|s|)])]
    ensures 1 <= |Lines(b, s, |s|, true)| <= 2
    ensures |Lines(b, s, |s|, false)| == |s| - |Lines(b, s, |s|, true)|
  {
    PercentileBounds(|s|);
    BlueLinesPrefix(b, s, |s|);
    LinesPartition(b, s, |s|);
  }

  /** Across all bins, every stored value is drawn exactly once. */
  lemma {:induction false} EveryValueDrawnOnce(bins: seq<seq<real>>)
    ensures |AllLines(bins, true)| + |AllLines(bins, false)| == TotalLength(bins)
    decreases |bins|
  {
    if bins != [] {
      EveryValueDrawnOnce(bins[..|bins| - 1]);
      var s := SortedSeq(bins[|bins| - 1]);
      LinesPartition(|bins| - 1, s, |s|);
    }
  }
}
