/** The yield-sum ("CG") strategy with `mj12` sub-binning, as in plot_pdf_variations_CG_mj_bin_v3.cpp:
    one pass adds each accepted event's first 100 weights into a 14 x 3 x 100 array of sums; then,
    per (bin, mj) cell, the 100 sums are divided by the nominal sum and a sorted copy gives the
    envelope at order statistics 15 and 83. */
module CgMjBin {
  import opened Events
  import opened Classifier
  import opened Order
  import opened Envelopes

  /** Sums kept per (bin, mj) cell: entry 0 is the nominal, all 100 take part in the sort. */
  const Replicas: nat := 100

  datatype Cell = Cell(bin: nat, mj: nat)

  /** The accumulator shape `nBins x nMjBins x 100`. */
  predicate SumsShape(sums: array3<real>) {
    sums.Length0 == NumBins && sums.Length1 == NumMjBins && sums.Length2 == Replicas
  }

  /** The cell an event's weights are added to, or None when the event loop skips it. */
  function EventCell(e: Event): (c: Option<Cell>)
    ensures c.None? <==>
              e.nleps != 1 || |e.weights| < Replicas ||
              BinNumber(e.njets, e.nbm) == -1 || MjBinIndex(e.mj12) == -1
    ensures c.Some? ==>
              c.value.bin < NumBins && c.value.mj < NumMjBins &&
              BinNumbers[c.value.bin] == BinNumber(e.njets, e.nbm) &&
              c.value.mj == MjBinIndex(e.mj12)
  {
    if |e.weights| == 0 || e.nleps != 1 then None
    else
      var binNum := BinNumber(e.njets, e.nbm);
      if binNum == -1 then None
      else
        // BinIndex(binNum) != -1 for every classified bin, so the script's `bIdx == -1` skip never fires
        var bIdx := BinIndex(binNum);
        var mIdx := MjBinIndex(e.mj12);
        if mIdx == -1 then None
        else if |e.weights| >= Replicas then Some(Cell(bIdx, mIdx))
        else None
  }

  /** Whether the event loop adds `e`'s weights to cell (b, m). */
  predicate Reaches(e: Event, b: int, m: int) {
    EventCell(e).Some? && EventCell(e).value.bin == b && EventCell(e).value.mj == m
  }

  /** What one event adds to `sums[b][m][k]`: its weight k in its own cell, nothing elsewhere. */
  function Contribution(e: Event, b: int, m: int, k: int): (r: real)
    ensures Reaches(e, b, m) && 0 <= k < Replicas ==> r == e.weights[k]
    ensures r != 0.0 ==> Reaches(e, b, m) && 0 <= k < Replicas
  {
    match EventCell(e)
    case Some(c) => if c.bin == b && c.mj == m && 0 <= k < Replicas then e.weights[k] else 0.0
    case None => 0.0
  }

  /** The value of `sums[b][m][k]` after a pass over `events`, starting from zero. */
  function YieldSum(events: seq<Event>, b: int, m: int, k: int): (sum: real)
    ensures (forall i :: 0 <= i < |events| ==> !Reaches(events[i], b, m)) ==> sum == 0.0
    decreases |events|
  {
    if events == [] then 0.0
    else YieldSum(events[..|events| - 1], b, m, k) + Contribution(events[|events| - 1], b, m, k)
  }

  /** The 100 sums of one cell after a pass over `events`. */
  function YieldRow(events: seq<Event>, b: int, m: int): (row: seq<real>)
    ensures |row| == Replicas
  {
    seq(Replicas, k => YieldSum(events, b, m, k))
  }

  /** The 100 sums of one cell of the accumulator array. */
  function Row(sums: array3<real>, b: int, m: int): (row: seq<real>)
    requires SumsShape(sums) && 0 <= b < NumBins && 0 <= m < NumMjBins
    reads sums
    ensures |row| == Replicas && forall k :: 0 <= k < Replicas ==> row[k] == sums[b, m, k]
  {
    seq(Replicas, k requires 0 <= k < Replicas reads sums => sums[b, m, k])
  }

  /** The envelope of a cell's 100 sums, as a value. */
  function EnvelopeOf(sums: seq<real>): (env: Envelope)
    requires |sums| == Replicas
    ensures env.nominal == 1.0 && |env.replicas| == Replicas
    ensures ScalesBack(env, LowOf(sums), HighOf(sums), sums, Divisor(sums[0]))
  {
    Normalised(LowOf(sums), HighOf(sums), sums, Divisor(sums[0]))
  }

  /** Body of the event loop for one event: add its first 100 weights to its cell. */
  method AddEvent(sums: array3<real>, e: Event)
    requires SumsShape(sums)
    modifies sums
    ensures forall b, m, k :: 0 <= b < NumBins && 0 <= m < NumMjBins && 0 <= k < Replicas ==>
              sums[b, m, k] == old(sums[b, m, k]) + Contribution(e, b, m, k)
  {
    if |e.weights| == 0 || e.nleps != 1 {
      return;
    }
    var binNum := BinNumber(e.njets, e.nbm);
    if binNum == -1 {
      return;
    }
    var bIdx := GetIdx(binNum);
    assert bIdx != -1;  // the script's `if (bIdx == -1) continue;` cannot fire
    var mIdx := MjBinIndex(e.mj12);
    if mIdx == -1 {
      return;
    }
    if |e.weights| >= Replicas {
      for k := 0 to Replicas
        invariant forall b, m, j :: 0 <= b < NumBins && 0 <= m < NumMjBins && 0 <= j < Replicas ==>
                    sums[b, m, j] == old(sums[b, m, j]) + (if b == bIdx && m == mIdx && j < k then e.weights[j] else 0.0)
      {
        sums[bIdx, mIdx, k] := sums[bIdx, mIdx, k] + e.weights[k];
      }
    }
  }

  /** Step 1, the event loop: every cell ends up holding its yield sum. */
  method Accumulate(events: seq<Event>) returns (sums: array3<real>)
    ensures fresh(sums) && SumsShape(sums)
    ensures forall b, m, k :: 0 <= b < NumBins && 0 <= m < NumMjBins && 0 <= k < Replicas ==>
              sums[b, m, k] == YieldSum(events, b, m, k)
  {
    sums := new real[NumBins, NumMjBins, Replicas]((b, m, k) => 0.0);
    for i := 0 to |events|
      invariant forall b, m, k :: 0 <= b < NumBins && 0 <= m < NumMjBins && 0 <= k < Replicas ==>
                  sums[b, m, k] == YieldSum(events[..i], b, m, k)
    {
      assert events[..i + 1][..i] == events[..i];
      AddEvent(sums, events[i]);
    }
    assert events[..|events|] == events;
  }

  /** Step 2 for one (bin, mj) cell: copy the sums, take ratios in unsorted order, sort the copy,
      and read the 16th and 84th smallest sums. */
  method CellEnvelope(sums: array3<real>, b: nat, m: nat) returns (env: Envelope)
    requires SumsShape(sums) && b < NumBins && m < NumMjBins
    ensures env == EnvelopeOf(Row(sums, b, m))
    ensures Divisor(sums[b, m, 0]) > 0.0 ==> env.low <= env.high
  {
    var current := new real[Replicas](k requires 0 <= k < Replicas reads sums => sums[b, m, k]);
    ghost var row := Row(sums, b, m);
    assert current[..] == row;
    var nomSum := current[0];
    if nomSum == 0.0 {
      nomSum := 1.0;
    }
    var ratios := Ratios(current, nomSum);
    assert ratios == seq(Replicas, k requires 0 <= k < Replicas => row[k] / nomSum);
    SortInPlace(current);
    var low, high := current[LowIndex], current[HighIndex];
    assert low == LowOf(row) && high == HighOf(row);
    if nomSum > 0.0 {
      DivMonotone(low, high, nomSum);
    }
    env := Envelope(1.0, low / nomSum, high / nomSum, ratios);
  }

  /** The ratio of every entry to the divisor, in unsorted order (the cyan replica lines). */
  method Ratios(current: array<real>, nomSum: real) returns (ratios: seq<real>)
    requires nomSum != 0.0
    ensures |ratios| == current.Length
    ensures forall k :: 0 <= k < current.Length ==> ratios[k] == current[k] / nomSum
  {
    ratios := [];
    for k := 0 to current.Length
      invariant |ratios| == k
      invariant forall j :: 0 <= j < k ==> ratios[j] == current[j] / nomSum
    {
      ratios := ratios + [current[k] / nomSum];
    }
  }

  /** Step 2 for one physical bin: the envelope of each of its three mj cells. */
  method BinEnvelopes(sums: array3<real>, b: nat) returns (envs: seq<Envelope>)
    requires SumsShape(sums) && b < NumBins
    ensures |envs| == NumMjBins
    ensures forall m :: 0 <= m < NumMjBins ==> envs[m] == EnvelopeOf(Row(sums, b, m))
  {
    envs := [];
    for m := 0 to NumMjBins
      invariant |envs| == m
      invariant forall j :: 0 <= j < m ==> envs[j] == EnvelopeOf(Row(sums, b, j))
    {
      var env := CellEnvelope(sums, b, m);
      envs := envs + [env];
    }
  }

  /** The three envelopes of one physical bin after a pass over `events`. */
  function BinEnvelopesOf(events: seq<Event>, b: int): (envs: seq<Envelope>)
    ensures |envs| == NumMjBins
  {
    seq(NumMjBins, m => EnvelopeOf(YieldRow(events, b, m)))
  }

  /** The whole computation: accumulate, then the envelope of every (bin, mj) cell. */
  method Run(events: seq<Event>) returns (envs: seq<seq<Envelope>>)
    ensures |envs| == NumBins
    ensures forall b :: 0 <= b < NumBins ==> envs[b] == BinEnvelopesOf(events, b)
  {
    var sums := Accumulate(events);
    envs := [];
    for b := 0 to NumBins
      invariant EnvelopesUpTo(envs, events, b)
      invariant HoldsYields(sums, events)
    {
      assert 1 <= PadNumber(BinNumbers[b]) <= 15;  // the script's pad-range skip cannot fire
      var bin := BinEnvelopes(sums, b);
      BinMatchesYields(sums, events, b, bin);
      EnvelopesStep(envs, events, b, bin);
      envs := envs + [bin];
    }
  }

  /** The state of the step-2 loop before bin `b`: the envelopes of the bins below it. */
  ghost predicate EnvelopesUpTo(envs: seq<seq<Envelope>>, events: seq<Event>, b: nat) {
    |envs| == b && forall i :: 0 <= i < b ==> envs[i] == BinEnvelopesOf(events, i)
  }

  lemma EnvelopesStep(envs: seq<seq<Envelope>>, events: seq<Event>, b: nat, bin: seq<Envelope>)
    requires EnvelopesUpTo(envs, events, b) && bin == BinEnvelopesOf(events, b)
    ensures EnvelopesUpTo(envs + [bin], events, b + 1)
  {
    var next := envs + [bin];
    forall i | 0 <= i < b + 1
      ensures next[i] == BinEnvelopesOf(events, i)
    {
      if i < b {
        assert next[i] == envs[i];
      }
    }
  }

  /** The accumulator holds the yield sums of `events`. */
  ghost predicate HoldsYields(sums: array3<real>, events: seq<Event>)
    reads sums
  {
    && SumsShape(sums)
    && forall i, m, k :: 0 <= i < NumBins && 0 <= m < NumMjBins && 0 <= k < Replicas ==>
         sums[i, m, k] == YieldSum(events, i, m, k)
  }

  /** The envelopes computed from an accumulator holding the yield sums are those of the yields. */
  lemma BinMatchesYields(sums: array3<real>, events: seq<Event>, b: nat, bin: seq<Envelope>)
    requires HoldsYields(sums, events) && b < NumBins
    requires |bin| == NumMjBins && forall m :: 0 <= m < NumMjBins ==> bin[m] == EnvelopeOf(Row(sums, b, m))
    ensures bin == BinEnvelopesOf(events, b)
  {
    forall m | 0 <= m < NumMjBins
      ensures bin[m] == BinEnvelopesOf(events, b)[m]
    {
      assert Row(sums, b, m) == YieldRow(events, b, m);
    }
  }

  /** Accumulation is associative: a pass over `a + c` gives the element-wise sum of the passes
      over `a` and over `c`, so the event stream may be sharded. */
  lemma {:induction false} YieldSumConcat(a: seq<Event>, c: seq<Event>, b: int, m: int, k: int)
    ensures YieldSum(a + c, b, m, k) == YieldSum(a, b, m, k) + YieldSum(c, b, m, k)
    decreases |c|
  {
    if c == [] {
      assert a + c == a;
    } else {
      var n := |c| - 1;
      assert (a + c)[..|a + c| - 1] == a + c[..n];
      assert (a + c)[|a + c| - 1] == c[n];
      YieldSumConcat(a, c[..n], b, m, k);
    }
  }

  /** An accepted event adds `weight[k]` to its own cell for k in 0..99 and changes no other cell;
      a skipped event changes nothing. */
  lemma EventStep(events: seq<Event>, e: Event, b: nat, m: nat, k: int)
    requires 0 <= k < Replicas
    ensures EventCell(e) == Some(Cell(b, m)) ==>
              YieldSum(events + [e], b, m, k) == YieldSum(events, b, m, k) + e.weights[k]
    ensures EventCell(e) != Some(Cell(b, m)) ==>
              YieldSum(events + [e], b, m, k) == YieldSum(events, b, m, k)
  {
    assert (events + [e])[..|events|] == events;
  }

  /** low <= high whenever the divisor is positive. */
  lemma EnvelopeOrdered(sums: seq<real>)
    requires |sums| == Replicas
    ensures Divisor(sums[0]) > 0.0 ==> EnvelopeOf(sums).low <= EnvelopeOf(sums).high
  {
    OrderStatistics(sums);
    if Divisor(sums[0]) > 0.0 {
      DivMonotone(LowOf(sums), HighOf(sums), Divisor(sums[0]));
    }
  }

  /** Both bounds are ratios of the cell itself: each equals one of the 100 replica ratios. */
  lemma EnvelopeBoundsAreRatios(sums: seq<real>)
    requires |sums| == Replicas
    ensures EnvelopeOf(sums).low in EnvelopeOf(sums).replicas
    ensures EnvelopeOf(sums).high in EnvelopeOf(sums).replicas
  {
    OrderStatistics(sums);
    var env := EnvelopeOf(sums);
    var i :| 0 <= i < |sums| && sums[i] == LowOf(sums);
    assert env.replicas[i] == env.low;
    var j :| 0 <= j < |sums| && sums[j] == HighOf(sums);
    assert env.replicas[j] == env.high;
  }

  /** For 100 sums already in ascending order the bounds are the 16th and 84th of them. */
  lemma EnvelopeOfAscending(sums: seq<real>)
    requires |sums| == Replicas && Sorted(sums)
    ensures EnvelopeOf(sums).low == sums[LowIndex] / Divisor(sums[0])
    ensures EnvelopeOf(sums).high == sums[HighIndex] / Divisor(sums[0])
  {
    SortedSeqOfSorted(sums);
  }

  /** Sums 1, 2, ..., 100: low is 16 and high is 84 (nominal sum 1, so the divisor is 1). */
  lemma EnvelopeOfOneToHundred()
    ensures var sums := seq(Replicas, k => (k + 1) as real);
            EnvelopeOf(sums).low == 16.0 && EnvelopeOf(sums).high == 84.0
  {
    var sums := seq(Replicas, k => (k + 1) as real);
    assert Sorted(sums);
    EnvelopeOfAscending(sums);
  }

  /** A cell no accepted event reached has all sums zero: nominal 1, every ratio and both bounds 0. */
  lemma EmptyCellEnvelope(sums: seq<real>)
    requires |sums| == Replicas && forall k :: 0 <= k < Replicas ==> sums[k] == 0.0
    ensures EnvelopeOf(sums) == Envelope(1.0, 0.0, 0.0, seq(Replicas, k => 0.0))
  {
    assert Sorted(sums);
    EnvelopeOfAscending(sums);
    assert EnvelopeOf(sums).replicas == seq(Replicas, k => 0.0);
  }

  /** A cell that no event of the pass reaches gets nominal 1 and zero bounds and ratios. */
  lemma UntouchedCellEnvelope(events: seq<Event>, b: int, m: int)
    requires forall i :: 0 <= i < |events| ==> !Reaches(events[i], b, m)
    ensures EnvelopeOf(YieldRow(events, b, m)) == Envelope(1.0, 0.0, 0.0, seq(Replicas, k => 0.0))
  {
    EmptyCellEnvelope(YieldRow(events, b, m));
  }

  /** One single-lepton event with 6 jets, 2 b-tags, `mj12` = 600 and 100 weights equal to 10 lands
      in bin 29 (index 7), mj cell 0, each sum is 10 and the envelope is identically 1. */
  lemma SingleEventScenario(e: Event)
    requires e.nleps == 1 && e.njets == 6 && e.nbm == 2 && e.mj12 == 600.0
    requires |e.weights| == Replicas && forall k :: 0 <= k < Replicas ==> e.weights[k] == 10.0
    ensures EnvelopeOf(YieldRow([e], 7, 0)) == Envelope(1.0, 1.0, 1.0, seq(Replicas, k => 1.0))
  {
    SingleEventCell(e);
    SingleEventEnvelope(e, 7, 0, 10.0);
  }

  /** A pass over one accepted event whose 100 weights all equal a nonzero `c` gives its cell an
      envelope identically 1. */
  lemma SingleEventEnvelope(e: Event, b: nat, m: nat, c: real)
    requires EventCell(e) == Some(Cell(b, m)) && c != 0.0
    requires forall k :: 0 <= k < Replicas ==> e.weights[k] == c
    ensures EnvelopeOf(YieldRow([e], b, m)) == Envelope(1.0, 1.0, 1.0, seq(Replicas, k => 1.0))
  {
    SingleEventRow(e, b, m);
    ConstantCellEnvelope(e.weights[..Replicas], c);
  }

  /** The event of the scenario above lands in bin 29 (index 7), mj cell 0. */
  lemma SingleEventCell(e: Event)
    requires e.nleps == 1 && e.njets == 6 && e.nbm == 2 && e.mj12 == 600.0 && |e.weights| == Replicas
    ensures EventCell(e) == Some(Cell(7, 0))
  {
    assert BinNumber(6, 2) == 29 == BinNumbers[7];
    BinIndexRoundTrip(7);
  }

  /** After a pass over a single accepted event, its cell holds exactly its weights. */
  lemma SingleEventRow(e: Event, b: nat, m: nat)
    requires EventCell(e) == Some(Cell(b, m))
    ensures YieldRow([e], b, m) == e.weights[..Replicas]
  {
    forall k | 0 <= k < Replicas
      ensures YieldRow([e], b, m)[k] == e.weights[k]
    {
      EventStep([], e, b, m, k);
      assert [] + [e] == [e];
    }
  }

  /** A cell whose 100 sums are all the same nonzero value has every ratio and both bounds 1. */
  lemma ConstantCellEnvelope(sums: seq<real>, c: real)
    requires c != 0.0 && |sums| == Replicas && forall k :: 0 <= k < Replicas ==> sums[k] == c
    ensures EnvelopeOf(sums) == Envelope(1.0, 1.0, 1.0, seq(Replicas, k => 1.0))
  {
    assert Sorted(sums);
    EnvelopeOfAscending(sums);
    assert Divisor(sums[0]) == c;
    DivSelf(c);
    assert forall k :: 0 <= k < Replicas ==> EnvelopeOf(sums).replicas[k] == c / c;
    assert EnvelopeOf(sums).replicas == seq(Replicas, k => 1.0);
  }

  /** Events that are not single-lepton contribute to no cell. */
  lemma NonSingleLeptonIgnored(events: seq<Event>, e: Event, b: int, m: int, k: int)
    requires e.nleps != 1
    ensures YieldSum(events + [e], b, m, k) == YieldSum(events, b, m, k)
  {
    assert (events + [e])[..|events|] == events;
  }
}
