/** The yield-sum ("CG") strategy without sub-binning, as in plot_pdf_variations_CG_v3.cpp: per bin,
    a row of sums where entry 0 is the nominal and entries 1..100 are the replicas; the 100 replica
    sums are sorted for the envelope, and a last pass divides everything by the nominal sum.

    As written, each row has only 100 entries while both loops run to index 100; the members
    named `...AsWritten` exhibit what the script then does. The rest of the module is the corrected
    pipeline with 101-entry rows. */
module CgV3 {
  import opened Events
  import opened Classifier
  import opened Order
  import opened Envelopes

  /** Number of replicas (`weight` entries 1..100). */
  const Replicas: nat := 100
  /** The last index both loops visit (`k <= 100`). */
  const LastIndex: nat := 100
  /** Row size of `bin_replica_sums` as written: 100 entries. */
  const AsWrittenSlots: nat := 100
  /** The guard on the weight count as written: at least 100 entries. */
  const AsWrittenMinWeights: nat := 100
  /** Corrected row size and weight-count guard: the nominal plus 100 replicas. */
  const Slots: nat := 101

  /** How an out-of-range access ends: `vector::at` throws `std::out_of_range` on the weight
      vector; `operator[]` past the end of a sums row is undefined behaviour. */
  datatype Fault = WeightOutOfRange(index: nat) | SumOutOfRange(index: nat)

  /** The inner accumulation loop as written, for an event that passed the size guard, with each
      access checked: it never completes. With exactly 100 weights `at(100)` throws; with more,
      the write to `bin_replica_sums[bIdx][100]` is past the end of the row. */
  method AccumulateEventAsWritten(sums: array2<real>, bIdx: nat, weights: seq<real>) returns (fault: Option<Fault>)
    requires sums.Length0 == NumBins && sums.Length1 == AsWrittenSlots && bIdx < NumBins
    requires |weights| >= AsWrittenMinWeights
    modifies sums
    ensures fault == Some(if |weights| == AsWrittenMinWeights then WeightOutOfRange(LastIndex) else SumOutOfRange(LastIndex))
  {
    fault := None;
    var k := 0;
    while k <= LastIndex && fault == None
      invariant 0 <= k <= LastIndex
      invariant fault != None ==>
                  k == LastIndex &&
                  fault == Some(if |weights| == AsWrittenMinWeights then WeightOutOfRange(LastIndex) else SumOutOfRange(LastIndex))
      decreases LastIndex - k, if fault == None then 1 else 0
    {
      if k >= |weights| {
        fault := Some(WeightOutOfRange(k));
      } else if k >= sums.Length1 {
        fault := Some(SumOutOfRange(k));
      } else {
        sums[bIdx, k] := sums[bIdx, k] + weights[k];
        k := k + 1;
      }
    }
  }

  /** The replica-collection loop as written, with each access checked: it reads entries 1..99
      and then faults reading entry 100 of a 100-entry row, whatever the data. */
  method ReplicaYieldsAsWritten(sums: array2<real>, b: nat) returns (fault: Option<Fault>, collected: seq<real>)
    requires sums.Length0 == NumBins && sums.Length1 == AsWrittenSlots && b < NumBins
    ensures fault == Some(SumOutOfRange(LastIndex))
    ensures |collected| == Replicas - 1
    ensures forall k :: 0 <= k < |collected| ==> collected[k] == sums[b, k + 1]
  {
    fault := None;
    collected := [];
    var k := 1;
    while k <= LastIndex && fault == None
      invariant 1 <= k <= LastIndex
      invariant |collected| == k - 1
      invariant forall j :: 0 <= j < |collected| ==> collected[j] == sums[b, j + 1]
      invariant fault != None ==> k == LastIndex && fault == Some(SumOutOfRange(LastIndex))
      decreases LastIndex - k, if fault == None then 1 else 0
    {
      if k >= sums.Length1 {
        fault := Some(SumOutOfRange(k));
      } else {
        collected := collected + [sums[b, k]];
        k := k + 1;
      }
    }
  }

  /** The accumulator shape, corrected: `nBins` rows of 101 sums. */
  predicate SumsShape(sums: array2<real>) {
    sums.Length0 == NumBins && sums.Length1 == Slots
  }

  /** The bin index an event's weights are added to, or None when the event loop skips it. */
  function EventBin(e: Event): (r: Option<nat>)
    ensures r.None? <==> e.nleps != 1 || |e.weights| < Slots || BinNumber(e.njets, e.nbm) == -1
    ensures r.Some? ==> r.value < NumBins && BinNumbers[r.value] == BinNumber(e.njets, e.nbm)
  {
    if |e.weights| == 0 || e.nleps != 1 then None
    else
      var binNum := BinNumber(e.njets, e.nbm);
      if binNum == -1 then None
      else if |e.weights| >= Slots then Some(BinIndex(binNum))
      else None
  }

  /** Whether the event loop adds `e`'s weights to row `b`. */
  predicate ReachesBin(e: Event, b: int) {
    EventBin(e).Some? && EventBin(e).value == b
  }

  /** What one event adds to `sums[b][k]`: its weight k in its own row, nothing elsewhere. */
  function Contribution(e: Event, b: int, k: int): (r: real)
    ensures ReachesBin(e, b) && 0 <= k < Slots ==> r == e.weights[k]
    ensures r != 0.0 ==> ReachesBin(e, b) && 0 <= k < Slots
  {
    match EventBin(e)
    case Some(i) => if i == b && 0 <= k < Slots then e.weights[k] else 0.0
    case None => 0.0
  }

  /** The value of `sums[b][k]` after a pass over `events`, starting from zero. */
  function YieldSum(events: seq<Event>, b: int, k: int): (sum: real)
    ensures (forall i :: 0 <= i < |events| ==> !ReachesBin(events[i], b)) ==> sum == 0.0
    decreases |events|
  {
    if events == [] then 0.0
    else YieldSum(events[..|events| - 1], b, k) + Contribution(events[|events| - 1], b, k)
  }

  /** The 101 sums of bin `b` after a pass over `events`. */
  function YieldRow(events: seq<Event>, b: int): (row: seq<real>)
    ensures |row| == Slots
  {
    seq(Slots, k => YieldSum(events, b, k))
  }

  /** Row `b` of the accumulator array. */
  function Row(sums: array2<real>, b: int): (row: seq<real>)
    requires SumsShape(sums) && 0 <= b < NumBins
    reads sums
    ensures |row| == Slots && forall k :: 0 <= k < Slots ==> row[k] == sums[b, k]
  {
    seq(Slots, k requires 0 <= k < Slots reads sums => sums[b, k])
  }

  /** The normalised result of one bin: replica curve k-1 is replica k over the divisor (unsorted),
      and the bounds are the 16th and 84th smallest replica sums over the divisor. */
  function ResultOf(row: seq<real>): (res: Envelope)
    requires |row| == Slots
    ensures res.nominal == 1.0 && |res.replicas| == Replicas
    ensures ScalesBack(res, LowOf(row[1..]), HighOf(row[1..]), row[1..], Divisor(row[0]))
  {
    Normalised(LowOf(row[1..]), HighOf(row[1..]), row[1..], Divisor(row[0]))
  }

  /** Body of the event loop for one event, corrected: add weights 0..100 to its row. */
  method AddEvent(sums: array2<real>, e: Event)
    requires SumsShape(sums)
    modifies sums
    ensures forall b, k :: 0 <= b < NumBins && 0 <= k < Slots ==>
              sums[b, k] == old(sums[b, k]) + Contribution(e, b, k)
  {
    if |e.weights| == 0 || e.nleps != 1 {
      return;
    }
    var binNum := BinNumber(e.njets, e.nbm);
    if binNum == -1 {
      return;
    }
    var bIdx := GetIdx(binNum);
    assert bIdx != -1;  // the `bIdx == -1` skip cannot fire
    if |e.weights| >= Slots {
      for k := 0 to LastIndex + 1
        invariant forall b, j :: 0 <= b < NumBins && 0 <= j < Slots ==>
                    sums[b, j] == old(sums[b, j]) + (if b == bIdx && j < k then e.weights[j] else 0.0)
      {
        sums[bIdx, k] := sums[bIdx, k] + e.weights[k];
      }
    }
  }

  /** Step 1, the event loop: every row ends up holding its bin's yield sums. */
  method Accumulate(events: seq<Event>) returns (sums: array2<real>)
    ensures fresh(sums) && SumsShape(sums)
    ensures forall b, k :: 0 <= b < NumBins && 0 <= k < Slots ==> sums[b, k] == YieldSum(events, b, k)
  {
    sums := new real[NumBins, Slots]((b, k) => 0.0);
    for i := 0 to |events|
      invariant forall b, k :: 0 <= b < NumBins && 0 <= k < Slots ==> sums[b, k] == YieldSum(events[..i], b, k)
    {
      assert events[..i + 1][..i] == events[..i];
      AddEvent(sums, events[i]);
    }
    assert events[..|events|] == events;
  }

  /** Step 2 for one bin: collect the replica sums 1..100 in order, sort them and read the 16th
      and 84th smallest. */
  method BinYields(sums: array2<real>, b: nat) returns (nomSum: real, down: real, up: real, collected: seq<real>)
    requires SumsShape(sums) && b < NumBins
    ensures nomSum == sums[b, 0]
    ensures collected == Row(sums, b)[1..]
    ensures down == LowOf(Row(sums, b)[1..])
    ensures up == HighOf(Row(sums, b)[1..])
    ensures down <= up
  {
    nomSum := sums[b, 0];
    collected := [];
    for k := 1 to LastIndex + 1
      invariant |collected| == k - 1
      invariant forall j :: 0 <= j < |collected| ==> collected[j] == sums[b, j + 1]
    {
      collected := collected + [sums[b, k]];
    }
    assert collected == Row(sums, b)[1..];
    var sorted := new real[Replicas](i requires 0 <= i < Replicas => collected[i]);
    assert sorted[..] == collected;
    SortInPlace(sorted);
    down, up := sorted[LowIndex], sorted[HighIndex];
  }

  /** Step 2 for all bins: the nominal, down and up collected per bin and the raw replica curves
      (`reps[k, b]` is replica k+1 of bin b). */
  method Process(sums: array2<real>) returns (nom: array<real>, down: array<real>, up: array<real>, reps: array2<real>)
    requires SumsShape(sums)
    ensures fresh(nom) && fresh(down) && fresh(up) && fresh(reps)
    ensures nom != down && nom != up && down != up
    ensures nom.Length == NumBins && down.Length == NumBins && up.Length == NumBins
    ensures reps.Length0 == Replicas && reps.Length1 == NumBins
    ensures forall b :: 0 <= b < NumBins ==>
              && nom[b] == sums[b, 0]
              && down[b] == LowOf(Row(sums, b)[1..])
              && up[b] == HighOf(Row(sums, b)[1..])
    ensures forall k, b :: 0 <= k < Replicas && 0 <= b < NumBins ==> reps[k, b] == sums[b, k + 1]
  {
    nom := new real[NumBins];
    down := new real[NumBins];
    up := new real[NumBins];
    reps := new real[Replicas, NumBins];
    ghost var rows := seq(NumBins, i requires 0 <= i < NumBins reads sums => Row(sums, i));
    assert Shaped(rows, nom, down, up, reps);
    for b := 0 to NumBins
      invariant ProcessedUpTo(rows, b, nom, down, up, reps)
    {
      ProcessBin(sums, b, rows, nom, down, up, reps);
    }
    assert forall i :: 0 <= i < NumBins ==> rows[i] == Row(sums, i);
  }

  /** The sizes the step-2 loop works with: one row of 101 sums per bin, 14-entry summaries and
      100 x 14 replica curves. */
  ghost predicate Shaped(rows: seq<seq<real>>, nom: array<real>, down: array<real>, up: array<real>, reps: array2<real>) {
    && |rows| == NumBins
    && (forall i :: 0 <= i < NumBins ==> |rows[i]| == Slots)
    && nom.Length == NumBins && down.Length == NumBins && up.Length == NumBins
    && reps.Length0 == Replicas && reps.Length1 == NumBins
    && nom != down && nom != up && down != up
  }

  /** The state of the step-2 loop before bin `b`, against the rows it reads: bins below `b`
      have their summaries and replica column filled in. */
  ghost predicate ProcessedUpTo(rows: seq<seq<real>>, b: nat, nom: array<real>, down: array<real>, up: array<real>, reps: array2<real>)
    requires Shaped(rows, nom, down, up, reps) && b <= NumBins
    reads nom, down, up, reps
  {
    && (forall i :: 0 <= i < b ==> nom[i] == rows[i][0] && down[i] == LowOf(rows[i][1..]) && up[i] == HighOf(rows[i][1..]))
    && (forall k, i :: 0 <= k < Replicas && 0 <= i < b ==> reps[k, i] == rows[i][k + 1])
  }

  /** One iteration of the step-2 loop: fills entry `b` of the three summaries and column `b` of
      the replica curves, and nothing else. */
  method ProcessBin(sums: array2<real>, b: nat, ghost rows: seq<seq<real>>, nom: array<real>, down: array<real>, up: array<real>, reps: array2<real>)
    requires SumsShape(sums) && b < NumBins && reps != sums && Shaped(rows, nom, down, up, reps)
    requires ProcessedUpTo(rows, b, nom, down, up, reps) && rows[b] == Row(sums, b)
    modifies nom, down, up, reps
    ensures ProcessedUpTo(rows, b + 1, nom, down, up, reps)
  {
    var n, d, u, collected := BinYields(sums, b);
    FillColumn(reps, b, collected);
    nom[b], down[b], up[b] := n, d, u;
  }

  /** Writes `col` into column `b` of `reps`, leaving the other columns alone. */
  method FillColumn(reps: array2<real>, b: nat, col: seq<real>)
    requires b < reps.Length1 && |col| == reps.Length0
    modifies reps
    ensures forall k, i :: 0 <= k < reps.Length0 && 0 <= i < reps.Length1 ==>
              reps[k, i] == if i == b then col[k] else old(reps[k, i])
  {
    for k := 0 to reps.Length0
      invariant forall j, i :: 0 <= j < reps.Length0 && 0 <= i < reps.Length1 ==>
                  reps[j, i] == if i == b && j < k then col[j] else old(reps[j, i])
    {
      reps[k, b] := col[k];
    }
  }

  /** Step 3: nominal becomes 1.0, and down, up and every replica curve are divided by the
      nominal yield, or by 1.0 when it is zero. */
  method Normalise(nom: array<real>, down: array<real>, up: array<real>, reps: array2<real>)
    requires nom.Length == NumBins && down.Length == NumBins && up.Length == NumBins
    requires reps.Length0 == Replicas && reps.Length1 == NumBins
    requires nom != down && nom != up && down != up
    modifies nom, down, up, reps
    ensures forall b :: 0 <= b < NumBins ==>
              && nom[b] == 1.0
              && down[b] == old(down[b]) / Divisor(old(nom[b]))
              && up[b] == old(up[b]) / Divisor(old(nom[b]))
    ensures forall k, b :: 0 <= k < Replicas && 0 <= b < NumBins ==>
              reps[k, b] == old(reps[k, b]) / Divisor(old(nom[b]))
  {
    for b := 0 to NumBins
      invariant forall i :: 0 <= i < b ==>
                  && nom[i] == 1.0
                  && down[i] == old(down[i]) / Divisor(old(nom[i]))
                  && up[i] == old(up[i]) / Divisor(old(nom[i]))
      invariant forall i :: b <= i < NumBins ==> nom[i] == old(nom[i]) && down[i] == old(down[i]) && up[i] == old(up[i])
      invariant forall k, i :: 0 <= k < Replicas && 0 <= i < b ==> reps[k, i] == old(reps[k, i]) / Divisor(old(nom[i]))
      invariant forall k, i :: 0 <= k < Replicas && b <= i < NumBins ==> reps[k, i] == old(reps[k, i])
    {
      var nomVal := nom[b];
      if nomVal == 0.0 {
        nomVal := 1.0;
      }
      nom[b] := 1.0;
      up[b] := up[b] / nomVal;
      down[b] := down[b] / nomVal;
      ScaleColumn(reps, b, nomVal);
    }
  }

  /** Divides column `b` of `reps` by `d`, leaving the other columns alone. */
  method ScaleColumn(reps: array2<real>, b: nat, d: real)
    requires b < reps.Length1 && d != 0.0
    modifies reps
    ensures forall k, i :: 0 <= k < reps.Length0 && 0 <= i < reps.Length1 ==>
              reps[k, i] == if i == b then old(reps[k, i]) / d else old(reps[k, i])
  {
    for k := 0 to reps.Length0
      invariant forall j, i :: 0 <= j < reps.Length0 && 0 <= i < reps.Length1 ==>
                  reps[j, i] == if i == b && j < k then old(reps[j, i]) / d else old(reps[j, i])
    {
      reps[k, b] := reps[k, b] / d;
    }
  }

  /** The corrected script end to end: the results of every bin are those of `ResultOf` on the
      bin's yield sums. */
  method Run(events: seq<Event>) returns (nom: array<real>, down: array<real>, up: array<real>, reps: array2<real>)
    ensures nom.Length == NumBins && down.Length == NumBins && up.Length == NumBins
    ensures reps.Length0 == Replicas && reps.Length1 == NumBins
    ensures forall b :: 0 <= b < NumBins ==>
              && nom[b] == ResultOf(YieldRow(events, b)).nominal
              && down[b] == ResultOf(YieldRow(events, b)).low
              && up[b] == ResultOf(YieldRow(events, b)).high
    ensures forall k, b :: 0 <= k < Replicas && 0 <= b < NumBins ==>
              reps[k, b] == ResultOf(YieldRow(events, b)).replicas[k]
  {
    var sums := Accumulate(events);
    nom, down, up, reps := Process(sums);
    RowsAreYieldRows(sums, events);
    Normalise(nom, down, up, reps);
  }

  lemma RowsAreYieldRows(sums: array2<real>, events: seq<Event>)
    requires SumsShape(sums)
    requires forall b, k :: 0 <= b < NumBins && 0 <= k < Slots ==> sums[b, k] == YieldSum(events, b, k)
    ensures forall b :: 0 <= b < NumBins ==> Row(sums, b) == YieldRow(events, b)
  {
    forall b | 0 <= b < NumBins
      ensures Row(sums, b) == YieldRow(events, b)
    {
      assert forall k :: 0 <= k < Slots ==> Row(sums, b)[k] == YieldRow(events, b)[k];
    }
  }

  /** down <= up whenever the divisor is positive. */
  lemma ResultOrdered(row: seq<real>)
    requires |row| == Slots
    ensures Divisor(row[0]) > 0.0 ==> ResultOf(row).low <= ResultOf(row).high
  {
    OrderStatistics(row[1..]);
    if Divisor(row[0]) > 0.0 {
      DivMonotone(LowOf(row[1..]), HighOf(row[1..]), Divisor(row[0]));
    }
  }

  /** Both bounds equal one of the bin's 100 replica ratios. */
  lemma ResultBoundsAreRatios(row: seq<real>)
    requires |row| == Slots
    ensures ResultOf(row).low in ResultOf(row).replicas
    ensures ResultOf(row).high in ResultOf(row).replicas
  {
    var reps := row[1..];
    OrderStatistics(reps);
    var res := ResultOf(row);
    var i :| 0 <= i < |reps| && reps[i] == LowOf(reps);
    assert res.replicas[i] == res.low;
    var j :| 0 <= j < |reps| && reps[j] == HighOf(reps);
    assert res.replicas[j] == res.high;
  }

  /** A bin no accepted event reached still gets a result: nominal 1.0, everything else 0. */
  lemma EmptyBinResult(row: seq<real>)
    requires |row| == Slots && forall k :: 0 <= k < Slots ==> row[k] == 0.0
    ensures ResultOf(row) == Envelope(1.0, 0.0, 0.0, seq(Replicas, k => 0.0))
  {
    assert Sorted(row[1..]);
    SortedSeqOfSorted(row[1..]);
    assert ResultOf(row).replicas == seq(Replicas, k => 0.0);
  }

  /** A bin that no event of the pass reaches gets nominal 1.0 and every other value 0. */
  lemma UntouchedBinResult(events: seq<Event>, b: int)
    requires forall i :: 0 <= i < |events| ==> !ReachesBin(events[i], b)
    ensures ResultOf(YieldRow(events, b)) == Envelope(1.0, 0.0, 0.0, seq(Replicas, k => 0.0))
  {
    EmptyBinResult(YieldRow(events, b));
  }

  /** Events that are not single-lepton contribute to no row. */
  lemma NonSingleLeptonIgnored(events: seq<Event>, e: Event, b: int, k: int)
    requires e.nleps != 1
    ensures YieldSum(events + [e], b, k) == YieldSum(events, b, k)
  {
    assert (events + [e])[..|events|] == events;
  }
}
