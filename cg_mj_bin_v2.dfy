/** plot_pdf_variations_CG_mj_bin_v2.cpp runs the same classifier, accumulation and envelope as the
    v3 script (only names and drawing differ), so its steps are the CgMjBin ones. */
module CgMjBinV2 {
  import opened Events
  import opened Classifier
  import opened Envelopes
  import CgMjBin

  /** The event loop filling `data[bIdx][mIdx][k]`. */
  method Accumulate(events: seq<Event>) returns (data: array3<real>)
    ensures fresh(data) && CgMjBin.SumsShape(data)
    ensures forall b, m, k :: 0 <= b < NumBins && 0 <= m < NumMjBins && 0 <= k < CgMjBin.Replicas ==>
              data[b, m, k] == CgMjBin.YieldSum(events, b, m, k)
  {
    data := CgMjBin.Accumulate(events);
  }

  /** One (bin, mj) cell: `replicas` is a copy of the 100 sums, sorted after the ratios are taken. */
  method CellEnvelope(data: array3<real>, b: nat, m: nat) returns (env: Envelope)
    requires CgMjBin.SumsShape(data) && b < NumBins && m < NumMjBins
    ensures env == CgMjBin.EnvelopeOf(CgMjBin.Row(data, b, m))
    ensures Divisor(data[b, m, 0]) > 0.0 ==> env.low <= env.high
  {
    env := CgMjBin.CellEnvelope(data, b, m);
  }

  /** Pad 13 (row Nb>=4, column 4-5 jets) stays empty: no bin id has it, and the events of that
      category are drawn on bin 31's pad 10. */
  lemma PadThirteenUnused(njets: int, nbm: int)
    ensures forall i :: 0 <= i < NumBins ==> PadNumber(BinNumbers[i]) != 13
    ensures 4 <= njets <= 5 && nbm >= 4 ==> PadNumber(BinNumber(njets, nbm)) == 10
  {
  }
}
