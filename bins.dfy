/** The per-bin value lists of the BJ scripts (`bin_data`) and their dynamic display range: each
    accepted event appends its payload to the list of its own bin, the running `y_min`/`y_max`
    start at +1e9/-1e9, and an inverted range afterwards means nothing was stored. The two scripts
    differ only in which events they accept and what they append, so both are parameters here. */
module Bins {
  import opened Events
  import opened Classifier
  import opened Order

  /** Start value of the running `y_min`. */
  const MinSentinel: real := 1.0e9
  /** Start value of the running `y_max`. */
  const MaxSentinel: real := -1.0e9

  /** The bin lists after a pass over `events`: `accept` gives the table index of an event's bin
      (None when the loop skips it) and `payload` the values it appends. */
  function BinLists(events: seq<Event>, accept: Event -> Option<nat>, payload: Event -> seq<real>): (bins: seq<seq<real>>)
    ensures |bins| == NumBins
    decreases |events|
  {
    if events == [] then EmptyLists(NumBins)
    else
      var prev := BinLists(events[..|events| - 1], accept, payload);
      var e := events[|events| - 1];
      match accept(e)
      case Some(b) => if b < NumBins then prev[b := prev[b] + payload(e)] else prev
      case None => prev
  }

  /** `n` empty lists, as `bin_data(nBins)` starts. */
  function EmptyLists(n: nat): (bins: seq<seq<real>>)
    ensures |bins| == n && forall b :: 0 <= b < n ==> bins[b] == []
  {
    seq(n, b => [])
  }

  /** The loop step for an accepted event: its payload goes to the end of its own list and to
      the values seen. */
  lemma AcceptedStep(events: seq<Event>, i: nat, accept: Event -> Option<nat>, payload: Event -> seq<real>, b: nat)
    requires i < |events| && accept(events[i]) == Some(b) && b < NumBins
    ensures BinLists(events[..i + 1], accept, payload) ==
              BinLists(events[..i], accept, payload)[b := BinLists(events[..i], accept, payload)[b] + payload(events[i])]
    ensures AllValues(events[..i + 1], accept, payload) == AllValues(events[..i], accept, payload) + payload(events[i])
  {
    assert events[..i + 1][..i] == events[..i];
  }

  /** The loop step for a skipped event: nothing changes. */
  lemma SkippedStep(events: seq<Event>, i: nat, accept: Event -> Option<nat>, payload: Event -> seq<real>)
    requires i < |events| && accept(events[i]).None?
    ensures BinLists(events[..i + 1], accept, payload) == BinLists(events[..i], accept, payload)
    ensures AllValues(events[..i + 1], accept, payload) == AllValues(events[..i], accept, payload)
  {
    assert events[..i + 1][..i] == events[..i];
  }

  /** Every stored value in event order, whatever its bin: what the running min and max see. */
  function AllValues(events: seq<Event>, accept: Event -> Option<nat>, payload: Event -> seq<real>): seq<real>
    decreases |events|
  {
    if events == [] then []
    else
      var prev := AllValues(events[..|events| - 1], accept, payload);
      var e := events[|events| - 1];
      match accept(e)
      case Some(b) => if b < NumBins then prev + payload(e) else prev
      case None => prev
  }

  /** Number of events the loop accepts. */
  function AcceptedCount(events: seq<Event>, accept: Event -> Option<nat>): nat
    decreases |events|
  {
    if events == [] then 0
    else AcceptedCount(events[..|events| - 1], accept) + (if accept(events[|events| - 1]).Some? then 1 else 0)
  }

  /** Number of values held across all lists. */
  function TotalLength(bins: seq<seq<real>>): nat
    decreases |bins|
  {
    if bins == [] then 0 else TotalLength(bins[..|bins| - 1]) + |bins[|bins| - 1]|
  }

  /** Appending to one list grows the total by the appended length. */
  lemma {:induction false} TotalLengthAppend(bins: seq<seq<real>>, b: nat, xs: seq<real>)
    requires b < |bins|
    ensures TotalLength(bins[b := bins[b] + xs]) == TotalLength(bins) + |xs|
    decreases |bins|
  {
    var n := |bins|;
    var upd := bins[b := bins[b] + xs];
    assert upd[n - 1] == if b == n - 1 then bins[n - 1] + xs else bins[n - 1];
    if b == n - 1 {
      assert upd[..n - 1] == bins[..n - 1];
    } else {
      assert upd[..n - 1] == bins[..n - 1][b := bins[b] + xs];
      TotalLengthAppend(bins[..n - 1], b, xs);
    }
  }

  lemma {:induction false} TotalLengthOfEmpty(n: nat)
    ensures TotalLength(EmptyLists(n)) == 0
  {
    if n > 0 {
      assert EmptyLists(n)[..n - 1] == EmptyLists(n - 1);
      TotalLengthOfEmpty(n - 1);
    }
  }

  /** The lists together hold exactly as many values as the loop appended; no value is lost or
      duplicated by the per-bin storage. */
  lemma {:induction false} StoredCount(events: seq<Event>, accept: Event -> Option<nat>, payload: Event -> seq<real>)
    ensures TotalLength(BinLists(events, accept, payload)) == |AllValues(events, accept, payload)|
    decreases |events|
  {
    if events == [] {
      TotalLengthOfEmpty(NumBins);
    } else {
      var init := events[..|events| - 1];
      StoredCount(init, accept, payload);
      var e := events[|events| - 1];
      match accept(e)
      case Some(b) =>
        if b < NumBins {
          TotalLengthAppend(BinLists(init, accept, payload), b, payload(e));
        }
      case None =>
    }
  }

  /** The lists one after another, in bin order. */
  function Flatten(bins: seq<seq<real>>): seq<real>
    decreases |bins|
  {
    if bins == [] then [] else Flatten(bins[..|bins| - 1]) + bins[|bins| - 1]
  }

  /** Appending to one list adds the appended values to the flattened multiset. */
  lemma {:induction false} FlattenAppend(bins: seq<seq<real>>, b: nat, xs: seq<real>)
    requires b < |bins|
    ensures multiset(Flatten(bins[b := bins[b] + xs])) == multiset(Flatten(bins)) + multiset(xs)
    decreases |bins|
  {
    var n := |bins|;
    var upd := bins[b := bins[b] + xs];
    if b == n - 1 {
      assert upd[..n - 1] == bins[..n - 1];
      assert Flatten(upd) == Flatten(bins[..n - 1]) + (bins[n - 1] + xs);
    } else {
      assert upd[..n - 1] == bins[..n - 1][b := bins[b] + xs];
      FlattenAppend(bins[..n - 1], b, xs);
      assert Flatten(upd) == Flatten(upd[..n - 1]) + bins[n - 1];
    }
  }

  lemma {:induction false} FlattenOfEmpty(n: nat)
    ensures Flatten(EmptyLists(n)) == []
  {
    if n > 0 {
      assert EmptyLists(n)[..n - 1] == EmptyLists(n - 1);
      FlattenOfEmpty(n - 1);
    }
  }

  /** The lists together hold exactly the values the running min and max saw, each as often as
      it was appended: the per-bin storage loses, invents and duplicates nothing. */
  lemma {:induction false} StoredValues(events: seq<Event>, accept: Event -> Option<nat>, payload: Event -> seq<real>)
    ensures multiset(Flatten(BinLists(events, accept, payload))) == multiset(AllValues(events, accept, payload))
    decreases |events|
  {
    if events == [] {
      FlattenOfEmpty(NumBins);
    } else {
      var init := events[..|events| - 1];
      StoredValues(init, accept, payload);
      var e := events[|events| - 1];
      match accept(e)
      case Some(b) =>
        if b < NumBins {
          FlattenAppend(BinLists(init, accept, payload), b, payload(e));
        }
      case None =>
    }
  }

  /** Every value in a bin's list is one the running min and max saw. */
  lemma {:induction false} BinValueSeen(events: seq<Event>, accept: Event -> Option<nat>, payload: Event -> seq<real>, b: nat, v: real)
    requires b < NumBins && v in BinLists(events, accept, payload)[b]
    ensures v in AllValues(events, accept, payload)
    decreases |events|
  {
    var init := events[..|events| - 1];
    var e := events[|events| - 1];
    var prev := BinLists(init, accept, payload);
    match accept(e)
    case Some(c) =>
      if c < NumBins && c == b && v !in prev[b] {
        assert v in payload(e);
      } else {
        BinValueSeen(init, accept, payload, b, v);
      }
    case None =>
      BinValueSeen(init, accept, payload, b, v);
  }

  /** The range check after the loop: an inverted range means nothing was stored, and the
      default range is used instead. */
  function DisplayRange(yMin: real, yMax: real, defaultLow: real, defaultHigh: real): (r: (real, real))
    requires defaultLow <= defaultHigh
    ensures r.0 <= r.1
    ensures yMin <= yMax ==> r == (yMin, yMax)
    ensures yMin > yMax ==> r == (defaultLow, defaultHigh)
  {
    if yMin > yMax then (defaultLow, defaultHigh) else (yMin, yMax)
  }

  /** With the sentinels, the range comes out inverted exactly when no value was stored. */
  lemma InvertedIffEmpty(yMin: real, yMax: real, vals: seq<real>)
    requires IsBoundedMin(yMin, MinSentinel, vals) && IsBoundedMax(yMax, MaxSentinel, vals)
    ensures yMin > yMax <==> vals == []
  {
    if vals != [] {
      assert yMin <= vals[0] <= yMax;
    }
  }

  /** The display range covers every stored value, however large or small. */
  lemma RangeCovers(yMin: real, yMax: real, vals: seq<real>, defaultLow: real, defaultHigh: real, v: real)
    requires IsBoundedMin(yMin, MinSentinel, vals) && IsBoundedMax(yMax, MaxSentinel, vals)
    requires defaultLow <= defaultHigh && v in vals
    ensures DisplayRange(yMin, yMax, defaultLow, defaultHigh).0 <= v <= DisplayRange(yMin, yMax, defaultLow, defaultHigh).1
  {
    var i :| 0 <= i < |vals| && vals[i] == v;
    assert yMin <= v <= yMax;
  }
}
