/** The rolling latency window and the read-outs a relay stage computes over it.
    Samples are elapsed times in ticks; a stopwatch reading is never negative. */
module Metrics {

  /** How many samples a stage keeps: the `200` of the eviction check. */
  const Capacity: nat := 200

  type Ticks = nat

  // ---------------------------------------------------------------------------
  // The window
  // ---------------------------------------------------------------------------

  /** Reference definition of the window: the latest `Capacity` samples of
      everything ever recorded, oldest first. */
  function Latest(history: seq<Ticks>): seq<Ticks>
  {
    if |history| <= Capacity then history else history[|history| - Capacity..]
  }

  /** One recording step: enqueue the new sample, then dequeue the head if the
      queue now holds more than `Capacity` samples. */
  function Record(window: seq<Ticks>, sample: Ticks): (w: seq<Ticks>)
    ensures |window| <= Capacity ==> |w| <= Capacity
    ensures |window| < Capacity ==> w == window + [sample]
    ensures |window| >= Capacity ==> w == window[1..] + [sample]
    ensures w != [] && w[|w| - 1] == sample
  {
    var queued := window + [sample];
    if |queued| > Capacity then queued[1..] else queued
  }

  /** Recording samples one after another, as sequential successful messages do. */
  function RecordAll(window: seq<Ticks>, samples: seq<Ticks>): seq<Ticks>
    decreases |samples|
  {
    if samples == [] then window
    else RecordAll(Record(window, samples[0]), samples[1..])
  }

  /** Recording into the window of a history gives the window of the longer
      history: the queue always holds exactly the latest samples. */
  lemma RecordKeepsLatest(history: seq<Ticks>, sample: Ticks)
    ensures Record(Latest(history), sample) == Latest(history + [sample])
  {
    var h := history + [sample];
    if |history| < Capacity {
      assert Latest(history) == history;
      assert Latest(h) == h;
    } else {
      var w := Latest(history);
      assert w == history[|history| - Capacity..];
      assert |w| == Capacity;
      assert w[1..] + [sample] == h[|h| - Capacity..];
    }
  }

  /** After any run of recordings starting from the window of a history, the
      window is the latest `Capacity` samples of the whole run. */
  lemma {:induction false} RecordAllKeepsLatest(history: seq<Ticks>, samples: seq<Ticks>)
    ensures RecordAll(Latest(history), samples) == Latest(history + samples)
    decreases |samples|
  {
    if samples == [] {
      assert history + samples == history;
    } else {
      RecordKeepsLatest(history, samples[0]);
      RecordAllKeepsLatest(history + [samples[0]], samples[1..]);
      assert history + [samples[0]] + samples[1..] == history + samples;
    }
  }

  /** Starting from an empty window, `Capacity + 1` successful messages leave
      the window without the first sample and with the other ones in order. */
  lemma EvictsOldestAfterOverflow(samples: seq<Ticks>)
    requires |samples| == Capacity + 1
    ensures RecordAll([], samples) == samples[1..]
  {
    RecordAllKeepsLatest([], samples);
    assert Latest([]) == [];
    assert [] + samples == samples;
  }

  /** However many samples are recorded, the window never exceeds `Capacity`. */
  lemma {:induction false} RecordAllBounded(window: seq<Ticks>, samples: seq<Ticks>)
    requires |window| <= Capacity
    ensures |RecordAll(window, samples)| <= Capacity
    decreases |samples|
  {
    if samples != [] {
      RecordAllBounded(Record(window, samples[0]), samples[1..]);
    }
  }

  // ---------------------------------------------------------------------------
  // Aggregates over the window
  // ---------------------------------------------------------------------------

  /** The largest sample (a `Max` over the window); 0 for an empty window. */
  function MaxOf(samples: seq<Ticks>): (m: Ticks)
    ensures samples == [] ==> m == 0
    ensures samples != [] ==> m in samples
    ensures forall i :: 0 <= i < |samples| ==> samples[i] <= m
  {
    if samples == [] then 0
    else if |samples| == 1 then samples[0]
    else
      var rest := MaxOf(samples[1..]);
      if samples[0] < rest then rest else samples[0]
  }

  /** The smallest sample; 0 for an empty window. Used to bound the mean. */
  function MinOf(samples: seq<Ticks>): (m: Ticks)
    ensures samples == [] ==> m == 0
    ensures samples != [] ==> m in samples
    ensures forall i :: 0 <= i < |samples| ==> m <= samples[i]
  {
    if samples == [] then 0
    else if |samples| == 1 then samples[0]
    else
      var rest := MinOf(samples[1..]);
      if rest < samples[0] then rest else samples[0]
  }

  function Sum(samples: seq<Ticks>): nat
  {
    if samples == [] then 0 else samples[0] + Sum(samples[1..])
  }

  /** A lower bound on every sample bounds the sum from below. */
  lemma {:induction false} SumAtLeast(samples: seq<Ticks>, lo: nat)
    requires forall i :: 0 <= i < |samples| ==> lo <= samples[i]
    ensures |samples| * lo <= Sum(samples)
  {
    if samples != [] {
      SumAtLeast(samples[1..], lo);
      assert |samples| * lo == lo + (|samples| - 1) * lo;
    }
  }

  /** An upper bound on every sample bounds the sum from above. */
  lemma {:induction false} SumAtMost(samples: seq<Ticks>, hi: nat)
    requires forall i :: 0 <= i < |samples| ==> samples[i] <= hi
    ensures Sum(samples) <= |samples| * hi
  {
    if samples != [] {
      SumAtMost(samples[1..], hi);
      assert |samples| * hi == hi + (|samples| - 1) * hi;
    }
  }

  /** Conversion of an exact quotient `num / den` to a whole number as a
      conversion from floating point to a 64-bit integer does it: to the
      nearest integer, and to the even one of the two on a tie. */
  function RoundHalfEven(num: nat, den: nat): (r: nat)
    requires den > 0
    ensures 2 * (num - den * r) <= den && 2 * (den * r - num) <= den
    ensures 2 * (num - den * r) == den || 2 * (den * r - num) == den ==> r % 2 == 0
  {
    var q := num / den;
    var rem := num % den;
    assert num == den * q + rem;
    assert den * (q + 1) == den * q + den;
    if 2 * rem < den then q
    else if 2 * rem > den then q + 1
    else if q % 2 == 0 then q
    else q + 1
  }

  /** The arithmetic mean of the window, rounded to whole ticks; 0 for an
      empty window. */
  function Average(samples: seq<Ticks>): (a: Ticks)
    ensures samples == [] ==> a == 0
    ensures samples != [] ==> MinOf(samples) <= a <= MaxOf(samples)
    ensures samples != [] ==>
      2 * (Sum(samples) - |samples| * a) <= |samples| &&
      2 * (|samples| * a - Sum(samples)) <= |samples|
  {
    if samples == [] then 0
    else
      var a := RoundHalfEven(Sum(samples), |samples|);
      MeanWithinRange(samples, a);
      a
  }

  /** A whole number within half a unit of the exact mean lies between the
      smallest and the largest sample. */
  lemma MeanWithinRange(samples: seq<Ticks>, a: nat)
    requires samples != []
    requires 2 * (Sum(samples) - |samples| * a) <= |samples|
    requires 2 * (|samples| * a - Sum(samples)) <= |samples|
    ensures MinOf(samples) <= a <= MaxOf(samples)
  {
    SumAtLeast(samples, MinOf(samples));
    SumAtMost(samples, MaxOf(samples));
    NearestWithinBounds(|samples|, Sum(samples), MinOf(samples), MaxOf(samples), a);
  }

  /** The arithmetic core of `MeanWithinRange`: if `n * lo <= s <= n * hi`,
      a whole number within half a unit of `s / n` lies in `[lo, hi]`. */
  lemma NearestWithinBounds(n: nat, s: nat, lo: nat, hi: nat, a: nat)
    requires n > 0
    requires n * lo <= s <= n * hi
    requires 2 * (s - n * a) <= n && 2 * (n * a - s) <= n
    ensures lo <= a <= hi
  {
    if a < lo {
      MulMonotonic(n, a + 1, lo);
      Distribute(n, a);
      assert false;
    }
    if hi < a {
      MulMonotonic(n, hi + 1, a);
      Distribute(n, hi);
      assert false;
    }
  }

  lemma Distribute(n: nat, x: nat)
    ensures n * (x + 1) == n * x + n
  {
  }

  lemma MulMonotonic(n: nat, x: nat, y: nat)
    requires x <= y
    ensures n * x <= n * y
  {
  }
}
