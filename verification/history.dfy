/** Sample filtering of the two temperature sensors (fw/temperature.c).

    Each sensor keeps a ring buffer of the last HISTORY_SIZE raw ADC
    samples together with a running total, so that the average can be
    taken in constant time.  The buffer is first described as a value
    (`History`, with `Push` for one call of update_history), and the
    lemmas about that value are what the two classes below rely on. */
module SampleHistory {

  /** Number of samples averaged per sensor. */
  const HISTORY_SIZE: nat := 100

  /** One more than the largest reading of the 12-bit ADC. */
  const ADC_FULL_SCALE: nat := 4096

  /** A C `int16_t`: the element type of the history buffer. */
  type Int16 = x: int | -0x8000 <= x < 0x8000

  /** A reading of the 12-bit ADC. */
  type AdcSample = x: int | 0 <= x < ADC_FULL_SCALE

  function Sum(s: seq<int>): int
  {
    if s == [] then 0 else s[0] + Sum(s[1..])
  }

  /** The contents of one `sensor_history_t`. */
  datatype History = History(data: seq<int>, index: int, total: int)

  /** The buffer has its fixed size and the write index points into it. */
  predicate WellFormed(h: History)
  {
    |h.data| == HISTORY_SIZE && 0 <= h.index < HISTORY_SIZE
  }

  /** The running total is the sum of the buffered samples. */
  predicate Consistent(h: History)
  {
    h.total == Sum(h.data)
  }

  /** Every buffered sample is a possible ADC reading. */
  predicate InAdcRange(h: History)
  {
    forall k :: 0 <= k < |h.data| ==> 0 <= h.data[k] < ADC_FULL_SCALE
  }

  /** The history as calloc leaves it: every sample, the index and the
      total zero, so the total already equals the sum of the samples. */
  function Empty(): (h: History)
    ensures WellFormed(h) && InAdcRange(h) && Consistent(h)
    ensures h.data == seq(HISTORY_SIZE, _ => 0) && h.index == 0 && h.total == 0
  {
    SumConstant(HISTORY_SIZE, 0);
    History(seq(HISTORY_SIZE, _ => 0), 0, 0)
  }

  /** A position in the ring, given as a start index plus an offset of
      less than one turn: the C code's `if (index >= HISTORY_SIZE) index = 0`. */
  function Wrap(i: int): (r: int)
    requires 0 <= i < 2 * HISTORY_SIZE
    ensures 0 <= r < HISTORY_SIZE && r == i % HISTORY_SIZE
  {
    if i >= HISTORY_SIZE then i - HISTORY_SIZE else i
  }

  /** How many places after `start` the slot `k` lies. */
  function Offset(start: int, k: int): (r: int)
    requires 0 <= start < HISTORY_SIZE && 0 <= k < HISTORY_SIZE
    ensures 0 <= r < HISTORY_SIZE && Wrap(start + r) == k
  {
    if k >= start then k - start else k - start + HISTORY_SIZE
  }

  /** One call of update_history: overwrite the oldest sample, adjust the
      total by the difference and advance the index, wrapping at the end. */
  function Push(h: History, v: int): (r: History)
    requires WellFormed(h)
    ensures WellFormed(r)
    ensures r.total == h.total + (v - h.data[h.index])
    ensures r.index == (h.index + 1) % HISTORY_SIZE
    ensures r.data[h.index] == v
    ensures forall k :: 0 <= k < HISTORY_SIZE && k != h.index ==> r.data[k] == h.data[k]
  {
    History(h.data[h.index := v],
            if h.index + 1 >= HISTORY_SIZE then 0 else h.index + 1,
            h.total + (v - h.data[h.index]))
  }

  /** Consecutive calls of update_history, oldest sample first. */
  function PushAll(h: History, xs: seq<int>): (r: History)
    requires WellFormed(h)
    ensures WellFormed(r)
    ensures r.index == (h.index + |xs|) % HISTORY_SIZE
    decreases |xs|
  {
    if xs == [] then h else Push(PushAll(h, xs[..|xs| - 1]), xs[|xs| - 1])
  }

  /** One more reading pushed. */
  lemma PushAllStep(h: History, xs: seq<int>, i: nat)
    requires WellFormed(h) && i < |xs|
    ensures PushAll(h, xs[..i + 1]) == Push(PushAll(h, xs[..i]), xs[i])
  {
    assert xs[..i + 1][..i] == xs[..i];
  }

  lemma {:induction false} SumUpdate(s: seq<int>, i: nat, v: int)
    requires i < |s|
    ensures Sum(s[i := v]) == Sum(s) - s[i] + v
  {
    if i == 0 {
      assert s[i := v][1..] == s[1..];
    } else {
      assert s[i := v][1..] == s[1..][i - 1 := v];
      SumUpdate(s[1..], i - 1, v);
    }
  }

  lemma {:induction false} SumConstant(n: nat, v: int)
    ensures Sum(seq(n, _ => v)) == n * v
  {
    if n > 0 {
      assert seq(n, _ => v)[1..] == seq(n - 1, _ => v);
      SumConstant(n - 1, v);
    }
  }

  lemma {:induction false} SumBounds(s: seq<int>)
    requires forall k :: 0 <= k < |s| ==> 0 <= s[k] < ADC_FULL_SCALE
    ensures 0 <= Sum(s) <= |s| * (ADC_FULL_SCALE - 1)
  {
    if s != [] {
      SumBounds(s[1..]);
    }
  }

  /** The running total stays equal to the sum of the buffer. */
  lemma PushKeepsTotal(h: History, v: int)
    requires WellFormed(h) && Consistent(h)
    ensures Consistent(Push(h, v))
  {
    SumUpdate(h.data, h.index, v);
  }

  lemma {:induction false} PushAllKeepsTotal(h: History, xs: seq<int>)
    requires WellFormed(h) && Consistent(h)
    ensures Consistent(PushAll(h, xs))
    decreases |xs|
  {
    if xs != [] {
      PushAllKeepsTotal(h, xs[..|xs| - 1]);
      PushKeepsTotal(PushAll(h, xs[..|xs| - 1]), xs[|xs| - 1]);
    }
  }

  /** Pushing ADC readings keeps every buffered sample, and hence the
      total, within the range of the ADC. */
  lemma {:induction false} PushAllKeepsAdcRange(h: History, xs: seq<int>)
    requires WellFormed(h) && InAdcRange(h)
    requires forall j :: 0 <= j < |xs| ==> 0 <= xs[j] < ADC_FULL_SCALE
    ensures InAdcRange(PushAll(h, xs))
    decreases |xs|
  {
    if xs != [] {
      PushAllKeepsAdcRange(h, xs[..|xs| - 1]);
    }
  }

  lemma TotalBounds(h: History)
    requires WellFormed(h) && Consistent(h) && InAdcRange(h)
    ensures 0 <= h.total <= HISTORY_SIZE * (ADC_FULL_SCALE - 1)
  {
    SumBounds(h.data);
  }

  /** Where |xs| <= HISTORY_SIZE pushed samples land: the j-th one at
      j places after the starting index, and the slots not reached keep
      their old samples. */
  lemma {:induction false} PushAllPlacement(h: History, xs: seq<int>)
    requires WellFormed(h) && |xs| <= HISTORY_SIZE
    ensures PushAll(h, xs).index == Wrap(h.index + |xs|)
    ensures forall j :: 0 <= j < |xs| ==> PushAll(h, xs).data[Wrap(h.index + j)] == xs[j]
    ensures forall k :: 0 <= k < HISTORY_SIZE && Offset(h.index, k) >= |xs| ==>
              PushAll(h, xs).data[k] == h.data[k]
    decreases |xs|
  {
    if xs != [] {
      var n := |xs| - 1;
      var prev := xs[..n];
      PushAllPlacement(h, prev);
      var p := PushAll(h, prev);
      assert p.index == Wrap(h.index + n);
      forall j | 0 <= j < |xs|
        ensures PushAll(h, xs).data[Wrap(h.index + j)] == xs[j]
      {
        if j < n {
          assert prev[j] == xs[j];
        }
      }
    }
  }

  /** Pre-fill: HISTORY_SIZE pushes of one value v, from any state, leave
      every slot equal to v, the index where it started and (if the total
      was consistent) a total of HISTORY_SIZE * v. */
  lemma {:induction false} ConstantFill(h: History, xs: seq<int>, v: int)
    requires WellFormed(h) && Consistent(h)
    requires |xs| == HISTORY_SIZE && forall j :: 0 <= j < |xs| ==> xs[j] == v
    ensures PushAll(h, xs).data == seq(HISTORY_SIZE, _ => v)
    ensures PushAll(h, xs).index == h.index
    ensures PushAll(h, xs).total == HISTORY_SIZE * v
  {
    var r := PushAll(h, xs);
    PushAllPlacement(h, xs);
    forall k | 0 <= k < HISTORY_SIZE
      ensures r.data[k] == v
    {
      var j := Offset(h.index, k);
      assert r.data[Wrap(h.index + j)] == xs[j];
    }
    assert r.data == seq(HISTORY_SIZE, _ => v);
    PushAllKeepsTotal(h, xs);
    SumConstant(HISTORY_SIZE, v);
  }

  /** temperature_init starts from a zeroed history and pushes exactly
      HISTORY_SIZE readings: the buffer then holds them in order. */
  lemma {:induction false} FillFromEmpty(xs: seq<int>)
    requires |xs| == HISTORY_SIZE
    ensures PushAll(Empty(), xs) == History(xs, 0, Sum(xs))
  {
    var e := Empty();
    var r := PushAll(e, xs);
    PushAllPlacement(e, xs);
    forall j | 0 <= j < HISTORY_SIZE
      ensures r.data[j] == xs[j]
    {
      assert r.data[Wrap(e.index + j)] == xs[j];
    }
    assert r.data == xs;
    SumConstant(HISTORY_SIZE, 0);
    PushAllKeepsTotal(e, xs);
  }

  lemma {:induction false} SumAppend(a: seq<int>, b: seq<int>)
    ensures Sum(a + b) == Sum(a) + Sum(b)
    decreases |a|
  {
    if a == [] {
      assert a + b == b;
    } else {
      assert (a + b)[0] == a[0];
      assert (a + b)[1..] == a[1..] + b;
      SumAppend(a[1..], b);
    }
  }

  /** After the pre-fill with `initial`, up to HISTORY_SIZE further
      readings overwrite the oldest slots in order. */
  lemma {:induction false} WindowData(initial: seq<int>, xs: seq<int>)
    requires |initial| == HISTORY_SIZE && |xs| <= HISTORY_SIZE
    ensures PushAll(History(initial, 0, Sum(initial)), xs).data == xs + initial[|xs|..]
  {
    var h := History(initial, 0, Sum(initial));
    var p := PushAll(h, xs);
    var n := |xs|;
    PushAllPlacement(h, xs);
    forall k | 0 <= k < HISTORY_SIZE
      ensures p.data[k] == (xs + initial[n..])[k]
    {
      if k < n {
        assert p.data[Wrap(h.index + k)] == xs[k];
      } else {
        assert Offset(h.index, k) == k;
      }
    }
  }

  /** The moving window: after the pre-fill with `initial` and up to
      HISTORY_SIZE further readings `xs`, the total is the sum of the
      newest HISTORY_SIZE readings, so total / HISTORY_SIZE is their
      average. */
  lemma {:induction false} ShortWindow(initial: seq<int>, xs: seq<int>)
    requires |initial| == HISTORY_SIZE && |xs| <= HISTORY_SIZE
    ensures PushAll(History(initial, 0, Sum(initial)), xs).total == Sum((initial + xs)[|xs|..])
  {
    var h := History(initial, 0, Sum(initial));
    var n := |xs|;
    WindowData(initial, xs);
    PushAllKeepsTotal(h, xs);
    SumAppend(xs, initial[n..]);
    SumAppend(initial[n..], xs);
    assert (initial + xs)[n..] == initial[n..] + xs;
  }

  /** Pushing two runs of readings is pushing their concatenation. */
  lemma {:induction false} PushAllAppend(h: History, a: seq<int>, b: seq<int>)
    requires WellFormed(h)
    ensures PushAll(h, a + b) == PushAll(PushAll(h, a), b)
    decreases |b|
  {
    if b == [] {
      assert a + b == a;
    } else {
      var n := |b| - 1;
      assert (a + b)[..|a + b| - 1] == a + b[..n];
      assert (a + b)[|a + b| - 1] == b[n];
      PushAllAppend(h, a, b[..n]);
    }
  }

  /** A full turn of HISTORY_SIZE readings after the pre-fill replaces
      the whole buffer and brings the index back to 0. */
  lemma {:induction false} FullTurn(initial: seq<int>, c: seq<int>)
    requires |initial| == HISTORY_SIZE && |c| == HISTORY_SIZE
    ensures PushAll(History(initial, 0, Sum(initial)), c) == History(c, 0, Sum(c))
  {
    var h := History(initial, 0, Sum(initial));
    WindowData(initial, c);
    assert c + initial[HISTORY_SIZE..] == c;
    SumConstant(0, 0);
    PushAllKeepsTotal(h, c);
  }

  /** The moving window over the whole run: after the pre-fill with
      `initial` and any number of further readings `xs`, the total is the
      sum of the newest HISTORY_SIZE readings. */
  lemma {:induction false} SlidingWindow(initial: seq<int>, xs: seq<int>)
    requires |initial| == HISTORY_SIZE
    ensures PushAll(History(initial, 0, Sum(initial)), xs).total == Sum((initial + xs)[|xs|..])
    decreases |xs|
  {
    if |xs| <= HISTORY_SIZE {
      ShortWindow(initial, xs);
    } else {
      var c, rest := xs[..HISTORY_SIZE], xs[HISTORY_SIZE..];
      assert xs == c + rest;
      PushAllAppend(History(initial, 0, Sum(initial)), c, rest);
      FullTurn(initial, c);
      SlidingWindow(c, rest);
      assert (c + rest)[|rest|..] == xs[|xs| - HISTORY_SIZE..];
      assert (initial + xs)[|xs|..] == xs[|xs| - HISTORY_SIZE..];
    }
  }

  /** One `sensor_history_t`, updated in place. */
  class SensorHistory {
    var index: int
    var total: int
    var data: array<Int16>

    ghost function Value(): History
      reads this, data
    {
      History(data[..], index, total)
    }

    ghost predicate Valid()
      reads this, data
    {
      data.Length == HISTORY_SIZE && WellFormed(Value()) && Consistent(Value())
    }

    /** The zeroed history that calloc provides. */
    constructor ()
      ensures Valid() && fresh(data)
      ensures Value() == Empty()
    {
      index, total := 0, 0;
      data := new Int16[HISTORY_SIZE](_ => 0);
      new;
      assert data[..] == seq(HISTORY_SIZE, _ => 0);
      SumConstant(HISTORY_SIZE, 0);
    }

    /** update_history: store one new sample. */
    method UpdateHistory(newValue: Int16)
      requires Valid()
      modifies this, data
      ensures Valid() && data == old(data)
      ensures Value() == Push(old(Value()), newValue)
    {
      var oldValue := data[index];
      data[index] := newValue;
      total := total + (newValue as int - oldValue as int);
      index := index + 1;
      if index >= HISTORY_SIZE {
        index := 0;
      }
      PushKeepsTotal(old(Value()), newValue);
    }
  }

  /** The two sensor histories of one `temperature_t`. */
  class Temperature {
    const internal: SensorHistory
    const external: SensorHistory

    ghost predicate Valid()
      reads this, internal, external, internal.data, external.data
    {
      internal != external && internal.data != external.data &&
      internal.Valid() && external.Valid() &&
      InAdcRange(internal.Value()) && InAdcRange(external.Value())
    }

    /** temperature_init: a zeroed structure, then HISTORY_SIZE calls of
        temperature_update so that the first average is not biased towards
        zero.  The readings the ADC returns are given in order. */
    constructor (internalReadings: seq<AdcSample>, externalReadings: seq<AdcSample>)
      requires |internalReadings| == HISTORY_SIZE && |externalReadings| == HISTORY_SIZE
      ensures Valid()
      ensures fresh(internal) && fresh(external) && fresh(internal.data) && fresh(external.data)
      ensures internal.Value() == PushAll(Empty(), internalReadings)
      ensures external.Value() == PushAll(Empty(), externalReadings)
      ensures internal.Value() == History(internalReadings, 0, Sum(internalReadings))
      ensures external.Value() == History(externalReadings, 0, Sum(externalReadings))
    {
      internal := new SensorHistory();
      external := new SensorHistory();
      new;
      Prefill(internalReadings, externalReadings);
      FillFromEmpty(internalReadings);
      FillFromEmpty(externalReadings);
    }

    /** The loop of temperature_init: HISTORY_SIZE calls of
        temperature_update, each pushing the next pair of readings. */
    method Prefill(internalReadings: seq<AdcSample>, externalReadings: seq<AdcSample>)
      requires Valid()
      requires |internalReadings| == HISTORY_SIZE && |externalReadings| == HISTORY_SIZE
      modifies internal, internal.data, external, external.data
      ensures Valid()
      ensures internal.data == old(internal.data) && external.data == old(external.data)
      ensures internal.Value() == PushAll(old(internal.Value()), internalReadings)
      ensures external.Value() == PushAll(old(external.Value()), externalReadings)
    {
      for i := 0 to HISTORY_SIZE
        invariant Valid()
        invariant internal.data == old(internal.data) && external.data == old(external.data)
        invariant internal.Value() == PushAll(old(internal.Value()), internalReadings[..i])
        invariant external.Value() == PushAll(old(external.Value()), externalReadings[..i])
      {
        PushAllStep(old(internal.Value()), internalReadings, i);
        PushAllStep(old(external.Value()), externalReadings, i);
        TemperatureUpdate(internalReadings[i], externalReadings[i]);
      }
      assert internalReadings[..HISTORY_SIZE] == internalReadings;
      assert externalReadings[..HISTORY_SIZE] == externalReadings;
    }

    /** temperature_update: one reading of the internal sensor, then one
        of the external sensor.  Each channel changes only by its own push. */
    method TemperatureUpdate(internalReading: AdcSample, externalReading: AdcSample)
      requires Valid()
      modifies internal, internal.data, external, external.data
      ensures Valid()
      ensures internal.data == old(internal.data) && external.data == old(external.data)
      ensures internal.Value() == Push(old(internal.Value()), internalReading)
      ensures external.Value() == Push(old(external.Value()), externalReading)
      ensures 0 <= internal.total <= HISTORY_SIZE * (ADC_FULL_SCALE - 1)
      ensures 0 <= external.total <= HISTORY_SIZE * (ADC_FULL_SCALE - 1)
    {
      internal.UpdateHistory(internalReading);
      external.UpdateHistory(externalReading);
      TotalBounds(internal.Value());
      TotalBounds(external.Value());
    }
  }
}
