/**
  The sampling tick of the ambient sound-level alerter.

  Every 250 ms the page reads one frequency-magnitude snapshot from the
  microphone analyser, averages it into a sound level, writes that level into a
  240-slot circular buffer (with a parallel buffer of elapsed-time labels),
  advances the write index and turns the chart background red when the level is
  strictly above the current threshold.

  The pure part (Sum, Average, Exceeds, Store, Replay) states what one tick and
  a run of ticks do to the buffers; the class Monitor holds the same state as
  arrays and fields that its Tick method updates in place, and is proved
  against the pure part.
 */
module SoundLevel {

  /** Number of slots of the level buffer and of the time-label buffer. */
  const BufferSize: nat := 240

  /** The slot that receives the level when the write index is 0. */
  const LastSlot: nat := BufferSize - 1

  /** FFT size of the analyser; a snapshot holds half as many frequency bins. */
  const FftSize: nat := 1024
  const BinCount: nat := FftSize / 2

  /** Threshold in force when the page loads. */
  const InitialMaxLevel: int := 20

  /** One entry of the analyser's unsigned-byte frequency data. */
  type Byte = x: int | 0 <= x < 256

  datatype Option<T> = None | Some(value: T)

  /**
    A time label: the number 0 the buffer is filled with at load time, or the
    elapsed seconds as the two-decimal text the tick writes.
   */
  datatype TimeLabel = Zero | Seconds(text: string)

  /** What one tick contributes: its level and its elapsed-time text. */
  datatype Reading = Reading(level: real, elapsed: string)

  /** The buffers and the write index, as values. */
  datatype Buffers = Buffers(levels: seq<Option<real>>, times: seq<TimeLabel>, writeIndex: nat)

  // ---------------------------------------------------------------------------
  // The level of one snapshot and the alert test
  // ---------------------------------------------------------------------------

  /** Sum of a snapshot, accumulated from the front as the tick's loop does. */
  function Sum(s: seq<Byte>): (r: int)
    ensures 0 <= r <= 255 * |s|
  {
    if s == [] then 0 else Sum(s[..|s| - 1]) + s[|s| - 1]
  }

  /** The level of a snapshot: its arithmetic mean, exactly. */
  function Average(s: seq<Byte>): (r: real)
    requires |s| > 0
    ensures 0.0 <= r <= 255.0
    ensures r * |s| as real == Sum(s) as real
  {
    Sum(s) as real / |s| as real
  }

  /** The alert test: a level raises the alert only when strictly above the threshold. */
  predicate Exceeds(level: real, maxLevel: int)
  {
    level > maxLevel as real
  }

  /** The alert test can be decided on integers: the sum against threshold times length. */
  lemma AlertIffSumExceeds(s: seq<Byte>, maxLevel: int)
    requires |s| > 0
    ensures Exceeds(Average(s), maxLevel) <==> Sum(s) > maxLevel * |s|
  {
    MeanExceeds(Sum(s), |s|, maxLevel);
  }

  /** Dividing by a positive count and comparing equals comparing against the scaled bound. */
  lemma MeanExceeds(total: int, count: nat, maxLevel: int)
    requires count > 0
    ensures total as real / count as real > maxLevel as real <==> total > maxLevel * count
  {
  }

  /** Converting a product to real distributes over its factors. */
  lemma ProductAsReal(x: int, y: nat)
    ensures (x * y) as real == x as real * y as real
  {
  }

  /** Multiplying both sides by a positive number keeps a strict comparison. */
  lemma ScaleByPositive(a: real, m: real, n: real)
    requires n > 0.0
    ensures a > m <==> a * n > m * n
  {
  }

  /** A snapshot whose bins all hold the same value v sums to v times its length. */
  lemma {:induction false} UniformSum(v: Byte, n: nat)
    ensures Sum(seq(n, _ => v)) == n * v
  {
    if n > 0 {
      var s: seq<Byte> := seq(n, _ => v);
      assert s[..n - 1] == seq(n - 1, _ => v);
      UniformSum(v, n - 1);
    }
  }

  /** ... and so its level is v. */
  lemma UniformAverage(v: Byte, n: nat)
    requires n > 0
    ensures Average(seq(n, _ => v)) == v as real
  {
    UniformSum(v, n);
    var a := Average(seq(n, _ => v));
    assert a * n as real == (n * v) as real == v as real * n as real;
  }

  // ---------------------------------------------------------------------------
  // The circular buffers
  // ---------------------------------------------------------------------------

  /** Both buffers hold exactly BufferSize slots and the write index is one of them. */
  predicate WellFormed(b: Buffers)
  {
    |b.levels| == BufferSize && |b.times| == BufferSize && b.writeIndex < BufferSize
  }

  /** The buffers at page load: no levels, every label 0, index 0. */
  function Initial(): (b: Buffers)
    ensures WellFormed(b) && b.writeIndex == 0
    ensures forall j | 0 <= j < BufferSize :: b.levels[j] == None && b.times[j] == Zero
  {
    Buffers(seq(BufferSize, _ => None), seq(BufferSize, _ => Zero), 0)
  }

  /**
    One tick's writes: the level goes to slot writeIndex, except that at index 0
    it goes to the last slot and slot 0 is cleared; the label goes to slot
    writeIndex in every case; the index then advances modulo BufferSize.
   */
  function Store(b: Buffers, level: real, stamp: TimeLabel): (r: Buffers)
    requires WellFormed(b)
    ensures WellFormed(r)
    ensures r.writeIndex == (b.writeIndex + 1) % BufferSize
    ensures b.writeIndex != 0 ==> r.levels[b.writeIndex] == Some(level)
    ensures b.writeIndex != 0 ==>
              forall j | 0 <= j < BufferSize && j != b.writeIndex :: r.levels[j] == b.levels[j]
    ensures b.writeIndex == 0 ==> r.levels[LastSlot] == Some(level) && r.levels[0] == None
    ensures b.writeIndex == 0 ==> forall j | 0 < j < LastSlot :: r.levels[j] == b.levels[j]
    ensures r.times[b.writeIndex] == stamp
    ensures forall j | 0 <= j < BufferSize && j != b.writeIndex :: r.times[j] == b.times[j]
  {
    var i := b.writeIndex;
    var levels := if i == 0 then b.levels[LastSlot := Some(level)][0 := None]
                  else b.levels[i := Some(level)];
    Buffers(levels, b.times[i := stamp], (i + 1) % BufferSize)
  }

  /** The buffers after the ticks of `readings`, in order, from page load. */
  function Replay(readings: seq<Reading>): (b: Buffers)
    ensures WellFormed(b)
  {
    if readings == [] then Initial()
    else
      var last := readings[|readings| - 1];
      Store(Replay(readings[..|readings| - 1]), last.level, Seconds(last.elapsed))
  }

  /** After k ticks the write index is k modulo BufferSize. */
  lemma {:induction false} IndexAfterTicks(readings: seq<Reading>)
    ensures Replay(readings).writeIndex == |readings| % BufferSize
  {
    if readings != [] {
      var k := |readings|;
      IndexAfterTicks(readings[..k - 1]);
      assert Replay(readings).writeIndex == ((k - 1) % BufferSize + 1) % BufferSize;
      ModSucc(k - 1);
    }
  }

  /** Advancing an index already reduced modulo BufferSize equals reducing the successor. */
  lemma ModSucc(n: nat)
    ensures (n % BufferSize + 1) % BufferSize == (n + 1) % BufferSize
  {
  }

  /** Slot 0 never holds a level: the only write to it is the clear at index 0. */
  lemma {:induction false} SlotZeroNeverHoldsLevel(readings: seq<Reading>)
    ensures Replay(readings).levels[0] == None
  {
    if readings != [] {
      SlotZeroNeverHoldsLevel(readings[..|readings| - 1]);
    }
  }

  /**
    During the first round (1 to BufferSize ticks) the k-th tick's level sits in
    slot k - 1 for k >= 2, while the first tick's level sits in the last slot
    until the BufferSize-th tick overwrites it.
   */
  lemma {:induction false} FirstRoundLevels(readings: seq<Reading>)
    requires 1 <= |readings| <= BufferSize
    ensures forall j | 0 <= j < BufferSize ::
              Replay(readings).levels[j] ==
                if j == 0 then None
                else if j < |readings| then Some(readings[j].level)
                else if j == LastSlot then Some(readings[0].level)
                else None
  {
    var k := |readings|;
    var prefix := readings[..k - 1];
    if k == 1 {
      assert Replay(prefix) == Initial();
    } else {
      FirstRoundLevels(prefix);
      IndexAfterTicks(prefix);
      assert Replay(prefix).writeIndex == k - 1;
      forall j | 0 < j < k - 1
        ensures prefix[j] == readings[j]
      {
      }
      assert prefix[0] == readings[0];
    }
  }

  /**
    During the first round the label of the k-th tick sits in slot k - 1 (the
    pre-advance index, slot 0 included) and the rest still hold the initial 0.
   */
  lemma {:induction false} FirstRoundTimes(readings: seq<Reading>)
    requires |readings| <= BufferSize
    ensures forall j | 0 <= j < BufferSize ::
              Replay(readings).times[j] ==
                if j < |readings| then Seconds(readings[j].elapsed) else Zero
  {
    var k := |readings|;
    if k > 0 {
      var prefix := readings[..k - 1];
      FirstRoundTimes(prefix);
      IndexAfterTicks(prefix);
      assert Replay(prefix).writeIndex == k - 1;
      forall j | 0 <= j < k - 1
        ensures prefix[j] == readings[j]
      {
      }
    }
  }

  /** Number of slots holding a level. */
  function Occupied(levels: seq<Option<real>>): (n: nat)
    ensures n <= |levels|
  {
    if levels == [] then 0
    else (if levels[0].Some? then 1 else 0) + Occupied(levels[1..])
  }

  lemma {:induction false} OccupiedAppend(a: seq<Option<real>>, b: seq<Option<real>>)
    ensures Occupied(a + b) == Occupied(a) + Occupied(b)
  {
    if a != [] {
      assert (a + b)[1..] == a[1..] + b;
      OccupiedAppend(a[1..], b);
    } else {
      assert a + b == b;
    }
  }

  lemma {:induction false} OccupiedAll(s: seq<Option<real>>)
    requires forall j | 0 <= j < |s| :: s[j].Some?
    ensures Occupied(s) == |s|
  {
    if s != [] {
      OccupiedAll(s[1..]);
    }
  }

  lemma {:induction false} OccupiedNone(s: seq<Option<real>>)
    requires forall j | 0 <= j < |s| :: s[j] == None
    ensures Occupied(s) == 0
  {
    if s != [] {
      OccupiedNone(s[1..]);
    }
  }

  /**
    The chart shows k levels after k ticks for k < BufferSize, but only
    BufferSize - 1 after BufferSize ticks: the first level is overwritten.
   */
  lemma OccupancyFirstRound(readings: seq<Reading>)
    requires 1 <= |readings| <= BufferSize
    ensures Occupied(Replay(readings).levels) ==
              if |readings| < BufferSize then |readings| else BufferSize - 1
  {
    FirstRoundLevels(readings);
    OccupiedFirstRoundShape(Replay(readings).levels, |readings|);
  }

  /** Counting for the shape FirstRoundLevels describes. */
  lemma OccupiedFirstRoundShape(l: seq<Option<real>>, k: nat)
    requires |l| == BufferSize && 1 <= k <= BufferSize
    requires l[0] == None
    requires forall j | 1 <= j < k :: l[j].Some?
    requires forall j | k <= j < LastSlot :: l[j] == None
    requires k < BufferSize ==> l[LastSlot].Some?
    ensures Occupied(l) == if k < BufferSize then k else BufferSize - 1
  {
    var head, filled := l[..1], l[1..k];
    assert head[0] == None;
    OccupiedNone(head);
    forall j | 0 <= j < |filled|
      ensures filled[j].Some?
    {
      assert filled[j] == l[j + 1];
    }
    OccupiedAll(filled);
    var rest := l[k..];
    assert l == head + filled + rest;
    OccupiedAppend(head, filled);
    OccupiedAppend(head + filled, rest);
    if k < BufferSize {
      var blank, last := l[k..LastSlot], l[LastSlot..];
      forall j | 0 <= j < |blank|
        ensures blank[j] == None
      {
        assert blank[j] == l[k + j];
      }
      OccupiedNone(blank);
      assert last[0] == l[LastSlot];
      OccupiedAll(last);
      assert rest == blank + last;
      OccupiedAppend(blank, last);
    } else {
      assert rest == [];
    }
  }

  /** At no point does the buffer hold more than BufferSize - 1 levels. */
  lemma OccupancyBound(readings: seq<Reading>)
    ensures Occupied(Replay(readings).levels) <= BufferSize - 1
  {
    var l := Replay(readings).levels;
    SlotZeroNeverHoldsLevel(readings);
    assert l == l[..1] + l[1..];
    OccupiedNone(l[..1]);
    OccupiedAppend(l[..1], l[1..]);
  }

  /** The level stored at index LastSlot is overwritten by the very next tick. */
  lemma LastSlotLevelLastsOneTick(b: Buffers, x: real, y: real, l1: TimeLabel, l2: TimeLabel)
    requires WellFormed(b) && b.writeIndex == LastSlot
    ensures Store(b, x, l1).levels[LastSlot] == Some(x)
    ensures Store(Store(b, x, l1), y, l2).levels[LastSlot] == Some(y)
  {
  }

  // ---------------------------------------------------------------------------
  // The page's mutable state
  // ---------------------------------------------------------------------------

  /** The sampler's state: the two buffers, the write index and the threshold. */
  class Monitor {
    const levels: array<Option<real>>
    const times: array<TimeLabel>
    var writeIndex: nat
    var maxLevel: int

    /** The readings of every tick so far, oldest first. */
    ghost var history: seq<Reading>

    ghost function State(): Buffers
      reads this, levels, times
    {
      Buffers(levels[..], times[..], writeIndex)
    }

    /** The buffers and index are exactly what the ticks so far produce. */
    ghost predicate Valid()
      reads this, levels, times
    {
      State() == Replay(history)
    }

    constructor ()
      ensures Valid() && fresh(levels) && fresh(times)
      ensures history == [] && writeIndex == 0 && maxLevel == InitialMaxLevel
      ensures levels.Length == BufferSize && times.Length == BufferSize
      ensures forall j | 0 <= j < BufferSize :: levels[j] == None && times[j] == Zero
    {
      levels := new Option<real>[BufferSize](_ => None);
      times := new TimeLabel[BufferSize](_ => Zero);
      writeIndex := 0;
      maxLevel := InitialMaxLevel;
      history := [];
      new;
      assert levels[..] == Initial().levels;
      assert times[..] == Initial().times;
    }

    /**
      One sampling tick on the snapshot `snapshot`, labelled `elapsed`; returns
      whether the alert background is shown.
     */
    method Tick(snapshot: seq<Byte>, elapsed: string) returns (alert: bool)
      requires Valid()
      requires |snapshot| == BinCount
      modifies this`writeIndex, this`history, levels, times
      ensures Valid()
      ensures history == old(history) + [Reading(Average(snapshot), elapsed)]
      ensures State() == Store(old(State()), Average(snapshot), Seconds(elapsed))
      ensures writeIndex == |history| % BufferSize
      ensures levels[0] == None
      ensures alert <==> Exceeds(Average(snapshot), maxLevel)
      ensures alert <==> Sum(snapshot) > maxLevel * BinCount
      ensures maxLevel == old(maxLevel)
    {
      var sum: int := 0;
      for i := 0 to |snapshot|
        invariant sum == Sum(snapshot[..i])
      {
        assert snapshot[..i + 1][..i] == snapshot[..i];
        sum := sum + snapshot[i];
      }
      assert snapshot[..|snapshot|] == snapshot;
      var average := sum as real / |snapshot| as real;

      if writeIndex == 0 {
        levels[BufferSize - 1] := Some(average);
        levels[0] := None;
      } else {
        levels[writeIndex] := Some(average);
      }
      times[writeIndex] := Seconds(elapsed);
      writeIndex := (writeIndex + 1) % BufferSize;

      ghost var before := history;
      history := history + [Reading(average, elapsed)];
      assert history[..|history| - 1] == before;
      IndexAfterTicks(history);
      SlotZeroNeverHoldsLevel(history);

      alert := average > maxLevel as real;
      AlertIffSumExceeds(snapshot, maxLevel);
    }

    /** The threshold spinner: later ticks compare against the new threshold. */
    method SetMaxLevel(newMax: int)
      requires Valid()
      modifies this`maxLevel
      ensures Valid() && maxLevel == newMax
    {
      maxLevel := newMax;
    }
  }

  /**
    A steady level of 30 alerts under the initial threshold of 20 and stops
    alerting once the threshold is raised to 50 between two ticks.
   */
  method ThresholdChangeScenario() returns (before: bool, after: bool)
    ensures before && !after
  {
    var monitor := new Monitor();
    var snapshot: seq<Byte> := seq(BinCount, _ => 30);
    UniformAverage(30, BinCount);
    before := monitor.Tick(snapshot, "0.00");
    monitor.SetMaxLevel(50);
    after := monitor.Tick(snapshot, "0.25");
  }
}
