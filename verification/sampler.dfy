/**
 * One sampling cycle of the sleep logger (adaptive_logger): a baseline
 * read followed by sample_size samples, each advancing the activity
 * integrator and the delay controller and filling one slot of seven
 * index-aligned arrays.
 *
 * The sensor is a sequence of samples: samples[0] is the baseline read taken
 * before the loop, samples[i + 1] the read of iteration i. The clock read
 * that starts the cycle is the parameter startMilli.
 */
module Sampler {
  import opened Activity

  /** One timestamped three-axis sample, as getData returns it. */
  datatype Read = Read(t: int, x: real, y: real, z: real)

  /** The control state a cycle starts from and hands to the next one. */
  datatype Carry = Carry(activity: real, delay: real, lastSpike: int)

  /**
   * The values of one cycle, one series per stored array: ts_data,
   * ts_realtime_data, the three columns of raw_data, acts, diffs, delays
   * and states. All are float arrays in the source, hence real here.
   */
  datatype Chunk = Chunk(ts: seq<real>, tsRealtime: seq<real>, x: seq<real>, y: seq<real>, z: seq<real>,
                         acts: seq<real>, diffs: seq<real>, delays: seq<real>, states: seq<real>)

  /** Every series of the chunk has length n. */
  predicate Aligned(ch: Chunk, n: nat)
  {
    && |ch.ts| == n && |ch.tsRealtime| == n && |ch.x| == n && |ch.y| == n && |ch.z| == n
    && |ch.acts| == n && |ch.diffs| == n && |ch.delays| == n && |ch.states| == n
  }

  function Abs(r: real): (a: real)
    ensures a >= 0.0 && (a == r || a == -r)
  {
    if r < 0.0 then -r else r
  }

  /** The motion difference: the absolute value of the mean of the three signed axis deltas. */
  function Diff(prev: Read, cur: Read): (d: real)
    ensures d >= 0.0
    ensures d == 0.0 <==> (cur.x - prev.x) + (cur.y - prev.y) + (cur.z - prev.z) == 0.0
    ensures d == Abs((prev.x - cur.x) + (prev.y - cur.y) + (prev.z - cur.z)) / 3.0
  {
    Abs(((cur.x - prev.x) + (cur.y - prev.y) + (cur.z - prev.z)) / 3.0)
  }

  /** One loop iteration's effect on the control state. */
  function Step(c: Carry, prev: Read, cur: Read): Carry
  {
    var d := Diff(prev, cur);
    var ig := IntegrateActivity(c.activity, d, cur.t - prev.t, cur.t, c.lastSpike);
    Carry(ig.activity, NextDelay(c.delay, d), ig.lastSpike)
  }

  /** The control state after the first k iterations of a cycle over samples. */
  function CarryAt(c: Carry, samples: seq<Read>, k: nat): Carry
    requires k < |samples|
    decreases k
  {
    if k == 0 then c else Step(CarryAt(c, samples, k - 1), samples[k - 1], samples[k])
  }

  /** The control state at the end of a cycle over samples. */
  function FinalCarry(c: Carry, samples: seq<Read>): Carry
    requires |samples| >= 1
  {
    CarryAt(c, samples, |samples| - 1)
  }

  /** The values one iteration stores, one per output array. */
  datatype Slot = Slot(ts: real, tsRealtime: real, x: real, y: real, z: real,
                       activity: real, diff: real, delay: real, state: real)

  /** A chunk with every series empty: the arrays before the first iteration. */
  const NoChunk := Chunk([], [], [], [], [], [], [], [], [])

  /** A chunk grown by one slot at the end of every series. */
  function Push(ch: Chunk, s: Slot): (r: Chunk)
    ensures forall n: nat :: Aligned(ch, n) ==> Aligned(r, n + 1)
  {
    Chunk(ch.ts + [s.ts], ch.tsRealtime + [s.tsRealtime], ch.x + [s.x], ch.y + [s.y], ch.z + [s.z],
          ch.acts + [s.activity], ch.diffs + [s.diff], ch.delays + [s.delay], ch.states + [s.state])
  }

  /** A cycle in progress: what has been stored so far and the current control state. */
  datatype Run = Run(chunk: Chunk, carry: Carry)

  /**
   * One iteration: from the previous read prev and the new read cur,
   * advance the control state and store the iteration's values.
   */
  function Extend(r: Run, prev: Read, cur: Read, startMilli: int): Run
  {
    var next := Step(r.carry, prev, cur);
    Run(Push(r.chunk, Slot((cur.t - startMilli) as real, cur.t as real, cur.x, cur.y, cur.z,
                           next.activity, Diff(prev, cur), next.delay, DetectState(next.activity) as real)),
        next)
  }

  /**
   * A cycle in progress over samples: samples[0] is the baseline read, and
   * after k iterations the chunk has one slot for each of samples[1..k].
   */
  function RunAt(c: Carry, samples: seq<Read>, startMilli: int, k: nat): (r: Run)
    requires k < |samples|
    ensures Aligned(r.chunk, k)
  {
    if k == 0 then Run(NoChunk, c)
    else Extend(RunAt(c, samples, startMilli, k - 1), samples[k - 1], samples[k], startMilli)
  }

  /** The control state of a run after k iterations is the state CarryAt reaches after k steps. */
  lemma {:induction false} RunAtCarry(c: Carry, samples: seq<Read>, startMilli: int, k: nat)
    requires k < |samples|
    ensures RunAt(c, samples, startMilli, k).carry == CarryAt(c, samples, k)
  {
    if k > 0 {
      RunAtCarry(c, samples, startMilli, k - 1);
    }
  }

  /** What a cycle stores: slot i holds the values of iteration i. */
  function CycleChunk(c: Carry, samples: seq<Read>, startMilli: int): (ch: Chunk)
    requires |samples| >= 1
    ensures Aligned(ch, |samples| - 1)
  {
    RunAt(c, samples, startMilli, |samples| - 1).chunk
  }

  /** Growing a run never changes the slots already stored. */
  lemma {:induction false} RunAtPrefix(c: Carry, samples: seq<Read>, startMilli: int, i: nat, k: nat)
    requires i < k < |samples|
    ensures var ch := RunAt(c, samples, startMilli, k).chunk;
            var r := RunAt(c, samples, startMilli, i + 1).chunk;
            && ch.ts[i] == r.ts[i] && ch.tsRealtime[i] == r.tsRealtime[i]
            && ch.x[i] == r.x[i] && ch.y[i] == r.y[i] && ch.z[i] == r.z[i]
            && ch.acts[i] == r.acts[i] && ch.diffs[i] == r.diffs[i]
            && ch.delays[i] == r.delays[i] && ch.states[i] == r.states[i]
  {
    if k > i + 1 {
      RunAtPrefix(c, samples, startMilli, i, k - 1);
    }
  }

  /**
   * Slot i of a cycle holds the values of iteration i: the read samples[i + 1],
   * its time relative to the cycle start and its absolute time, the diff
   * against the read before it, and the activity, delay and state after
   * i + 1 steps from the starting state.
   */
  lemma CycleChunkSlot(c: Carry, samples: seq<Read>, startMilli: int, i: nat)
    requires i + 1 < |samples|
    ensures var ch := CycleChunk(c, samples, startMilli);
            && ch.ts[i] == (samples[i + 1].t - startMilli) as real && ch.tsRealtime[i] == samples[i + 1].t as real
            && ch.x[i] == samples[i + 1].x && ch.y[i] == samples[i + 1].y && ch.z[i] == samples[i + 1].z
            && ch.diffs[i] == Diff(samples[i], samples[i + 1])
            && ch.acts[i] == CarryAt(c, samples, i + 1).activity
            && ch.delays[i] == CarryAt(c, samples, i + 1).delay
            && ch.states[i] == DetectState(ch.acts[i]) as real
  {
    RunAtCarry(c, samples, startMilli, i + 1);
    if i + 1 < |samples| - 1 {
      RunAtPrefix(c, samples, startMilli, i, |samples| - 1);
    }
  }

  /** The six one-dimensional output arrays are six different arrays. */
  predicate Distinct(a: array<real>, b: array<real>, c: array<real>, d: array<real>, e: array<real>, f: array<real>)
  {
    && a != b && a != c && a != d && a != e && a != f
    && b != c && b != d && b != e && b != f
    && c != d && c != e && c != f
    && d != e && d != f
    && e != f
  }

  /** The first n slots of every output array hold the n slots of chunk ch. */
  ghost predicate Filled(tsData: array<real>, tsRealtimeData: array<real>, rawData: array2<real>, acts: array<real>,
                         diffs: array<real>, delays: array<real>, states: array<real>, ch: Chunk, n: nat)
    reads tsData, tsRealtimeData, rawData, acts, diffs, delays, states
  {
    && Aligned(ch, n)
    && n <= tsData.Length && n <= tsRealtimeData.Length && n <= acts.Length && n <= diffs.Length
    && n <= delays.Length && n <= states.Length && n <= rawData.Length0 && rawData.Length1 == 3
    && (forall j :: 0 <= j < n ==>
          && tsData[j] == ch.ts[j] && tsRealtimeData[j] == ch.tsRealtime[j]
          && rawData[j, 0] == ch.x[j] && rawData[j, 1] == ch.y[j] && rawData[j, 2] == ch.z[j]
          && acts[j] == ch.acts[j] && diffs[j] == ch.diffs[j] && delays[j] == ch.delays[j] && states[j] == ch.states[j])
  }

  /** Slot i of every output array receives this iteration's values, extending the filled prefix by one slot; later slots keep theirs. */
  method StoreSlot(tsData: array<real>, tsRealtimeData: array<real>, rawData: array2<real>, acts: array<real>,
                   diffs: array<real>, delays: array<real>, states: array<real>, ghost ch: Chunk, i: nat,
                   ts: real, tsRealtime: real, acc: Read, activity: real, diff: real, delay: real, state: real)
    requires Distinct(tsData, tsRealtimeData, acts, diffs, delays, states)
    requires i < tsData.Length && i < tsRealtimeData.Length && i < acts.Length && i < diffs.Length
    requires i < delays.Length && i < states.Length && i < rawData.Length0
    requires Filled(tsData, tsRealtimeData, rawData, acts, diffs, delays, states, ch, i)
    modifies tsData, tsRealtimeData, rawData, acts, diffs, delays, states
    ensures Filled(tsData, tsRealtimeData, rawData, acts, diffs, delays, states,
                   Push(ch, Slot(ts, tsRealtime, acc.x, acc.y, acc.z, activity, diff, delay, state)), i + 1)
    ensures tsData[i + 1..] == old(tsData[i + 1..]) && tsRealtimeData[i + 1..] == old(tsRealtimeData[i + 1..])
    ensures acts[i + 1..] == old(acts[i + 1..]) && diffs[i + 1..] == old(diffs[i + 1..])
    ensures delays[i + 1..] == old(delays[i + 1..]) && states[i + 1..] == old(states[i + 1..])
    ensures forall j, k :: i < j < rawData.Length0 && 0 <= k < rawData.Length1 ==> rawData[j, k] == old(rawData[j, k])
  {
    PutRow(rawData, i, acc);
    Put(tsData, i, ts);
    Put(tsRealtimeData, i, tsRealtime);
    Put(delays, i, delay);
    Put(diffs, i, diff);
    Put(states, i, state);
    Put(acts, i, activity);
    ghost var ch2 := Push(ch, Slot(ts, tsRealtime, acc.x, acc.y, acc.z, activity, diff, delay, state));
    assert Aligned(ch2, i + 1);
    forall j | 0 <= j < i + 1
      ensures && tsData[j] == ch2.ts[j] && tsRealtimeData[j] == ch2.tsRealtime[j]
              && rawData[j, 0] == ch2.x[j] && rawData[j, 1] == ch2.y[j] && rawData[j, 2] == ch2.z[j]
              && acts[j] == ch2.acts[j] && diffs[j] == ch2.diffs[j] && delays[j] == ch2.delays[j] && states[j] == ch2.states[j]
    {
      if j < i {
        assert ch2.ts[j] == ch.ts[j];
      }
    }
  }

  /** The three stores raw_data[i][0..2] = acc. */
  method PutRow(rawData: array2<real>, i: nat, acc: Read)
    requires i < rawData.Length0 && rawData.Length1 == 3
    modifies rawData
    ensures rawData[i, 0] == acc.x && rawData[i, 1] == acc.y && rawData[i, 2] == acc.z
    ensures forall j, k :: 0 <= j < rawData.Length0 && j != i && 0 <= k < 3 ==> rawData[j, k] == old(rawData[j, k])
  {
    rawData[i, 0] := acc.x;
    rawData[i, 1] := acc.y;
    rawData[i, 2] := acc.z;
  }

  /** One store a[i] = v. */
  method Put(a: array<real>, i: nat, v: real)
    requires i < a.Length
    modifies a
    ensures a[..] == old(a[..])[i := v]
  {
    a[i] := v;
  }

  /** An array whose elements agree with a sequence one by one holds that sequence. */
  lemma SameSeries(a: array<real>, s: seq<real>)
    requires a.Length == |s|
    requires forall j :: 0 <= j < |s| ==> a[j] == s[j]
    ensures a[..] == s
  {
  }

  /** The delay update of one iteration: divide by 10 on movement, floored at 2, else multiply by 1.2, capped at 200. */
  method AdjustDelay(delay: real, diff: real) returns (d: real)
    ensures d == NextDelay(delay, diff)
  {
    d := delay;
    if diff > ActivityThreshold {
      d := d / 10.0;
      if d < MinDelay {
        d := MinDelay;
      }
    } else {
      d := d * 1.2;
      if d > MaxDelay {
        d := MaxDelay;
      }
    }
  }

  /**
   * The body of adaptive_logger's loop, iteration i: the motion difference
   * and time step against the previous read, the integrator step, the delay
   * update and the state, then slot i of every array. The run (ghost) grows
   * by this iteration; next is its new control state.
   */
  method Iteration(tsData: array<real>, tsRealtimeData: array<real>, rawData: array2<real>, acts: array<real>,
                   diffs: array<real>, delays: array<real>, states: array<real>, i: nat,
                   c: Carry, prev: Read, cur: Read, startMilli: int, ghost run: Run)
    returns (next: Carry)
    requires Distinct(tsData, tsRealtimeData, acts, diffs, delays, states)
    requires i < tsData.Length && i < tsRealtimeData.Length && i < acts.Length && i < diffs.Length
    requires i < delays.Length && i < states.Length && i < rawData.Length0
    requires run.carry == c
    requires Filled(tsData, tsRealtimeData, rawData, acts, diffs, delays, states, run.chunk, i)
    modifies tsData, tsRealtimeData, rawData, acts, diffs, delays, states
    ensures next == Extend(run, prev, cur, startMilli).carry
    ensures Filled(tsData, tsRealtimeData, rawData, acts, diffs, delays, states, Extend(run, prev, cur, startMilli).chunk, i + 1)
    ensures tsData[i + 1..] == old(tsData[i + 1..]) && tsRealtimeData[i + 1..] == old(tsRealtimeData[i + 1..])
    ensures acts[i + 1..] == old(acts[i + 1..]) && diffs[i + 1..] == old(diffs[i + 1..])
    ensures delays[i + 1..] == old(delays[i + 1..]) && states[i + 1..] == old(states[i + 1..])
    ensures forall j, k :: i < j < rawData.Length0 && 0 <= k < rawData.Length1 ==> rawData[j, k] == old(rawData[j, k])
  {
    var diff := Abs(((cur.x - prev.x) + (cur.y - prev.y) + (cur.z - prev.z)) / 3.0);
    var dt := cur.t - prev.t;
    var ig := IntegrateActivity(c.activity, diff, dt, cur.t, c.lastSpike);
    var delay := AdjustDelay(c.delay, diff);
    next := Carry(ig.activity, delay, ig.lastSpike);
    var state := DetectState(next.activity);
    StoreSlot(tsData, tsRealtimeData, rawData, acts, diffs, delays, states, run.chunk, i,
              (cur.t - startMilli) as real, cur.t as real, cur, next.activity, diff, next.delay, state as real);
  }

  /**
   * adaptive_logger: the baseline read, then sample_size iterations that
   * each compute diff and dt against the previous read, advance the
   * integrator, adjust the delay and fill slot i of every array.
   */
  method AdaptiveLogger(sampleSize: nat, initDelay: real, initActivity: real, lastSpike: int,
                        startMilli: int, samples: seq<Read>)
    returns (tsData: array<real>, tsRealtimeData: array<real>, rawData: array2<real>, acts: array<real>,
             diffs: array<real>, delays: array<real>, states: array<real>, lastSpikeOut: int)
    requires |samples| == sampleSize + 1
    ensures fresh(tsData) && fresh(tsRealtimeData) && fresh(rawData) && fresh(acts)
    ensures fresh(diffs) && fresh(delays) && fresh(states)
    ensures rawData.Length0 == sampleSize && rawData.Length1 == 3
    ensures var ch := CycleChunk(Carry(initActivity, initDelay, lastSpike), samples, startMilli);
            && tsData[..] == ch.ts && tsRealtimeData[..] == ch.tsRealtime
            && acts[..] == ch.acts && diffs[..] == ch.diffs && delays[..] == ch.delays && states[..] == ch.states
            && (forall i :: 0 <= i < sampleSize ==> rawData[i, 0] == ch.x[i] && rawData[i, 1] == ch.y[i] && rawData[i, 2] == ch.z[i])
    ensures lastSpikeOut == FinalCarry(Carry(initActivity, initDelay, lastSpike), samples).lastSpike
  {
    ghost var c0 := Carry(initActivity, initDelay, lastSpike);
    rawData := new real[sampleSize, 3];
    tsData := new real[sampleSize];
    tsRealtimeData := new real[sampleSize];
    delays := new real[sampleSize];
    acts := new real[sampleSize];
    diffs := new real[sampleSize];
    states := new real[sampleSize];

    lastSpikeOut := SampleLoop(tsData, tsRealtimeData, rawData, acts, diffs, delays, states,
                               sampleSize, initDelay, initActivity, lastSpike, startMilli, samples);
    ghost var ch := CycleChunk(c0, samples, startMilli);
    SameSeries(tsData, ch.ts);
    SameSeries(tsRealtimeData, ch.tsRealtime);
    SameSeries(acts, ch.acts);
    SameSeries(diffs, ch.diffs);
    SameSeries(delays, ch.delays);
    SameSeries(states, ch.states);
  }

  /**
   * The loop of adaptive_logger over arrays of sample_size slots: the state
   * variables activity, current_delay and last_spike start from the
   * arguments and every slot is filled; the final last_spike is returned.
   */
  method SampleLoop(tsData: array<real>, tsRealtimeData: array<real>, rawData: array2<real>, acts: array<real>,
                    diffs: array<real>, delays: array<real>, states: array<real>,
                    sampleSize: nat, initDelay: real, initActivity: real, lastSpike: int,
                    startMilli: int, samples: seq<Read>)
    returns (lastSpikeOut: int)
    requires |samples| == sampleSize + 1
    requires Distinct(tsData, tsRealtimeData, acts, diffs, delays, states)
    requires tsData.Length == sampleSize && tsRealtimeData.Length == sampleSize && acts.Length == sampleSize
    requires diffs.Length == sampleSize && delays.Length == sampleSize && states.Length == sampleSize
    requires rawData.Length0 == sampleSize && rawData.Length1 == 3
    modifies tsData, tsRealtimeData, rawData, acts, diffs, delays, states
    ensures Filled(tsData, tsRealtimeData, rawData, acts, diffs, delays, states,
                   CycleChunk(Carry(initActivity, initDelay, lastSpike), samples, startMilli), sampleSize)
    ensures lastSpikeOut == FinalCarry(Carry(initActivity, initDelay, lastSpike), samples).lastSpike
  {
    ghost var c0 := Carry(initActivity, initDelay, lastSpike);
    ghost var run := Run(NoChunk, c0);
    var activity := initActivity;
    var currentDelay := initDelay;
    lastSpikeOut := lastSpike;
    var lastAcc := samples[0];

    for i := 0 to sampleSize
      invariant lastAcc == samples[i]
      invariant run == RunAt(c0, samples, startMilli, i)
      invariant run.carry == Carry(activity, currentDelay, lastSpikeOut)
      invariant Filled(tsData, tsRealtimeData, rawData, acts, diffs, delays, states, run.chunk, i)
    {
      var acc := samples[i + 1];
      var next := Iteration(tsData, tsRealtimeData, rawData, acts, diffs, delays, states, i,
                            Carry(activity, currentDelay, lastSpikeOut), lastAcc, acc, startMilli, run);
      activity, currentDelay, lastSpikeOut := next.activity, next.delay, next.lastSpike;
      run := Extend(run, lastAcc, acc, startMilli);

      lastAcc := acc;
    }
    RunAtCarry(c0, samples, startMilli, sampleSize);
  }

  // ---------------------------------------------------------------------
  // Properties of a cycle

  /** Starting from a delay in [2, 200], every delay the controller produces stays in [2, 200]. */
  lemma {:induction false} DelaysStayInRange(c: Carry, samples: seq<Read>, k: nat)
    requires k < |samples|
    requires MinDelay <= c.delay <= MaxDelay
    ensures MinDelay <= CarryAt(c, samples, k).delay <= MaxDelay
  {
    if k > 0 {
      DelaysStayInRange(c, samples, k - 1);
    }
  }

  /** Hence every stored delay of a cycle lies in [2, 200]. */
  lemma ChunkDelaysInRange(c: Carry, samples: seq<Read>, startMilli: int)
    requires |samples| >= 1
    requires MinDelay <= c.delay <= MaxDelay
    ensures forall i :: 0 <= i < |samples| - 1 ==> MinDelay <= CycleChunk(c, samples, startMilli).delays[i] <= MaxDelay
  {
    forall i | 0 <= i < |samples| - 1
      ensures MinDelay <= CycleChunk(c, samples, startMilli).delays[i] <= MaxDelay
    {
      DelaysStayInRange(c, samples, i + 1);
      CycleChunkSlot(c, samples, startMilli, i);
    }
  }

  /** Reads j..k are quiet: every diff is at most the threshold and time never runs backwards. */
  ghost predicate QuietBetween(samples: seq<Read>, j: nat, k: nat)
    requires j <= k < |samples|
  {
    forall m :: j <= m < k ==> Diff(samples[m], samples[m + 1]) <= ActivityThreshold && samples[m].t <= samples[m + 1].t
  }

  /** Over a quiet stretch, activity never increases. */
  lemma {:induction false} QuietActivityNonIncreasing(c: Carry, samples: seq<Read>, j: nat, k: nat)
    requires j <= k < |samples|
    requires c.activity >= 0.0
    requires QuietBetween(samples, j, k)
    ensures CarryAt(c, samples, k).activity <= CarryAt(c, samples, j).activity
  {
    if k > j {
      QuietActivityNonIncreasing(c, samples, j, k - 1);
      var prev := CarryAt(c, samples, k - 1);
      assert prev.activity >= 0.0 by {
        if k - 1 > 0 {
          assert prev == Step(CarryAt(c, samples, k - 2), samples[k - 2], samples[k - 1]);
        }
      }
      assert Diff(samples[k - 1], samples[k]) <= ActivityThreshold && samples[k - 1].t <= samples[k].t;
    }
  }

  /** With time running forwards, activity that starts in [0, 1] stays in [0, 1]. */
  lemma {:induction false} ActivityStaysInUnitInterval(c: Carry, samples: seq<Read>, k: nat)
    requires k < |samples|
    requires 0.0 <= c.activity <= 1.0
    requires forall m :: 0 <= m < k ==> samples[m].t <= samples[m + 1].t
    ensures 0.0 <= CarryAt(c, samples, k).activity <= 1.0
  {
    if k > 0 {
      ActivityStaysInUnitInterval(c, samples, k - 1);
      assert samples[k - 1].t <= samples[k].t;
    }
  }

  /** The first iterations of a cycle depend only on the samples they consume. */
  lemma {:induction false} CarryAtPrefix(c: Carry, a: seq<Read>, b: seq<Read>, k: nat)
    requires k < |a|
    ensures CarryAt(c, a + b, k) == CarryAt(c, a, k)
  {
    if k > 0 {
      CarryAtPrefix(c, a, b, k - 1);
      assert (a + b)[k - 1] == a[k - 1] && (a + b)[k] == a[k];
    }
  }

  /**
   * Carry-over continuity: when the next cycle's baseline read equals the
   * last read of this one, running the two cycles back to back with the
   * carried state is the same as one long cycle over both streams.
   */
  lemma {:induction false} ChunkBoundaryContinuity(c: Carry, a: seq<Read>, b: seq<Read>, m: nat)
    requires |a| >= 1 && m < |b|
    requires b[0] == a[|a| - 1]
    ensures CarryAt(c, a + b[1..], |a| - 1 + m) == CarryAt(FinalCarry(c, a), b, m)
  {
    if m == 0 {
      CarryAtPrefix(c, a, b[1..], |a| - 1);
    } else {
      ChunkBoundaryContinuity(c, a, b, m - 1);
      var ab := a + b[1..];
      assert ab[|a| - 1 + m] == b[m];
      assert ab[|a| - 1 + m - 1] == b[m - 1] by {
        if m == 1 { assert ab[|a| - 1] == a[|a| - 1]; }
      }
    }
  }
}
