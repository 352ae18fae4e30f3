/**
 * The SleepLogger class: its two sinks (the redis stream 'accel' and the
 * HDF5 log file), the sink selection of log_data, and chunkwise_logger,
 * which chains sampling cycles, plots each cycle's diffs on the display and
 * hands the cycle to log_data.
 *
 * The redis server and the HDF5 file are fields of the logger: the stream
 * is the sequence of records added to it, the file a map from group name to
 * group. The threads log_data and chunkwise_logger start are run to
 * completion in program order.
 */
module Logger {
  import opened Common
  import opened Activity
  import opened Sampler
  import opened Display
  import DriversOled
  import Mma

  // ---------------------------------------------------------------------
  // The redis stream

  /**
   * One stream entry as log_to_redis adds it: the times and the state cut
   * to integers, the three axes as they are, the activity formatted with
   * four decimals and the diff and delay with two.
   */
  datatype Record = Record(t: int, tRealtime: int, x: real, y: real, z: real,
                           activity: Label, diff: Label, delay: Label, state: int)

  /** Python's int() on a float: truncation toward zero. */
  function Trunc(r: real): (i: int)
    ensures r >= 0.0 ==> 0 <= i && i as real <= r < i as real + 1.0
    ensures r < 0.0 ==> i <= 0 && i as real - 1.0 < r <= i as real
  {
    if r >= 0.0 then r.Floor else -((-r).Floor)
  }

  /** A float holding an integer value is cut to that integer. */
  lemma TruncOfIntegral(n: int)
    ensures Trunc(n as real) == n
  {
    if n < 0 {
      assert (-(n as real)).Floor == -n;
    }
  }

  /** The record log_to_redis builds from slot i of a chunk. */
  function RecordAt(ch: Chunk, i: nat): Record
    requires Aligned(ch, |ch.ts|) && i < |ch.ts|
  {
    Record(Trunc(ch.ts[i]), Trunc(ch.tsRealtime[i]), ch.x[i], ch.y[i], ch.z[i],
           Fixed(4, ch.acts[i]), Fixed(2, ch.diffs[i]), Fixed(2, ch.delays[i]), Trunc(ch.states[i]))
  }

  /** The records of a chunk, one per slot, in slot order. */
  function Records(ch: Chunk): (r: seq<Record>)
    requires Aligned(ch, |ch.ts|)
    ensures |r| == |ch.ts|
    ensures forall i :: 0 <= i < |r| ==> r[i] == RecordAt(ch, i)
  {
    seq(|ch.ts|, i requires 0 <= i < |ch.ts| => RecordAt(ch, i))
  }

  /**
   * Record i of a cycle's raw chunk: the read's time since the cycle start
   * and its absolute time, the read's axes, the diff against the read
   * before it, the activity and delay after i + 1 steps, and
   * state 1 exactly when that activity is below the deep-sleep level.
   */
  lemma CycleRecords(c: Carry, samples: seq<Read>, startMilli: int, i: nat)
    requires i + 1 < |samples|
    ensures var rec := Records(CycleChunk(c, samples, startMilli))[i];
            var a := CarryAt(c, samples, i + 1).activity;
            && rec.t == samples[i + 1].t - startMilli
            && rec.tRealtime == samples[i + 1].t
            && rec.x == samples[i + 1].x && rec.y == samples[i + 1].y && rec.z == samples[i + 1].z
            && rec.activity == Fixed(4, a)
            && rec.diff == Fixed(2, Diff(samples[i], samples[i + 1]))
            && rec.delay == Fixed(2, CarryAt(c, samples, i + 1).delay)
            && (rec.state == 1 <==> a < DeepSleepLevel)
            && (rec.state == 0 <==> a >= DeepSleepLevel)
  {
    CycleChunkSlot(c, samples, startMilli, i);
    TruncOfIntegral(samples[i + 1].t - startMilli);
    TruncOfIntegral(samples[i + 1].t);
    TruncOfIntegral(DetectState(CarryAt(c, samples, i + 1).activity));
  }

  // ---------------------------------------------------------------------
  // The HDF5 file

  /**
   * The nine datasets of a group: ts, ts_realtime, the x, y and z columns of
   * raw_data, acts, diffs, delays and states.
   */
  datatype SeriesName = Ts | TsRealtime | X | Y | Z | Acts | Diffs | Delays | States

  /** The datasets in the order log_to_hdf creates and appends them. */
  const SeriesOrder: seq<SeriesName> := [Ts, TsRealtime, X, Y, Z, Acts, Diffs, Delays, States]

  /** Where a dataset comes in that order. */
  function Position(n: SeriesName): (p: nat)
    ensures p < |SeriesOrder| && SeriesOrder[p] == n
  {
    match n
    case Ts => 0
    case TsRealtime => 1
    case X => 2
    case Y => 3
    case Z => 4
    case Acts => 5
    case Diffs => 6
    case Delays => 7
    case States => 8
  }

  /** The chunk's values for one dataset. */
  function Series(ch: Chunk, n: SeriesName): seq<real>
  {
    match n
    case Ts => ch.ts
    case TsRealtime => ch.tsRealtime
    case X => ch.x
    case Y => ch.y
    case Z => ch.z
    case Acts => ch.acts
    case Diffs => ch.diffs
    case Delays => ch.delays
    case States => ch.states
  }

  /** Every dataset of an aligned chunk has the chunk's length. */
  lemma SeriesLength(ch: Chunk, n: SeriesName)
    requires Aligned(ch, |ch.ts|)
    ensures |Series(ch, n)| == |ch.ts|
  {
  }

  /** An HDF5 group: its datasets by name. */
  type Group = map<SeriesName, seq<real>>

  /** A group as the logger leaves it: all nine datasets, all of one length. */
  predicate Complete(g: Group)
  {
    Ts in g && forall n: SeriesName :: n in g && |g[n]| == |g[Ts]|
  }

  /** The HDF5 file together with the logger's H5_INIT flag and dataset_name. */
  datatype Store = Store(file: map<string, Group>, init: bool, dataset: string)

  /** Once initialised, the logger's group exists and is complete. */
  predicate StoreValid(st: Store)
  {
    st.init ==> st.dataset in st.file && Complete(st.file[st.dataset])
  }

  /** The dataset at position k of the creation order is the only one there. */
  lemma PositionOf(k: nat)
    requires k < |SeriesOrder|
    ensures Position(SeriesOrder[k]) == k
  {
  }

  /** The group after the first k datasets in creation order have been created from the chunk. */
  function CreatedUpTo(ch: Chunk, k: nat): Group
    requires k <= |SeriesOrder|
  {
    if k == 0 then map[] else CreatedUpTo(ch, k - 1)[SeriesOrder[k - 1] := Series(ch, SeriesOrder[k - 1])]
  }

  /** After k creations, exactly the datasets before position k exist, each holding the chunk's series. */
  lemma {:induction false} CreatedAt(ch: Chunk, k: nat, n: SeriesName)
    requires k <= |SeriesOrder|
    ensures n in CreatedUpTo(ch, k) <==> Position(n) < k
    ensures n in CreatedUpTo(ch, k) ==> CreatedUpTo(ch, k)[n] == Series(ch, n)
  {
    if k > 0 {
      CreatedAt(ch, k - 1, n);
      PositionOf(k - 1);
    }
  }

  /** The group a first write creates: one dataset per series, holding the chunk's values. */
  function NewGroup(ch: Chunk): (g: Group)
    requires Aligned(ch, |ch.ts|)
    ensures Complete(g) && |g[Ts]| == |ch.ts|
    ensures forall n: SeriesName :: n in g && g[n] == Series(ch, n)
  {
    var g := CreatedUpTo(ch, |SeriesOrder|);
    assert forall n: SeriesName :: n in g && g[n] == Series(ch, n) && |Series(ch, n)| == |ch.ts| by {
      forall n: SeriesName
        ensures n in g && g[n] == Series(ch, n)
      {
        CreatedAt(ch, |SeriesOrder|, n);
      }
    }
    g
  }

  /** The group after the datasets before position k in creation order have had the chunk appended. */
  function AppendedUpTo(g: Group, ch: Chunk, k: nat): (r: Group)
    requires k <= |SeriesOrder|
    ensures r.Keys == g.Keys
    decreases k
  {
    if k == 0 then g
    else
      var r := AppendedUpTo(g, ch, k - 1);
      var n := SeriesOrder[k - 1];
      if n in r then r[n := r[n] + Series(ch, n)] else r
  }

  /** After k steps, a dataset has had the chunk appended exactly when it comes before position k. */
  lemma {:induction false} AppendedAt(g: Group, ch: Chunk, k: nat, n: SeriesName)
    requires k <= |SeriesOrder| && n in g
    ensures AppendedUpTo(g, ch, k)[n] == if Position(n) < k then g[n] + Series(ch, n) else g[n]
  {
    if k > 0 {
      AppendedAt(g, ch, k - 1, n);
      var r := AppendedUpTo(g, ch, k - 1);
      var m := SeriesOrder[k - 1];
      ExtendedAt(r, m, Series(ch, m), n);
      if n == m {
        PositionOf(k - 1);
      } else {
        assert Position(n) != k - 1;
      }
      AppendedStep(g[n], Series(ch, n), r[n], AppendedUpTo(g, ch, k)[n], Position(n), k, n == m);
    }
  }

  /** The step of AppendedAt on the values at one dataset: step k - 1 appends there exactly when it sits at k - 1. */
  lemma AppendedStep(start: seq<real>, extra: seq<real>, before: seq<real>, after: seq<real>, p: nat, k: nat, here: bool)
    requires k > 0 && (here <==> p == k - 1)
    requires before == if p < k - 1 then start + extra else start
    requires after == if here then before + extra else before
    ensures after == if p < k then start + extra else start
  {
  }

  /** Appending an empty chunk leaves the group as it was. */
  lemma {:induction false} AppendedNothing(g: Group, ch: Chunk, k: nat)
    requires k <= |SeriesOrder| && Aligned(ch, 0)
    ensures AppendedUpTo(g, ch, k) == g
  {
    if k > 0 {
      AppendedNothing(g, ch, k - 1);
      var n := SeriesOrder[k - 1];
      if n in g {
        assert g[n] + Series(ch, n) == g[n];
        assert g[n := g[n]] == g;
      }
    }
  }

  /** The group after a later write: every dataset grown by the chunk. */
  function Appended(g: Group, ch: Chunk): (r: Group)
    requires Complete(g) && Aligned(ch, |ch.ts|)
    ensures Complete(r) && |r[Ts]| == |g[Ts]| + |ch.ts|
    ensures forall n: SeriesName :: r[n][..|g[n]|] == g[n] && r[n][|g[n]|..] == Series(ch, n)
  {
    var r := AppendedUpTo(g, ch, |SeriesOrder|);
    AppendedEvery(g, ch);
    r
  }

  /** After all nine steps every dataset has had the chunk appended. */
  lemma AppendedEvery(g: Group, ch: Chunk)
    requires Complete(g) && Aligned(ch, |ch.ts|)
    ensures forall n: SeriesName :: n in g && AppendedUpTo(g, ch, |SeriesOrder|)[n] == g[n] + Series(ch, n)
    ensures forall n: SeriesName :: |Series(ch, n)| == |ch.ts|
  {
    forall n: SeriesName
      ensures AppendedUpTo(g, ch, |SeriesOrder|)[n] == g[n] + Series(ch, n)
    {
      AppendedAt(g, ch, |SeriesOrder|, n);
    }
  }

  /**
   * One call of log_to_hdf on store st with chunk ch, when now() reads
   * stamp; ok is false where the call raises.
   *  - First call: dataset_name becomes stamp, then create_group, which
   *    raises if a group of that name exists (H5_INIT stays false); else
   *    the nine datasets are created from the chunk and H5_INIT is set.
   *  - Later calls: each dataset is resized by the chunk's length and its
   *    last len(chunk) entries are assigned. For an empty chunk the slice
   *    [-0:] is the whole dataset, so the assignment raises on the first
   *    dataset unless that dataset is empty too.
   */
  function HdfWrite(st: Store, ch: Chunk, stamp: string): (r: (Store, bool))
    requires StoreValid(st) && Aligned(ch, |ch.ts|)
    ensures StoreValid(r.0)
  {
    if !st.init then
      if stamp in st.file then (st.(dataset := stamp), false)
      else (Store(st.file[stamp := NewGroup(ch)], true, stamp), true)
    else
      var g := st.file[st.dataset];
      if |ch.ts| == 0 && |g[Ts]| > 0 then (st, false)
      else (st.(file := st.file[st.dataset := Appended(g, ch)]), true)
  }

  /**
   * The first write to a fresh name creates the group: every dataset holds
   * exactly the chunk's series, the flag is set, and no other group changes.
   */
  lemma HdfFirstWrite(st: Store, ch: Chunk, stamp: string)
    requires StoreValid(st) && Aligned(ch, |ch.ts|)
    requires !st.init && stamp !in st.file
    ensures var (st', ok) := HdfWrite(st, ch, stamp);
            && ok && st'.init && st'.dataset == stamp
            && st'.file.Keys == st.file.Keys + {stamp}
            && (forall n: SeriesName :: n in st'.file[stamp] && st'.file[stamp][n] == Series(ch, n))
            && (forall name :: name in st.file ==> st'.file[name] == st.file[name])
  {
  }

  /** The first write to a name already in the file fails and leaves the file alone. */
  lemma HdfRefusesExistingGroup(st: Store, ch: Chunk, stamp: string)
    requires StoreValid(st) && Aligned(ch, |ch.ts|)
    requires !st.init && stamp in st.file
    ensures var (st', ok) := HdfWrite(st, ch, stamp);
            !ok && !st'.init && st'.file == st.file && st'.dataset == stamp
  {
  }

  /**
   * A later write of a nonempty chunk grows every dataset of the logger's
   * group by the chunk's length, keeps the old values as a prefix and puts
   * the chunk in the tail; no other group and neither flag changes.
   */
  lemma HdfLaterWrite(st: Store, ch: Chunk, stamp: string)
    requires StoreValid(st) && Aligned(ch, |ch.ts|)
    requires st.init && |ch.ts| > 0
    ensures var (st', ok) := HdfWrite(st, ch, stamp);
            var g, g' := st.file[st.dataset], st'.file[st.dataset];
            && ok && st'.init && st'.dataset == st.dataset && st'.file.Keys == st.file.Keys
            && (forall n: SeriesName :: |g'[n]| == |g[n]| + |ch.ts|
                                        && g'[n][..|g[n]|] == g[n] && g'[n][|g[n]|..] == Series(ch, n))
            && (forall name :: name in st.file && name != st.dataset ==> st'.file[name] == st.file[name])
  {
    var (st', ok) := HdfWrite(st, ch, stamp);
    var g, g' := st.file[st.dataset], st'.file[st.dataset];
    forall n: SeriesName
      ensures |g'[n]| == |g[n]| + |ch.ts|
    {
      SeriesLength(ch, n);
      assert g'[n] == g'[n][..|g[n]|] + g'[n][|g[n]|..];
    }
  }

  /** A later write of an empty chunk fails once the group holds data; nothing changes. */
  lemma HdfEmptyAppendFails(st: Store, ch: Chunk, stamp: string)
    requires StoreValid(st) && Aligned(ch, |ch.ts|)
    requires st.init && |ch.ts| == 0 && |st.file[st.dataset][Ts]| > 0
    ensures HdfWrite(st, ch, stamp) == (st, false)
  {
  }

  /**
   * Two writes of nonempty chunks from an uninitialised store whose first
   * stamp is new: the group is named by the first stamp (the second is not
   * read) and every dataset holds the first chunk's series followed by the
   * second's.
   */
  lemma {:induction false} HdfTwoWrites(st: Store, ch1: Chunk, ch2: Chunk, stamp1: string, stamp2: string)
    requires StoreValid(st) && Aligned(ch1, |ch1.ts|) && Aligned(ch2, |ch2.ts|)
    requires !st.init && stamp1 !in st.file && |ch2.ts| > 0
    ensures var (st1, ok1) := HdfWrite(st, ch1, stamp1);
            var (st2, ok2) := HdfWrite(st1, ch2, stamp2);
            && ok1 && ok2 && st2.dataset == stamp1
            && forall n: SeriesName :: st2.file[stamp1][n] == Series(ch1, n) + Series(ch2, n)
  {
    HdfFirstWrite(st, ch1, stamp1);
    var (st1, ok1) := HdfWrite(st, ch1, stamp1);
    HdfLaterWrite(st1, ch2, stamp2);
    var (st2, ok2) := HdfWrite(st1, ch2, stamp2);
    forall n: SeriesName
      ensures st2.file[stamp1][n] == Series(ch1, n) + Series(ch2, n)
    {
      var g' := st2.file[stamp1][n];
      assert g' == g'[..|Series(ch1, n)|] + g'[|Series(ch1, n)|..];
    }
  }

  // ---------------------------------------------------------------------
  // chunkwise_logger's fold over its cycles

  /** One cycle's inputs: the clock read that starts it, the sensor reads, and the now() the HDF write sees. */
  datatype CycleInput = CycleInput(startMilli: int, samples: seq<Read>, stamp: string)

  /** chunkwise_logger's initial values: acts = [0], current_delay = 2.0, last_spike = -1e10. */
  const StartCarry := Carry(0.0, 2.0, -10000000000)

  /** Every cycle has its baseline read and t_size reads after it. */
  predicate Shaped(cycles: seq<CycleInput>, tSize: nat)
  {
    forall k :: 0 <= k < |cycles| ==> |cycles[k].samples| == tSize + 1
  }

  /** Within every cycle the reads' times do not go backwards. */
  predicate Monotone(cycles: seq<CycleInput>)
  {
    forall k, m :: 0 <= k < |cycles| && 0 <= m < |cycles[k].samples| - 1 ==>
      cycles[k].samples[m].t <= cycles[k].samples[m + 1].t
  }

  /** The reads of one cycle of a monotone run do not go backwards. */
  lemma MonotoneCycle(cycles: seq<CycleInput>, k: nat)
    requires Monotone(cycles) && k < |cycles|
    ensures forall m :: 0 <= m < |cycles[k].samples| - 1 ==> cycles[k].samples[m].t <= cycles[k].samples[m + 1].t
  {
  }

  /**
   * The control state cycle k starts from: the start values for the first
   * cycle, and for a later one the previous cycle's acts[-1], delays[-1]
   * and returned last_spike.
   */
  function Seed(cycles: seq<CycleInput>, tSize: nat, k: nat): Carry
    requires Shaped(cycles, tSize) && tSize >= 1 && k <= |cycles|
    decreases k
  {
    if k == 0 then StartCarry
    else
      var prev := Seed(cycles, tSize, k - 1);
      var input := cycles[k - 1];
      var ch := CycleChunk(prev, input.samples, input.startMilli);
      Carry(ch.acts[tSize - 1], ch.delays[tSize - 1], FinalCarry(prev, input.samples).lastSpike)
  }

  /** What cycle k stores before its diffs reach the display. */
  function RawChunk(cycles: seq<CycleInput>, tSize: nat, k: nat): (ch: Chunk)
    requires Shaped(cycles, tSize) && tSize >= 1 && k < |cycles|
    ensures Aligned(ch, tSize)
  {
    CycleChunk(Seed(cycles, tSize, k), cycles[k].samples, cycles[k].startMilli)
  }

  /** Whether draw_timeseries rescales a chunk's diffs: their window's peak is not zero. */
  predicate Rescales(raw: Chunk)
    requires |raw.diffs| > 0
  {
    Peak(View(raw.diffs)) != 0.0
  }

  /** A chunk with its diffs as draw_timeseries leaves them. */
  function Displayed(raw: Chunk): (ch: Chunk)
    requires |raw.diffs| > 0
    ensures ch.diffs == if Rescales(raw) then Rescaled(raw.diffs) else raw.diffs
    ensures ch == raw.(diffs := ch.diffs)
  {
    if Rescales(raw) then raw.(diffs := Rescaled(raw.diffs)) else raw
  }

  /**
   * The records of a chunk as the display left it: only the diff of a slot
   * in the plotted window changes, to the scaled value, and only when the
   * display rescaled.
   */
  lemma DisplayedRecords(raw: Chunk, i: nat)
    requires Aligned(raw, |raw.ts|) && i < |raw.ts|
    ensures Aligned(Displayed(raw), |raw.ts|)
    ensures Records(Displayed(raw))[i]
            == Records(raw)[i].(diff := Fixed(2, if Rescales(raw) && i in ViewIndices(|raw.diffs|)
                                                 then ScaledPoint(raw.diffs[i], Peak(View(raw.diffs)))
                                                 else raw.diffs[i]))
  {
  }

  /** Whether the display rescales cycle k's diffs. */
  predicate Plotted(cycles: seq<CycleInput>, tSize: nat, k: nat)
    requires Shaped(cycles, tSize) && tSize >= 1 && k < |cycles|
  {
    Rescales(RawChunk(cycles, tSize, k))
  }

  /** The chunk cycle k hands to log_data: its diffs as the display left them. */
  function Logged(cycles: seq<CycleInput>, tSize: nat, k: nat): (ch: Chunk)
    requires Shaped(cycles, tSize) && tSize >= 1 && k < |cycles|
    ensures Aligned(ch, tSize)
  {
    Displayed(RawChunk(cycles, tSize, k))
  }

  /** The redis records of the first k cycles. */
  function RecordsUpTo(cycles: seq<CycleInput>, tSize: nat, k: nat): (r: seq<Record>)
    requires Shaped(cycles, tSize) && tSize >= 1 && k <= |cycles|
    ensures |r| == k * tSize
  {
    if k == 0 then [] else RecordsUpTo(cycles, tSize, k - 1) + Records(Logged(cycles, tSize, k - 1))
  }

  /** The store after the HDF writes of the first k cycles. */
  function StoreAfter(st: Store, cycles: seq<CycleInput>, tSize: nat, k: nat): (r: Store)
    requires StoreValid(st) && Shaped(cycles, tSize) && tSize >= 1 && k <= |cycles|
    ensures StoreValid(r)
  {
    if k == 0 then st
    else HdfWrite(StoreAfter(st, cycles, tSize, k - 1), Logged(cycles, tSize, k - 1), cycles[k - 1].stamp).0
  }

  /**
   * The seed of cycle k + 1 is the control state cycle k ends in: reading
   * acts[-1] and delays[-1] back out of the arrays loses nothing.
   */
  lemma SeedIsFinalCarry(cycles: seq<CycleInput>, tSize: nat, k: nat)
    requires Shaped(cycles, tSize) && tSize >= 1 && k < |cycles|
    ensures Seed(cycles, tSize, k + 1) == FinalCarry(Seed(cycles, tSize, k), cycles[k].samples)
  {
    CycleChunkSlot(Seed(cycles, tSize, k), cycles[k].samples, cycles[k].startMilli, tSize - 1);
  }

  /** The seed of cycle k + 1 is the control state after the tSize iterations of cycle k. */
  lemma SeedStep(cycles: seq<CycleInput>, tSize: nat, k: nat)
    requires Shaped(cycles, tSize) && tSize >= 1 && k < |cycles|
    ensures |cycles[k].samples| == tSize + 1
    ensures Seed(cycles, tSize, k + 1) == CarryAt(Seed(cycles, tSize, k), cycles[k].samples, tSize)
  {
    SeedIsFinalCarry(cycles, tSize, k);
  }

  /** Chaining cycles keeps the delay controller in range: every seed's delay is in [2, 200]. */
  lemma {:induction false} SeedDelaysInRange(cycles: seq<CycleInput>, tSize: nat, k: nat)
    requires Shaped(cycles, tSize) && tSize >= 1 && k <= |cycles|
    ensures MinDelay <= Seed(cycles, tSize, k).delay <= MaxDelay
  {
    if k > 0 {
      SeedDelaysInRange(cycles, tSize, k - 1);
      SeedIsFinalCarry(cycles, tSize, k - 1);
      DelaysStayInRange(Seed(cycles, tSize, k - 1), cycles[k - 1].samples, tSize);
    }
  }

  /** One cycle of tSize monotone iterations from an activity in [0, 1] ends in [0, 1]. */
  lemma ActivityStep(prev: Carry, next: Carry, samples: seq<Read>, tSize: nat)
    requires |samples| == tSize + 1 && next == CarryAt(prev, samples, tSize)
    requires 0.0 <= prev.activity <= 1.0
    requires forall m :: 0 <= m < |samples| - 1 ==> samples[m].t <= samples[m + 1].t
    ensures 0.0 <= next.activity <= 1.0
  {
    ActivityStaysInUnitInterval(prev, samples, tSize);
  }

  /**
   * Chaining cycles keeps the activity in [0, 1], provided the reads'
   * times do not go backwards within a cycle.
   */
  lemma {:induction false} SeedActivitiesInRange(cycles: seq<CycleInput>, tSize: nat, k: nat)
    requires Shaped(cycles, tSize) && tSize >= 1 && k <= |cycles|
    requires Monotone(cycles)
    ensures 0.0 <= Seed(cycles, tSize, k).activity <= 1.0
  {
    if k > 0 {
      MonotoneCycle(cycles, k - 1);
      SeedActivitiesInRange(cycles, tSize, k - 1);
      SeedStep(cycles, tSize, k - 1);
      ActivityStep(Seed(cycles, tSize, k - 1), Seed(cycles, tSize, k), cycles[k - 1].samples, tSize);
    }
  }

  /**
   * The chunks chunkwise_logger logs run on without a gap: cycle k + 1
   * starts from the control state in which cycle k ended, so its activity
   * after m steps is that of one cycle over both cycles' reads, the second
   * baseline read left out, provided that read repeats cycle k's last read.
   */
  lemma CyclesChain(cycles: seq<CycleInput>, tSize: nat, k: nat, m: nat)
    requires Shaped(cycles, tSize) && tSize >= 1 && k + 1 < |cycles| && m <= tSize
    requires cycles[k + 1].samples[0] == cycles[k].samples[tSize]
    ensures CarryAt(Seed(cycles, tSize, k), cycles[k].samples + cycles[k + 1].samples[1..], tSize + m)
            == CarryAt(Seed(cycles, tSize, k + 1), cycles[k + 1].samples, m)
  {
    SeedIsFinalCarry(cycles, tSize, k);
    ChunkBoundaryContinuity(Seed(cycles, tSize, k), cycles[k].samples, cycles[k + 1].samples, m);
  }

  /** Column c of raw_data, as a series. */
  function Column(a: array2<real>, c: nat): (r: seq<real>)
    requires c < a.Length1
    reads a
    ensures |r| == a.Length0
    ensures forall i :: 0 <= i < a.Length0 ==> r[i] == a[i, c]
  {
    seq(a.Length0, i requires 0 <= i < a.Length0 reads a => a[i, c])
  }

  // ---------------------------------------------------------------------
  // The logger

  class SleepLogger {
    /** config.LOG_TO_REDIS and config.LOG_TO_HDF. */
    const logToRedis: bool
    const logToHdf: bool
    const mma: Mma.Mma8452q
    const oled: DriversOled.Oled
    /** The entries of the redis stream 'accel', oldest first. */
    var stream: seq<Record>
    /** The HDF5 log file, H5_INIT and dataset_name. */
    var file: map<string, Group>
    var h5Init: bool
    var datasetName: string

    function Current(): Store
      reads this
    {
      Store(file, h5Init, datasetName)
    }

    predicate Valid()
      reads this
    {
      StoreValid(Current())
    }

    /**
     * __init__: the accelerometer is configured on the bus, dataset_name is
     * stamped, H5_INIT cleared, and the display built (it shows "Sleep
     * Well"). The stream and the file hold what they held before.
     */
    constructor (bus: Mma.Bus, measure: (Label, Font) -> Size, logToRedis: bool, logToHdf: bool,
                 stream: seq<Record>, file: map<string, Group>, stamp: string)
      modifies bus
      ensures mma.bus == bus
      ensures bus.trace == old(bus.trace) + [Mma.WriteByte(Mma.DefaultAddress, Mma.RegCtrlReg1, 0x01),
                                             Mma.WriteByte(Mma.DefaultAddress, Mma.RegXyzDataCfg, 0x00)]
      ensures this.logToRedis == logToRedis && this.logToHdf == logToHdf
      ensures this.stream == stream && this.file == file && !h5Init && datasetName == stamp
      ensures fresh(oled) && oled.measure == measure
      ensures oled.image == [ClearOp] + FrameOps(1)
                            + Glyphs(Literal("Sleep Well"), LargeFont,
                                     DriversOled.Anchor(Center, measure(Literal("Sleep Well"), LargeFont)))
      ensures oled.shown == [[], oled.image]
      ensures Valid()
    {
      mma := new Mma.Mma8452q(bus);
      this.logToRedis := logToRedis;
      this.stream := stream;
      this.logToHdf := logToHdf;
      datasetName := stamp;
      this.file := file;
      h5Init := false;
      oled := new DriversOled.Oled(measure);
    }

    /**
     * log_to_redis: one entry per slot, in slot order. The result is the id
     * of the last entry (its position in the stream); an empty chunk leaves
     * res unbound and raises, None here.
     */
    method LogToRedis(ch: Chunk) returns (res: Option<nat>)
      requires Aligned(ch, |ch.ts|)
      modifies this
      ensures stream == old(stream) + Records(ch)
      ensures res == if |ch.ts| == 0 then None else Some(|stream| - 1)
      ensures file == old(file) && h5Init == old(h5Init) && datasetName == old(datasetName)
    {
      res := None;
      for i := 0 to |ch.ts|
        invariant stream == old(stream) + Records(ch)[..i]
        invariant res == if i == 0 then None else Some(|stream| - 1)
        invariant file == old(file) && h5Init == old(h5Init) && datasetName == old(datasetName)
      {
        var diff := Fixed(2, ch.diffs[i]);
        var activity := Fixed(4, ch.acts[i]);
        var delay := Fixed(2, ch.delays[i]);
        var state := Trunc(ch.states[i]);
        var t := Trunc(ch.ts[i]);
        var tRealtime := Trunc(ch.tsRealtime[i]);
        assert Records(ch)[..i + 1] == Records(ch)[..i] + [RecordAt(ch, i)];
        stream := stream + [Record(t, tRealtime, ch.x[i], ch.y[i], ch.z[i], activity, diff, delay, state)];
        res := Some(|stream| - 1);
      }
      assert Records(ch)[..|ch.ts|] == Records(ch);
    }

    /**
     * log_to_hdf: on the first call, stamp dataset_name, create the group
     * and its datasets one by one and set H5_INIT; on later calls, grow and
     * fill the datasets one by one. ok is false where the source raises.
     */
    method LogToHdf(ch: Chunk, stamp: string) returns (ok: bool)
      requires Valid() && Aligned(ch, |ch.ts|)
      modifies this
      ensures (Current(), ok) == HdfWrite(old(Current()), ch, stamp)
      ensures stream == old(stream)
    {
      if !h5Init {
        datasetName := stamp;
        if datasetName in file {
          return false;
        }
        CreateGroup(ch);
        h5Init := true;
        return true;
      }
      ok := AppendGroup(ch);
      assert Current() == if ok then old(Current()).(file := old(file)[datasetName := Appended(old(file)[datasetName], ch)]) else old(Current());
    }

    /** The first-write branch: an empty group, then one dataset per series in creation order. */
    method CreateGroup(ch: Chunk)
      requires Aligned(ch, |ch.ts|) && datasetName !in file
      modifies this
      ensures file == old(file)[datasetName := NewGroup(ch)]
      ensures stream == old(stream) && h5Init == old(h5Init) && datasetName == old(datasetName)
    {
      file := file[datasetName := CreatedUpTo(ch, 0)];
      for i := 0 to |SeriesOrder|
        invariant file == old(file)[datasetName := CreatedUpTo(ch, i)]
        invariant stream == old(stream) && h5Init == old(h5Init) && datasetName == old(datasetName)
      {
        var n := SeriesOrder[i];
        assert CreatedUpTo(ch, i + 1) == CreatedUpTo(ch, i)[n := Series(ch, n)];
        UpdateTwice(old(file), datasetName, CreatedUpTo(ch, i), CreatedUpTo(ch, i + 1));
        file := file[datasetName := file[datasetName][n := Series(ch, n)]];
      }
    }

    /**
     * The later-write branch: for each dataset in order, resize by the
     * chunk's length and assign the tail. An empty chunk on a nonempty
     * dataset raises at the first dataset.
     */
    method AppendGroup(ch: Chunk) returns (ok: bool)
      requires Valid() && h5Init && Aligned(ch, |ch.ts|)
      modifies this
      ensures stream == old(stream) && h5Init && datasetName == old(datasetName)
      ensures ok <==> |ch.ts| > 0 || |old(file)[datasetName][Ts]| == 0
      ensures file == if ok then old(file)[datasetName := Appended(old(file)[datasetName], ch)] else old(file)
    {
      ghost var g := file[datasetName];
      assert AppendedUpTo(g, ch, 0) == g;
      assert old(file)[datasetName := g] == old(file);
      for i := 0 to |SeriesOrder|
        invariant file == old(file)[datasetName := AppendedUpTo(g, ch, i)]
        invariant i > 0 ==> |ch.ts| > 0 || |g[Ts]| == 0
        invariant stream == old(stream) && h5Init && datasetName == old(datasetName)
      {
        ok := AppendSeries(ch, g, old(file), i);
        if !ok {
          return;
        }
      }
      assert AppendedUpTo(g, ch, |SeriesOrder|) == Appended(g, ch);
      ok := true;
    }

    /**
     * One dataset of the later-write branch: resize by the chunk's length
     * and assign the tail, which raises for an empty chunk on a nonempty
     * dataset.
     */
    method AppendSeries(ch: Chunk, ghost g: Group, ghost base: map<string, Group>, i: nat) returns (ok: bool)
      requires Complete(g) && Aligned(ch, |ch.ts|) && i < |SeriesOrder|
      requires datasetName in base && base[datasetName] == g
      requires file == base[datasetName := AppendedUpTo(g, ch, i)]
      requires i > 0 ==> |ch.ts| > 0 || |g[Ts]| == 0
      modifies this
      ensures stream == old(stream) && h5Init == old(h5Init) && datasetName == old(datasetName)
      ensures ok ==> file == base[datasetName := AppendedUpTo(g, ch, i + 1)]
      ensures ok ==> |ch.ts| > 0 || |g[Ts]| == 0
      ensures !ok ==> file == base && |ch.ts| == 0 && |g[Ts]| > 0
    {
      var n := SeriesOrder[i];
      var values := Series(ch, n);
      var dataset := file[datasetName][n];
      SeriesLength(ch, n);
      AppendedAt(g, ch, i, n);
      if |values| == 0 && |dataset| > 0 {
        AppendedNothing(g, ch, i);
        assert base[datasetName := g] == base;
        return false;
      }
      file := file[datasetName := file[datasetName][n := dataset + values]];
      ok := true;
    }

    /** log_data: the chunk goes to the redis stream if LOG_TO_REDIS is set, then to the file if LOG_TO_HDF is. */
    method LogData(ch: Chunk, stamp: string)
      requires Valid() && Aligned(ch, |ch.ts|)
      modifies this
      ensures Valid()
      ensures stream == old(stream) + (if logToRedis then Records(ch) else [])
      ensures Current() == if logToHdf then HdfWrite(old(Current()), ch, stamp).0 else old(Current())
    {
      if logToRedis {
        var _ := LogToRedis(ch);
      }
      if logToHdf {
        var _ := LogToHdf(ch, stamp);
      }
    }

    /** What the display draws for a chunk: on a cleared picture, its rescaled window and acts[-1] as caption; nothing at a zero peak. */
    function ChunkOps(raw: Chunk, tSize: nat): seq<DrawOp>
      requires Aligned(raw, tSize) && tSize >= 1
    {
      if Rescales(raw) then oled.PlotOps(View(Displayed(raw).diffs), Some(Fixed(2, raw.acts[tSize - 1])), true)
      else []
    }

    /** What cycle k draws. */
    function CycleOps(cycles: seq<CycleInput>, tSize: nat, k: nat): seq<DrawOp>
      requires Shaped(cycles, tSize) && tSize >= 1 && k < |cycles|
    {
      ChunkOps(RawChunk(cycles, tSize, k), tSize)
    }

    /** The display's picture after the first k cycles, from base. */
    function ImageAfter(base: seq<DrawOp>, cycles: seq<CycleInput>, tSize: nat, k: nat): seq<DrawOp>
      requires Shaped(cycles, tSize) && tSize >= 1 && k <= |cycles|
    {
      if k == 0 then base else ImageAfter(base, cycles, tSize, k - 1) + CycleOps(cycles, tSize, k - 1)
    }

    /** The pictures pushed to the panel after the first k cycles: one per plotted cycle. */
    function ShownAfter(shown0: seq<seq<DrawOp>>, base: seq<DrawOp>, cycles: seq<CycleInput>, tSize: nat, k: nat)
      : seq<seq<DrawOp>>
      requires Shaped(cycles, tSize) && tSize >= 1 && k <= |cycles|
    {
      if k == 0 then shown0
      else ShownAfter(shown0, base, cycles, tSize, k - 1)
           + (if Plotted(cycles, tSize, k - 1) then [ImageAfter(base, cycles, tSize, k)] else [])
    }

    /**
     * chunkwise_logger: n_cycles cycles of adaptive_logger, each seeded
     * with the previous cycle's acts[-1], delays[-1] and last_spike; each
     * cycle's diffs are plotted, captioned with acts[-1], and the cycle as
     * the display left it goes to log_data. The result is the last cycle.
     * With no cycle the result arrays are unbound, and with t_size 0 the
     * caption's acts[-1] fails; both raise, None here. init_activity is
     * not read (the first seed's activity is acts = [0]), nor is init_acc.
     */
    method ChunkwiseLogger(nCycles: nat, tSize: nat, initActivity: real, cycles: seq<CycleInput>)
      returns (last: Option<Chunk>)
      requires Valid() && |cycles| == nCycles && Shaped(cycles, tSize)
      modifies this, oled
      ensures Valid()
      ensures nCycles == 0 || tSize == 0 ==>
                && last == None && stream == old(stream) && Current() == old(Current())
                && oled.image == old(oled.image) && oled.shown == old(oled.shown)
      ensures nCycles > 0 && tSize > 0 ==>
                && last == Some(Logged(cycles, tSize, nCycles - 1))
                && stream == old(stream) + (if logToRedis then RecordsUpTo(cycles, tSize, nCycles) else [])
                && Current() == (if logToHdf then StoreAfter(old(Current()), cycles, tSize, nCycles) else old(Current()))
                && oled.image == ImageAfter(old(oled.image), cycles, tSize, nCycles)
                && oled.shown == ShownAfter(old(oled.shown), old(oled.image), cycles, tSize, nCycles)
    {
      if nCycles == 0 || tSize == 0 {
        return None;
      }
      var seed := StartCarry;
      last := None;
      for k := 0 to nCycles
        invariant Folded(cycles, tSize, k, old(stream), old(Current()), old(oled.image), old(oled.shown))
        invariant seed == Seed(cycles, tSize, k)
        invariant k > 0 ==> last == Some(Logged(cycles, tSize, k - 1))
      {
        var ch, next := FoldCycle(cycles, tSize, k, seed, old(stream), old(Current()), old(oled.image), old(oled.shown));
        seed := next;
        last := Some(ch);
      }
    }

    /**
     * The state after the first k cycles of chunkwise_logger, from a stream,
     * a store, a picture and a list of pushed pictures.
     */
    ghost predicate Folded(cycles: seq<CycleInput>, tSize: nat, k: nat, stream0: seq<Record>, st0: Store,
                           image0: seq<DrawOp>, shown0: seq<seq<DrawOp>>)
      requires Shaped(cycles, tSize) && tSize >= 1 && k <= |cycles| && StoreValid(st0)
      reads this, oled
    {
      && Valid()
      && stream == stream0 + (if logToRedis then RecordsUpTo(cycles, tSize, k) else [])
      && Current() == (if logToHdf then StoreAfter(st0, cycles, tSize, k) else st0)
      && oled.image == ImageAfter(image0, cycles, tSize, k)
      && oled.shown == ShownAfter(shown0, image0, cycles, tSize, k)
    }

    /** Cycle k of chunkwise_logger, as a step of the fold over the cycles. */
    method FoldCycle(cycles: seq<CycleInput>, tSize: nat, k: nat, seed: Carry, ghost stream0: seq<Record>,
                     ghost st0: Store, ghost image0: seq<DrawOp>, ghost shown0: seq<seq<DrawOp>>)
      returns (ch: Chunk, next: Carry)
      requires Shaped(cycles, tSize) && tSize >= 1 && k < |cycles| && StoreValid(st0)
      requires Folded(cycles, tSize, k, stream0, st0, image0, shown0)
      requires seed == Seed(cycles, tSize, k)
      modifies this, oled
      ensures Folded(cycles, tSize, k + 1, stream0, st0, image0, shown0)
      ensures next == Seed(cycles, tSize, k + 1)
      ensures ch == Logged(cycles, tSize, k)
    {
      ghost var stream1, store1, image1, shown1 := stream, Current(), oled.image, oled.shown;
      ch, next := Cycle(cycles, tSize, k, seed);
      FoldStep(cycles, tSize, k, ch, stream0, stream1, stream, st0, store1, Current(),
               image0, image1, oled.image, shown0, shown1, oled.shown);
    }

    /** The folds after k + 1 cycles are the folds after k cycles followed by what cycle k did. */
    lemma FoldStep(cycles: seq<CycleInput>, tSize: nat, k: nat, ch: Chunk,
                   stream0: seq<Record>, stream1: seq<Record>, stream2: seq<Record>,
                   st0: Store, store1: Store, store2: Store,
                   image0: seq<DrawOp>, image1: seq<DrawOp>, image2: seq<DrawOp>,
                   shown0: seq<seq<DrawOp>>, shown1: seq<seq<DrawOp>>, shown2: seq<seq<DrawOp>>)
      requires Shaped(cycles, tSize) && tSize >= 1 && k < |cycles| && StoreValid(st0)
      requires ch == Logged(cycles, tSize, k)
      requires stream1 == stream0 + (if logToRedis then RecordsUpTo(cycles, tSize, k) else [])
      requires stream2 == stream1 + (if logToRedis then Records(ch) else [])
      requires store1 == (if logToHdf then StoreAfter(st0, cycles, tSize, k) else st0)
      requires store2 == if logToHdf then HdfWrite(store1, ch, cycles[k].stamp).0 else store1
      requires image1 == ImageAfter(image0, cycles, tSize, k)
      requires image2 == image1 + CycleOps(cycles, tSize, k)
      requires shown1 == ShownAfter(shown0, image0, cycles, tSize, k)
      requires shown2 == shown1 + (if Plotted(cycles, tSize, k) then [image2] else [])
      ensures stream2 == stream0 + (if logToRedis then RecordsUpTo(cycles, tSize, k + 1) else [])
      ensures store2 == (if logToHdf then StoreAfter(st0, cycles, tSize, k + 1) else st0)
      ensures image2 == ImageAfter(image0, cycles, tSize, k + 1)
      ensures shown2 == ShownAfter(shown0, image0, cycles, tSize, k + 1)
    {
      Associative(stream0, if logToRedis then RecordsUpTo(cycles, tSize, k) else [],
                  if logToRedis then Records(ch) else []);
    }

    /** One cycle of chunkwise_logger from its seed: sample, plot, hand to log_data. */
    method Cycle(cycles: seq<CycleInput>, tSize: nat, k: nat, seed: Carry) returns (ch: Chunk, next: Carry)
      requires Valid() && Shaped(cycles, tSize) && tSize >= 1 && k < |cycles|
      requires seed == Seed(cycles, tSize, k)
      modifies this, oled
      ensures Valid()
      ensures next == Seed(cycles, tSize, k + 1)
      ensures ch == Logged(cycles, tSize, k)
      ensures stream == old(stream) + (if logToRedis then Records(ch) else [])
      ensures Current() == if logToHdf then HdfWrite(old(Current()), ch, cycles[k].stamp).0 else old(Current())
      ensures oled.image == old(oled.image) + CycleOps(cycles, tSize, k)
      ensures oled.shown == old(oled.shown) + (if Plotted(cycles, tSize, k) then [oled.image] else [])
    {
      var raw, diffs;
      raw, diffs, next := SampleCycle(cycles, tSize, k, seed);
      ShowCycle(raw, tSize, diffs);
      ch := raw.(diffs := diffs[..]);
      LogData(ch, cycles[k].stamp);
    }

    /** The display half of a cycle: draw_timeseries on diffs, captioned with acts[-1], cleared and pushed. */
    method ShowCycle(raw: Chunk, tSize: nat, diffs: array<real>)
      requires Aligned(raw, tSize) && tSize >= 1 && diffs[..] == raw.diffs
      modifies oled, diffs
      ensures diffs[..] == Displayed(raw).diffs
      ensures oled.image == old(oled.image) + ChunkOps(raw, tSize)
      ensures oled.shown == old(oled.shown) + (if Rescales(raw) then [oled.image] else [])
    {
      var caption := Fixed(2, raw.acts[tSize - 1]);
      var outcome := oled.DrawTimeseries(diffs, Some(caption), true, true);
      ShowStep(raw, tSize, outcome, diffs[..], old(oled.image), oled.image, old(oled.shown), oled.shown);
    }

    /** The contract of draw_timeseries on a chunk's diffs, read as what the chunk displays. */
    lemma ShowStep(raw: Chunk, tSize: nat, outcome: ScaleOutcome, d: seq<real>,
                   image0: seq<DrawOp>, image1: seq<DrawOp>, shown0: seq<seq<DrawOp>>, shown1: seq<seq<DrawOp>>)
      requires Aligned(raw, tSize) && tSize >= 1 && outcome != EmptyData
      requires outcome == ZeroPeak <==> Peak(View(raw.diffs)) == 0.0
      requires outcome.Scaled? ==> d == Rescaled(raw.diffs) && shown1 == shown0 + [image1]
                                   && image1 == image0 + oled.PlotOps(View(d), Some(Fixed(2, raw.acts[tSize - 1])), true)
      requires !outcome.Scaled? ==> d == raw.diffs && image1 == image0 && shown1 == shown0
      ensures d == Displayed(raw).diffs
      ensures image1 == image0 + ChunkOps(raw, tSize)
      ensures shown1 == shown0 + (if Rescales(raw) then [image1] else [])
    {
      if outcome.Scaled? {
        assert Rescales(raw);
        assert Displayed(raw).diffs == d;
        assert ChunkOps(raw, tSize) == oled.PlotOps(View(d), Some(Fixed(2, raw.acts[tSize - 1])), true);
      } else {
        assert !Rescales(raw);
        assert ChunkOps(raw, tSize) == [];
        assert image0 + [] == image0;
      }
    }

    /**
     * The sampling half of a cycle: adaptive_logger from the seed, its
     * arrays read back as a chunk (diffs also as the array the display will
     * rescale), and the next seed taken from acts[-1], delays[-1] and the
     * returned last_spike.
     */
    method SampleCycle(cycles: seq<CycleInput>, tSize: nat, k: nat, seed: Carry)
      returns (raw: Chunk, diffs: array<real>, next: Carry)
      requires Shaped(cycles, tSize) && tSize >= 1 && k < |cycles|
      requires seed == Seed(cycles, tSize, k)
      ensures fresh(diffs)
      ensures raw == RawChunk(cycles, tSize, k) && diffs[..] == raw.diffs
      ensures next == Seed(cycles, tSize, k + 1)
    {
      var input := cycles[k];
      var tsData, tsRealtimeData, rawData, acts, delays, states, lastSpike;
      tsData, tsRealtimeData, rawData, acts, diffs, delays, states, lastSpike :=
        AdaptiveLogger(tSize, seed.delay, seed.activity, seed.lastSpike, input.startMilli, input.samples);
      assert Carry(seed.activity, seed.delay, seed.lastSpike) == seed;
      ghost var expected := RawChunk(cycles, tSize, k);
      raw := Chunk(tsData[..], tsRealtimeData[..], Column(rawData, 0), Column(rawData, 1), Column(rawData, 2),
                   acts[..], diffs[..], delays[..], states[..]);
      assert raw.x == expected.x && raw.y == expected.y && raw.z == expected.z;
      assert acts[tSize - 1] == expected.acts[tSize - 1] && delays[tSize - 1] == expected.delays[tSize - 1];
      next := Carry(acts[tSize - 1], delays[tSize - 1], lastSpike);
    }
  }
}
