/**
 * The per-sample arithmetic of the sleep logger: the leaky, saturating
 * activity integrator, the two-valued sleep-state classifier and the
 * multiplicative sampling-delay controller.
 */
module Activity {

  /** Motion-difference level above which a sample counts as a spike (config.py). */
  const ActivityThreshold: real := 12.5
  /** Time constant of the exponential decay, 2 * 60 * 1000 ms. */
  const DecayConstant: real := 120000.0
  /** Fraction of the remaining distance to 1 that one spike adds. */
  const SpikeStrength: real := 0.07
  /** Quiet time after the last spike before decay sets in, 5 * 60 * 1000 ms. */
  const DecayDelay: real := 300000.0
  /** Activity below this level is classified as deep sleep. */
  const DeepSleepLevel: real := 0.01
  /** Bounds of the sampling delay, in ms. */
  const MinDelay: real := 2.0
  const MaxDelay: real := 200.0

  /** The integrator's two state variables after one step. */
  datatype Integrated = Integrated(activity: real, lastSpike: int)

  /** The saturating spike update: move a fraction SpikeStrength of the way to 1. */
  function Spiked(activity: real): (r: real)
    ensures 0.0 <= activity <= 1.0 ==> activity <= r <= 1.0
    ensures 0.0 <= activity < 1.0 ==> activity < r
    ensures 1.0 - r == (1.0 - activity) * (1.0 - SpikeStrength)
  {
    activity + (1.0 - activity) * SpikeStrength
  }

  /** The clamp at 0 from below. */
  function Floored(a: real): (r: real)
    ensures r >= 0.0 && r >= a
    ensures a >= 0.0 ==> r == a
  {
    if a < 0.0 then 0.0 else a
  }

  /**
   * One integration step. A spike (diff above the threshold) is applied
   * first and moves last_spike to now; decay is then gated on the time
   * since the (possibly just updated) last spike; the result is clamped
   * at 0 from below.
   */
  function IntegrateActivity(activity: real, diff: real, dt: int, now: int, lastSpike: int): (r: Integrated)
    ensures r.activity >= 0.0
    ensures r.lastSpike == if diff > ActivityThreshold then now else lastSpike
    ensures diff > ActivityThreshold && 0.0 <= activity <= 1.0 ==> activity <= r.activity <= 1.0
    ensures diff <= ActivityThreshold && activity >= 0.0 && dt >= 0 ==> r.activity <= activity
    ensures diff <= ActivityThreshold && activity >= 0.0 && (now - lastSpike) as real <= DecayDelay
            ==> r == Integrated(activity, lastSpike)
  {
    var a1 := if diff > ActivityThreshold then Spiked(activity) else activity;
    var spike := if diff > ActivityThreshold then now else lastSpike;
    var a2 := if (now - spike) as real > DecayDelay then a1 + -a1 / DecayConstant * dt as real else a1;
    Integrated(Floored(a2), spike)
  }

  /** A step that registers a spike never decays: the spike update alone decides the result. */
  lemma SpikeStepNeverDecays(activity: real, diff: real, dt: int, now: int, lastSpike: int)
    requires diff > ActivityThreshold
    ensures var r := IntegrateActivity(activity, diff, dt, now, lastSpike);
            r.lastSpike == now && r.activity == Floored(Spiked(activity))
  {
  }

  /**
   * Without a spike and after the quiet period, activity follows one Euler
   * step of exponential decay, activity * (1 - dt / DecayConstant), floored at 0.
   */
  lemma QuietStepDecays(activity: real, diff: real, dt: int, now: int, lastSpike: int)
    requires diff <= ActivityThreshold
    requires (now - lastSpike) as real > DecayDelay
    ensures IntegrateActivity(activity, diff, dt, now, lastSpike)
            == Integrated(Floored(activity * (1.0 - dt as real / DecayConstant)), lastSpike)
  {
    var decayed := activity + -activity / DecayConstant * dt as real;
    assert decayed == activity * (1.0 - dt as real / DecayConstant);
  }

  /** With positive activity, a positive step and the gate open, decay strictly lowers activity. */
  lemma QuietStepStrictlyDecays(activity: real, diff: real, dt: int, now: int, lastSpike: int)
    requires diff <= ActivityThreshold
    requires (now - lastSpike) as real > DecayDelay
    requires activity > 0.0 && dt > 0
    ensures IntegrateActivity(activity, diff, dt, now, lastSpike).activity < activity
  {
    assert activity / DecayConstant * dt as real > 0.0;
  }

  /** The sleep-state classifier: 1 (deep sleep) exactly when activity is below 0.01, else 0. */
  function DetectState(activity: real): (state: int)
    ensures state == 0 || state == 1
    ensures state == 1 <==> activity < DeepSleepLevel
  {
    if activity < DeepSleepLevel then 1 else 0
  }

  /**
   * The sampling-rate controller: on movement the delay is divided by 10
   * with floor MinDelay, otherwise it is multiplied by 1.2 with cap MaxDelay.
   */
  function NextDelay(delay: real, diff: real): (r: real)
    ensures MinDelay <= delay <= MaxDelay ==> MinDelay <= r <= MaxDelay
    ensures diff > ActivityThreshold ==> r >= MinDelay && r >= delay / 10.0
    ensures diff > ActivityThreshold && delay >= MinDelay ==> r <= delay
    ensures diff > ActivityThreshold ==> (r == MinDelay <==> delay <= 20.0)
    ensures diff > ActivityThreshold && delay > 20.0 ==> r * 10.0 == delay
    ensures diff <= ActivityThreshold ==> r <= MaxDelay && r <= delay * 1.2
    ensures diff <= ActivityThreshold && 0.0 <= delay <= MaxDelay ==> r >= delay
    ensures diff <= ActivityThreshold ==> (r == MaxDelay <==> delay * 1.2 >= MaxDelay)
    ensures diff <= ActivityThreshold && delay * 1.2 < MaxDelay ==> r == delay * 1.2
  {
    if diff > ActivityThreshold then
      var d := delay / 10.0;
      if d < MinDelay then MinDelay else d
    else
      var d := delay * 1.2;
      if d > MaxDelay then MaxDelay else d
  }
}
