/** The TTL-cached, single-flight readiness probe: a lock-free read of the cached tuple, then a
  double-checked lock. Threads interleave one read, write, clock reading or lock action at a time;
  the monotone clock may advance between any two of them. */
module Probe {
  import opened Wrappers

  const TTL: real := 5.0

  type Tid = nat

  /** (ok, error class) of a probe. */
  datatype Outcome = Outcome(ok: bool, error: string)

  /** The cached tuple; `url` is None until the first probe is stored. */
  datatype Cached = Cached(url: Option<string>, at: real, outcome: Outcome)

  /** How a caller came by its result. */
  datatype Origin = FromCache(at: real, checked: real) | FromProbe(at: real)

  datatype Phase =
    | Called                                        // before the lock-free read
    | ReadFast(seen: Cached)                        // tuple read, clock not yet
    | Waiting                                       // missed, blocked on the lock
    | Locked                                        // lock held, before the re-read
    | ReadSlow(seen: Cached)                        // re-read, clock not yet
    | Probing(start: real)                          // probe in flight
    | Probed(start: real, finish: real, outcome: Outcome)
    | Stamped(start: real, finish: real, outcome: Outcome, at: real)
    | Releasing(outcome: Outcome, origin: Origin)   // about to leave the lock
    | Returned(outcome: Outcome, origin: Origin)

  /** A completed probe: when it ran, and the time recorded for it. */
  datatype Run = Run(start: real, finish: real, recorded: real, outcome: Outcome)

  datatype State = State(clock: real, cache: Cached, holder: Option<Tid>, threads: map<Tid, Phase>, runs: seq<Run>)

  datatype Step =
    | Tick(elapsed: real)
    | Call(t: Tid)
    | FastRead(t: Tid)
    | FastCheck(t: Tid)
    | Acquire(t: Tid)
    | SlowRead(t: Tid)
    | SlowCheck(t: Tid)
    | Finish(t: Tid, outcome: Outcome)
    | Stamp(t: Tid)
    | Store(t: Tid)
    | Release(t: Tid)

  predicate Fresh(url: string, seen: Cached, now: real) {
    seen.url == Some(url) && now - seen.at < TTL
  }

  predicate At(s: State, t: Tid) {
    t in s.threads
  }

  function Move(s: State, t: Tid, phase: Phase): State {
    s.(threads := s.threads[t := phase])
  }

  predicate Enabled(s: State, step: Step) {
    match step
    case Tick(elapsed) => elapsed >= 0.0
    case Call(t) => !At(s, t) || s.threads[t].Returned?
    case FastRead(t) => At(s, t) && s.threads[t].Called?
    case FastCheck(t) => At(s, t) && s.threads[t].ReadFast?
    case Acquire(t) => At(s, t) && s.threads[t].Waiting? && s.holder.None?
    case SlowRead(t) => At(s, t) && s.threads[t].Locked?
    case SlowCheck(t) => At(s, t) && s.threads[t].ReadSlow?
    case Finish(t, _) => At(s, t) && s.threads[t].Probing?
    case Stamp(t) => At(s, t) && s.threads[t].Probed?
    case Store(t) => At(s, t) && s.threads[t].Stamped?
    case Release(t) => At(s, t) && s.threads[t].Releasing?
  }

  function Apply(url: string, s: State, step: Step): State
    requires Enabled(s, step)
  {
    match step
    case Tick(elapsed) => s.(clock := s.clock + elapsed)
    case Call(t) => Move(s, t, Called)
    case FastRead(t) => Move(s, t, ReadFast(s.cache))
    case FastCheck(t) =>
      var seen := s.threads[t].seen;
      Move(s, t, if Fresh(url, seen, s.clock) then Returned(seen.outcome, FromCache(seen.at, s.clock)) else Waiting)
    case Acquire(t) => Move(s, t, Locked).(holder := Some(t))
    case SlowRead(t) => Move(s, t, ReadSlow(s.cache))
    case SlowCheck(t) =>
      var seen := s.threads[t].seen;
      Move(s, t,
           if Fresh(url, seen, s.clock) then Releasing(seen.outcome, FromCache(seen.at, s.clock)) else Probing(s.clock))
    case Finish(t, outcome) => Move(s, t, Probed(s.threads[t].start, s.clock, outcome))
    case Stamp(t) =>
      var p := s.threads[t];
      Move(s, t, Stamped(p.start, p.finish, p.outcome, s.clock))
    case Store(t) =>
      var p := s.threads[t];
      Move(s, t, Releasing(p.outcome, FromProbe(p.at)))
        .(cache := Cached(Some(url), p.at, p.outcome), runs := s.runs + [Run(p.start, p.finish, p.at, p.outcome)])
    case Release(t) =>
      Move(s, t, Returned(s.threads[t].outcome, s.threads[t].origin)).(holder := None)
  }

  function Initial(clock: real): State {
    State(clock, Cached(None, 0.0, Outcome(false, "")), None, map[], [])
  }

  ghost predicate IsRun(url: string, states: seq<State>, steps: seq<Step>) {
    && |states| == |steps| + 1
    && states[0] == Initial(states[0].clock)
    && forall i | 0 <= i < |steps| :: Enabled(states[i], steps[i]) && states[i + 1] == Apply(url, states[i], steps[i])
  }

  // ---- Invariant --------------------------------------------------------------------------

  predicate InLock(phase: Phase) {
    phase.Locked? || phase.ReadSlow? || phase.Probing? || phase.Probed? || phase.Stamped? || phase.Releasing?
  }

  ghost predicate IsRecorded(url: string, runs: seq<Run>, at: real, outcome: Outcome) {
    exists i :: 0 <= i < |runs| && runs[i].recorded == at && runs[i].outcome == outcome
  }

  /** The tuple was cached at some time: the initial one, or a stored probe. */
  ghost predicate WasCached(url: string, runs: seq<Run>, seen: Cached) {
    seen.url == None || (seen.url == Some(url) && IsRecorded(url, runs, seen.at, seen.outcome))
  }

  function Latest(url: string, runs: seq<Run>): Cached {
    if runs == [] then Initial(0.0).cache
    else var r := runs[|runs| - 1]; Cached(Some(url), r.recorded, r.outcome)
  }

  /** A probe starting now keeps its distance from every stored one. */
  predicate KeepsDistance(runs: seq<Run>, start: real) {
    runs == [] || runs[|runs| - 1].recorded + TTL <= start
  }

  ghost predicate OriginIsHonest(url: string, runs: seq<Run>, outcome: Outcome, origin: Origin) {
    match origin
    case FromCache(at, checked) => IsRecorded(url, runs, at, outcome) && checked - at < TTL
    case FromProbe(at) => IsRecorded(url, runs, at, outcome)
  }

  ghost predicate PhaseIsSound(url: string, s: State, phase: Phase) {
    match phase
    case ReadFast(seen) => WasCached(url, s.runs, seen)
    case ReadSlow(seen) => seen == s.cache
    case Probing(start) => start <= s.clock && KeepsDistance(s.runs, start)
    case Probed(start, finish, _) => start <= finish <= s.clock && KeepsDistance(s.runs, start)
    case Stamped(start, finish, _, at) => start <= finish <= at <= s.clock && KeepsDistance(s.runs, start)
    case Releasing(outcome, origin) => OriginIsHonest(url, s.runs, outcome, origin)
    case Returned(outcome, origin) => OriginIsHonest(url, s.runs, outcome, origin)
    case _ => true
  }

  ghost predicate RunsAreSpaced(runs: seq<Run>) {
    && (forall i | 0 <= i < |runs| :: runs[i].start <= runs[i].finish <= runs[i].recorded)
    && (forall i | 0 <= i < |runs| - 1 :: runs[i].recorded + TTL <= runs[i + 1].start)
  }

  ghost predicate Sound(url: string, s: State) {
    && s.cache == Latest(url, s.runs)
    && RunsAreSpaced(s.runs)
    && (forall t | t in s.threads :: PhaseIsSound(url, s, s.threads[t]))
    && (forall t | t in s.threads :: InLock(s.threads[t]) <==> s.holder == Some(t))
    && (s.holder.Some? ==> s.holder.value in s.threads)
  }

  lemma MoreRunsKeepHonesty(url: string, runs: seq<Run>, run: Run, at: real, outcome: Outcome)
    requires IsRecorded(url, runs, at, outcome)
    ensures IsRecorded(url, runs + [run], at, outcome)
  {
    var i :| 0 <= i < |runs| && runs[i].recorded == at && runs[i].outcome == outcome;
    assert (runs + [run])[i] == runs[i];
  }

  lemma StoreIsSound(url: string, s: State, t: Tid)
    requires Sound(url, s) && Enabled(s, Store(t))
    ensures Sound(url, Apply(url, s, Store(t)))
  {
    var p := s.threads[t];
    var run := Run(p.start, p.finish, p.at, p.outcome);
    var u := Apply(url, s, Store(t));
    assert PhaseIsSound(url, s, p) && s.holder == Some(t);
    assert u.runs[|s.runs|] == run;
    assert IsRecorded(url, u.runs, p.at, p.outcome);
    forall q | q in u.threads ensures PhaseIsSound(url, u, u.threads[q]) {
      if q != t {
        assert PhaseIsSound(url, s, s.threads[q]) && !InLock(s.threads[q]);
        match s.threads[q]
        case ReadFast(seen) =>
          if seen.url != None { MoreRunsKeepHonesty(url, s.runs, run, seen.at, seen.outcome); }
        case Returned(outcome, origin) =>
          MoreRunsKeepHonesty(url, s.runs, run, origin.at, outcome);
        case _ =>
      }
    }
  }

  lemma StepIsSound(url: string, s: State, step: Step)
    requires Sound(url, s) && Enabled(s, step)
    ensures Sound(url, Apply(url, s, step))
  {
    match step
    case Tick(_) =>
    case Store(t) => StoreIsSound(url, s, t);
    case _ => QuietStepIsSound(url, s, step);
  }

  lemma MoveIsSound(url: string, s: State, t: Tid, phase: Phase)
    requires Sound(url, s) && PhaseIsSound(url, s, phase)
    requires InLock(phase) <==> s.holder == Some(t)
    ensures Sound(url, Move(s, t, phase))
  {
    var u := Move(s, t, phase);
    forall q | q in u.threads ensures PhaseIsSound(url, u, u.threads[q]) {
      if q != t { assert PhaseIsSound(url, s, s.threads[q]); }
    }
  }

  lemma LockStepIsSound(url: string, s: State, step: Step)
    requires Sound(url, s) && Enabled(s, step) && (step.Acquire? || step.Release?)
    ensures Sound(url, Apply(url, s, step))
  {
    var u := Apply(url, s, step);
    forall q | q in u.threads
      ensures PhaseIsSound(url, u, u.threads[q]) && (InLock(u.threads[q]) <==> u.holder == Some(q))
    {
      assert PhaseIsSound(url, s, s.threads[q]) && (InLock(s.threads[q]) <==> s.holder == Some(q));
    }
  }

  /** Steps that leave the cache, the clock and the run history alone. */
  lemma QuietStepIsSound(url: string, s: State, step: Step)
    requires Sound(url, s) && Enabled(s, step) && !step.Tick? && !step.Store?
    ensures Sound(url, Apply(url, s, step))
  {
    if step.Acquire? || step.Release? {
      LockStepIsSound(url, s, step);
    } else {
      if At(s, step.t) { assert PhaseIsSound(url, s, s.threads[step.t]); }
      MoveIsSound(url, s, step.t, Apply(url, s, step).threads[step.t]);
    }
  }

  lemma {:induction false} EveryStateIsSound(url: string, states: seq<State>, steps: seq<Step>, i: nat)
    requires IsRun(url, states, steps) && i < |states|
    ensures Sound(url, states[i])
  {
    if i > 0 {
      EveryStateIsSound(url, states, steps, i - 1);
      StepIsSound(url, states[i - 1], steps[i - 1]);
    }
  }

  // ---- Consequences over whole runs ---------------------------------------------------------

  /** At no moment of any run are two probes in flight. */
  lemma OneProbeAtATime(url: string, states: seq<State>, steps: seq<Step>, i: nat, t: Tid, u: Tid)
    requires IsRun(url, states, steps) && i < |states| && At(states[i], t) && At(states[i], u)
    requires states[i].threads[t].Probing? && states[i].threads[u].Probing?
    ensures t == u
  {
    EveryStateIsSound(url, states, steps, i);
  }

  /** Completed probes are disjoint, and each starts at least the TTL after the time recorded for
      any earlier one. */
  lemma ProbesAreSpaced(url: string, states: seq<State>, steps: seq<Step>, i: nat, a: nat, b: nat)
    requires IsRun(url, states, steps) && i < |states| && a < b < |states[i].runs|
    ensures var first, second := states[i].runs[a], states[i].runs[b];
            first.start <= first.finish <= first.recorded && first.recorded + TTL <= second.start
    decreases b
  {
    EveryStateIsSound(url, states, steps, i);
    if a + 1 < b {
      ProbesAreSpaced(url, states, steps, i, a, b - 1);
    }
  }

  /** A flood of calls cannot probe faster than once per TTL: n completed probes take at least
      n - 1 TTLs, however many threads ask. */
  lemma FloodIsCollapsed(url: string, states: seq<State>, steps: seq<Step>, i: nat, n: nat)
    requires IsRun(url, states, steps) && i < |states| && 0 < n <= |states[i].runs|
    ensures states[i].runs[n - 1].recorded - states[i].runs[0].start >= (n - 1) as real * TTL
  {
    EveryStateIsSound(url, states, steps, i);
    if n > 1 {
      FloodIsCollapsed(url, states, steps, i, n - 1);
      ProbesAreSpaced(url, states, steps, i, n - 2, n - 1);
    }
  }

  /** Every result handed out is the outcome of a stored probe, and one served from the cache was
      recorded less than the TTL before the check that served it. */
  lemma ResultsAreGenuine(url: string, states: seq<State>, steps: seq<Step>, i: nat, t: Tid)
    requires IsRun(url, states, steps) && i < |states| && At(states[i], t) && states[i].threads[t].Returned?
    ensures var p := states[i].threads[t];
            && IsRecorded(url, states[i].runs, p.origin.at, p.outcome)
            && (p.origin.FromCache? ==> p.origin.checked - p.origin.at < TTL)
  {
    EveryStateIsSound(url, states, steps, i);
    assert PhaseIsSound(url, states[i], states[i].threads[t]);
  }
}
