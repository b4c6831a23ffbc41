/** Idempotent decisioning as a concurrent protocol: any number of requests interleave one database
  or bureau action at a time, workers may crash, and a lock's connection may drop while its
  holder carries on. */
module Decisioning {
  import opened Scorecard
  import opened DecisionRecord
  import opened Wrappers

  type Pid = nat

  /** What a call to `decide` hands back when it does not fail with a database error. */
  datatype Reply = Answer(response: Response) | Conflict | Refusal(why: DecisionRecord.Refusal)

  datatype Phase =
    | Waiting               // keyed: blocked on the advisory lock
    | Looking               // in the critical section, before the replay lookup
    | Cleared               // lookup found nothing, the pull has not started
    | Pulling               // bureau call in flight
    | Writing(event: Event) // record built, before the atomic insert
    | Raced                 // insert hit the unique index, before re-reading the winner
    | Leaving(reply: Reply) // about to leave the critical section
    | Returned(reply: Reply)
    | Failed                // the caller saw a database error or the worker died

  /** A request keeps the configuration of the worker that serves it; another worker, or the same one
      after a restart, may be configured differently, the pepper included. */
  datatype Proc = Proc(app: Application, config: Config, phase: Phase)

  /** `lost` remembers the requests whose lock connection dropped while they held it. */
  datatype Sys = Sys(log: seq<Event>, pointer: map<int, Band>, holder: map<int, Pid>, procs: map<Pid, Proc>,
                     lost: set<Pid>)

  /** `slot` folds the lock name of a key into a 64-bit integer; distinct keys may share a slot. */
  datatype Env = Env(slot: (int, string) -> int)

  datatype Step =
    | Arrive(pid: Pid, app: Application, config: Config)
    | Acquire(pid: Pid)
    | Lookup(pid: Pid)
    | StartPull(pid: Pid)
    | EndPull(pid: Pid, bureau: BureauReply)
    | Write(pid: Pid)
    | WriteFails(pid: Pid, committed: bool)
    | Reread(pid: Pid)
    | Leave(pid: Pid)
    | Crash(pid: Pid)
    | LoseLock(pid: Pid)

  // ---- Vocabulary -------------------------------------------------------------------------

  predicate Keyed(app: Application) {
    app.requestId != ""
  }

  function RequestId(app: Application): Option<string> {
    if Keyed(app) then Some(app.requestId) else None
  }

  predicate SameKey(a: Application, b: Application) {
    Keyed(a) && a.appId == b.appId && a.requestId == b.requestId
  }

  predicate HasKey(e: Event, app: Application) {
    e.appId == app.appId && e.requestId == Some(app.requestId)
  }

  function Slot(env: Env, app: Application): int {
    env.slot(app.appId, app.requestId)
  }

  function Find(log: seq<Event>, app: Application): (r: Option<Event>)
    ensures r.Some? ==> r.value in log && HasKey(r.value, app)
    ensures r.None? ==> forall e | e in log :: !HasKey(e, app)
  {
    if log == [] then None
    else if HasKey(log[0], app) then Some(log[0])
    else Find(log[1..], app)
  }

  function Asked(p: Proc): RequestInputs {
    InputsOf(p.config, p.app)
  }

  function Replay(p: Proc, e: Event): Reply {
    if InputsConflict(Some(e.inputs), Asked(p)) then Conflict else Answer(FromEvent(e))
  }

  predicate At(s: Sys, pid: Pid) {
    pid in s.procs
  }

  function Moved(s: Sys, pid: Pid, phase: Phase): Sys
    requires At(s, pid)
  {
    s.(procs := s.procs[pid := s.procs[pid].(phase := phase)])
  }

  function Finish(s: Sys, pid: Pid, reply: Reply): Sys
    requires At(s, pid)
  {
    Moved(s, pid, Leaving(reply))
  }

  predicate Holds(env: Env, s: Sys, pid: Pid)
    requires At(s, pid)
  {
    var slot := Slot(env, s.procs[pid].app);
    slot in s.holder && s.holder[slot] == pid
  }

  function Unlocked(env: Env, s: Sys, pid: Pid): Sys
    requires At(s, pid)
  {
    if Holds(env, s, pid) then s.(holder := s.holder - {Slot(env, s.procs[pid].app)}) else s
  }

  function Recorded(s: Sys, e: Event): Sys {
    s.(log := s.log + [e], pointer := s.pointer[e.appId := e.outcome])
  }

  // ---- Steps ------------------------------------------------------------------------------

  predicate Enabled(env: Env, s: Sys, step: Step) {
    match step
    case Arrive(pid, _, _) => pid !in s.procs
    case Acquire(pid) => At(s, pid) && s.procs[pid].phase == Waiting && Slot(env, s.procs[pid].app) !in s.holder
    case Lookup(pid) => At(s, pid) && s.procs[pid].phase == Looking
    case StartPull(pid) => At(s, pid) && s.procs[pid].phase == Cleared
    case EndPull(pid, bureau) => At(s, pid) && s.procs[pid].phase == Pulling
    case Write(pid) => At(s, pid) && s.procs[pid].phase.Writing?
    case WriteFails(pid, committed) =>
      At(s, pid) && s.procs[pid].phase.Writing? && (committed ==> !Duplicate(s, pid))
    case Reread(pid) => At(s, pid) && s.procs[pid].phase == Raced
    case Leave(pid) => At(s, pid) && s.procs[pid].phase.Leaving?
    case Crash(pid) => At(s, pid) && !s.procs[pid].phase.Returned?
    case LoseLock(pid) => At(s, pid) && Keyed(s.procs[pid].app) && Holds(env, s, pid)
  }

  /** The partial unique index on (app_id, request_id) rejects the insert. */
  predicate Duplicate(s: Sys, pid: Pid)
    requires At(s, pid)
  {
    Keyed(s.procs[pid].app) && Find(s.log, s.procs[pid].app).Some?
  }

  function Apply(env: Env, s: Sys, step: Step): Sys
    requires Enabled(env, s, step)
  {
    match step
    case Arrive(pid, app, config) =>
      s.(procs := s.procs[pid := Proc(app, config, if Keyed(app) then Waiting else Cleared)])
    case Acquire(pid) =>
      Moved(s, pid, Looking).(holder := s.holder[Slot(env, s.procs[pid].app) := pid])
    case Lookup(pid) =>
      var existing := Find(s.log, s.procs[pid].app);
      if existing.Some? then Finish(s, pid, Replay(s.procs[pid], existing.value)) else Moved(s, pid, Cleared)
    case StartPull(pid) =>
      Moved(s, pid, Pulling)
    case EndPull(pid, bureau) =>
      var Proc(app, config, _) := s.procs[pid];
      var pulled := PullCredit(config, bureau, app.ssn);
      if pulled.None? then Finish(s, pid, Refusal(CreditPullFailed))
      else
        var e := Evaluate(config, app, RequestId(app), pulled.value);
        if e.Refused? then Finish(s, pid, Refusal(e.why)) else Moved(s, pid, Writing(e.value))
    case Write(pid) =>
      var e := s.procs[pid].phase.event;
      if Duplicate(s, pid) then Moved(s, pid, Raced)
      else Finish(Recorded(s, e), pid, Answer(FromEvent(e)))
    case WriteFails(pid, committed) =>
      Finish(if committed then Recorded(s, s.procs[pid].phase.event) else s, pid, Refusal(NotPersisted))
    case Reread(pid) =>
      var existing := Find(s.log, s.procs[pid].app);
      Finish(s, pid, if existing.Some? then Replay(s.procs[pid], existing.value) else Refusal(NotPersisted))
    case Leave(pid) =>
      // Leaving commits the lock's own transaction, which fails if its connection is gone.
      var reply := s.procs[pid].phase.reply;
      if Keyed(s.procs[pid].app) && !Holds(env, s, pid) then Moved(s, pid, Failed)
      else Moved(Unlocked(env, s, pid), pid, Returned(reply))
    case Crash(pid) =>
      Moved(Unlocked(env, s, pid), pid, Failed)
    case LoseLock(pid) =>
      var slot := Slot(env, s.procs[pid].app);
      s.(holder := s.holder - {slot}, lost := s.lost + {pid})
  }

  const START := Sys([], map[], map[], map[], {})

  /** A run of the protocol: states joined by enabled steps, from an empty log. */
  ghost predicate IsRun(env: Env, states: seq<Sys>, steps: seq<Step>) {
    && |states| == |steps| + 1
    && states[0] == START
    && forall i | 0 <= i < |steps| ::
        Enabled(env, states[i], steps[i]) && states[i + 1] == Apply(env, states[i], steps[i])
  }

  // ---- What every state keeps, even when locks are lost -----------------------------------------

  ghost predicate AtMostOneEventPerKey(log: seq<Event>) {
    forall i, j | 0 <= i < j < |log| && log[i].requestId.Some? ::
      !(log[i].appId == log[j].appId && log[i].requestId == log[j].requestId)
  }

  function LastOutcome(log: seq<Event>, appId: int): Option<Band> {
    if log == [] then None
    else if log[|log| - 1].appId == appId then Some(log[|log| - 1].outcome)
    else LastOutcome(log[..|log| - 1], appId)
  }

  ghost predicate PointerIsCurrent(s: Sys) {
    && (forall a | a in s.pointer :: LastOutcome(s.log, a) == Some(s.pointer[a]))
    && (forall a :: LastOutcome(s.log, a).Some? ==> a in s.pointer)
  }

  /** The event carries the request's application, key and inputs. */
  predicate Records(p: Proc, e: Event) {
    e.appId == p.app.appId && e.requestId == RequestId(p.app) && e.inputs == Asked(p)
  }

  /** The event a request may be answered from: its key's event, or its own when it has no key. */
  ghost predicate Answers(p: Proc, e: Event) {
    if Keyed(p.app) then HasKey(e, p.app) else Records(p, e)
  }

  ghost predicate Justified(log: seq<Event>, p: Proc, reply: Reply) {
    match reply
    case Answer(response) =>
      exists e :: e in log && Answers(p, e) && response == FromEvent(e) && !InputsConflict(Some(e.inputs), Asked(p))
    case Conflict =>
      Keyed(p.app) && exists e :: e in log && HasKey(e, p.app) && InputsConflict(Some(e.inputs), Asked(p))
    case Refusal(why) => why == CreditPullFailed || why == NotPersisted
  }

  ghost predicate ProcIsSound(log: seq<Event>, p: Proc) {
    match p.phase
    case Writing(e) => Lawful(e) && Records(p, e)
    case Raced => Keyed(p.app) && exists e :: e in log && HasKey(e, p.app)
    case Leaving(reply) => Justified(log, p, reply)
    case Returned(reply) => Justified(log, p, reply)
    case Waiting => Keyed(p.app)
    case Looking => Keyed(p.app)
    case _ => true
  }

  ghost predicate Sound(s: Sys) {
    && AtMostOneEventPerKey(s.log)
    && PointerIsCurrent(s)
    && (forall e | e in s.log :: Lawful(e))
    && forall pid | pid in s.procs :: ProcIsSound(s.log, s.procs[pid])
  }

  lemma LongerLogKeepsProcs(log: seq<Event>, more: seq<Event>, p: Proc)
    requires ProcIsSound(log, p)
    ensures ProcIsSound(log + more, p)
  {
    assert forall e | e in log :: e in log + more;
  }

  lemma RecordingIsSound(s: Sys, e: Event)
    requires Sound(s) && Lawful(e)
    requires e.requestId.Some? ==> forall x | x in s.log :: !(x.appId == e.appId && x.requestId == e.requestId)
    ensures Sound(Recorded(s, e))
  {
    var t := Recorded(s, e);
    assert t.log[..|s.log|] == s.log;
    forall a ensures LastOutcome(t.log, a) == if a == e.appId then Some(e.outcome) else LastOutcome(s.log, a) {
    }
    forall i, j | 0 <= i < j < |t.log| && t.log[i].requestId.Some?
      ensures !(t.log[i].appId == t.log[j].appId && t.log[i].requestId == t.log[j].requestId)
    {
      assert t.log[i] in s.log;
    }
    forall pid | pid in t.procs ensures ProcIsSound(t.log, t.procs[pid]) {
      LongerLogKeepsProcs(s.log, [e], s.procs[pid]);
    }
  }

  lemma MovingIsSound(s: Sys, pid: Pid, phase: Phase)
    requires Sound(s) && At(s, pid)
    requires ProcIsSound(s.log, s.procs[pid].(phase := phase))
    ensures Sound(Moved(s, pid, phase))
  {
  }

  lemma WritingIsSound(s: Sys, pid: Pid, reply: Reply)
    requires Sound(s) && At(s, pid) && s.procs[pid].phase.Writing? && !Duplicate(s, pid)
    requires reply == Answer(FromEvent(s.procs[pid].phase.event)) || reply == Refusal(NotPersisted)
    ensures Sound(Finish(Recorded(s, s.procs[pid].phase.event), pid, reply))
  {
    var p := s.procs[pid];
    var e := p.phase.event;
    assert ProcIsSound(s.log, p);
    RecordingIsSound(s, e);
    var t := Recorded(s, e);
    assert e in t.log && Answers(p, e);
    assert !InputsConflict(Some(e.inputs), Asked(p));
    assert Justified(t.log, p, reply);
    MovingIsSound(t, pid, Leaving(reply));
  }

  lemma EndPullIsSound(env: Env, s: Sys, pid: Pid, bureau: BureauReply)
    requires Sound(s) && Enabled(env, s, EndPull(pid, bureau))
    ensures Sound(Apply(env, s, EndPull(pid, bureau)))
  {
    var Proc(app, config, _) := s.procs[pid];
    var pulled := PullCredit(config, bureau, app.ssn);
    if pulled.None? {
      MovingIsSound(s, pid, Leaving(Refusal(CreditPullFailed)));
    } else {
      OwnRecordIsNeverRefused(config, bureau, app, RequestId(app));
      MovingIsSound(s, pid, Writing(Evaluate(config, app, RequestId(app), pulled.value).value));
    }
  }

  lemma ReplayIsJustified(s: Sys, pid: Pid)
    requires At(s, pid) && Keyed(s.procs[pid].app)
    requires Find(s.log, s.procs[pid].app).Some?
    ensures Justified(s.log, s.procs[pid], Replay(s.procs[pid], Find(s.log, s.procs[pid].app).value))
  {
  }

  /** Lookup and re-read: both answer from the stored event, or move on. */
  lemma ReadingIsSound(env: Env, s: Sys, step: Step)
    requires Sound(s) && Enabled(env, s, step) && (step.Lookup? || step.Reread?)
    ensures Sound(Apply(env, s, step))
  {
    assert ProcIsSound(s.log, s.procs[step.pid]);
    if Find(s.log, s.procs[step.pid].app).Some? {
      ReplayIsJustified(s, step.pid);
    }
    MovingIsSound(s, step.pid, Apply(env, s, step).procs[step.pid].phase);
  }

  lemma WriteIsSound(env: Env, s: Sys, step: Step)
    requires Sound(s) && Enabled(env, s, step) && (step.Write? || step.WriteFails?)
    ensures Sound(Apply(env, s, step))
  {
    var pid := step.pid;
    if step.Write? && Duplicate(s, pid) {
      MovingIsSound(s, pid, Raced);
    } else if step.Write? {
      WritingIsSound(s, pid, Answer(FromEvent(s.procs[pid].phase.event)));
    } else if step.committed {
      WritingIsSound(s, pid, Refusal(NotPersisted));
    } else {
      MovingIsSound(s, pid, Leaving(Refusal(NotPersisted)));
    }
  }

  /** A change that leaves log and pointer alone and moves at most one request. */
  lemma QuietMoveIsSound(s: Sys, t: Sys, pid: Pid)
    requires Sound(s) && t.log == s.log && t.pointer == s.pointer
    requires forall q | q in t.procs && q != pid :: q in s.procs && t.procs[q] == s.procs[q]
    requires pid in t.procs ==> ProcIsSound(s.log, t.procs[pid])
    ensures Sound(t)
  {
  }

  /** Steps that neither read nor write the log. */
  lemma QuietStepIsSound(env: Env, s: Sys, step: Step)
    requires Sound(s) && Enabled(env, s, step)
    requires step.Arrive? || step.Acquire? || step.StartPull? || step.Leave? || step.Crash? || step.LoseLock?
    ensures Sound(Apply(env, s, step))
  {
    if step.pid in s.procs { assert ProcIsSound(s.log, s.procs[step.pid]); }
    QuietMoveIsSound(s, Apply(env, s, step), step.pid);
  }

  lemma StepIsSound(env: Env, s: Sys, step: Step)
    requires Sound(s) && Enabled(env, s, step)
    ensures Sound(Apply(env, s, step))
  {
    match step
    case EndPull(pid, bureau) => EndPullIsSound(env, s, pid, bureau);
    case Lookup(_) => ReadingIsSound(env, s, step);
    case Reread(_) => ReadingIsSound(env, s, step);
    case Write(_) => WriteIsSound(env, s, step);
    case WriteFails(_, _) => WriteIsSound(env, s, step);
    case _ => QuietStepIsSound(env, s, step);
  }

  /** At every moment of every run, lock losses and crashes included: at most one event per key, the
      `decisions` pointer equal to the last appended event, lawful events only, and every reply either
      a failed pull or write (never a refusal of the service's own record), a true conflict, or exactly
      the response of the recorded event. */
  lemma {:induction false} EveryStateIsSound(env: Env, states: seq<Sys>, steps: seq<Step>, i: nat)
    requires IsRun(env, states, steps) && i < |states|
    ensures Sound(states[i])
  {
    if i > 0 {
      EveryStateIsSound(env, states, steps, i - 1);
      StepIsSound(env, states[i - 1], steps[i - 1]);
    }
  }

  // ---- Replies agree across a whole run ----------------------------------------------------------

  lemma StepKeepsLog(env: Env, s: Sys, step: Step)
    requires Enabled(env, s, step)
    ensures s.log <= Apply(env, s, step).log
  {
  }

  lemma {:induction false} PrefixesChain(logs: seq<seq<Event>>, i: nat, j: nat)
    requires i <= j < |logs| && forall k | 0 <= k < |logs| - 1 :: logs[k] <= logs[k + 1]
    ensures logs[i] <= logs[j]
    decreases j
  {
    if i < j { PrefixesChain(logs, i, j - 1); }
  }

  ghost function Logs(states: seq<Sys>): (logs: seq<seq<Event>>)
    ensures |logs| == |states| && forall k | 0 <= k < |states| :: logs[k] == states[k].log
  {
    seq(|states|, k requires 0 <= k < |states| => states[k].log)
  }

  lemma LogOnlyGrows(env: Env, states: seq<Sys>, steps: seq<Step>, i: nat, j: nat)
    requires IsRun(env, states, steps) && i <= j < |states|
    ensures states[i].log <= states[j].log
  {
    var logs := Logs(states);
    forall k | 0 <= k < |logs| - 1 ensures logs[k] <= logs[k + 1] {
      StepKeepsLog(env, states[k], steps[k]);
    }
    PrefixesChain(logs, i, j);
  }

  lemma OneEventPerKey(log: seq<Event>, e: Event, f: Event)
    requires AtMostOneEventPerKey(log) && e in log && f in log
    requires e.appId == f.appId && e.requestId == f.requestId && e.requestId.Some?
    ensures e == f
  {
    var a :| 0 <= a < |log| && log[a] == e;
    var b :| 0 <= b < |log| && log[b] == f;
    assert a == b;
  }

  /** One officer action, one outcome: any two answers ever returned for the same key, by any
      requests at any two moments of a run, are the same response. */
  lemma AnswersForOneKeyAgree(env: Env, states: seq<Sys>, steps: seq<Step>, i: nat, j: nat, p: Pid, q: Pid)
    requires IsRun(env, states, steps) && i <= j < |states|
    requires At(states[i], p) && At(states[j], q) && SameKey(states[i].procs[p].app, states[j].procs[q].app)
    requires states[i].procs[p].phase.Returned? && states[i].procs[p].phase.reply.Answer?
    requires states[j].procs[q].phase.Returned? && states[j].procs[q].phase.reply.Answer?
    ensures states[i].procs[p].phase.reply == states[j].procs[q].phase.reply
  {
    EveryStateIsSound(env, states, steps, i);
    EveryStateIsSound(env, states, steps, j);
    LogOnlyGrows(env, states, steps, i, j);
    assert ProcIsSound(states[i].log, states[i].procs[p]) && ProcIsSound(states[j].log, states[j].procs[q]);
    JustifiedAnswersAgree(states[i].log, states[j].log, states[i].procs[p], states[j].procs[q]);
  }

  lemma JustifiedAnswersAgree(early: seq<Event>, late: seq<Event>, first: Proc, second: Proc)
    requires early <= late && AtMostOneEventPerKey(late) && SameKey(first.app, second.app)
    requires first.phase.Returned? && first.phase.reply.Answer? && Justified(early, first, first.phase.reply)
    requires second.phase.Returned? && second.phase.reply.Answer? && Justified(late, second, second.phase.reply)
    ensures first.phase.reply == second.phase.reply
  {
    var e :| e in early && HasKey(e, first.app) && first.phase.reply.response == FromEvent(e);
    var f :| f in late && HasKey(f, second.app) && second.phase.reply.response == FromEvent(f);
    assert e in late;
    OneEventPerKey(late, e, f);
  }

  // ---- What a conflict means over a whole run -----------------------------------------------------

  /** Every event was recorded by a request that is still on the books. */
  ghost predicate Authored(s: Sys) {
    forall e | e in s.log :: exists q :: At(s, q) && Records(s.procs[q], e)
  }

  lemma StepKeepsRequests(env: Env, s: Sys, step: Step, q: Pid)
    requires Enabled(env, s, step) && At(s, q)
    ensures var t := Apply(env, s, step);
            At(t, q) && t.procs[q].app == s.procs[q].app && t.procs[q].config == s.procs[q].config
  {
  }

  lemma StepLogsItsOwn(env: Env, s: Sys, step: Step)
    requires Enabled(env, s, step)
    ensures var log := Apply(env, s, step).log;
            log == s.log ||
            (At(s, step.pid) && s.procs[step.pid].phase.Writing? && log == s.log + [s.procs[step.pid].phase.event])
  {
  }

  lemma StepKeepsAuthors(env: Env, s: Sys, step: Step)
    requires Sound(s) && Authored(s) && Enabled(env, s, step)
    ensures Authored(Apply(env, s, step))
  {
    var t := Apply(env, s, step);
    StepLogsItsOwn(env, s, step);
    forall e | e in t.log ensures exists q :: At(t, q) && Records(t.procs[q], e) {
      if e !in s.log { assert ProcIsSound(s.log, s.procs[step.pid]); }
      var q :| At(s, q) && Records(s.procs[q], e);
      StepKeepsRequests(env, s, step, q);
      assert Records(t.procs[q], e);
    }
  }

  lemma {:induction false} EveryEventHasAnAuthor(env: Env, states: seq<Sys>, steps: seq<Step>, i: nat)
    requires IsRun(env, states, steps) && i < |states|
    ensures Authored(states[i])
  {
    if i > 0 {
      EveryEventHasAnAuthor(env, states, steps, i - 1);
      EveryStateIsSound(env, states, steps, i - 1);
      StepKeepsAuthors(env, states[i - 1], steps[i - 1]);
    }
  }

  /** The peppers are keys of one digest, which tells everything apart. */
  ghost predicate OneDigest(s: Sys, hmac: (string, string) -> string) {
    TellsApart(hmac) && forall pid | pid in s.procs :: s.procs[pid].config.hmac == hmac
  }

  /** A request is refused as conflicting only if another request for its key, under its own
      configuration, really differs from it: in a figure, in the SSN, or in the pepper. */
  lemma ConflictsAreReal(env: Env, states: seq<Sys>, steps: seq<Step>, i: nat, p: Pid, hmac: (string, string) -> string)
    requires IsRun(env, states, steps) && i < |states| && OneDigest(states[i], hmac)
    requires At(states[i], p) && states[i].procs[p].phase == Returned(Conflict)
    ensures exists q :: At(states[i], q) && SameKey(states[i].procs[q].app, states[i].procs[p].app) &&
                        SeenAsChanged(states[i].procs[q].config, states[i].procs[q].app,
                                      states[i].procs[p].config, states[i].procs[p].app)
  {
    var s := states[i];
    EveryStateIsSound(env, states, steps, i);
    EveryEventHasAnAuthor(env, states, steps, i);
    assert ProcIsSound(s.log, s.procs[p]);
    var e :| e in s.log && HasKey(e, s.procs[p].app) && InputsConflict(Some(e.inputs), Asked(s.procs[p]));
    var q :| At(s, q) && Records(s.procs[q], e);
    ConflictMeansChanged(s.procs[q].config, s.procs[q].app, s.procs[p].config, s.procs[p].app);
  }

  // ---- What a sound lock adds -------------------------------------------------------------------

  predicate InSection(phase: Phase) {
    phase.Looking? || phase.Cleared? || phase.Pulling? || phase.Writing? || phase.Raced? || phase.Leaving?
  }

  predicate BeforeWrite(phase: Phase) {
    phase.Cleared? || phase.Pulling? || phase.Writing?
  }

  /** A request for the same key whose lock connection dropped: it may still be at work. */
  ghost predicate LostTwin(s: Sys, q: Pid, app: Application) {
    q in s.lost && At(s, q) && SameKey(s.procs[q].app, app)
  }

  /** The request is in the critical section of its key with its lock connection intact. */
  predicate Guarded(s: Sys, pid: Pid)
    requires At(s, pid)
  {
    Keyed(s.procs[pid].app) && InSection(s.procs[pid].phase) && pid !in s.lost
  }

  ghost predicate LockIsSound(env: Env, s: Sys) {
    && (forall slot | slot in s.holder :: At(s, s.holder[slot]) && Keyed(s.procs[s.holder[slot]].app)
                                          && Slot(env, s.procs[s.holder[slot]].app) == slot
                                          && InSection(s.procs[s.holder[slot]].phase))
    && (forall pid | pid in s.procs && Guarded(s, pid) :: Holds(env, s, pid))
    && EventsExplained(s)
  }

  /** An event that appears under a guarded request before its own write came from a lost twin. */
  ghost predicate EventsExplained(s: Sys) {
    forall pid, e | pid in s.procs && Guarded(s, pid) && BeforeWrite(s.procs[pid].phase)
                    && e in s.log && HasKey(e, s.procs[pid].app) ::
      exists q :: LostTwin(s, q, s.procs[pid].app)
  }

  lemma SectionHasOneOccupant(env: Env, s: Sys, p: Pid, q: Pid)
    requires LockIsSound(env, s) && At(s, p) && At(s, q)
    requires SameKey(s.procs[p].app, s.procs[q].app) && Guarded(s, p) && Guarded(s, q)
    ensures p == q
  {
    assert Holds(env, s, p) && Holds(env, s, q);
  }

  /** Nobody forgets a lost connection, and requests keep their key. */
  ghost predicate KeepsTwins(s: Sys, t: Sys) {
    && s.lost <= t.lost
    && forall q | q in s.procs :: q in t.procs && t.procs[q].app == s.procs[q].app
  }

  lemma TwinsAreKept(s: Sys, t: Sys, app: Application)
    requires KeepsTwins(s, t) && exists q :: LostTwin(s, q, app)
    ensures exists q :: LostTwin(t, q, app)
  {
    var q :| LostTwin(s, q, app);
    assert LostTwin(t, q, app);
  }

  lemma QuietStaysExplained(s: Sys, t: Sys)
    requires EventsExplained(s) && KeepsTwins(s, t) && t.log == s.log
    requires forall pid | pid in t.procs && Guarded(t, pid) && BeforeWrite(t.procs[pid].phase) ::
               && pid in s.procs && Guarded(s, pid)
               && (BeforeWrite(s.procs[pid].phase) || Find(s.log, s.procs[pid].app).None?)
    ensures EventsExplained(t)
  {
    forall pid, e | pid in t.procs && Guarded(t, pid) && BeforeWrite(t.procs[pid].phase)
                    && e in t.log && HasKey(e, t.procs[pid].app)
      ensures exists q :: LostTwin(t, q, t.procs[pid].app)
    {
      TwinsAreKept(s, t, s.procs[pid].app);
    }
  }

  lemma RecordKeepsLock(env: Env, s: Sys, pid: Pid, reply: Reply)
    requires Sound(s) && LockIsSound(env, s) && At(s, pid) && s.procs[pid].phase.Writing? && !Duplicate(s, pid)
    ensures LockIsSound(env, Finish(Recorded(s, s.procs[pid].phase.event), pid, reply))
  {
    var e := s.procs[pid].phase.event;
    var t := Finish(Recorded(s, e), pid, reply);
    assert ProcIsSound(s.log, s.procs[pid]);
    forall q | q in t.procs && Guarded(t, q) ensures Holds(env, t, q) {
      assert Guarded(s, q) && Holds(env, s, q);
    }
    forall q, x | q in t.procs && Guarded(t, q) && BeforeWrite(t.procs[q].phase) &&
        x in t.log && HasKey(x, t.procs[q].app)
      ensures exists r :: LostTwin(t, r, t.procs[q].app)
    {
      assert q != pid && t.procs[q] == s.procs[q] && Guarded(s, q);
      if x in s.log {
        TwinsAreKept(s, t, s.procs[q].app);
      } else if pid in s.lost {
        assert LostTwin(t, pid, t.procs[q].app);
      } else {
        SectionHasOneOccupant(env, s, q, pid);
        assert false;
      }
    }
  }

  /** Moving on inside the section, without touching the log. */
  lemma MovingKeepsLock(env: Env, s: Sys, pid: Pid, phase: Phase)
    requires LockIsSound(env, s) && At(s, pid)
    requires InSection(s.procs[pid].phase) && InSection(phase)
    requires BeforeWrite(phase) ==> BeforeWrite(s.procs[pid].phase) || Find(s.log, s.procs[pid].app).None?
    ensures LockIsSound(env, Moved(s, pid, phase))
  {
    var t := Moved(s, pid, phase);
    QuietStaysExplained(s, t);
    forall q | q in t.procs && Guarded(t, q) ensures Holds(env, t, q) {
      assert Holds(env, s, q);
    }
  }

  lemma EnteringKeepsLock(env: Env, s: Sys, step: Step)
    requires LockIsSound(env, s) && Enabled(env, s, step) && (step.Arrive? || step.Acquire?)
    requires step.Acquire? ==> Keyed(s.procs[step.pid].app)
    ensures LockIsSound(env, Apply(env, s, step))
  {
    var t := Apply(env, s, step);
    QuietStaysExplained(s, t);
    forall q | q in t.procs && Guarded(t, q) ensures Holds(env, t, q) {
      if q != step.pid { assert Holds(env, s, q); }
    }
  }

  lemma ReleasingKeepsLock(env: Env, s: Sys, pid: Pid, phase: Phase)
    requires LockIsSound(env, s) && At(s, pid) && !InSection(phase)
    ensures LockIsSound(env, Moved(Unlocked(env, s, pid), pid, phase))
  {
    var t := Moved(Unlocked(env, s, pid), pid, phase);
    QuietStaysExplained(s, t);
    forall q | q in t.procs && Guarded(t, q) ensures Holds(env, t, q) {
      assert q != pid && Holds(env, s, q);
    }
    forall slot | slot in t.holder ensures t.holder[slot] != pid {
      assert slot in s.holder && Slot(env, s.procs[s.holder[slot]].app) == slot;
    }
  }

  lemma LosingKeepsLock(env: Env, s: Sys, pid: Pid)
    requires LockIsSound(env, s) && Enabled(env, s, LoseLock(pid))
    ensures LockIsSound(env, Apply(env, s, LoseLock(pid)))
  {
    var t := Apply(env, s, LoseLock(pid));
    QuietStaysExplained(s, t);
    forall q | q in t.procs && Guarded(t, q) ensures Holds(env, t, q) {
      assert Holds(env, s, q);
    }
  }

  lemma LeavingKeepsLock(env: Env, s: Sys, pid: Pid)
    requires LockIsSound(env, s) && Enabled(env, s, Leave(pid))
    ensures LockIsSound(env, Apply(env, s, Leave(pid)))
  {
    var t := Apply(env, s, Leave(pid));
    ReleasingKeepsLock(env, s, pid, t.procs[pid].phase);
    assert t == Moved(Unlocked(env, s, pid), pid, t.procs[pid].phase);
  }

  lemma StepKeepsLock(env: Env, s: Sys, step: Step)
    requires Sound(s) && LockIsSound(env, s) && Enabled(env, s, step)
    ensures LockIsSound(env, Apply(env, s, step))
  {
    match step
    case Arrive(_, _, _) => EnteringKeepsLock(env, s, step);
    case Acquire(pid) =>
      assert ProcIsSound(s.log, s.procs[pid]);
      EnteringKeepsLock(env, s, step);
    case Leave(pid) => LeavingKeepsLock(env, s, pid);
    case Crash(pid) => ReleasingKeepsLock(env, s, pid, Failed);
    case LoseLock(pid) => LosingKeepsLock(env, s, pid);
    case _ => WorkKeepsLock(env, s, step);
  }

  lemma WorkKeepsLock(env: Env, s: Sys, step: Step)
    requires Sound(s) && LockIsSound(env, s) && Enabled(env, s, step)
    requires step.Lookup? || step.StartPull? || step.EndPull? || step.Write? || step.WriteFails? || step.Reread?
    ensures LockIsSound(env, Apply(env, s, step))
  {
    var pid := step.pid;
    if step.Write? && !Duplicate(s, pid) {
      RecordKeepsLock(env, s, pid, Answer(FromEvent(s.procs[pid].phase.event)));
    } else if step.WriteFails? && step.committed {
      RecordKeepsLock(env, s, pid, Refusal(NotPersisted));
    } else {
      WorkOnlyMoves(env, s, step);
      MovingKeepsLock(env, s, pid, Apply(env, s, step).procs[pid].phase);
    }
  }

  /** Work inside the section that appends nothing changes the worker's phase and no more, and moves
      it towards the write only past a lookup that found nothing. */
  lemma WorkOnlyMoves(env: Env, s: Sys, step: Step)
    requires Enabled(env, s, step)
    requires step.Lookup? || step.StartPull? || step.EndPull? || step.Write? || step.WriteFails? || step.Reread?
    requires step.Write? ==> Duplicate(s, step.pid)
    requires step.WriteFails? ==> !step.committed
    ensures var pid, t := step.pid, Apply(env, s, step);
            At(t, pid) && t == Moved(s, pid, t.procs[pid].phase) &&
            InSection(s.procs[pid].phase) && InSection(t.procs[pid].phase) &&
            (BeforeWrite(t.procs[pid].phase) ==> BeforeWrite(s.procs[pid].phase) || Find(s.log, s.procs[pid].app).None?)
  {
  }

  lemma {:induction false} EveryStateIsLocked(env: Env, states: seq<Sys>, steps: seq<Step>, i: nat)
    requires IsRun(env, states, steps) && i < |states|
    ensures Sound(states[i]) && LockIsSound(env, states[i])
  {
    EveryStateIsSound(env, states, steps, i);
    if i > 0 {
      EveryStateIsLocked(env, states, steps, i - 1);
      StepKeepsLock(env, states[i - 1], steps[i - 1]);
    }
  }

  /** Two bureau pulls of one key overlap only if one of the two requests lost its lock connection. */
  lemma PullsNeverOverlap(env: Env, states: seq<Sys>, steps: seq<Step>, i: nat, p: Pid, q: Pid)
    requires IsRun(env, states, steps) && i < |states| && At(states[i], p) && At(states[i], q) && p != q
    requires SameKey(states[i].procs[p].app, states[i].procs[q].app)
    requires states[i].procs[p].phase.Pulling? && states[i].procs[q].phase.Pulling?
    ensures p in states[i].lost || q in states[i].lost
  {
    EveryStateIsLocked(env, states, steps, i);
    if p !in states[i].lost && q !in states[i].lost {
      SectionHasOneOccupant(env, states[i], p, q);
    }
  }

  /** A keyed pull starts, or is still in flight, although the key has an event only if its request or
      another one for the key lost its lock connection. */
  lemma NoPullOnceRecorded(env: Env, states: seq<Sys>, steps: seq<Step>, i: nat, pid: Pid)
    requires IsRun(env, states, steps) && i < |states| && At(states[i], pid) && Keyed(states[i].procs[pid].app)
    requires states[i].procs[pid].phase.Pulling? || (i < |steps| && steps[i] == StartPull(pid))
    requires Find(states[i].log, states[i].procs[pid].app).Some?
    ensures exists q :: LostTwin(states[i], q, states[i].procs[pid].app)
  {
    EveryStateIsLocked(env, states, steps, i);
    if pid in states[i].lost {
      assert LostTwin(states[i], pid, states[i].procs[pid].app);
    }
  }

  lemma OneMoreStep(env: Env, states: seq<Sys>, steps: seq<Step>, step: Step)
    returns (longer: seq<Sys>, more: seq<Step>)
    requires IsRun(env, states, steps) && Enabled(env, states[|steps|], step)
    ensures IsRun(env, longer, more) && longer[|more|] == Apply(env, states[|steps|], step)
  {
    longer, more := states + [Apply(env, states[|steps|], step)], steps + [step];
  }

  /** A keyed request that finds the lock free and no event gets as far as its pull. */
  lemma PullBegins(env: Env, states: seq<Sys>, steps: seq<Step>, pid: Pid, app: Application, config: Config)
    returns (longer: seq<Sys>, more: seq<Step>)
    requires IsRun(env, states, steps) && Keyed(app) && states[|steps|].log == []
    requires !At(states[|steps|], pid) && Slot(env, app) !in states[|steps|].holder
    ensures IsRun(env, longer, more)
    ensures var s := states[|steps|];
            longer[|more|] == s.(procs := s.procs[pid := Proc(app, config, Pulling)],
                              holder := s.holder[Slot(env, app) := pid])
  {
    longer, more := OneMoreStep(env, states, steps, Arrive(pid, app, config));
    longer, more := OneMoreStep(env, longer, more, Acquire(pid));
    longer, more := OneMoreStep(env, longer, more, Lookup(pid));
    longer, more := OneMoreStep(env, longer, more, StartPull(pid));
  }

  /** The condition on the lock is needed: once a holder's connection drops mid-pull, a retry of the
      same key acquires the lock, finds no event, and pulls a second time alongside it. */
  lemma LostLockLetsPullsOverlap(env: Env, app: Application, first: Config, second: Config)
    returns (states: seq<Sys>, steps: seq<Step>)
    requires Keyed(app)
    ensures IsRun(env, states, steps)
    ensures var end := states[|steps|];
            At(end, 0) && At(end, 1) && end.procs[0] == Proc(app, first, Pulling)
            && end.procs[1] == Proc(app, second, Pulling)
  {
    states, steps := PullBegins(env, [START], [], 0, app, first);
    states, steps := OneMoreStep(env, states, steps, LoseLock(0));
    states, steps := PullBegins(env, states, steps, 1, app, second);
  }

  /** A request whose pull has begun and brings a score is recorded, answered and gone. */
  lemma PullIsRecorded(env: Env, states: seq<Sys>, steps: seq<Step>, pid: Pid, bureau: BureauReply)
    returns (longer: seq<Sys>, more: seq<Step>)
    requires IsRun(env, states, steps) && states[|steps|].log == []
    requires At(states[|steps|], pid) && Keyed(states[|steps|].procs[pid].app)
    requires states[|steps|].procs[pid].phase.Pulling? && Holds(env, states[|steps|], pid)
    requires PullCredit(states[|steps|].procs[pid].config, bureau, states[|steps|].procs[pid].app.ssn).Some?
    ensures IsRun(env, longer, more)
    ensures var s, t := states[|steps|], longer[|more|];
            && |t.log| == 1 && Records(s.procs[pid], t.log[0])
            && t.holder.Keys == s.holder.Keys - {Slot(env, s.procs[pid].app)}
            && t.procs == s.procs[pid := s.procs[pid].(phase := Returned(Answer(FromEvent(t.log[0]))))]
  {
    var p := states[|steps|].procs[pid];
    OwnRecordIsNeverRefused(p.config, bureau, p.app, RequestId(p.app));
    longer, more := OneMoreStep(env, states, steps, EndPull(pid, bureau));
    longer, more := OneMoreStep(env, longer, more, Write(pid));
    longer, more := OneMoreStep(env, longer, more, Leave(pid));
  }

  /** Rotating the pepper refuses a request repeated word for word: its first try is answered, its
      second is told that it conflicts. */
  lemma RotationRefusesARetry(env: Env, app: Application, config: Config, pepper: string, bureau: BureauReply)
    returns (states: seq<Sys>, steps: seq<Step>)
    requires Keyed(app) && app.ssn != "" && PullCredit(config, bureau, app.ssn).Some?
    requires config.pepper != "" && pepper != "" && pepper != config.pepper && TellsApart(config.hmac)
    ensures IsRun(env, states, steps)
    ensures var end := states[|steps|];
            && At(end, 0) && end.procs[0].app == app && end.procs[0].phase.Returned? && end.procs[0].phase.reply.Answer?
            && At(end, 1) && end.procs[1] == Proc(app, config.(pepper := pepper), Returned(Conflict))
  {
    var rotated := config.(pepper := pepper);
    states, steps := PullBegins(env, [START], [], 0, app, config);
    states, steps := PullIsRecorded(env, states, steps, 0, bureau);
    UnchangedConflictsExactly(config, rotated, app);
    states, steps := OneMoreStep(env, states, steps, Arrive(1, app, rotated));
    states, steps := OneMoreStep(env, states, steps, Acquire(1));
    states, steps := OneMoreStep(env, states, steps, Lookup(1));
    states, steps := OneMoreStep(env, states, steps, Leave(1));
  }
}
