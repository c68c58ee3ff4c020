/**
 Concurrent operations on the engine: each asks for the lock of its service, waits for it,
 takes its steps in any interleaving with the others, and releases the lock when it returns.

 The result is that of running the same operations one after another, in the order in
 which they finished.
 */
module EngineConcurrency {
  import opened Text
  import opened Disk
  import opened EngineModel

  /** What somebody asked the engine to do. */
  datatype Job = Job(service: string, op: Op, plan: Plan)

  /** How far a job is; `mutex` is the one the lock table handed out for its service. */
  datatype Phase =
    | Asking
    | Waiting(mutex: nat)
    | Working(mutex: nat, stage: Stage)
    | Done(reply: Reply)

  datatype LockTable = LockTable(of: map<string, nat>, made: nat)

  datatype Panel = Panel(
    services: map<string, ServiceState>,
    revs: seq<Revision>,
    locks: LockTable,
    held: map<nat, nat>,
    phases: seq<Phase>,
    finished: seq<nat>)

  type Envs = string -> Env

  /** The lock of a service: the one in the table, or a new one entered there. */
  function LockFor(table: LockTable, service: string): (r: (LockTable, nat)) {
    if service in table.of then (table, table.of[service])
    else (LockTable(table.of[service := table.made], table.made + 1), table.made)
  }

  predicate Known(jobs: seq<Job>, services: map<string, ServiceState>) {
    forall t :: 0 <= t < |jobs| ==> jobs[t].service in services
  }

  predicate Shaped(jobs: seq<Job>, p: Panel) {
    |p.phases| == |jobs| && Known(jobs, p.services)
  }

  /** Thread `t` takes one step, if it can. */
  function Turn(envs: Envs, jobs: seq<Job>, p: Panel, t: nat): Panel
    requires Shaped(jobs, p)
  {
    if t >= |jobs| then p
    else
      var job := jobs[t];
      match p.phases[t]
      case Asking =>
        var (table, mutex) := LockFor(p.locks, job.service);
        p.(locks := table, phases := p.phases[t := Waiting(mutex)])
      case Waiting(mutex) =>
        if mutex in p.held then p
        else p.(held := p.held[mutex := t], phases := p.phases[t := Working(mutex, Inspecting)])
      case Working(mutex, stage) =>
        if stage.Returned? then
          p.(held := p.held - {mutex}, phases := p.phases[t := Done(stage.reply)])
        else
          var next := Step(envs(job.service), job.op, job.plan, Config(p.services[job.service], p.revs, stage));
          p.(services := p.services[job.service := next.svc],
             revs := next.revs,
             phases := p.phases[t := Working(mutex, next.stage)],
             finished := if next.stage.Returned? then p.finished + [t] else p.finished)
      case Done(_) => p
  }

  lemma TurnShaped(envs: Envs, jobs: seq<Job>, p: Panel, t: nat)
    requires Shaped(jobs, p)
    ensures Shaped(jobs, Turn(envs, jobs, p, t))
  {
  }

  /** The threads take turns in the order of the schedule. */
  function Execute(envs: Envs, jobs: seq<Job>, p: Panel, schedule: seq<nat>): (last: Panel)
    requires Shaped(jobs, p)
    ensures Shaped(jobs, last)
    decreases |schedule|
  {
    if schedule == [] then p
    else
      TurnShaped(envs, jobs, p, schedule[0]);
      Execute(envs, jobs, Turn(envs, jobs, p, schedule[0]), schedule[1..])
  }

  function Idle(services: map<string, ServiceState>, revs: seq<Revision>, n: nat): Panel {
    Panel(services, revs, LockTable(map[], 0), map[], seq(n, _ => Asking), [])
  }

  // ----------------------------------------------------------------- one after another

  datatype Store = Store(services: map<string, ServiceState>, revs: seq<Revision>)

  predicate Order(jobs: seq<Job>, order: seq<nat>) {
    forall i :: 0 <= i < |order| ==> order[i] < |jobs|
  }

  /** Run a job by itself. */
  function Alone(envs: Envs, job: Job, s: Store): Config
    requires job.service in s.services
  {
    Do(envs(job.service), job.op, job.plan, s.services[job.service], s.revs)
  }

  /** Run the jobs of `order` one after another. */
  function Serial(envs: Envs, jobs: seq<Job>, s: Store, order: seq<nat>): (last: Store)
    requires Known(jobs, s.services) && Order(jobs, order)
    ensures last.services.Keys == s.services.Keys
  {
    if order == [] then s
    else
      var n := |order| - 1;
      var before := Serial(envs, jobs, s, order[..n]);
      var job := jobs[order[n]];
      var done := Alone(envs, job, before);
      Store(before.services[job.service := done.svc], done.revs)
  }

  /** The answers the jobs of `order` get when they run one after another. */
  function SerialReplies(envs: Envs, jobs: seq<Job>, s: Store, order: seq<nat>): (replies: seq<Reply>)
    requires Known(jobs, s.services) && Order(jobs, order)
    ensures |replies| == |order|
  {
    if order == [] then []
    else
      var n := |order| - 1;
      SerialReplies(envs, jobs, s, order[..n])
      + [Alone(envs, jobs[order[n]], Serial(envs, jobs, s, order[..n])).stage.reply]
  }

  // ----------------------------------------------------------------- what every turn keeps

  predicate Busy(phase: Phase) {
    phase.Working? && !phase.stage.Returned?
  }

  predicate Answered(phase: Phase) {
    phase.Done? || (phase.Working? && phase.stage.Returned?)
  }

  predicate HasReply(phase: Phase, reply: Reply) {
    phase == Done(reply) || (phase.Working? && phase.stage == Returned(reply))
  }

  /** One mutex for each service, and no two services share one. */
  predicate TableSound(table: LockTable) {
    && (forall s :: s in table.of ==> table.of[s] < table.made)
    && (forall s, s' :: s in table.of && s' in table.of && table.of[s] == table.of[s'] ==> s == s')
  }

  predicate MutexOf(jobs: seq<Job>, p: Panel, t: nat)
    requires Shaped(jobs, p) && t < |jobs|
  {
    match p.phases[t]
    case Waiting(m) => jobs[t].service in p.locks.of && p.locks.of[jobs[t].service] == m
    case Working(m, _) =>
      jobs[t].service in p.locks.of && p.locks.of[jobs[t].service] == m && m in p.held && p.held[m] == t
    case _ => true
  }

  predicate LocksSound(jobs: seq<Job>, p: Panel)
    requires Shaped(jobs, p)
  {
    && TableSound(p.locks)
    && (forall t :: 0 <= t < |jobs| ==> MutexOf(jobs, p, t))
  }

  /** No two operations on one service are between taking the lock and returning it. */
  predicate Exclusive(jobs: seq<Job>, p: Panel)
    requires Shaped(jobs, p)
  {
    forall t, u :: (0 <= t < |jobs| && 0 <= u < |jobs| && p.phases[t].Working? && p.phases[u].Working?
                    && jobs[t].service == jobs[u].service) ==> t == u
  }

  lemma LocksExclude(jobs: seq<Job>, p: Panel)
    requires Shaped(jobs, p) && LocksSound(jobs, p)
    ensures Exclusive(jobs, p)
  {
    forall t, u | 0 <= t < |jobs| && 0 <= u < |jobs| && p.phases[t].Working? && p.phases[u].Working?
      && jobs[t].service == jobs[u].service
      ensures t == u
    {
      assert MutexOf(jobs, p, t) && MutexOf(jobs, p, u);
    }
  }

  lemma TurnKeepsLocks(envs: Envs, jobs: seq<Job>, p: Panel, t: nat)
    requires Shaped(jobs, p) && LocksSound(jobs, p)
    ensures LocksSound(jobs, Turn(envs, jobs, p, t))
  {
    var q := Turn(envs, jobs, p, t);
    LocksExclude(jobs, p);
    forall u | 0 <= u < |jobs|
      ensures MutexOf(jobs, q, u)
    {
      assert MutexOf(jobs, p, u);
      if t < |jobs| {
        assert MutexOf(jobs, p, t);
      }
    }
  }

  /** What is left of a job's operation, run from where it is now. */
  function Remainder(envs: Envs, job: Job, svc: ServiceState, stage: Stage, revs: seq<Revision>): Config {
    Finish(envs(job.service), job.op, job.plan, Config(svc, revs, stage))
  }

  /**
   Finishing an operation that is under way gives what running it alone would give, from the
   state in which the finished operations left its service, whatever is recorded meanwhile.
   */
  ghost predicate OnTrack(envs: Envs, job: Job, before: ServiceState, now: ServiceState, stage: Stage) {
    forall revs :: Remainder(envs, job, now, stage, revs)
                == Finish(envs(job.service), job.op, job.plan, Config(before, revs, Inspecting))
  }

  ghost predicate ServicesAgree(envs: Envs, jobs: seq<Job>, p: Panel, serial: Store)
    requires Shaped(jobs, p) && serial.services.Keys == p.services.Keys
  {
    && (forall s :: s in p.services ==>
          (forall t :: 0 <= t < |jobs| && Busy(p.phases[t]) ==> jobs[t].service != s) ==>
          p.services[s] == serial.services[s])
    && (forall t :: 0 <= t < |jobs| && Busy(p.phases[t]) ==>
          var s := jobs[t].service;
          OnTrack(envs, jobs[t], serial.services[s], p.services[s], p.phases[t].stage))
  }

  /** The finished jobs have exactly these answers, each job once, and nobody else has one. */
  predicate RepliesAgree(p: Panel, replies: seq<Reply>) {
    && |replies| == |p.finished|
    && (forall i :: 0 <= i < |p.finished| ==> AnswersAt(p, i, replies))
    && (forall i, j :: 0 <= i < j < |p.finished| ==> p.finished[i] != p.finished[j])
    && (forall t :: 0 <= t < |p.phases| && Answered(p.phases[t]) ==> t in p.finished)
  }

  predicate AnswersAt(p: Panel, i: nat, replies: seq<Reply>)
    requires i < |p.finished|
  {
    i < |replies| && p.finished[i] < |p.phases| && HasReply(p.phases[p.finished[i]], replies[i])
  }

  ghost predicate SerialSoFar(envs: Envs, jobs: seq<Job>, p: Panel, start: Store)
    requires Shaped(jobs, p) && Known(jobs, start.services)
  {
    && p.services.Keys == start.services.Keys
    && Order(jobs, p.finished)
    && var serial := Serial(envs, jobs, start, p.finished);
       && p.revs == serial.revs
       && ServicesAgree(envs, jobs, p, serial)
       && RepliesAgree(p, SerialReplies(envs, jobs, start, p.finished))
  }

  lemma SerialExtends(envs: Envs, jobs: seq<Job>, s: Store, order: seq<nat>, t: nat)
    requires Known(jobs, s.services) && Order(jobs, order) && t < |jobs|
    ensures Order(jobs, order + [t])
    ensures var before := Serial(envs, jobs, s, order);
            var done := Alone(envs, jobs[t], before);
            && Serial(envs, jobs, s, order + [t]) == Store(before.services[jobs[t].service := done.svc], done.revs)
            && SerialReplies(envs, jobs, s, order + [t]) == SerialReplies(envs, jobs, s, order) + [done.stage.reply]
  {
    var longer := order + [t];
    assert longer[..|order|] == order;
  }

  /** A step of an operation that does not yet record depends on nothing but its own service. */
  lemma StepsApart(env: Env, op: Op, plan: Plan, svc: ServiceState, revs: seq<Revision>, revs': seq<Revision>, stage: Stage)
    requires !stage.Returned? && !stage.Recording?
    ensures var a := Step(env, op, plan, Config(svc, revs, stage));
            var b := Step(env, op, plan, Config(svc, revs', stage));
            a.revs == revs && b.revs == revs' && a.svc == b.svc && a.stage == b.stage
  {
  }

  lemma RecordingReturns(env: Env, op: Op, plan: Plan, svc: ServiceState, revs: seq<Revision>)
    ensures var next := Step(env, op, plan, Config(svc, revs, Recording));
            next.svc == svc && next.stage.Returned?
  {
  }

  /** A step that does not finish the operation keeps it on track. */
  lemma StepStaysOnTrack(envs: Envs, job: Job, before: ServiceState, now: ServiceState, stage: Stage, revs: seq<Revision>)
    requires !stage.Returned? && OnTrack(envs, job, before, now, stage)
    ensures var next := Step(envs(job.service), job.op, job.plan, Config(now, revs, stage));
            && (!next.stage.Returned? ==> next.revs == revs && OnTrack(envs, job, before, next.svc, next.stage))
            && (next.stage.Returned? ==>
                  next == Finish(envs(job.service), job.op, job.plan, Config(before, revs, Inspecting)))
  {
    var env := envs(job.service);
    var next := Step(env, job.op, job.plan, Config(now, revs, stage));
    assert Finish(env, job.op, job.plan, Config(now, revs, stage)) == Finish(env, job.op, job.plan, next);
    assert Remainder(envs, job, now, stage, revs) == Finish(env, job.op, job.plan, Config(before, revs, Inspecting));
    if stage.Recording? {
      RecordingReturns(env, job.op, job.plan, now, revs);
    } else {
      StepsApart(env, job.op, job.plan, now, revs, revs, stage);
      forall revs'
        ensures Remainder(envs, job, next.svc, next.stage, revs')
             == Finish(env, job.op, job.plan, Config(before, revs', Inspecting))
      {
        StepsApart(env, job.op, job.plan, now, revs, revs', stage);
        var other := Step(env, job.op, job.plan, Config(now, revs', stage));
        assert other == Config(next.svc, revs', next.stage);
        assert Finish(env, job.op, job.plan, Config(now, revs', stage)) == Finish(env, job.op, job.plan, other);
        assert Remainder(envs, job, now, stage, revs') == Finish(env, job.op, job.plan, Config(before, revs', Inspecting));
      }
    }
  }

  ghost predicate Sound(envs: Envs, jobs: seq<Job>, p: Panel, start: Store)
    requires Shaped(jobs, p) && Known(jobs, start.services)
  {
    LocksSound(jobs, p) && SerialSoFar(envs, jobs, p, start)
  }

  /** Only thread `t` has moved. */
  predicate OnlyMoved(p: Panel, q: Panel, t: nat) {
    |q.phases| == |p.phases| && forall u :: 0 <= u < |p.phases| && u != t ==> q.phases[u] == p.phases[u]
  }

  /** A move that finishes nothing and keeps the mover's answer, if it has one, keeps every answer. */
  lemma RepliesKept(p: Panel, q: Panel, replies: seq<Reply>, t: nat)
    requires t < |p.phases| && OnlyMoved(p, q, t) && q.finished == p.finished && RepliesAgree(p, replies)
    requires forall r :: HasReply(p.phases[t], r) ==> HasReply(q.phases[t], r)
    requires Answered(q.phases[t]) ==> Answered(p.phases[t])
    ensures RepliesAgree(q, replies)
  {
    forall i | 0 <= i < |q.finished|
      ensures AnswersAt(q, i, replies)
    {
      assert AnswersAt(p, i, replies);
    }
    forall u | 0 <= u < |q.phases| && Answered(q.phases[u])
      ensures u in q.finished
    {
      assert Answered(p.phases[u]);
    }
  }

  /** Services that do not move still agree when nobody starts or stops being busy. */
  lemma ServicesKept(envs: Envs, jobs: seq<Job>, p: Panel, q: Panel, serial: Store, t: nat)
    requires Shaped(jobs, p) && Shaped(jobs, q) && t < |jobs| && OnlyMoved(p, q, t) && q.services == p.services
    requires !Busy(p.phases[t]) && !Busy(q.phases[t])
    requires serial.services.Keys == p.services.Keys && ServicesAgree(envs, jobs, p, serial)
    ensures ServicesAgree(envs, jobs, q, serial)
  {
    assert forall u :: 0 <= u < |jobs| ==> Busy(q.phases[u]) == Busy(p.phases[u]);
  }

  /** The one busy thread of a service keeps it on track. */
  lemma ServiceOnTrack(envs: Envs, jobs: seq<Job>, p: Panel, q: Panel, serial: Store, t: nat, now: ServiceState)
    requires Shaped(jobs, p) && Shaped(jobs, q) && t < |jobs| && OnlyMoved(p, q, t)
    requires q.services == p.services[jobs[t].service := now] && Busy(q.phases[t])
    requires serial.services.Keys == p.services.Keys && ServicesAgree(envs, jobs, p, serial)
    requires AloneBusy(jobs, p, t)
    requires OnTrack(envs, jobs[t], serial.services[jobs[t].service], now, q.phases[t].stage)
    ensures serial.services.Keys == q.services.Keys && ServicesAgree(envs, jobs, q, serial)
  {
    var s := jobs[t].service;
    forall s' | s' in q.services && (forall u :: 0 <= u < |jobs| && Busy(q.phases[u]) ==> jobs[u].service != s')
      ensures q.services[s'] == serial.services[s']
    {
      assert s' != s;
      assert forall u :: 0 <= u < |jobs| && Busy(p.phases[u]) ==> jobs[u].service != s';
    }
    forall u | 0 <= u < |jobs| && Busy(q.phases[u])
      ensures OnTrack(envs, jobs[u], serial.services[jobs[u].service], q.services[jobs[u].service], q.phases[u].stage)
    {
    }
  }

  /** Nobody else is busy on the service of thread `t`. */
  predicate AloneBusy(jobs: seq<Job>, p: Panel, t: nat)
    requires Shaped(jobs, p) && t < |jobs|
  {
    forall u :: 0 <= u < |jobs| && u != t && Busy(p.phases[u]) ==> jobs[u].service != jobs[t].service
  }

  lemma HolderIsAlone(jobs: seq<Job>, p: Panel, t: nat)
    requires Shaped(jobs, p) && LocksSound(jobs, p) && t < |jobs|
    requires p.phases[t].Working? || (p.phases[t].Waiting? && p.phases[t].mutex !in p.held)
    ensures AloneBusy(jobs, p, t)
  {
    assert MutexOf(jobs, p, t);
    forall u | 0 <= u < |jobs| && u != t && Busy(p.phases[u])
      ensures jobs[u].service != jobs[t].service
    {
      assert MutexOf(jobs, p, u);
    }
  }

  // -- the shape of a turn

  /** Thread `t` has moved, and neither a service nor what has finished has. */
  predicate OnlyPhase(p: Panel, q: Panel, t: nat) {
    OnlyMoved(p, q, t) && q.services == p.services && q.finished == p.finished && q.revs == p.revs
  }

  /** Thread `t` has an answer after the move if and only if it had that answer before. */
  ghost predicate SameAnswer(p: Panel, q: Panel, t: nat)
    requires t < |p.phases| && |q.phases| == |p.phases|
  {
    && (forall r :: HasReply(p.phases[t], r) ==> HasReply(q.phases[t], r))
    && (Answered(q.phases[t]) ==> Answered(p.phases[t]))
  }

  lemma LockTurn(envs: Envs, jobs: seq<Job>, p: Panel, t: nat)
    requires Shaped(jobs, p) && t < |jobs|
    requires p.phases[t].Asking? || (p.phases[t].Working? && p.phases[t].stage.Returned?)
    ensures var q := Turn(envs, jobs, p, t);
            OnlyPhase(p, q, t) && SameAnswer(p, q, t) && !Busy(p.phases[t]) && !Busy(q.phases[t])
  {
  }

  lemma EnterTurn(envs: Envs, jobs: seq<Job>, p: Panel, t: nat)
    requires Shaped(jobs, p) && t < |jobs| && p.phases[t].Waiting? && p.phases[t].mutex !in p.held
    ensures var q := Turn(envs, jobs, p, t);
            && OnlyPhase(p, q, t) && SameAnswer(p, q, t)
            && !Busy(p.phases[t]) && Busy(q.phases[t]) && q.phases[t].stage == Inspecting
  {
  }

  /** Thread `t` has taken one step of its operation, to `next`. */
  predicate Stepped(jobs: seq<Job>, p: Panel, q: Panel, t: nat, next: Config)
    requires Shaped(jobs, p) && t < |jobs|
  {
    && OnlyMoved(p, q, t)
    && q.services == p.services[jobs[t].service := next.svc] && q.revs == next.revs
    && q.phases[t].Working? && q.phases[t].stage == next.stage
    && q.finished == if next.stage.Returned? then p.finished + [t] else p.finished
  }

  function NextOf(envs: Envs, jobs: seq<Job>, p: Panel, t: nat): Config
    requires Shaped(jobs, p) && t < |jobs| && Busy(p.phases[t])
  {
    var job := jobs[t];
    Step(envs(job.service), job.op, job.plan, Config(p.services[job.service], p.revs, p.phases[t].stage))
  }

  lemma StepTurn(envs: Envs, jobs: seq<Job>, p: Panel, t: nat)
    requires Shaped(jobs, p) && t < |jobs| && Busy(p.phases[t])
    ensures Stepped(jobs, p, Turn(envs, jobs, p, t), t, NextOf(envs, jobs, p, t))
  {
  }

  // -- what each turn does to the serial history

  /** While nothing finishes, the serial history stays the same. */
  lemma SerialKept(envs: Envs, jobs: seq<Job>, p: Panel, q: Panel, start: Store)
    requires Shaped(jobs, p) && Shaped(jobs, q) && Known(jobs, start.services) && SerialSoFar(envs, jobs, p, start)
    requires q.finished == p.finished && q.revs == p.revs && q.services.Keys == p.services.Keys
    requires var serial := Serial(envs, jobs, start, p.finished);
             serial.services.Keys == q.services.Keys && ServicesAgree(envs, jobs, q, serial)
    requires RepliesAgree(q, SerialReplies(envs, jobs, start, p.finished))
    ensures SerialSoFar(envs, jobs, q, start)
  {
  }

  /** Asking for the lock, and giving it back, move no service. */
  lemma QuietTurn(envs: Envs, jobs: seq<Job>, p: Panel, q: Panel, start: Store, t: nat)
    requires Shaped(jobs, p) && Shaped(jobs, q) && Known(jobs, start.services) && SerialSoFar(envs, jobs, p, start)
    requires t < |jobs| && OnlyPhase(p, q, t) && SameAnswer(p, q, t) && !Busy(p.phases[t]) && !Busy(q.phases[t])
    ensures SerialSoFar(envs, jobs, q, start)
  {
    ServicesKept(envs, jobs, p, q, Serial(envs, jobs, start, p.finished), t);
    RepliesKept(p, q, SerialReplies(envs, jobs, start, p.finished), t);
    SerialKept(envs, jobs, p, q, start);
  }

  /** Taking the lock: nobody else is at work on the service, so it is as the finished operations left it. */
  lemma AcquiringTurn(envs: Envs, jobs: seq<Job>, p: Panel, q: Panel, start: Store, t: nat)
    requires Shaped(jobs, p) && Shaped(jobs, q) && Known(jobs, start.services) && SerialSoFar(envs, jobs, p, start)
    requires t < |jobs| && OnlyPhase(p, q, t) && SameAnswer(p, q, t)
    requires !Busy(p.phases[t]) && Busy(q.phases[t]) && q.phases[t].stage == Inspecting && AloneBusy(jobs, p, t)
    ensures SerialSoFar(envs, jobs, q, start)
  {
    var serial := Serial(envs, jobs, start, p.finished);
    var s := jobs[t].service;
    IdleServiceAgrees(envs, jobs, p, serial, t);
    assert q.services == p.services[s := p.services[s]];
    ServiceOnTrack(envs, jobs, p, q, serial, t, p.services[s]);
    RepliesKept(p, q, SerialReplies(envs, jobs, start, p.finished), t);
    SerialKept(envs, jobs, p, q, start);
  }

  lemma IdleServiceAgrees(envs: Envs, jobs: seq<Job>, p: Panel, serial: Store, t: nat)
    requires Shaped(jobs, p) && t < |jobs| && AloneBusy(jobs, p, t) && !Busy(p.phases[t])
    requires serial.services.Keys == p.services.Keys && ServicesAgree(envs, jobs, p, serial)
    ensures p.services[jobs[t].service] == serial.services[jobs[t].service]
    ensures OnTrack(envs, jobs[t], serial.services[jobs[t].service], p.services[jobs[t].service], Inspecting)
  {
    assert forall u :: 0 <= u < |jobs| && Busy(p.phases[u]) ==> jobs[u].service != jobs[t].service;
  }

  lemma BusyAgrees(envs: Envs, jobs: seq<Job>, p: Panel, serial: Store, t: nat)
    requires Shaped(jobs, p) && t < |jobs| && Busy(p.phases[t])
    requires serial.services.Keys == p.services.Keys && ServicesAgree(envs, jobs, p, serial)
    ensures OnTrack(envs, jobs[t], serial.services[jobs[t].service], p.services[jobs[t].service], p.phases[t].stage)
  {
  }

  /** A step in the middle of an operation. */
  lemma WorkingTurn(envs: Envs, jobs: seq<Job>, p: Panel, q: Panel, start: Store, t: nat)
    requires Shaped(jobs, p) && Shaped(jobs, q) && Known(jobs, start.services) && SerialSoFar(envs, jobs, p, start)
    requires t < |jobs| && Busy(p.phases[t]) && AloneBusy(jobs, p, t)
    requires var next := NextOf(envs, jobs, p, t); Stepped(jobs, p, q, t, next) && !next.stage.Returned?
    ensures SerialSoFar(envs, jobs, q, start)
  {
    var serial := Serial(envs, jobs, start, p.finished);
    var s := jobs[t].service;
    var next := NextOf(envs, jobs, p, t);
    BusyAgrees(envs, jobs, p, serial, t);
    StepStaysOnTrack(envs, jobs[t], serial.services[s], p.services[s], p.phases[t].stage, p.revs);
    ServiceOnTrack(envs, jobs, p, q, serial, t, next.svc);
    RepliesKept(p, q, SerialReplies(envs, jobs, start, p.finished), t);
    SerialKept(envs, jobs, p, q, start);
  }

  /** The step that finishes an operation makes it the latest in the serial order. */
  lemma FinishingTurn(envs: Envs, jobs: seq<Job>, p: Panel, q: Panel, start: Store, t: nat)
    requires Shaped(jobs, p) && Shaped(jobs, q) && Known(jobs, start.services) && SerialSoFar(envs, jobs, p, start)
    requires t < |jobs| && Busy(p.phases[t]) && AloneBusy(jobs, p, t)
    requires var next := NextOf(envs, jobs, p, t); Stepped(jobs, p, q, t, next) && next.stage.Returned?
    ensures SerialSoFar(envs, jobs, q, start)
  {
    var before := Serial(envs, jobs, start, p.finished);
    var s := jobs[t].service;
    BusyAgrees(envs, jobs, p, before, t);
    StepStaysOnTrack(envs, jobs[t], before.services[s], p.services[s], p.phases[t].stage, p.revs);
    SerialExtends(envs, jobs, start, p.finished, t);
    var done := Alone(envs, jobs[t], before);
    FinishedAgree(envs, jobs, p, q, before, Serial(envs, jobs, start, q.finished), t, done);
    FinishedReplies(p, q, SerialReplies(envs, jobs, start, p.finished), t, done.stage.reply);
  }

  lemma FinishedReplies(p: Panel, q: Panel, replies: seq<Reply>, t: nat, reply: Reply)
    requires t < |p.phases| && OnlyMoved(p, q, t) && q.finished == p.finished + [t] && RepliesAgree(p, replies)
    requires Busy(p.phases[t]) && HasReply(q.phases[t], reply)
    ensures RepliesAgree(q, replies + [reply])
  {
    forall i | 0 <= i < |p.finished|
      ensures p.finished[i] != t && AnswersAt(q, i, replies + [reply])
    {
      assert AnswersAt(p, i, replies);
    }
    assert AnswersAt(q, |p.finished|, replies + [reply]);
    forall u | 0 <= u < |q.phases| && Answered(q.phases[u])
      ensures u in q.finished
    {
      assert u != t ==> Answered(p.phases[u]);
    }
  }

  lemma FinishedAgree(envs: Envs, jobs: seq<Job>, p: Panel, q: Panel, before: Store, serial: Store, t: nat, done: Config)
    requires Shaped(jobs, p) && Shaped(jobs, q) && t < |jobs| && Busy(p.phases[t]) && !Busy(q.phases[t])
    requires before.services.Keys == p.services.Keys && ServicesAgree(envs, jobs, p, before)
    requires var s := jobs[t].service;
             && serial.services == before.services[s := done.svc]
             && q.services == p.services[s := done.svc]
             && (forall u :: 0 <= u < |jobs| && u != t && Busy(p.phases[u]) ==> jobs[u].service != s)
    requires forall u :: 0 <= u < |jobs| && u != t ==> q.phases[u] == p.phases[u]
    ensures serial.services.Keys == q.services.Keys && ServicesAgree(envs, jobs, q, serial)
  {
    var s := jobs[t].service;
    forall s' | s' in q.services && (forall u :: 0 <= u < |jobs| && Busy(q.phases[u]) ==> jobs[u].service != s')
      ensures q.services[s'] == serial.services[s']
    {
      if s' != s {
        assert forall u :: 0 <= u < |jobs| && Busy(p.phases[u]) ==> jobs[u].service != s';
      }
    }
  }

  /** A turn that can do something keeps the serial history. */
  lemma TurnKeepsSerial(envs: Envs, jobs: seq<Job>, p: Panel, start: Store, t: nat)
    requires Shaped(jobs, p) && Known(jobs, start.services) && Sound(envs, jobs, p, start) && t < |jobs|
    ensures Shaped(jobs, Turn(envs, jobs, p, t)) && SerialSoFar(envs, jobs, Turn(envs, jobs, p, t), start)
  {
    var q := Turn(envs, jobs, p, t);
    TurnShaped(envs, jobs, p, t);
    if p.phases[t].Asking? || (p.phases[t].Working? && p.phases[t].stage.Returned?) {
      LockTurn(envs, jobs, p, t);
      QuietTurn(envs, jobs, p, q, start, t);
    } else if Busy(p.phases[t]) {
      HolderIsAlone(jobs, p, t);
      StepTurn(envs, jobs, p, t);
      if NextOf(envs, jobs, p, t).stage.Returned? {
        FinishingTurn(envs, jobs, p, q, start, t);
      } else {
        WorkingTurn(envs, jobs, p, q, start, t);
      }
    } else if p.phases[t].Waiting? && p.phases[t].mutex !in p.held {
      HolderIsAlone(jobs, p, t);
      EnterTurn(envs, jobs, p, t);
      AcquiringTurn(envs, jobs, p, q, start, t);
    }
  }

  lemma TurnKeepsSound(envs: Envs, jobs: seq<Job>, p: Panel, start: Store, t: nat)
    requires Shaped(jobs, p) && Known(jobs, start.services) && Sound(envs, jobs, p, start)
    ensures Shaped(jobs, Turn(envs, jobs, p, t))
    ensures Sound(envs, jobs, Turn(envs, jobs, p, t), start)
  {
    TurnShaped(envs, jobs, p, t);
    TurnKeepsLocks(envs, jobs, p, t);
    if t < |jobs| {
      TurnKeepsSerial(envs, jobs, p, start, t);
    }
  }

  lemma {:induction false} ExecuteKeepsSound(envs: Envs, jobs: seq<Job>, p: Panel, start: Store, schedule: seq<nat>)
    requires Shaped(jobs, p) && Known(jobs, start.services) && Sound(envs, jobs, p, start)
    ensures Sound(envs, jobs, Execute(envs, jobs, p, schedule), start)
    decreases |schedule|
  {
    if schedule != [] {
      TurnShaped(envs, jobs, p, schedule[0]);
      TurnKeepsSound(envs, jobs, p, start, schedule[0]);
      ExecuteKeepsSound(envs, jobs, Turn(envs, jobs, p, schedule[0]), start, schedule[1..]);
    }
  }

  lemma IdleIsSound(envs: Envs, jobs: seq<Job>, start: Store)
    requires Known(jobs, start.services)
    ensures var p := Idle(start.services, start.revs, |jobs|);
            Shaped(jobs, p) && Sound(envs, jobs, p, start)
  {
  }

  // ----------------------------------------------------------------- the laws

  /** In every interleaving, two operations naming the same service never overlap. */
  lemma OneAtATimePerService(envs: Envs, jobs: seq<Job>, start: Store, schedule: seq<nat>)
    requires Known(jobs, start.services)
    ensures Exclusive(jobs, Execute(envs, jobs, Idle(start.services, start.revs, |jobs|), schedule))
  {
    IdleIsSound(envs, jobs, start);
    var p := Idle(start.services, start.revs, |jobs|);
    ExecuteKeepsSound(envs, jobs, p, start, schedule);
    LocksExclude(jobs, Execute(envs, jobs, p, schedule));
  }

  /**
   Every concurrent history equals a serial one.  However the steps interleave, running the
   finished operations one after another, in the order in which they finished, gives every
   one of them the answer it got, gives the same revisions under the same ids, and gives
   every service that has no operation under way the same files, running configuration and trace.
   */
  lemma ConcurrentEqualsSerial(envs: Envs, jobs: seq<Job>, start: Store, schedule: seq<nat>)
    requires Known(jobs, start.services)
    ensures var p := Execute(envs, jobs, Idle(start.services, start.revs, |jobs|), schedule);
            && Order(jobs, p.finished)
            && var serial := Serial(envs, jobs, start, p.finished);
               && p.revs == serial.revs
               && RepliesAgree(p, SerialReplies(envs, jobs, start, p.finished))
               && (forall s :: s in p.services && (forall t :: 0 <= t < |jobs| && Busy(p.phases[t]) ==> jobs[t].service != s) ==>
                     s in serial.services && p.services[s] == serial.services[s])
  {
    IdleIsSound(envs, jobs, start);
    ExecuteKeepsSound(envs, jobs, Idle(start.services, start.revs, |jobs|), start, schedule);
  }

  predicate AllReturned(p: Panel) {
    forall t :: 0 <= t < |p.phases| ==> p.phases[t].Done?
  }

  /** Once every operation has returned, nothing at all distinguishes the history from the serial one. */
  lemma AllDoneEqualsSerial(envs: Envs, jobs: seq<Job>, start: Store, schedule: seq<nat>)
    requires Known(jobs, start.services)
    requires AllReturned(Execute(envs, jobs, Idle(start.services, start.revs, |jobs|), schedule))
    ensures var p := Execute(envs, jobs, Idle(start.services, start.revs, |jobs|), schedule);
            && Order(jobs, p.finished)
            && Store(p.services, p.revs) == Serial(envs, jobs, start, p.finished)
            && (forall t :: 0 <= t < |jobs| ==> t in p.finished)
            && (forall i, j :: 0 <= i < j < |p.finished| ==> p.finished[i] != p.finished[j])
  {
    IdleIsSound(envs, jobs, start);
    ExecuteKeepsSound(envs, jobs, Idle(start.services, start.revs, |jobs|), start, schedule);
    NobodyBusy(envs, jobs, Execute(envs, jobs, Idle(start.services, start.revs, |jobs|), schedule), start);
  }

  lemma NobodyBusy(envs: Envs, jobs: seq<Job>, p: Panel, start: Store)
    requires Shaped(jobs, p) && Known(jobs, start.services) && SerialSoFar(envs, jobs, p, start)
    requires AllReturned(p)
    ensures Store(p.services, p.revs) == Serial(envs, jobs, start, p.finished)
    ensures forall t :: 0 <= t < |jobs| ==> t in p.finished
  {
    var serial := Serial(envs, jobs, start, p.finished);
    assert forall t :: 0 <= t < |jobs| ==> !Busy(p.phases[t]);
    assert forall s :: s in p.services ==> p.services[s] == serial.services[s];
    assert p.services == serial.services;
    assert forall t :: 0 <= t < |jobs| ==> Answered(p.phases[t]);
  }

  // ----------------------------------------------------------------- nobody waits for ever

  /** Every held lock is held by an operation that is at work. */
  predicate HeldByWorkers(p: Panel) {
    forall m :: m in p.held ==>
      p.held[m] < |p.phases| && p.phases[p.held[m]].Working? && p.phases[p.held[m]].mutex == m
  }

  lemma TurnKeepsHeld(envs: Envs, jobs: seq<Job>, p: Panel, t: nat)
    requires Shaped(jobs, p) && LocksSound(jobs, p) && HeldByWorkers(p)
    ensures HeldByWorkers(Turn(envs, jobs, p, t))
  {
    if t < |jobs| {
      assert MutexOf(jobs, p, t);
    }
  }

  function PhaseLeft(phase: Phase): nat {
    match phase
    case Asking => 10
    case Waiting(_) => 9
    case Working(_, stage) => 1 + Remaining(stage)
    case Done(_) => 0
  }

  function Left(phases: seq<Phase>): nat {
    if phases == [] then 0 else PhaseLeft(phases[0]) + Left(phases[1..])
  }

  lemma {:induction false} LeftWith(phases: seq<Phase>, t: nat, phase: Phase)
    requires t < |phases|
    ensures Left(phases[t := phase]) == Left(phases) - PhaseLeft(phases[t]) + PhaseLeft(phase)
    decreases |phases|
  {
    var moved := phases[t := phase];
    if t == 0 {
      assert moved[1..] == phases[1..];
    } else {
      assert moved[0] == phases[0] && moved[1..] == phases[1..][t - 1 := phase];
      LeftWith(phases[1..], t - 1, phase);
    }
  }

  /** It is not in line for a lock that another operation holds. */
  predicate CanMove(p: Panel, t: nat)
    requires t < |p.phases|
  {
    match p.phases[t]
    case Asking => true
    case Waiting(mutex) => mutex !in p.held
    case Working(_, _) => true
    case Done(_) => false
  }

  /** Whoever waits, waits for somebody who can move. */
  lemma SomebodyCanMove(p: Panel) returns (t: nat)
    requires HeldByWorkers(p) && !AllReturned(p)
    ensures t < |p.phases| && CanMove(p, t)
  {
    t :| 0 <= t < |p.phases| && !p.phases[t].Done?;
    if !CanMove(p, t) {
      t := p.held[p.phases[t].mutex];
    }
  }

  lemma MovingGetsOn(envs: Envs, jobs: seq<Job>, p: Panel, t: nat)
    requires Shaped(jobs, p) && t < |jobs| && CanMove(p, t)
    ensures Left(Turn(envs, jobs, p, t).phases) < Left(p.phases)
  {
    var q := Turn(envs, jobs, p, t);
    var phase := q.phases[t];
    assert q.phases == p.phases[t := phase];
    if Busy(p.phases[t]) {
      var job := jobs[t];
      StepsRunOut(envs(job.service), job.op, job.plan, Config(p.services[job.service], p.revs, p.phases[t].stage));
    } else if p.phases[t].Waiting? {
      assert phase == Working(p.phases[t].mutex, Inspecting);
    }
    LeftWith(p.phases, t, phase);
  }

  /**
   There is no deadlock: from every state of every history the operations can be carried on
   until all have returned.
   */
  lemma {:induction false} EveryHistoryCanEnd(envs: Envs, jobs: seq<Job>, p: Panel) returns (schedule: seq<nat>)
    requires Shaped(jobs, p) && LocksSound(jobs, p) && HeldByWorkers(p)
    ensures AllReturned(Execute(envs, jobs, p, schedule))
    decreases Left(p.phases)
  {
    if AllReturned(p) {
      schedule := [];
    } else {
      var t := SomebodyCanMove(p);
      var q := Turn(envs, jobs, p, t);
      TurnShaped(envs, jobs, p, t);
      TurnKeepsLocks(envs, jobs, p, t);
      TurnKeepsHeld(envs, jobs, p, t);
      MovingGetsOn(envs, jobs, p, t);
      var rest := EveryHistoryCanEnd(envs, jobs, q);
      schedule := [t] + rest;
      assert schedule[0] == t && schedule[1..] == rest;
    }
  }

  lemma {:induction false} ExecuteKeepsHeld(envs: Envs, jobs: seq<Job>, p: Panel, schedule: seq<nat>)
    requires Shaped(jobs, p) && LocksSound(jobs, p) && HeldByWorkers(p)
    ensures var q := Execute(envs, jobs, p, schedule); LocksSound(jobs, q) && HeldByWorkers(q)
    decreases |schedule|
  {
    if schedule != [] {
      TurnShaped(envs, jobs, p, schedule[0]);
      TurnKeepsLocks(envs, jobs, p, schedule[0]);
      TurnKeepsHeld(envs, jobs, p, schedule[0]);
      ExecuteKeepsHeld(envs, jobs, Turn(envs, jobs, p, schedule[0]), schedule[1..]);
    }
  }

  /** So every history that has begun can be brought to an end, in which it equals a serial one. */
  lemma NoDeadlock(envs: Envs, jobs: seq<Job>, start: Store, schedule: seq<nat>) returns (rest: seq<nat>)
    requires Known(jobs, start.services)
    ensures var p := Execute(envs, jobs, Idle(start.services, start.revs, |jobs|), schedule);
            AllReturned(Execute(envs, jobs, p, rest))
  {
    var idle := Idle(start.services, start.revs, |jobs|);
    IdleIsSound(envs, jobs, start);
    ExecuteKeepsHeld(envs, jobs, idle, schedule);
    rest := EveryHistoryCanEnd(envs, jobs, Execute(envs, jobs, idle, schedule));
  }
}
