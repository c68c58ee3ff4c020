/**
 The agent's job scheduler: a loop that starts a pass for every due job, a set of the job
 names in flight that keeps a second pass from starting, and a shutdown that gives live passes
 a while to end.

 The loop, the passes and the clock move in any order.  A pass ends by recording its result
 and then giving its name back; or it is cut off at any point, which gives the name back too.
 */
module JobScheduler {
  import opened Text

  /** One row of the schedule. */
  datatype Job = Job(name: string, nextRun: nat, interval: nat, enabled: bool)

  datatype Phase = Working | Recording(ok: bool) | Releasing(ok: bool)

  datatype Pass = Pass(name: string, phase: Phase)

  /** One attempt to record the result of a pass, and when the job was to run next. */
  datatype Entry = Entry(pass: nat, name: string, ok: bool, written: bool, next: nat)

  datatype Loop =
    | Starting
    | Waiting
    | Ticking(due: seq<string>, mark: nat)   // `mark` entries were in the log when `due` was read
    | Draining(deadline: nat)
    | Exited(abandoned: set<string>)

  datatype System = System(
    loop: Loop,
    clock: nat,               // milliseconds
    jobs: seq<Job>,
    held: set<string>,        // the names in flight
    passes: map<nat, Pass>,   // the live passes
    born: nat,                // how many passes were ever started
    log: seq<Entry>,
    ended: set<nat>)          // the passes that ended normally

  datatype Action =
    | Register(ok: bool)
    | Elapse(time: nat)
    | ReadDue(ok: bool)
    | ClaimNext
    | EndTick
    | Shutdown
    | Look
    | Work(pass: nat, ok: bool)
    | Record(pass: nat, written: bool, jitter: nat)
    | Release(pass: nat)
    | CutOff(pass: nat)

  const SHUTDOWN_DRAIN: nat := 20000
  const DRAIN_POLL: nat := 100

  // ----------------------------------------------------------------- the schedule

  predicate Due(job: Job, clock: nat) {
    job.enabled && job.nextRun <= clock
  }

  function Insert(job: Job, sorted: seq<Job>): seq<Job> {
    if sorted == [] || job.nextRun <= sorted[0].nextRun then [job] + sorted
    else [sorted[0]] + Insert(job, sorted[1..])
  }

  /** The due jobs, the longest overdue first. */
  function DueJobs(jobs: seq<Job>, clock: nat): seq<Job> {
    if jobs == [] then []
    else if Due(jobs[0], clock) then Insert(jobs[0], DueJobs(jobs[1..], clock))
    else DueJobs(jobs[1..], clock)
  }

  function Names(jobs: seq<Job>): (names: seq<string>)
    ensures |names| == |jobs|
  {
    seq(|jobs|, i requires 0 <= i < |jobs| => jobs[i].name)
  }

  /** What recording a result does to the schedule. */
  function Reschedule(jobs: seq<Job>, name: string, next: nat): (r: seq<Job>)
    ensures |r| == |jobs|
  {
    if jobs == [] then []
    else
      [if jobs[0].name == name then jobs[0].(nextRun := next + jobs[0].interval) else jobs[0]]
      + Reschedule(jobs[1..], name, next)
  }

  /** The time of the next run that recording a result sets. */
  function NextFor(jobs: seq<Job>, name: string, next: nat): nat {
    if jobs == [] then next
    else if jobs[0].name == name then next + jobs[0].interval
    else NextFor(jobs[1..], name, next)
  }

  // ----------------------------------------------------------------- the steps

  function Start(jobs: seq<Job>): System {
    System(Starting, 0, jobs, {}, map[], 0, [], {})
  }

  /** Claims the first due name and starts its pass, or skips it while an earlier pass holds it. */
  function Claimed(s: System): System
    requires s.loop.Ticking? && s.loop.due != []
  {
    var name := s.loop.due[0];
    var next := s.(loop := Ticking(s.loop.due[1..], s.loop.mark));
    if name in s.held then next
    else next.(held := s.held + {name}, passes := s.passes[s.born := Pass(name, Working)], born := s.born + 1)
  }

  function Recorded(s: System, id: nat, written: bool, jitter: nat): System
    requires id in s.passes && s.passes[id].phase.Recording?
  {
    var pass := s.passes[id];
    s.(passes := s.passes[id := Pass(pass.name, Releasing(pass.phase.ok))],
       log := s.log + [Entry(id, pass.name, pass.phase.ok, written, NextFor(s.jobs, pass.name, s.clock + jitter))],
       jobs := if written then Reschedule(s.jobs, pass.name, s.clock + jitter) else s.jobs)
  }

  /** The pass is gone and its claim with it. */
  function Dropped(s: System, id: nat): System
    requires id in s.passes
  {
    s.(passes := s.passes - {id}, held := s.held - {s.passes[id].name})
  }

  function Looked(s: System): System
    requires s.loop.Draining?
  {
    if s.held == {} || s.clock >= s.loop.deadline then s.(loop := Exited(s.held)) else s
  }

  /** One action; an action that is not enabled changes nothing. */
  function Step(s: System, act: Action): System {
    match act
    case Register(ok) =>
      if s.loop.Starting? then s.(loop := if ok then Waiting else Exited({})) else s
    case Elapse(time) => s.(clock := s.clock + time)
    case ReadDue(ok) =>
      if s.loop.Waiting? && ok then s.(loop := Ticking(Names(DueJobs(s.jobs, s.clock)), |s.log|)) else s
    case ClaimNext => if s.loop.Ticking? && s.loop.due != [] then Claimed(s) else s
    case EndTick => if s.loop.Ticking? && s.loop.due == [] then s.(loop := Waiting) else s
    case Shutdown => if s.loop.Waiting? then s.(loop := Draining(s.clock + SHUTDOWN_DRAIN)) else s
    case Look => if s.loop.Draining? then Looked(s) else s
    case Work(id, ok) =>
      if id in s.passes && s.passes[id].phase.Working?
      then s.(passes := s.passes[id := Pass(s.passes[id].name, Recording(ok))]) else s
    case Record(id, written, jitter) =>
      if id in s.passes && s.passes[id].phase.Recording? then Recorded(s, id, written, jitter) else s
    case Release(id) =>
      if id in s.passes && s.passes[id].phase.Releasing?
      then Dropped(s, id).(ended := s.ended + {id}) else s
    case CutOff(id) => if id in s.passes then Dropped(s, id) else s
  }

  function Execute(s: System, acts: seq<Action>): System
    decreases |acts|
  {
    if acts == [] then s else Execute(Step(s, acts[0]), acts[1..])
  }

  lemma {:induction false} ExecuteAppend(s: System, x: seq<Action>, y: seq<Action>)
    ensures Execute(s, x + y) == Execute(Execute(s, x), y)
    decreases |x|
  {
    if x == [] {
      assert x + y == y;
    } else {
      assert (x + y)[0] == x[0] && (x + y)[1..] == x[1..] + y;
      ExecuteAppend(Step(s, x[0]), x[1..], y);
    }
  }

  // ----------------------------------------------------------------- what every action keeps

  function LiveNames(passes: map<nat, Pass>): set<string> {
    set id | id in passes :: passes[id].name
  }

  /** No two live passes share a name. */
  predicate OnePerName(passes: map<nat, Pass>) {
    forall i, j :: i in passes && j in passes && passes[i].name == passes[j].name ==> i == j
  }

  /** The names in flight are exactly the names of the live passes, each held by one of them. */
  predicate Exclusive(s: System) {
    OnePerName(s.passes) && s.held == LiveNames(s.passes)
  }

  predicate Mentions(log: seq<Entry>, id: nat) {
    exists k :: 0 <= k < |log| && log[k].pass == id
  }

  /** No pass is recorded twice. */
  predicate AtMostOnce(log: seq<Entry>) {
    forall k, l :: 0 <= k < l < |log| ==> log[k].pass != log[l].pass
  }

  predicate Born(s: System) {
    && (forall id :: id in s.passes ==> id < s.born)
    && (forall id :: id in s.ended ==> id < s.born && id !in s.passes)
    && (forall k :: 0 <= k < |s.log| ==> s.log[k].pass < s.born)
  }

  /** A pass is in the log from the moment it recorded its result, and not before. */
  predicate Logged(s: System) {
    && AtMostOnce(s.log)
    && (forall id :: id in s.passes ==> (Mentions(s.log, id) <==> s.passes[id].phase.Releasing?))
    && (forall id :: id in s.ended ==> Mentions(s.log, id))
  }

  /** What the log says of a live pass is its own name and its own outcome. */
  predicate Truthful(s: System) {
    forall k :: 0 <= k < |s.log| && s.log[k].pass in s.passes ==>
      (var pass := s.passes[s.log[k].pass]; pass == Pass(s.log[k].name, Releasing(s.log[k].ok)))
  }

  predicate Over(s: System) {
    && (s.loop.Exited? ==> LiveNames(s.passes) <= s.loop.abandoned)
    && (s.loop.Starting? ==> s.passes == map[] && s.born == 0)
  }

  predicate Holds(s: System) {
    Exclusive(s) && Born(s) && Logged(s) && Truthful(s) && Over(s)
  }

  lemma AddedPass(passes: map<nat, Pass>, id: nat, name: string)
    requires OnePerName(passes) && id !in passes && name !in LiveNames(passes)
    ensures OnePerName(passes[id := Pass(name, Working)])
    ensures LiveNames(passes[id := Pass(name, Working)]) == LiveNames(passes) + {name}
  {
    var more := passes[id := Pass(name, Working)];
    assert more[id].name == name;
    forall n | n in LiveNames(passes) + {name}
      ensures n in LiveNames(more)
    {
      if n != name {
        var i :| i in passes && passes[i].name == n;
        assert more[i].name == n;
      }
    }
    forall i | i in passes
      ensures passes[i].name in LiveNames(passes)
    {
    }
  }

  lemma MovedPass(passes: map<nat, Pass>, id: nat, phase: Phase)
    requires OnePerName(passes) && id in passes
    ensures OnePerName(passes[id := Pass(passes[id].name, phase)])
    ensures LiveNames(passes[id := Pass(passes[id].name, phase)]) == LiveNames(passes)
  {
    var moved := passes[id := Pass(passes[id].name, phase)];
    assert forall i :: i in passes ==> i in moved && moved[i].name == passes[i].name;
    assert forall i :: i in moved ==> i in passes;
  }

  lemma RemovedPass(passes: map<nat, Pass>, id: nat)
    requires OnePerName(passes) && id in passes
    ensures OnePerName(passes - {id})
    ensures LiveNames(passes - {id}) == LiveNames(passes) - {passes[id].name}
  {
    var fewer := passes - {id};
    forall n | n in LiveNames(passes) - {passes[id].name}
      ensures n in LiveNames(fewer)
    {
      var i :| i in passes && passes[i].name == n;
      assert i in fewer && fewer[i].name == n;
    }
  }

  lemma ExclusiveKept(s: System, act: Action)
    requires Exclusive(s) && Born(s)
    ensures Exclusive(Step(s, act))
  {
    match act
    case ClaimNext =>
      if s.loop.Ticking? && s.loop.due != [] && s.loop.due[0] !in s.held {
        AddedPass(s.passes, s.born, s.loop.due[0]);
      }
    case Work(id, ok) =>
      if id in s.passes {
        MovedPass(s.passes, id, Recording(ok));
      }
    case Record(id, written, jitter) =>
      if id in s.passes && s.passes[id].phase.Recording? {
        MovedPass(s.passes, id, Releasing(s.passes[id].phase.ok));
      }
    case Release(id) =>
      if id in s.passes {
        RemovedPass(s.passes, id);
      }
    case CutOff(id) =>
      if id in s.passes {
        RemovedPass(s.passes, id);
      }
    case _ =>
  }

  lemma BornKept(s: System, act: Action)
    requires Born(s)
    ensures Born(Step(s, act))
  {
  }

  lemma MentionsMore(log: seq<Entry>, entry: Entry, id: nat)
    ensures Mentions(log + [entry], id) <==> Mentions(log, id) || id == entry.pass
  {
    var more := log + [entry];
    if Mentions(log, id) {
      var k :| 0 <= k < |log| && log[k].pass == id;
      assert more[k].pass == id;
    }
    assert more[|log|] == entry;
  }

  lemma RecordLogged(s: System, id: nat, written: bool, jitter: nat)
    requires Born(s) && Logged(s) && id in s.passes && s.passes[id].phase.Recording?
    ensures Logged(Recorded(s, id, written, jitter))
  {
    var next := Recorded(s, id, written, jitter);
    var entry := next.log[|s.log|];
    assert !Mentions(s.log, id);
    forall i: nat
      ensures Mentions(next.log, i) <==> Mentions(s.log, i) || i == id
    {
      MentionsMore(s.log, entry, i);
    }
  }

  lemma ClaimLogged(s: System)
    requires Born(s) && Logged(s) && s.loop.Ticking? && s.loop.due != []
    ensures Logged(Claimed(s))
  {
    assert !Mentions(s.log, s.born);
  }

  lemma LoggedKept(s: System, act: Action)
    requires Born(s) && Logged(s)
    ensures Logged(Step(s, act))
  {
    match act
    case ClaimNext =>
      if s.loop.Ticking? && s.loop.due != [] {
        ClaimLogged(s);
      }
    case Record(id, written, jitter) =>
      if id in s.passes && s.passes[id].phase.Recording? {
        RecordLogged(s, id, written, jitter);
      }
    case _ =>
  }

  lemma TruthfulKept(s: System, act: Action)
    requires Born(s) && Logged(s) && Truthful(s)
    ensures Truthful(Step(s, act))
  {
    match act
    case Work(id, ok) =>
      if id in s.passes && s.passes[id].phase.Working? {
        assert !Mentions(s.log, id);
      }
    case Record(id, written, jitter) =>
      if id in s.passes && s.passes[id].phase.Recording? {
        assert !Mentions(s.log, id);
      }
    case _ =>
  }

  /** Once the loop has stopped claiming, no pass starts any more. */
  predicate Stopping(s: System) {
    s.loop.Draining? || s.loop.Exited?
  }

  lemma StepOfStopping(s: System, act: Action)
    requires Exclusive(s) && Born(s) && Stopping(s)
    ensures var next := Step(s, act);
            && Stopping(next)
            && next.born == s.born
            && LiveNames(next.passes) <= LiveNames(s.passes)
            && (s.loop.Exited? ==> next.loop == s.loop)
            && (!s.loop.Exited? && next.loop.Exited? ==> next.passes == s.passes && next.loop.abandoned == s.held)
  {
    match act
    case Work(id, ok) =>
      if id in s.passes {
        MovedPass(s.passes, id, Recording(ok));
      }
    case Record(id, written, jitter) =>
      if id in s.passes && s.passes[id].phase.Recording? {
        MovedPass(s.passes, id, Releasing(s.passes[id].phase.ok));
      }
    case Release(id) =>
      if id in s.passes {
        RemovedPass(s.passes, id);
      }
    case CutOff(id) =>
      if id in s.passes {
        RemovedPass(s.passes, id);
      }
    case _ =>
  }

  lemma OverKept(s: System, act: Action)
    requires Exclusive(s) && Born(s) && Over(s)
    ensures Over(Step(s, act))
  {
    if Stopping(s) {
      StepOfStopping(s, act);
    }
  }

  lemma StepHolds(s: System, act: Action)
    requires Holds(s)
    ensures Holds(Step(s, act))
  {
    ExclusiveKept(s, act);
    BornKept(s, act);
    LoggedKept(s, act);
    TruthfulKept(s, act);
    OverKept(s, act);
  }

  lemma {:induction false} ExecuteHolds(s: System, acts: seq<Action>)
    requires Holds(s)
    ensures Holds(Execute(s, acts))
    decreases |acts|
  {
    if acts != [] {
      StepHolds(s, acts[0]);
      ExecuteHolds(Step(s, acts[0]), acts[1..]);
    }
  }

  // ----------------------------------------------------------------- the laws of a run

  /** Exactly one entry of the log is about this pass. */
  predicate RecordedOnce(log: seq<Entry>, id: nat) {
    Mentions(log, id) && forall k, l :: 0 <= k < |log| && 0 <= l < |log| && log[k].pass == id == log[l].pass ==> k == l
  }

  /**
   In every run: at most one live pass per name; the names in flight are exactly theirs; a
   pass that ended normally was recorded exactly once, as was one about to give its name
   back, and no earlier one was; and the record tells its own outcome.
   */
  lemma EveryRunIsOrderly(jobs: seq<Job>, acts: seq<Action>)
    ensures var s := Execute(Start(jobs), acts);
            && OnePerName(s.passes)
            && s.held == LiveNames(s.passes)
            && (forall id :: id in s.ended ==> RecordedOnce(s.log, id))
            && (forall id :: id in s.passes ==>
                  if s.passes[id].phase.Releasing? then RecordedOnce(s.log, id) else !Mentions(s.log, id))
            && Truthful(s)
  {
    ExecuteHolds(Start(jobs), acts);
    var s := Execute(Start(jobs), acts);
    forall id | Mentions(s.log, id)
      ensures RecordedOnce(s.log, id)
    {
    }
  }

  lemma {:induction false} NoneStartsAfter(s: System, acts: seq<Action>)
    requires Holds(s) && Stopping(s)
    ensures var later := Execute(s, acts);
            && later.born == s.born
            && LiveNames(later.passes) <= LiveNames(s.passes)
            && (s.loop.Exited? ==> later.loop == s.loop)
    decreases |acts|
  {
    if acts != [] {
      StepHolds(s, acts[0]);
      StepOfStopping(s, acts[0]);
      NoneStartsAfter(Step(s, acts[0]), acts[1..]);
    }
  }

  lemma NamelessMeansNone(passes: map<nat, Pass>)
    ensures LiveNames(passes) == {} <==> passes == map[]
  {
    if passes != map[] {
      var id :| id in passes;
      assert passes[id].name in LiveNames(passes);
    }
  }

  /**
   A drain that reports nobody means what it says: at that point of any run no pass is live,
   and none is live at any later one.
   */
  lemma EmptyDrainMeansQuiet(jobs: seq<Job>, before: seq<Action>, after: seq<Action>)
    requires Execute(Start(jobs), before).loop == Exited({})
    ensures Execute(Start(jobs), before).passes == map[]
    ensures Execute(Start(jobs), before + after).passes == map[]
    ensures Execute(Start(jobs), before + after).born == Execute(Start(jobs), before).born
  {
    var s := Execute(Start(jobs), before);
    ExecuteHolds(Start(jobs), before);
    ExecuteAppend(Start(jobs), before, after);
    NoneStartsAfter(s, after);
    NamelessMeansNone(s.passes);
    NamelessMeansNone(Execute(s, after).passes);
  }

  /** What a drain reports is exactly who is live at that moment, and somebody only after the budget. */
  lemma DrainReportsTheLive(s: System)
    requires Holds(s) && s.loop.Draining? && Step(s, Look).loop.Exited?
    ensures Step(s, Look).loop.abandoned == LiveNames(s.passes)
    ensures s.passes != map[] ==> s.clock >= s.loop.deadline
  {
    NamelessMeansNone(s.passes);
  }

  // ----------------------------------------------------------------- the budget of a shutdown

  /** The time at which the run was told to stop. */
  function StoppedAt(s: System, acts: seq<Action>): Option<nat>
    decreases |acts|
  {
    if acts == [] then None
    else if acts[0].Shutdown? && s.loop.Waiting? then Some(s.clock)
    else StoppedAt(Step(s, acts[0]), acts[1..])
  }

  lemma StepNeverTurnsBack(s: System, act: Action)
    ensures Step(s, act).clock >= s.clock
  {
  }

  /** A drain that began at `since` gives the passes twenty seconds. */
  predicate Budgeted(s: System, since: nat) {
    match s.loop
    case Draining(deadline) => deadline == since + 20000
    case Exited(abandoned) => abandoned != {} ==> s.clock >= since + 20000
    case _ => false
  }

  lemma StepBudgeted(s: System, act: Action, since: nat)
    requires Budgeted(s, since)
    ensures Budgeted(Step(s, act), since)
  {
    StepNeverTurnsBack(s, act);
  }

  lemma {:induction false} ExecuteBudgeted(s: System, acts: seq<Action>, since: nat)
    requires Budgeted(s, since)
    ensures Budgeted(Execute(s, acts), since)
    decreases |acts|
  {
    if acts != [] {
      StepBudgeted(s, acts[0], since);
      ExecuteBudgeted(Step(s, acts[0]), acts[1..], since);
    }
  }

  lemma ShutdownBudgeted(s: System)
    requires s.loop.Waiting?
    ensures Budgeted(Step(s, Shutdown), s.clock)
  {
  }

  /** The loop has not been told to stop. */
  predicate GoesOn(s: System) {
    s.loop.Starting? || s.loop.Waiting? || s.loop.Ticking? || s.loop == Exited({})
  }

  lemma StepGoesOn(s: System, act: Action)
    requires GoesOn(s)
    ensures if act.Shutdown? && s.loop.Waiting? then Budgeted(Step(s, act), s.clock) else GoesOn(Step(s, act))
  {
  }

  lemma {:induction false} ExecuteGivesBudget(s: System, acts: seq<Action>)
    requires GoesOn(s)
    ensures var stopped, last := StoppedAt(s, acts), Execute(s, acts);
            if stopped.None? then GoesOn(last) else Budgeted(last, stopped.value)
    decreases |acts|
  {
    if acts != [] {
      StepGoesOn(s, acts[0]);
      if acts[0].Shutdown? && s.loop.Waiting? {
        ExecuteBudgeted(Step(s, acts[0]), acts[1..], s.clock);
      } else {
        ExecuteGivesBudget(Step(s, acts[0]), acts[1..]);
      }
    }
  }

  /**
   Over every run: while the loop drains, it gives up exactly when nobody is live or twenty
   seconds have passed since it was told to stop; so if it exits naming somebody, they have.
   */
  lemma ShutdownGivesTwentySeconds(jobs: seq<Job>, acts: seq<Action>)
    ensures var s, stopped := Execute(Start(jobs), acts), StoppedAt(Start(jobs), acts);
            && (s.loop.Draining? ==>
                  stopped.Some?
                  && (Step(s, Look).loop.Exited? <==> s.passes == map[] || s.clock >= stopped.value + 20000))
            && (s.loop.Exited? && s.loop.abandoned != {} ==>
                  stopped.Some? && s.clock >= stopped.value + 20000)
  {
    ExecuteHolds(Start(jobs), acts);
    ExecuteGivesBudget(Start(jobs), acts);
    NamelessMeansNone(Execute(Start(jobs), acts).passes);
  }

  // ----------------------------------------------------------------- a pass, from its start to its end

  /** A tick starts a pass for the next due name exactly when none of that name is live; one is then in any case. */
  lemma ClaimStartsExactlyWhen(s: System)
    requires Holds(s) && s.loop.Ticking? && s.loop.due != []
    ensures var name, next := s.loop.due[0], Step(s, ClaimNext);
            && (next.passes == if name in LiveNames(s.passes) then s.passes else s.passes[s.born := Pass(name, Working)])
            && s.born !in s.passes
            && name in LiveNames(next.passes)
            && next.loop == Ticking(s.loop.due[1..], s.loop.mark)
  {
    if s.loop.due[0] !in LiveNames(s.passes) {
      AddedPass(s.passes, s.born, s.loop.due[0]);
    }
  }

  /** What a pass does once its work is over. */
  function Ending(id: nat, ok: bool, written: bool, jitter: nat): seq<Action> {
    [Work(id, ok)] + ([Record(id, written, jitter)] + ([Release(id)] + []))
  }

  lemma EndingRuns(s: System, id: nat, ok: bool, written: bool, jitter: nat)
    requires id in s.passes && s.passes[id].phase.Working?
    ensures Execute(s, Ending(id, ok, written, jitter))
         == Step(Step(Step(s, Work(id, ok)), Record(id, written, jitter)), Release(id))
  {
    var a := Step(s, Work(id, ok));
    var b := Step(a, Record(id, written, jitter));
    ExecuteCons(s, Work(id, ok), [Record(id, written, jitter)] + ([Release(id)] + []));
    ExecuteCons(a, Record(id, written, jitter), [Release(id)] + []);
    ExecuteCons(b, Release(id), []);
  }

  predicate Tells(e: Entry, id: nat, name: string, ok: bool, written: bool) {
    e.pass == id && e.name == name && e.ok == ok && e.written == written
  }

  /** The job of this name runs next one interval after `time`; every other job is as it was. */
  predicate RunsAgain(jobs: seq<Job>, later: seq<Job>, name: string, time: nat) {
    && |later| == |jobs|
    && forall k :: 0 <= k < |jobs| ==>
         later[k] == if jobs[k].name == name then jobs[k].(nextRun := time + jobs[k].interval) else jobs[k]
  }

  lemma RescheduleRunsAgain(jobs: seq<Job>, name: string, time: nat)
    ensures RunsAgain(jobs, Reschedule(jobs, name, time), name, time)
  {
    forall k | 0 <= k < |jobs|
      ensures Reschedule(jobs, name, time)[k]
           == if jobs[k].name == name then jobs[k].(nextRun := time + jobs[k].interval) else jobs[k]
    {
      RescheduledAt(jobs, name, time, k);
    }
  }

  /** A pass that has its outcome, up to the point where it gives its name back. */
  lemma RecordSays(s: System, id: nat, written: bool, jitter: nat)
    requires id in s.passes && s.passes[id].phase.Recording?
    ensures var name, next := s.passes[id].name, Step(s, Record(id, written, jitter));
            && next.passes == s.passes[id := Pass(name, Releasing(s.passes[id].phase.ok))]
            && next.held == s.held && next.ended == s.ended
            && |next.log| == |s.log| + 1 && next.log[..|s.log|] == s.log
            && Tells(next.log[|s.log|], id, name, s.passes[id].phase.ok, written)
            && if written then RunsAgain(s.jobs, next.jobs, name, s.clock + jitter) else next.jobs == s.jobs
  {
    RescheduleRunsAgain(s.jobs, s.passes[id].name, s.clock + jitter);
  }

  lemma ReleaseFrees(s: System, id: nat)
    requires id in s.passes && s.passes[id].phase.Releasing?
    ensures var next := Step(s, Release(id));
            && next.passes == s.passes - {id} && next.held == s.held - {s.passes[id].name}
            && next.ended == s.ended + {id} && next.log == s.log && next.jobs == s.jobs
  {
  }

  /**
   A working pass can be carried to its end whatever its outcome: its result is recorded as it
   was, its name is free again, the other passes are as they were, and if the record is written
   its job runs again one interval and a jitter from now.
   */
  lemma PassRunsToItsEnd(s: System, id: nat, ok: bool, written: bool, jitter: nat)
    requires Holds(s) && id in s.passes && s.passes[id].phase.Working?
    ensures var name, last := s.passes[id].name, Execute(s, Ending(id, ok, written, jitter));
            && id in last.ended && last.passes == s.passes - {id}
            && name !in last.held
            && |last.log| == |s.log| + 1 && last.log[..|s.log|] == s.log
            && Tells(last.log[|s.log|], id, name, ok, written)
            && if written then RunsAgain(s.jobs, last.jobs, name, s.clock + jitter) else last.jobs == s.jobs
  {
    EndingRuns(s, id, ok, written, jitter);
    var a := Step(s, Work(id, ok));
    var b := Step(a, Record(id, written, jitter));
    RecordSays(a, id, written, jitter);
    ReleaseFrees(b, id);
    assert b.passes - {id} == s.passes - {id};
  }

  /** A pass that is cut off, at whatever point, frees its name and leaves the others alone. */
  lemma CutOffFreesTheName(s: System, id: nat)
    requires Holds(s) && id in s.passes
    ensures var next := Step(s, CutOff(id));
            && next.passes == s.passes - {id} && next.held == s.held - {s.passes[id].name}
            && next.log == s.log && next.ended == s.ended
  {
  }

  // ----------------------------------------------------------------- passes start when due

  lemma {:induction false} InsertIs(job: Job, sorted: seq<Job>)
    requires ByTime(sorted)
    ensures ByTime(Insert(job, sorted))
    ensures forall j :: j in Insert(job, sorted) <==> j == job || j in sorted
    decreases |sorted|
  {
    if sorted != [] && job.nextRun > sorted[0].nextRun {
      InsertIs(job, sorted[1..]);
      InsertedByTime(sorted[0], Insert(job, sorted[1..]));
    } else {
      InsertedByTime(job, sorted);
    }
  }

  predicate ByTime(jobs: seq<Job>) {
    forall i, j :: 0 <= i < j < |jobs| ==> jobs[i].nextRun <= jobs[j].nextRun
  }

  lemma InsertedByTime(job: Job, rest: seq<Job>)
    requires ByTime(rest) && forall j :: j in rest ==> job.nextRun <= j.nextRun
    ensures ByTime([job] + rest)
  {
  }

  /** The list a tick works through is every due job and no other, the longest overdue first. */
  lemma {:induction false} DueJobsAreTheDue(jobs: seq<Job>, clock: nat)
    ensures ByTime(DueJobs(jobs, clock))
    ensures forall j :: j in DueJobs(jobs, clock) <==> j in jobs && Due(j, clock)
    decreases |jobs|
  {
    if jobs != [] {
      DueJobsAreTheDue(jobs[1..], clock);
      if Due(jobs[0], clock) {
        InsertIs(jobs[0], DueJobs(jobs[1..], clock));
      }
    }
  }

  predicate DueNow(jobs: seq<Job>, name: string, clock: nat) {
    exists k :: 0 <= k < |jobs| && jobs[k].name == name && Due(jobs[k], clock)
  }

  /** Every job has a name of its own. */
  predicate DistinctNames(jobs: seq<Job>) {
    forall i, j :: 0 <= i < j < |jobs| ==> jobs[i].name != jobs[j].name
  }

  /** The time the last result for `name` set that was written after the first `mark` entries. */
  function LastWrite(log: seq<Entry>, mark: nat, name: string): Option<nat>
    decreases |log|
  {
    if |log| <= mark then None
    else
      var last := log[|log| - 1];
      if last.name == name && last.written then Some(last.next) else LastWrite(log[..|log| - 1], mark, name)
  }

  /** The job is enabled and runs next at `next`. */
  predicate RunsAt(jobs: seq<Job>, name: string, next: nat) {
    exists k :: 0 <= k < |jobs| && jobs[k].name == name && jobs[k].enabled && jobs[k].nextRun == next
  }

  /** The job is still due as it was when the schedule was read, or runs when its last result said. */
  predicate StillGood(s: System, name: string, mark: nat) {
    match LastWrite(s.log, mark, name)
    case None => DueNow(s.jobs, name, s.clock)
    case Some(next) => RunsAt(s.jobs, name, next)
  }

  predicate Punctual(s: System) {
    s.loop.Ticking? ==> forall i :: 0 <= i < |s.loop.due| ==> StillGood(s, s.loop.due[i], s.loop.mark)
  }

  lemma {:induction false} RescheduledAt(jobs: seq<Job>, name: string, next: nat, k: nat)
    requires k < |jobs|
    ensures Reschedule(jobs, name, next)[k]
            == if jobs[k].name == name then jobs[k].(nextRun := next + jobs[k].interval) else jobs[k]
    decreases |jobs|
  {
    if k > 0 {
      RescheduledAt(jobs[1..], name, next, k - 1);
    }
  }

  lemma {:induction false} NextForAt(jobs: seq<Job>, name: string, next: nat, k: nat)
    requires DistinctNames(jobs) && k < |jobs| && jobs[k].name == name
    ensures NextFor(jobs, name, next) == next + jobs[k].interval
    decreases |jobs|
  {
    if k > 0 {
      NextForAt(jobs[1..], name, next, k - 1);
    }
  }

  lemma LastWriteMore(log: seq<Entry>, e: Entry, mark: nat, name: string)
    requires mark <= |log|
    ensures LastWrite(log + [e], mark, name)
            == if e.name == name && e.written then Some(e.next) else LastWrite(log, mark, name)
  {
    assert (log + [e])[..|log|] == log;
  }

  /** A write for another name leaves the job as it was. */
  lemma OtherRescheduled(jobs: seq<Job>, other: string, next: nat, name: string)
    requires other != name
    ensures forall clock: nat :: DueNow(jobs, name, clock) ==> DueNow(Reschedule(jobs, other, next), name, clock)
    ensures forall t: nat :: RunsAt(jobs, name, t) ==> RunsAt(Reschedule(jobs, other, next), name, t)
  {
    var r := Reschedule(jobs, other, next);
    forall clock: nat | DueNow(jobs, name, clock)
      ensures DueNow(r, name, clock)
    {
      var k :| 0 <= k < |jobs| && jobs[k].name == name && Due(jobs[k], clock);
      RescheduledAt(jobs, other, next, k);
      assert r[k] == jobs[k];
    }
    forall t: nat | RunsAt(jobs, name, t)
      ensures RunsAt(r, name, t)
    {
      var k :| 0 <= k < |jobs| && jobs[k].name == name && jobs[k].enabled && jobs[k].nextRun == t;
      RescheduledAt(jobs, other, next, k);
      assert r[k] == jobs[k];
    }
  }

  /** A write for an enabled job makes it run when the entry says. */
  lemma OwnRescheduled(jobs: seq<Job>, name: string, next: nat, k: nat)
    requires DistinctNames(jobs) && k < |jobs| && jobs[k].name == name && jobs[k].enabled
    ensures RunsAt(Reschedule(jobs, name, next), name, NextFor(jobs, name, next))
  {
    RescheduledAt(jobs, name, next, k);
    NextForAt(jobs, name, next, k);
    assert Reschedule(jobs, name, next)[k].nextRun == NextFor(jobs, name, next);
  }

  lemma RecordKeepsGood(s: System, id: nat, written: bool, jitter: nat, name: string, mark: nat)
    requires id in s.passes && s.passes[id].phase.Recording? && StillGood(s, name, mark) && mark <= |s.log|
    requires DistinctNames(s.jobs)
    ensures StillGood(Recorded(s, id, written, jitter), name, mark)
  {
    var next := Recorded(s, id, written, jitter);
    var pass := s.passes[id];
    LastWriteMore(s.log, next.log[|s.log|], mark, name);
    if pass.name != name {
      OtherRescheduled(s.jobs, pass.name, s.clock + jitter, name);
    } else if written {
      var k :| 0 <= k < |s.jobs| && s.jobs[k].name == name && s.jobs[k].enabled;
      OwnRescheduled(s.jobs, name, s.clock + jitter, k);
    }
  }

  lemma ElapseKeepsGood(s: System, time: nat, name: string, mark: nat)
    requires StillGood(s, name, mark)
    ensures StillGood(s.(clock := s.clock + time), name, mark)
  {
    if LastWrite(s.log, mark, name).None? {
      var k :| 0 <= k < |s.jobs| && s.jobs[k].name == name && Due(s.jobs[k], s.clock);
      assert Due(s.jobs[k], s.clock + time);
    }
  }

  lemma {:induction false} RescheduleKeepsNames(jobs: seq<Job>, name: string, next: nat)
    requires DistinctNames(jobs)
    ensures DistinctNames(Reschedule(jobs, name, next))
  {
    var r := Reschedule(jobs, name, next);
    forall i | 0 <= i < |jobs|
      ensures r[i].name == jobs[i].name
    {
      RescheduledAt(jobs, name, next, i);
    }
  }

  lemma NamesStayDistinct(s: System, act: Action)
    requires DistinctNames(s.jobs)
    ensures DistinctNames(Step(s, act).jobs)
  {
    if act.Record? && act.pass in s.passes && act.written {
      RescheduleKeepsNames(s.jobs, s.passes[act.pass].name, s.clock + act.jitter);
    }
  }

  /** A job that runs at `next` is due exactly from then on. */
  lemma DueFrom(jobs: seq<Job>, name: string, next: nat, clock: nat)
    requires DistinctNames(jobs) && RunsAt(jobs, name, next)
    ensures DueNow(jobs, name, clock) <==> next <= clock
  {
    var k :| 0 <= k < |jobs| && jobs[k].name == name && jobs[k].enabled && jobs[k].nextRun == next;
    if next <= clock {
      assert Due(jobs[k], clock);
    }
  }

  lemma ReadIsGood(s: System)
    ensures Punctual(s.(loop := Ticking(Names(DueJobs(s.jobs, s.clock)), |s.log|)))
  {
    var due := DueJobs(s.jobs, s.clock);
    DueJobsAreTheDue(s.jobs, s.clock);
    forall i | 0 <= i < |due|
      ensures DueNow(s.jobs, Names(due)[i], s.clock)
    {
      assert due[i] in due;
      var k :| 0 <= k < |s.jobs| && s.jobs[k] == due[i];
      assert s.jobs[k].name == Names(due)[i];
      assert LastWrite(s.log, |s.log|, Names(due)[i]) == None;
    }
  }

  predicate Marked(s: System) {
    s.loop.Ticking? ==> s.loop.mark <= |s.log|
  }

  lemma PunctualKept(s: System, act: Action)
    requires Marked(s) && Punctual(s) && DistinctNames(s.jobs)
    ensures Marked(Step(s, act)) && Punctual(Step(s, act))
  {
    match act
    case Elapse(time) =>
      if s.loop.Ticking? {
        forall i | 0 <= i < |s.loop.due|
          ensures StillGood(Step(s, act), s.loop.due[i], s.loop.mark)
        {
          ElapseKeepsGood(s, time, s.loop.due[i], s.loop.mark);
        }
      }
    case ReadDue(ok) => ReadIsGood(s);
    case ClaimNext =>
      if s.loop.Ticking? && s.loop.due != [] {
        ClaimKeepsGood(s);
      }
    case Record(id, written, jitter) =>
      if s.loop.Ticking? && id in s.passes && s.passes[id].phase.Recording? {
        forall i | 0 <= i < |s.loop.due|
          ensures StillGood(Step(s, act), s.loop.due[i], s.loop.mark)
        {
          RecordKeepsGood(s, id, written, jitter, s.loop.due[i], s.loop.mark);
        }
      }
    case Release(id) => SameSchedule(s, Step(s, act));
    case Work(id, ok) => SameSchedule(s, Step(s, act));
    case CutOff(id) => SameSchedule(s, Step(s, act));
    case _ =>
  }

  lemma SameSchedule(s: System, next: System)
    requires Marked(s) && Punctual(s)
    requires next.loop == s.loop && next.jobs == s.jobs && next.clock == s.clock && next.log == s.log
    ensures Marked(next) && Punctual(next)
  {
    if s.loop.Ticking? {
      forall i | 0 <= i < |s.loop.due|
        ensures StillGood(next, s.loop.due[i], s.loop.mark)
      {
        assert StillGood(s, s.loop.due[i], s.loop.mark);
      }
    }
  }

  lemma ClaimKeepsGood(s: System)
    requires Marked(s) && Punctual(s) && s.loop.Ticking? && s.loop.due != []
    ensures Marked(Claimed(s)) && Punctual(Claimed(s))
  {
    forall i | 0 <= i < |s.loop.due| - 1
      ensures StillGood(Claimed(s), s.loop.due[1..][i], s.loop.mark)
    {
      assert StillGood(s, s.loop.due[i + 1], s.loop.mark);
    }
  }

  lemma {:induction false} ExecutePunctual(s: System, acts: seq<Action>)
    requires Marked(s) && Punctual(s) && DistinctNames(s.jobs)
    ensures Marked(Execute(s, acts)) && Punctual(Execute(s, acts)) && DistinctNames(Execute(s, acts).jobs)
    decreases |acts|
  {
    if acts != [] {
      PunctualKept(s, acts[0]);
      NamesStayDistinct(s, acts[0]);
      ExecutePunctual(Step(s, acts[0]), acts[1..]);
    }
  }

  /**
   In every run a pass starts only while no pass of its name is live.  Its job is due at that
   moment unless, and only unless, the last result written for it since the tick read the
   schedule set a next run that is still ahead.
   */
  lemma PassesStartWhenDue(jobs: seq<Job>, acts: seq<Action>)
    requires DistinctNames(jobs)
    ensures var s := Execute(Start(jobs), acts);
            Step(s, ClaimNext).born > s.born ==>
              && s.loop.Ticking? && s.loop.due != []
              && s.loop.due[0] !in LiveNames(s.passes)
              && var last := LastWrite(s.log, s.loop.mark, s.loop.due[0]);
                 (!DueNow(s.jobs, s.loop.due[0], s.clock) <==> last.Some? && last.value > s.clock)
  {
    ExecuteHolds(Start(jobs), acts);
    ExecutePunctual(Start(jobs), acts);
    var s := Execute(Start(jobs), acts);
    if Step(s, ClaimNext).born > s.born {
      var name := s.loop.due[0];
      assert StillGood(s, name, s.loop.mark);
      if LastWrite(s.log, s.loop.mark, name).Some? {
        DueFrom(s.jobs, name, LastWrite(s.log, s.loop.mark, name).value, s.clock);
      }
    }
  }

  lemma ExecuteCons(s: System, act: Action, acts: seq<Action>)
    ensures Execute(s, [act] + acts) == Execute(Step(s, act), acts)
  {
    assert ([act] + acts)[1..] == acts;
  }

  /** Halfway through the run below: the second tick has read the schedule, the first pass still works. */
  function SecondTick(name: string): System {
    System(Ticking([name], 0), 0, [Job(name, 0, 1, true)], {name}, map[0 := Pass(name, Recording(true))], 1, [], {})
  }

  function FirstTick(): seq<Action> {
    [Register(true)] + ([ReadDue(true)] + ([ClaimNext] + ([EndTick] + ([Work(0, true)] + ([ReadDue(true)] + [])))))
  }

  function FirstPassEnds(): seq<Action> {
    [Record(0, true, 0)] + ([Release(0)] + [])
  }

  lemma OneDue(job: Job, clock: nat)
    requires Due(job, clock)
    ensures Names(DueJobs([job], clock)) == [job.name]
  {
    assert DueJobs([job][1..], clock) == [];
    assert DueJobs([job], clock) == [job];
  }

  lemma UntilSecondTick(name: string)
    ensures Execute(Start([Job(name, 0, 1, true)]), FirstTick()) == SecondTick(name)
  {
    var job := Job(name, 0, 1, true);
    OneDue(job, 0);
    var s0 := Start([job]);
    var s1 := s0.(loop := Waiting);
    var s2 := s1.(loop := Ticking([name], 0));
    var s3 := s2.(loop := Ticking([], 0), held := {name}, passes := map[0 := Pass(name, Working)], born := 1);
    var s4 := s3.(loop := Waiting);
    var s5 := s4.(passes := map[0 := Pass(name, Recording(true))]);
    ExecuteCons(s5, ReadDue(true), []);
    ExecuteCons(s4, Work(0, true), [ReadDue(true)] + []);
    ExecuteCons(s3, EndTick, [Work(0, true)] + ([ReadDue(true)] + []));
    FirstClaim(name, s2, s3);
    ExecuteCons(s2, ClaimNext, [EndTick] + ([Work(0, true)] + ([ReadDue(true)] + [])));
    ExecuteCons(s1, ReadDue(true), [ClaimNext] + ([EndTick] + ([Work(0, true)] + ([ReadDue(true)] + []))));
    ExecuteCons(s0, Register(true), FirstTick()[1..]);
    assert FirstTick() == [Register(true)] + FirstTick()[1..];
  }

  lemma FirstClaim(name: string, s: System, next: System)
    requires s == System(Ticking([name], 0), 0, s.jobs, {}, map[], 0, [], {})
    requires next == System(Ticking([], 0), 0, s.jobs, {name}, map[0 := Pass(name, Working)], 1, [], {})
    ensures Step(s, ClaimNext) == next
  {
    assert s.loop.due[1..] == [];
    assert {} + {name} == {name};
  }

  /**
   That exception is real: here a tick reads the schedule while a pass is still working, the
   pass is recorded and gives its name back before the tick reaches it, and the tick starts
   the job a second time although it is no longer due.
   */
  lemma StaleListStartsTwice(name: string)
    ensures var s := Execute(Start([Job(name, 0, 1, true)]), FirstTick() + FirstPassEnds());
            && Step(s, ClaimNext).born == s.born + 1
            && s.loop.Ticking? && s.loop.due == [name]
            && !DueNow(s.jobs, name, s.clock)
  {
    UntilSecondTick(name);
    var a := SecondTick(name);
    ExecuteAppend(Start([Job(name, 0, 1, true)]), FirstTick(), FirstPassEnds());
    var b := Step(a, Record(0, true, 0));
    ExecuteCons(a, Record(0, true, 0), [Release(0)] + []);
    ExecuteCons(b, Release(0), []);
    RescheduledAt([Job(name, 0, 1, true)], name, 0, 0);
    assert b.jobs[0].nextRun == 1;
  }

  // ----------------------------------------------------------------- the running scheduler

  /** An action of a pass or of the clock. */
  predicate Outside(act: Action) {
    act.Elapse? || act.Work? || act.Record? || act.Release? || act.CutOff?
  }

  /** The loop's own part of a run. */
  function Own(acts: seq<Action>): seq<Action> {
    if acts == [] then []
    else if Outside(acts[|acts| - 1]) then Own(acts[..|acts| - 1])
    else Own(acts[..|acts| - 1]) + [acts[|acts| - 1]]
  }

  lemma OwnSnoc(acts: seq<Action>, act: Action)
    ensures Own(acts + [act]) == Own(acts) + if Outside(act) then [] else [act]
  {
    assert (acts + [act])[..|acts|] == acts;
  }

  lemma ExecuteSnoc(s: System, acts: seq<Action>, act: Action)
    ensures Execute(s, acts + [act]) == Step(Execute(s, acts), act)
  {
    ExecuteAppend(s, acts, [act]);
    var t := Execute(s, acts);
    assert Execute(Step(t, act), [act][1..]) == Step(t, act);
  }

  lemma OutsideLeavesLoop(s: System, act: Action)
    requires Outside(act)
    ensures Step(s, act).loop == s.loop && Step(s, act).clock >= s.clock
  {
  }

  // -- names in order

  /** The order of strings: the first difference decides. */
  predicate UpTo(a: string, b: string) {
    a == "" || (b != "" && (a[0] < b[0] || (a[0] == b[0] && UpTo(a[1..], b[1..]))))
  }

  lemma {:induction false} OneUpToTheOther(a: string, b: string)
    ensures UpTo(a, b) || UpTo(b, a)
    decreases |a|
  {
    if a != "" && b != "" && a[0] == b[0] {
      OneUpToTheOther(a[1..], b[1..]);
    }
  }

  lemma {:induction false} UpToChains(a: string, b: string, c: string)
    requires UpTo(a, b) && UpTo(b, c)
    ensures UpTo(a, c)
    decreases |a|
  {
    if a != "" && a[0] == b[0] == c[0] {
      UpToChains(a[1..], b[1..], c[1..]);
    }
  }

  predicate InOrder(names: seq<string>) {
    forall i, j :: 0 <= i < j < |names| ==> UpTo(names[i], names[j]) && names[i] != names[j]
  }

  function Place(name: string, sorted: seq<string>): (r: seq<string>)
    ensures forall n :: n in r <==> n == name || n in sorted
  {
    if sorted == [] || UpTo(name, sorted[0]) then [name] + sorted
    else [sorted[0]] + Place(name, sorted[1..])
  }

  lemma FirstInOrder(name: string, rest: seq<string>)
    requires InOrder(rest) && forall n :: n in rest ==> UpTo(name, n) && name != n
    ensures InOrder([name] + rest)
  {
  }

  lemma {:induction false} PlaceInOrder(name: string, sorted: seq<string>)
    requires InOrder(sorted) && name !in sorted
    ensures InOrder(Place(name, sorted))
    decreases |sorted|
  {
    if sorted != [] && !UpTo(name, sorted[0]) {
      PlaceInOrder(name, sorted[1..]);
      OneUpToTheOther(name, sorted[0]);
      FirstInOrder(sorted[0], Place(name, sorted[1..]));
    } else {
      forall n | n in sorted
        ensures UpTo(name, n)
      {
        var k :| 0 <= k < |sorted| && sorted[k] == n;
        if k > 0 {
          UpToChains(name, sorted[0], n);
        }
      }
      FirstInOrder(name, sorted);
    }
  }

  function AsSet(names: seq<string>): set<string> {
    set n | n in names
  }

  class Scheduler {
    const jobs: seq<Job>
    var sys: System
    ghost var trace: seq<Action>

    ghost predicate Valid()
      reads this
    {
      sys == Execute(Start(jobs), trace)
    }

    constructor (jobs: seq<Job>)
      ensures Valid() && trace == [] && this.jobs == jobs && sys.loop == Starting
    {
      this.jobs, sys, trace := jobs, Start(jobs), [];
    }

    method Do(act: Action)
      requires Valid()
      modifies this
      ensures Valid() && trace == old(trace) + [act] && sys == Step(old(sys), act)
      ensures Own(trace) == Own(old(trace)) + if Outside(act) then [] else [act]
    {
      ExecuteSnoc(Start(jobs), trace, act);
      OwnSnoc(trace, act);
      trace := trace + [act];
      sys := Step(sys, act);
    }

    /** The passes and the clock move, any number of times. */
    method Others()
      requires Valid()
      modifies this
      ensures Valid() && old(trace) <= trace && Own(trace) == Own(old(trace))
      ensures sys.loop == old(sys.loop) && sys.clock >= old(sys.clock)
    {
      var acts: seq<Action> := *;
      for i := 0 to |acts|
        invariant Valid() && old(trace) <= trace && Own(trace) == Own(old(trace))
        invariant sys.loop == old(sys.loop) && sys.clock >= old(sys.clock)
      {
        if Outside(acts[i]) {
          OutsideLeavesLoop(sys, acts[i]);
          Do(acts[i]);
        }
      }
    }

    /** One tick: every job that is due when it reads the schedule is claimed or skipped, in order. */
    method Tick() returns (ok: bool, ghost claims: nat)
      requires Valid() && sys.loop == Waiting
      modifies this
      ensures Valid() && old(trace) <= trace && sys.loop == Waiting
      ensures Own(trace) == Own(old(trace)) + [ReadDue(ok)] + if ok then Claims(claims) + [EndTick] else []
    {
      Others();
      ok := *;
      claims := 0;
      Do(ReadDue(ok));
      if !ok {
        return;
      }
      ghost var head := Own(trace);
      while sys.loop.due != []
        invariant Valid() && old(trace) <= trace && sys.loop.Ticking?
        invariant Own(trace) == head + Claims(claims)
        decreases |sys.loop.due|
      {
        Others();
        ghost var before := Own(trace);
        Do(ClaimNext);
        assert before + [ClaimNext] == head + Claims(claims + 1);
        claims := claims + 1;
      }
      Do(EndTick);
    }

    /** The names in flight, in order. */
    method Running() returns (names: seq<string>)
      ensures InOrder(names) && AsSet(names) == sys.held
    {
      names := [];
      var rest := sys.held;
      while rest != {}
        invariant rest <= sys.held && InOrder(names)
        invariant forall n :: n in names <==> n in sys.held && n !in rest
        decreases |rest|
      {
        var name :| name in rest;
        PlaceInOrder(name, names);
        names := Place(name, names);
        rest := rest - {name};
      }
    }

    /** Looks again and again, until nobody is live or the budget is spent. */
    method Drain() returns (abandoned: seq<string>)
      requires Valid() && sys.loop.Draining?
      modifies this
      ensures Valid() && old(trace) <= trace && sys.loop == Exited(AsSet(abandoned))
      ensures InOrder(abandoned) && AsSet(abandoned) == LiveNames(sys.passes)
      ensures abandoned != [] ==> sys.clock >= old(sys.loop.deadline)
    {
      while true
        invariant Valid() && old(trace) <= trace && sys.loop == old(sys.loop)
        decreases sys.loop.deadline - sys.clock
      {
        Others();
        ExecuteHolds(Start(jobs), trace);
        var running := Running();
        NobodyListed(running);
        if running == [] || sys.clock >= sys.loop.deadline {
          Do(Look);
          return running;
        }
        Do(Look);
        Do(Elapse(DRAIN_POLL));
      }
    }

    /**
     The loop: so many ticks, then a shutdown.  It returns with the names it abandoned, and
     when it names nobody, no pass is live then or later.
     */
    method Run(ticks: nat) returns (registered: bool, abandoned: seq<string>)
      requires Valid() && sys.loop == Starting
      modifies this
      ensures Valid() && old(trace) <= trace && sys.loop == Exited(AsSet(abandoned))
      ensures InOrder(abandoned) && AsSet(abandoned) == LiveNames(sys.passes)
      ensures abandoned == [] ==> sys.passes == map[]
      ensures abandoned != [] ==>
                var stopped := StoppedAt(Start(jobs), trace); stopped.Some? && sys.clock >= stopped.value + 20000
      ensures !registered ==> sys.born == 0
    {
      ExecuteHolds(Start(jobs), trace);
      registered := *;
      Do(Register(registered));
      if !registered {
        NobodyListed([]);
        return false, [];
      }
      for i := 0 to ticks
        invariant Valid() && old(trace) <= trace && sys.loop == Waiting
      {
        var ok, claims := Tick();
      }
      Do(Shutdown);
      abandoned := Drain();
      NobodyListed(abandoned);
      ShutdownGivesTwentySeconds(jobs, trace);
      NamelessMeansNone(sys.passes);
    }
  }

  lemma NobodyListed(names: seq<string>)
    ensures AsSet(names) == {} <==> names == []
  {
    if names != [] {
      assert names[0] in AsSet(names);
    }
  }

  function Claims(n: nat): (acts: seq<Action>)
    ensures |acts| == n
  {
    seq(n, i requires 0 <= i < n => ClaimNext)
  }
}
