/**
 What an operation tells its caller: which refusal, why, and with which output; and, for each answer,
 what the service is left running and what was done to it, in order.
 */
module EngineAnswers {
  import opened Text
  import opened ManagedFile
  import opened Disk
  import opened EngineModel
  import opened EngineLaws

  /** Up to here the service accepted the files with the change made, and loaded them. */
  predicate LoadedWell(env: Env, op: Op, plan: Plan, s0: ServiceState) {
    && Puts(op, plan)
    && env.complaint(ViewOf(Target(env, op, s0.files))).None?
    && plan.reload.Loaded?
  }

  /** What it takes for an operation that began in `s0` to be refused like this. */
  predicate Why(env: Env, op: Op, plan: Plan, s0: ServiceState, e: EngineError) {
    match e
    case ForeignFile => Inspect(env.hash, Lookup(s0.files, op.path)).Foreign? && !op.Rollback?
    case BadPath => Inspect(env.hash, Lookup(s0.files, op.path)).Unreadable? && op.Apply?
    case Drift(_) => Inspect(env.hash, Lookup(s0.files, op.path)).Drifted? && op.Apply? && !op.force
    case ValidationFailed(output) =>
      Puts(op, plan) && env.complaint(ViewOf(Target(env, op, s0.files))) == Some(output)
    case ReloadFailed(output) =>
      Puts(op, plan) && env.complaint(ViewOf(Target(env, op, s0.files))).None?
      && plan.reload.Stuck? && plan.reload.output == output
    case PostCheckFailed(output) =>
      LoadedWell(env, op, plan, s0) && op.Apply? && op.hasCheck && plan.check == Some(output)
    case RevisionStoreFailed =>
      LoadedWell(env, op, plan, s0) && op.Apply? && (op.hasCheck ==> plan.check.None?)
      && env.keepsRevisions && !plan.record
    case IoFailed =>
      UndoWorks(plan) ==>
        !Puts(op, plan) || (!op.Apply? && Inspect(env.hash, Lookup(s0.files, op.path)).Unreadable?)
  }

  /** How far the operation has come, and what must have gone well for that. */
  predicate OnItsWay(env: Env, op: Op, plan: Plan, s0: ServiceState, c: Config) {
    match c.stage
    case Inspecting => c.svc == s0
    case Writing(_) => c.svc == s0 && (op.Remove? ==> op.path in s0.files && s0.files[op.path].Readable?)
    case Validating(_) => Puts(op, plan) && c.svc.files == Target(env, op, s0.files)
    case Reloading(_) =>
      Puts(op, plan) && c.svc.files == Target(env, op, s0.files)
      && env.complaint(ViewOf(Target(env, op, s0.files))).None?
    case Checking(_) => LoadedWell(env, op, plan, s0) && op.Apply? && op.hasCheck
    case Recording => LoadedWell(env, op, plan, s0) && op.Apply? && (op.hasCheck ==> plan.check.None?)
    case Undoing(_, cause, _) => IsRevert(cause) && Why(env, op, plan, s0, cause)
    case Recovering(cause) => IsRevert(cause) && Why(env, op, plan, s0, cause)
    case Returned(reply) => reply.Refused? ==> Why(env, op, plan, s0, reply.error)
  }

  lemma InspectOnItsWay(env: Env, op: Op, plan: Plan, s0: ServiceState, c: Config)
    requires c.stage.Inspecting? && OnItsWay(env, op, plan, s0, c)
    ensures OnItsWay(env, op, plan, s0, Step(env, op, plan, c))
  {
    assert Step(env, op, plan, c) == c.(stage := InspectStep(env, op, s0));
  }

  lemma PutOnItsWay(env: Env, op: Op, plan: Plan, s0: ServiceState, c: Config)
    requires c.stage.Writing? && !op.Remove? && OnItsWay(env, op, plan, s0, c)
    ensures OnItsWay(env, op, plan, s0, Step(env, op, plan, c))
  {
  }

  lemma UnlinkOnItsWay(env: Env, op: Op, plan: Plan, s0: ServiceState, c: Config)
    requires c.stage.Writing? && op.Remove? && OnItsWay(env, op, plan, s0, c)
    ensures OnItsWay(env, op, plan, s0, Step(env, op, plan, c))
  {
    assert !Inspect(env.hash, Lookup(s0.files, op.path)).Absent?;
  }

  lemma UndoOnItsWay(env: Env, op: Op, plan: Plan, s0: ServiceState, c: Config)
    requires c.stage.Undoing? && OnItsWay(env, op, plan, s0, c)
    ensures OnItsWay(env, op, plan, s0, Step(env, op, plan, c))
  {
  }

  lemma TrialOnItsWay(env: Env, op: Op, plan: Plan, s0: ServiceState, c: Config)
    requires c.stage.Validating? || c.stage.Reloading? || c.stage.Checking?
    requires OnItsWay(env, op, plan, s0, c)
    ensures OnItsWay(env, op, plan, s0, Step(env, op, plan, c))
  {
  }

  lemma StepOnItsWay(env: Env, op: Op, plan: Plan, s0: ServiceState, c: Config)
    requires !c.stage.Returned? && OnItsWay(env, op, plan, s0, c)
    ensures OnItsWay(env, op, plan, s0, Step(env, op, plan, c))
  {
    if c.stage.Inspecting? {
      InspectOnItsWay(env, op, plan, s0, c);
    } else if c.stage.Writing? && op.Remove? {
      UnlinkOnItsWay(env, op, plan, s0, c);
    } else if c.stage.Writing? {
      PutOnItsWay(env, op, plan, s0, c);
    } else if c.stage.Undoing? {
      UndoOnItsWay(env, op, plan, s0, c);
    } else if !c.stage.Recording? && !c.stage.Recovering? {
      TrialOnItsWay(env, op, plan, s0, c);
    }
  }

  lemma {:induction false} FinishOnItsWay(env: Env, op: Op, plan: Plan, s0: ServiceState, c: Config)
    requires OnItsWay(env, op, plan, s0, c)
    ensures OnItsWay(env, op, plan, s0, Finish(env, op, plan, c))
    decreases Remaining(c.stage)
  {
    if !c.stage.Returned? {
      StepsRunOut(env, op, plan, c);
      StepOnItsWay(env, op, plan, s0, c);
      FinishOnItsWay(env, op, plan, s0, Step(env, op, plan, c));
    }
  }

  /**
   Every refusal says why: the complaint is the checker's about the files with the change made,
   the reload output is the reload's, the check output the check's, and each comes only when
   everything before it went well.  The conditions exclude one another, so together with the
   one for success they decide the answer.
   */
  lemma RefusalsTellWhy(env: Env, op: Op, plan: Plan, w: World)
    ensures var reply := Do(env, op, plan, w.svc, w.revs).stage.reply;
            reply.Refused? ==> Why(env, op, plan, w.svc, reply.error)
  {
    FinishOnItsWay(env, op, plan, w.svc, Config(w.svc, w.revs, Inspecting));
  }

  lemma DriftAnswer(env: Env, op: Op, plan: Plan, w: World, content: string, mode: Mode, current: string)
    requires op.Apply? && !op.force
    requires Lookup(w.svc.files, op.path) == Some(Readable(content, mode))
    requires Inspect(env.hash, Some(Readable(content, mode))).Drifted? && BodyOf(content) == Some(current)
    ensures Do(env, op, plan, w.svc, w.revs).stage == Returned(Refused(Drift(Diff(current, op.body))))
  {
    var start := Config(w.svc, w.revs, Inspecting);
    var next := Step(env, op, plan, start);
    assert next.stage == Returned(Refused(Drift(Diff(current, op.body))));
    assert Finish(env, op, plan, start) == Finish(env, op, plan, next);
  }

  /**
   An unforced apply that meets a human's edit shows it the right way round: the human's lines
   are those kept or removed, the panel's those kept or added.
   */
  lemma DriftIsShown(env: Env, op: Op, plan: Plan, w: World, content: string, mode: Mode, current: string)
    requires op.Apply? && !op.force
    requires Lookup(w.svc.files, op.path) == Some(Readable(content, mode))
    requires Inspect(env.hash, Some(Readable(content, mode))).Drifted? && BodyOf(content) == Some(current)
    ensures var reply := Do(env, op, plan, w.svc, w.revs).stage.reply;
            && reply.Refused? && reply.error.Drift?
            && Side(reply.error.diff, Removed) == Lines(current)
            && Side(reply.error.diff, Added) == Lines(op.body)
            && NumberedLines(reply.error.diff, Lines(current), Lines(op.body))
  {
    DriftAnswer(env, op, plan, w, content, mode, current);
    DiffTellsTheTruth(current, op.body);
    DiffIsNumbered(current, op.body);
  }

  // ----------------------------------------------------------------- what the service is left running

  /** The service was asked to load the files with the change made. */
  predicate Reaches(env: Env, op: Op, plan: Plan, s0: ServiceState) {
    && Puts(op, plan)
    && (op.path in s0.files ==> s0.files[op.path].Readable?)
    && env.complaint(ViewOf(Target(env, op, s0.files))).None?
  }

  /** What the service runs after the reload on the way forward, if it comes to that. */
  function Forward(env: Env, op: Op, plan: Plan, s0: ServiceState): View {
    if !Reaches(env, op, plan, s0) then s0.running
    else if plan.reload.Stuck? then plan.reload.running
    else ViewOf(Target(env, op, s0.files))
  }

  /** What the service runs after the reload of the files put back. */
  function Backward(plan: Plan, files: Tree): View {
    if plan.recover.Stuck? then plan.recover.running else ViewOf(files)
  }

  predicate LeftRunning(env: Env, op: Op, plan: Plan, s0: ServiceState, svc: ServiceState, files: Tree, reply: Reply) {
    match reply
    case Applied(changed, _, _) => svc.running == if changed then Forward(env, op, plan, s0) else s0.running
    case TakenAway(wasThere) => svc.running == if wasThere then Forward(env, op, plan, s0) else s0.running
    case RolledBack => svc.running == Forward(env, op, plan, s0)
    case Refused(RevisionStoreFailed) => svc.running == Forward(env, op, plan, s0)
    case Refused(ReloadFailed(_)) => svc.running == Backward(plan, files)
    case Refused(PostCheckFailed(_)) => svc.running == Backward(plan, files)
    case Refused(IoFailed) =>
      // The undo write after a failed reload or check may be what failed.
      svc.running == Forward(env, op, plan, s0)
    case Refused(_) => svc.running == s0.running
  }

  predicate RunsSoFar(env: Env, op: Op, plan: Plan, s0: ServiceState, c: Config) {
    match c.stage
    case Inspecting => c.svc == s0
    case Writing(_) =>
      c.svc == s0 && (op.path in s0.files ==> s0.files[op.path].Readable?)
      && (op.Remove? ==> op.path in s0.files)
    case Validating(_) =>
      c.svc.running == s0.running && Puts(op, plan) && c.svc.files == Target(env, op, s0.files)
      && (op.path in s0.files ==> s0.files[op.path].Readable?)
    case Reloading(_) =>
      c.svc.running == s0.running && Reaches(env, op, plan, s0) && c.svc.files == Target(env, op, s0.files)
    case Undoing(_, cause, reloadAfter) =>
      c.svc.running == Forward(env, op, plan, s0) && IsRevert(cause) && (reloadAfter <==> !cause.ValidationFailed?)
      && (cause.ValidationFailed? ==> c.svc.running == s0.running)
    case Recovering(cause) => IsRevert(cause) && !cause.ValidationFailed?
    case Returned(reply) => LeftRunning(env, op, plan, s0, c.svc, c.svc.files, reply)
    case _ => c.svc.running == Forward(env, op, plan, s0)
  }

  /** Answers that come with nothing done at all. */
  predicate Idle(reply: Reply) {
    match reply
    case Applied(changed, _, _) => !changed
    case TakenAway(wasThere) => !wasThere
    case RolledBack => false
    case Refused(e) => e.ForeignFile? || e.BadPath? || e.Drift?
  }

  predicate HasText(s0: ServiceState, path: string) {
    path in s0.files && s0.files[path].Readable?
  }

  predicate InspectedWell(op: Op, s0: ServiceState, stage: Stage) {
    match stage
    case Writing(snapshot) =>
      (if snapshot.Some? then HasText(s0, op.path) else op.path !in s0.files) && (op.Remove? ==> snapshot.Some?)
    case Returned(reply) =>
      Idle(reply) || (reply == Refused(IoFailed) && op.path in s0.files && !HasText(s0, op.path))
    case _ => false
  }

  lemma InspectSays(hash: Hasher, at: Option<Entry>)
    ensures Inspect(hash, at).Absent? <==> at.None?
    ensures Inspect(hash, at).Unreadable? <==> at.Some? && at.value.Opaque?
  {
  }

  lemma ApplyInspected(env: Env, op: Op, s0: ServiceState)
    requires op.Apply?
    ensures InspectedWell(op, s0, InspectStep(env, op, s0))
  {
    var at := Lookup(s0.files, op.path);
    var stage := InspectStep(env, op, s0);
    InspectSays(env.hash, at);
    match Inspect(env.hash, at)
    case Foreign => assert stage == Returned(Refused(ForeignFile));
    case Unreadable => assert stage == Returned(Refused(BadPath));
    case Absent => assert stage == Writing(None);
    case Drifted(_, _) =>
      assert stage == if op.force then Writing(Snapshot(at)) else Returned(Refused(DriftOf(at, op.body)));
    case Managed(digest) =>
      assert stage == Writing(Snapshot(at)) || stage == Returned(Applied(false, None, false));
  }

  lemma InspectEnds(env: Env, op: Op, s0: ServiceState)
    ensures InspectedWell(op, s0, InspectStep(env, op, s0))
  {
    if op.Apply? {
      ApplyInspected(env, op, s0);
    }
  }

  lemma InspectRuns(env: Env, op: Op, plan: Plan, s0: ServiceState, c: Config)
    requires c.stage.Inspecting? && RunsSoFar(env, op, plan, s0, c)
    ensures RunsSoFar(env, op, plan, s0, Step(env, op, plan, c))
  {
    InspectEnds(env, op, s0);
    InspectOnly(env, op, plan, s0, c);
  }

  lemma InspectOnly(env: Env, op: Op, plan: Plan, s0: ServiceState, c: Config)
    requires c.stage.Inspecting? && c.svc == s0
    ensures Step(env, op, plan, c) == Config(s0, c.revs, InspectStep(env, op, s0))
  {
  }

  lemma WriteRuns(env: Env, op: Op, plan: Plan, s0: ServiceState, c: Config)
    requires c.stage.Writing? && RunsSoFar(env, op, plan, s0, c)
    ensures RunsSoFar(env, op, plan, s0, Step(env, op, plan, c))
  {
    assert op.Remove? ==> !Inspect(env.hash, Lookup(s0.files, op.path)).Absent?;
  }

  lemma UndoRuns(env: Env, op: Op, plan: Plan, s0: ServiceState, c: Config)
    requires c.stage.Undoing? && RunsSoFar(env, op, plan, s0, c)
    ensures RunsSoFar(env, op, plan, s0, Step(env, op, plan, c))
  {
  }

  lemma TrialRuns(env: Env, op: Op, plan: Plan, s0: ServiceState, c: Config)
    requires c.stage.Validating? || c.stage.Reloading? || c.stage.Checking?
    requires RunsSoFar(env, op, plan, s0, c)
    ensures RunsSoFar(env, op, plan, s0, Step(env, op, plan, c))
  {
  }

  lemma StepRuns(env: Env, op: Op, plan: Plan, s0: ServiceState, c: Config)
    requires !c.stage.Returned? && RunsSoFar(env, op, plan, s0, c)
    ensures RunsSoFar(env, op, plan, s0, Step(env, op, plan, c))
  {
    if c.stage.Inspecting? {
      InspectRuns(env, op, plan, s0, c);
    } else if c.stage.Writing? {
      WriteRuns(env, op, plan, s0, c);
    } else if c.stage.Undoing? {
      UndoRuns(env, op, plan, s0, c);
    } else if !c.stage.Recording? && !c.stage.Recovering? {
      TrialRuns(env, op, plan, s0, c);
    }
  }

  lemma {:induction false} FinishRuns(env: Env, op: Op, plan: Plan, s0: ServiceState, c: Config)
    requires RunsSoFar(env, op, plan, s0, c)
    ensures RunsSoFar(env, op, plan, s0, Finish(env, op, plan, c))
    decreases Remaining(c.stage)
  {
    if !c.stage.Returned? {
      StepsRunOut(env, op, plan, c);
      StepRuns(env, op, plan, s0, c);
      FinishRuns(env, op, plan, s0, Step(env, op, plan, c));
    }
  }

  /**
   Exactly what the service is left running, by the answer: the changed files after a change,
   the files as they were after an undo whose reload worked, what a failed reload left it with
   when nothing brought it further, and otherwise what it ran all along.
   */
  lemma RunningAfterwards(env: Env, op: Op, plan: Plan, w: World)
    ensures var done := Do(env, op, plan, w.svc, w.revs);
            LeftRunning(env, op, plan, w.svc, done.svc, w.svc.files, done.stage.reply)
  {
    FinishRuns(env, op, plan, w.svc, Config(w.svc, w.revs, Inspecting));
    FailedChangeLeavesNoTrace(env, op, plan, w);
  }

  // ----------------------------------------------------------------- what is done, and in which order

  function PutEvent(op: Op): Event {
    if op.Remove? then Unlinked(op.path) else Wrote(op.path)
  }

  /** The way forward: put, then ask the checker, then reload if it accepts, then check if there is one. */
  function Tried(env: Env, op: Op, plan: Plan, s0: ServiceState): seq<Event> {
    var view := ViewOf(Target(env, op, s0.files));
    if !Puts(op, plan) || (op.path in s0.files && s0.files[op.path].Opaque?) then []
    else if env.complaint(view).Some? then [PutEvent(op), Validated(view, false)]
    else if plan.reload.Loaded? && op.Apply? && op.hasCheck then
      [PutEvent(op), Validated(view, true), Reloaded(view, false, true), Checked(plan.check.None?)]
    else [PutEvent(op), Validated(view, true), Reloaded(view, false, plan.reload.Loaded?)]
  }

  /** The way back: what was there is written again, or the new file is removed. */
  function PutBackEvent(op: Op, files: Tree): Event {
    if op.path in files then Wrote(op.path) else Unlinked(op.path)
  }

  function Effects(env: Env, op: Op, plan: Plan, s0: ServiceState, view: View, reply: Reply): seq<Event> {
    var tried := Tried(env, op, plan, s0);
    var back := PutBackEvent(op, s0.files);
    match reply
    case Applied(changed, _, _) => if changed then tried else []
    case TakenAway(wasThere) => if wasThere then tried else []
    case RolledBack => tried
    case Refused(RevisionStoreFailed) => tried
    case Refused(ValidationFailed(_)) => tried + [back]
    case Refused(ReloadFailed(_)) => tried + [back, Reloaded(view, true, plan.recover.Loaded?)]
    case Refused(PostCheckFailed(_)) => tried + [back, Reloaded(view, true, plan.recover.Loaded?)]
    case Refused(IoFailed) => tried
    case Refused(_) => []
  }

  predicate TracedSoFar(env: Env, op: Op, plan: Plan, s0: ServiceState, c: Config) {
    var view := ViewOf(Target(env, op, s0.files));
    var tried := Tried(env, op, plan, s0);
    && RunsSoFar(env, op, plan, s0, c)
    && match c.stage
       case Inspecting => true
       case Writing(snapshot) => (snapshot.Some? <==> op.path in s0.files)
       case Validating(snapshot) =>
         c.svc.trace == s0.trace + [PutEvent(op)] && Holds(op, s0, c.svc, snapshot)
       case Reloading(snapshot) =>
         c.svc.trace == s0.trace + [PutEvent(op), Validated(view, true)] && Holds(op, s0, c.svc, snapshot)
       case Checking(snapshot) =>
         c.svc.trace == s0.trace + [PutEvent(op), Validated(view, true), Reloaded(view, false, true)]
         && Holds(op, s0, c.svc, snapshot) && op.Apply? && op.hasCheck && Reaches(env, op, plan, s0) && plan.reload.Loaded?
       case Recording => c.svc.trace == s0.trace + tried
       case Undoing(snapshot, _, _) => c.svc.trace == s0.trace + tried && Holds(op, s0, c.svc, snapshot)
       case Recovering(_) => c.svc.trace == s0.trace + tried + [PutBackEvent(op, s0.files)]
       case Returned(reply) =>
         c.svc.trace == s0.trace + Effects(env, op, plan, s0, ViewOf(c.svc.files), reply)
  }

  /** There is a snapshot exactly if there was a file, and something to undo. */
  predicate Holds(op: Op, s0: ServiceState, svc: ServiceState, snapshot: Option<string>) {
    && (snapshot.Some? <==> op.path in s0.files)
    && (snapshot.None? ==> op.path in svc.files)
  }

  lemma InspectTraced(env: Env, op: Op, plan: Plan, s0: ServiceState, c: Config)
    requires c.stage.Inspecting? && TracedSoFar(env, op, plan, s0, c)
    ensures TracedSoFar(env, op, plan, s0, Step(env, op, plan, c))
  {
    InspectEnds(env, op, s0);
    InspectRuns(env, op, plan, s0, c);
    InspectOnly(env, op, plan, s0, c);
    assert s0.trace + [] == s0.trace;
  }

  lemma PutTraced(env: Env, op: Op, plan: Plan, s0: ServiceState, c: Config)
    requires c.stage.Writing? && !op.Remove? && TracedSoFar(env, op, plan, s0, c)
    ensures TracedSoFar(env, op, plan, s0, Step(env, op, plan, c))
  {
    WriteRuns(env, op, plan, s0, c);
    if !Puts(op, plan) {
      assert s0.trace + [] == s0.trace;
      assert Step(env, op, plan, c).stage == Returned(Refused(IoFailed));
    }
  }

  lemma UnlinkTraced(env: Env, op: Op, plan: Plan, s0: ServiceState, c: Config)
    requires c.stage.Writing? && op.Remove? && TracedSoFar(env, op, plan, s0, c)
    ensures TracedSoFar(env, op, plan, s0, Step(env, op, plan, c))
  {
    WriteRuns(env, op, plan, s0, c);
    InspectSays(env.hash, Lookup(s0.files, op.path));
    assert s0.trace + [] == s0.trace;
  }

  lemma ValidateTraced(env: Env, op: Op, plan: Plan, s0: ServiceState, c: Config)
    requires c.stage.Validating? && TracedSoFar(env, op, plan, s0, c)
    ensures TracedSoFar(env, op, plan, s0, Step(env, op, plan, c))
  {
    TrialRuns(env, op, plan, s0, c);
    Joined(s0.trace, [PutEvent(op)], Validated(ViewOf(c.svc.files), env.complaint(ViewOf(c.svc.files)).None?));
  }

  lemma ReloadTraced(env: Env, op: Op, plan: Plan, s0: ServiceState, c: Config)
    requires c.stage.Reloading? && TracedSoFar(env, op, plan, s0, c)
    ensures TracedSoFar(env, op, plan, s0, Step(env, op, plan, c))
  {
    TrialRuns(env, op, plan, s0, c);
    var view := ViewOf(c.svc.files);
    Joined(s0.trace, [PutEvent(op), Validated(view, true)], Reloaded(view, false, plan.reload.Loaded?));
  }

  lemma CheckTraced(env: Env, op: Op, plan: Plan, s0: ServiceState, c: Config)
    requires c.stage.Checking? && TracedSoFar(env, op, plan, s0, c)
    ensures TracedSoFar(env, op, plan, s0, Step(env, op, plan, c))
  {
    TrialRuns(env, op, plan, s0, c);
    var view := ViewOf(Target(env, op, s0.files));
    Joined(s0.trace, [PutEvent(op), Validated(view, true), Reloaded(view, false, true)], Checked(plan.check.None?));
  }

  lemma UndoTraced(env: Env, op: Op, plan: Plan, s0: ServiceState, c: Config)
    requires c.stage.Undoing? && TracedSoFar(env, op, plan, s0, c)
    ensures TracedSoFar(env, op, plan, s0, Step(env, op, plan, c))
  {
    UndoRuns(env, op, plan, s0, c);
    Joined(s0.trace, Tried(env, op, plan, s0), PutBackEvent(op, s0.files));
  }

  lemma RecoverTraced(env: Env, op: Op, plan: Plan, s0: ServiceState, c: Config)
    requires c.stage.Recovering? && TracedSoFar(env, op, plan, s0, c)
    ensures TracedSoFar(env, op, plan, s0, Step(env, op, plan, c))
  {
    StepRuns(env, op, plan, s0, c);
    var back, again := PutBackEvent(op, s0.files), Reloaded(ViewOf(c.svc.files), true, plan.recover.Loaded?);
    assert s0.trace + Tried(env, op, plan, s0) + [back] + [again]
        == s0.trace + (Tried(env, op, plan, s0) + [back, again]);
  }

  lemma Joined(before: seq<Event>, events: seq<Event>, e: Event)
    ensures before + events + [e] == before + (events + [e])
  {
  }

  lemma StepTracedSoFar(env: Env, op: Op, plan: Plan, s0: ServiceState, c: Config)
    requires !c.stage.Returned? && TracedSoFar(env, op, plan, s0, c)
    ensures TracedSoFar(env, op, plan, s0, Step(env, op, plan, c))
  {
    match c.stage
    case Inspecting => InspectTraced(env, op, plan, s0, c);
    case Writing(_) =>
      if op.Remove? {
        UnlinkTraced(env, op, plan, s0, c);
      } else {
        PutTraced(env, op, plan, s0, c);
      }
    case Validating(_) => ValidateTraced(env, op, plan, s0, c);
    case Reloading(_) => ReloadTraced(env, op, plan, s0, c);
    case Checking(_) => CheckTraced(env, op, plan, s0, c);
    case Recording => StepRuns(env, op, plan, s0, c);
    case Undoing(_, _, _) => UndoTraced(env, op, plan, s0, c);
    case Recovering(_) => RecoverTraced(env, op, plan, s0, c);
  }

  lemma {:induction false} FinishTraced(env: Env, op: Op, plan: Plan, s0: ServiceState, c: Config)
    requires TracedSoFar(env, op, plan, s0, c)
    ensures TracedSoFar(env, op, plan, s0, Finish(env, op, plan, c))
    decreases Remaining(c.stage)
  {
    if !c.stage.Returned? {
      StepsRunOut(env, op, plan, c);
      StepTracedSoFar(env, op, plan, s0, c);
      FinishTraced(env, op, plan, s0, Step(env, op, plan, c));
    }
  }

  /**
   Exactly what an operation does to the service, in order, by its answer: the change is put in
   place, the checker asked about it, then one reload, then the check, and after a refusal the
   undo and, if the new files were loaded or tried, one reload of the old ones.
   */
  lemma EffectsInOrder(env: Env, op: Op, plan: Plan, w: World)
    ensures var done := Do(env, op, plan, w.svc, w.revs);
            done.svc.trace ==
            w.svc.trace + Effects(env, op, plan, w.svc, ViewOf(w.svc.files), done.stage.reply)
  {
    FinishTraced(env, op, plan, w.svc, Config(w.svc, w.revs, Inspecting));
    FailedChangeLeavesNoTrace(env, op, plan, w);
  }
}
