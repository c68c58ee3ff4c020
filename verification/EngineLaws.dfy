/**
 What the configuration engine promises over whole runs: files stay valid and in force, a
 failed change leaves no trace, a human's edit is not lost, an unchanged file is left alone,
 and any recorded revision can be put back.
 */
module EngineLaws {
  import opened Text
  import opened ManagedFile
  import opened Disk
  import opened EngineModel

  /** What happens to a service: an operation of the engine, or a human with an editor. */
  datatype Act = Operate(op: Op, plan: Plan) | Edit(path: string, now: Option<Entry>)

  function Edited(svc: ServiceState, path: string, now: Option<Entry>): ServiceState {
    match now
    case None => svc.(files := svc.files - {path})
    case Some(e) => svc.(files := svc.files[path := e])
  }

  datatype World = World(svc: ServiceState, revs: seq<Revision>)

  function Perform(env: Env, w: World, act: Act): World {
    match act
    case Operate(op, plan) =>
      var done := Do(env, op, plan, w.svc, w.revs);
      World(done.svc, done.revs)
    case Edit(path, now) => World(Edited(w.svc, path, now), w.revs)
  }

  function Run(env: Env, w: World, acts: seq<Act>): World
    decreases |acts|
  {
    if acts == [] then w else Run(env, Perform(env, w, acts[0]), acts[1..])
  }

  // ----------------------------------------------------------------- a failed change leaves no trace

  /**
   Whatever else happens, an operation that answers with a validation, reload or check
   failure has put its target back, content for content or absence for absence, has touched
   no other file and has recorded nothing; the service is shown exactly what it was shown.
   */
  lemma FailedChangeLeavesNoTrace(env: Env, op: Op, plan: Plan, w: World)
    ensures var done := Do(env, op, plan, w.svc, w.revs);
            done.stage.reply.Refused? && IsRevert(done.stage.reply.error) ==>
              && SameTextAt(w.svc.files, done.svc.files, op.path)
              && SameElsewhere(w.svc.files, done.svc.files, op.path)
              && ViewOf(done.svc.files) == ViewOf(w.svc.files)
              && done.revs == w.revs
  {
    var done := Do(env, op, plan, w.svc, w.revs);
    DoHolds(env, op, plan, w.svc, w.revs);
    if done.stage.reply.Refused? && IsRevert(done.stage.reply.error) {
      assert PutBack(w.svc.files, done.svc.files, op);
      SameView(w.svc.files, done.svc.files, op.path);
    }
  }

  // ----------------------------------------------------------------- valid and in force

  /** Nothing but operations whose undo writes, if it comes to that, succeed. */
  predicate Undoable(acts: seq<Act>) {
    forall a :: a in acts ==> a.Operate? && UndoWorks(a.plan)
  }

  predicate Valid(env: Env, svc: ServiceState) {
    env.complaint(ViewOf(svc.files)).None?
  }

  predicate InForce(svc: ServiceState) {
    svc.running == ViewOf(svc.files)
  }

  predicate CompensationFailed(events: seq<Event>) {
    exists i :: 0 <= i < |events| && events[i].Reloaded? && events[i].compensating && !events[i].ok
  }

  predicate EveryReloadValid(env: Env, events: seq<Event>) {
    forall i :: 0 <= i < |events| && events[i].Reloaded? ==> env.complaint(events[i].view).None?
  }

  lemma ViewKept(env: Env, op: Op, plan: Plan, w: World)
    requires UndoWorks(plan)
    ensures var done := Do(env, op, plan, w.svc, w.revs);
            || Live(env, done.svc)
            || (ViewOf(done.svc.files) == ViewOf(w.svc.files)
                && (done.svc.running == w.svc.running || Recovered(w.svc, done.svc)))
  {
    var done := Do(env, op, plan, w.svc, w.revs);
    DoHolds(env, op, plan, w.svc, w.revs);
    var reply := done.stage.reply;
    if reply.Refused? {
      FailedChangeLeavesNoTrace(env, op, plan, w);
      if reply.error.IoFailed? {
        SameView(w.svc.files, done.svc.files, op.path);
      }
    }
  }

  lemma OperationKeepsValid(env: Env, op: Op, plan: Plan, w: World)
    requires UndoWorks(plan) && Valid(env, w.svc)
    ensures var done := Do(env, op, plan, w.svc, w.revs);
            && Valid(env, done.svc)
            && |w.svc.trace| <= |done.svc.trace|
            && done.svc.trace[..|w.svc.trace|] == w.svc.trace
            && EveryReloadValid(env, Since(done.svc.trace, |w.svc.trace|))
            && (InForce(w.svc) ==> InForce(done.svc) || CompensationFailed(Since(done.svc.trace, |w.svc.trace|)))
  {
    var done := Do(env, op, plan, w.svc, w.revs);
    DoHolds(env, op, plan, w.svc, w.revs);
    var events := Since(done.svc.trace, |w.svc.trace|);
    ViewKept(env, op, plan, w);
    if !Live(env, done.svc) && done.svc.running != w.svc.running && InForce(w.svc) && !InForce(done.svc) {
      LastIsNew(w.svc.trace, done.svc.trace, env, op, plan, w);
      assert events[|events| - 1] == done.svc.trace[|done.svc.trace| - 1];
    }
  }

  lemma LastIsNew(before: seq<Event>, after: seq<Event>, env: Env, op: Op, plan: Plan, w: World)
    requires before == w.svc.trace && after == Do(env, op, plan, w.svc, w.revs).svc.trace
    requires Do(env, op, plan, w.svc, w.revs).svc.running != w.svc.running
    ensures |after| > |before|
  {
    RunningMovesWithTrace(env, op, plan, w.svc, Config(w.svc, w.revs, Inspecting));
  }

  /** The running configuration changes only in a step that is traced. */
  lemma {:induction false} RunningMovesWithTrace(env: Env, op: Op, plan: Plan, s0: ServiceState, c: Config)
    requires |c.svc.trace| >= |s0.trace|
    requires c.svc.running != s0.running ==> |c.svc.trace| > |s0.trace|
    ensures var done := Finish(env, op, plan, c);
            && |done.svc.trace| >= |s0.trace|
            && (done.svc.running != s0.running ==> |done.svc.trace| > |s0.trace|)
    decreases Remaining(c.stage)
  {
    if !c.stage.Returned? {
      StepsRunOut(env, op, plan, c);
      StepTraced(env, op, plan, c);
      RunningMovesWithTrace(env, op, plan, s0, Step(env, op, plan, c));
    }
  }

  lemma StepTraced(env: Env, op: Op, plan: Plan, c: Config)
    requires !c.stage.Returned?
    ensures var next := Step(env, op, plan, c);
            && |next.svc.trace| >= |c.svc.trace|
            && (next.svc.running != c.svc.running ==> |next.svc.trace| > |c.svc.trace|)
  {
  }

  /**
   Over every run of operations, whatever the checker, the reloads and the checks answer:
   starting valid, the files are valid after every operation and every reload, compensating
   ones included, loads valid files; starting in force, the service runs exactly what is on
   disk unless a compensating reload failed on the way.
   */
  lemma {:induction false} RunsStayValid(env: Env, w: World, acts: seq<Act>)
    requires Undoable(acts) && Valid(env, w.svc)
    ensures var last := Run(env, w, acts);
            && Valid(env, last.svc)
            && |w.svc.trace| <= |last.svc.trace|
            && last.svc.trace[..|w.svc.trace|] == w.svc.trace
            && EveryReloadValid(env, Since(last.svc.trace, |w.svc.trace|))
            && (InForce(w.svc) ==> InForce(last.svc) || CompensationFailed(Since(last.svc.trace, |w.svc.trace|)))
    decreases |acts|
  {
    if acts == [] {
      assert w.svc.trace[..|w.svc.trace|] == w.svc.trace;
    } else {
      assert acts[0] in acts;
      var next := Perform(env, w, acts[0]);
      OperationKeepsValid(env, acts[0].op, acts[0].plan, w);
      RunsStayValid(env, next, acts[1..]);
      EventsChain(env, w.svc.trace, next.svc.trace, Run(env, w, acts).svc.trace);
    }
  }

  lemma EventsChain(env: Env, a: seq<Event>, b: seq<Event>, c: seq<Event>)
    requires |a| <= |b| <= |c| && b[..|a|] == a && c[..|b|] == b
    ensures c[..|a|] == a
    ensures EveryReloadValid(env, Since(b, |a|)) && EveryReloadValid(env, Since(c, |b|))
        ==> EveryReloadValid(env, Since(c, |a|))
    ensures CompensationFailed(Since(b, |a|)) || CompensationFailed(Since(c, |b|)) ==> CompensationFailed(Since(c, |a|))
  {
    assert c[..|a|] == b[..|a|];
    assert Since(c, |a|) == Since(b, |a|) + Since(c, |b|);
    if CompensationFailed(Since(b, |a|)) {
      var i :| 0 <= i < |Since(b, |a|)| && Since(b, |a|)[i].Reloaded? && Since(b, |a|)[i].compensating && !Since(b, |a|)[i].ok;
      assert Since(c, |a|)[i] == Since(b, |a|)[i];
    }
    if CompensationFailed(Since(c, |b|)) {
      var i :| 0 <= i < |Since(c, |b|)| && Since(c, |b|)[i].Reloaded? && Since(c, |b|)[i].compensating && !Since(c, |b|)[i].ok;
      assert Since(c, |a|)[i + |b| - |a|] == Since(c, |b|)[i];
    }
  }

  // ----------------------------------------------------------------- a human's edit is not lost

  /** The panel would have to ask before touching this file: it was edited, or is somebody else's. */
  predicate NotOurs(env: Env, files: Tree, path: string) {
    var state := Inspect(env.hash, Lookup(files, path));
    state.Drifted? || state.Foreign? || state.Unreadable?
  }

  predicate SomebodyElses(env: Env, files: Tree, path: string) {
    var state := Inspect(env.hash, Lookup(files, path));
    state.Foreign? || state.Unreadable?
  }

  /** An unforced apply replaces a file only if it was absent or its body has the hash its header claims. */
  lemma UnforcedApplyAsks(env: Env, op: Op, plan: Plan, w: World)
    requires op.Apply? && !op.force && NotOurs(env, w.svc.files, op.path)
    ensures var done := Do(env, op, plan, w.svc, w.revs);
            && done.svc == w.svc && done.revs == w.revs
            && done.stage.reply.Refused?
            && (Inspect(env.hash, Lookup(w.svc.files, op.path)).Drifted? <==> done.stage.reply.error.Drift?)
  {
    var start := Config(w.svc, w.revs, Inspecting);
    var next := Step(env, op, plan, start);
    assert next.stage.Returned?;
    assert Finish(env, op, plan, start) == Finish(env, op, plan, next);
  }

  /** Forced or not, neither apply nor remove touches a file the panel did not write. */
  lemma ForeignFilesAreNeverTaken(env: Env, op: Op, plan: Plan, w: World)
    requires !op.Rollback? && SomebodyElses(env, w.svc.files, op.path)
    ensures var done := Do(env, op, plan, w.svc, w.revs);
            done.svc == w.svc && done.revs == w.revs && done.stage.reply.Refused?
  {
    var start := Config(w.svc, w.revs, Inspecting);
    var next := Step(env, op, plan, start);
    assert Finish(env, op, plan, start) == Finish(env, op, plan, next);
    if op.Remove? && next.stage.Writing? {
      var last := Step(env, op, plan, next);
      assert last.stage.Returned?;
      assert Finish(env, op, plan, next) == Finish(env, op, plan, last);
    }
  }

  /** The acts leave `path` to the human: no operation's staging file is that path, nobody edits it again. */
  predicate LeavesAlone(acts: seq<Act>, path: string) {
    forall a :: a in acts ==> Avoids(a, path)
  }

  predicate Avoids(a: Act, path: string) {
    match a
    case Operate(op, _) => Staging(op.path) != path && !op.Rollback?
    case Edit(p, _) => p != path
  }

  predicate Unforced(acts: seq<Act>) {
    forall a :: a in acts ==> AsksFirst(a)
  }

  predicate AsksFirst(a: Act) {
    a.Operate? ==> a.op.Apply? && !a.op.force
  }

  lemma ElsewhereLookup(before: Tree, after: Tree, path: string, p: string)
    requires SameElsewhere(before, after, path) && p != path && p != Staging(path)
    ensures Lookup(after, p) == Lookup(before, p)
  {
  }

  lemma ActElsewhere(env: Env, w: World, act: Act, path: string)
    requires Avoids(act, path) && (act.Operate? ==> act.op.path != path)
    ensures Lookup(Perform(env, w, act).svc.files, path) == Lookup(w.svc.files, path)
  {
    match act
    case Operate(op, plan) =>
      DoHolds(env, op, plan, w.svc, w.revs);
      ElsewhereLookup(w.svc.files, Perform(env, w, act).svc.files, op.path, path);
    case Edit(_, _) =>
  }

  /**
   Over every run that mixes unforced applies with human edits, a file that a human edited
   keeps that human's text until the human changes it.
   */
  lemma {:induction false} EditsSurvive(env: Env, w: World, acts: seq<Act>, path: string)
    requires LeavesAlone(acts, path) && Unforced(acts) && NotOurs(env, w.svc.files, path)
    ensures Lookup(Run(env, w, acts).svc.files, path) == Lookup(w.svc.files, path)
    decreases |acts|
  {
    if acts != [] {
      var act := acts[0];
      assert act in acts && Avoids(act, path) && AsksFirst(act);
      if act.Operate? && act.op.path == path {
        UnforcedApplyAsks(env, act.op, act.plan, w);
      } else {
        ActElsewhere(env, w, act, path);
      }
      assert forall a :: a in acts[1..] ==> a in acts;
      EditsSurvive(env, Perform(env, w, act), acts[1..], path);
    }
  }

  /** The same for a file the panel never wrote, against applies and removals, forced ones included. */
  lemma {:induction false} ForeignFilesSurvive(env: Env, w: World, acts: seq<Act>, path: string)
    requires LeavesAlone(acts, path) && SomebodyElses(env, w.svc.files, path)
    ensures Lookup(Run(env, w, acts).svc.files, path) == Lookup(w.svc.files, path)
    decreases |acts|
  {
    if acts != [] {
      var act := acts[0];
      assert act in acts && Avoids(act, path);
      if act.Operate? && act.op.path == path {
        ForeignFilesAreNeverTaken(env, act.op, act.plan, w);
      } else {
        ActElsewhere(env, w, act, path);
      }
      assert forall a :: a in acts[1..] ==> a in acts;
      ForeignFilesSurvive(env, Perform(env, w, act), acts[1..], path);
    }
  }

  /** Rolling back is different: it writes without asking what state the file is in. */
  lemma RollbackDoesNotAsk(env: Env, op: Op, plan: Plan, w: World)
    requires op.Rollback?
    requires plan.write.Written? && plan.reload.Loaded?
    requires op.path in w.svc.files ==> w.svc.files[op.path].Readable?
    requires Valid(env, w.svc.(files := AfterWrite(w.svc.files, op.path, Readable(op.revision.content, op.mode), Written)))
    ensures var done := Do(env, op, plan, w.svc, w.revs);
            && done.stage.reply == RolledBack
            && Lookup(done.svc.files, op.path) == Some(Readable(op.revision.content, op.mode))
  {
    var c0 := Config(w.svc, w.revs, Inspecting);
    var c1 := Step(env, op, plan, c0);
    var c2 := Step(env, op, plan, c1);
    var c3 := Step(env, op, plan, c2);
    var c4 := Step(env, op, plan, c3);
    assert Finish(env, op, plan, c0) == Finish(env, op, plan, c1);
    assert c2.svc.files == AfterWrite(w.svc.files, op.path, Readable(op.revision.content, op.mode), Written);
    assert Finish(env, op, plan, c1) == Finish(env, op, plan, c2);
    assert c3.stage.Reloading?;
    assert Finish(env, op, plan, c2) == Finish(env, op, plan, c3);
    assert c4.stage == Returned(RolledBack);
    assert Finish(env, op, plan, c3) == Finish(env, op, plan, c4);
    DoHolds(env, op, plan, w.svc, w.revs);
  }

  // ----------------------------------------------------------------- doing nothing, and undoing

  /**
   Applying the same body again, unforced, to a file an apply left in place does nothing at
   all: no write, no validation, no reload, no check and no revision, whatever would have come of them.
   */
  lemma ReapplyDoesNothing(env: Env, op: Op, plan: Plan, w: World, again: Op, plan': Plan)
    requires op.Apply? && again.Apply?
    requires again.path == op.path && again.body == op.body && !again.force
    requires var done := Do(env, op, plan, w.svc, w.revs); done.stage.reply.Applied?
    ensures var done := Do(env, op, plan, w.svc, w.revs);
            Do(env, again, plan', done.svc, done.revs) == Config(done.svc, done.revs, Returned(Applied(false, None, false)))
  {
    var done := Do(env, op, plan, w.svc, w.revs);
    DoHolds(env, op, plan, w.svc, w.revs);
    if done.stage.reply.changed {
      FreshFileIsManaged(env.hash, op.body, op.style, op.mode);
    }
    assert Inspect(env.hash, Lookup(done.svc.files, op.path)) == Managed(env.hash(op.body));
    var start := Config(done.svc, done.revs, Inspecting);
    var next := Step(env, again, plan', start);
    assert next == Config(done.svc, done.revs, Returned(Applied(false, None, false)));
    assert Finish(env, again, plan', start) == Finish(env, again, plan', next);
  }

  /** The converse: an apply that changed nothing found the very body it was to write, up to a hash collision. */
  lemma UnchangedMeansSameBody(env: Env, op: Op, plan: Plan, w: World)
    requires op.Apply?
    requires Do(env, op, plan, w.svc, w.revs).stage.reply == Applied(false, None, false)
    ensures exists body, content, mode ::
              && Lookup(w.svc.files, op.path) == Some(Readable(content, mode))
              && BodyOf(content) == Some(body) && env.hash(body) == env.hash(op.body)
  {
    DoHolds(env, op, plan, w.svc, w.revs);
    var e := w.svc.files[op.path];
    var (claimed, body) := SplitHeader(e.content).value;
    assert Lookup(w.svc.files, op.path) == Some(Readable(e.content, e.mode)) && BodyOf(e.content) == Some(body);
  }

  /** A revision is some body under its own header, recorded with that body's hash. */
  ghost predicate Genuine(env: Env, r: Revision) {
    exists body, style :: r.content == WithHeader(env.hash, body, style) && r.sha256 == env.hash(body)
  }

  ghost predicate GenuineHistory(env: Env, revs: seq<Revision>) {
    forall i :: 0 <= i < |revs| ==> Genuine(env, revs[i]) && revs[i].id == i + 1
  }

  lemma OperationKeepsHistory(env: Env, op: Op, plan: Plan, w: World)
    requires GenuineHistory(env, w.revs)
    ensures GenuineHistory(env, Do(env, op, plan, w.svc, w.revs).revs)
    ensures w.revs <= Do(env, op, plan, w.svc, w.revs).revs
  {
    DoHolds(env, op, plan, w.svc, w.revs);
    if op.Apply? {
      var r := RevisionOf(env, op, |w.revs| + 1);
      assert r.content == WithHeader(env.hash, op.body, op.style) && r.sha256 == env.hash(op.body);
      assert Genuine(env, r);
    }
  }

  lemma {:induction false} RunsKeepHistory(env: Env, w: World, acts: seq<Act>)
    requires GenuineHistory(env, w.revs)
    ensures GenuineHistory(env, Run(env, w, acts).revs)
    ensures w.revs <= Run(env, w, acts).revs
    decreases |acts|
  {
    if acts != [] {
      if acts[0].Operate? {
        OperationKeepsHistory(env, acts[0].op, acts[0].plan, w);
      }
      RunsKeepHistory(env, Perform(env, w, acts[0]), acts[1..]);
    }
  }

  /**
   After any run, rolling back to any revision on record, when it succeeds, reproduces byte
   for byte the file that was recorded, in force, and the panel takes that file for its own
   with the recorded hash.
   */
  lemma RollbackReproduces(env: Env, w: World, acts: seq<Act>, i: nat, path: string, mode: Mode, plan: Plan)
    requires GenuineHistory(env, w.revs)
    requires i < |Run(env, w, acts).revs|
    ensures var now := Run(env, w, acts);
            var r := now.revs[i];
            var done := Do(env, Rollback(path, mode, r), plan, now.svc, now.revs);
            done.stage.reply.RolledBack? ==>
              && Lookup(done.svc.files, path) == Some(Readable(r.content, mode))
              && Inspect(env.hash, Lookup(done.svc.files, path)) == Managed(r.sha256)
              && Live(env, done.svc)
  {
    RunsKeepHistory(env, w, acts);
    var now := Run(env, w, acts);
    var r := now.revs[i];
    DoHolds(env, Rollback(path, mode, r), plan, now.svc, now.revs);
    assert Genuine(env, r);
    var body, style :| r.content == WithHeader(env.hash, body, style) && r.sha256 == env.hash(body);
    FreshFileIsManaged(env.hash, body, style, mode);
  }

  /** What an apply records is what it put on disk. */
  lemma RevisionIsTheFile(env: Env, op: Op, plan: Plan, w: World)
    requires op.Apply?
    ensures var done := Do(env, op, plan, w.svc, w.revs);
            done.stage.reply.Applied? && done.stage.reply.revision.Some? ==>
              && |done.revs| == |w.revs| + 1
              && var r := done.revs[|w.revs|];
              && r.id == done.stage.reply.revision.value && r.path == op.path
              && Lookup(done.svc.files, op.path) == Some(Readable(r.content, op.mode))
              && Inspect(env.hash, Lookup(done.svc.files, op.path)) == Managed(r.sha256)
  {
    DoHolds(env, op, plan, w.svc, w.revs);
    FreshFileIsManaged(env.hash, op.body, op.style, op.mode);
  }

  // ----------------------------------------------------------------- when a change goes through

  predicate Success(reply: Reply) {
    match reply
    case Applied(changed, _, _) => changed
    case TakenAway(wasThere) => wasThere
    case RolledBack => true
    case Refused(_) => false
  }

  /** The files with the operation's own change made. */
  function Target(env: Env, op: Op, files: Tree): Tree {
    if op.Remove? then files - {op.path}
    else AfterWrite(files, op.path, Readable(Contents(env, op), op.mode), Written)
  }

  predicate Puts(op: Op, plan: Plan) {
    if op.Remove? then plan.unlink else plan.write.Written?
  }

  predicate Kept(env: Env, plan: Plan) {
    env.keepsRevisions ==> plan.record
  }

  predicate GoesLive(env: Env, op: Op, plan: Plan) {
    && plan.reload.Loaded?
    && (op.Apply? ==> (op.hasCheck ==> plan.check.None?) && Kept(env, plan))
  }

  /** Every condition still ahead of the operation is met. */
  predicate WillSucceed(env: Env, op: Op, plan: Plan, c: Config) {
    match c.stage
    case Inspecting =>
      MayReplace(env, op, Lookup(c.svc.files, op.path)) && Puts(op, plan)
      && env.complaint(ViewOf(Target(env, op, c.svc.files))).None? && GoesLive(env, op, plan)
    case Writing(_) =>
      (op.Remove? ==> MayReplace(env, op, Lookup(c.svc.files, op.path))) && Puts(op, plan)
      && env.complaint(ViewOf(Target(env, op, c.svc.files))).None? && GoesLive(env, op, plan)
    case Validating(_) => env.complaint(ViewOf(c.svc.files)).None? && GoesLive(env, op, plan)
    case Reloading(_) => GoesLive(env, op, plan)
    case Checking(_) => plan.check.None? && Kept(env, plan)
    case Recording => Kept(env, plan)
    case Undoing(_, _, _) => false
    case Recovering(_) => false
    case Returned(reply) => Success(reply)
  }

  /** Which operations get past the inspection. */
  lemma InspectGoes(env: Env, op: Op, svc: ServiceState)
    ensures var next := InspectStep(env, op, svc);
            var at := Lookup(svc.files, op.path);
            && (next.Writing? <==> if op.Remove? then at.Some? && at.value.Readable? else MayReplace(env, op, at))
            && (next.Returned? ==> !Success(next.reply))
  {
    match op
    case Apply(_, _, _, _, _, _) =>
    case Remove(_, _) =>
    case Rollback(_, _, _) =>
  }

  lemma RemovableIsText(env: Env, op: Op, at: Option<Entry>)
    requires op.Remove? && MayReplace(env, op, at)
    ensures at.Some? && at.value.Readable?
  {
  }

  lemma InspectDecides(env: Env, op: Op, plan: Plan, c: Config)
    requires c.stage.Inspecting?
    ensures WillSucceed(env, op, plan, Step(env, op, plan, c)) <==> WillSucceed(env, op, plan, c)
  {
    InspectGoes(env, op, c.svc);
    var at := Lookup(c.svc.files, op.path);
    var next := Step(env, op, plan, c);
    assert next == c.(stage := InspectStep(env, op, c.svc));
    if op.Remove? && MayReplace(env, op, at) {
      RemovableIsText(env, op, at);
    }
  }

  lemma PutDecides(env: Env, op: Op, plan: Plan, c: Config)
    requires c.stage.Writing? && !op.Remove?
    ensures WillSucceed(env, op, plan, Step(env, op, plan, c)) <==> WillSucceed(env, op, plan, c)
  {
  }

  /** The unlink step goes on exactly when the file is the panel's and the removal works. */
  lemma UnlinkGoesOn(env: Env, op: Op, plan: Plan, c: Config)
    requires c.stage.Writing? && op.Remove? && op.path in c.svc.files
    ensures var next := Step(env, op, plan, c);
            if MayReplace(env, op, Lookup(c.svc.files, op.path)) && plan.unlink
            then next.stage.Validating? && next.svc.files == c.svc.files - {op.path}
            else next.stage.Returned? && !Success(next.stage.reply)
  {
    assert !Inspect(env.hash, Lookup(c.svc.files, op.path)).Absent?;
  }

  lemma UnlinkDecides(env: Env, op: Op, plan: Plan, c: Config)
    requires c.stage.Writing? && op.Remove? && op.path in c.svc.files
    ensures WillSucceed(env, op, plan, Step(env, op, plan, c)) <==> WillSucceed(env, op, plan, c)
  {
    UnlinkGoesOn(env, op, plan, c);
  }

  lemma StepDecides(env: Env, op: Op, plan: Plan, c: Config)
    requires !c.stage.Returned?
    requires c.stage.Writing? && op.Remove? ==> op.path in c.svc.files
    requires c.stage.Checking? || c.stage.Recording? ==> op.Apply?
    requires c.stage.Checking? ==> op.hasCheck
    ensures var next := Step(env, op, plan, c);
            && (WillSucceed(env, op, plan, next) <==> WillSucceed(env, op, plan, c))
            && (next.stage.Writing? && op.Remove? ==> op.path in next.svc.files)
            && (next.stage.Checking? || next.stage.Recording? ==> op.Apply?)
            && (next.stage.Checking? ==> op.hasCheck)
  {
    match c.stage
    case Inspecting => InspectDecides(env, op, plan, c);
    case Writing(_) =>
      if op.Remove? {
        UnlinkDecides(env, op, plan, c);
      } else {
        PutDecides(env, op, plan, c);
      }
    case _ =>
  }

  lemma {:induction false} FinishDecides(env: Env, op: Op, plan: Plan, c: Config)
    requires c.stage.Writing? && op.Remove? ==> op.path in c.svc.files
    requires c.stage.Checking? || c.stage.Recording? ==> op.Apply?
    requires c.stage.Checking? ==> op.hasCheck
    ensures Success(Finish(env, op, plan, c).stage.reply) <==> WillSucceed(env, op, plan, c)
    decreases Remaining(c.stage)
  {
    if !c.stage.Returned? {
      StepsRunOut(env, op, plan, c);
      StepDecides(env, op, plan, c);
      FinishDecides(env, op, plan, Step(env, op, plan, c));
    }
  }

  /**
   A change goes through exactly when the file may be replaced, the write (or removal) works,
   the service accepts its files with the change made, the reload works, and for an apply the
   check passes and the revision is recorded.
   */
  lemma ChangesExactlyWhen(env: Env, op: Op, plan: Plan, w: World)
    ensures Success(Do(env, op, plan, w.svc, w.revs).stage.reply)
       <==> && MayReplace(env, op, Lookup(w.svc.files, op.path))
            && Puts(op, plan)
            && env.complaint(ViewOf(Target(env, op, w.svc.files))).None?
            && GoesLive(env, op, plan)
  {
    FinishDecides(env, op, plan, Config(w.svc, w.revs, Inspecting));
  }
}
