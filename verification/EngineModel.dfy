/**
 The configuration engine as a machine of small steps: inspect, write, validate, reload,
 check, record, and the undo path out of each.

 The machine works on what one service owns: its files, the configuration it is running,
 and a trace of what was done to it.  Everything the engine cannot decide for itself is in
 the plan of an operation: whether a write, a removal, a reload, a check or a record
 succeeds.  A law proved for every plan holds for every outcome.
 */
module EngineModel {
  import opened Text
  import opened ManagedFile
  import opened Disk

  /** What a service can see of its files: the text of each, but no modes and no staging files. */
  type View = map<string, Option<string>>

  predicate IsStaging(path: string) {
    |path| >= 12 && path[|path| - 12..] == ".unihelm-tmp"
  }

  function Shows(e: Entry): Option<string> {
    match e
    case Readable(content, _) => Some(content)
    case Opaque(_) => None
  }

  function ViewOf(files: Tree): View {
    map p | p in files && !IsStaging(p) :: Shows(files[p])
  }

  /**
   The surroundings of one service: the hash, the service's own configuration checker (which
   answers with its complaint, if it has one), and whether a revision store is attached.
   */
  datatype Env = Env(hash: Hasher, complaint: View -> Option<string>, keepsRevisions: bool)

  datatype Revision = Revision(id: nat, path: string, sha256: string, content: string)

  datatype Event =
    | Wrote(path: string)
    | Unlinked(path: string)
    | Validated(view: View, accepted: bool)
    | Reloaded(view: View, compensating: bool, ok: bool)
    | Checked(ok: bool)

  datatype ServiceState = ServiceState(files: Tree, running: View, trace: seq<Event>)

  datatype EngineError =
    | ForeignFile
    | BadPath
    | Drift(diff: seq<DiffLine>)
    | IoFailed
    | ValidationFailed(output: string)
    | ReloadFailed(output: string)
    | PostCheckFailed(output: string)
    | RevisionStoreFailed

  datatype Reply =
    | Applied(changed: bool, revision: Option<nat>, reloaded: bool)
    | TakenAway(wasThere: bool)
    | RolledBack
    | Refused(error: EngineError)

  datatype Op =
    | Apply(path: string, mode: Mode, style: CommentStyle, body: string, force: bool, hasCheck: bool)
    | Remove(path: string, mode: Mode)
    | Rollback(path: string, mode: Mode, revision: Revision)

  /** A reload either puts the files in force or leaves the service running something else. */
  datatype Load = Loaded | Stuck(running: View, output: string)

  datatype Plan = Plan(
    write: WriteOutcome, unlink: bool, reload: Load, check: Option<string>, record: bool,
    undoWrite: WriteOutcome, undoUnlink: bool, recover: Load)

  /** No undo write fails. */
  predicate UndoWorks(plan: Plan) {
    plan.undoWrite.Written? && plan.undoUnlink
  }

  datatype Stage =
    | Inspecting
    | Writing(snapshot: Option<string>)
    | Validating(snapshot: Option<string>)
    | Reloading(snapshot: Option<string>)
    | Checking(snapshot: Option<string>)
    | Recording
    | Undoing(snapshot: Option<string>, cause: EngineError, reloadAfter: bool)
    | Recovering(cause: EngineError)
    | Returned(reply: Reply)

  datatype Config = Config(svc: ServiceState, revs: seq<Revision>, stage: Stage)

  // ----------------------------------------------------------------- the steps

  /** The text an operation puts at its path. */
  function Contents(env: Env, op: Op): string
    requires !op.Remove?
  {
    match op
    case Apply(_, _, style, body, _, _) => WithHeader(env.hash, body, style)
    case Rollback(_, _, revision) => revision.content
  }

  /** What the file held, `None` when there was none; a file that is not text has no snapshot. */
  function Snapshot(at: Option<Entry>): Option<string>
    requires at.Some? ==> at.value.Readable?
  {
    match at
    case None => None
    case Some(e) => Some(e.content)
  }

  function DriftOf(at: Option<Entry>, body: string): EngineError
    requires at.Some? && at.value.Readable?
  {
    var current := match BodyOf(at.value.content) case Some(b) => b case None => "";
    Drift(Diff(current, body))
  }

  function InspectStep(env: Env, op: Op, svc: ServiceState): (stage: Stage)
    ensures stage.Returned? || stage.Writing?
  {
    var at := Lookup(svc.files, op.path);
    match op
    case Apply(_, _, _, body, force, _) =>
      (match Inspect(env.hash, at)
       case Foreign => Returned(Refused(ForeignFile))
       case Unreadable => Returned(Refused(BadPath))
       case Drifted(_, _) => if !force then Returned(Refused(DriftOf(at, body))) else Writing(Snapshot(at))
       case Managed(digest) =>
         if digest == env.hash(body) && !force then Returned(Applied(false, None, false)) else Writing(Snapshot(at))
       case Absent => Writing(None))
    case Remove(_, _) =>
      if at.Some? && at.value.Opaque? then Returned(Refused(IoFailed))
      else if at.None? then Returned(TakenAway(false))
      else Writing(Snapshot(at))
    case Rollback(_, _, _) =>
      if at.Some? && at.value.Opaque? then Returned(Refused(IoFailed)) else Writing(Snapshot(at))
  }

  function WriteStep(env: Env, op: Op, plan: Plan, svc: ServiceState, snapshot: Option<string>): (r: (ServiceState, Stage))
    ensures r.1.Returned? || r.1.Validating?
  {
    if op.Remove? then
      match Inspect(env.hash, Lookup(svc.files, op.path))
      case Absent => (svc, Validating(snapshot))
      case Foreign => (svc, Returned(Refused(ForeignFile)))
      case Unreadable => (svc, Returned(Refused(BadPath)))
      case _ =>
        if plan.unlink
        then (svc.(files := svc.files - {op.path}, trace := svc.trace + [Unlinked(op.path)]), Validating(snapshot))
        else (svc, Returned(Refused(IoFailed)))
    else
      var files := AfterWrite(svc.files, op.path, Readable(Contents(env, op), op.mode), plan.write);
      if plan.write.Written?
      then (svc.(files := files, trace := svc.trace + [Wrote(op.path)]), Validating(snapshot))
      else (svc.(files := files), Returned(Refused(IoFailed)))
  }

  function ValidateStep(env: Env, svc: ServiceState, snapshot: Option<string>): (ServiceState, Stage) {
    var view := ViewOf(svc.files);
    match env.complaint(view)
    case None => (svc.(trace := svc.trace + [Validated(view, true)]), Reloading(snapshot))
    case Some(output) =>
      (svc.(trace := svc.trace + [Validated(view, false)]), Undoing(snapshot, ValidationFailed(output), false))
  }

  function AfterReload(op: Op, snapshot: Option<string>): Stage {
    match op
    case Apply(_, _, _, _, _, hasCheck) => if hasCheck then Checking(snapshot) else Recording
    case Remove(_, _) => Returned(TakenAway(true))
    case Rollback(_, _, _) => Returned(RolledBack)
  }

  function LoadStep(svc: ServiceState, load: Load, compensating: bool): ServiceState {
    var view := ViewOf(svc.files);
    match load
    case Loaded => svc.(running := view, trace := svc.trace + [Reloaded(view, compensating, true)])
    case Stuck(left, _) => svc.(running := left, trace := svc.trace + [Reloaded(view, compensating, false)])
  }

  function ReloadStep(op: Op, plan: Plan, svc: ServiceState, snapshot: Option<string>): (ServiceState, Stage) {
    var next := LoadStep(svc, plan.reload, false);
    match plan.reload
    case Loaded => (next, AfterReload(op, snapshot))
    case Stuck(_, output) => (next, Undoing(snapshot, ReloadFailed(output), true))
  }

  function CheckStep(plan: Plan, svc: ServiceState, snapshot: Option<string>): (ServiceState, Stage) {
    match plan.check
    case None => (svc.(trace := svc.trace + [Checked(true)]), Recording)
    case Some(output) =>
      (svc.(trace := svc.trace + [Checked(false)]), Undoing(snapshot, PostCheckFailed(output), true))
  }

  function RevisionOf(env: Env, op: Op, id: nat): Revision
    requires op.Apply?
  {
    Revision(id, op.path, env.hash(op.body), Contents(env, op))
  }

  /** Revision ids count up and are never used again. */
  function RecordStep(env: Env, op: Op, plan: Plan, revs: seq<Revision>): (seq<Revision>, Stage) {
    if !op.Apply? || !env.keepsRevisions then (revs, Returned(Applied(true, None, true)))
    else if !plan.record then (revs, Returned(Refused(RevisionStoreFailed)))
    else
      var id := |revs| + 1;
      (revs + [RevisionOf(env, op, id)], Returned(Applied(true, Some(id), true)))
  }

  /** Put the snapshot back, at the declared mode; a failure here is what the caller hears about. */
  function UndoStep(op: Op, plan: Plan, svc: ServiceState, stage: Stage): (ServiceState, Stage)
    requires stage.Undoing?
  {
    var next := if stage.reloadAfter then Recovering(stage.cause) else Returned(Refused(stage.cause));
    match stage.snapshot
    case Some(content) =>
      var files := AfterWrite(svc.files, op.path, Readable(content, op.mode), plan.undoWrite);
      if plan.undoWrite.Written?
      then (svc.(files := files, trace := svc.trace + [Wrote(op.path)]), next)
      else (svc.(files := files), Returned(Refused(IoFailed)))
    case None =>
      if op.path !in svc.files then (svc, next)
      else if plan.undoUnlink
      then (svc.(files := svc.files - {op.path}, trace := svc.trace + [Unlinked(op.path)]), next)
      else (svc, Returned(Refused(IoFailed)))
  }

  function Step(env: Env, op: Op, plan: Plan, c: Config): Config
    requires !c.stage.Returned?
  {
    match c.stage
    case Inspecting => c.(stage := InspectStep(env, op, c.svc))
    case Writing(snapshot) =>
      var (svc, stage) := WriteStep(env, op, plan, c.svc, snapshot);
      Config(svc, c.revs, stage)
    case Validating(snapshot) =>
      var (svc, stage) := ValidateStep(env, c.svc, snapshot);
      Config(svc, c.revs, stage)
    case Reloading(snapshot) =>
      var (svc, stage) := ReloadStep(op, plan, c.svc, snapshot);
      Config(svc, c.revs, stage)
    case Checking(snapshot) =>
      var (svc, stage) := CheckStep(plan, c.svc, snapshot);
      Config(svc, c.revs, stage)
    case Recording =>
      var (revs, stage) := RecordStep(env, op, plan, c.revs);
      Config(c.svc, revs, stage)
    case Undoing(_, _, _) =>
      var (svc, stage) := UndoStep(op, plan, c.svc, c.stage);
      Config(svc, c.revs, stage)
    case Recovering(cause) =>
      Config(LoadStep(c.svc, plan.recover, true), c.revs, Returned(Refused(cause)))
  }

  function Remaining(stage: Stage): nat {
    match stage
    case Inspecting => 7
    case Writing(_) => 6
    case Validating(_) => 5
    case Reloading(_) => 4
    case Checking(_) => 3
    case Undoing(_, _, _) => 2
    case Recovering(_) => 1
    case Recording => 1
    case Returned(_) => 0
  }

  lemma StepsRunOut(env: Env, op: Op, plan: Plan, c: Config)
    requires !c.stage.Returned?
    ensures Remaining(Step(env, op, plan, c).stage) < Remaining(c.stage)
  {
    match c.stage
    case Inspecting =>
      var next := InspectStep(env, op, c.svc);
      assert Step(env, op, plan, c).stage == next;
    case Writing(snapshot) =>
      var (svc, next) := WriteStep(env, op, plan, c.svc, snapshot);
      assert Step(env, op, plan, c).stage == next;
    case _ =>
  }

  /** Take steps until the operation returns. */
  function Finish(env: Env, op: Op, plan: Plan, c: Config): (done: Config)
    ensures done.stage.Returned?
    decreases Remaining(c.stage)
  {
    if c.stage.Returned? then c
    else
      StepsRunOut(env, op, plan, c);
      Finish(env, op, plan, Step(env, op, plan, c))
  }

  /** A whole operation. */
  function Do(env: Env, op: Op, plan: Plan, svc: ServiceState, revs: seq<Revision>): Config {
    Finish(env, op, plan, Config(svc, revs, Inspecting))
  }

  // ----------------------------------------------------------------- what every step keeps

  /** The rest of the service's files, staging file apart, are as they were. */
  predicate SameElsewhere(before: Tree, after: Tree, path: string) {
    && (forall p :: p in before && p != path && p != Staging(path) ==> p in after && after[p] == before[p])
    && (forall p :: p in after && p != path && p != Staging(path) ==> p in before)
  }

  predicate SameTextAt(before: Tree, after: Tree, path: string) {
    match Lookup(before, path)
    case None => path !in after
    case Some(Readable(content, _)) => path in after && after[path].Readable? && after[path].content == content
    case Some(Opaque(_)) => Lookup(after, path) == Lookup(before, path)
  }

  /** The target holds what it held, under the mode the operation declared, or is absent again. */
  predicate PutBack(before: Tree, after: Tree, op: Op) {
    match Lookup(before, op.path)
    case None => op.path !in after
    case Some(e) => e.Readable? && Lookup(after, op.path) == Some(Readable(e.content, op.mode))
  }

  /** The last thing done was a reload of the restored files; if it worked, the service runs them. */
  predicate Recovered(s0: ServiceState, svc: ServiceState) {
    svc.trace != [] &&
    var last := svc.trace[|svc.trace| - 1];
    && last.Reloaded? && last.compensating && last.view == ViewOf(s0.files)
    && (last.ok ==> svc.running == ViewOf(s0.files))
  }

  /** The operation's own change to the tree has been made, and no other. */
  predicate Installed(env: Env, op: Op, before: Tree, after: Tree) {
    && SameElsewhere(before, after, op.path)
    && if op.Remove? then op.path !in after
       else Lookup(after, op.path) == Some(Readable(Contents(env, op), op.mode))
  }

  /** May this operation replace or remove what it found? */
  predicate MayReplace(env: Env, op: Op, at: Option<Entry>) {
    match op
    case Apply(_, _, _, body, force, _) =>
      (match Inspect(env.hash, at)
       case Absent => true
       case Managed(digest) => force || digest != env.hash(body)
       case Drifted(_, _) => force
       case _ => false)
    case Remove(_, _) =>
      var state := Inspect(env.hash, at);
      state.Managed? || state.Drifted?
    case Rollback(_, _, _) => at.None? || at.value.Readable?
  }

  /** A snapshot is what the file held when the operation began. */
  predicate SnapshotOf(before: Tree, path: string, snapshot: Option<string>) {
    match Lookup(before, path)
    case None => snapshot.None?
    case Some(Readable(content, _)) => snapshot == Some(content)
    case Some(Opaque(_)) => false
  }

  /** The events after the first `n`. */
  function Since(trace: seq<Event>, n: nat): seq<Event>
    requires n <= |trace|
  {
    trace[n..]
  }

  /** Every reload on the way forward came right after the checker accepted exactly the files it loaded. */
  predicate ReloadsValidated(env: Env, events: seq<Event>) {
    forall i :: 0 <= i < |events| && events[i].Reloaded? && !events[i].compensating ==>
      env.complaint(events[i].view).None?
  }

  /** Every compensating reload loads what the service's files showed when the operation began. */
  predicate CompensationsRestore(before: Tree, events: seq<Event>) {
    forall i :: 0 <= i < |events| && events[i].Reloaded? && events[i].compensating ==>
      events[i].view == ViewOf(before)
  }

  predicate GoodTrace(env: Env, s0: ServiceState, s: ServiceState) {
    && |s0.trace| <= |s.trace|
    && s.trace[..|s0.trace|] == s0.trace
    && ReloadsValidated(env, Since(s.trace, |s0.trace|))
    && CompensationsRestore(s0.files, Since(s.trace, |s0.trace|))
  }

  /** The failures that come with the tree put back. */
  predicate IsRevert(e: EngineError) {
    e.ValidationFailed? || e.ReloadFailed? || e.PostCheckFailed?
  }

  /** What holds between two steps, stage by stage, for an operation that began in `s0`. */
  predicate StageHolds(env: Env, op: Op, plan: Plan, s0: ServiceState, r0: seq<Revision>, c: Config) {
    && SameElsewhere(s0.files, c.svc.files, op.path)
    && GoodTrace(env, s0, c.svc)
    && match c.stage
       case Inspecting => c.svc == s0 && c.revs == r0
       case Writing(snapshot) =>
         c.svc == s0 && c.revs == r0
         && SnapshotOf(s0.files, op.path, snapshot)
         && (if op.Remove? then snapshot.Some? else MayReplace(env, op, Lookup(s0.files, op.path)))
       case Validating(snapshot) =>
         Underway(env, op, s0, r0, c) && SnapshotOf(s0.files, op.path, snapshot)
         && c.svc.running == s0.running
       case Reloading(snapshot) =>
         Underway(env, op, s0, r0, c) && SnapshotOf(s0.files, op.path, snapshot)
         && c.svc.running == s0.running && env.complaint(ViewOf(c.svc.files)).None?
       case Checking(snapshot) =>
         Underway(env, op, s0, r0, c) && SnapshotOf(s0.files, op.path, snapshot)
         && op.Apply? && Live(env, c.svc)
       case Recording => Underway(env, op, s0, r0, c) && op.Apply? && Live(env, c.svc)
       case Undoing(snapshot, cause, reloadAfter) =>
         Underway(env, op, s0, r0, c) && SnapshotOf(s0.files, op.path, snapshot)
         && IsRevert(cause) && (reloadAfter <==> !cause.ValidationFailed?)
         && (!reloadAfter ==> c.svc.running == s0.running)
       case Recovering(cause) =>
         c.revs == r0 && PutBack(s0.files, c.svc.files, op) && IsRevert(cause) && !cause.ValidationFailed?
       case Returned(reply) => ReplyHolds(env, op, plan, s0, r0, c.svc, c.revs, reply)
  }

  predicate Underway(env: Env, op: Op, s0: ServiceState, r0: seq<Revision>, c: Config) {
    && c.revs == r0
    && MayReplace(env, op, Lookup(s0.files, op.path))
    && Installed(env, op, s0.files, c.svc.files)
  }

  /** The service accepts its files and is running them. */
  predicate Live(env: Env, svc: ServiceState) {
    env.complaint(ViewOf(svc.files)).None? && svc.running == ViewOf(svc.files)
  }

  /** What each answer to the caller means. */
  predicate ReplyHolds(env: Env, op: Op, plan: Plan, s0: ServiceState, r0: seq<Revision>,
                       svc: ServiceState, revs: seq<Revision>, reply: Reply)
  {
    match reply
    case Refused(e) =>
      && revs == r0
      && (match e
          case ForeignFile => svc == s0 && Inspect(env.hash, Lookup(s0.files, op.path)).Foreign?
          case BadPath => svc == s0 && op.Apply? && Inspect(env.hash, Lookup(s0.files, op.path)).Unreadable?
          case Drift(_) => svc == s0 && op.Apply? && !op.force && Inspect(env.hash, Lookup(s0.files, op.path)).Drifted?
          case ValidationFailed(_) => PutBack(s0.files, svc.files, op) && svc.running == s0.running
          case ReloadFailed(_) => PutBack(s0.files, svc.files, op) && Recovered(s0, svc)
          case PostCheckFailed(_) => PutBack(s0.files, svc.files, op) && Recovered(s0, svc)
          case IoFailed =>
            UndoWorks(plan) ==> SameTextAt(s0.files, svc.files, op.path) && svc.running == s0.running
          case RevisionStoreFailed =>
            op.Apply? && env.keepsRevisions && Installed(env, op, s0.files, svc.files) && Live(env, svc))
    case Applied(changed, id, reloaded) =>
      && op.Apply?
      && changed == reloaded
      && (!changed ==> svc == s0 && revs == r0 && id.None? && !op.force
                       && Inspect(env.hash, Lookup(s0.files, op.path)) == Managed(env.hash(op.body)))
      && (changed ==> Installed(env, op, s0.files, svc.files) && Live(env, svc)
                      && MayReplace(env, op, Lookup(s0.files, op.path))
                      && (id.Some? <==> env.keepsRevisions)
                      && (if id.Some? then id == Some(|r0| + 1) && revs == r0 + [RevisionOf(env, op, |r0| + 1)]
                          else revs == r0))
    case TakenAway(wasThere) =>
      && op.Remove? && revs == r0
      && (wasThere <==> op.path in s0.files)
      && (!wasThere ==> svc == s0)
      && (wasThere ==> Installed(env, op, s0.files, svc.files) && Live(env, svc)
                       && MayReplace(env, op, Lookup(s0.files, op.path)))
    case RolledBack =>
      op.Rollback? && revs == r0 && Installed(env, op, s0.files, svc.files) && Live(env, svc)
  }

  // ----------------------------------------------------------------- trees

  lemma StagingIsStaging(path: string)
    ensures IsStaging(Staging(path)) && Staging(path) != path
  {
    var s := Staging(path);
    assert s[|s| - 12..] == ".unihelm-tmp";
    StagingApart(path);
  }

  lemma WriteElsewhere(before: Tree, path: string, entry: Entry, w: WriteOutcome)
    ensures SameElsewhere(before, AfterWrite(before, path, entry, w), path)
    ensures w.Written? ==> Lookup(AfterWrite(before, path, entry, w), path) == Some(entry)
    ensures w.NotWritten? ==> Lookup(AfterWrite(before, path, entry, w), path) == Lookup(before, path)
  {
    StagingApart(path);
  }

  lemma ElsewhereChains(a: Tree, b: Tree, c: Tree, path: string)
    requires SameElsewhere(a, b, path) && SameElsewhere(b, c, path)
    ensures SameElsewhere(a, c, path)
  {
  }

  /** Trees that hold the same texts show the service the same. */
  lemma SameView(a: Tree, b: Tree, path: string)
    requires SameElsewhere(a, b, path) && SameTextAt(a, b, path)
    ensures ViewOf(a) == ViewOf(b)
  {
    StagingIsStaging(path);
    var x, y := ViewOf(a), ViewOf(b);
    forall p
      ensures p in x <==> p in y
      ensures p in x ==> x[p] == y[p]
    {
      if p == path {
        assert SameTextAt(a, b, p);
      }
    }
  }

  // ----------------------------------------------------------------- each step keeps it

  lemma GoodTraceGrows(env: Env, s0: ServiceState, s: ServiceState, next: ServiceState, e: Event)
    requires GoodTrace(env, s0, s) && next.trace == s.trace + [e]
    requires e.Reloaded? && !e.compensating ==> env.complaint(e.view).None?
    requires e.Reloaded? && e.compensating ==> e.view == ViewOf(s0.files)
    ensures GoodTrace(env, s0, next)
  {
    var n := |s0.trace|;
    assert next.trace[..n] == s.trace[..n];
    assert Since(next.trace, n) == Since(s.trace, n) + [e];
  }

  lemma InspectKeeps(env: Env, op: Op, plan: Plan, s0: ServiceState, r0: seq<Revision>, c: Config)
    requires c.stage.Inspecting? && StageHolds(env, op, plan, s0, r0, c)
    ensures StageHolds(env, op, plan, s0, r0, Step(env, op, plan, c))
  {
    var next := Step(env, op, plan, c);
    var at := Lookup(s0.files, op.path);
    assert next.svc == s0 && next.revs == r0;
    match op
    case Apply(_, _, _, _, _, _) =>
    case Remove(_, _) =>
    case Rollback(_, _, _) =>
  }

  lemma UnlinkKeeps(env: Env, op: Op, plan: Plan, s0: ServiceState, r0: seq<Revision>, c: Config)
    requires op.Remove? && c.stage.Writing? && StageHolds(env, op, plan, s0, r0, c)
    ensures StageHolds(env, op, plan, s0, r0, Step(env, op, plan, c))
  {
    var next := Step(env, op, plan, c);
    var state := Inspect(env.hash, Lookup(s0.files, op.path));
    if state.Managed? || state.Drifted? {
      if plan.unlink {
        assert next.svc == s0.(files := s0.files - {op.path}, trace := s0.trace + [Unlinked(op.path)]);
        GoodTraceGrows(env, s0, c.svc, next.svc, Unlinked(op.path));
        assert Underway(env, op, s0, r0, next);
      } else {
        assert next == Config(s0, r0, Returned(Refused(IoFailed)));
      }
    } else {
      assert state.Foreign?;
      assert next == Config(s0, r0, Returned(Refused(ForeignFile)));
    }
  }

  lemma WriteKeeps(env: Env, op: Op, plan: Plan, s0: ServiceState, r0: seq<Revision>, c: Config)
    requires !op.Remove? && c.stage.Writing? && StageHolds(env, op, plan, s0, r0, c)
    ensures StageHolds(env, op, plan, s0, r0, Step(env, op, plan, c))
  {
    var next := Step(env, op, plan, c);
    WriteElsewhere(s0.files, op.path, Readable(Contents(env, op), op.mode), plan.write);
    if plan.write.Written? {
      GoodTraceGrows(env, s0, c.svc, next.svc, Wrote(op.path));
    }
  }

  lemma ValidateKeeps(env: Env, op: Op, plan: Plan, s0: ServiceState, r0: seq<Revision>, c: Config)
    requires c.stage.Validating? && StageHolds(env, op, plan, s0, r0, c)
    ensures StageHolds(env, op, plan, s0, r0, Step(env, op, plan, c))
  {
    var next := Step(env, op, plan, c);
    var view := ViewOf(c.svc.files);
    GoodTraceGrows(env, s0, c.svc, next.svc, Validated(view, env.complaint(view).None?));
  }

  lemma ReloadKeeps(env: Env, op: Op, plan: Plan, s0: ServiceState, r0: seq<Revision>, c: Config)
    requires c.stage.Reloading? && StageHolds(env, op, plan, s0, r0, c)
    ensures StageHolds(env, op, plan, s0, r0, Step(env, op, plan, c))
  {
    var next := Step(env, op, plan, c);
    GoodTraceGrows(env, s0, c.svc, next.svc, Reloaded(ViewOf(c.svc.files), false, plan.reload.Loaded?));
  }

  lemma CheckKeeps(env: Env, op: Op, plan: Plan, s0: ServiceState, r0: seq<Revision>, c: Config)
    requires c.stage.Checking? && StageHolds(env, op, plan, s0, r0, c)
    ensures StageHolds(env, op, plan, s0, r0, Step(env, op, plan, c))
  {
    var next := Step(env, op, plan, c);
    GoodTraceGrows(env, s0, c.svc, next.svc, Checked(plan.check.None?));
  }

  lemma RecordKeeps(env: Env, op: Op, plan: Plan, s0: ServiceState, r0: seq<Revision>, c: Config)
    requires c.stage.Recording? && StageHolds(env, op, plan, s0, r0, c)
    ensures StageHolds(env, op, plan, s0, r0, Step(env, op, plan, c))
  {
  }

  lemma UndoKeeps(env: Env, op: Op, plan: Plan, s0: ServiceState, r0: seq<Revision>, c: Config)
    requires c.stage.Undoing? && StageHolds(env, op, plan, s0, r0, c)
    ensures StageHolds(env, op, plan, s0, r0, Step(env, op, plan, c))
  {
    var next := Step(env, op, plan, c);
    match c.stage.snapshot
    case Some(content) =>
      WriteElsewhere(c.svc.files, op.path, Readable(content, op.mode), plan.undoWrite);
      ElsewhereChains(s0.files, c.svc.files, next.svc.files, op.path);
      if plan.undoWrite.Written? {
        GoodTraceGrows(env, s0, c.svc, next.svc, Wrote(op.path));
      }
    case None =>
      if next.svc != c.svc {
        GoodTraceGrows(env, s0, c.svc, next.svc, Unlinked(op.path));
      }
  }

  lemma RecoverKeeps(env: Env, op: Op, plan: Plan, s0: ServiceState, r0: seq<Revision>, c: Config)
    requires c.stage.Recovering? && StageHolds(env, op, plan, s0, r0, c)
    ensures StageHolds(env, op, plan, s0, r0, Step(env, op, plan, c))
  {
    var next := Step(env, op, plan, c);
    assert SameTextAt(s0.files, c.svc.files, op.path);
    SameView(s0.files, c.svc.files, op.path);
    GoodTraceGrows(env, s0, c.svc, next.svc, Reloaded(ViewOf(c.svc.files), true, plan.recover.Loaded?));
  }

  lemma StepKeeps(env: Env, op: Op, plan: Plan, s0: ServiceState, r0: seq<Revision>, c: Config)
    requires !c.stage.Returned? && StageHolds(env, op, plan, s0, r0, c)
    ensures StageHolds(env, op, plan, s0, r0, Step(env, op, plan, c))
  {
    match c.stage
    case Inspecting => InspectKeeps(env, op, plan, s0, r0, c);
    case Writing(_) =>
      if op.Remove? {
        UnlinkKeeps(env, op, plan, s0, r0, c);
      } else {
        WriteKeeps(env, op, plan, s0, r0, c);
      }
    case Validating(_) => ValidateKeeps(env, op, plan, s0, r0, c);
    case Reloading(_) => ReloadKeeps(env, op, plan, s0, r0, c);
    case Checking(_) => CheckKeeps(env, op, plan, s0, r0, c);
    case Recording => RecordKeeps(env, op, plan, s0, r0, c);
    case Undoing(_, _, _) => UndoKeeps(env, op, plan, s0, r0, c);
    case Recovering(_) => RecoverKeeps(env, op, plan, s0, r0, c);
  }

  lemma {:induction false} FinishHolds(env: Env, op: Op, plan: Plan, s0: ServiceState, r0: seq<Revision>, c: Config)
    requires StageHolds(env, op, plan, s0, r0, c)
    ensures StageHolds(env, op, plan, s0, r0, Finish(env, op, plan, c))
    decreases Remaining(c.stage)
  {
    if !c.stage.Returned? {
      StepsRunOut(env, op, plan, c);
      StepKeeps(env, op, plan, s0, r0, c);
      FinishHolds(env, op, plan, s0, r0, Step(env, op, plan, c));
    }
  }

  /** A whole operation: what its answer says is so, the other files are untouched, and every reload was fit. */
  lemma DoHolds(env: Env, op: Op, plan: Plan, svc: ServiceState, revs: seq<Revision>)
    ensures var done := Do(env, op, plan, svc, revs);
            && SameElsewhere(svc.files, done.svc.files, op.path)
            && GoodTrace(env, svc, done.svc)
            && ReplyHolds(env, op, plan, svc, revs, done.svc, done.revs, done.stage.reply)
  {
    var start := Config(svc, revs, Inspecting);
    assert svc.trace[..|svc.trace|] == svc.trace;
    assert StageHolds(env, op, plan, svc, revs, start);
    FinishHolds(env, op, plan, svc, revs, start);
  }
}
