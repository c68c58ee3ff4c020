/**
 The configuration engine itself: one file tree, one lock table and one revision log for all
 services, changed in place.  Each operation is proved to do, to the slice of the state its
 service owns, exactly what the machine of small steps does, and nothing to any other slice.
 */
module ConfigEngine {
  import opened Text
  import opened ManagedFile
  import opened Disk
  import opened EngineModel
  import opened EngineConcurrency

  /** Which service a path belongs to; a staging file belongs with its target. */
  ghost predicate KeepsStagingWithTarget(owner: string -> string) {
    forall p :: owner(Staging(p)) == owner(p)
  }

  function OwnedBy(files: Tree, owner: string -> string, service: string): Tree {
    map p | p in files && owner(p) == service :: files[p]
  }

  lemma OwnedAfterWrite(files: Tree, owner: string -> string, service: string, path: string, entry: Entry, w: WriteOutcome)
    requires KeepsStagingWithTarget(owner)
    ensures OwnedBy(AfterWrite(files, path, entry, w), owner, service)
         == if owner(path) == service then AfterWrite(OwnedBy(files, owner, service), path, entry, w)
            else OwnedBy(files, owner, service)
  {
    assert owner(Staging(path)) == owner(path);
  }

  lemma OwnedAfterRemoval(files: Tree, owner: string -> string, service: string, path: string)
    ensures OwnedBy(files - {path}, owner, service)
         == if owner(path) == service then OwnedBy(files, owner, service) - {path}
            else OwnedBy(files, owner, service)
  {
  }

  /** A removal from the directory is the same removal from its entries. */
  lemma EntriesAfterRemoval(names: Directory, path: string)
    ensures Entries(names - {path}) == Entries(names) - {path}
  {
  }

  /** Where the undo path goes once the restoring has been tried. */
  function AfterUndo(undone: bool, cause: EngineError, reloadAfter: bool): Stage {
    if !undone then Returned(Refused(IoFailed))
    else if reloadAfter then Recovering(cause)
    else Returned(Refused(cause))
  }

  /** From `from`, the machine ends in `to`. */
  predicate Runs(env: Env, op: Op, plan: Plan, from: Config, to: Config) {
    Finish(env, op, plan, from) == to
  }

  class Engine {
    const disk: Filesystem
    const envs: Envs
    const owner: string -> string
    var running: map<string, View>
    var locks: LockTable
    var revisions: seq<Revision>
    ghost var traces: map<string, seq<Event>>
    ghost var storeFailures: nat    // how often the revision store said no

    constructor (disk: Filesystem, envs: Envs, owner: string -> string, running: map<string, View>)
      requires KeepsStagingWithTarget(owner)
      ensures this.disk == disk && this.envs == envs && this.owner == owner && this.running == running
      ensures Valid() && locks == LockTable(map[], 0) && revisions == []
    {
      this.disk, this.envs, this.owner, this.running := disk, envs, owner, running;
      locks, revisions := LockTable(map[], 0), [];
      traces, storeFailures := map s | s in running :: [], 0;
    }

    ghost predicate Valid()
      reads this
    {
      && KeepsStagingWithTarget(owner)
      && traces.Keys == running.Keys
      && TableSound(locks)
    }

    /** The part of the state a service owns. */
    ghost function Slice(service: string): ServiceState
      requires service in running && service in traces
      reads this, disk
    {
      ServiceState(OwnedBy(disk.Files(), owner, service), running[service], traces[service])
    }

    /** Nothing has happened to any service but one. */
    twostate predicate OthersAlone(service: string)
      requires old(Valid()) && Valid()
      reads this, disk
    {
      && running.Keys == old(running.Keys)
      && forall s :: s in running && s != service ==> Slice(s) == old(Slice(s))
    }

    /** How many calls to the system have failed. */
    ghost function Failed(): nat
      reads this, disk
    {
      Failures(disk.calls)
    }

    /** The answer says that the disk failed exactly when it did, and the same of the revision store. */
    twostate predicate Blames(r: Reply)
      reads this, disk
    {
      && Failed() >= old(Failed()) && storeFailures >= old(storeFailures)
      && (r == Refused(IoFailed) <==> Failed() > old(Failed()))
      && (r == Refused(RevisionStoreFailed) <==> storeFailures > old(storeFailures))
    }

    /** The lock of a service: always the same one. */
    method LockOf(service: string) returns (mutex: nat)
      requires Valid()
      modifies this`locks
      ensures Valid()
      ensures (locks, mutex) == LockFor(old(locks), service)
      ensures service in locks.of && locks.of[service] == mutex
      ensures forall s :: s in old(locks).of ==> s in locks.of && locks.of[s] == old(locks).of[s]
    {
      if service in locks.of {
        mutex := locks.of[service];
      } else {
        mutex := locks.made;
        locks := LockTable(locks.of[service := mutex], locks.made + 1);
      }
    }

    /** What a service sees of its files now. */
    function Seen(service: string): View
      reads this, disk
    {
      ViewOf(OwnedBy(disk.Files(), owner, service))
    }

    /** Reload a service; if that fails it may be left running anything. */
    method Reload(service: string, ghost compensating: bool) returns (failure: Option<string>, ghost load: Load)
      requires Valid() && service in running
      modifies this`running, this`traces
      ensures Valid() && OthersAlone(service)
      ensures Slice(service) == LoadStep(old(Slice(service)), load, compensating)
      ensures failure == match load case Loaded => None case Stuck(_, output) => Some(output)
    {
      var ok: bool := *;
      var left: View := *;
      var output: string := *;
      traces := traces[service := traces[service] + [Reloaded(Seen(service), compensating, ok)]];
      if ok {
        running := running[service := Seen(service)];
        failure, load := None, Loaded;
      } else {
        running := running[service := left];
        failure, load := Some(output), Stuck(left, output);
      }
    }

    method Write(service: string, path: string, contents: string, mode: Mode)
      returns (ok: bool, ghost w: WriteOutcome)
      requires Valid() && service in running && owner(path) == service
      modifies disk, this`traces
      ensures Valid() && OthersAlone(service)
      ensures (ok <==> w.Written?) && Failed() >= old(Failed()) && (ok <==> Failed() == old(Failed()))
      ensures Slice(service) == ServiceState(
                AfterWrite(old(Slice(service)).files, path, Readable(contents, mode), w),
                old(Slice(service)).running,
                if ok then old(Slice(service)).trace + [Wrote(path)] else old(Slice(service)).trace)
    {
      ghost var before := disk.Files();
      var r;
      r, w := disk.WriteAtomic(path, contents, mode);
      ok := r.Ok?;
      forall s | s in running
        ensures OwnedBy(disk.Files(), owner, s)
             == if owner(path) == s then AfterWrite(OwnedBy(before, owner, s), path, Readable(contents, mode), w)
                else OwnedBy(before, owner, s)
      {
        OwnedAfterWrite(before, owner, s, path, Readable(contents, mode), w);
      }
      if ok {
        traces := traces[service := traces[service] + [Wrote(path)]];
      }
    }

    method Unlink(service: string, path: string) returns (r: Removal)
      requires Valid() && service in running && owner(path) == service
      modifies disk, this`traces
      ensures Valid() && OthersAlone(service)
      ensures r.NotFound? <==> path !in old(Slice(service)).files
      ensures Failed() == old(Failed()) + if r.Failed? then 1 else 0
      ensures !r.Gone? ==> Slice(service) == old(Slice(service))
      ensures r.Gone? ==> Slice(service) == ServiceState(
                old(Slice(service)).files - {path},
                old(Slice(service)).running,
                old(Slice(service)).trace + [Unlinked(path)])
    {
      ghost var before := disk.Files();
      ghost var names := disk.names;
      r := disk.RemoveFile(path);
      if r.Gone? {
        EntriesAfterRemoval(names, path);
        forall s | s in running
          ensures OwnedBy(disk.Files(), owner, s)
               == if owner(path) == s then OwnedBy(before, owner, s) - {path} else OwnedBy(before, owner, s)
        {
          OwnedAfterRemoval(before, owner, s, path);
        }
        traces := traces[service := traces[service] + [Unlinked(path)]];
      }
    }

    /**
     Put things back: write the snapshot, or remove what was not there before.  `undone` says
     whether that worked; the plan so far gains the outcome.
     */
    method Restore(service: string, op: Op, snapshot: Option<string>, ghost cause: EngineError, ghost after: bool, ghost plan: Plan)
      returns (undone: bool, ghost extended: Plan)
      requires Valid() && service in running && owner(op.path) == service
      modifies disk, this`traces
      ensures Valid() && OthersAlone(service)
      ensures Failed() >= old(Failed()) && (undone <==> Failed() == old(Failed()))
      ensures extended == plan.(undoWrite := extended.undoWrite, undoUnlink := extended.undoUnlink)
      ensures UndoStep(op, extended, old(Slice(service)), Undoing(snapshot, cause, after))
           == (Slice(service), AfterUndo(undone, cause, after))
    {
      match snapshot {
        case Some(contents) =>
          ghost var w;
          undone, w := Write(service, op.path, contents, op.mode);
          extended := plan.(undoWrite := w);
        case None =>
          var r := Unlink(service, op.path);
          undone := !r.Failed?;
          extended := plan.(undoUnlink := undone);
      }
    }

    /** The undo path: restore, then reload deliberately if the service may be half-way. */
    method Undo(service: string, op: Op, snapshot: Option<string>, cause: EngineError, reloadAfter: bool, ghost plan: Plan)
      returns (r: Reply, ghost extended: Plan)
      requires Valid() && service in running && owner(op.path) == service && IsRevert(cause)
      modifies disk, this`traces, this`running
      ensures Valid() && OthersAlone(service) && Blames(r)
      ensures SameUpToUndo(plan, extended)
      ensures Runs(envs(service), op, extended, Config(old(Slice(service)), revisions, Undoing(snapshot, cause, reloadAfter)),
                   Config(Slice(service), revisions, Returned(r)))
    {
      ghost var c0 := Config(Slice(service), revisions, Undoing(snapshot, cause, reloadAfter));
      var undone;
      ghost var sofar;
      undone, sofar := Restore(service, op, snapshot, cause, reloadAfter, plan);
      ghost var c1 := Config(Slice(service), revisions, AfterUndo(undone, cause, reloadAfter));
      r, extended := AfterRestoring(service, op, undone, cause, reloadAfter, sofar);
      ghost var end := Config(Slice(service), revisions, Returned(r));
      assert Runs(envs(service), op, extended, c0, end) by {
        SameUndoStep(op, sofar, extended, c0.svc, c0.stage);
        UndoStepIs(envs(service), op, extended, c0, c1);
        Prepend(envs(service), op, extended, c0, c1, end);
      }
    }

    /** What the outcome of the restoring leads to. */
    method AfterRestoring(service: string, op: Op, undone: bool, cause: EngineError, reloadAfter: bool, ghost plan: Plan)
      returns (r: Reply, ghost extended: Plan)
      requires Valid() && service in running
      modifies this`traces, this`running
      ensures Valid() && OthersAlone(service)
      ensures r == Refused(if undone then cause else IoFailed)
      ensures extended == plan.(recover := extended.recover)
      ensures Runs(envs(service), op, extended, Config(old(Slice(service)), revisions, AfterUndo(undone, cause, reloadAfter)),
                   Config(Slice(service), revisions, Returned(r)))
    {
      if undone && reloadAfter {
        r, extended := Recover(service, op, cause, plan);
      } else {
        r, extended := Refused(if undone then cause else IoFailed), plan;
        AlreadyBack(envs(service), op, extended, Config(Slice(service), revisions, Returned(r)));
      }
    }

    /** The deliberate reload after an undo; nobody asks how it went. */
    method Recover(service: string, op: Op, cause: EngineError, ghost plan: Plan) returns (r: Reply, ghost extended: Plan)
      requires Valid() && service in running
      modifies this`running, this`traces
      ensures Valid() && OthersAlone(service) && r == Refused(cause)
      ensures extended == plan.(recover := extended.recover)
      ensures Runs(envs(service), op, extended, Config(old(Slice(service)), revisions, Recovering(cause)),
                   Config(Slice(service), revisions, Returned(r)))
    {
      ghost var c0 := Config(Slice(service), revisions, Recovering(cause));
      var ignored;
      ghost var load;
      ignored, load := Reload(service, true);
      extended := plan.(recover := load);
      r := Refused(cause);
      RecoverRuns(envs(service), op, extended, c0, Config(Slice(service), revisions, Returned(r)));
    }

    /** Record what was put in place, so that it can be undone later. */
    method Record(service: string, op: Op, ghost plan: Plan) returns (r: Reply, ghost extended: Plan)
      requires Valid() && service in running && op.Apply?
      modifies this`revisions, this`storeFailures
      ensures Valid() && OthersAlone(service) && Blames(r)
      ensures extended == plan.(record := extended.record)
      ensures Runs(envs(service), op, extended, Config(old(Slice(service)), old(revisions), Recording),
                   Config(Slice(service), revisions, Returned(r)))
    {
      extended := plan;
      if !envs(service).keepsRevisions {
        r := Applied(true, None, true);
      } else {
        var ok := AskStore();
        extended := plan.(record := ok);
        if ok {
          var id := |revisions| + 1;
          revisions := revisions + [Revision(id, op.path, envs(service).hash(op.body), Contents(envs(service), op))];
          r := Applied(true, Some(id), true);
        } else {
          r := Refused(RevisionStoreFailed);
        }
      }
      ghost var c0 := Config(old(Slice(service)), old(revisions), Recording);
      ghost var c1 := Config(Slice(service), revisions, Returned(r));
      OneStep(envs(service), op, extended, c0);
      AlreadyBack(envs(service), op, extended, c1);
    }

    /** The revision store is asked to keep something; its answer is arbitrary. */
    method AskStore() returns (ok: bool)
      modifies this`storeFailures
      ensures storeFailures == old(storeFailures) + if ok then 0 else 1
    {
      ok := *;
      storeFailures := storeFailures + if ok then 0 else 1;
    }

    /** The post-check; its answer is arbitrary. */
    method Check(service: string) returns (failure: Option<string>)
      requires Valid() && service in running
      modifies this`traces
      ensures Valid() && OthersAlone(service)
      ensures Slice(service) == old(Slice(service)).(trace := old(Slice(service)).trace + [Checked(failure.None?)])
    {
      failure := *;
      traces := traces[service := traces[service] + [Checked(failure.None?)]];
    }

    /** What the answer of the check leads to. */
    method AfterCheck(service: string, op: Op, snapshot: Option<string>, failure: Option<string>, ghost plan: Plan)
      returns (r: Reply, ghost extended: Plan)
      requires Valid() && service in running && op.Apply? && owner(op.path) == service
      modifies disk, this`traces, this`running, this`revisions, this`storeFailures
      ensures Valid() && OthersAlone(service) && Blames(r)
      ensures SameUpToCheck(plan, extended)
      ensures Runs(envs(service), op, extended, Config(old(Slice(service)), old(revisions), CheckGoes(failure, snapshot)),
                   Config(Slice(service), revisions, Returned(r)))
    {
      match failure {
        case Some(output) => r, extended := Undo(service, op, snapshot, PostCheckFailed(output), true, plan);
        case None => r, extended := Record(service, op, plan);
      }
    }

    /** Ask the check, and do what its answer leads to. */
    method CheckThenRecord(service: string, op: Op, snapshot: Option<string>, ghost plan: Plan)
      returns (r: Reply, ghost extended: Plan)
      requires Valid() && service in running && op.Apply? && owner(op.path) == service
      modifies disk, this`traces, this`running, this`revisions, this`storeFailures
      ensures Valid() && OthersAlone(service) && Blames(r)
      ensures SameUpToReload(plan, extended)
      ensures Runs(envs(service), op, extended, Config(old(Slice(service)), old(revisions), Checking(snapshot)),
                   Config(Slice(service), revisions, Returned(r)))
    {
      ghost var c0 := Config(Slice(service), revisions, Checking(snapshot));
      var failure := Check(service);
      ghost var c1 := Config(Slice(service), revisions, CheckGoes(failure, snapshot));
      r, extended := AfterCheck(service, op, snapshot, failure, plan.(check := failure));
      ghost var end := Config(Slice(service), revisions, Returned(r));
      assert Runs(envs(service), op, extended, c0, end) by {
        CheckStepIs(envs(service), op, extended, c0, c1);
        Prepend(envs(service), op, extended, c0, c1, end);
      }
    }

    /** Prove that the change works, where there is a check, and record it. */
    method CheckAndRecord(service: string, op: Op, snapshot: Option<string>, ghost plan: Plan)
      returns (r: Reply, ghost extended: Plan)
      requires Valid() && service in running && op.Apply? && owner(op.path) == service
      modifies disk, this`traces, this`running, this`revisions, this`storeFailures
      ensures Valid() && OthersAlone(service) && Blames(r)
      ensures SameUpToReload(plan, extended)
      ensures Runs(envs(service), op, extended, Config(old(Slice(service)), old(revisions), AfterReload(op, snapshot)),
                   Config(Slice(service), revisions, Returned(r)))
    {
      if op.hasCheck {
        r, extended := CheckThenRecord(service, op, snapshot, plan);
      } else {
        r, extended := Record(service, op, plan);
      }
    }

    /** What the service's verdict on its files leads to. */
    method AfterValidation(service: string, op: Op, snapshot: Option<string>, complaint: Option<string>, ghost plan: Plan)
      returns (r: Reply, ghost extended: Plan)
      requires Valid() && service in running && owner(op.path) == service
      modifies disk, this`traces, this`running, this`revisions, this`storeFailures
      ensures Valid() && OthersAlone(service) && Blames(r)
      ensures SameStart(plan, extended)
      ensures Runs(envs(service), op, extended, Config(old(Slice(service)), old(revisions), ValidateGoes(complaint, snapshot)),
                   Config(Slice(service), revisions, Returned(r)))
    {
      match complaint {
        case Some(output) => r, extended := Undo(service, op, snapshot, ValidationFailed(output), false, plan);
        case None => r, extended := ReloadAndProve(service, op, snapshot, plan);
      }
    }

    /** The service looks at its files. */
    method Validate(service: string) returns (complaint: Option<string>)
      requires Valid() && service in running
      modifies this`traces
      ensures Valid() && OthersAlone(service)
      ensures var view := ViewOf(old(Slice(service)).files);
              && complaint == envs(service).complaint(view)
              && Slice(service) == old(Slice(service)).(trace := old(Slice(service)).trace + [Validated(view, complaint.None?)])
    {
      complaint := envs(service).complaint(Seen(service));
      traces := traces[service := traces[service] + [Validated(Seen(service), complaint.None?)]];
    }

    /** Validate, reload, and carry on; undo completely wherever the service disagrees. */
    method GoLive(service: string, op: Op, snapshot: Option<string>, ghost plan: Plan)
      returns (r: Reply, ghost extended: Plan)
      requires Valid() && service in running && owner(op.path) == service
      modifies disk, this`traces, this`running, this`revisions, this`storeFailures
      ensures Valid() && OthersAlone(service) && Blames(r)
      ensures SameStart(plan, extended)
      ensures Runs(envs(service), op, extended, Config(old(Slice(service)), old(revisions), Validating(snapshot)),
                   Config(Slice(service), revisions, Returned(r)))
    {
      ghost var c0 := Config(Slice(service), revisions, Validating(snapshot));
      var complaint := Validate(service);
      ghost var c1 := Config(Slice(service), revisions, ValidateGoes(complaint, snapshot));
      r, extended := AfterValidation(service, op, snapshot, complaint, plan);
      ghost var end := Config(Slice(service), revisions, Returned(r));
      assert Runs(envs(service), op, extended, c0, end) by {
        ValidateStepIs(envs(service), op, extended, c0, c1);
        Prepend(envs(service), op, extended, c0, c1, end);
      }
    }

    /** What the outcome of the reload leads to. */
    method AfterLoading(service: string, op: Op, snapshot: Option<string>, failure: Option<string>,
                        ghost load: Load, ghost plan: Plan)
      returns (r: Reply, ghost extended: Plan)
      requires Valid() && service in running && owner(op.path) == service
      requires failure == match load case Loaded => None case Stuck(_, output) => Some(output)
      modifies disk, this`traces, this`running, this`revisions, this`storeFailures
      ensures Valid() && OthersAlone(service) && Blames(r)
      ensures SameUpToReload(plan, extended)
      ensures Runs(envs(service), op, extended, Config(old(Slice(service)), old(revisions), ReloadGoes(op, load, snapshot)),
                   Config(Slice(service), revisions, Returned(r)))
    {
      match failure {
        case Some(output) =>
          r, extended := Undo(service, op, snapshot, ReloadFailed(output), true, plan);
        case None =>
          if op.Apply? {
            r, extended := CheckAndRecord(service, op, snapshot, plan);
          } else {
            r, extended := if op.Remove? then TakenAway(true) else RolledBack, plan;
            AlreadyBack(envs(service), op, extended, Config(Slice(service), revisions, Returned(r)));
          }
      }
    }

    method ReloadAndProve(service: string, op: Op, snapshot: Option<string>, ghost plan: Plan)
      returns (r: Reply, ghost extended: Plan)
      requires Valid() && service in running && owner(op.path) == service
      modifies disk, this`traces, this`running, this`revisions, this`storeFailures
      ensures Valid() && OthersAlone(service) && Blames(r)
      ensures SameStart(plan, extended)
      ensures Runs(envs(service), op, extended, Config(old(Slice(service)), old(revisions), Reloading(snapshot)),
                   Config(Slice(service), revisions, Returned(r)))
    {
      ghost var c0 := Config(Slice(service), revisions, Reloading(snapshot));
      var failure;
      ghost var load;
      failure, load := Reload(service, false);
      ghost var c1 := Config(Slice(service), revisions, ReloadGoes(op, load, snapshot));
      r, extended := AfterLoading(service, op, snapshot, failure, load, plan.(reload := load));
      ghost var end := Config(Slice(service), revisions, Returned(r));
      assert Runs(envs(service), op, extended, c0, end) by {
        ReloadStepIs(envs(service), op, extended, c0, c1);
        Prepend(envs(service), op, extended, c0, c1, end);
      }
    }

    /** The text at a path, when there is a file; `Err` when it is not text. */
    function SnapshotAt(path: string): Result<Option<string>, EngineError>
      reads this, disk
    {
      match Lookup(disk.Files(), path)
      case None => Ok(None)
      case Some(Readable(content, _)) => Ok(Some(content))
      case Some(Opaque(_)) => Err(IoFailed)
    }

    /** The first thing an apply does: `Some(reply)` when that is also the last. */
    method InspectForApply(service: string, op: Op) returns (answer: Option<Reply>, snapshot: Option<string>)
      requires Valid() && service in running && owner(op.path) == service && op.Apply?
      ensures InspectStep(envs(service), op, Slice(service))
           == match answer case Some(reply) => Returned(reply) case None => Writing(snapshot)
      ensures answer != Some(Refused(IoFailed)) && answer != Some(Refused(RevisionStoreFailed))
    {
      OwnedLookup(disk.Files(), owner, service, op.path);
      var at := Lookup(disk.Files(), op.path);
      answer, snapshot := None, None;
      match Inspect(envs(service).hash, at) {
        case Foreign =>
          answer := Some(Refused(ForeignFile));
        case Unreadable =>
          answer := Some(Refused(BadPath));
        case Drifted(_, _) =>
          if op.force {
            snapshot := Some(at.value.content);
          } else {
            var current := match BodyOf(at.value.content) case Some(b) => b case None => "";
            var diff := SimpleDiff(current, op.body);
            answer := Some(Refused(Drift(diff)));
          }
        case Managed(digest) =>
          if digest == envs(service).hash(op.body) && !op.force {
            answer := Some(Applied(false, None, false));
          } else {
            snapshot := Some(at.value.content);
          }
        case Absent =>
      }
    }

    /** Where a step of the write stage leads: on to the validation, or back to the caller. */
    method AfterWriting(service: string, op: Op, snapshot: Option<string>, refusal: Option<EngineError>, ghost plan: Plan)
      returns (r: Reply, ghost extended: Plan)
      requires Valid() && service in running && owner(op.path) == service
      modifies disk, this`traces, this`running, this`revisions, this`storeFailures
      ensures Valid() && OthersAlone(service)
      ensures refusal.None? ==> Blames(r)
      ensures refusal.Some? ==> r == Refused(refusal.value) && Failed() == old(Failed()) && storeFailures == old(storeFailures)
      ensures SameStart(plan, extended)
      ensures Runs(envs(service), op, extended, Config(old(Slice(service)), old(revisions), WriteGoes(refusal, snapshot)),
                   Config(Slice(service), revisions, Returned(r)))
    {
      match refusal {
        case Some(e) =>
          r, extended := Refused(e), plan;
          AlreadyBack(envs(service), op, extended, Config(Slice(service), revisions, Returned(r)));
        case None =>
          r, extended := GoLive(service, op, snapshot, plan);
      }
    }

    /** Write the new content and put it live. */
    method WriteAndGoLive(service: string, op: Op, snapshot: Option<string>) returns (r: Reply, ghost plan: Plan)
      requires Valid() && service in running && owner(op.path) == service && !op.Remove?
      modifies disk, this`traces, this`running, this`revisions, this`storeFailures
      ensures Valid() && OthersAlone(service) && Blames(r)
      ensures Runs(envs(service), op, plan, Config(old(Slice(service)), old(revisions), Writing(snapshot)),
                   Config(Slice(service), revisions, Returned(r)))
    {
      ghost var c0 := Config(Slice(service), revisions, Writing(snapshot));
      var ok;
      ghost var w;
      ok, w := Write(service, op.path, Contents(envs(service), op), op.mode);
      var refusal := if ok then None else Some(IoFailed);
      ghost var c1 := Config(Slice(service), revisions, WriteGoes(refusal, snapshot));
      r, plan := AfterWriting(service, op, snapshot, refusal, ANY_PLAN.(write := w));
      ghost var end := Config(Slice(service), revisions, Returned(r));
      assert Runs(envs(service), op, plan, c0, end) by {
        WriteStepIs(envs(service), op, plan, c0, c1);
        Prepend(envs(service), op, plan, c0, c1, end);
      }
    }

    /** The full apply sequence, for a rendered body. */
    method Apply(service: string, path: string, mode: Mode, style: CommentStyle, body: string, force: bool, hasCheck: bool)
      returns (r: Reply, ghost plan: Plan)
      requires Valid() && service in running && owner(path) == service
      modifies disk, this
      ensures Valid() && OthersAlone(service) && Blames(r)
      ensures locks == LockFor(old(locks), service).0
      ensures Do(envs(service), EngineModel.Apply(path, mode, style, body, force, hasCheck), plan,
                 old(Slice(service)), old(revisions))
           == Config(Slice(service), revisions, Returned(r))
    {
      var op := EngineModel.Apply(path, mode, style, body, force, hasCheck);
      var _ := LockOf(service);
      ghost var c0 := Config(Slice(service), revisions, Inspecting);
      var answer, snapshot := InspectForApply(service, op);
      match answer {
        case Some(reply) =>
          r, plan := reply, ANY_PLAN;
          EndsAtOnce(envs(service), op, plan, c0, reply);
        case None =>
          r, plan := WriteAndGoLive(service, op, snapshot);
          GoesOn(envs(service), op, plan, c0, snapshot, Config(Slice(service), revisions, Returned(r)));
      }
    }

    /** The rollback: the content of a recorded revision becomes the file, and goes live. */
    method Rollback(service: string, path: string, mode: Mode, revision: Revision) returns (r: Reply, ghost plan: Plan)
      requires Valid() && service in running && owner(path) == service
      modifies disk, this
      ensures Valid() && OthersAlone(service)
      ensures old(SnapshotAt(path)).Ok? ==> Blames(r)
      ensures locks == LockFor(old(locks), service).0
      ensures Do(envs(service), EngineModel.Rollback(path, mode, revision), plan, old(Slice(service)), old(revisions))
           == Config(Slice(service), revisions, Returned(r))
    {
      var op := EngineModel.Rollback(path, mode, revision);
      var _ := LockOf(service);
      ghost var c0 := Config(Slice(service), revisions, Inspecting);
      OwnedLookup(disk.Files(), owner, service, path);
      match SnapshotAt(path) {
        case Err(e) =>
          r, plan := Refused(e), ANY_PLAN;
          EndsAtOnce(envs(service), op, plan, c0, r);
        case Ok(snapshot) =>
          r, plan := WriteAndGoLive(service, op, snapshot);
          GoesOn(envs(service), op, plan, c0, snapshot, Config(Slice(service), revisions, Returned(r)));
      }
    }

    /** Delete the file if it is the panel's, drifted or not; say why not otherwise. */
    method UnlinkManaged(service: string, op: Op, ghost snapshot: Option<string>)
      returns (refusal: Option<EngineError>, ghost plan: Plan)
      requires Valid() && service in running && owner(op.path) == service && op.Remove?
      modifies disk, this`traces
      ensures Valid() && OthersAlone(service)
      ensures Failed() >= old(Failed()) && (refusal == Some(IoFailed) <==> Failed() > old(Failed()))
      ensures refusal != Some(RevisionStoreFailed)
      ensures WriteStep(envs(service), op, plan, old(Slice(service)), snapshot)
           == (Slice(service), WriteGoes(refusal, snapshot))
    {
      OwnedLookup(disk.Files(), owner, service, op.path);
      var state := Inspect(envs(service).hash, Lookup(disk.Files(), op.path));
      ghost var s0 := Slice(service);
      if state.Managed? || state.Drifted? {
        var removal := Unlink(service, op.path);
        plan := ANY_PLAN.(unlink := removal.Gone?);
        refusal := if removal.Gone? then None else Some(IoFailed);
        UnlinkGoes(envs(service), op, plan, s0, Slice(service), refusal, snapshot);
      } else {
        plan := ANY_PLAN;
        refusal := if state.Foreign? then Some(ForeignFile) else if state.Unreadable? then Some(BadPath) else None;
      }
    }

    /** Delete the file and put that live. */
    method UnlinkAndGoLive(service: string, op: Op, snapshot: Option<string>) returns (r: Reply, ghost plan: Plan)
      requires Valid() && service in running && owner(op.path) == service && op.Remove?
      modifies disk, this`traces, this`running, this`revisions, this`storeFailures
      ensures Valid() && OthersAlone(service) && Blames(r)
      ensures Runs(envs(service), op, plan, Config(old(Slice(service)), old(revisions), Writing(snapshot)),
                   Config(Slice(service), revisions, Returned(r)))
    {
      ghost var c0 := Config(Slice(service), revisions, Writing(snapshot));
      var refusal;
      ghost var sofar;
      refusal, sofar := UnlinkManaged(service, op, snapshot);
      ghost var c1 := Config(Slice(service), revisions, WriteGoes(refusal, snapshot));
      r, plan := AfterWriting(service, op, snapshot, refusal, sofar);
      ghost var end := Config(Slice(service), revisions, Returned(r));
      assert Runs(envs(service), op, plan, c0, end) by {
        SameWriteStep(envs(service), op, sofar, plan, c0.svc, snapshot);
        WriteStepIs(envs(service), op, plan, c0, c1);
        Prepend(envs(service), op, plan, c0, c1, end);
      }
    }

    /** The removal: unlink, then the same trial as a write has, with the same way back. */
    method Remove(service: string, path: string, mode: Mode) returns (r: Reply, ghost plan: Plan)
      requires Valid() && service in running && owner(path) == service
      modifies disk, this
      ensures Valid() && OthersAlone(service)
      ensures old(SnapshotAt(path)).Ok? ==> Blames(r)
      ensures locks == LockFor(old(locks), service).0
      ensures Do(envs(service), EngineModel.Remove(path, mode), plan, old(Slice(service)), old(revisions))
           == Config(Slice(service), revisions, Returned(r))
    {
      var op := EngineModel.Remove(path, mode);
      var _ := LockOf(service);
      ghost var c0 := Config(Slice(service), revisions, Inspecting);
      OwnedLookup(disk.Files(), owner, service, path);
      var found := SnapshotAt(path);
      if found.Ok? && found.value.Some? {
        r, plan := UnlinkAndGoLive(service, op, found.value);
        GoesOn(envs(service), op, plan, c0, found.value, Config(Slice(service), revisions, Returned(r)));
      } else {
        r, plan := if found.Ok? then TakenAway(false) else Refused(found.error), ANY_PLAN;
        EndsAtOnce(envs(service), op, plan, c0, r);
      }
    }
  }

  /** Where the outcomes of an operation are gathered while it runs. */
  ghost const ANY_PLAN := Plan(Written, true, Loaded, None, true, Written, true, Loaded)

  lemma OwnedLookup(files: Tree, owner: string -> string, service: string, path: string)
    requires owner(path) == service
    ensures Lookup(OwnedBy(files, owner, service), path) == Lookup(files, path)
  {
  }

  lemma InspectStepIs(env: Env, op: Op, plan: Plan, c0: Config, c1: Config)
    requires c0.stage.Inspecting? && c1 == Config(c0.svc, c0.revs, InspectStep(env, op, c0.svc))
    ensures Step(env, op, plan, c0) == c1
  {
  }

  /** The inspection is the first step, and the last. */
  lemma EndsAtOnce(env: Env, op: Op, plan: Plan, c0: Config, reply: Reply)
    requires c0.stage.Inspecting? && InspectStep(env, op, c0.svc) == Returned(reply)
    ensures Runs(env, op, plan, c0, Config(c0.svc, c0.revs, Returned(reply)))
  {
    var c1 := Config(c0.svc, c0.revs, Returned(reply));
    InspectStepIs(env, op, plan, c0, c1);
    AlreadyBack(env, op, plan, c1);
    Prepend(env, op, plan, c0, c1, c1);
  }

  /** The inspection lets the operation go on to its write. */
  lemma GoesOn(env: Env, op: Op, plan: Plan, c0: Config, snapshot: Option<string>, end: Config)
    requires c0.stage.Inspecting? && InspectStep(env, op, c0.svc) == Writing(snapshot)
    requires Runs(env, op, plan, Config(c0.svc, c0.revs, Writing(snapshot)), end)
    ensures Runs(env, op, plan, c0, end)
  {
    var c1 := Config(c0.svc, c0.revs, Writing(snapshot));
    InspectStepIs(env, op, plan, c0, c1);
    Prepend(env, op, plan, c0, c1, end);
  }

  lemma WriteStepIs(env: Env, op: Op, plan: Plan, c0: Config, c1: Config)
    requires c0.stage.Writing? && c1.revs == c0.revs
    requires WriteStep(env, op, plan, c0.svc, c0.stage.snapshot) == (c1.svc, c1.stage)
    ensures Step(env, op, plan, c0) == c1
  {
  }

  predicate SameStart(plan: Plan, extended: Plan) {
    extended.write == plan.write && extended.unlink == plan.unlink
  }

  predicate SameUpToReload(plan: Plan, extended: Plan) {
    SameStart(plan, extended) && extended.reload == plan.reload
  }

  predicate SameUpToCheck(plan: Plan, extended: Plan) {
    SameUpToReload(plan, extended) && extended.check == plan.check
  }

  predicate SameUpToUndo(plan: Plan, extended: Plan) {
    SameUpToCheck(plan, extended) && extended.record == plan.record
  }

  function WriteGoes(refusal: Option<EngineError>, snapshot: Option<string>): Stage {
    match refusal
    case None => Validating(snapshot)
    case Some(e) => Returned(Refused(e))
  }

  lemma UnlinkGoes(env: Env, op: Op, plan: Plan, s0: ServiceState, s1: ServiceState,
                   refusal: Option<EngineError>, snapshot: Option<string>)
    requires op.Remove?
    requires var state := Inspect(env.hash, Lookup(s0.files, op.path)); state.Managed? || state.Drifted?
    requires refusal == if plan.unlink then None else Some(IoFailed)
    requires s1 == if plan.unlink then s0.(files := s0.files - {op.path}, trace := s0.trace + [Unlinked(op.path)]) else s0
    ensures WriteStep(env, op, plan, s0, snapshot) == (s1, WriteGoes(refusal, snapshot))
  {
  }

  /** The write stage depends on nothing later in the plan. */
  lemma SameWriteStep(env: Env, op: Op, plan: Plan, extended: Plan, svc: ServiceState, snapshot: Option<string>)
    requires SameStart(plan, extended)
    ensures WriteStep(env, op, extended, svc, snapshot) == WriteStep(env, op, plan, svc, snapshot)
  {
  }

  /** Nor does the undo on what the reload after it does. */
  lemma SameUndoStep(op: Op, plan: Plan, extended: Plan, svc: ServiceState, stage: Stage)
    requires stage.Undoing? && extended == plan.(recover := extended.recover)
    ensures UndoStep(op, extended, svc, stage) == UndoStep(op, plan, svc, stage)
  {
  }

  function CheckGoes(failure: Option<string>, snapshot: Option<string>): Stage {
    match failure
    case None => Recording
    case Some(output) => Undoing(snapshot, PostCheckFailed(output), true)
  }

  function ValidateGoes(complaint: Option<string>, snapshot: Option<string>): Stage {
    match complaint
    case None => Reloading(snapshot)
    case Some(output) => Undoing(snapshot, ValidationFailed(output), false)
  }

  function ReloadGoes(op: Op, load: Load, snapshot: Option<string>): Stage {
    match load
    case Loaded => AfterReload(op, snapshot)
    case Stuck(_, output) => Undoing(snapshot, ReloadFailed(output), true)
  }

  lemma CheckStepIs(env: Env, op: Op, plan: Plan, c0: Config, c1: Config)
    requires c0.stage.Checking? && c1.stage == CheckGoes(plan.check, c0.stage.snapshot) && c1.revs == c0.revs
    requires c1.svc == c0.svc.(trace := c0.svc.trace + [Checked(plan.check.None?)])
    ensures Step(env, op, plan, c0) == c1
  {
  }

  lemma ValidateStepIs(env: Env, op: Op, plan: Plan, c0: Config, c1: Config)
    requires c0.stage.Validating? && c1.revs == c0.revs
    requires var view := ViewOf(c0.svc.files);
             && c1.stage == ValidateGoes(env.complaint(view), c0.stage.snapshot)
             && c1.svc == c0.svc.(trace := c0.svc.trace + [Validated(view, env.complaint(view).None?)])
    ensures Step(env, op, plan, c0) == c1
  {
  }

  lemma ReloadStepIs(env: Env, op: Op, plan: Plan, c0: Config, c1: Config)
    requires c0.stage.Reloading? && c1.revs == c0.revs
    requires c1.stage == ReloadGoes(op, plan.reload, c0.stage.snapshot)
    requires c1.svc == LoadStep(c0.svc, plan.reload, false)
    ensures Step(env, op, plan, c0) == c1
  {
  }

  lemma Prepend(env: Env, op: Op, plan: Plan, c0: Config, c1: Config, end: Config)
    requires !c0.stage.Returned? && Step(env, op, plan, c0) == c1 && Runs(env, op, plan, c1, end)
    ensures Runs(env, op, plan, c0, end)
  {
    OneStep(env, op, plan, c0);
  }

  lemma OneStep(env: Env, op: Op, plan: Plan, c: Config)
    requires !c.stage.Returned?
    ensures Finish(env, op, plan, c) == Finish(env, op, plan, Step(env, op, plan, c))
  {
  }

  lemma AlreadyBack(env: Env, op: Op, plan: Plan, c: Config)
    requires c.stage.Returned?
    ensures Finish(env, op, plan, c) == c
  {
  }

  lemma UndoStepIs(env: Env, op: Op, plan: Plan, c0: Config, c1: Config)
    requires c0.stage.Undoing? && UndoStep(op, plan, c0.svc, c0.stage) == (c1.svc, c1.stage) && c1.revs == c0.revs
    ensures Step(env, op, plan, c0) == c1
  {
  }

  lemma RecoverRuns(env: Env, op: Op, plan: Plan, c0: Config, end: Config)
    requires c0.stage.Recovering?
    requires end == Config(LoadStep(c0.svc, plan.recover, true), c0.revs, Returned(Refused(c0.stage.cause)))
    ensures Runs(env, op, plan, c0, end)
  {
    OneStep(env, op, plan, c0);
    AlreadyBack(env, op, plan, end);
  }
}
