/**
 A human with an editor against the engine, step by step: an edit may land between any two
 steps of an operation, and the question is whether it is still there when the operation is over.
 */
module EngineEdits {
  import opened Text
  import opened ManagedFile
  import opened Disk
  import opened EngineModel
  import opened EngineLaws

  // ----------------------------------------------------------------- what the rest of an operation writes

  /** The last thing the steps still ahead put at the path: nothing at all, or a file, or its absence. */
  datatype Put = Nothing | Puts(at: Option<Entry>)

  /** What an undo restores. */
  function Restored(op: Op, snapshot: Option<string>): Option<Entry> {
    match snapshot
    case Some(content) => Some(Readable(content, op.mode))
    case None => None
  }

  function UndoPuts(op: Op, plan: Plan, files: Tree, snapshot: Option<string>): Put {
    match snapshot
    case Some(_) => if plan.undoWrite.Written? then Puts(Restored(op, snapshot)) else Nothing
    case None => if op.path in files && plan.undoUnlink then Puts(None) else Nothing
  }

  predicate CheckFails(op: Op, plan: Plan) {
    op.Apply? && op.hasCheck && plan.check.Some?
  }

  predicate ServiceObjects(env: Env, op: Op, plan: Plan, files: Tree) {
    env.complaint(ViewOf(files)).Some? || plan.reload.Stuck? || CheckFails(op, plan)
  }

  /** From the validation on, the path is written again only if the service objects. */
  function ValidatedPuts(env: Env, op: Op, plan: Plan, files: Tree, snapshot: Option<string>): Put {
    if ServiceObjects(env, op, plan, files) then UndoPuts(op, plan, files, snapshot) else Nothing
  }

  function Otherwise(later: Put, sooner: Put): Put {
    if later.Puts? then later else sooner
  }

  function WritePuts(env: Env, op: Op, plan: Plan, files: Tree, snapshot: Option<string>): Put {
    if op.Remove? then
      var state := Inspect(env.hash, Lookup(files, op.path));
      if state.Absent? then ValidatedPuts(env, op, plan, files, snapshot)
      else if state.Foreign? || state.Unreadable? || !plan.unlink then Nothing
      else Otherwise(ValidatedPuts(env, op, plan, files - {op.path}, snapshot), Puts(None))
    else if plan.write.NotWritten? then Nothing
    else
      var entry := Readable(Contents(env, op), op.mode);
      Otherwise(ValidatedPuts(env, op, plan, AfterWrite(files, op.path, entry, Written), snapshot), Puts(Some(entry)))
  }

  /** What an operation that stands at this stage will still put at its path. */
  function LastPut(env: Env, op: Op, plan: Plan, c: Config): Put {
    match c.stage
    case Inspecting =>
      (match InspectStep(env, op, c.svc)
       case Writing(snapshot) => WritePuts(env, op, plan, c.svc.files, snapshot)
       case _ => Nothing)
    case Writing(snapshot) => WritePuts(env, op, plan, c.svc.files, snapshot)
    case Validating(snapshot) => ValidatedPuts(env, op, plan, c.svc.files, snapshot)
    case Reloading(snapshot) =>
      if plan.reload.Stuck? || CheckFails(op, plan) then UndoPuts(op, plan, c.svc.files, snapshot) else Nothing
    case Checking(snapshot) => if plan.check.Some? then UndoPuts(op, plan, c.svc.files, snapshot) else Nothing
    case Undoing(snapshot, _, _) => UndoPuts(op, plan, c.svc.files, snapshot)
    case _ => Nothing
  }

  function Left(env: Env, op: Op, plan: Plan, c: Config): Option<Entry> {
    match LastPut(env, op, plan, c)
    case Nothing => Lookup(c.svc.files, op.path)
    case Puts(at) => at
  }

  predicate Touches(e: Event, path: string) {
    e == Wrote(path) || e == Unlinked(path)
  }

  predicate Touched(events: seq<Event>, path: string) {
    exists i :: 0 <= i < |events| && Touches(events[i], path)
  }

  /** One step, as far as the path is concerned: it grows the trace, and says so when it writes the path. */
  predicate Moves(env: Env, op: Op, plan: Plan, c: Config, next: Config) {
    && (next.svc.trace == c.svc.trace
        || (next.svc.trace != [] && next.svc.trace[..|next.svc.trace| - 1] == c.svc.trace))
    && Left(env, op, plan, next) == Left(env, op, plan, c)
    && (LastPut(env, op, plan, c).Puts? <==>
          || LastPut(env, op, plan, next).Puts?
          || (next.svc.trace != c.svc.trace && Touches(next.svc.trace[|next.svc.trace| - 1], op.path)))
  }

  lemma InspectMoves(env: Env, op: Op, plan: Plan, c: Config)
    requires c.stage.Inspecting?
    ensures Moves(env, op, plan, c, Step(env, op, plan, c))
  {
    var stage := InspectStep(env, op, c.svc);
    assert Step(env, op, plan, c) == c.(stage := stage);
  }

  lemma WriteMoves(env: Env, op: Op, plan: Plan, c: Config)
    requires c.stage.Writing? && !op.Remove?
    ensures Moves(env, op, plan, c, Step(env, op, plan, c))
  {
    WriteElsewhere(c.svc.files, op.path, Readable(Contents(env, op), op.mode), plan.write);
  }

  lemma UnlinkMoves(env: Env, op: Op, plan: Plan, c: Config)
    requires c.stage.Writing? && op.Remove?
    ensures Moves(env, op, plan, c, Step(env, op, plan, c))
  {
  }

  lemma ValidateMoves(env: Env, op: Op, plan: Plan, c: Config)
    requires c.stage.Validating?
    ensures Moves(env, op, plan, c, Step(env, op, plan, c))
  {
  }

  lemma ReloadMoves(env: Env, op: Op, plan: Plan, c: Config)
    requires c.stage.Reloading?
    ensures Moves(env, op, plan, c, Step(env, op, plan, c))
  {
  }

  lemma CheckMoves(env: Env, op: Op, plan: Plan, c: Config)
    requires c.stage.Checking?
    ensures Moves(env, op, plan, c, Step(env, op, plan, c))
  {
  }

  lemma UndoMoves(env: Env, op: Op, plan: Plan, c: Config)
    requires c.stage.Undoing?
    ensures Moves(env, op, plan, c, Step(env, op, plan, c))
  {
    match c.stage.snapshot
    case Some(content) => WriteElsewhere(c.svc.files, op.path, Readable(content, op.mode), plan.undoWrite);
    case None =>
  }

  lemma StepMoves(env: Env, op: Op, plan: Plan, c: Config)
    requires !c.stage.Returned?
    ensures Moves(env, op, plan, c, Step(env, op, plan, c))
  {
    match c.stage
    case Inspecting => InspectMoves(env, op, plan, c);
    case Writing(_) =>
      if op.Remove? {
        UnlinkMoves(env, op, plan, c);
      } else {
        WriteMoves(env, op, plan, c);
      }
    case Validating(_) => ValidateMoves(env, op, plan, c);
    case Reloading(_) => ReloadMoves(env, op, plan, c);
    case Checking(_) => CheckMoves(env, op, plan, c);
    case Undoing(_, _, _) => UndoMoves(env, op, plan, c);
    case _ =>
  }

  lemma TouchedLater(a: seq<Event>, b: seq<Event>, c: seq<Event>, path: string)
    requires |a| <= |b| <= |c| && b[..|a|] == a && c[..|b|] == b
    ensures c[..|a|] == a
    ensures Touched(Since(c, |a|), path) <==> Touched(Since(b, |a|), path) || Touched(Since(c, |b|), path)
  {
    assert c[..|a|] == b[..|a|];
    var x, y := Since(b, |a|), Since(c, |b|);
    assert Since(c, |a|) == x + y;
    if Touched(x, path) {
      var i :| 0 <= i < |x| && Touches(x[i], path);
      assert (x + y)[i] == x[i];
    }
    if Touched(y, path) {
      var i :| 0 <= i < |y| && Touches(y[i], path);
      assert (x + y)[|x| + i] == y[i];
    }
  }

  lemma TouchedNow(a: seq<Event>, b: seq<Event>, path: string)
    requires b == a || (b != [] && b[..|b| - 1] == a)
    ensures |a| <= |b| && b[..|a|] == a
    ensures Touched(Since(b, |a|), path) <==> b != a && Touches(b[|b| - 1], path)
  {
    if b != a {
      assert Since(b, |a|) == [b[|b| - 1]];
      assert Touches(b[|b| - 1], path) ==> Touches(Since(b, |a|)[0], path);
    }
  }

  /** What an operation leaves at its path, from any stage on, and when it writes the path at all. */
  lemma {:induction false} FinishLeaves(env: Env, op: Op, plan: Plan, c: Config)
    ensures var done := Finish(env, op, plan, c);
            && Lookup(done.svc.files, op.path) == Left(env, op, plan, c)
            && |c.svc.trace| <= |done.svc.trace|
            && done.svc.trace[..|c.svc.trace|] == c.svc.trace
            && (Touched(Since(done.svc.trace, |c.svc.trace|), op.path) <==> LastPut(env, op, plan, c).Puts?)
    decreases Remaining(c.stage)
  {
    if c.stage.Returned? {
      assert Since(c.svc.trace, |c.svc.trace|) == [];
    } else {
      var next := Step(env, op, plan, c);
      StepsRunOut(env, op, plan, c);
      StepMoves(env, op, plan, c);
      TouchedNow(c.svc.trace, next.svc.trace, op.path);
      FinishLeaves(env, op, plan, next);
      TouchedLater(c.svc.trace, next.svc.trace, Finish(env, op, plan, c).svc.trace, op.path);
    }
  }

  // ----------------------------------------------------------------- when an edit remains

  function WithEdit(c: Config, path: string, edit: Option<Entry>): Config {
    c.(svc := Edited(c.svc, path, edit))
  }

  /**
   An edit of the path that lands at any stage of any operation is what the operation leaves
   exactly when no later step of it writes the path, or the last one to do so happens to write
   the very same.  Whether one does can be told beforehand, stage by stage: `LastPut`.
   */
  lemma EditRemainsExactlyWhen(env: Env, op: Op, plan: Plan, c: Config, edit: Option<Entry>)
    ensures var at := WithEdit(c, op.path, edit);
            var done := Finish(env, op, plan, at);
            var put := LastPut(env, op, plan, at);
            && (Lookup(done.svc.files, op.path) == edit <==> put.Nothing? || put.at == edit)
            && |c.svc.trace| <= |done.svc.trace|
            && (put.Nothing? <==> !Touched(Since(done.svc.trace, |c.svc.trace|), op.path))
  {
    FinishLeaves(env, op, plan, WithEdit(c, op.path, edit));
  }

  /** The operation is past its write, and still answerable to the service. */
  predicate OnTrial(stage: Stage) {
    stage.Validating? || stage.Reloading? || stage.Checking?
  }

  /** The answers with which nothing that was written is taken back. */
  predicate KeepsFiles(reply: Reply) {
    Success(reply) || reply == Refused(RevisionStoreFailed)
  }

  /** The operation is, or is about to be, on its way back. */
  predicate TurnsBack(env: Env, op: Op, plan: Plan, c: Config) {
    match c.stage
    case Validating(_) => ServiceObjects(env, op, plan, c.svc.files)
    case Reloading(_) => plan.reload.Stuck? || CheckFails(op, plan)
    case Checking(_) => plan.check.Some?
    case Recording => false
    case Returned(reply) => !KeepsFiles(reply)
    case _ => true
  }

  predicate Reverting(stage: Stage) {
    || (stage.Undoing? && IsRevert(stage.cause))
    || (stage.Recovering? && IsRevert(stage.cause))
  }

  lemma TrialStep(env: Env, op: Op, plan: Plan, c: Config)
    requires OnTrial(c.stage) || c.stage.Recording? || Reverting(c.stage)
    ensures var next := Step(env, op, plan, c);
            && (OnTrial(next.stage) || next.stage.Recording? || Reverting(next.stage) || next.stage.Returned?)
            && (TurnsBack(env, op, plan, next) <==> TurnsBack(env, op, plan, c))
  {
  }

  lemma {:induction false} TrialEnds(env: Env, op: Op, plan: Plan, c: Config)
    requires OnTrial(c.stage) || c.stage.Recording? || Reverting(c.stage) || c.stage.Returned?
    ensures KeepsFiles(Finish(env, op, plan, c).stage.reply) <==> !TurnsBack(env, op, plan, c)
    decreases Remaining(c.stage)
  {
    if !c.stage.Returned? {
      StepsRunOut(env, op, plan, c);
      TrialStep(env, op, plan, c);
      TrialEnds(env, op, plan, Step(env, op, plan, c));
    }
  }

  /**
   An edit that lands after the rename remains exactly when the answer is a success, or only
   the recording failed; any other answer comes with the old text written over the edit.
   */
  lemma EditOnTrialRemainsExactlyWhen(env: Env, op: Op, plan: Plan, c: Config, edit: Option<Entry>)
    requires OnTrial(c.stage) && UndoWorks(plan) && edit != Restored(op, c.stage.snapshot)
    ensures var done := Finish(env, op, plan, WithEdit(c, op.path, edit));
            && (Lookup(done.svc.files, op.path) == edit <==> KeepsFiles(done.stage.reply))
            && (!KeepsFiles(done.stage.reply) ==>
                  Lookup(done.svc.files, op.path) == Restored(op, c.stage.snapshot))
  {
    var at := WithEdit(c, op.path, edit);
    EditRemainsExactlyWhen(env, op, plan, c, edit);
    FinishLeaves(env, op, plan, at);
    TrialEnds(env, op, plan, at);
  }

  /** An edit that lands between the inspection and the rename never remains, if the write works. */
  lemma EditBeforeTheRenameNeverRemains(env: Env, op: Op, plan: Plan, c: Config, edit: Option<Entry>)
    requires c.stage.Writing? && !op.Remove? && plan.write.Written?
    requires edit != Some(Readable(Contents(env, op), op.mode)) && edit != Restored(op, c.stage.snapshot)
    ensures Lookup(Finish(env, op, plan, WithEdit(c, op.path, edit)).svc.files, op.path) != edit
  {
    EditRemainsExactlyWhen(env, op, plan, c, edit);
  }

  /** Once nothing but recording or the compensating reload is left, an edit always remains. */
  lemma EditAtTheEndRemains(env: Env, op: Op, plan: Plan, c: Config, edit: Option<Entry>)
    requires c.stage.Recording? || c.stage.Recovering? || c.stage.Returned?
    ensures Lookup(Finish(env, op, plan, WithEdit(c, op.path, edit)).svc.files, op.path) == edit
  {
    EditRemainsExactlyWhen(env, op, plan, c, edit);
  }

  // ----------------------------------------------------------------- runs, one step at a time

  /** The operation under way, and how far it has come. */
  datatype Job = Job(op: Op, plan: Plan, stage: Stage)

  datatype Desk = Desk(svc: ServiceState, revs: seq<Revision>, job: Option<Job>)

  /** The engine begins an operation, takes its next step, or a human edits a file. */
  datatype Move = Begin(op: Op, plan: Plan) | Go | Human(path: string, now: Option<Entry>)

  predicate AtRest(d: Desk) {
    d.job.None? || d.job.value.stage.Returned?
  }

  /** One move; one that is not possible changes nothing. */
  function MoveOn(env: Env, d: Desk, m: Move): Desk {
    match m
    case Begin(op, plan) => if AtRest(d) then d.(job := Some(Job(op, plan, Inspecting))) else d
    case Go =>
      if AtRest(d) then d
      else
        var job := d.job.value;
        var c := Step(env, job.op, job.plan, Config(d.svc, d.revs, job.stage));
        Desk(c.svc, c.revs, Some(job.(stage := c.stage)))
    case Human(path, now) => d.(svc := Edited(d.svc, path, now))
  }

  function Play(env: Env, d: Desk, moves: seq<Move>): Desk
    decreases |moves|
  {
    if moves == [] then d else Play(env, MoveOn(env, d, moves[0]), moves[1..])
  }

  lemma PlayCons(env: Env, d: Desk, m: Move, moves: seq<Move>)
    ensures Play(env, d, [m] + moves) == Play(env, MoveOn(env, d, m), moves)
  {
    assert ([m] + moves)[1..] == moves;
  }

  function Steps(n: nat): seq<Move> {
    if n == 0 then [] else [Go] + Steps(n - 1)
  }

  function Busy(op: Op, plan: Plan, c: Config): Desk {
    Desk(c.svc, c.revs, Some(Job(op, plan, c.stage)))
  }

  /** Left alone, the steps of an operation are the operation. */
  lemma {:induction false} StepsFinish(env: Env, op: Op, plan: Plan, c: Config, n: nat)
    requires Remaining(c.stage) <= n
    ensures Play(env, Busy(op, plan, c), Steps(n)) == Busy(op, plan, Finish(env, op, plan, c))
    decreases n
  {
    if n > 0 {
      PlayCons(env, Busy(op, plan, c), Go, Steps(n - 1));
      if c.stage.Returned? {
        StepsFinish(env, op, plan, c, n - 1);
      } else {
        StepsRunOut(env, op, plan, c);
        StepsFinish(env, op, plan, Step(env, op, plan, c), n - 1);
      }
    }
  }

  /** So a run of whole operations is one of these runs, move by move. */
  lemma OperationIsItsSteps(env: Env, d: Desk, op: Op, plan: Plan)
    requires AtRest(d)
    ensures Play(env, d, [Begin(op, plan)] + Steps(7)) == Busy(op, plan, Do(env, op, plan, d.svc, d.revs))
  {
    PlayCons(env, d, Begin(op, plan), Steps(7));
    StepsFinish(env, op, plan, Config(d.svc, d.revs, Inspecting), 7);
  }

  // -- files the engine has to ask about

  /** A file the panel must not touch: not without asking, or (`foreign`) not at all. */
  predicate Shielded(env: Env, files: Tree, path: string, foreign: bool) {
    if foreign then SomebodyElses(env, files, path) else NotOurs(env, files, path)
  }

  /** Unforced applies ask about any such file; applies and removals of every kind about a foreign one. */
  predicate Asks(op: Op, path: string, foreign: bool) {
    && Staging(op.path) != path
    && if foreign then !op.Rollback? else op.Apply? && !op.force
  }

  predicate Respects(m: Move, path: string, foreign: bool) {
    match m
    case Begin(op, _) => Asks(op, path, foreign)
    case Go => true
    case Human(p, _) => p != path
  }

  predicate AllRespect(moves: seq<Move>, path: string, foreign: bool) {
    forall i :: 0 <= i < |moves| ==> Respects(moves[i], path, foreign)
  }

  /** If an operation is under way on this very path, none of its steps ahead writes there unasked. */
  predicate Harmless(job: Job, path: string, foreign: bool) {
    && Asks(job.op, path, foreign)
    && (job.op.path == path ==>
          || job.stage.Inspecting? || job.stage.Recording? || job.stage.Recovering? || job.stage.Returned?
          || (job.stage.Writing? && job.op.Remove?))
  }

  predicate Safe(env: Env, d: Desk, path: string, foreign: bool) {
    Shielded(env, d.svc.files, path, foreign) && (d.job.Some? ==> Harmless(d.job.value, path, foreign))
  }

  lemma WriteStepElsewhere(env: Env, op: Op, plan: Plan, svc: ServiceState, snapshot: Option<string>)
    ensures SameElsewhere(svc.files, WriteStep(env, op, plan, svc, snapshot).0.files, op.path)
  {
    if !op.Remove? {
      WriteElsewhere(svc.files, op.path, Readable(Contents(env, op), op.mode), plan.write);
    }
  }

  lemma UndoStepElsewhere(op: Op, plan: Plan, svc: ServiceState, stage: Stage)
    requires stage.Undoing?
    ensures SameElsewhere(svc.files, UndoStep(op, plan, svc, stage).0.files, op.path)
  {
    if stage.snapshot.Some? {
      WriteElsewhere(svc.files, op.path, Readable(stage.snapshot.value, op.mode), plan.undoWrite);
    }
  }

  lemma StepElsewhere(env: Env, op: Op, plan: Plan, c: Config)
    requires !c.stage.Returned?
    ensures SameElsewhere(c.svc.files, Step(env, op, plan, c).svc.files, op.path)
  {
    match c.stage
    case Writing(snapshot) => WriteStepElsewhere(env, op, plan, c.svc, snapshot);
    case Undoing(_, _, _) => UndoStepElsewhere(op, plan, c.svc, c.stage);
    case _ =>
  }

  lemma InspectAsks(env: Env, op: Op, svc: ServiceState, foreign: bool)
    requires Asks(op, op.path, foreign) && Shielded(env, svc.files, op.path, foreign)
    ensures var stage := InspectStep(env, op, svc); stage.Returned? || op.Remove?
  {
  }

  lemma RemovalAsks(env: Env, op: Op, plan: Plan, svc: ServiceState, snapshot: Option<string>)
    requires op.Remove? && SomebodyElses(env, svc.files, op.path)
    ensures WriteStep(env, op, plan, svc, snapshot).0 == svc && WriteStep(env, op, plan, svc, snapshot).1.Returned?
  {
  }

  lemma InspectingAsks(env: Env, op: Op, plan: Plan, c: Config, foreign: bool)
    requires c.stage.Inspecting? && Asks(op, op.path, foreign) && Shielded(env, c.svc.files, op.path, foreign)
    ensures var next := Step(env, op, plan, c);
            next.svc == c.svc && Harmless(Job(op, plan, next.stage), op.path, foreign)
  {
    InspectAsks(env, op, c.svc, foreign);
    assert Step(env, op, plan, c) == c.(stage := InspectStep(env, op, c.svc));
  }

  lemma RemovingAsks(env: Env, op: Op, plan: Plan, c: Config, foreign: bool)
    requires c.stage.Writing? && op.Remove? && Asks(op, op.path, foreign) && SomebodyElses(env, c.svc.files, op.path)
    ensures var next := Step(env, op, plan, c);
            next.svc == c.svc && Harmless(Job(op, plan, next.stage), op.path, foreign)
  {
    RemovalAsks(env, op, plan, c.svc, c.stage.snapshot);
  }

  lemma EndingAsks(env: Env, op: Op, plan: Plan, c: Config, foreign: bool)
    requires (c.stage.Recording? || c.stage.Recovering?) && Asks(op, op.path, foreign)
    ensures var next := Step(env, op, plan, c);
            next.svc.files == c.svc.files && Harmless(Job(op, plan, next.stage), op.path, foreign)
  {
  }

  lemma StepAsks(env: Env, op: Op, plan: Plan, c: Config, foreign: bool)
    requires !c.stage.Returned? && Harmless(Job(op, plan, c.stage), op.path, foreign)
    requires Shielded(env, c.svc.files, op.path, foreign)
    ensures var next := Step(env, op, plan, c);
            next.svc.files == c.svc.files && Harmless(Job(op, plan, next.stage), op.path, foreign)
  {
    if c.stage.Inspecting? {
      InspectingAsks(env, op, plan, c, foreign);
    } else if c.stage.Writing? {
      RemovingAsks(env, op, plan, c, foreign);
    } else {
      EndingAsks(env, op, plan, c, foreign);
    }
  }

  lemma GoIsSafe(env: Env, d: Desk, path: string, foreign: bool)
    requires Safe(env, d, path, foreign)
    ensures var next := MoveOn(env, d, Go);
            Safe(env, next, path, foreign) && Lookup(next.svc.files, path) == Lookup(d.svc.files, path)
  {
    if !AtRest(d) {
      var job := d.job.value;
      var c := Config(d.svc, d.revs, job.stage);
      if job.op.path == path {
        StepAsks(env, job.op, job.plan, c, foreign);
      } else {
        StepElsewhere(env, job.op, job.plan, c);
        ElsewhereLookup(c.svc.files, Step(env, job.op, job.plan, c).svc.files, job.op.path, path);
      }
    }
  }

  /**
   Over every run in which operations and edits are interleaved step by step, a file that a
   human has edited keeps its bytes and its mode through all unforced applies, and a foreign
   file through all applies and removals, whatever happens to other files in mid-operation;
   all it takes is that no operation was already on its way to write this very file.
   */
  lemma {:induction false} FileSurvivesEveryStep(env: Env, d: Desk, moves: seq<Move>, path: string, foreign: bool)
    requires Safe(env, d, path, foreign) && AllRespect(moves, path, foreign)
    ensures Lookup(Play(env, d, moves).svc.files, path) == Lookup(d.svc.files, path)
    decreases |moves|
  {
    if moves != [] {
      assert Respects(moves[0], path, foreign);
      if moves[0].Go? {
        GoIsSafe(env, d, path, foreign);
      }
      FileSurvivesEveryStep(env, MoveOn(env, d, moves[0]), moves[1..], path, foreign);
    }
  }

  // -- files nobody writes

  predicate LeavesToItself(m: Move, path: string) {
    match m
    case Begin(op, _) => Staging(op.path) != path
    case Go => true
    case Human(p, _) => p != path
  }

  predicate AllLeave(moves: seq<Move>, path: string) {
    forall i :: 0 <= i < |moves| ==> LeavesToItself(moves[i], path)
  }

  /** The trace says so whenever a file other than a staging file is changed. */
  predicate Accounted(a: ServiceState, b: ServiceState, path: string) {
    && |a.trace| <= |b.trace| && b.trace[..|a.trace|] == a.trace
    && (Touched(Since(b.trace, |a.trace|), path) || Lookup(b.files, path) == Lookup(a.files, path))
  }

  /** Either the file is as it was, or the last event is its writing or removal. */
  predicate Recorded(a: ServiceState, b: ServiceState, path: string) {
    && (b.trace == a.trace || (b.trace != [] && b.trace[..|b.trace| - 1] == a.trace))
    && (Lookup(b.files, path) == Lookup(a.files, path)
        || (b.trace != a.trace && Touches(b.trace[|b.trace| - 1], path)))
  }

  lemma WriteRecorded(env: Env, op: Op, plan: Plan, svc: ServiceState, snapshot: Option<string>)
    ensures Recorded(svc, WriteStep(env, op, plan, svc, snapshot).0, op.path)
  {
    if !op.Remove? {
      WriteElsewhere(svc.files, op.path, Readable(Contents(env, op), op.mode), plan.write);
    }
  }

  lemma UndoRecorded(op: Op, plan: Plan, svc: ServiceState, stage: Stage)
    requires stage.Undoing?
    ensures Recorded(svc, UndoStep(op, plan, svc, stage).0, op.path)
  {
    if stage.snapshot.Some? {
      WriteElsewhere(svc.files, op.path, Readable(stage.snapshot.value, op.mode), plan.undoWrite);
    }
  }

  lemma StepRecorded(env: Env, op: Op, plan: Plan, c: Config)
    requires !c.stage.Returned?
    ensures Recorded(c.svc, Step(env, op, plan, c).svc, op.path)
  {
    match c.stage
    case Writing(snapshot) => WriteRecorded(env, op, plan, c.svc, snapshot);
    case Undoing(_, _, _) => UndoRecorded(op, plan, c.svc, c.stage);
    case _ =>
  }

  lemma GoIsAccounted(env: Env, d: Desk, path: string)
    requires d.job.Some? ==> Staging(d.job.value.op.path) != path
    ensures Accounted(d.svc, MoveOn(env, d, Go).svc, path)
  {
    if !AtRest(d) {
      var job := d.job.value;
      var c := Config(d.svc, d.revs, job.stage);
      var next := Step(env, job.op, job.plan, c);
      StepRecorded(env, job.op, job.plan, c);
      TouchedNow(d.svc.trace, next.svc.trace, path);
      if job.op.path != path {
        StepElsewhere(env, job.op, job.plan, c);
        ElsewhereLookup(c.svc.files, next.svc.files, job.op.path, path);
      }
    }
  }

  /**
   Over every run, whatever else is edited in mid-operation, a file that no human edits is as
   it was unless a step of an operation on that very file wrote or removed it.
   */
  lemma {:induction false} OnlyItsOwnOperationsChangeAFile(env: Env, d: Desk, moves: seq<Move>, path: string)
    requires AllLeave(moves, path) && (d.job.Some? ==> Staging(d.job.value.op.path) != path)
    ensures Accounted(d.svc, Play(env, d, moves).svc, path)
    decreases |moves|
  {
    if moves != [] {
      assert LeavesToItself(moves[0], path);
      var next := MoveOn(env, d, moves[0]);
      if moves[0].Go? {
        GoIsAccounted(env, d, path);
      } else {
        assert next.svc.trace == d.svc.trace && Lookup(next.svc.files, path) == Lookup(d.svc.files, path);
      }
      OnlyItsOwnOperationsChangeAFile(env, next, moves[1..], path);
      TouchedLater(d.svc.trace, next.svc.trace, Play(env, d, moves).svc.trace, path);
    }
  }

  // -- and the two windows in which an edit is lost

  /** A run in which a human edits the operation's file after so many of its steps. */
  function Interrupted(op: Op, plan: Plan, n: nat, edit: Option<Entry>): seq<Move> {
    [Begin(op, plan)] + (Steps(n) + ([Human(op.path, edit)] + Steps(7)))
  }

  lemma {:induction false} PlayAppend(env: Env, d: Desk, x: seq<Move>, y: seq<Move>)
    ensures Play(env, d, x + y) == Play(env, Play(env, d, x), y)
    decreases |x|
  {
    if x == [] {
      assert x + y == y;
    } else {
      assert (x + y)[0] == x[0] && (x + y)[1..] == x[1..] + y;
      PlayAppend(env, MoveOn(env, d, x[0]), x[1..], y);
    }
  }

  lemma InterruptedRun(env: Env, d: Desk, op: Op, plan: Plan, n: nat, c: Config, edit: Option<Entry>)
    requires AtRest(d)
    requires Play(env, Busy(op, plan, Config(d.svc, d.revs, Inspecting)), Steps(n)) == Busy(op, plan, c)
    ensures Play(env, d, Interrupted(op, plan, n, edit))
            == Busy(op, plan, Finish(env, op, plan, WithEdit(c, op.path, edit)))
  {
    var start := Busy(op, plan, Config(d.svc, d.revs, Inspecting));
    var rest := [Human(op.path, edit)] + Steps(7);
    assert Play(env, d, Interrupted(op, plan, n, edit)) == Play(env, start, Steps(n) + rest) by {
      PlayCons(env, d, Begin(op, plan), Steps(n) + rest);
    }
    PlayAppend(env, start, Steps(n), rest);
    AfterEdit(env, op, plan, c, edit);
  }

  lemma AfterEdit(env: Env, op: Op, plan: Plan, c: Config, edit: Option<Entry>)
    ensures Play(env, Busy(op, plan, c), [Human(op.path, edit)] + Steps(7))
            == Busy(op, plan, Finish(env, op, plan, WithEdit(c, op.path, edit)))
  {
    PlayCons(env, Busy(op, plan, c), Human(op.path, edit), Steps(7));
    StepsFinish(env, op, plan, WithEdit(c, op.path, edit), 7);
  }

  lemma AfterOne(env: Env, op: Op, plan: Plan, c: Config)
    requires !c.stage.Returned?
    ensures Play(env, Busy(op, plan, c), Steps(1)) == Busy(op, plan, Step(env, op, plan, c))
  {
    PlayCons(env, Busy(op, plan, c), Go, Steps(0));
  }

  lemma AfterTwo(env: Env, op: Op, plan: Plan, c: Config)
    requires !c.stage.Returned? && !Step(env, op, plan, c).stage.Returned?
    ensures Play(env, Busy(op, plan, c), Steps(2)) == Busy(op, plan, Step(env, op, plan, Step(env, op, plan, c)))
  {
    PlayCons(env, Busy(op, plan, c), Go, Steps(1));
    AfterOne(env, op, plan, Step(env, op, plan, c));
  }

  /** An apply that its file lets through, from the start to just before the rename. */
  lemma ReachesWriting(env: Env, op: Op, plan: Plan, d: Desk)
    requires op.Apply? && MayReplace(env, op, Lookup(d.svc.files, op.path))
    ensures var c := Step(env, op, plan, Config(d.svc, d.revs, Inspecting));
            && c.stage.Writing? && c.svc == d.svc && c.revs == d.revs
            && SnapshotOf(d.svc.files, op.path, c.stage.snapshot)
  {
    var start := Config(d.svc, d.revs, Inspecting);
    assert Step(env, op, plan, start) == start.(stage := InspectStep(env, op, d.svc));
  }

  /** The file as the undo would bring it back. */
  function Before(op: Op, files: Tree): Option<Entry> {
    match Lookup(files, op.path)
    case Some(Readable(content, _)) => Some(Readable(content, op.mode))
    case _ => None
  }

  /**
   The first window.  In every run that begins an apply its file lets through, an edit that
   lands after the inspection and before the rename is gone at the end, if the write works.
   */
  lemma LostBeforeTheRename(env: Env, d: Desk, op: Op, plan: Plan, edit: Option<Entry>)
    requires AtRest(d) && op.Apply? && MayReplace(env, op, Lookup(d.svc.files, op.path)) && plan.write.Written?
    requires edit != Some(Readable(Contents(env, op), op.mode)) && edit != Before(op, d.svc.files)
    ensures var end := Play(env, d, Interrupted(op, plan, 1, edit));
            AtRest(end) && Lookup(end.svc.files, op.path) != edit
  {
    var start := Config(d.svc, d.revs, Inspecting);
    ReachesWriting(env, op, plan, d);
    AfterOne(env, op, plan, start);
    var c := Step(env, op, plan, start);
    InterruptedRun(env, d, op, plan, 1, c, edit);
    EditBeforeTheRenameNeverRemains(env, op, plan, c, edit);
  }

  /**
   The second window.  In every such run, an edit that lands after the rename and that the
   service's checker rejects is gone at the end: the old text, or absence, is back in its place.
   */
  lemma LostAfterTheRename(env: Env, d: Desk, op: Op, plan: Plan, edit: Option<Entry>)
    requires AtRest(d) && op.Apply? && MayReplace(env, op, Lookup(d.svc.files, op.path))
    requires plan.write.Written? && UndoWorks(plan) && edit != Before(op, d.svc.files)
    requires var files := AfterWrite(d.svc.files, op.path, Readable(Contents(env, op), op.mode), Written);
             env.complaint(ViewOf(Edited(d.svc.(files := files), op.path, edit).files)).Some?
    ensures var end := Play(env, d, Interrupted(op, plan, 2, edit));
            AtRest(end) && Lookup(end.svc.files, op.path) == Before(op, d.svc.files) != edit
  {
    var start := Config(d.svc, d.revs, Inspecting);
    ReachesWriting(env, op, plan, d);
    AfterTwo(env, op, plan, start);
    var c := Step(env, op, plan, Step(env, op, plan, start));
    InterruptedRun(env, d, op, plan, 2, c, edit);
    var at := WithEdit(c, op.path, edit);
    TrialEnds(env, op, plan, at);
    EditOnTrialRemainsExactlyWhen(env, op, plan, c, edit);
  }

  const ALL_WORKS := Plan(Written, true, Loaded, None, true, Written, true, Loaded)

  /**
   Both windows are open: on an empty panel, a first apply, and any edit but the very file it
   writes.  In the second run the service's checker objects to the edit and to nothing else.
   */
  lemma EditInsideTheWindowIsLost(hash: Hasher, path: string, mode: Mode, style: CommentStyle, body: string, edit: Entry)
    requires edit != Readable(WithHeader(hash, body, style), mode)
    ensures var op := Apply(path, mode, style, body, false, false);
            var d := Desk(ServiceState(map[], map[], []), [], None);
            var easy := Env(hash, v => None, false);
            Lookup(Play(easy, d, Interrupted(op, ALL_WORKS, 1, Some(edit))).svc.files, path) != Some(edit)
    ensures var op := Apply(path, mode, style, body, false, false);
            var d := Desk(ServiceState(map[], map[], []), [], None);
            var picky := Env(hash, v => if v == ViewOf(map[path := edit]) then Some("") else None, false);
            Lookup(Play(picky, d, Interrupted(op, ALL_WORKS, 2, Some(edit))).svc.files, path) == None
  {
    var op := Apply(path, mode, style, body, false, false);
    var d := Desk(ServiceState(map[], map[], []), [], None);
    LostBeforeTheRename(Env(hash, v => None, false), d, op, ALL_WORKS, Some(edit));
    var picky := Env(hash, v => if v == ViewOf(map[path := edit]) then Some("") else None, false);
    var files := AfterWrite(map[], path, Readable(WithHeader(hash, body, style), mode), Written);
    StagingApart(path);
    assert files[path := edit] == map[path := edit];
    LostAfterTheRename(picky, d, op, ALL_WORKS, Some(edit));
  }
}
