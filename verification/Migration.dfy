/**
 The mail migration that a start of the agent may queue, over any number of starts.  A task's id
 is its position in the table: rows are only ever added.
 */
module Migration {
  import opened Text
  import TaskLog

  type Status = TaskLog.Status

  datatype Task = Task(op: string, status: Status, cancellable: bool)

  /** Whose the mail configuration is. */
  datatype ConfigState = Unwritten | Ours | Edited {
    predicate IsOurs() { Ours? || Edited? }
  }

  /** What a start of the agent finds: the relay, the configuration, and which queries fail. */
  datatype World = World(relay: Result<bool, ()>, mta: ConfigState, failing: set<Status>, insertable: bool)

  const MTA_INSTALL := "mail.mta.install"

  const BLOCKING: seq<Status> := [TaskLog.Queued, TaskLog.Running, TaskLog.Failed]

  predicate MigrationDue(relayLive: bool, mta: ConfigState, previous: seq<Status>) {
    if !relayLive then false
    else if mta.IsOurs() then false
    else !exists i :: 0 <= i < |previous| && previous[i] in BLOCKING
  }

  // ----------------------------------------------------------------- the table

  /** The tasks of one operation in one status, newest first. */
  function Matching(tasks: seq<Task>, op: string, status: Status): seq<Task> {
    if tasks == [] then []
    else
      var last := tasks[|tasks| - 1];
      (if last.op == op && last.status == status then [last] else []) + Matching(tasks[..|tasks| - 1], op, status)
  }

  function ListFiltered(tasks: seq<Task>, op: string, status: Status, limit: int): seq<Task> {
    var all := Matching(tasks, op, status);
    var n := if limit < 1 then 1 else if limit > 200 then 200 else limit;
    if |all| <= n then all else all[..n]
  }

  predicate Has(tasks: seq<Task>, op: string, status: Status) {
    exists i :: 0 <= i < |tasks| && tasks[i].op == op && tasks[i].status == status
  }

  lemma {:induction false} ListedExactlyWhen(tasks: seq<Task>, op: string, status: Status)
    ensures ListFiltered(tasks, op, status, 1) != [] <==> Has(tasks, op, status)
    decreases |tasks|
  {
    if tasks != [] {
      var init := tasks[..|tasks| - 1];
      ListedExactlyWhen(init, op, status);
      if Has(tasks, op, status) && !(tasks[|init|].op == op && tasks[|init|].status == status) {
        var i :| 0 <= i < |tasks| && tasks[i].op == op && tasks[i].status == status;
        assert init[i] == tasks[i];
      }
      if Has(init, op, status) {
        var i :| 0 <= i < |init| && init[i].op == op && init[i].status == status;
        assert tasks[i] == init[i];
      }
    }
  }

  predicate Wanted(tasks: seq<Task>, id: nat, op: string, status: Status) {
    id < |tasks| && tasks[id].op == op && tasks[id].status == status
  }

  /** The matching tasks, by position in the table, newest first. */
  ghost predicate NewestFirst(ids: seq<nat>, tasks: seq<Task>, op: string, status: Status) {
    && (forall i, j :: 0 <= i < j < |ids| ==> ids[i] > ids[j])
    && (forall id: nat :: id in ids <==> Wanted(tasks, id, op, status))
  }

  function Rows(ids: seq<nat>, tasks: seq<Task>): (rows: seq<Task>)
    requires forall id :: id in ids ==> id < |tasks|
    ensures |rows| == |ids|
  {
    if ids == [] then []
    else
      assert ids[0] in ids && forall id :: id in ids[1..] ==> id in ids;
      [tasks[ids[0]]] + Rows(ids[1..], tasks)
  }

  lemma {:induction false} RowsOfMore(ids: seq<nat>, tasks: seq<Task>, last: Task)
    requires forall id :: id in ids ==> id < |tasks|
    ensures Rows(ids, tasks + [last]) == Rows(ids, tasks)
    decreases |ids|
  {
    if ids != [] {
      assert ids[0] in ids && forall id :: id in ids[1..] ==> id in ids;
      RowsOfMore(ids[1..], tasks, last);
    }
  }

  lemma RowsFirst(first: nat, rest: seq<nat>, tasks: seq<Task>)
    requires first < |tasks| && forall id :: id in rest ==> id < |tasks|
    ensures Rows([first] + rest, tasks) == [tasks[first]] + Rows(rest, tasks)
  {
    assert ([first] + rest)[1..] == rest;
  }

  /** A row more at the end of the table is the newest. */
  lemma NewestOf(fewer: seq<nat>, tasks: seq<Task>, last: Task, op: string, status: Status)
    requires NewestFirst(fewer, tasks, op, status)
    ensures Wanted(tasks + [last], |tasks|, op, status) ==> NewestFirst([|tasks|] + fewer, tasks + [last], op, status)
    ensures !Wanted(tasks + [last], |tasks|, op, status) ==> NewestFirst(fewer, tasks + [last], op, status)
  {
    forall i | 0 <= i < |fewer|
      ensures fewer[i] < |tasks|
    {
      var id := fewer[i];
      assert id in fewer;
    }
    assert forall id: nat :: Wanted(tasks + [last], id, op, status)
                        <==> Wanted(tasks, id, op, status) || (id == |tasks| && last.op == op && last.status == status);
  }

  lemma MatchingMore(tasks: seq<Task>, last: Task, op: string, status: Status)
    ensures Matching(tasks + [last], op, status)
         == (if last.op == op && last.status == status then [last] else []) + Matching(tasks, op, status)
  {
    assert (tasks + [last])[..|tasks|] == tasks;
  }

  /** One more row, listed first if it is wanted. */
  lemma MoreRows(fewer: seq<nat>, tasks: seq<Task>, last: Task, op: string, status: Status)
    requires (forall id :: id in fewer ==> id < |tasks|) && Matching(tasks, op, status) == Rows(fewer, tasks)
    ensures Matching(tasks + [last], op, status)
         == Rows(if last.op == op && last.status == status then [|tasks|] + fewer else fewer, tasks + [last])
  {
    MatchingMore(tasks, last, op, status);
    RowsOfMore(fewer, tasks, last);
    RowsFirst(|tasks|, fewer, tasks + [last]);
    assert [] + Rows(fewer, tasks) == Rows(fewer, tasks);
  }

  lemma OneMoreListed(fewer: seq<nat>, tasks: seq<Task>, last: Task, op: string, status: Status) returns (ids: seq<nat>)
    requires NewestFirst(fewer, tasks, op, status) && Matching(tasks, op, status) == Rows(fewer, tasks)
    ensures NewestFirst(ids, tasks + [last], op, status)
    ensures Matching(tasks + [last], op, status) == Rows(ids, tasks + [last])
  {
    NewestOf(fewer, tasks, last, op, status);
    MoreRows(fewer, tasks, last, op, status);
    ids := if last.op == op && last.status == status then [|tasks|] + fewer else fewer;
    assert Wanted(tasks + [last], |tasks|, op, status) <==> last.op == op && last.status == status;
  }

  lemma {:induction false} MatchingIds(tasks: seq<Task>, op: string, status: Status) returns (ids: seq<nat>)
    ensures NewestFirst(ids, tasks, op, status) && Matching(tasks, op, status) == Rows(ids, tasks)
    decreases |tasks|
  {
    ids := [];
    if tasks != [] {
      var init, last := tasks[..|tasks| - 1], tasks[|tasks| - 1];
      assert tasks == init + [last];
      var fewer := MatchingIds(init, op, status);
      ids := OneMoreListed(fewer, init, last, op, status);
    }
  }

  /** A list holds the newest of the tasks asked for: all of them, or as many as the limit, between 1 and 200. */
  lemma ListHoldsTheNewest(tasks: seq<Task>, op: string, status: Status, limit: int)
    ensures exists ids ::
              && NewestFirst(ids, tasks, op, status)
              && var n := if limit < 1 then 1 else if limit > 200 then 200 else limit;
                 ListFiltered(tasks, op, status, limit) == Rows(ids, tasks)[..if |ids| <= n then |ids| else n]
  {
    var ids := MatchingIds(tasks, op, status);
  }

  predicate IsMigration(task: Task) { task.op == MTA_INSTALL }

  /** The task stops another migration from being queued. */
  predicate Blocks(task: Task) {
    IsMigration(task) && task.status in BLOCKING
  }

  predicate Blocked(tasks: seq<Task>) {
    exists i :: 0 <= i < |tasks| && Blocks(tasks[i])
  }

  // ----------------------------------------------------------------- the steps

  datatype Action =
    | Create(op: string, cancellable: bool)
    | StartTask(id: nat)
    | FinishOk(id: nat)
    | FinishFailed(id: nat)
    | Cancel(id: nat)
    | Restart(reconciles: bool, world: World)

  predicate Active(task: Task) {
    task.status.Queued? || task.status.Running?
  }

  /** Fails whatever an earlier life of the agent left queued or running. */
  function Reconciled(tasks: seq<Task>): (r: seq<Task>)
    ensures |r| == |tasks|
  {
    seq(|tasks|, i requires 0 <= i < |tasks| =>
      if Active(tasks[i]) then tasks[i].(status := TaskLog.Failed) else tasks[i])
  }

  predicate Readable(w: World) {
    w.relay.Ok? && (forall i :: 0 <= i < |BLOCKING| ==> BLOCKING[i] !in w.failing)
  }

  /** The table after the agent considered the migration. */
  function Considered(tasks: seq<Task>, w: World): seq<Task> {
    if Readable(w) && w.relay.value && !w.mta.IsOurs() && !Blocked(tasks) && w.insertable
    then tasks + [Task(MTA_INSTALL, TaskLog.Queued, false)]
    else tasks
  }

  function Update(tasks: seq<Task>, id: nat, from: bool, status: Status): seq<Task> {
    if id < |tasks| && from then tasks[id := tasks[id].(status := status)] else tasks
  }

  /** One action; an update whose condition does not hold changes nothing. */
  function Step(tasks: seq<Task>, act: Action): seq<Task> {
    match act
    case Create(op, cancellable) => tasks + [Task(op, TaskLog.Queued, cancellable)]
    case StartTask(id) => Update(tasks, id, id < |tasks| && tasks[id].status.Queued?, TaskLog.Running)
    case FinishOk(id) => Update(tasks, id, id < |tasks| && Active(tasks[id]), TaskLog.Succeeded)
    case FinishFailed(id) => Update(tasks, id, id < |tasks| && Active(tasks[id]), TaskLog.Failed)
    case Cancel(id) =>
      Update(tasks, id, id < |tasks| && tasks[id].cancellable && Active(tasks[id]), TaskLog.Cancelled)
    case Restart(reconciles, world) => Considered(if reconciles then Reconciled(tasks) else tasks, world)
  }

  function Execute(tasks: seq<Task>, acts: seq<Action>): seq<Task>
    decreases |acts|
  {
    if acts == [] then tasks else Execute(Step(tasks, acts[0]), acts[1..])
  }

  /** Nobody but the agent's start asks for the migration. */
  predicate StartupOnly(acts: seq<Action>) {
    forall i :: 0 <= i < |acts| && acts[i].Create? ==> acts[i].op != MTA_INSTALL
  }

  // ----------------------------------------------------------------- the code of a start

  class Database {
    var tasks: seq<Task>

    constructor ()
      ensures tasks == []
    {
      tasks := [];
    }

    /** Looks for each blocking status in turn whether some migration has it. */
    method PreviousInstalls(failing: set<Status>) returns (r: Result<seq<Status>, ()>)
      ensures r.Err? <==> exists i :: 0 <= i < |BLOCKING| && BLOCKING[i] in failing
      ensures r.Ok? ==> forall s :: s in r.value <==> s in BLOCKING && Has(tasks, MTA_INSTALL, s)
    {
      var found := [];
      for k := 0 to |BLOCKING|
        invariant forall s :: s in found <==> s in BLOCKING[..k] && Has(tasks, MTA_INSTALL, s)
        invariant forall i :: 0 <= i < k ==> BLOCKING[i] !in failing
      {
        var status := BLOCKING[k];
        if status in failing {
          return Err(());
        }
        ListedExactlyWhen(tasks, MTA_INSTALL, status);
        if ListFiltered(tasks, MTA_INSTALL, status, 1) != [] {
          found := found + [status];
        }
        assert BLOCKING[..k + 1] == BLOCKING[..k] + [status];
      }
      assert BLOCKING[..|BLOCKING|] == BLOCKING;
      return Ok(found);
    }

    method QueueMigration(world: World) returns (queued: Option<nat>)
      modifies this
      ensures tasks == Considered(old(tasks), world)
      ensures queued == if |tasks| > |old(tasks)| then Some(|old(tasks)|) else None
    {
      if world.relay.Err? {
        return None;
      }
      var previous := PreviousInstalls(world.failing);
      if previous.Err? {
        return None;
      }
      DueExactlyWhen(tasks, world.relay.value, world.mta, previous.value);
      if !MigrationDue(world.relay.value, world.mta, previous.value) {
        return None;
      }
      if !world.insertable {
        return None;
      }
      tasks := tasks + [Task(MTA_INSTALL, TaskLog.Queued, false)];
      return Some(|tasks| - 1);
    }

    /** What a start does to the table: reconcile first, then consider the migration. */
    method OnStart(reconciles: bool, world: World) returns (queued: Option<nat>)
      modifies this
      ensures tasks == Step(old(tasks), Restart(reconciles, world))
      ensures queued.Some? ==> queued.value < |tasks| && tasks[queued.value] == Task(MTA_INSTALL, TaskLog.Queued, false)
      ensures queued.None? ==> |tasks| == |old(tasks)|
    {
      if reconciles {
        tasks := Reconciled(tasks);
      }
      queued := QueueMigration(world);
    }
  }

  lemma DueExactlyWhen(tasks: seq<Task>, live: bool, mta: ConfigState, previous: seq<Status>)
    requires forall s :: s in previous <==> s in BLOCKING && Has(tasks, MTA_INSTALL, s)
    ensures MigrationDue(live, mta, previous) <==> live && !mta.IsOurs() && !Blocked(tasks)
  {
    if Blocked(tasks) {
      var i :| 0 <= i < |tasks| && Blocks(tasks[i]);
      assert Has(tasks, MTA_INSTALL, tasks[i].status);
      assert tasks[i].status in previous;
    }
    if i :| 0 <= i < |previous| && previous[i] in BLOCKING {
      assert previous[i] in previous;
      var j :| 0 <= j < |tasks| && tasks[j].op == MTA_INSTALL && tasks[j].status == previous[i];
      assert Blocks(tasks[j]);
    }
  }

  // ----------------------------------------------------------------- what every action keeps

  /** Every migration but the last one succeeded, and none of them can be cancelled. */
  predicate Orderly(tasks: seq<Task>) {
    && (forall i, j :: 0 <= i < j < |tasks| && IsMigration(tasks[i]) && IsMigration(tasks[j]) ==>
          tasks[i].status.Succeeded?)
    && (forall i :: 0 <= i < |tasks| && IsMigration(tasks[i]) ==>
          !tasks[i].cancellable && !tasks[i].status.Cancelled?)
  }

  /** `later` is `tasks` with some rows moved on, none from a terminal status, and rows added. */
  predicate Follows(tasks: seq<Task>, later: seq<Task>) {
    && |tasks| <= |later|
    && (forall i :: 0 <= i < |tasks| ==>
          && later[i].op == tasks[i].op && later[i].cancellable == tasks[i].cancellable
          && (tasks[i].status.IsTerminal() ==> later[i].status == tasks[i].status))
  }

  lemma StepFollows(tasks: seq<Task>, act: Action)
    ensures Follows(tasks, Step(tasks, act))
  {
  }

  lemma ReconciledOrderly(tasks: seq<Task>)
    requires Orderly(tasks)
    ensures Orderly(Reconciled(tasks))
  {
  }

  lemma ConsideredOrderly(tasks: seq<Task>, w: World)
    requires Orderly(tasks)
    ensures Orderly(Considered(tasks, w))
  {
    var next := Considered(tasks, w);
    if |next| > |tasks| {
      forall i | 0 <= i < |tasks| && IsMigration(tasks[i])
        ensures tasks[i].status.Succeeded?
      {
        assert !Blocks(tasks[i]);
        UnblockedIsOver(tasks[i].status);
      }
    }
  }

  lemma UnblockedIsOver(status: Status)
    ensures status in BLOCKING <==> !status.Succeeded? && !status.Cancelled?
  {
    assert BLOCKING[0].Queued? && BLOCKING[1].Running? && BLOCKING[2].Failed?;
  }

  lemma StepOrderly(tasks: seq<Task>, act: Action)
    requires Orderly(tasks) && StartupOnly([act])
    ensures Orderly(Step(tasks, act))
  {
    assert [act][0] == act;
    if act.Restart? {
      if act.reconciles {
        ReconciledOrderly(tasks);
      }
      ConsideredOrderly(if act.reconciles then Reconciled(tasks) else tasks, act.world);
    }
  }

  lemma {:induction false} ExecuteOrderly(tasks: seq<Task>, acts: seq<Action>)
    requires Orderly(tasks) && StartupOnly(acts)
    ensures Orderly(Execute(tasks, acts))
    decreases |acts|
  {
    if acts != [] {
      StepOrderly(tasks, acts[0]);
      ExecuteOrderly(Step(tasks, acts[0]), acts[1..]);
    }
  }

  // ----------------------------------------------------------------- the laws

  predicate Over(status: Status) {
    status.Succeeded? || status.Cancelled?
  }

  /**
   Over any sequence of restarts and status changes: at most one migration is queued, running
   or failed, and when there are two, the earlier one ended well.
   */
  lemma OneMigrationAtATime(acts: seq<Action>, i: nat, j: nat)
    requires StartupOnly(acts)
    requires i < j < |Execute([], acts)|
    requires IsMigration(Execute([], acts)[i]) && IsMigration(Execute([], acts)[j])
    ensures Over(Execute([], acts)[i].status)
    ensures !(Blocks(Execute([], acts)[i]) && Blocks(Execute([], acts)[j]))
  {
    ExecuteOrderly([], acts);
    UnblockedIsOver(Execute([], acts)[i].status);
  }

  /** A start queues a migration exactly when it could read everything, needs one, and every earlier one is over. */
  lemma QueuedExactlyWhen(tasks: seq<Task>, w: World)
    ensures |Considered(tasks, w)| > |tasks| <==>
              && Readable(w) && w.insertable
              && w.relay.value && w.mta.Unwritten?
              && (forall i :: 0 <= i < |tasks| && IsMigration(tasks[i]) ==> Over(tasks[i].status))
    ensures |Considered(tasks, w)| > |tasks| ==>
              Considered(tasks, w) == tasks + [Task("mail.mta.install", TaskLog.Queued, false)]
    ensures |Considered(tasks, w)| <= |tasks| ==> Considered(tasks, w) == tasks
  {
    forall i | 0 <= i < |tasks| && IsMigration(tasks[i])
      ensures Blocks(tasks[i]) <==> !Over(tasks[i].status)
    {
      UnblockedIsOver(tasks[i].status);
    }
    if Blocked(tasks) {
      var i :| 0 <= i < |tasks| && Blocks(tasks[i]);
      assert IsMigration(tasks[i]);
    }
  }

  predicate NoneNew(tasks: seq<Task>, later: seq<Task>) {
    |tasks| <= |later| && forall k :: |tasks| <= k < |later| ==> !IsMigration(later[k])
  }

  lemma FailureBlocksStep(tasks: seq<Task>, i: nat, act: Action)
    requires i < |tasks| && IsMigration(tasks[i]) && tasks[i].status.Failed? && StartupOnly([act])
    ensures NoneNew(tasks, Step(tasks, act))
    ensures IsMigration(Step(tasks, act)[i]) && Step(tasks, act)[i].status.Failed?
  {
    assert [act][0] == act;
    StepFollows(tasks, act);
    if act.Restart? {
      var rows := if act.reconciles then Reconciled(tasks) else tasks;
      UnblockedIsOver(rows[i].status);
      assert Blocks(rows[i]);
    }
  }

  /** A failed migration is final: no later start queues another, however often the agent restarts. */
  lemma {:induction false} FailureIsNotRetried(tasks: seq<Task>, i: nat, acts: seq<Action>)
    requires i < |tasks| && IsMigration(tasks[i]) && tasks[i].status.Failed? && StartupOnly(acts)
    ensures NoneNew(tasks, Execute(tasks, acts))
    decreases |acts|
  {
    if acts != [] {
      var next := Step(tasks, acts[0]);
      FailureBlocksStep(tasks, i, acts[0]);
      FailureIsNotRetried(next, i, acts[1..]);
      var later := Execute(next, acts[1..]);
      ExecuteFollows(next, acts[1..]);
      forall k | |tasks| <= k < |later|
        ensures !IsMigration(later[k])
      {
        if k < |next| {
          assert later[k].op == next[k].op;
        }
      }
    }
  }

  lemma {:induction false} ExecuteFollows(tasks: seq<Task>, acts: seq<Action>)
    ensures Follows(tasks, Execute(tasks, acts))
    decreases |acts|
  {
    if acts != [] {
      var next := Step(tasks, acts[0]);
      StepFollows(tasks, acts[0]);
      ExecuteFollows(next, acts[1..]);
      var later := Execute(next, acts[1..]);
      forall i | 0 <= i < |tasks|
        ensures later[i].op == tasks[i].op && later[i].cancellable == tasks[i].cancellable
        ensures tasks[i].status.IsTerminal() ==> later[i].status == tasks[i].status
      {
        assert later[i].op == next[i].op;
      }
    }
  }

  /** The limit of it: an install that somebody asks for through the panel counts as well. */
  lemma PanelRequestsMayPileUp(cancellable: bool)
    ensures var tasks := Execute([], [Create(MTA_INSTALL, cancellable), Create(MTA_INSTALL, cancellable)]);
            |tasks| == 2 && Blocks(tasks[0]) && Blocks(tasks[1])
  {
    var create := Create(MTA_INSTALL, cancellable);
    assert [create, create][1..] == [create] && [create][1..] == [];
    var one := Step([], create);
    assert Execute(one, [create]) == Step(one, create);
    UnblockedIsOver(TaskLog.Queued);
  }

  // ----------------------------------------------------------------- what a start and an end do

  /** A start that can write leaves what was queued or running failed, everything else as it was. */
  lemma StartFailsTheInterrupted(tasks: seq<Task>, w: World, i: nat)
    requires i < |tasks|
    ensures var next := Step(tasks, Restart(true, w));
            && |tasks| <= |next| <= |tasks| + 1
            && next[i].op == tasks[i].op && next[i].cancellable == tasks[i].cancellable
            && (tasks[i].status.Queued? || tasks[i].status.Running? ==> next[i].status.Failed?)
            && (!tasks[i].status.Queued? && !tasks[i].status.Running? ==> next[i] == tasks[i])
  {
  }

  /** A start that finds a migration to be due, and can do everything it tries. */
  predicate WantsMigration(w: World) {
    Readable(w) && w.insertable && w.relay.value && w.mta.Unwritten?
  }

  lemma StartAddsOne(tasks: seq<Task>, w: World)
    requires WantsMigration(w) && forall i :: 0 <= i < |tasks| && IsMigration(tasks[i]) ==> Over(tasks[i].status)
    ensures Considered(tasks, w) == tasks + [Task(MTA_INSTALL, TaskLog.Queued, false)]
  {
    QueuedExactlyWhen(tasks, w);
  }

  /** One start after the other: the second queues again if the first one's migration ended ok, and not if it failed. */
  lemma OnlySuccessAllowsTheNext(tasks: seq<Task>, w: World, ok: bool)
    requires WantsMigration(w) && forall i :: 0 <= i < |tasks| && IsMigration(tasks[i]) ==> Over(tasks[i].status)
    ensures var id := |tasks|;
            var queued := Considered(tasks, w);
            var running := Step(queued, StartTask(id));
            var ended := Step(running, if ok then FinishOk(id) else FinishFailed(id));
            && |queued| == id + 1
            && running[id].status.Running?
            && (if ok then ended[id].status.Succeeded? else ended[id].status.Failed?)
            && |Considered(ended, w)| == id + 1 + if ok then 1 else 0
  {
    var id := |tasks|;
    StartAddsOne(tasks, w);
    var ended := Step(Step(Considered(tasks, w), StartTask(id)), if ok then FinishOk(id) else FinishFailed(id));
    assert forall i :: 0 <= i < id ==> ended[i] == tasks[i];
    QueuedExactlyWhen(ended, w);
    if !ok {
      assert IsMigration(ended[id]) && !Over(ended[id].status);
    }
  }
}
