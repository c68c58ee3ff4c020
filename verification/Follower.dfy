/**
 The task log protocol, reading side: a client that polls the log and the status of a task
 while the agent works, and stops when the status is terminal.
 */
module Follower {
  import opened Text
  import opened TaskLog

  const PAGE: nat := 500
  const LARGEST_PAGE: nat := 5000

  datatype Verdict =
    | Followed(status: Status)
    | NoSuchTask
    | ReadFailed
    | PollingForever  // the whole run is over and never reached a terminal status

  // ----------------------------------------------------------------- the query

  /** The rows numbered above `cursor`, in order. */
  function After(rows: seq<Row>, cursor: nat): seq<Row> {
    if rows == [] then []
    else if rows[0].seqno > cursor then [rows[0]] + After(rows[1..], cursor)
    else After(rows[1..], cursor)
  }

  function Clamp(limit: int): (n: nat)
    ensures 1 <= n <= LARGEST_PAGE
  {
    if limit < 1 then 1 else if limit > LARGEST_PAGE then LARGEST_PAGE else limit
  }

  function Min(a: nat, b: nat): nat {
    if a <= b then a else b
  }

  function Max(a: nat, b: nat): nat {
    if a >= b then a else b
  }

  function Page(rows: seq<Row>, cursor: nat, limit: int): (page: seq<Row>) {
    var all := After(rows, cursor);
    if |all| <= Clamp(limit) then all else all[..Clamp(limit)]
  }

  predicate DenseFrom(rows: seq<Row>, first: nat) {
    forall i :: 0 <= i < |rows| ==> rows[i].seqno == first + i
  }

  lemma {:induction false} AfterDense(rows: seq<Row>, first: nat, cursor: nat)
    requires DenseFrom(rows, first) && first <= cursor + 1 <= first + |rows|
    ensures After(rows, cursor) == rows[cursor + 1 - first..]
    decreases |rows|
  {
    if rows != [] && rows[0].seqno <= cursor {
      AfterDense(rows[1..], first + 1, cursor);
    } else if rows != [] {
      AfterAll(rows, first, cursor);
    }
  }

  lemma {:induction false} AfterAll(rows: seq<Row>, first: nat, cursor: nat)
    requires DenseFrom(rows, first) && cursor < first
    ensures After(rows, cursor) == rows
    decreases |rows|
  {
    if rows != [] {
      AfterAll(rows[1..], first + 1, cursor);
      assert rows == [rows[0]] + rows[1..];
    }
  }

  /**
   A page is the next stretch of the log: as many rows as are left, up to the limit, which is
   at least 1 and at most 5000; so it is empty only at the end of the log.
   */
  lemma PageIsNext(rows: seq<Row>, cursor: nat, limit: int)
    requires Dense(rows) && cursor <= |rows|
    ensures var page := Page(rows, cursor, limit);
            && cursor + |page| <= |rows|
            && page == rows[cursor..cursor + |page|]
            && |page| == Min(|rows| - cursor, if limit < 1 then 1 else Min(limit, 5000))
            && (page == [] ==> cursor == |rows|)
  {
    AfterDense(rows, 1, cursor);
    assert After(rows, cursor) == rows[cursor..];
  }

  // ----------------------------------------------------------------- what time can change

  /** `b` is a later state of the task than `a`. */
  predicate Later(a: Agent, b: Agent) {
    && a.rows <= b.rows
    && a.cancellable == b.cancellable
    && (a.status.IsTerminal() ==> b.status == a.status)
    && (Closed(a) ==> Closed(b) && b.rows == a.rows)
  }

  lemma StepLater(a: Agent, act: Action)
    requires Holds(a)
    ensures Later(a, Step(a, act))
  {
    StepHolds(a, act);
    StepGrows(a, act);
    if a.status.IsTerminal() {
      StepKeepsTerminal(a, act);
    }
    if Closed(a) {
      StepOfClosed(a, act);
    }
  }

  lemma StepGrows(a: Agent, act: Action)
    ensures a.rows <= Step(a, act).rows
  {
  }

  lemma StepKeepsTerminal(a: Agent, act: Action)
    requires a.status.IsTerminal()
    ensures Step(a, act).status == a.status
  {
  }

  lemma {:induction false} ExecuteLater(a: Agent, acts: seq<Action>)
    requires Holds(a)
    ensures Later(a, Execute(a, acts)) && Holds(Execute(a, acts))
    decreases |acts|
  {
    if acts != [] {
      StepLater(a, acts[0]);
      StepHolds(a, acts[0]);
      ExecuteLater(Step(a, acts[0]), acts[1..]);
    }
  }

  /** A run of the agent, seen at two moments. */
  lemma MomentLater(cancellable: bool, run: seq<Action>, i: nat, j: nat)
    requires i <= j <= |run|
    ensures Later(Execute(Fresh(cancellable), run[..i]), Execute(Fresh(cancellable), run[..j]))
  {
    var a := Fresh(cancellable);
    assert run[..j] == run[..i] + run[i..j];
    ExecuteAppend(a, run[..i], run[i..j]);
    FreshHolds(cancellable);
    ExecuteHolds(a, run[..i]);
    ExecuteLater(Execute(a, run[..i]), run[i..j]);
  }

  lemma MomentHolds(cancellable: bool, run: seq<Action>, i: nat)
    requires i <= |run|
    ensures Holds(Execute(Fresh(cancellable), run[..i]))
    ensures Execute(Fresh(cancellable), run[..i]).cancellable == cancellable
  {
    FreshHolds(cancellable);
    ExecuteHolds(Fresh(cancellable), run[..i]);
  }

  /** What was shown since `before` is the rows from `from` up to `to`, each once and in order. */
  predicate Stretch(before: seq<Row>, shown: seq<Row>, rows: seq<Row>, from: nat, to: nat) {
    from <= to <= |rows| && shown == before + rows[from..to]
  }

  lemma PrefixStretch(a: seq<Row>, b: seq<Row>, from: nat, to: nat)
    requires a <= b && from <= to <= |a|
    ensures a[from..to] == b[from..to]
  {
    assert a == b[..|a|];
  }

  lemma StretchLater(before: seq<Row>, shown: seq<Row>, a: Agent, b: Agent, from: nat, to: nat)
    requires Stretch(before, shown, a.rows, from, to) && Later(a, b)
    ensures Stretch(before, shown, b.rows, from, to)
  {
    PrefixStretch(a.rows, b.rows, from, to);
  }

  lemma StretchJoin(before: seq<Row>, mid: seq<Row>, shown: seq<Row>, rows: seq<Row>, i: nat, j: nat, k: nat)
    requires Stretch(before, mid, rows, i, j) && Stretch(mid, shown, rows, j, k)
    ensures Stretch(before, shown, rows, i, k)
  {
    assert rows[i..j] + rows[j..k] == rows[i..k];
  }

  lemma NextPage(before: seq<Row>, mid: seq<Row>, a: Agent, from: nat, to: nat, limit: int)
    requires Holds(a) && Stretch(before, mid, a.rows, from, to)
    ensures var page := Page(a.rows, to, limit);
            && DenseFrom(page, to + 1)
            && Stretch(before, mid + page, a.rows, from, to + |page|)
            && (page == [] ==> to == |a.rows|)
  {
    PageIsNext(a.rows, to, limit);
    StretchJoin(before, mid, mid + Page(a.rows, to, limit), a.rows, from, to, to + |Page(a.rows, to, limit)|);
  }

  lemma Drained(before: seq<Row>, mid: seq<Row>, shown: seq<Row>, was: Agent, now: Agent, j: nat, k: nat)
    requires Stretch(before, mid, was.rows, 0, j) && Later(was, now) && Stretch(mid, shown, now.rows, j, k)
    ensures Stretch(before, shown, now.rows, 0, k)
  {
    StretchLater(before, mid, was, now, 0, j);
    StretchJoin(before, mid, shown, now.rows, 0, j, k);
  }

  lemma LaterJoins(a: Agent, b: Agent, c: Agent)
    requires Later(a, b) && Later(b, c)
    ensures Later(a, c)
  {
  }

  /**
   The log can grow no more.  The status is ok if the operation was fine and failed if not,
   and if no write failed the log is every line the operation emitted and then, for a failure,
   its reason.
   */
  predicate Complete(a: Agent, status: Status) {
    && Closed(a)
    && (if a.worker.outcome.Fine? then status.Succeeded? else status.Failed?)
    && (a.lost == 0 ==>
          LinesOf(a.rows) == a.emitted + if status.Failed? then ["task failed: " + a.worker.outcome.text] else [])
  }

  /** The outcome and the lines are those of the operation in this run. */
  predicate FromTheRun(a: Agent, cancellable: bool, run: seq<Action>) {
    OutcomeOf(a.worker) == Reported(Fresh(cancellable), run) && a.emitted == Said(Fresh(cancellable), run)
  }

  /** Polling goes on for ever only if the worker does, or one of its status writes was lost. */
  lemma NotDoneYet(cancellable: bool, run: seq<Action>)
    ensures var a := Execute(Fresh(cancellable), run[..|run|]);
            WorkerIsDone(a) && !a.status.IsTerminal() ==> LosesAnywhere(Fresh(cancellable), run)
  {
    assert run[..|run|] == run;
    if WorkerIsDone(Execute(Fresh(cancellable), run)) {
      DoneIsTerminalExactlyWhen(cancellable, run);
    }
  }

  lemma EndIsComplete(a: Agent)
    requires Holds(a)
    ensures a.status.Succeeded? || a.status.Failed? ==> Complete(a, a.status)
    ensures a.status.Cancelled? ==> a.cancellable
  {
    HoldsTells(a);
    if (a.status.Succeeded? || a.status.Failed?) && a.lost == 0 {
      ClosedLogIsFull(a);
    }
  }

  // ----------------------------------------------------------------- the database and its reader

  /** One task's rows in the database, while the agent carries out an arbitrary `run` on them. */
  class Repo {
    const known: bool
    const cancellable: bool
    const run: seq<Action>
    var at: nat
    var failures: nat    // how many reads have failed

    predicate Valid()
      reads this
    {
      at <= |run|
    }

    function Now(): Agent
      reads this
      requires Valid()
    {
      Execute(Fresh(cancellable), run[..at])
    }

    constructor (known: bool, cancellable: bool, run: seq<Action>)
      ensures Valid() && at == 0 && this.run == run && this.cancellable == cancellable && this.known == known
    {
      this.known, this.cancellable, this.run, at, failures := known, cancellable, run, 0, 0;
    }

    /** The agent takes any number of actions. */
    method Interfere()
      requires Valid()
      modifies this`at
      ensures Valid() && old(at) <= at && Later(old(Now()), Now())
    {
      var later :| at <= later <= |run|;
      MomentLater(cancellable, run, at, later);
      at := later;
    }

    /** Time passes; at least one action happens when there is one left. */
    method Sleep() returns (over: bool)
      requires Valid()
      modifies this`at
      ensures Valid() && old(at) <= at && Later(old(Now()), Now())
      ensures over ==> at == |run| && at == old(at)
      ensures !over ==> old(at) < at
    {
      over := at == |run|;
      if over {
        MomentLater(cancellable, run, at, at);
      } else {
        var later :| at < later <= |run|;
        MomentLater(cancellable, run, at, later);
        at := later;
      }
    }

    method ById() returns (r: Result<Option<Status>, ()>)
      requires Valid()
      modifies this`at, this`failures
      ensures Valid() && old(at) <= at && Later(old(Now()), Now())
      ensures r.Ok? ==> r.value == if known then Some(Now().status) else None
      ensures failures == old(failures) + if r.Err? then 1 else 0
    {
      Interfere();
      var broken: bool := *;
      failures := failures + if broken then 1 else 0;
      r := if broken then Err(()) else if known then Ok(Some(Now().status)) else Ok(None);
    }

    method Logs(after: nat, limit: int) returns (r: Result<seq<Row>, ()>)
      requires Valid()
      modifies this`at, this`failures
      ensures Valid() && old(at) <= at && Later(old(Now()), Now())
      ensures r.Ok? ==> known && r.value == Page(Now().rows, after, limit)
      ensures failures == old(failures) + if r.Err? then 1 else 0
    {
      Interfere();
      var broken: bool := *;
      failures := failures + if broken || !known then 1 else 0;
      r := if broken || !known then Err(()) else Ok(Page(Now().rows, after, limit));
    }
  }

  class Session {
    const repo: Repo
    var shown: seq<Row>

    constructor (repo: Repo)
      ensures this.repo == repo && shown == []
    {
      this.repo, shown := repo, [];
    }

    /** Shows one page and moves the cursor past it. */
    method ShowPage(page: seq<Row>, after: nat) returns (cursor: nat)
      requires DenseFrom(page, after + 1)
      modifies this`shown
      ensures shown == old(shown) + page && cursor == after + |page|
    {
      cursor := after;
      for i := 0 to |page|
        invariant shown == old(shown) + page[..i] && cursor == after + i
      {
        shown := shown + [page[i]];
        cursor := Max(cursor, page[i].seqno);
        assert page[..i + 1] == page[..i] + [page[i]];
      }
    }

    /**
     Shows the log from row `after` on.  It goes on until it finds nothing new, so at the
     moment of its last query everything persisted had been shown, once and in order.
     */
    method DrainLogs(after: nat) returns (ok: bool, cursor: nat)
      requires repo.Valid() && after <= |repo.Now().rows|
      modifies this`shown, repo`at, repo`failures
      ensures repo.Valid() && old(repo.at) <= repo.at && Later(old(repo.Now()), repo.Now())
      ensures Stretch(old(shown), shown, repo.Now().rows, after, cursor)
      ensures repo.failures == old(repo.failures) + if ok then 0 else 1
      ensures ok ==> cursor == |repo.Now().rows|
    {
      cursor := after;
      MomentLater(repo.cancellable, repo.run, repo.at, repo.at);
      while true
        invariant repo.Valid() && old(repo.at) <= repo.at && Later(old(repo.Now()), repo.Now())
        invariant Stretch(old(shown), shown, repo.Now().rows, after, cursor)
        invariant repo.failures == old(repo.failures)
        decreases |repo.run| - repo.at, |repo.Now().rows| - cursor
      {
        ghost var was := repo.Now();
        var lines := repo.Logs(cursor, PAGE);
        StretchLater(old(shown), shown, was, repo.Now(), after, cursor);
        LaterJoins(old(repo.Now()), was, repo.Now());
        if lines.Err? {
          return false, cursor;
        }
        MomentHolds(repo.cancellable, repo.run, repo.at);
        NextPage(old(shown), shown, repo.Now(), after, cursor, PAGE);
        if lines.value == [] {
          return true, cursor;
        }
        cursor := ShowPage(lines.value, cursor);
      }
    }

    /**
     Follows the task to its end.  What it shows is always the persisted log from its first
     line on, each line once and in order, and all of it by the time it reports the end.
     Unless the task was cancelled, that log is complete.
     */
    method FollowTask() returns (r: Verdict, ghost cursor: nat)
      requires repo.Valid()
      modifies this`shown, repo`at, repo`failures
      ensures repo.Valid() && old(repo.at) <= repo.at
      ensures Stretch(old(shown), shown, repo.Now().rows, 0, cursor)
      ensures repo.failures == old(repo.failures) + if r.ReadFailed? then 1 else 0
      ensures r.NoSuchTask? <==> !repo.known && !r.ReadFailed?
      ensures r.NoSuchTask? ==> shown == old(shown)
      ensures r.PollingForever? ==> repo.at == |repo.run| && !repo.Now().status.IsTerminal()
      ensures r.PollingForever? && WorkerIsDone(repo.Now()) ==> LosesAnywhere(Fresh(repo.cancellable), repo.run)
      ensures r.Followed? ==> r.status.IsTerminal() && r.status == repo.Now().status
      ensures r.Followed? ==> cursor == |repo.Now().rows|
      ensures r.Followed? && !r.status.Cancelled? ==> Complete(repo.Now(), r.status)
      ensures r.Followed? ==> FromTheRun(repo.Now(), repo.cancellable, repo.run[..repo.at])
      ensures r.Followed? && r.status.Cancelled? ==> repo.cancellable
    {
      cursor := 0;
      var task := repo.ById();
      if task.Err? {
        return ReadFailed, cursor;
      }
      if task.value.None? {
        return NoSuchTask, cursor;
      }
      var afterSeq := 0;
      while true
        invariant repo.Valid() && old(repo.at) <= repo.at && repo.known
        invariant Stretch(old(shown), shown, repo.Now().rows, 0, afterSeq)
        invariant repo.failures == old(repo.failures)
        decreases |repo.run| - repo.at
      {
        var ok, next;
        ghost var mid, was := shown, repo.Now();
        ok, next := DrainLogs(afterSeq);
        cursor := next;
        Drained(old(shown), mid, shown, was, repo.Now(), afterSeq, cursor);
        if !ok {
          return ReadFailed, cursor;
        }
        afterSeq := next;
        was := repo.Now();
        task := repo.ById();
        StretchLater(old(shown), shown, was, repo.Now(), 0, cursor);
        if task.Err? {
          return ReadFailed, cursor;
        }
        if task.value.value.IsTerminal() {
          mid, was := shown, repo.Now();
          ok, next := DrainLogs(afterSeq);
          cursor := next;
          Drained(old(shown), mid, shown, was, repo.Now(), afterSeq, cursor);
          MomentHolds(repo.cancellable, repo.run, repo.at);
          EndIsComplete(repo.Now());
          EndTellsTheOutcome(repo.cancellable, repo.run[..repo.at]);
          return if ok then Followed(task.value.value) else ReadFailed, cursor;
        }
        was := repo.Now();
        var over := repo.Sleep();
        StretchLater(old(shown), shown, was, repo.Now(), 0, cursor);
        if over {
          NotDoneYet(repo.cancellable, repo.run);
          return PollingForever, cursor;
        }
      }
    }
  }
}
