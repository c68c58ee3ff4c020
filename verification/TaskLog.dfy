/**
 The task log protocol, writing side: a worker runs an operation, a pump persists and
 publishes the lines it emits, and a terminal status closes the task.

 Worker, pump and a canceller take steps in any order.  Every database write may fail.
 */
module TaskLog {
  import opened Text

  datatype Status = Queued | Running | Succeeded | Failed | Cancelled {
    predicate IsTerminal() {
      Succeeded? || Failed? || Cancelled?
    }
  }

  datatype Row = Row(seqno: nat, line: string)

  /** What a task puts on the event bus. */
  datatype Event = State(status: Status) | Logged(row: Row)

  /** How the operation ended, and the status the worker will give the task for it. */
  datatype Outcome = Fine | Error(text: string) {
    function Final(): Status { if Fine? then Succeeded else Failed }
  }

  const FAILURE := "task failed: "

  datatype Worker =
    | Starting
    | Announcing
    | Operating
    | AwaitingPump(outcome: Outcome)
    | Explaining(text: string)
    | Settling(outcome: Outcome)
    | AnnouncingEnd(outcome: Outcome)
    | Ended(outcome: Outcome)
    | Abandoning
    | Abandoned

  datatype Pump = Idle | Holding(line: string) | Publishing(row: Row) | Stopped

  datatype Agent = Agent(
    worker: Worker,
    pump: Pump,
    queue: seq<string>,       // lines emitted and not yet received by the pump
    closed: bool,             // every sender has been dropped
    status: Status,
    cancellable: bool,
    rows: seq<Row>,           // the persisted log
    bus: seq<Event>,          // what the worker and the pump published, in order
    received: seq<string>,    // every line the pump has received
    emitted: seq<string>,     // every line the operation emitted
    pumped: nat,              // how many rows the pump has written
    lost: nat)                // how many lines it could not persist

  datatype Action =
    | StartTask(ok: bool)
    | AnnounceRunning
    | Emit(line: string)
    | Return(outcome: Outcome)
    | PumpJoined
    | AppendFailure(ok: bool)
    | FinishTask(ok: bool)
    | AnnounceFinal
    | Receive
    | EndOfQueue
    | Append(ok: bool)
    | Publish
    | CancelTask

  function Fresh(cancellable: bool): Agent {
    Agent(Starting, Idle, [], false, Queued, cancellable, [], [], [], [], 0, 0)
  }

  /** The next sequence number is one more than the highest so far. */
  function NextSeqno(rows: seq<Row>): nat {
    if rows == [] then 1 else rows[|rows| - 1].seqno + 1
  }

  function AppendRow(a: Agent, line: string): Agent {
    a.(rows := a.rows + [Row(NextSeqno(a.rows), line)])
  }

  /** The update that finishes a task spares one that is already finished. */
  function Settled(status: Status, final: Status): Status {
    if status.Queued? || status.Running? then final else status
  }

  /** One action; an action that is not enabled changes nothing. */
  function Step(a: Agent, act: Action): Agent {
    match (act, a.worker)
    case (StartTask(ok), Starting) =>
      if ok && a.status.Queued? then a.(worker := Announcing, status := Running)
      else a.(worker := Abandoning, closed := true)
    case (AnnounceRunning, Announcing) => a.(worker := Operating, bus := a.bus + [State(Running)])
    case (Emit(line), Operating) => a.(queue := a.queue + [line], emitted := a.emitted + [line])
    case (Return(outcome), Operating) => a.(worker := AwaitingPump(outcome), closed := true)
    case (PumpJoined, AwaitingPump(outcome)) =>
      if !a.pump.Stopped? then a
      else (match outcome
            case Fine => a.(worker := Settling(Fine))
            case Error(text) => a.(worker := Explaining(text)))
    case (PumpJoined, Abandoning) => if a.pump.Stopped? then a.(worker := Abandoned) else a
    case (AppendFailure(ok), Explaining(text)) =>
      var next := a.(worker := Settling(Error(text)));
      if ok then AppendRow(next, FAILURE + text) else next.(lost := a.lost + 1)
    case (FinishTask(ok), Settling(outcome)) =>
      a.(worker := AnnouncingEnd(outcome),
         status := if ok then Settled(a.status, outcome.Final()) else a.status)
    case (AnnounceFinal, AnnouncingEnd(outcome)) =>
      a.(worker := Ended(outcome), bus := a.bus + [State(outcome.Final())])
    case (Receive, _) =>
      if a.pump.Idle? && a.queue != []
      then a.(pump := Holding(a.queue[0]), queue := a.queue[1..], received := a.received + [a.queue[0]])
      else a
    case (EndOfQueue, _) =>
      if a.pump.Idle? && a.queue == [] && a.closed then a.(pump := Stopped) else a
    case (Append(ok), _) =>
      if !a.pump.Holding? then a
      else if ok then
        AppendRow(a, a.pump.line).(pump := Publishing(Row(NextSeqno(a.rows), a.pump.line)), pumped := a.pumped + 1)
      else a.(pump := Idle, lost := a.lost + 1)
    case (Publish, _) =>
      if a.pump.Publishing? then a.(pump := Idle, bus := a.bus + [Logged(a.pump.row)]) else a
    case (CancelTask, _) =>
      if a.cancellable && (a.status.Queued? || a.status.Running?) then a.(status := Cancelled) else a
    case _ => a
  }

  function Execute(a: Agent, acts: seq<Action>): Agent
    decreases |acts|
  {
    if acts == [] then a else Execute(Step(a, acts[0]), acts[1..])
  }

  lemma {:induction false} ExecuteAppend(a: Agent, x: seq<Action>, y: seq<Action>)
    ensures Execute(a, x + y) == Execute(Execute(a, x), y)
    decreases |x|
  {
    if x == [] {
      assert x + y == y;
    } else {
      assert (x + y)[0] == x[0] && (x + y)[1..] == x[1..] + y;
      ExecuteAppend(Step(a, x[0]), x[1..], y);
    }
  }

  // ----------------------------------------------------------------- order on the bus

  /** The rows are numbered 1, 2, 3 and so on. */
  predicate Dense(rows: seq<Row>) {
    forall i :: 0 <= i < |rows| ==> rows[i].seqno == i + 1
  }

  function LoggedAll(rows: seq<Row>): (events: seq<Event>)
    ensures |events| == |rows|
  {
    seq(|rows|, i requires 0 <= i < |rows| => Logged(rows[i]))
  }

  function LinesOf(rows: seq<Row>): seq<string> {
    seq(|rows|, i requires 0 <= i < |rows| => rows[i].line)
  }

  /** `xs` is what is left of `ys` when some of its elements are dropped. */
  predicate Subsequence(xs: seq<string>, ys: seq<string>) {
    if xs == [] then true
    else if ys == [] then false
    else if xs[|xs| - 1] == ys[|ys| - 1] && Subsequence(xs[..|xs| - 1], ys[..|ys| - 1]) then true
    else Subsequence(xs, ys[..|ys| - 1])
  }

  lemma SubsequenceKeeps(xs: seq<string>, ys: seq<string>, y: string)
    requires Subsequence(xs, ys)
    ensures Subsequence(xs + [y], ys + [y])
    ensures Subsequence(xs, ys + [y])
  {
    assert (xs + [y])[..|xs|] == xs && (ys + [y])[..|ys|] == ys;
  }

  lemma {:induction false} SubsequenceDropsLast(xs: seq<string>, x: string, ys: seq<string>)
    requires Subsequence(xs + [x], ys)
    ensures Subsequence(xs, ys)
    decreases |ys|
  {
    var longer := xs + [x];
    assert longer[..|xs|] == xs;
    var shorter := ys[..|ys| - 1];
    if xs != [] {
      if longer[|xs|] == ys[|ys| - 1] && Subsequence(xs, shorter) {
        SubsequenceKeeps(xs, shorter, ys[|ys| - 1]);
        assert shorter + [ys[|ys| - 1]] == ys;
      } else {
        SubsequenceDropsLast(xs, x, shorter);
        SubsequenceKeeps(xs, shorter, ys[|ys| - 1]);
        assert shorter + [ys[|ys| - 1]] == ys;
      }
    }
  }

  // ----------------------------------------------------------------- what every action keeps

  /** The worker has not announced that the task is running, or never will. */
  predicate NotBegun(w: Worker) {
    w.Starting? || w.Announcing? || w.Abandoning? || w.Abandoned?
  }

  /** The worker is past the point where it waited for the pump. */
  predicate PastPump(w: Worker) {
    w.Explaining? || w.Settling? || w.AnnouncingEnd? || w.Ended?
  }

  /** The log is complete: nothing can be added to it any more. */
  predicate Closed(a: Agent) {
    a.worker.Settling? || a.worker.AnnouncingEnd? || a.worker.Ended?
  }

  function Held(p: Pump): seq<string> {
    if p.Holding? then [p.line] else []
  }

  /** How many rows have been published. */
  function Announced(a: Agent): int {
    if a.pump.Publishing? then a.pumped - 1 else a.pumped
  }

  predicate Staged(a: Agent) {
    && (a.closed <==> !(a.worker.Starting? || a.worker.Announcing? || a.worker.Operating?))
    && (a.pump.Stopped? ==> a.closed && a.queue == [])
    && (PastPump(a.worker) ==> a.pump.Stopped?)
    && (NotBegun(a.worker) ==> a.rows == [] && a.queue == [] && a.emitted == [] && (a.pump.Idle? || a.pump.Stopped?))
  }

  predicate Numbered(a: Agent) {
    && Dense(a.rows)
    && a.pumped <= |a.rows| <= a.pumped + 1
    && (a.pump.Publishing? ==> a.pumped > 0 && a.pump.row == a.rows[a.pumped - 1])
    && (|a.rows| > a.pumped ==> Closed(a) && a.worker.outcome.Error?)
  }

  /** Of a failed task whose every line was written, the last line gives the reason. */
  predicate Explained(a: Agent) {
    Closed(a) && a.worker.outcome.Error? ==>
      && a.pumped <= |a.rows| <= a.pumped + 1
      && (a.lost == 0 ==> |a.rows| == a.pumped + 1)
      && (|a.rows| == a.pumped + 1 ==> a.rows[a.pumped].line == FAILURE + a.worker.outcome.text)
  }

  predicate Faithful(a: Agent) {
    && a.pumped <= |a.rows|
    && a.emitted == a.received + a.queue
    && Subsequence(LinesOf(a.rows[..a.pumped]) + Held(a.pump), a.received)
    && (a.lost == 0 ==> LinesOf(a.rows[..a.pumped]) + Held(a.pump) == a.received)
  }

  /** The bus so far: running, then the published rows in order, then the one final state. */
  function BusOf(a: Agent): seq<Event>
    requires 0 <= Announced(a) <= |a.rows|
  {
    if NotBegun(a.worker) then []
    else
      [State(Running)] + LoggedAll(a.rows[..Announced(a)])
      + if a.worker.Ended? then [State(a.worker.outcome.Final())] else []
  }

  predicate Ordered(a: Agent) {
    0 <= Announced(a) <= |a.rows| && a.bus == BusOf(a)
  }

  /** A status that says the task is over, unless somebody cancelled it, comes after the last log line. */
  predicate Sealed(a: Agent) {
    && (a.status.Succeeded? || a.status.Failed? ==>
          && (a.worker.AnnouncingEnd? || a.worker.Ended?)
          && a.status == a.worker.outcome.Final())
    && (a.status.Cancelled? ==> a.cancellable)
  }

  predicate Holds(a: Agent) {
    Staged(a) && Numbered(a) && Explained(a) && Faithful(a) && Ordered(a) && Sealed(a)
  }

  lemma StagedKept(a: Agent, act: Action)
    requires Staged(a)
    ensures Staged(Step(a, act))
  {
  }

  lemma NumberedKept(a: Agent, act: Action)
    requires Staged(a) && Numbered(a)
    ensures Numbered(Step(a, act))
  {
  }

  lemma ExplainedKept(a: Agent, act: Action)
    requires Staged(a) && Numbered(a) && Explained(a)
    ensures Explained(Step(a, act))
  {
  }

  lemma ReceiveFaithful(a: Agent)
    requires Staged(a) && Numbered(a) && Faithful(a) && a.pump.Idle? && a.queue != []
    ensures Faithful(Step(a, Receive))
  {
    var next := Step(a, Receive);
    var lines := LinesOf(a.rows[..a.pumped]);
    assert lines + Held(a.pump) == lines;
    assert a.queue == [a.queue[0]] + a.queue[1..];
    assert a.received + a.queue == (a.received + [a.queue[0]]) + a.queue[1..];
    SubsequenceKeeps(lines, a.received, a.queue[0]);
    assert Held(next.pump) == [a.queue[0]];
  }

  lemma PumpedLines(rows: seq<Row>, n: nat, row: Row)
    requires n == |rows|
    ensures LinesOf((rows + [row])[..n + 1]) == LinesOf(rows[..n]) + [row.line]
  {
    assert (rows + [row])[..n + 1] == rows + [row] && rows[..n] == rows;
  }

  lemma AppendFaithful(a: Agent, ok: bool)
    requires Staged(a) && Numbered(a) && Faithful(a) && a.pump.Holding?
    ensures Faithful(Step(a, Append(ok)))
  {
    var next := Step(a, Append(ok));
    var lines := LinesOf(a.rows[..a.pumped]);
    if ok {
      PumpedLines(a.rows, a.pumped, Row(NextSeqno(a.rows), a.pump.line));
      assert LinesOf(next.rows[..next.pumped]) + Held(next.pump) == lines + Held(a.pump);
    } else {
      SubsequenceDropsLast(lines, a.pump.line, a.received);
      assert lines + Held(next.pump) == lines;
    }
  }

  lemma EmitFaithful(a: Agent, line: string)
    requires Faithful(a) && a.worker.Operating?
    ensures Faithful(Step(a, Emit(line)))
  {
    assert a.received + (a.queue + [line]) == (a.received + a.queue) + [line];
  }

  /** The action moved no line between the queue, the pump and the log. */
  predicate SameLines(a: Agent, next: Agent) {
    && next.emitted == a.emitted && next.received == a.received && next.queue == a.queue
    && next.pumped == a.pumped && next.lost >= a.lost
    && |a.rows| <= |next.rows| && next.rows[..|a.rows|] == a.rows
    && Held(next.pump) == Held(a.pump)
  }

  predicate MovesLines(a: Agent, act: Action) {
    || (act.Receive? && a.pump.Idle? && a.queue != [])
    || (act.Append? && a.pump.Holding?)
    || (act.Emit? && a.worker.Operating?)
  }

  lemma OtherActionsMoveNothing(a: Agent, act: Action)
    requires !MovesLines(a, act)
    ensures SameLines(a, Step(a, act))
  {
  }

  lemma SameLinesFaithful(a: Agent, next: Agent)
    requires Faithful(a) && SameLines(a, next)
    ensures Faithful(next)
  {
    assert next.rows[..next.pumped] == next.rows[..|a.rows|][..a.pumped] == a.rows[..a.pumped];
  }

  lemma FaithfulKept(a: Agent, act: Action)
    requires Staged(a) && Numbered(a) && Faithful(a)
    ensures Faithful(Step(a, act))
  {
    if !MovesLines(a, act) {
      OtherActionsMoveNothing(a, act);
      SameLinesFaithful(a, Step(a, act));
    } else {
      match act
      case Receive => ReceiveFaithful(a);
      case Append(ok) => AppendFaithful(a, ok);
      case Emit(line) => EmitFaithful(a, line);
    }
  }

  lemma PublishOrdered(a: Agent)
    requires Staged(a) && Numbered(a) && Ordered(a) && a.pump.Publishing?
    ensures Ordered(Step(a, Publish))
  {
    var n := Announced(a);
    assert !a.worker.Ended? && !NotBegun(a.worker);
    assert a.rows[..n + 1] == a.rows[..n] + [a.rows[n]];
    assert LoggedAll(a.rows[..n + 1]) == LoggedAll(a.rows[..n]) + [Logged(a.rows[n])];
    var head := [State(Running)] + LoggedAll(a.rows[..n]);
    assert a.bus == head + [] == head;
    assert head + [Logged(a.rows[n])] == [State(Running)] + LoggedAll(a.rows[..n + 1]) + [];
  }

  lemma RunningOrdered(a: Agent)
    requires Staged(a) && Numbered(a) && Ordered(a) && a.worker.Announcing?
    ensures Ordered(Step(a, AnnounceRunning))
  {
    assert a.rows[..0] == [] && LoggedAll([]) == [];
    assert a.pumped == 0;
    assert [] + [State(Running)] == [State(Running)] + [] + [];
  }

  lemma FinalOrdered(a: Agent)
    requires Staged(a) && Numbered(a) && Ordered(a) && a.worker.AnnouncingEnd?
    ensures Ordered(Step(a, AnnounceFinal))
  {
    var head := [State(Running)] + LoggedAll(a.rows[..Announced(a)]);
    assert a.bus == head + [] == head;
  }

  predicate Publishes(a: Agent, act: Action) {
    || (act.Publish? && a.pump.Publishing?)
    || (act.AnnounceRunning? && a.worker.Announcing?)
    || (act.AnnounceFinal? && a.worker.AnnouncingEnd?)
  }

  /** Neither the bus nor anything it is read off has changed. */
  predicate SameBus(a: Agent, next: Agent) {
    && next.bus == a.bus && Announced(next) == Announced(a)
    && |a.rows| <= |next.rows| && next.rows[..|a.rows|] == a.rows
    && NotBegun(next.worker) == NotBegun(a.worker)
    && (a.worker.Ended? || next.worker.Ended? ==> next.worker == a.worker)
  }

  lemma OtherActionsPublishNothing(a: Agent, act: Action)
    requires !Publishes(a, act)
    ensures SameBus(a, Step(a, act))
  {
  }

  lemma SameBusOrdered(a: Agent, next: Agent)
    requires Ordered(a) && SameBus(a, next)
    ensures Ordered(next)
  {
    var n := Announced(a);
    assert next.rows[..n] == next.rows[..|a.rows|][..n] == a.rows[..n];
  }

  lemma OrderedKept(a: Agent, act: Action)
    requires Staged(a) && Numbered(a) && Ordered(a)
    ensures Ordered(Step(a, act))
  {
    if !Publishes(a, act) {
      OtherActionsPublishNothing(a, act);
      SameBusOrdered(a, Step(a, act));
    } else {
      match act
      case Publish => PublishOrdered(a);
      case AnnounceRunning => RunningOrdered(a);
      case AnnounceFinal => FinalOrdered(a);
    }
  }

  lemma SealedKept(a: Agent, act: Action)
    requires Staged(a) && Sealed(a)
    ensures Sealed(Step(a, act))
  {
  }

  lemma StepHolds(a: Agent, act: Action)
    requires Holds(a)
    ensures Holds(Step(a, act))
    ensures Step(a, act).cancellable == a.cancellable
  {
    StagedKept(a, act);
    NumberedKept(a, act);
    ExplainedKept(a, act);
    FaithfulKept(a, act);
    OrderedKept(a, act);
    SealedKept(a, act);
  }

  lemma {:induction false} ExecuteHolds(a: Agent, acts: seq<Action>)
    requires Holds(a)
    ensures Holds(Execute(a, acts))
    ensures Execute(a, acts).cancellable == a.cancellable
    decreases |acts|
  {
    if acts != [] {
      StepHolds(a, acts[0]);
      ExecuteHolds(Step(a, acts[0]), acts[1..]);
    }
  }

  lemma FreshHolds(cancellable: bool)
    ensures Holds(Fresh(cancellable))
  {
    var a := Fresh(cancellable);
    assert a.rows[..0] == [] && LinesOf([]) == [] && LoggedAll([]) == [];
  }

  // ----------------------------------------------------------------- the laws

  /**
   Whatever the scheduling of the pump, what a task publishes is: running, then its log
   events in the order of their sequence numbers 1, 2, 3 and so on, then exactly one of ok
   or failed, then nothing.  Their lines are the operation's lines in the order it emitted
   them, all of them unless a write failed.
   */
  lemma BusIsOrderly(cancellable: bool, acts: seq<Action>)
    ensures var a := Execute(Fresh(cancellable), acts);
            && 0 <= Announced(a) <= |a.rows|
            && a.bus == BusOf(a)
            && Dense(a.rows)
            && a.pumped <= |a.rows|
            && |a.received| <= |a.emitted|
            && Subsequence(LinesOf(a.rows[..a.pumped]) + Held(a.pump), a.emitted[..|a.received|])
            && (a.worker.Ended? && a.lost == 0 ==>
                  a.bus == [State(Running)] + LoggedAll(a.rows[..a.pumped])
                           + [State(if a.worker.outcome.Fine? then Succeeded else Failed)]
                  && LinesOf(a.rows[..a.pumped]) == a.emitted)
  {
    FreshHolds(cancellable);
    ExecuteHolds(Fresh(cancellable), acts);
    var a := Execute(Fresh(cancellable), acts);
    assert a.emitted[..|a.received|] == a.received;
    if a.worker.Ended? {
      assert Held(a.pump) == [] && a.queue == [];
      assert a.received + [] == a.received;
      assert LinesOf(a.rows[..a.pumped]) + [] == LinesOf(a.rows[..a.pumped]);
    }
  }

  lemma StepAfterTheEnd(a: Agent, act: Action)
    requires Staged(a) && a.worker.Ended?
    ensures var next := Step(a, act); next.worker == a.worker && next.bus == a.bus && next.rows == a.rows
  {
  }

  /** Once the final state is out, the task publishes nothing more. */
  lemma {:induction false} NothingAfterTheEnd(a: Agent, acts: seq<Action>)
    requires Holds(a) && a.worker.Ended?
    ensures Execute(a, acts).bus == a.bus && Execute(a, acts).rows == a.rows
    decreases |acts|
  {
    if acts != [] {
      StepHolds(a, acts[0]);
      StepAfterTheEnd(a, acts[0]);
      NothingAfterTheEnd(Step(a, acts[0]), acts[1..]);
    }
  }

  lemma StepOfClosed(a: Agent, act: Action)
    requires Staged(a) && Closed(a)
    ensures Closed(Step(a, act)) && Step(a, act).rows == a.rows
  {
  }

  lemma {:induction false} ClosedStaysClosed(a: Agent, acts: seq<Action>)
    requires Holds(a) && Closed(a)
    ensures Execute(a, acts).rows == a.rows
    decreases |acts|
  {
    if acts != [] {
      StepHolds(a, acts[0]);
      StepOfClosed(a, acts[0]);
      ClosedStaysClosed(Step(a, acts[0]), acts[1..]);
    }
  }

  /** The log of a task never grows after its status became ok or failed. */
  lemma TerminalMeansComplete(cancellable: bool, before: seq<Action>, after: seq<Action>)
    requires var status := Execute(Fresh(cancellable), before).status; status.Succeeded? || status.Failed?
    ensures Execute(Fresh(cancellable), before + after).rows == Execute(Fresh(cancellable), before).rows
  {
    FreshHolds(cancellable);
    ExecuteHolds(Fresh(cancellable), before);
    ExecuteAppend(Fresh(cancellable), before, after);
    ClosedStaysClosed(Execute(Fresh(cancellable), before), after);
  }

  /** In no run does the log grow after the status became terminal. */
  ghost predicate TerminalIsLast(cancellable: bool) {
    forall before, after :: GrowsNot(cancellable, before, after)
  }

  predicate GrowsNot(cancellable: bool, before: seq<Action>, after: seq<Action>) {
    Execute(Fresh(cancellable), before).status.IsTerminal() ==>
      Execute(Fresh(cancellable), before + after).rows == Execute(Fresh(cancellable), before).rows
  }

  lemma ExecuteCons(a: Agent, act: Action, acts: seq<Action>)
    ensures Execute(a, [act] + acts) == Execute(Step(a, act), acts)
  {
    assert ([act] + acts)[1..] == acts;
  }

  function CancelledAgent(line: string): Agent {
    Agent(Operating, Idle, [line], false, Cancelled, true, [], [State(Running)], [], [line], 0, 0)
  }

  lemma CancelledEarly(line: string)
    ensures Execute(Fresh(true), [StartTask(true)] + ([AnnounceRunning] + ([Emit(line)] + ([CancelTask] + []))))
            == CancelledAgent(line)
  {
    var a := Fresh(true);
    ExecuteCons(a, StartTask(true), [AnnounceRunning] + ([Emit(line)] + ([CancelTask] + [])));
    var b := Step(a, StartTask(true));
    ExecuteCons(b, AnnounceRunning, [Emit(line)] + ([CancelTask] + []));
    var c := Step(b, AnnounceRunning);
    ExecuteCons(c, Emit(line), [CancelTask] + []);
    ExecuteCons(Step(c, Emit(line)), CancelTask, []);
  }

  lemma LoggedLate(line: string)
    ensures Execute(CancelledAgent(line), [Receive] + ([Append(true)] + [])).rows == [Row(1, line)]
  {
    var a := CancelledAgent(line);
    ExecuteCons(a, Receive, [Append(true)] + []);
    ExecuteCons(Step(a, Receive), Append(true), []);
  }

  /** A run in which a cancelled task goes on logging. */
  lemma CancelledTaskGoesOn(line: string)
    ensures !GrowsNot(true, [StartTask(true), AnnounceRunning, Emit(line), CancelTask], [Receive, Append(true)])
  {
    var before := [StartTask(true), AnnounceRunning, Emit(line), CancelTask];
    var after := [Receive, Append(true)];
    assert before == [StartTask(true)] + ([AnnounceRunning] + ([Emit(line)] + ([CancelTask] + [])));
    assert after == [Receive] + ([Append(true)] + []);
    CancelledEarly(line);
    LoggedLate(line);
    ExecuteAppend(Fresh(true), before, after);
  }

  /**
   A terminal status comes after the last log line in every run of a task exactly when the
   task cannot be cancelled: cancelling marks the row while the worker may still append.
   */
  lemma TerminalIsLastExactlyWhen(cancellable: bool)
    ensures TerminalIsLast(cancellable) <==> !cancellable
  {
    if cancellable {
      CancelledTaskGoesOn("");
    } else {
      forall before, after
        ensures GrowsNot(false, before, after)
      {
        if Execute(Fresh(false), before).status.IsTerminal() {
          FreshHolds(false);
          ExecuteHolds(Fresh(false), before);
          TerminalMeansComplete(false, before, after);
        }
      }
    }
  }

  /** The log a task should leave: what its operation said, then why it failed if it did. */
  function FullLog(emitted: seq<string>, outcome: Outcome): seq<string> {
    emitted + if outcome.Error? then [FAILURE + outcome.text] else []
  }

  /** A closed log holds every line, the reason of a failure last, unless a write failed. */
  lemma ClosedLogIsFull(a: Agent)
    requires Holds(a) && Closed(a) && a.lost == 0
    ensures LinesOf(a.rows) == FullLog(a.emitted, a.worker.outcome)
  {
    var lines := LinesOf(a.rows[..a.pumped]);
    assert lines + Held(a.pump) == lines;
    assert a.received + a.queue == a.received;
    assert LinesOf(a.rows) == lines + LinesOf(a.rows[a.pumped..]);
  }

  // ----------------------------------------------------------------- what the operation did, and what is told of it

  /** How the operation ended, as far as the worker remembers it. */
  function OutcomeOf(w: Worker): Option<Outcome> {
    match w
    case AwaitingPump(outcome) => Some(outcome)
    case Explaining(text) => Some(Error(text))
    case Settling(outcome) => Some(outcome)
    case AnnouncingEnd(outcome) => Some(outcome)
    case Ended(outcome) => Some(outcome)
    case _ => None
  }

  /** How the operation ended in this run. */
  function Reported(a: Agent, acts: seq<Action>): Option<Outcome>
    decreases |acts|
  {
    if acts == [] then None
    else if acts[0].Return? && a.worker.Operating? then Some(acts[0].outcome)
    else Reported(Step(a, acts[0]), acts[1..])
  }

  /** What the operation said in this run. */
  function Said(a: Agent, acts: seq<Action>): seq<string>
    decreases |acts|
  {
    if acts == [] then []
    else
      (if acts[0].Emit? && a.worker.Operating? then [acts[0].line] else [])
      + Said(Step(a, acts[0]), acts[1..])
  }

  lemma StepRemembers(a: Agent, act: Action)
    ensures var next := Step(a, act);
            && OutcomeOf(next.worker) == (if act.Return? && a.worker.Operating? then Some(act.outcome) else OutcomeOf(a.worker))
            && next.emitted == a.emitted + if act.Emit? && a.worker.Operating? then [act.line] else []
  {
  }

  lemma {:induction false} ExecuteRemembers(a: Agent, acts: seq<Action>)
    ensures var last := Execute(a, acts);
            && OutcomeOf(last.worker) == (if OutcomeOf(a.worker).Some? then OutcomeOf(a.worker) else Reported(a, acts))
            && last.emitted == a.emitted + Said(a, acts)
    decreases |acts|
  {
    if acts != [] {
      StepRemembers(a, acts[0]);
      ExecuteRemembers(Step(a, acts[0]), acts[1..]);
    }
  }

  /** The end of the bus and the status tell the outcome: ok if the operation was fine, failed if it was not. */
  predicate Tells(a: Agent) {
    && (a.worker.Ended? && a.worker.outcome.Fine? ==> a.bus != [] && a.bus[|a.bus| - 1] == State(Succeeded))
    && (a.worker.Ended? && a.worker.outcome.Error? ==> a.bus != [] && a.bus[|a.bus| - 1] == State(Failed))
    && (a.status.Succeeded? ==> OutcomeOf(a.worker) == Some(Fine))
    && (a.status.Failed? ==> OutcomeOf(a.worker).Some? && OutcomeOf(a.worker).value.Error?)
  }

  lemma HoldsTells(a: Agent)
    requires Holds(a)
    ensures Tells(a)
  {
  }

  /**
   Over every run: the outcome the worker settles is the one its operation returned with, the
   lines it logs are those the operation emitted, and what it publishes last and writes as the
   status is ok if the operation was fine and failed if it was not.
   */
  lemma EndTellsTheOutcome(cancellable: bool, acts: seq<Action>)
    ensures var a := Execute(Fresh(cancellable), acts);
            && Tells(a)
            && OutcomeOf(a.worker) == Reported(Fresh(cancellable), acts)
            && a.emitted == Said(Fresh(cancellable), acts)
  {
    FreshHolds(cancellable);
    ExecuteHolds(Fresh(cancellable), acts);
    HoldsTells(Execute(Fresh(cancellable), acts));
    ExecuteRemembers(Fresh(cancellable), acts);
  }

  // ----------------------------------------------------------------- reaching the end

  /** The write that starts the task, or the one that finishes it, fails now. */
  predicate LosesAWrite(a: Agent, act: Action) {
    || (act == StartTask(false) && a.worker.Starting?)
    || (act == FinishTask(false) && a.worker.Settling?)
  }

  /** One of them fails somewhere in the run. */
  predicate LosesAnywhere(a: Agent, acts: seq<Action>)
    decreases |acts|
  {
    acts != [] && (LosesAWrite(a, acts[0]) || LosesAnywhere(Step(a, acts[0]), acts[1..]))
  }

  /** The status keeps up with the worker. */
  predicate InStep(a: Agent) {
    a.status.Cancelled? || match a.worker
      case Starting => a.status.Queued?
      case Abandoning => false
      case Abandoned => false
      case AnnouncingEnd(_) => a.status.IsTerminal()
      case Ended(_) => a.status.IsTerminal()
      case _ => a.status.Running?
  }

  /** A write was lost, and unless it was cancelled the task still counts as under way. */
  predicate LeftBehind(a: Agent) {
    && (a.worker.Abandoning? || a.worker.Abandoned? || a.worker.AnnouncingEnd? || a.worker.Ended?)
    && (a.status.Queued? || a.status.Running? || a.status.Cancelled?)
  }

  lemma StepInStep(a: Agent, act: Action)
    requires InStep(a)
    ensures if LosesAWrite(a, act) then LeftBehind(Step(a, act)) else InStep(Step(a, act))
  {
  }

  lemma StepLeftBehind(a: Agent, act: Action)
    requires LeftBehind(a)
    ensures LeftBehind(Step(a, act)) && !LosesAWrite(a, act)
  {
  }

  lemma {:induction false} ExecuteLeftBehind(a: Agent, acts: seq<Action>)
    requires LeftBehind(a)
    ensures LeftBehind(Execute(a, acts))
    decreases |acts|
  {
    if acts != [] {
      StepLeftBehind(a, acts[0]);
      ExecuteLeftBehind(Step(a, acts[0]), acts[1..]);
    }
  }

  lemma {:induction false} ExecuteInStep(a: Agent, acts: seq<Action>)
    requires InStep(a)
    ensures if LosesAnywhere(a, acts) then LeftBehind(Execute(a, acts)) else InStep(Execute(a, acts))
    decreases |acts|
  {
    if acts != [] {
      StepInStep(a, acts[0]);
      if LosesAWrite(a, acts[0]) {
        ExecuteLeftBehind(Step(a, acts[0]), acts[1..]);
      } else {
        ExecuteInStep(Step(a, acts[0]), acts[1..]);
      }
    }
  }

  predicate WorkerIsDone(a: Agent) {
    a.worker.Ended? || a.worker.Abandoned?
  }

  /**
   Once the worker is done, the status is terminal, and a follower stops, exactly when neither
   the write that starts the task nor the one that finishes it was lost, or it was cancelled.
   */
  lemma DoneIsTerminalExactlyWhen(cancellable: bool, acts: seq<Action>)
    requires WorkerIsDone(Execute(Fresh(cancellable), acts))
    ensures var a := Execute(Fresh(cancellable), acts);
            a.status.IsTerminal() <==> !LosesAnywhere(Fresh(cancellable), acts) || a.status.Cancelled?
  {
    ExecuteInStep(Fresh(cancellable), acts);
  }

  lemma {:induction false} LosesInPart(a: Agent, x: seq<Action>, y: seq<Action>)
    requires LosesAnywhere(a, x)
    ensures LosesAnywhere(a, x + y)
    decreases |x|
  {
    assert (x + y)[0] == x[0] && (x + y)[1..] == x[1..] + y;
    if !LosesAWrite(a, x[0]) {
      LosesInPart(Step(a, x[0]), x[1..], y);
    }
  }

  /** A lost write is never made up for: in no continuation is the status ok or failed. */
  lemma LostStatusStaysLost(cancellable: bool, before: seq<Action>, after: seq<Action>)
    requires LosesAnywhere(Fresh(cancellable), before)
    ensures var status := Execute(Fresh(cancellable), before + after).status;
            !status.Succeeded? && !status.Failed? && (!cancellable ==> !status.IsTerminal())
  {
    LosesInPart(Fresh(cancellable), before, after);
    ExecuteInStep(Fresh(cancellable), before + after);
    FreshHolds(cancellable);
    ExecuteHolds(Fresh(cancellable), before + after);
  }

  // ----------------------------------------------------------------- nothing gets stuck

  function WorkerLeft(w: Worker): nat {
    match w
    case Starting => 7
    case Announcing => 6
    case Operating => 5
    case AwaitingPump(_) => 4
    case Abandoning => 4
    case Explaining(_) => 3
    case Settling(_) => 2
    case AnnouncingEnd(_) => 1
    case Ended(_) => 0
    case Abandoned => 0
  }

  function PumpLeft(p: Pump): nat {
    match p
    case Holding(_) => 3
    case Publishing(_) => 2
    case Idle => 1
    case Stopped => 0
  }

  function Left(a: Agent): nat {
    WorkerLeft(a.worker) + PumpLeft(a.pump) + 3 * |a.queue|
  }

  /** What the pump does next. */
  function PumpAction(a: Agent): Action {
    match a.pump
    case Holding(_) => Append(true)
    case Publishing(_) => Publish
    case _ => if a.queue != [] then Receive else EndOfQueue
  }

  /** Something that brings the task nearer its end, the operation itself included. */
  function NextAction(a: Agent): Action {
    match a.worker
    case Starting => StartTask(true)
    case Announcing => AnnounceRunning
    case Operating => Return(Fine)
    case AwaitingPump(_) => if a.pump.Stopped? then PumpJoined else PumpAction(a)
    case Abandoning => if a.pump.Stopped? then PumpJoined else PumpAction(a)
    case Explaining(_) => AppendFailure(true)
    case Settling(_) => FinishTask(true)
    case AnnouncingEnd(_) => AnnounceFinal
    case _ => CancelTask
  }

  lemma PumpMovesOn(a: Agent)
    requires Staged(a) && a.closed && !a.pump.Stopped?
    ensures Left(Step(a, PumpAction(a))) < Left(a)
  {
  }

  lemma NextActionMovesOn(a: Agent)
    requires Staged(a) && !WorkerIsDone(a)
    ensures Left(Step(a, NextAction(a))) < Left(a)
  {
    if (a.worker.AwaitingPump? || a.worker.Abandoning?) && !a.pump.Stopped? {
      PumpMovesOn(a);
    }
  }

  /** From every state of every run the task can still be brought to its end. */
  lemma {:induction false} EveryTaskCanEnd(a: Agent) returns (acts: seq<Action>)
    requires Holds(a)
    ensures WorkerIsDone(Execute(a, acts))
    decreases Left(a)
  {
    if WorkerIsDone(a) {
      acts := [];
    } else {
      NextActionMovesOn(a);
      StepHolds(a, NextAction(a));
      var rest := EveryTaskCanEnd(Step(a, NextAction(a)));
      acts := [NextAction(a)] + rest;
      ExecuteCons(a, NextAction(a), rest);
    }
  }
}
