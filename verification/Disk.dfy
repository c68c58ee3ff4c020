/**
 The crash-safe write: a staging file beside the target, filled, made durable, and renamed
 over it.

 A disk has what readers see (`names`) and the directory versions that losing power may still
 bring back (`older`).  Every primitive call may fail, and every one records the state it
 leaves, so a contract can speak of a crash between any two of them.
 */
module Disk {
  import opened Text
  import opened ManagedFile

  /** A directory entry: the file, and whether its bytes have reached the disk. */
  datatype Node = Node(entry: Entry, synced: bool)

  type Directory = map<string, Node>

  datatype Image = Image(names: Directory, older: seq<Directory>)

  type Tree = map<string, Entry>

  function Entries(names: Directory): Tree {
    map p | p in names :: names[p].entry
  }

  function Lookup(tree: Tree, path: string): Option<Entry> {
    if path in tree then Some(tree[path]) else None
  }

  function Staging(path: string): string {
    path + ".unihelm-tmp"
  }

  /** After losing power, a file whose bytes never reached the disk may hold anything. */
  ghost predicate MayHold(names: Directory, path: string, found: Option<Entry>) {
    if path !in names then found.None?
    else found.Some? && (names[path].synced ==> found.value == names[path].entry)
  }

  /** What may be found at `path` after losing power now. */
  ghost predicate Survives(image: Image, path: string, found: Option<Entry>) {
    || MayHold(image.names, path, found)
    || exists i :: 0 <= i < |image.older| && MayHold(image.older[i], path, found)
  }

  // ----------------------------------------------------------------- what a crash may leave

  /** Readers see the whole of the old file or the whole of the new one. */
  ghost predicate TargetWhole(before: Image, now: Image, path: string, written: Entry) {
    var found := Lookup(Entries(now.names), path);
    found == Lookup(Entries(before.names), path) || found == Some(written)
  }

  /** Losing power brings back nothing but what it could have brought back before, or the whole new file. */
  ghost predicate PowerLossSafe(before: Image, now: Image, path: string, written: Entry) {
    forall found :: Survives(now, path, found) ==> Survives(before, path, found) || found == Some(written)
  }

  /** No byte of the new content is in the staging file under any mode but the requested one. */
  ghost predicate StagingPrivate(before: Image, now: Image, path: string, written: Entry)
    requires written.Readable?
  {
    var found := Lookup(Entries(now.names), Staging(path));
    || found == Lookup(Entries(before.names), Staging(path))
    || found.None?
    || (&& found.value.Readable?
        && HasPrefix(written.content, found.value.content)
        && (found.value.content != "" ==> found.value.mode == written.mode))
  }

  ghost predicate OthersUntouched(before: Image, now: Image, path: string) {
    forall p :: p != path && p != Staging(path) ==>
      Lookup(Entries(now.names), p) == Lookup(Entries(before.names), p)
  }

  ghost predicate CrashSafe(before: Image, now: Image, path: string, written: Entry)
    requires written.Readable?
  {
    && TargetWhole(before, now, path, written)
    && PowerLossSafe(before, now, path, written)
    && StagingPrivate(before, now, path, written)
    && OthersUntouched(before, now, path)
  }

  // ----------------------------------------------------------------- the effect of a whole write

  /** How a write ended; one that failed may leave a staging file behind. */
  datatype WriteOutcome = Written | NotWritten(leftover: Option<Entry>)

  function AfterWrite(tree: Tree, path: string, entry: Entry, w: WriteOutcome): Tree {
    match w
    case Written => tree[path := entry] - {Staging(path)}
    case NotWritten(None) => tree - {Staging(path)}
    case NotWritten(Some(e)) => tree[Staging(path) := e]
  }

  datatype Removal = Gone | NotFound | Failed

  /** A call to the system, and how it was answered. */
  datatype Call =
    | MakeDir(ok: bool)
    | Open(path: string, ok: bool)
    | SetMode(path: string, mode: Mode, ok: bool)
    | WriteSome(path: string, text: string, ok: bool)
    | Sync(path: string, ok: bool)
    | Rename(from: string, to: string, ok: bool)
    | Unlink(path: string, removal: Removal)
    | SyncDir(ok: bool)

  datatype WriteError = NoDirectory | Io

  // ----------------------------------------------------------------- what was asked of the system

  /** The call failed, in a way that somebody is to hear about. */
  predicate Fails(c: Call) {
    match c
    case MakeDir(ok) => !ok
    case Open(_, ok) => !ok
    case SetMode(_, _, ok) => !ok
    case WriteSome(_, _, ok) => !ok
    case Sync(_, ok) => !ok
    case Rename(_, _, ok) => !ok
    case Unlink(_, removal) => removal.Failed?
    case SyncDir(_) => false
  }

  lemma CallsJoin(a: seq<Call>, b: seq<Call>, c: seq<Call>)
    ensures a + b + c == a + (b + c)
  {
  }

  /** How many calls failed. */
  function Failures(calls: seq<Call>): nat {
    if calls == [] then 0
    else Failures(calls[..|calls| - 1]) + if Fails(calls[|calls| - 1]) then 1 else 0
  }

  lemma OneMoreCall(calls: seq<Call>, c: Call)
    ensures Failures(calls + [c]) == Failures(calls) + if Fails(c) then 1 else 0
  {
    assert (calls + [c])[..|calls|] == calls;
  }

  /** What these calls wrote into `path`, one after another, if they did nothing else. */
  predicate Wrote(calls: seq<Call>, path: string, text: string) {
    if calls == [] then text == ""
    else
      var last := calls[|calls| - 1];
      && last.WriteSome? && last.path == path && last.ok && last.text != "" && |last.text| <= |text|
      && text[|text| - |last.text|..] == last.text
      && Wrote(calls[..|calls| - 1], path, text[..|text| - |last.text|])
  }

  lemma WroteMore(calls: seq<Call>, path: string, text: string, more: string)
    requires Wrote(calls, path, text) && more != ""
    ensures Wrote(calls + [WriteSome(path, more, true)], path, text + more)
  {
    assert (calls + [WriteSome(path, more, true)])[..|calls|] == calls;
    assert (text + more)[..|text|] == text && (text + more)[|text|..] == more;
  }

  lemma WroteNext(calls: seq<Call>, path: string, contents: string, n: nat, m: nat)
    requires n < m <= |contents| && Wrote(calls, path, contents[..n])
    ensures Wrote(calls + [WriteSome(path, contents[n..m], true)], path, contents[..m])
  {
    WroteMore(calls, path, contents[..n], contents[n..m]);
    assert contents[..n] + contents[n..m] == contents[..m];
  }

  lemma FilledBy(head: seq<Call>, writes: seq<Call>, temp: string, contents: string, mode: Mode)
    requires head == [Open(temp, true), SetMode(temp, mode, true)] && Wrote(writes, temp, contents)
    ensures Filled(head + writes, temp, contents, mode)
  {
    assert (head + writes)[2..] == writes;
  }

  /** The staging file has been made private and filled with all of `contents`. */
  predicate Filled(calls: seq<Call>, temp: string, contents: string, mode: Mode) {
    && |calls| >= 2
    && calls[0] == Open(temp, true) && calls[1] == SetMode(temp, mode, true)
    && Wrote(calls[2..], temp, contents)
  }

  /**
   The calls of a write that works: make the directory; open the staging file, set its mode,
   write all of the contents to it, sync it; rename it; ask for the directory to be synced.
   */
  predicate WholeWrite(calls: seq<Call>, path: string, contents: string, mode: Mode) {
    var n := |calls|;
    && n >= 6
    && calls[0] == MakeDir(true)
    && Filled(calls[1..n - 3], Staging(path), contents, mode)
    && calls[n - 3] == Sync(Staging(path), true)
    && calls[n - 2] == Rename(Staging(path), path, true)
    && calls[n - 1].SyncDir?
  }

  lemma WholeWriteIs(before: seq<Call>, after: seq<Call>, filled: seq<Call>, last: seq<Call>,
                     path: string, contents: string, mode: Mode)
    requires Filled(filled, Staging(path), contents, mode)
    requires |last| == 2 && last[0] == Rename(Staging(path), path, true) && last[1].SyncDir?
    requires after == before + [MakeDir(true)] + (filled + [Sync(Staging(path), true)]) + last
    ensures before <= after && WholeWrite(after[|before|..], path, contents, mode)
  {
    var calls := after[|before|..];
    assert calls == [MakeDir(true)] + (filled + [Sync(Staging(path), true)]) + last;
    assert calls[1..|calls| - 3] == filled;
  }

  class Filesystem {
    var names: Directory
    ghost var older: seq<Directory>
    ghost var history: seq<Image>
    ghost var calls: seq<Call>
    const umask: Mode

    constructor (names: Directory, umask: Mode)
      ensures this.names == names && older == [] && history == [] && calls == []
    {
      this.names := names;
      this.umask := umask;
      older, history, calls := [], [], [];
    }

    ghost function Now(): Image
      reads this
    {
      Image(names, older)
    }

    function Files(): Tree
      reads this
    {
      Entries(names)
    }

    /** The primitives below log their call and the state they leave. */
    twostate predicate Logged(call: Call)
      reads this
    {
      && calls == old(calls) + [call] && history == old(history) + [Now()]
      && Failures(calls) == Failures(old(calls)) + if Fails(call) then 1 else 0
    }

    method Log(call: Call)
      modifies this`calls, this`history
      ensures calls == old(calls) + [call] && history == old(history) + [Now()]
      ensures Failures(calls) == Failures(old(calls)) + if Fails(call) then 1 else 0
    {
      OneMoreCall(calls, call);
      calls, history := calls + [call], history + [Now()];
    }

    method MakeDirectory() returns (ok: bool)
      modifies this
      ensures names == old(names) && older == old(older) && Logged(MakeDir(ok))
    {
      ok := *;
      Log(MakeDir(ok));
    }

    function BornMode(names: Directory, p: string, mode: Mode): Mode {
      if p in names then names[p].entry.mode else mode - umask
    }

    /** Open for writing, truncated; a new file is born with the requested bits the umask lets through. */
    method OpenTruncated(p: string, mode: Mode) returns (ok: bool)
      modifies this
      ensures Logged(Open(p, ok))
      ensures !ok ==> names == old(names) && older == old(older)
      ensures ok ==> older == old(older) + [old(names)]
      ensures ok ==> names == old(names)[p := Node(Readable("", BornMode(old(names), p, mode)), false)]
    {
      ok := *;
      if ok {
        older := older + [names];
        names := names[p := Node(Readable("", BornMode(names, p, mode)), false)];
      }
      Log(Open(p, ok));
    }

    method SetPermissions(p: string, mode: Mode) returns (ok: bool)
      requires p in names && names[p].entry.Readable?
      modifies this
      ensures older == old(older) && Logged(SetMode(p, mode, ok))
      ensures names == if ok then old(names)[p := Node(Readable(old(names)[p].entry.content, mode), false)] else old(names)
    {
      ok := *;
      if ok {
        names := names[p := Node(Readable(names[p].entry.content, mode), false)];
      }
      Log(SetMode(p, mode, ok));
    }

    /** One write: at least one of the remaining characters, at most all of them. */
    method WriteChunk(p: string, rest: string) returns (written: Option<nat>)
      requires p in names && names[p].entry.Readable? && rest != ""
      modifies this
      ensures older == old(older)
      ensures written.Some? ==> 0 < written.value <= |rest|
      ensures Logged(WriteSome(p, if written.Some? then rest[..written.value] else rest, written.Some?))
      ensures written.None? ==> names == old(names)
      ensures written.Some? ==>
        names == old(names)[p := Node(Readable(old(names)[p].entry.content + rest[..written.value],
                                               old(names)[p].entry.mode), false)]
    {
      var n: nat := *;
      if 0 < n <= |rest| {
        written := Some(n);
        names := names[p := Node(Readable(names[p].entry.content + rest[..n], names[p].entry.mode), false)];
      } else {
        written := None;
      }
      Log(WriteSome(p, if written.Some? then rest[..written.value] else rest, written.Some?));
    }

    method SyncFile(p: string) returns (ok: bool)
      requires p in names
      modifies this
      ensures older == old(older) && Logged(Sync(p, ok))
      ensures names == if ok then old(names)[p := old(names)[p].(synced := true)] else old(names)
    {
      ok := *;
      if ok {
        names := names[p := names[p].(synced := true)];
      }
      Log(Sync(p, ok));
    }

    method RenameOver(from: string, to: string) returns (ok: bool)
      requires from in names && from != to
      modifies this
      ensures Logged(Rename(from, to, ok))
      ensures !ok ==> names == old(names) && older == old(older)
      ensures ok ==> names == old(names)[to := old(names)[from]] - {from} && older == old(older) + [old(names)]
    {
      ok := *;
      if ok {
        older := older + [names];
        names := names[to := names[from]] - {from};
      }
      Log(Rename(from, to, ok));
    }

    method RemoveFile(p: string) returns (r: Removal)
      modifies this
      ensures Logged(Unlink(p, r))
      ensures r.NotFound? <==> p !in old(names)
      ensures r.Gone? ==> names == old(names) - {p} && older == old(older) + [old(names)]
      ensures !r.Gone? ==> names == old(names) && older == old(older)
    {
      var ok: bool := *;
      if p !in names {
        r := NotFound;
      } else if ok {
        r := Gone;
        older := older + [names];
        names := names - {p};
      } else {
        r := Failed;
      }
      Log(Unlink(p, r));
    }

    /** Make the directory itself durable; a failure is not reported to anybody. */
    method SyncDirectory() returns (ok: bool)
      modifies this
      ensures names == old(names) && older == (if ok then [] else old(older)) && Logged(SyncDir(ok))
    {
      ok := *;
      if ok {
        older := [];
      }
      Log(SyncDir(ok));
    }

    // --------------------------------------------------------------- the write itself

    /** The staging file is open, at the requested mode, and holds the first `n` characters. */
    ghost predicate Staged(before: Image, path: string, written: Entry, n: nat)
      requires written.Readable?
      reads this
    {
      && n <= |written.content|
      && Staging(path) in names
      && names[Staging(path)].entry == Readable(written.content[..n], written.mode)
      && Resting(before, path, written)
    }

    /** The target has not been renamed over yet. */
    ghost predicate Resting(before: Image, path: string, written: Entry)
      requires written.Readable?
      reads this
    {
      && CrashSafe(before, Now(), path, written)
      && Lookup(Entries(names), path) == Lookup(Entries(before.names), path)
      && (forall found :: Survives(Now(), path, found) ==> Survives(before, path, found))
      && (path in names ==> path in before.names && names[path] == before.names[path])
    }

    ghost predicate AllSafe(before: Image, from: nat, path: string, written: Entry)
      requires written.Readable?
      reads this
    {
      from <= |history| && forall i :: from <= i < |history| ==> CrashSafe(before, history[i], path, written)
    }

    /** Empties the staging file, or makes it. */
    method OpenStaging(path: string, contents: string, mode: Mode, ghost before: Image, ghost from: nat) returns (ok: bool)
      requires Resting(before, path, Readable(contents, mode)) && AllSafe(before, from, path, Readable(contents, mode))
      modifies this
      ensures Resting(before, path, Readable(contents, mode)) && AllSafe(before, from, path, Readable(contents, mode))
      ensures ok ==> Staging(path) in names
      ensures ok ==> names[Staging(path)].entry.Readable? && names[Staging(path)].entry.content == ""
      ensures calls == old(calls) + [Open(Staging(path), ok)]
      ensures Failures(calls) == Failures(old(calls)) + if ok then 0 else 1
    {
      ghost var was := Now();
      ok := OpenTruncated(Staging(path), mode);
      if ok {
        StagingMoved(before, was, Now(), path, Readable(contents, mode));
      }
    }

    /** Gives the empty staging file its mode. */
    method NarrowStaging(path: string, contents: string, mode: Mode, ghost before: Image, ghost from: nat) returns (ok: bool)
      requires Resting(before, path, Readable(contents, mode)) && AllSafe(before, from, path, Readable(contents, mode))
      requires Staging(path) in names
      requires names[Staging(path)].entry.Readable? && names[Staging(path)].entry.content == ""
      modifies this
      ensures Resting(before, path, Readable(contents, mode)) && AllSafe(before, from, path, Readable(contents, mode))
      ensures ok ==> Staged(before, path, Readable(contents, mode), 0)
      ensures calls == old(calls) + [SetMode(Staging(path), mode, ok)]
      ensures Failures(calls) == Failures(old(calls)) + if ok then 0 else 1
    {
      ghost var was := Now();
      ok := SetPermissions(Staging(path), mode);
      if ok {
        assert names[Staging(path)].entry == Readable("", mode) && contents[..0] == "";
        StagingMoved(before, was, Now(), path, Readable(contents, mode));
      } else {
        assert Now() == was;
      }
    }

    /**
     Creates or truncates the staging file and settles its mode, in that order and before
     anything is written to it.
     */
    method CreatePrivate(path: string, contents: string, mode: Mode, ghost before: Image, ghost from: nat)
      returns (ok: bool, ghost log: seq<Call>)
      requires Resting(before, path, Readable(contents, mode)) && AllSafe(before, from, path, Readable(contents, mode))
      modifies this
      ensures Resting(before, path, Readable(contents, mode)) && AllSafe(before, from, path, Readable(contents, mode))
      ensures ok ==> Staged(before, path, Readable(contents, mode), 0)
      ensures calls == old(calls) + log && Failures(calls) == Failures(old(calls)) + if ok then 0 else 1
      ensures ok ==> log == [Open(Staging(path), true), SetMode(Staging(path), mode, true)]
    {
      ok := OpenStaging(path, contents, mode, before, from);
      log := [Open(Staging(path), ok)];
      if ok {
        ok := NarrowStaging(path, contents, mode, before, from);
        log := [Open(Staging(path), true), SetMode(Staging(path), mode, ok)];
      }
    }

    /** One more write of what is still missing. */
    method WriteNext(path: string, contents: string, mode: Mode, n: nat, ghost before: Image, ghost from: nat)
      returns (ok: bool, m: nat, ghost call: Call)
      requires n < |contents|
      requires Staged(before, path, Readable(contents, mode), n) && AllSafe(before, from, path, Readable(contents, mode))
      modifies this
      ensures Resting(before, path, Readable(contents, mode)) && AllSafe(before, from, path, Readable(contents, mode))
      ensures calls == old(calls) + [call] && Failures(calls) == Failures(old(calls)) + if ok then 0 else 1
      ensures ok ==> n < m <= |contents| && Staged(before, path, Readable(contents, mode), m)
      ensures ok ==> call == WriteSome(Staging(path), contents[n..m], true)
    {
      ghost var written := Readable(contents, mode);
      ghost var was := Now();
      var step := WriteChunk(Staging(path), contents[n..]);
      match step {
        case None =>
          ok, m, call := false, n, WriteSome(Staging(path), contents[n..], false);
        case Some(k) =>
          ok, m, call := true, n + k, WriteSome(Staging(path), contents[n..][..k], true);
          assert contents[n..][..k] == contents[n..m];
          assert contents[..n] + contents[n..m] == contents[..m];
          StagingMoved(before, was, Now(), path, written);
      }
    }

    /** Write all of `contents`, however few characters each write takes. */
    method WriteAll(path: string, contents: string, mode: Mode, ghost before: Image, ghost from: nat)
      returns (ok: bool, ghost log: seq<Call>)
      requires Staged(before, path, Readable(contents, mode), 0) && AllSafe(before, from, path, Readable(contents, mode))
      modifies this
      ensures Resting(before, path, Readable(contents, mode)) && AllSafe(before, from, path, Readable(contents, mode))
      ensures ok ==> Staged(before, path, Readable(contents, mode), |contents|)
      ensures calls == old(calls) + log && Failures(calls) == Failures(old(calls)) + if ok then 0 else 1
      ensures ok ==> Wrote(log, Staging(path), contents)
    {
      var n := 0;
      log := [];
      while n < |contents|
        invariant Staged(before, path, Readable(contents, mode), n)
        invariant AllSafe(before, from, path, Readable(contents, mode))
        invariant calls == old(calls) + log && Failures(calls) == Failures(old(calls))
        invariant Wrote(log, Staging(path), contents[..n])
      {
        var m;
        ghost var call;
        ok, m, call := WriteNext(path, contents, mode, n, before, from);
        CallsJoin(old(calls), log, [call]);
        if !ok {
          log := log + [call];
          return;
        }
        WroteNext(log, Staging(path), contents, n, m);
        log, n := log + [call], m;
      }
      ok := true;
      assert contents[..n] == contents;
    }

    /** Everything up to a staging file that holds all of `contents` and would survive losing power. */
    method FillTemp(path: string, contents: string, mode: Mode, ghost before: Image, ghost from: nat)
      returns (ok: bool, ghost filled: seq<Call>, ghost log: seq<Call>)
      requires Resting(before, path, Readable(contents, mode)) && AllSafe(before, from, path, Readable(contents, mode))
      modifies this
      ensures Resting(before, path, Readable(contents, mode)) && AllSafe(before, from, path, Readable(contents, mode))
      ensures ok ==> Staged(before, path, Readable(contents, mode), |contents|) && names[Staging(path)].synced
      ensures calls == old(calls) + log && Failures(calls) == Failures(old(calls)) + if ok then 0 else 1
      ensures ok ==> Filled(filled, Staging(path), contents, mode) && log == filled + [Sync(Staging(path), true)]
    {
      ok, log := CreatePrivate(path, contents, mode, before, from);
      filled := log;
      if ok {
        ghost var writes;
        ok, writes := WriteAll(path, contents, mode, before, from);
        CallsJoin(old(calls), log, writes);
        filled, log := log + writes, log + writes;
        if ok {
          FilledBy(filled[..2], writes, Staging(path), contents, mode);
          assert filled == filled[..2] + writes;
          ok := SyncStaging(path, contents, mode, before, from);
          log := filled + [Sync(Staging(path), ok)];
          CallsJoin(old(calls), filled, [Sync(Staging(path), ok)]);
        }
      }
    }

    /** Make the filled staging file durable. */
    method SyncStaging(path: string, contents: string, mode: Mode, ghost before: Image, ghost from: nat) returns (ok: bool)
      requires Staged(before, path, Readable(contents, mode), |contents|)
      requires AllSafe(before, from, path, Readable(contents, mode))
      modifies this
      ensures Resting(before, path, Readable(contents, mode)) && AllSafe(before, from, path, Readable(contents, mode))
      ensures ok ==> Staged(before, path, Readable(contents, mode), |contents|) && names[Staging(path)].synced
      ensures calls == old(calls) + [Sync(Staging(path), ok)]
      ensures Failures(calls) == Failures(old(calls)) + if ok then 0 else 1
    {
      ghost var was := Now();
      ok := SyncFile(Staging(path));
      if ok {
        StagingMoved(before, was, Now(), path, Readable(contents, mode));
      }
    }

    /** Every failure takes the staging file with it, if it can. */
    method Abandon(path: string, contents: string, mode: Mode, ghost before: Image, ghost from: nat)
      returns (ghost w: WriteOutcome)
      requires Resting(before, path, Readable(contents, mode)) && AllSafe(before, from, path, Readable(contents, mode))
      modifies this
      ensures AllSafe(before, from, path, Readable(contents, mode))
      ensures w.NotWritten? && Files() == AfterWrite(Entries(before.names), path, Readable(contents, mode), w)
      ensures |calls| == |old(calls)| + 1 && old(calls) <= calls
      ensures calls[|old(calls)|].Unlink? && calls[|old(calls)|].path == Staging(path)
      ensures Failures(calls) >= Failures(old(calls))
    {
      ghost var written := Readable(contents, mode);
      ghost var was := Now();
      var removal := RemoveFile(Staging(path));
      StagingMoved(before, was, Now(), path, written);
      w := NotWritten(Lookup(Files(), Staging(path)));
      LeftAlone(Entries(before.names), Files(), path, written);
    }

    /** Put the filled and synced staging file in place, and ask for the directory to be synced. */
    method Publish(path: string, contents: string, mode: Mode, ghost before: Image, ghost from: nat)
      returns (ok: bool, ghost w: WriteOutcome, ghost log: seq<Call>)
      requires Staged(before, path, Readable(contents, mode), |contents|) && names[Staging(path)].synced
      requires AllSafe(before, from, path, Readable(contents, mode))
      modifies this
      ensures AllSafe(before, from, path, Readable(contents, mode))
      ensures Files() == AfterWrite(Entries(before.names), path, Readable(contents, mode), w)
      ensures (w.Written? <==> ok) && (ok ==> path in names && names[path].synced)
      ensures calls == old(calls) + log
      ensures if ok then Failures(calls) == Failures(old(calls)) else Failures(calls) > Failures(old(calls))
      ensures ok ==> |log| == 2 && log[0] == Rename(Staging(path), path, true) && log[1].SyncDir?
      ensures !ok ==> log != [] && log[|log| - 1].Unlink? && log[|log| - 1].path == Staging(path)
    {
      ghost var written := Readable(contents, mode);
      ghost var was := Now();
      assert contents[..|contents|] == contents;
      ok := RenameOver(Staging(path), path);
      if ok {
        Replaced(before, was, Now(), path, written);
        var synced := SyncDirectory();
        AfterSync(before, Image(names, was.older + [was.names]), Now(), path, written);
        w := Written;
        PutInPlace(Entries(before.names), Files(), path, written);
        log := [Rename(Staging(path), path, true), SyncDir(synced)];
      } else {
        w := Abandon(path, contents, mode, before, from);
        log := [Rename(Staging(path), path, false), calls[|calls| - 1]];
      }
    }

    /**
     Replace `path` by a file holding `contents` at `mode`, or leave it as it is.  It works if
     and only if every call does, down to the rename; then its calls are those of a whole write.
     Whatever the outcome, and between any two calls on the way, a crash is harmless; every
     error after the directory was made ends in an attempt to remove the staging file.
     */
    method WriteAtomic(path: string, contents: string, mode: Mode)
      returns (r: Result<(), WriteError>, ghost w: WriteOutcome)
      modifies this
      ensures AllSafe(old(Now()), |old(history)|, path, Readable(contents, mode))
      ensures Files() == AfterWrite(old(Files()), path, Readable(contents, mode), w)
      ensures w.Written? <==> r.Ok?
      ensures r.Ok? ==> path in names && names[path].synced
      ensures old(calls) <= calls
      ensures if r.Ok? then Failures(calls) == Failures(old(calls)) else Failures(calls) > Failures(old(calls))
      ensures r.Ok? ==> WholeWrite(calls[|old(calls)|..], path, contents, mode)
      ensures r == Err(NoDirectory) ==> names == old(names) && calls == old(calls) + [MakeDir(false)]
      ensures r == Err(Io) ==>
                |calls| > |old(calls)| && calls[|calls| - 1].Unlink? && calls[|calls| - 1].path == Staging(path)
    {
      ghost var before := Now();
      ghost var from := |history|;
      NothingYet(before, path, Readable(contents, mode));
      var ok := MakeDirectory();
      if !ok {
        w := NotWritten(Lookup(Files(), Staging(path)));
        LeftAlone(Files(), Files(), path, Readable(contents, mode));
        return Err(NoDirectory), w;
      }
      ghost var filled, log;
      ok, w, filled, log := FillAndPublish(path, contents, mode, before, from);
      if ok {
        WholeWriteIs(old(calls), calls, filled, log[|filled| + 1..], path, contents, mode);
      }
      return if ok then Ok(()) else Err(Io), w;
    }

    /** The write, once the directory is there. */
    method FillAndPublish(path: string, contents: string, mode: Mode, ghost before: Image, ghost from: nat)
      returns (ok: bool, ghost w: WriteOutcome, ghost filled: seq<Call>, ghost log: seq<Call>)
      requires Resting(before, path, Readable(contents, mode)) && AllSafe(before, from, path, Readable(contents, mode))
      modifies this
      ensures AllSafe(before, from, path, Readable(contents, mode))
      ensures Files() == AfterWrite(Entries(before.names), path, Readable(contents, mode), w)
      ensures (w.Written? <==> ok) && (ok ==> path in names && names[path].synced)
      ensures calls == old(calls) + log
      ensures if ok then Failures(calls) == Failures(old(calls)) else Failures(calls) > Failures(old(calls))
      ensures ok ==> Filled(filled, Staging(path), contents, mode) && |log| == |filled| + 3
      ensures ok ==> log[..|filled| + 1] == filled + [Sync(Staging(path), true)]
      ensures ok ==> log[|filled| + 1] == Rename(Staging(path), path, true) && log[|filled| + 2].SyncDir?
      ensures !ok ==> log != [] && log[|log| - 1].Unlink? && log[|log| - 1].path == Staging(path)
    {
      ok, filled, log := FillTemp(path, contents, mode, before, from);
      ghost var last;
      if ok {
        ok, w, last := Publish(path, contents, mode, before, from);
      } else {
        w := Abandon(path, contents, mode, before, from);
        last := [calls[|calls| - 1]];
      }
      CallsJoin(old(calls), log, last);
      log := log + last;
    }
  }

  lemma NothingYet(before: Image, path: string, written: Entry)
    requires written.Readable?
    ensures CrashSafe(before, before, path, written)
  {
  }

  /** A target that was at rest comes back from a power cut as the complete old file or the complete new one. */
  lemma OldOrNew(before: Image, now: Image, path: string, written: Entry, found: Option<Entry>)
    requires written.Readable? && CrashSafe(before, now, path, written)
    requires before.older == [] && (path in before.names ==> before.names[path].synced)
    requires Survives(now, path, found)
    ensures found == Lookup(Entries(before.names), path) || found == Some(written)
  {
    assert Survives(before, path, found) || found == Some(written);
  }

  /** A call that changes only the staging file keeps what a crash may leave of the target. */
  lemma StagingMoved(before: Image, was: Image, now: Image, path: string, written: Entry)
    requires written.Readable?
    requires CrashSafe(before, was, path, written)
    requires Lookup(Entries(was.names), path) == Lookup(Entries(before.names), path)
    requires forall found :: Survives(was, path, found) ==> Survives(before, path, found)
    requires now.names - {Staging(path)} == was.names - {Staging(path)}
    requires now.older == was.older || now.older == was.older + [was.names]
    requires StagingPrivate(before, now, path, written)
    ensures CrashSafe(before, now, path, written)
    ensures Lookup(Entries(now.names), path) == Lookup(Entries(before.names), path)
    ensures forall found :: Survives(now, path, found) ==> Survives(before, path, found)
  {
    StagingApart(path);
    forall p | p != Staging(path)
      ensures p in now.names <==> p in was.names
      ensures p in now.names ==> now.names[p] == was.names[p]
    {
      var a, b := now.names - {Staging(path)}, was.names - {Staging(path)};
      assert p in now.names <==> p in a;
      assert p in was.names <==> p in b;
    }
    forall found | Survives(now, path, found)
      ensures Survives(was, path, found)
    {
      if !MayHold(now.names, path, found) {
        var i :| 0 <= i < |now.older| && MayHold(now.older[i], path, found);
        if i < |was.older| {
          assert MayHold(was.older[i], path, found);
        }
      }
    }
  }

  lemma StagingApart(path: string)
    ensures Staging(path) != path
  {
    assert |Staging(path)| > |path|;
  }

  /** The rename puts a whole, durable file in place of the old one. */
  lemma Replaced(before: Image, was: Image, now: Image, path: string, written: Entry)
    requires written.Readable?
    requires CrashSafe(before, was, path, written)
    requires forall found :: Survives(was, path, found) ==> Survives(before, path, found)
    requires Staging(path) in was.names && was.names[Staging(path)] == Node(written, true)
    requires now == Image(was.names[path := was.names[Staging(path)]] - {Staging(path)}, was.older + [was.names])
    ensures CrashSafe(before, now, path, written)
  {
    StagingApart(path);
    forall found | Survives(now, path, found)
      ensures Survives(was, path, found) || found == Some(written)
    {
      if !MayHold(now.names, path, found) {
        var i :| 0 <= i < |now.older| && MayHold(now.older[i], path, found);
        if i < |was.older| {
          assert MayHold(was.older[i], path, found);
        }
      }
    }
  }

  lemma AfterSync(before: Image, was: Image, now: Image, path: string, written: Entry)
    requires written.Readable? && CrashSafe(before, was, path, written)
    requires now.names == was.names && (now.older == was.older || now.older == [])
    ensures CrashSafe(before, now, path, written)
  {
    forall found | Survives(now, path, found)
      ensures Survives(was, path, found)
    {
    }
  }

  /** A write that did not happen left at most a staging file. */
  lemma LeftAlone(before: Tree, now: Tree, path: string, written: Entry)
    requires forall p :: p != Staging(path) ==> Lookup(now, p) == Lookup(before, p)
    ensures now == AfterWrite(before, path, written, NotWritten(Lookup(now, Staging(path))))
  {
    var after := AfterWrite(before, path, written, NotWritten(Lookup(now, Staging(path))));
    SameTree(now, after);
  }

  lemma PutInPlace(before: Tree, now: Tree, path: string, written: Entry)
    requires Lookup(now, path) == Some(written) && Staging(path) !in now
    requires forall p :: p != path && p != Staging(path) ==> Lookup(now, p) == Lookup(before, p)
    ensures now == AfterWrite(before, path, written, Written)
  {
    StagingApart(path);
    SameTree(now, AfterWrite(before, path, written, Written));
  }

  /** Trees that answer every lookup alike are equal. */
  lemma SameTree(a: Tree, b: Tree)
    requires forall p :: Lookup(a, p) == Lookup(b, p)
    ensures a == b
  {
    forall p
      ensures p in a <==> p in b
      ensures p in a ==> a[p] == b[p]
    {
      assert Lookup(a, p) == Lookup(b, p);
    }
  }
}
