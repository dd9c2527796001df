/**
 The event collector: process lifetimes that survive PID reuse, exec epochs, a descriptor table inherited across
 fork, and two-phase renames.  Functions on `Coll` specify the methods of the class `EventCollector`.
 */
module Collector {
  import opened Sequences
  import opened Text
  import opened Trace
  import opened Paths
  import opened Descriptors
  import opened Records

  datatype OpenFile = OpenFile(path: string, flags: U32, cached: Option<Observation>)

  type RenameKey = (U32, nat)

  datatype PendingRename = PendingRename(process: Instance, from: string, flags: U32, external: bool)

  datatype Coll = Coll(
    root: Instance,
    rootExecPending: bool,
    current: map<U32, Instance>,
    nextGeneration: map<U32, U32>,
    fds: map<Slot, OpenFile>,
    renames: map<RenameKey, PendingRename>,
    malformed: U64,
    events: seq<Event>)

  const EMPTY_CONTENT := Content("sha256:e3b0c44298fc1c149afbf4c8996fb92427ae41e4649b934ca495991b7852b855")

  predicate IsTruncating(flags: U32) { flags / 512 % 2 == 1 }
  predicate IsExchange(flags: U32) { flags / 2 % 2 == 1 }

  function SaturatingAdd(n: nat, k: nat, max: nat): (r: nat)
    ensures r <= max
    ensures n <= max && k <= max - n ==> r == n + k
  {
    if n + k <= max then n + k else max
  }

  function New(rootPid: U32): Coll
  {
    var root := Instance(Lifetime(rootPid, 0), 0);
    Coll(root, true, map[rootPid := root], map[rootPid := 1], map[], map[], 0, [])
  }

  function NextGeneration(c: Coll, pid: U32): U32
  {
    if pid in c.nextGeneration then c.nextGeneration[pid] else 0
  }

  function StartProcess(c: Coll, pid: U32): (Coll, Instance)
  {
    var p := Instance(Lifetime(pid, NextGeneration(c, pid)), 0);
    (c.(nextGeneration := c.nextGeneration[pid := SaturatingAdd(NextGeneration(c, pid), 1, U32_MAX)],
        current := c.current[pid := p]), p)
  }

  function CurrentProcess(c: Coll, pid: U32): (Coll, Instance)
  {
    if pid in c.current then (c, c.current[pid]) else StartProcess(c, pid)
  }

  function ForkProcess(c: Coll, parentPid: U32, childPid: U32): (Coll, Instance, Instance)
  {
    var (c1, parent) := CurrentProcess(c, parentPid);
    var (c2, child) := StartProcess(c1, childPid);
    (c2.(fds := Inherit(c2.fds, parent.lifetime, child.lifetime)), parent, child)
  }

  function ExecProcess(c: Coll, pid: U32): (Coll, Option<Instance>)
  {
    if pid == c.root.lifetime.pid && c.rootExecPending then (c.(rootExecPending := false), None)
    else
      var (c1, p) := CurrentProcess(c, pid);
      var p' := p.(epoch := SaturatingAdd(p.epoch, 1, U32_MAX));
      (c1.(current := c1.current[pid := p']), Some(p'))
  }

  function Push(c: Coll, e: Event): Coll
  {
    c.(events := c.events + [e])
  }

  /** Every open descriptor under a moved path follows the rename. */
  function MoveOpenFiles(fds: map<Slot, OpenFile>, from: string, to: string, exchange: bool): map<Slot, OpenFile>
  {
    map slot | slot in fds :: fds[slot].(path := Renamed(fds[slot].path, from, to, exchange))
  }

  function OnOpen(c: Coll, d: Drained, prefixes: seq<string>): Coll
    requires d.record.OpenRecord?
  {
    var r := d.record;
    var (c1, p) := CurrentProcess(c, r.tgid);
    if r.external && !Watched(d.resolved, prefixes) then c1
    else
      var o := if r.fd >= 0 && IsTruncating(r.flags) then EMPTY_CONTENT else d.now;
      var c2 := if r.fd >= 0
                then c1.(fds := c1.fds[(p.lifetime, r.fd) := OpenFile(d.resolved, r.flags, Some(o))]) else c1;
      Push(c2, FileOpen(p, d.resolved, r.flags, r.fd, r.external, o))
  }

  function OnClose(c: Coll, d: Drained): Coll
    requires d.record.CloseRecord?
  {
    var r := d.record;
    var (c1, p) := CurrentProcess(c, r.tgid);
    var slot := (p.lifetime, r.fd);
    if slot !in c1.fds then
      if r.external then c1 else Push(c1, FileClose(p, r.fd, None, false, None))
    else
      var f := c1.fds[slot];
      Push(c1.(fds := c1.fds - {slot}),
           FileClose(p, r.fd, Some(f.path), r.external, if CanWrite(f.flags) then Some(d.now) else None))
  }

  function OnMmap(c: Coll, d: Drained): Coll
    requires d.record.MmapRecord?
  {
    var r := d.record;
    var (c1, p) := CurrentProcess(c, r.tgid);
    var slot := (p.lifetime, r.fd);
    if slot !in c1.fds then
      if r.external then c1 else Push(c1, FileMmap(p, r.fd, r.prot, r.flags, None, false, None))
    else
      var f := c1.fds[slot];
      var o := if f.cached.Some? then f.cached.value else d.now;
      Push(c1.(fds := c1.fds[slot := f.(cached := Some(o))]),
           FileMmap(p, r.fd, r.prot, r.flags, Some(f.path), r.external, Some(o)))
  }

  function OnRenameSource(c: Coll, d: Drained): (Coll, bool)
    requires d.record.RenameSource?
  {
    var r := d.record;
    var (c1, p) := CurrentProcess(c, r.tgid);
    match DecodePath(r.path)
    case None => (c1, false)
    case Some(raw) =>
      var half := PendingRename(p, ResolvePath(raw, d.resolved), r.flags, r.external);
      (c1.(renames := c1.renames[(r.pid, r.opId) := half]), true)
  }

  /** The events of a completed rename: the forward one and, for an exchange, the reverse one. */
  function RenameEvents(p: PendingRename, to: string, external: bool, d: Drained): seq<Event>
  {
    [FileRename(p.process, p.from, to, p.flags, external, d.now)]
    + if IsExchange(p.flags) then [FileRename(p.process, to, p.from, p.flags, external, d.other)] else []
  }

  function OnRenameDestination(c: Coll, d: Drained, prefixes: seq<string>): (Coll, bool)
    requires d.record.RenameDestination?
  {
    var r := d.record;
    var key := (r.pid, r.opId);
    if key !in c.renames then (c, false)
    else
      var p, c1 := c.renames[key], c.(renames := c.renames - {key});
      match DecodePath(r.path)
      case None => (c1, false)
      case Some(raw) =>
        var to, external := ResolvePath(raw, d.resolved), p.external || r.external;
        if external && !Watched(p.from, prefixes) && !Watched(to, prefixes) then (c1, true)
        else
          (c1.(fds := MoveOpenFiles(c1.fds, p.from, to, IsExchange(p.flags)),
               events := c1.events + RenameEvents(p, to, external, d)), true)
  }

  function OnUnlink(c: Coll, d: Drained, prefixes: seq<string>): (Coll, bool)
    requires d.record.UnlinkRecord?
  {
    var r := d.record;
    var (c1, p) := CurrentProcess(c, r.tgid);
    match DecodePath(r.path)
    case None => (c1, false)
    case Some(raw) =>
      var path := ResolvePath(raw, d.resolved);
      if r.external && !Watched(path, prefixes) then (c1, true)
      else (Push(c1, FileUnlink(p, path, r.flags, r.external, d.now)), true)
  }

  function OnExec(c: Coll, d: Drained): Coll
    requires d.record.ExecRecord?
  {
    var (c1, p) := ExecProcess(c, d.record.tgid);
    if p.None? then c1 else Push(c1, Exec(p.value, d.now))
  }

  function OnFork(c: Coll, d: Drained): Coll
    requires d.record.ForkRecord?
  {
    var (c1, parent, child) := ForkProcess(c, d.record.parent, d.record.child);
    Push(c1, Fork(parent, child))
  }

  function OnExit(c: Coll, d: Drained): Coll
    requires d.record.ExitRecord?
  {
    var (c1, p) := CurrentProcess(c, d.record.tgid);
    Push(c1, Exit(p, d.record.exitCode))
  }

  /** One record; the flag is false for a malformed one. */
  function ProcessEvent(c: Coll, d: Drained, prefixes: seq<string>): (Coll, bool)
  {
    match d.record
    case OpenRecord(_, _, _, _) => (OnOpen(c, d, prefixes), true)
    case CloseRecord(_, _, _) => (OnClose(c, d), true)
    case MmapRecord(_, _, _, _, _) => (OnMmap(c, d), true)
    case RenameSource(_, _, _, _, _, _, _) => OnRenameSource(c, d)
    case RenameDestination(_, _, _, _, _, _, _) => OnRenameDestination(c, d, prefixes)
    case UnlinkRecord(_, _, _, _, _, _, _) => OnUnlink(c, d, prefixes)
    case ExecRecord(_) => (OnExec(c, d), true)
    case ForkRecord(_, _) => (OnFork(c, d), true)
    case ExitRecord(_, _) => (OnExit(c, d), true)
    case Uninterpretable => (c, false)
  }

  function CollStep(c: Coll, d: Drained, prefixes: seq<string>): Coll
  {
    var (c1, ok) := ProcessEvent(c, d, prefixes);
    if ok then c1 else c1.(malformed := SaturatingAdd(c1.malformed, 1, U64_MAX))
  }

  function Collect(c: Coll, drained: seq<Drained>, prefixes: seq<string>): Coll
  {
    if drained == [] then c
    else CollStep(Collect(c, drained[..|drained| - 1], prefixes), drained[|drained| - 1], prefixes)
  }

  lemma CollectStep(c: Coll, drained: seq<Drained>, prefixes: seq<string>, i: nat)
    requires i < |drained|
    ensures Collect(c, drained[..i + 1], prefixes) == CollStep(Collect(c, drained[..i], prefixes), drained[i], prefixes)
  {
    NestedPrefix(drained, i + 1, i);
  }

  predicate IsExitOf(e: Event, pid: U32)
  {
    e.Exit? && e.process.lifetime.pid == pid
  }

  /** The position of the last exit of `pid`, or the length of the trace. */
  function LastExit(events: seq<Event>, pid: U32): (i: nat)
    ensures i <= |events|
    ensures i < |events| ==> IsExitOf(events[i], pid) && forall j :: i < j < |events| ==> !IsExitOf(events[j], pid)
    ensures i == |events| ==> forall j :: 0 <= j < |events| ==> !IsExitOf(events[j], pid)
  {
    if events == [] then 0
    else
      var n := |events| - 1;
      if IsExitOf(events[n], pid) then n
      else
        var i := LastExit(events[..n], pid);
        if i == n then n + 1 else i
  }

  lemma LastExitIs(events: seq<Event>, pid: U32, i: nat)
    requires i <= |events| && (i < |events| ==> IsExitOf(events[i], pid))
    requires forall j :: (if i == |events| then 0 else i + 1) <= j < |events| ==> !IsExitOf(events[j], pid)
    ensures LastExit(events, pid) == i
  {
    var k := LastExit(events, pid);
    if k < |events| { assert IsExitOf(events[k], pid); }
  }

  /** Give the root its real exit code: in its last exit event, or in a new one. */
  function WithExit(c: Coll, rootPid: U32, exitCode: int): Coll
  {
    var i := LastExit(c.events, rootPid);
    if i < |c.events| then c.(events := c.events[i := Exit(c.events[i].process, exitCode)])
    else
      var (c0, p) := CurrentProcess(c, rootPid);
      Push(c0.(current := c0.current - {rootPid}), Exit(p, exitCode))
  }

  /** Correct the root's exit, and count the renames whose second half never came. */
  function Finish(c: Coll, rootPid: U32, exitCode: int): Coll
  {
    var c1 := WithExit(c, rootPid, exitCode);
    c1.(malformed := SaturatingAdd(c1.malformed, |c1.renames|, U64_MAX), renames := map[])
  }
}
