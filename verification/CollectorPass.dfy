/** The mutable collector state of the tracer and its methods, each proved against the functions of `Collector`. */
module CollectorPass {
  import opened Sorting
  import opened Text
  import opened Trace
  import opened Paths
  import opened Descriptors
  import opened Records
  import Collector

  class EventCollector {
    const root: Instance
    var rootExecPending: bool
    var current: map<U32, Instance>
    var nextGeneration: map<U32, U32>
    var fds: map<Slot, Collector.OpenFile>
    var renames: map<Collector.RenameKey, Collector.PendingRename>
    var malformed: U64
    var events: seq<Event>

    constructor (rootPid: U32)
      ensures Value() == Collector.New(rootPid)
    {
      root := Instance(Lifetime(rootPid, 0), 0);
      rootExecPending := true;
      current := map[rootPid := Instance(Lifetime(rootPid, 0), 0)];
      nextGeneration := map[rootPid := 1];
      fds, renames, malformed, events := map[], map[], 0, [];
    }

    function Value(): Collector.Coll
      reads this
    {
      Collector.Coll(root, rootExecPending, current, nextGeneration, fds, renames, malformed, events)
    }

    method StartProcess(pid: U32) returns (process: Instance)
      modifies this`nextGeneration, this`current
      ensures (Value(), process) == Collector.StartProcess(old(Value()), pid)
    {
      var generation := if pid in nextGeneration then nextGeneration[pid] else 0;
      process := Instance(Lifetime(pid, generation), 0);
      nextGeneration := nextGeneration[pid := if generation < U32_MAX then generation + 1 else U32_MAX];
      current := current[pid := process];
    }

    method CurrentProcess(pid: U32) returns (process: Instance)
      modifies this`nextGeneration, this`current
      ensures (Value(), process) == Collector.CurrentProcess(old(Value()), pid)
    {
      if pid in current {
        return current[pid];
      }
      process := StartProcess(pid);
    }

    method ForkProcess(parentPid: U32, childPid: U32) returns (parent: Instance, child: Instance)
      modifies this`nextGeneration, this`current, this`fds
      ensures (Value(), parent, child) == Collector.ForkProcess(old(Value()), parentPid, childPid)
    {
      parent := CurrentProcess(parentPid);
      child := StartProcess(childPid);
      fds := InheritWrites(fds, parent.lifetime, child.lifetime);
    }

    method ExecProcess(pid: U32) returns (process: Option<Instance>)
      modifies this`nextGeneration, this`current, this`rootExecPending
      ensures (Value(), process) == Collector.ExecProcess(old(Value()), pid)
    {
      if pid == root.lifetime.pid && rootExecPending {
        rootExecPending := false;
        return None;
      }
      var p := CurrentProcess(pid);
      p := p.(epoch := if p.epoch < U32_MAX then p.epoch + 1 else U32_MAX);
      current := current[pid := p];
      process := Some(p);
    }

    /** The loop over the open-file table; the table yields its entries in any order. */
    method RewriteOpenFilePaths(from: string, to: string, flags: U32)
      modifies this`fds
      ensures fds == Collector.MoveOpenFiles(old(fds), from, to, Collector.IsExchange(flags))
    {
      var rest := fds.Keys;
      while rest != {}
        invariant fds.Keys == old(fds).Keys && rest <= fds.Keys
        invariant forall slot :: slot in fds ==>
          (fds[slot] == if slot in rest then old(fds)[slot]
           else old(fds)[slot].(path := Renamed(old(fds)[slot].path, from, to, Collector.IsExchange(flags))))
        decreases rest
      {
        var slot :| slot in rest;
        var original := fds[slot].path;
        var replacement := RewritePrefix(original, from, to);
        if replacement.None? && Collector.IsExchange(flags) {
          replacement := RewritePrefix(original, to, from);
        }
        if replacement.Some? {
          fds := fds[slot := fds[slot].(path := replacement.value)];
        }
        rest := rest - {slot};
      }
    }

    method Push(e: Event)
      modifies this`events
      ensures events == old(events) + [e]
    {
      events := events + [e];
    }

    method OnOpen(d: Drained, prefixes: seq<string>)
      requires d.record.OpenRecord?
      modifies this
      ensures Value() == Collector.OnOpen(old(Value()), d, prefixes)
    {
      var r := d.record;
      var process := CurrentProcess(r.tgid);
      if r.external && !Watched(d.resolved, prefixes) {
        return;
      }
      var observation := if r.fd >= 0 && Collector.IsTruncating(r.flags) then Collector.EMPTY_CONTENT else d.now;
      if r.fd >= 0 {
        fds := fds[(process.lifetime, r.fd) := Collector.OpenFile(d.resolved, r.flags, Some(observation))];
      }
      Push(FileOpen(process, d.resolved, r.flags, r.fd, r.external, observation));
    }

    method OnClose(d: Drained)
      requires d.record.CloseRecord?
      modifies this
      ensures Value() == Collector.OnClose(old(Value()), d)
    {
      var r := d.record;
      var process := CurrentProcess(r.tgid);
      var slot := (process.lifetime, r.fd);
      if slot in fds {
        var f := fds[slot];
        fds := fds - {slot};
        Push(FileClose(process, r.fd, Some(f.path), r.external, if CanWrite(f.flags) then Some(d.now) else None));
      } else if !r.external {
        Push(FileClose(process, r.fd, None, false, None));
      }
    }

    method OnMmap(d: Drained)
      requires d.record.MmapRecord?
      modifies this
      ensures Value() == Collector.OnMmap(old(Value()), d)
    {
      var r := d.record;
      var process := CurrentProcess(r.tgid);
      var slot := (process.lifetime, r.fd);
      if slot in fds {
        var f := fds[slot];
        var observation := if f.cached.Some? then f.cached.value else d.now;
        fds := fds[slot := f.(cached := Some(observation))];
        Push(FileMmap(process, r.fd, r.prot, r.flags, Some(f.path), r.external, Some(observation)));
      } else if !r.external {
        Push(FileMmap(process, r.fd, r.prot, r.flags, None, false, None));
      }
    }

    method OnRenameSource(d: Drained) returns (ok: bool)
      requires d.record.RenameSource?
      modifies this
      ensures (Value(), ok) == Collector.OnRenameSource(old(Value()), d)
    {
      var r := d.record;
      var process := CurrentProcess(r.tgid);
      var raw := DecodePath(r.path);
      if raw.None? {
        return false;
      }
      renames := renames[(r.pid, r.opId) :=
        Collector.PendingRename(process, ResolvePath(raw.value, d.resolved), r.flags, r.external)];
      ok := true;
    }

    method PushRename(p: Collector.PendingRename, to: string, external: bool, d: Drained)
      modifies this`events
      ensures events == old(events) + Collector.RenameEvents(p, to, external, d)
    {
      var forward := FileRename(p.process, p.from, to, p.flags, external, d.now);
      events := events + [forward];
      if Collector.IsExchange(p.flags) {
        events := events + [FileRename(p.process, to, p.from, p.flags, external, d.other)];
      }
    }

    method OnRenameDestination(d: Drained, prefixes: seq<string>) returns (ok: bool)
      requires d.record.RenameDestination?
      modifies this
      ensures (Value(), ok) == Collector.OnRenameDestination(old(Value()), d, prefixes)
    {
      var r := d.record;
      var key := (r.pid, r.opId);
      if key !in renames {
        return false;
      }
      var pending := renames[key];
      renames := renames - {key};
      var raw := DecodePath(r.path);
      if raw.None? {
        return false;
      }
      var to, external := ResolvePath(raw.value, d.resolved), pending.external || r.external;
      if external && !Watched(pending.from, prefixes) && !Watched(to, prefixes) {
        return true;
      }
      RewriteOpenFilePaths(pending.from, to, pending.flags);
      PushRename(pending, to, external, d);
      ok := true;
    }

    method OnUnlink(d: Drained, prefixes: seq<string>) returns (ok: bool)
      requires d.record.UnlinkRecord?
      modifies this
      ensures (Value(), ok) == Collector.OnUnlink(old(Value()), d, prefixes)
    {
      var r := d.record;
      var process := CurrentProcess(r.tgid);
      var raw := DecodePath(r.path);
      if raw.None? {
        return false;
      }
      var path := ResolvePath(raw.value, d.resolved);
      if !r.external || Watched(path, prefixes) {
        Push(FileUnlink(process, path, r.flags, r.external, d.now));
      }
      ok := true;
    }

    method ProcessEvent(d: Drained, prefixes: seq<string>) returns (ok: bool)
      modifies this
      ensures (Value(), ok) == Collector.ProcessEvent(old(Value()), d, prefixes)
    {
      ok := true;
      match d.record {
        case OpenRecord(_, _, _, _) => OnOpen(d, prefixes);
        case CloseRecord(_, _, _) => OnClose(d);
        case MmapRecord(_, _, _, _, _) => OnMmap(d);
        case RenameSource(_, _, _, _, _, _, _) => ok := OnRenameSource(d);
        case RenameDestination(_, _, _, _, _, _, _) => ok := OnRenameDestination(d, prefixes);
        case UnlinkRecord(_, _, _, _, _, _, _) => ok := OnUnlink(d, prefixes);
        case ExecRecord(tgid) =>
          var process := ExecProcess(tgid);
          if process.Some? { Push(Exec(process.value, d.now)); }
        case ForkRecord(parentPid, childPid) =>
          var parent, child := ForkProcess(parentPid, childPid);
          Push(Fork(parent, child));
        case ExitRecord(tgid, exitCode) =>
          var process := CurrentProcess(tgid);
          Push(Exit(process, exitCode));
        case Uninterpretable => ok := false;
      }
    }

    method ProcessBuffered(drained: seq<Drained>, prefixes: seq<string>)
      modifies this
      ensures Value() == Collector.Collect(old(Value()), drained, prefixes)
    {
      for i := 0 to |drained|
        invariant Value() == Collector.Collect(old(Value()), drained[..i], prefixes)
      {
        Collector.CollectStep(old(Value()), drained, prefixes, i);
        var ok := ProcessEvent(drained[i], prefixes);
        if !ok {
          malformed := Collector.SaturatingAdd(malformed, 1, U64_MAX);
        }
      }
      assert drained[..|drained|] == drained;
    }

    /**
     Sort by timestamp, process, synthesize the root's exit, account for unpaired renames.  The sort is unstable: the
     contract only says that the records were processed in some order that is sorted by timestamp.
     */
    method FinishWithSort(rootPid: U32, exitCode: int, raw: seq<Drained>, prefixes: seq<string>)
        returns (ghost order: seq<Drained>)
      modifies this
      ensures multiset(order) == multiset(raw)
      ensures forall i, j :: 0 <= i < j < |order| ==> order[i].time <= order[j].time
      ensures Value() == Collector.Finish(Collector.Collect(old(Value()), order, prefixes), rootPid, exitCode)
    {
      var sorted := SortByTime(raw);
      order := sorted;
      ProcessBuffered(sorted, prefixes);
      SynthesizeExit(rootPid, exitCode);
      if renames != map[] {
        malformed := Collector.SaturatingAdd(malformed, |renames|, U64_MAX);
        renames := map[];
      }
    }

    /** Search the trace backwards for an exit of the root and correct it, or add one. */
    method SynthesizeExit(rootPid: U32, exitCode: int)
      modifies this
      ensures Value() == Collector.WithExit(old(Value()), rootPid, exitCode)
    {
      var i := |events|;
      while i > 0 && !Collector.IsExitOf(events[i - 1], rootPid)
        invariant 0 <= i <= |events|
        invariant forall j :: i <= j < |events| ==> !Collector.IsExitOf(events[j], rootPid)
      {
        i := i - 1;
      }
      Collector.LastExitIs(events, rootPid, if i > 0 then i - 1 else |events|);
      if i > 0 {
        events := events[i - 1 := Exit(events[i - 1].process, exitCode)];
      } else {
        var process := CurrentProcess(rootPid);
        current := current - {rootPid};
        Push(Exit(process, exitCode));
      }
    }
  }

  method SortByTime(raw: seq<Drained>) returns (order: seq<Drained>)
    ensures multiset(order) == multiset(raw)
    ensures forall i, j :: 0 <= i < j < |order| ==> order[i].time <= order[j].time
  {
    var le := (a: Drained, b: Drained) => a.time <= b.time;
    order := SortBy(le, raw);
    SortBySorted(le, raw);
    forall i, j | 0 <= i < j < |order| ensures order[i].time <= order[j].time {
      assert le(order[i], order[j]);
    }
  }
}
