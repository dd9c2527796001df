/**
 Nothing is lost, invented or moved: the trace tells exactly the recorded calls that pass the filter, in the order of
 the records, each with its process and with what its own record observed.
 */
module CollectorCalls {
  import opened Sequences
  import opened Text
  import opened Trace
  import opened Paths
  import opened Descriptors
  import opened Records
  import opened Collector
  import opened CollectorRenames
  import opened CollectorProcesses

  /** A system call as both a record and an event tell it. */
  datatype Call =
    | OpenCall(process: Instance, external: bool, path: string, flags: U32, fd: int, found: Observation)
    | CloseCall(process: Instance, external: bool, fd: int, left: Option<Observation>)
    | MmapCall(process: Instance, external: bool, fd: int, prot: U32, flags: U32)
    | RenameCall(process: Instance, external: bool, from: string, to: string, flags: U32, found: Observation)
    | UnlinkCall(process: Instance, external: bool, path: string, flags: U32, found: Observation)
    | ExecCall(process: Instance, found: Observation)
    | ForkCall(process: Instance, child: Instance)
    | ExitCall(process: Instance, exitCode: int)

  function Told(e: Event): Call
  {
    match e
    case FileOpen(p, path, flags, fd, external, found) => OpenCall(p, external, path, flags, fd, found)
    case FileClose(p, fd, _, external, left) => CloseCall(p, external, fd, left)
    case FileMmap(p, fd, prot, flags, _, external, _) => MmapCall(p, external, fd, prot, flags)
    case FileRename(p, from, to, flags, external, found) => RenameCall(p, external, from, to, flags, found)
    case FileUnlink(p, path, flags, external, found) => UnlinkCall(p, external, path, flags, found)
    case Exec(p, found) => ExecCall(p, found)
    case Fork(parent, child) => ForkCall(parent, child)
    case Exit(p, code) => ExitCall(p, code)
  }

  // ---------------------------------------------------------------------- the calls that a record stands for

  /** An open finds the file as its record observed it, or an empty one if it has just truncated it. */
  function OpenCalls(p: Instance, d: Drained, prefixes: seq<string>): seq<Call>
    requires d.record.OpenRecord?
  {
    var r := d.record;
    if r.external && !Watched(d.resolved, prefixes) then []
    else [OpenCall(p, r.external, d.resolved, r.flags, r.fd,
                   if r.fd >= 0 && IsTruncating(r.flags) then EMPTY_CONTENT else d.now)]
  }

  /** A close leaves the file, if it could be written, as the record of the close observed it. */
  function CloseCalls(p: Instance, files: map<Slot, OpenFile>, d: Drained): seq<Call>
    requires d.record.CloseRecord?
  {
    var r, slot := d.record, (p.lifetime, d.record.fd);
    if slot in files then [CloseCall(p, r.external, r.fd, if CanWrite(files[slot].flags) then Some(d.now) else None)]
    else if r.external then []
    else [CloseCall(p, false, r.fd, None)]
  }

  function MmapCalls(p: Instance, files: map<Slot, OpenFile>, d: Drained): seq<Call>
    requires d.record.MmapRecord?
  {
    var r := d.record;
    if r.external && (p.lifetime, r.fd) !in files then [] else [MmapCall(p, r.external, r.fd, r.prot, r.flags)]
  }

  function UnlinkCalls(p: Instance, d: Drained, prefixes: seq<string>): seq<Call>
    requires d.record.UnlinkRecord?
  {
    var r := d.record;
    match DecodePath(r.path)
    case None => []
    case Some(raw) =>
      var path := ResolvePath(raw, d.resolved);
      if r.external && !Watched(path, prefixes) then [] else [UnlinkCall(p, r.external, path, r.flags, d.now)]
  }

  /** The source record that waits for a destination with this key. */
  function PendingSource(drained: seq<Drained>, key: RenameKey): (i: Option<nat>)
    ensures i.Some? ==> i.value < |drained| && drained[i.value].record.RenameSource? && Decoded(drained[i.value]).Some?
  {
    if drained == [] then None
    else
      var n, d := |drained| - 1, drained[|drained| - 1];
      if IsSourceOf(d.record, key) && Decoded(d).Some? then Some(n)
      else if IsDestinationOf(d.record, key) then None
      else PendingSource(drained[..n], key)
  }

  /** The forward rename with what its destination record observed, and the reverse one of an exchange likewise. */
  function CompletedCalls(half: PendingRename, to: string, d: Drained, prefixes: seq<string>): seq<Call>
    requires d.record.RenameDestination?
  {
    var p, external, from := half.process, half.external || d.record.external, half.from;
    if external && !Watched(from, prefixes) && !Watched(to, prefixes) then []
    else if IsExchange(half.flags) then
      [RenameCall(p, external, from, to, half.flags, d.now), RenameCall(p, external, to, from, half.flags, d.other)]
    else [RenameCall(p, external, from, to, half.flags, d.now)]
  }

  /** A destination completes the rename of the source that waits for it. */
  function RenameCalls(rootPid: U32, before: seq<Drained>, d: Drained, prefixes: seq<string>): seq<Call>
    requires d.record.RenameDestination?
  {
    match (PendingSource(before, (d.record.pid, d.record.opId)), Decoded(d))
    case (Some(i), Some(to)) =>
      var r, p := before[i].record, ProcessOf(rootPid, before[..i], before[i].record.tgid);
      CompletedCalls(PendingRename(p, Decoded(before[i]).value, r.flags, r.external), to, d, prefixes)
    case _ => []
  }

  /** The calls that a record tells when it comes after these. */
  function CallsAt(rootPid: U32, before: seq<Drained>, d: Drained, prefixes: seq<string>): seq<Call>
  {
    var files := Collect(New(rootPid), before, prefixes).fds;
    match d.record
    case OpenRecord(tgid, _, _, _) => OpenCalls(ProcessOf(rootPid, before, tgid), d, prefixes)
    case CloseRecord(tgid, _, _) => CloseCalls(ProcessOf(rootPid, before, tgid), files, d)
    case MmapRecord(tgid, _, _, _, _) => MmapCalls(ProcessOf(rootPid, before, tgid), files, d)
    case RenameDestination(_, _, _, _, _, _, _) => RenameCalls(rootPid, before, d, prefixes)
    case UnlinkRecord(_, tgid, _, _, _, _, _) => UnlinkCalls(ProcessOf(rootPid, before, tgid), d, prefixes)
    case ExecRecord(tgid) =>
      if tgid == rootPid && !RootExecuted(rootPid, before) then []
      else [ExecCall(ProcessOf(rootPid, before + [d], tgid), d.now)]
    case ForkRecord(parent, child) =>
      [ForkCall(ProcessOf(rootPid, before, parent), ProcessOf(rootPid, before + [d], child))]
    case ExitRecord(tgid, code) => [ExitCall(ProcessOf(rootPid, before, tgid), code)]
    case _ => []
  }

  function RecordedCalls(rootPid: U32, drained: seq<Drained>, prefixes: seq<string>): seq<Call>
  {
    if drained == [] then []
    else
      var n := |drained| - 1;
      RecordedCalls(rootPid, drained[..n], prefixes) + CallsAt(rootPid, drained[..n], drained[n], prefixes)
  }

  // ---------------------------------------------------------------------- one record

  /** The events after `before` tell these calls. */
  predicate Adds(before: seq<Event>, after: seq<Event>, calls: seq<Call>)
  {
    && |after| == |before| + |calls| && after[..|before|] == before
    && forall i :: 0 <= i < |calls| ==> Told(after[|before| + i]) == calls[i]
  }

  predicate AllTold(events: seq<Event>, calls: seq<Call>)
  {
    |events| == |calls| && forall i :: 0 <= i < |calls| ==> Told(events[i]) == calls[i]
  }

  lemma AddedAreTold(before: seq<Event>, after: seq<Event>, calls: seq<Call>, added: seq<Call>)
    requires AllTold(before, calls) && Adds(before, after, added)
    ensures AllTold(after, calls + added)
  {
    forall i | 0 <= i < |calls + added| ensures Told(after[i]) == (calls + added)[i] {
      if i < |calls| { assert after[..|before|][i] == after[i]; }
      else { assert after[i] == after[|before| + (i - |calls|)]; }
    }
  }

  lemma NoneAdded(before: seq<Event>)
    ensures Adds(before, before, [])
  {
  }

  lemma OneAdded(before: seq<Event>, e: Event)
    ensures Adds(before, before + [e], [Told(e)])
  {
  }

  lemma LookupKeeps(c: Coll, pid: U32)
    ensures CurrentProcess(c, pid).0.events == c.events && CurrentProcess(c, pid).0.fds == c.fds
  {
  }

  lemma OpenAdds(c: Coll, d: Drained, prefixes: seq<string>)
    requires d.record.OpenRecord?
    ensures Adds(c.events, OnOpen(c, d, prefixes).events, OpenCalls(CurrentProcess(c, d.record.tgid).1, d, prefixes))
  {
    var r, after := d.record, OnOpen(c, d, prefixes).events;
    LookupKeeps(c, r.tgid);
    if r.external && !Watched(d.resolved, prefixes) {
      NoneAdded(c.events);
    } else {
      OneAdded(c.events, after[|c.events|]);
    }
  }

  lemma CloseAdds(c: Coll, d: Drained)
    requires d.record.CloseRecord?
    ensures Adds(c.events, OnClose(c, d).events, CloseCalls(CurrentProcess(c, d.record.tgid).1, c.fds, d))
  {
    var r, after := d.record, OnClose(c, d).events;
    LookupKeeps(c, r.tgid);
    if (CurrentProcess(c, r.tgid).1.lifetime, r.fd) !in c.fds && r.external {
      NoneAdded(c.events);
    } else {
      OneAdded(c.events, after[|c.events|]);
    }
  }

  lemma MmapAdds(c: Coll, d: Drained)
    requires d.record.MmapRecord?
    ensures Adds(c.events, OnMmap(c, d).events, MmapCalls(CurrentProcess(c, d.record.tgid).1, c.fds, d))
  {
    var r, after := d.record, OnMmap(c, d).events;
    LookupKeeps(c, r.tgid);
    if (CurrentProcess(c, r.tgid).1.lifetime, r.fd) !in c.fds && r.external {
      NoneAdded(c.events);
    } else {
      OneAdded(c.events, after[|c.events|]);
    }
  }

  lemma UnlinkAdds(c: Coll, d: Drained, prefixes: seq<string>)
    requires d.record.UnlinkRecord?
    ensures Adds(c.events, OnUnlink(c, d, prefixes).0.events,
                 UnlinkCalls(CurrentProcess(c, d.record.tgid).1, d, prefixes))
  {
    var after, calls := OnUnlink(c, d, prefixes).0.events, UnlinkCalls(CurrentProcess(c, d.record.tgid).1, d, prefixes);
    LookupKeeps(c, d.record.tgid);
    if calls == [] {
      NoneAdded(c.events);
    } else {
      OneAdded(c.events, after[|c.events|]);
    }
  }

  lemma QuietAdds(c: Coll, d: Drained, prefixes: seq<string>)
    requires d.record.RenameSource? || d.record.Uninterpretable?
    ensures Adds(c.events, ProcessEvent(c, d, prefixes).0.events, [])
  {
  }

  /** A process is looked up before its record and, for an exec or a fork, once more after it. */
  lemma Lookup(rootPid: U32, drained: seq<Drained>, n: nat, prefixes: seq<string>, pid: U32)
    requires |drained| == n + 1
    ensures var c := Collect(New(rootPid), drained[..n], prefixes);
            && CurrentProcess(c, pid).1 == ProcessOf(rootPid, drained[..n], pid)
            && CurrentProcess(CollStep(c, drained[n], prefixes), pid).1 == ProcessOf(rootPid, drained, pid)
  {
    ProcessesAreCounted(rootPid, drained[..n], prefixes, pid);
    ProcessesAreCounted(rootPid, drained, prefixes, pid);
  }

  lemma ExecAdds(c: Coll, d: Drained, prefixes: seq<string>, first: bool)
    requires d.record.ExecRecord? && (first <==> d.record.tgid == c.root.lifetime.pid && c.rootExecPending)
    ensures Adds(c.events, OnExec(c, d).events,
                 if first then [] else [ExecCall(CurrentProcess(CollStep(c, d, prefixes), d.record.tgid).1, d.now)])
  {
  }

  lemma ForkAdds(c: Coll, d: Drained, prefixes: seq<string>)
    requires d.record.ForkRecord?
    ensures Adds(c.events, OnFork(c, d).events,
                 [ForkCall(CurrentProcess(c, d.record.parent).1,
                           CurrentProcess(CollStep(c, d, prefixes), d.record.child).1)])
  {
  }

  // ---------------------------------------------------------------------- pending renames

  predicate IsPending(c: Coll, rootPid: U32, drained: seq<Drained>, key: RenameKey)
  {
    match PendingSource(drained, key)
    case None => key !in c.renames
    case Some(i) =>
      var r := drained[i].record;
      && key in c.renames
      && c.renames[key] == PendingRename(ProcessOf(rootPid, drained[..i], r.tgid), Decoded(drained[i]).value, r.flags,
                                         r.external)
  }

  /** What a record does to the half that waits under a key. */
  predicate KeyFollows(c: Coll, c1: Coll, d: Drained, key: RenameKey)
  {
    if IsSourceOf(d.record, key) && Decoded(d).Some? then key in c1.renames && IsHalf(c1.renames[key], c, d)
    else if IsDestinationOf(d.record, key) then key !in c1.renames
    else (key in c1.renames <==> key in c.renames) && (key in c.renames ==> c1.renames[key] == c.renames[key])
  }

  lemma StepFollows(c: Coll, d: Drained, prefixes: seq<string>, key: RenameKey)
    ensures KeyFollows(c, CollStep(c, d, prefixes), d, key)
  {
    var c1, ok := ProcessEvent(c, d, prefixes).0, ProcessEvent(c, d, prefixes).1;
    RecordIsHandled(c, d, prefixes);
    assert CollStep(c, d, prefixes).renames == c1.renames;
    if IsSourceOf(d.record, key) { assert ok <==> Decoded(d).Some?; }
  }

  lemma PendingFollows(c: Coll, c1: Coll, rootPid: U32, drained: seq<Drained>, n: nat, prefixes: seq<string>,
      key: RenameKey)
    requires |drained| == n + 1 && c == Collect(New(rootPid), drained[..n], prefixes)
    requires IsPending(c, rootPid, drained[..n], key) && KeyFollows(c, c1, drained[n], key)
    ensures IsPending(c1, rootPid, drained, key)
  {
    var d, i := drained[n], PendingSource(drained[..n], key);
    if IsSourceOf(d.record, key) && Decoded(d).Some? {
      ProcessesAreCounted(rootPid, drained[..n], prefixes, d.record.tgid);
    } else if !IsDestinationOf(d.record, key) && i.Some? {
      NestedPrefix(drained, n, i.value);
    }
  }

  /** A waiting half is that of the latest readable source record of its key that no destination has used up. */
  lemma {:induction false} PendingIsLatestSource(rootPid: U32, drained: seq<Drained>, prefixes: seq<string>,
      key: RenameKey)
    ensures IsPending(Collect(New(rootPid), drained, prefixes), rootPid, drained, key)
  {
    if drained != [] {
      var n := |drained| - 1;
      PendingIsLatestSource(rootPid, drained[..n], prefixes, key);
      StepFollows(Collect(New(rootPid), drained[..n], prefixes), drained[n], prefixes, key);
      PendingFollows(Collect(New(rootPid), drained[..n], prefixes), Collect(New(rootPid), drained, prefixes), rootPid,
                     drained, n, prefixes, key);
    }
  }

  lemma CompletionIsTold(half: PendingRename, to: string, d: Drained, prefixes: seq<string>)
    requires d.record.RenameDestination?
    ensures AllTold(Completion(half, to, d, prefixes), CompletedCalls(half, to, d, prefixes))
  {
  }

  lemma ToldIsAdded(before: seq<Event>, added: seq<Event>, calls: seq<Call>)
    requires AllTold(added, calls)
    ensures Adds(before, before + added, calls)
  {
  }

  lemma DestinationAdds(c: Coll, d: Drained, prefixes: seq<string>, key: RenameKey)
    requires IsDestinationOf(d.record, key)
    ensures Adds(c.events, OnRenameDestination(c, d, prefixes).0.events,
                 if key in c.renames && Decoded(d).Some?
                 then CompletedCalls(c.renames[key], Decoded(d).value, d, prefixes) else [])
  {
    if key in c.renames && Decoded(d).Some? {
      DestinationCompletes(c, d, prefixes, key);
      CompletionIsTold(c.renames[key], Decoded(d).value, d, prefixes);
      ToldIsAdded(c.events, Completion(c.renames[key], Decoded(d).value, d, prefixes),
                  CompletedCalls(c.renames[key], Decoded(d).value, d, prefixes));
    } else {
      NoneAdded(c.events);
    }
  }

  lemma RenameAdds(rootPid: U32, before: seq<Drained>, d: Drained, prefixes: seq<string>)
    requires d.record.RenameDestination?
    ensures var c := Collect(New(rootPid), before, prefixes);
            Adds(c.events, OnRenameDestination(c, d, prefixes).0.events, RenameCalls(rootPid, before, d, prefixes))
  {
    var key := (d.record.pid, d.record.opId);
    PendingIsLatestSource(rootPid, before, prefixes, key);
    DestinationAdds(Collect(New(rootPid), before, prefixes), d, prefixes, key);
  }

  // ---------------------------------------------------------------------- whole runs

  lemma OpenRecordAdds(rootPid: U32, drained: seq<Drained>, n: nat, prefixes: seq<string>)
    requires |drained| == n + 1 && drained[n].record.OpenRecord?
    ensures Adds(Collect(New(rootPid), drained[..n], prefixes).events, Collect(New(rootPid), drained, prefixes).events,
                 CallsAt(rootPid, drained[..n], drained[n], prefixes))
  {
    Lookup(rootPid, drained, n, prefixes, drained[n].record.tgid);
    OpenAdds(Collect(New(rootPid), drained[..n], prefixes), drained[n], prefixes);
  }

  lemma CloseRecordAdds(rootPid: U32, drained: seq<Drained>, n: nat, prefixes: seq<string>)
    requires |drained| == n + 1 && drained[n].record.CloseRecord?
    ensures Adds(Collect(New(rootPid), drained[..n], prefixes).events, Collect(New(rootPid), drained, prefixes).events,
                 CallsAt(rootPid, drained[..n], drained[n], prefixes))
  {
    Lookup(rootPid, drained, n, prefixes, drained[n].record.tgid);
    CloseAdds(Collect(New(rootPid), drained[..n], prefixes), drained[n]);
  }

  lemma MmapRecordAdds(rootPid: U32, drained: seq<Drained>, n: nat, prefixes: seq<string>)
    requires |drained| == n + 1 && drained[n].record.MmapRecord?
    ensures Adds(Collect(New(rootPid), drained[..n], prefixes).events, Collect(New(rootPid), drained, prefixes).events,
                 CallsAt(rootPid, drained[..n], drained[n], prefixes))
  {
    Lookup(rootPid, drained, n, prefixes, drained[n].record.tgid);
    MmapAdds(Collect(New(rootPid), drained[..n], prefixes), drained[n]);
  }

  lemma UnlinkRecordAdds(rootPid: U32, drained: seq<Drained>, n: nat, prefixes: seq<string>)
    requires |drained| == n + 1 && drained[n].record.UnlinkRecord?
    ensures Adds(Collect(New(rootPid), drained[..n], prefixes).events, Collect(New(rootPid), drained, prefixes).events,
                 CallsAt(rootPid, drained[..n], drained[n], prefixes))
  {
    Lookup(rootPid, drained, n, prefixes, drained[n].record.tgid);
    UnlinkAdds(Collect(New(rootPid), drained[..n], prefixes), drained[n], prefixes);
  }

  lemma ExitRecordAdds(rootPid: U32, drained: seq<Drained>, n: nat, prefixes: seq<string>)
    requires |drained| == n + 1 && drained[n].record.ExitRecord?
    ensures Adds(Collect(New(rootPid), drained[..n], prefixes).events, Collect(New(rootPid), drained, prefixes).events,
                 CallsAt(rootPid, drained[..n], drained[n], prefixes))
  {
    Lookup(rootPid, drained, n, prefixes, drained[n].record.tgid);
    LookupKeeps(Collect(New(rootPid), drained[..n], prefixes), drained[n].record.tgid);
  }

  lemma ExecRecordAdds(rootPid: U32, drained: seq<Drained>, n: nat, prefixes: seq<string>)
    requires |drained| == n + 1 && drained[n].record.ExecRecord?
    ensures Adds(Collect(New(rootPid), drained[..n], prefixes).events, Collect(New(rootPid), drained, prefixes).events,
                 CallsAt(rootPid, drained[..n], drained[n], prefixes))
  {
    var c, tgid := Collect(New(rootPid), drained[..n], prefixes), drained[n].record.tgid;
    Lookup(rootPid, drained, n, prefixes, tgid);
    RunKnows(rootPid, drained[..n], prefixes);
    PrefixAndLast(drained, n);
    ExecAdds(c, drained[n], prefixes, tgid == rootPid && !RootExecuted(rootPid, drained[..n]));
  }

  lemma ForkRecordAdds(rootPid: U32, drained: seq<Drained>, n: nat, prefixes: seq<string>)
    requires |drained| == n + 1 && drained[n].record.ForkRecord?
    ensures Adds(Collect(New(rootPid), drained[..n], prefixes).events, Collect(New(rootPid), drained, prefixes).events,
                 CallsAt(rootPid, drained[..n], drained[n], prefixes))
  {
    Lookup(rootPid, drained, n, prefixes, drained[n].record.parent);
    Lookup(rootPid, drained, n, prefixes, drained[n].record.child);
    PrefixAndLast(drained, n);
    ForkAdds(Collect(New(rootPid), drained[..n], prefixes), drained[n], prefixes);
  }

  lemma PrefixAndLast<T>(s: seq<T>, n: nat)
    requires |s| == n + 1
    ensures s[..n] + [s[n]] == s
  {
  }

  lemma RecordAdds(rootPid: U32, drained: seq<Drained>, n: nat, prefixes: seq<string>)
    requires |drained| == n + 1
    ensures Adds(Collect(New(rootPid), drained[..n], prefixes).events, Collect(New(rootPid), drained, prefixes).events,
                 CallsAt(rootPid, drained[..n], drained[n], prefixes))
  {
    match drained[n].record
    case OpenRecord(_, _, _, _) => OpenRecordAdds(rootPid, drained, n, prefixes);
    case CloseRecord(_, _, _) => CloseRecordAdds(rootPid, drained, n, prefixes);
    case MmapRecord(_, _, _, _, _) => MmapRecordAdds(rootPid, drained, n, prefixes);
    case UnlinkRecord(_, _, _, _, _, _, _) => UnlinkRecordAdds(rootPid, drained, n, prefixes);
    case RenameDestination(_, _, _, _, _, _, _) => RenameAdds(rootPid, drained[..n], drained[n], prefixes);
    case ExecRecord(_) => ExecRecordAdds(rootPid, drained, n, prefixes);
    case ForkRecord(_, _) => ForkRecordAdds(rootPid, drained, n, prefixes);
    case ExitRecord(_, _) => ExitRecordAdds(rootPid, drained, n, prefixes);
    case _ => QuietAdds(Collect(New(rootPid), drained[..n], prefixes), drained[n], prefixes);
  }

  /** While records are handled the trace tells exactly the recorded calls. */
  lemma {:induction false} CollectedCalls(rootPid: U32, drained: seq<Drained>, prefixes: seq<string>)
    ensures AllTold(Collect(New(rootPid), drained, prefixes).events, RecordedCalls(rootPid, drained, prefixes))
  {
    if drained != [] {
      var n := |drained| - 1;
      CollectedCalls(rootPid, drained[..n], prefixes);
      RecordAdds(rootPid, drained, n, prefixes);
      var c, c1 := Collect(New(rootPid), drained[..n], prefixes), Collect(New(rootPid), drained, prefixes);
      AddedAreTold(c.events, c1.events, RecordedCalls(rootPid, drained[..n], prefixes),
                   CallsAt(rootPid, drained[..n], drained[n], prefixes));
    }
  }

  predicate IsExitCall(call: Call, pid: U32)
  {
    call.ExitCall? && call.process.lifetime.pid == pid
  }

  predicate IsLastExitCall(calls: seq<Call>, pid: U32, i: nat)
  {
    i < |calls| && IsExitCall(calls[i], pid) && forall j :: i < j < |calls| ==> !IsExitCall(calls[j], pid)
  }

  lemma LastExitIsTold(events: seq<Event>, calls: seq<Call>, pid: U32, i: nat)
    requires AllTold(events, calls) && i < |calls|
    ensures LastExit(events, pid) == i <==> IsLastExitCall(calls, pid, i)
  {
    forall j | 0 <= j < |calls| ensures IsExitOf(events[j], pid) <==> IsExitCall(calls[j], pid) {
      assert Told(events[j]) == calls[j];
    }
    if IsLastExitCall(calls, pid, i) { LastExitIs(events, pid, i); }
  }

  /** The trace tells the calls; the last exit of the root, or an additional one, has the given code. */
  predicate TellsFinished(trace: seq<Event>, calls: seq<Call>, root: Instance, exitCode: int)
  {
    && |calls| <= |trace|
    && (forall i :: 0 <= i < |calls| ==>
          Told(trace[i]) == if IsLastExitCall(calls, root.lifetime.pid, i) then ExitCall(calls[i].process, exitCode)
                            else calls[i])
    && (if exists i :: 0 <= i < |calls| && IsExitCall(calls[i], root.lifetime.pid) then |trace| == |calls|
        else |trace| == |calls| + 1 && Told(trace[|calls|]) == ExitCall(root, exitCode))
  }

  lemma FinishedAreTold(c: Coll, trace: seq<Event>, calls: seq<Call>, root: Instance, exitCode: int)
    requires AllTold(c.events, calls) && OnlyLastExitChanges(c, trace, root.lifetime.pid, exitCode)
    requires root == CurrentProcess(c, root.lifetime.pid).1
    ensures TellsFinished(trace, calls, root, exitCode)
  {
    var pid := root.lifetime.pid;
    var last := LastExit(c.events, pid);
    forall i | 0 <= i < |calls|
      ensures Told(trace[i]) == if IsLastExitCall(calls, pid, i) then ExitCall(calls[i].process, exitCode) else calls[i]
    {
      LastExitIsTold(c.events, calls, pid, i);
    }
    if last == |c.events| {
      forall i | 0 <= i < |calls| ensures !IsExitCall(calls[i], pid) { assert !IsExitOf(c.events[i], pid); }
    } else {
      assert IsExitCall(calls[last], pid);
    }
  }

  /**
   The finished trace tells, in the order of the records, exactly the recorded calls.  The last exit of the root has the
   exit code that its parent was told; when the root has no exit, one is added at the end.
   */
  lemma CallsAreConserved(rootPid: U32, drained: seq<Drained>, prefixes: seq<string>, exitCode: int)
    ensures TellsFinished(Finish(Collect(New(rootPid), drained, prefixes), rootPid, exitCode).events,
                          RecordedCalls(rootPid, drained, prefixes), ProcessOf(rootPid, drained, rootPid), exitCode)
  {
    var c, calls := Collect(New(rootPid), drained, prefixes), RecordedCalls(rootPid, drained, prefixes);
    CollectedCalls(rootPid, drained, prefixes);
    FinishKeepsEvents(c, rootPid, exitCode);
    ProcessesAreCounted(rootPid, drained, prefixes, rootPid);
    FinishedAreTold(c, Finish(c, rootPid, exitCode).events, calls, ProcessOf(rootPid, drained, rootPid), exitCode);
  }
}
