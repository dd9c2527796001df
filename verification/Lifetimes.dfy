/** Lifetimes are fresh, forked descriptor tables are exact copies, and exec instances are unique over a whole run. */
module Lifetimes {
  import opened Sequences
  import opened Text
  import opened Trace
  import opened Descriptors
  import opened Records
  import opened Collector
  import opened CollectorRenames

  // ---------------------------------------------------------------------------------------------
  // Every lifetime in use is one that was issued before.

  /** `l` was issued: its generation is below the counter of its PID, or the counter is saturated. */
  predicate Issued(c: Coll, l: Lifetime)
  {
    l.pid in c.nextGeneration && (l.generation < c.nextGeneration[l.pid] || c.nextGeneration[l.pid] == U32_MAX)
  }

  predicate EventIssued(c: Coll, e: Event)
  {
    if e.Fork? then Issued(c, e.parent.lifetime) && Issued(c, e.child.lifetime) else Issued(c, e.process.lifetime)
  }

  ghost predicate CurrentIssued(c: Coll)
  {
    forall pid :: pid in c.current ==> c.current[pid].lifetime.pid == pid && Issued(c, c.current[pid].lifetime)
  }

  ghost predicate TablesIssued(c: Coll)
  {
    && (forall slot :: slot in c.fds ==> Issued(c, slot.0))
    && (forall key :: key in c.renames ==> Issued(c, c.renames[key].process.lifetime))
  }

  ghost predicate TraceIssued(c: Coll)
  {
    forall i :: 0 <= i < |c.events| ==> EventIssued(c, c.events[i])
  }

  ghost predicate AllIssued(c: Coll)
  {
    CurrentIssued(c) && TablesIssued(c) && TraceIssued(c)
  }

  /** Counters only grow. */
  ghost predicate Grows(c: Coll, c': Coll)
  {
    forall pid :: pid in c.nextGeneration ==>
      pid in c'.nextGeneration && c.nextGeneration[pid] <= c'.nextGeneration[pid]
  }

  lemma IssuedIsKept(c: Coll, c': Coll, l: Lifetime)
    requires Issued(c, l) && Grows(c, c')
    ensures Issued(c', l)
  {
  }

  lemma StartKeepsIssued(c: Coll, pid: U32)
    requires AllIssued(c)
    ensures var (c', p) := StartProcess(c, pid);
            AllIssued(c') && Grows(c, c') && Issued(c', p.lifetime) && p.lifetime.pid == pid
            && c'.fds == c.fds && c'.events == c.events && c'.renames == c.renames
  {
    var (c', p) := StartProcess(c, pid);
    assert Grows(c, c') && Issued(c', p.lifetime);
    KeepAll(c, c');
  }

  /** The tables and the trace of `c` are issued in `c'`, which has the same ones and larger counters. */
  lemma KeepAll(c: Coll, c': Coll)
    requires AllIssued(c) && Grows(c, c')
    requires c'.fds == c.fds && c'.events == c.events && c'.renames == c.renames
    requires forall pid :: pid in c'.current ==>
      (c'.current[pid].lifetime.pid == pid
       && (Issued(c', c'.current[pid].lifetime)
           || (pid in c.current && c'.current[pid].lifetime == c.current[pid].lifetime)))
    ensures AllIssued(c')
  {
    forall l | Issued(c, l) ensures Issued(c', l) { IssuedIsKept(c, c', l); }
    forall i | 0 <= i < |c.events| ensures EventIssued(c', c.events[i]) { assert EventIssued(c, c.events[i]); }
  }

  lemma CurrentKeepsIssued(c: Coll, pid: U32)
    requires AllIssued(c)
    ensures var (c', p) := CurrentProcess(c, pid);
            AllIssued(c') && Grows(c, c') && Issued(c', p.lifetime) && p.lifetime.pid == pid
            && c'.fds == c.fds && c'.events == c.events && c'.renames == c.renames
  {
    if pid !in c.current { StartKeepsIssued(c, pid); }
  }

  lemma PushKeepsIssued(c: Coll, more: seq<Event>)
    requires AllIssued(c) && forall i :: 0 <= i < |more| ==> EventIssued(c, more[i])
    ensures AllIssued(c.(events := c.events + more))
  {
    var c' := c.(events := c.events + more);
    forall i | 0 <= i < |c'.events| ensures EventIssued(c', c'.events[i]) {
      if i < |c.events| { assert EventIssued(c, c.events[i]); } else { assert EventIssued(c, more[i - |c.events|]); }
    }
  }

  lemma TablesKeepIssued(c: Coll, fds: map<Slot, OpenFile>, renames: map<RenameKey, PendingRename>)
    requires AllIssued(c)
    requires forall slot :: slot in fds ==> Issued(c, slot.0)
    requires forall key :: key in renames ==> Issued(c, renames[key].process.lifetime)
    ensures AllIssued(c.(fds := fds, renames := renames))
  {
    var c' := c.(fds := fds, renames := renames);
    forall i | 0 <= i < |c'.events| ensures EventIssued(c', c'.events[i]) { assert EventIssued(c, c.events[i]); }
  }

  lemma SetTables(c: Coll, fds: map<Slot, OpenFile>, renames: map<RenameKey, PendingRename>, more: seq<Event>)
    requires AllIssued(c)
    requires forall slot :: slot in fds ==> Issued(c, slot.0)
    requires forall key :: key in renames ==> Issued(c, renames[key].process.lifetime)
    requires forall i :: 0 <= i < |more| ==> EventIssued(c, more[i])
    ensures AllIssued(c.(fds := fds, renames := renames, events := c.events + more))
  {
    TablesKeepIssued(c, fds, renames);
    var c1 := c.(fds := fds, renames := renames);
    forall i | 0 <= i < |more| ensures EventIssued(c1, more[i]) { assert EventIssued(c, more[i]); }
    PushKeepsIssued(c1, more);
  }

  lemma OpenKeepsIssued(c: Coll, d: Drained, prefixes: seq<string>)
    requires AllIssued(c) && d.record.OpenRecord?
    ensures AllIssued(OnOpen(c, d, prefixes)) && Grows(c, OnOpen(c, d, prefixes))
  {
    CurrentKeepsIssued(c, d.record.tgid);
    var (c1, p) := CurrentProcess(c, d.record.tgid);
    var c2 := OnOpen(c, d, prefixes);
    if c2 != c1 {
      SetTables(c1, c2.fds, c1.renames, [c2.events[|c1.events|]]);
      assert c2.events == c1.events + [c2.events[|c1.events|]];
    }
  }

  lemma CloseKeepsIssued(c: Coll, d: Drained)
    requires AllIssued(c) && d.record.CloseRecord?
    ensures AllIssued(OnClose(c, d)) && Grows(c, OnClose(c, d))
  {
    CurrentKeepsIssued(c, d.record.tgid);
    var (c1, p) := CurrentProcess(c, d.record.tgid);
    var c2 := OnClose(c, d);
    if c2 != c1 {
      SetTables(c1, c2.fds, c1.renames, [c2.events[|c1.events|]]);
      assert c2.events == c1.events + [c2.events[|c1.events|]];
    }
  }

  lemma MmapKeepsIssued(c: Coll, d: Drained)
    requires AllIssued(c) && d.record.MmapRecord?
    ensures AllIssued(OnMmap(c, d)) && Grows(c, OnMmap(c, d))
  {
    CurrentKeepsIssued(c, d.record.tgid);
    var (c1, p) := CurrentProcess(c, d.record.tgid);
    var c2 := OnMmap(c, d);
    if c2 != c1 {
      SetTables(c1, c2.fds, c1.renames, [c2.events[|c1.events|]]);
      assert c2.events == c1.events + [c2.events[|c1.events|]];
    }
  }

  lemma RenameSourceKeepsIssued(c: Coll, d: Drained)
    requires AllIssued(c) && d.record.RenameSource?
    ensures AllIssued(OnRenameSource(c, d).0) && Grows(c, OnRenameSource(c, d).0)
  {
    CurrentKeepsIssued(c, d.record.tgid);
    var (c1, p) := CurrentProcess(c, d.record.tgid);
    var c2 := OnRenameSource(c, d).0;
    TablesKeepIssued(c1, c1.fds, c2.renames);
  }

  lemma RenameDestinationKeepsIssued(c: Coll, d: Drained, prefixes: seq<string>)
    requires AllIssued(c) && d.record.RenameDestination?
    ensures AllIssued(OnRenameDestination(c, d, prefixes).0) && Grows(c, OnRenameDestination(c, d, prefixes).0)
  {
    var key := (d.record.pid, d.record.opId);
    if key in c.renames {
      var p, c1 := c.renames[key], c.(renames := c.renames - {key});
      TablesKeepIssued(c, c.fds, c.renames - {key});
      if DecodePath(d.record.path).Some? {
        var to, external := ResolvePath(DecodePath(d.record.path).value, d.resolved), p.external || d.record.external;
        var fds := MoveOpenFiles(c1.fds, p.from, to, IsExchange(p.flags));
        SetTables(c1, fds, c1.renames, RenameEvents(p, to, external, d));
      }
    }
  }

  lemma UnlinkKeepsIssued(c: Coll, d: Drained, prefixes: seq<string>)
    requires AllIssued(c) && d.record.UnlinkRecord?
    ensures AllIssued(OnUnlink(c, d, prefixes).0) && Grows(c, OnUnlink(c, d, prefixes).0)
  {
    CurrentKeepsIssued(c, d.record.tgid);
    var (c1, p) := CurrentProcess(c, d.record.tgid);
    var c2 := OnUnlink(c, d, prefixes).0;
    if c2 != c1 {
      PushKeepsIssued(c1, [c2.events[|c1.events|]]);
      assert c2.events == c1.events + [c2.events[|c1.events|]];
    }
  }

  lemma ExecKeepsIssued(c: Coll, d: Drained)
    requires AllIssued(c) && d.record.ExecRecord?
    ensures AllIssued(OnExec(c, d)) && Grows(c, OnExec(c, d))
  {
    var pid := d.record.tgid;
    if pid == c.root.lifetime.pid && c.rootExecPending {
      KeepAll(c, c.(rootExecPending := false));
    } else {
      CurrentKeepsIssued(c, pid);
      var (c1, p) := CurrentProcess(c, pid);
      var c2 := ExecProcess(c, pid).0;
      KeepAll(c1, c2);
      PushKeepsIssued(c2, [Exec(ExecProcess(c, pid).1.value, d.now)]);
    }
  }

  lemma ForkKeepsIssued(c: Coll, d: Drained)
    requires AllIssued(c) && d.record.ForkRecord?
    ensures AllIssued(OnFork(c, d)) && Grows(c, OnFork(c, d))
  {
    CurrentKeepsIssued(c, d.record.parent);
    var (c1, parent) := CurrentProcess(c, d.record.parent);
    StartKeepsIssued(c1, d.record.child);
    var (c2, child) := StartProcess(c1, d.record.child);
    IssuedIsKept(c1, c2, parent.lifetime);
    SetTables(c2, Inherit(c2.fds, parent.lifetime, child.lifetime), c2.renames, [Fork(parent, child)]);
    assert Grows(c, c2);
  }

  lemma ExitKeepsIssued(c: Coll, d: Drained)
    requires AllIssued(c) && d.record.ExitRecord?
    ensures AllIssued(OnExit(c, d)) && Grows(c, OnExit(c, d))
  {
    CurrentKeepsIssued(c, d.record.tgid);
    var (c1, p) := CurrentProcess(c, d.record.tgid);
    PushKeepsIssued(c1, [Exit(p, d.record.exitCode)]);
  }

  lemma MalformedKeepsIssued(c: Coll, m: U64)
    requires AllIssued(c)
    ensures AllIssued(c.(malformed := m))
  {
    KeepAll(c, c.(malformed := m));
  }

  lemma StepKeepsIssued(c: Coll, d: Drained, prefixes: seq<string>)
    requires AllIssued(c)
    ensures AllIssued(CollStep(c, d, prefixes)) && Grows(c, CollStep(c, d, prefixes))
  {
    match d.record
    {
      case OpenRecord(_, _, _, _) => OpenKeepsIssued(c, d, prefixes);
      case CloseRecord(_, _, _) => CloseKeepsIssued(c, d);
      case MmapRecord(_, _, _, _, _) => MmapKeepsIssued(c, d);
      case RenameSource(_, _, _, _, _, _, _) => RenameSourceKeepsIssued(c, d);
      case RenameDestination(_, _, _, _, _, _, _) => RenameDestinationKeepsIssued(c, d, prefixes);
      case UnlinkRecord(_, _, _, _, _, _, _) => UnlinkKeepsIssued(c, d, prefixes);
      case ExecRecord(_) => ExecKeepsIssued(c, d);
      case ForkRecord(_, _) => ForkKeepsIssued(c, d);
      case ExitRecord(_, _) => ExitKeepsIssued(c, d);
      case Uninterpretable =>
    }
    var (c1, ok) := ProcessEvent(c, d, prefixes);
    MalformedKeepsIssued(c1, SaturatingAdd(c1.malformed, 1, U64_MAX));
  }

  lemma {:induction false} RunKeepsIssued(rootPid: U32, drained: seq<Drained>, prefixes: seq<string>, i: nat)
    requires i <= |drained|
    ensures AllIssued(Collect(New(rootPid), drained, prefixes))
    ensures Grows(Collect(New(rootPid), drained[..i], prefixes), Collect(New(rootPid), drained, prefixes))
  {
    if drained == [] {
      assert drained[..i] == drained;
    } else {
      var n := |drained| - 1;
      if i == |drained| {
        RunKeepsIssued(rootPid, drained[..n], prefixes, n);
        assert drained[..i] == drained;
      } else {
        RunKeepsIssued(rootPid, drained[..n], prefixes, i);
        assert drained[..n][..i] == drained[..i];
      }
      StepKeepsIssued(Collect(New(rootPid), drained[..n], prefixes), drained[n], prefixes);
    }
  }

  // ---------------------------------------------------------------------------------------------
  // Freshness.

  predicate Names(e: Event, l: Lifetime)
  {
    if e.Fork? then e.parent.lifetime == l || e.child.lifetime == l else e.process.lifetime == l
  }

  /** `l` occurs somewhere in the state: in the trace, in a table, or as a current process. */
  ghost predicate Occurs(c: Coll, l: Lifetime)
  {
    || (exists i :: 0 <= i < |c.events| && Names(c.events[i], l))
    || (exists slot :: slot in c.fds && slot.0 == l)
    || (exists key :: key in c.renames && c.renames[key].process.lifetime == l)
    || (exists pid :: pid in c.current && c.current[pid].lifetime == l)
  }

  lemma OccursMeansIssued(c: Coll, l: Lifetime)
    requires AllIssued(c) && Occurs(c, l)
    ensures Issued(c, l)
  {
    if i :| 0 <= i < |c.events| && Names(c.events[i], l) { assert EventIssued(c, c.events[i]); }
  }

  /**
   Below the bound of the generation counter, a started process gets a lifetime that occurs nowhere now and
   occurred nowhere at any earlier point of the run.
   */
  lemma StartedLifetimeIsFresh(rootPid: U32, drained: seq<Drained>, prefixes: seq<string>, i: nat, pid: U32)
    requires i <= |drained|
    requires NextGeneration(Collect(New(rootPid), drained, prefixes), pid) < U32_MAX
    ensures var l := StartProcess(Collect(New(rootPid), drained, prefixes), pid).1.lifetime;
            !Occurs(Collect(New(rootPid), drained[..i], prefixes), l)
  {
    var c, earlier := Collect(New(rootPid), drained, prefixes), Collect(New(rootPid), drained[..i], prefixes);
    var l := StartProcess(c, pid).1.lifetime;
    RunKeepsIssued(rootPid, drained, prefixes, i);
    RunKeepsIssued(rootPid, drained[..i], prefixes, i);
    if Occurs(earlier, l) {
      OccursMeansIssued(earlier, l);
      IssuedIsKept(earlier, c, l);
    }
  }

  /** At the bound the counter stops: two starts in a row get the same lifetime exactly when it is saturated. */
  lemma StartsCollideIff(c: Coll, pid: U32)
    ensures StartProcess(StartProcess(c, pid).0, pid).1 == StartProcess(c, pid).1 <==> NextGeneration(c, pid) == U32_MAX
  {
  }

  /** Descriptor `fd` of lifetime `l`, if open: path, flags and cached observation. */
  function FileAt(c: Coll, l: Lifetime, fd: int): Option<OpenFile>
  {
    if (l, fd) in c.fds then Some(c.fds[(l, fd)]) else None
  }

  lemma InheritedFile(fds: map<Slot, OpenFile>, pl: Lifetime, cl: Lifetime, l: Lifetime, fd: int)
    requires (cl, fd) !in fds
    ensures var after := Inherit(fds, pl, cl);
            && ((l, fd) in after <==> if l == cl then (pl, fd) in fds else (l, fd) in fds)
            && ((l, fd) in after ==> (after[(l, fd)] == if l == cl then fds[(pl, fd)] else fds[(l, fd)]))
  {
    assert (l, fd) in Inherit(fds, pl, cl) <==> (l, fd) in fds || Inherits(fds, pl, cl, (l, fd));
  }

  lemma FreshHasNoFiles(c: Coll, l: Lifetime, fd: int)
    requires AllIssued(c) && !Issued(c, l)
    ensures (l, fd) !in c.fds
  {
    assert (l, fd) in c.fds ==> Issued(c, (l, fd).0);
  }

  /**
   Immediately after a fork the child's descriptors are exactly the parent's, with nothing left over from an
   earlier use of the PID, and every other lifetime's descriptors are untouched.
   */
  lemma ForkCopiesDescriptors(rootPid: U32, drained: seq<Drained>, prefixes: seq<string>, parentPid: U32, childPid: U32,
                              l: Lifetime, fd: int)
    requires var c := Collect(New(rootPid), drained, prefixes);
             NextGeneration(CurrentProcess(c, parentPid).0, childPid) < U32_MAX
    ensures var c := Collect(New(rootPid), drained, prefixes);
            var (c', parent, child) := ForkProcess(c, parentPid, childPid);
            && parent.lifetime != child.lifetime && child.lifetime.pid == childPid
            && FileAt(c', child.lifetime, fd) == FileAt(c, parent.lifetime, fd)
            && (l != child.lifetime ==> FileAt(c', l, fd) == FileAt(c, l, fd))
  {
    var c := Collect(New(rootPid), drained, prefixes);
    RunKeepsIssued(rootPid, drained, prefixes, |drained|);
    ForkFromIssued(c, parentPid, childPid, l, fd);
  }

  lemma ForkFromIssued(c: Coll, parentPid: U32, childPid: U32, l: Lifetime, fd: int)
    requires AllIssued(c) && NextGeneration(CurrentProcess(c, parentPid).0, childPid) < U32_MAX
    ensures var (c', parent, child) := ForkProcess(c, parentPid, childPid);
            && parent.lifetime != child.lifetime && child.lifetime.pid == childPid
            && FileAt(c', child.lifetime, fd) == FileAt(c, parent.lifetime, fd)
            && (l != child.lifetime ==> FileAt(c', l, fd) == FileAt(c, l, fd))
  {
    CurrentKeepsIssued(c, parentPid);
    var (c1, parent) := CurrentProcess(c, parentPid);
    var child := StartProcess(c1, childPid).1;
    assert !Issued(c1, child.lifetime);
    FreshHasNoFiles(c1, child.lifetime, fd);
    InheritedFile(c.fds, parent.lifetime, child.lifetime, child.lifetime, fd);
    InheritedFile(c.fds, parent.lifetime, child.lifetime, l, fd);
  }

  // ---------------------------------------------------------------------------------------------
  // Exec instances.

  /** No counter of the state is saturated. */
  ghost predicate Unsaturated(c: Coll)
  {
    && (forall pid :: pid in c.nextGeneration ==> c.nextGeneration[pid] < U32_MAX)
    && (forall pid :: pid in c.current ==> c.current[pid].epoch < U32_MAX)
  }

  ghost predicate UnsaturatedRun(rootPid: U32, drained: seq<Drained>, prefixes: seq<string>)
  {
    forall i :: 0 <= i <= |drained| ==> Unsaturated(Collect(New(rootPid), drained[..i], prefixes))
  }

  /** The instance is the current one of its PID, or an older one. */
  predicate NotNewer(c: Coll, p: Instance)
  {
    && p.lifetime.pid in c.current
    && var q := c.current[p.lifetime.pid];
       p.lifetime.generation < q.lifetime.generation || (p.lifetime == q.lifetime && p.epoch <= q.epoch)
  }

  ghost predicate ExecsNotNewer(c: Coll)
  {
    forall i :: 0 <= i < |c.events| && c.events[i].Exec? ==>
      NotNewer(c, c.events[i].process) && c.events[i].process.epoch > 0
  }

  /** Within one lifetime the epochs of the exec events strictly increase. */
  ghost predicate EpochsIncrease(events: seq<Event>)
  {
    forall i, j :: 0 <= i < j < |events| && events[i].Exec? && events[j].Exec?
                   && events[i].process.lifetime == events[j].process.lifetime ==>
      events[i].process.epoch < events[j].process.epoch
  }

  ghost predicate CurrentBelow(c: Coll)
  {
    forall pid :: pid in c.current ==>
      (c.current[pid].lifetime.pid == pid && c.current[pid].lifetime.generation < NextGeneration(c, pid))
  }

  ghost predicate ExecInv(c: Coll)
  {
    CurrentBelow(c) && ExecsNotNewer(c) && EpochsIncrease(c.events)
  }

  lemma StartKeepsExecInv(c: Coll, pid: U32)
    requires ExecInv(c) && NextGeneration(c, pid) < U32_MAX
    ensures ExecInv(StartProcess(c, pid).0)
  {
    var c' := StartProcess(c, pid).0;
    forall i | 0 <= i < |c.events| && c.events[i].Exec? ensures NotNewer(c', c.events[i].process) {
      assert NotNewer(c, c.events[i].process);
    }
  }

  lemma CurrentKeepsExecInv(c: Coll, pid: U32)
    requires ExecInv(c) && NextGeneration(c, pid) < U32_MAX
    ensures ExecInv(CurrentProcess(c, pid).0)
  {
    if pid !in c.current { StartKeepsExecInv(c, pid); }
  }

  /** A step that leaves the processes alone and emits no exec event. */
  ghost predicate AddsNoExec(c: Coll, c': Coll)
  {
    && c'.root == c.root && c'.current == c.current && c'.nextGeneration == c.nextGeneration
    && c.events <= c'.events
    && forall k :: |c.events| <= k < |c'.events| ==> !c'.events[k].Exec?
  }

  lemma OtherStepKeepsExecInv(c: Coll, c': Coll)
    requires ExecInv(c) && AddsNoExec(c, c')
    ensures ExecInv(c')
  {
    forall i | 0 <= i < |c'.events| && c'.events[i].Exec?
      ensures NotNewer(c', c'.events[i].process) && c'.events[i].process.epoch > 0
    {
      assert i < |c.events| && c'.events[i] == c.events[i];
      assert NotNewer(c, c.events[i].process);
    }
    forall i, j | 0 <= i < j < |c'.events| && c'.events[i].Exec? && c'.events[j].Exec?
                  && c'.events[i].process.lifetime == c'.events[j].process.lifetime
      ensures c'.events[i].process.epoch < c'.events[j].process.epoch
    {
      assert j < |c.events| && c'.events[i] == c.events[i] && c'.events[j] == c.events[j];
    }
  }

  lemma ExecKeepsExecInv(c: Coll, pid: U32, o: Observation)
    requires ExecInv(c) && pid in c.current && c.current[pid].epoch < U32_MAX
    ensures var p := c.current[pid].(epoch := c.current[pid].epoch + 1);
            ExecInv(c.(current := c.current[pid := p], events := c.events + [Exec(p, o)]))
  {
    var p := c.current[pid].(epoch := c.current[pid].epoch + 1);
    var c' := c.(current := c.current[pid := p], events := c.events + [Exec(p, o)]);
    forall i | 0 <= i < |c'.events| && c'.events[i].Exec?
      ensures NotNewer(c', c'.events[i].process) && c'.events[i].process.epoch > 0
    {
      if i < |c.events| { assert NotNewer(c, c.events[i].process); }
    }
    forall i, j | 0 <= i < j < |c'.events| && c'.events[i].Exec? && c'.events[j].Exec?
                  && c'.events[i].process.lifetime == c'.events[j].process.lifetime
      ensures c'.events[i].process.epoch < c'.events[j].process.epoch
    {
      if j == |c.events| { assert NotNewer(c, c.events[i].process); }
    }
  }

  lemma FirstExecIsSwallowed(c: Coll)
    requires ExecInv(c)
    ensures ExecInv(c.(rootExecPending := false))
  {
    OtherStepKeepsExecInv(c, c.(rootExecPending := false));
  }

  /** The state after the acting process of a record was looked up, or started. */
  function ActorState(c: Coll, d: Drained): Coll
  {
    match d.record
    case OpenRecord(tgid, _, _, _) => CurrentProcess(c, tgid).0
    case CloseRecord(tgid, _, _) => CurrentProcess(c, tgid).0
    case MmapRecord(tgid, _, _, _, _) => CurrentProcess(c, tgid).0
    case RenameSource(_, tgid, _, _, _, _, _) => CurrentProcess(c, tgid).0
    case UnlinkRecord(_, tgid, _, _, _, _, _) => CurrentProcess(c, tgid).0
    case ExitRecord(tgid, _) => CurrentProcess(c, tgid).0
    case ForkRecord(parent, child) => StartProcess(CurrentProcess(c, parent).0, child).0
    case _ => c
  }

  lemma OpenAddsNoExec(c: Coll, d: Drained, prefixes: seq<string>)
    requires d.record.OpenRecord?
    ensures AddsNoExec(CurrentProcess(c, d.record.tgid).0, OnOpen(c, d, prefixes))
  {
  }

  lemma CloseAddsNoExec(c: Coll, d: Drained)
    requires d.record.CloseRecord?
    ensures AddsNoExec(CurrentProcess(c, d.record.tgid).0, OnClose(c, d))
  {
  }

  lemma MmapAddsNoExec(c: Coll, d: Drained)
    requires d.record.MmapRecord?
    ensures AddsNoExec(CurrentProcess(c, d.record.tgid).0, OnMmap(c, d))
  {
  }

  lemma SourceAddsNoExec(c: Coll, d: Drained)
    requires d.record.RenameSource?
    ensures AddsNoExec(CurrentProcess(c, d.record.tgid).0, OnRenameSource(c, d).0)
  {
  }

  lemma DestinationAddsNoExec(c: Coll, d: Drained, prefixes: seq<string>)
    requires d.record.RenameDestination?
    ensures AddsNoExec(c, OnRenameDestination(c, d, prefixes).0)
  {
  }

  lemma UnlinkAddsNoExec(c: Coll, d: Drained, prefixes: seq<string>)
    requires d.record.UnlinkRecord?
    ensures AddsNoExec(CurrentProcess(c, d.record.tgid).0, OnUnlink(c, d, prefixes).0)
  {
  }

  lemma MalformedAddsNoExec(c: Coll, c1: Coll, m: U64)
    requires AddsNoExec(c, c1)
    ensures AddsNoExec(c, c1.(malformed := m))
  {
  }

  /** Tables, counters of malformed records and non-exec events are all that these steps change. */
  lemma NonExecEventShape(c: Coll, d: Drained, prefixes: seq<string>)
    requires !d.record.ExecRecord?
    ensures AddsNoExec(ActorState(c, d), ProcessEvent(c, d, prefixes).0)
  {
    match d.record
    case OpenRecord(_, _, _, _) => OpenAddsNoExec(c, d, prefixes);
    case CloseRecord(_, _, _) => CloseAddsNoExec(c, d);
    case MmapRecord(_, _, _, _, _) => MmapAddsNoExec(c, d);
    case RenameSource(_, _, _, _, _, _, _) => SourceAddsNoExec(c, d);
    case RenameDestination(_, _, _, _, _, _, _) => DestinationAddsNoExec(c, d, prefixes);
    case UnlinkRecord(_, _, _, _, _, _, _) => UnlinkAddsNoExec(c, d, prefixes);
    case ForkRecord(_, _) => assert AddsNoExec(ActorState(c, d), OnFork(c, d));
    case ExitRecord(_, _) => assert AddsNoExec(ActorState(c, d), OnExit(c, d));
    case Uninterpretable =>
  }

  lemma NonExecStepShape(c: Coll, d: Drained, prefixes: seq<string>)
    requires !d.record.ExecRecord?
    ensures AddsNoExec(ActorState(c, d), CollStep(c, d, prefixes))
  {
    NonExecEventShape(c, d, prefixes);
    var (c1, ok) := ProcessEvent(c, d, prefixes);
    MalformedAddsNoExec(ActorState(c, d), c1, SaturatingAdd(c1.malformed, 1, U64_MAX));
  }

  lemma StepKeepsExecInv(c: Coll, d: Drained, prefixes: seq<string>)
    requires ExecInv(c) && Unsaturated(c) && Unsaturated(CollStep(c, d, prefixes))
    ensures ExecInv(CollStep(c, d, prefixes))
  {
    if d.record.ExecRecord? {
      ExecStepKeepsExecInv(c, d);
    } else {
      NonExecStepShape(c, d, prefixes);
      ActorKeepsExecInv(c, d, prefixes);
      OtherStepKeepsExecInv(ActorState(c, d), CollStep(c, d, prefixes));
    }
  }

  lemma NextIsUnsaturated(c: Coll, pid: U32)
    requires Unsaturated(c)
    ensures NextGeneration(c, pid) < U32_MAX
  {
  }

  /** An exec that is not swallowed replaces the current instance by its successor, and reports it. */
  lemma ExecShape(c: Coll, d: Drained)
    requires d.record.ExecRecord? && !(d.record.tgid == c.root.lifetime.pid && c.rootExecPending)
    requires CurrentProcess(c, d.record.tgid).1.epoch < U32_MAX
    ensures var pid := d.record.tgid;
            var (c1, q) := CurrentProcess(c, pid);
            var p := q.(epoch := q.epoch + 1);
            pid in c1.current && c1.current[pid] == q
            && OnExec(c, d) == c1.(current := c1.current[pid := p], events := c1.events + [Exec(p, d.now)])
  {
  }

  lemma ExecStepKeepsExecInv(c: Coll, d: Drained)
    requires ExecInv(c) && Unsaturated(c) && d.record.ExecRecord?
    ensures ExecInv(OnExec(c, d))
  {
    var pid := d.record.tgid;
    if pid == c.root.lifetime.pid && c.rootExecPending {
      FirstExecIsSwallowed(c);
    } else {
      NextIsUnsaturated(c, pid);
      CurrentKeepsExecInv(c, pid);
      ExecShape(c, d);
      ExecKeepsExecInv(CurrentProcess(c, pid).0, pid, d.now);
    }
  }

  /** Starting a process can saturate the counter only if the state after the step shows it. */
  lemma ActorKeepsExecInv(c: Coll, d: Drained, prefixes: seq<string>)
    requires ExecInv(c) && Unsaturated(c) && Unsaturated(CollStep(c, d, prefixes)) && !d.record.ExecRecord?
    ensures ExecInv(ActorState(c, d))
  {
    match d.record
    case OpenRecord(tgid, _, _, _) => NextIsUnsaturated(c, tgid); CurrentKeepsExecInv(c, tgid);
    case CloseRecord(tgid, _, _) => NextIsUnsaturated(c, tgid); CurrentKeepsExecInv(c, tgid);
    case MmapRecord(tgid, _, _, _, _) => NextIsUnsaturated(c, tgid); CurrentKeepsExecInv(c, tgid);
    case RenameSource(_, tgid, _, _, _, _, _) => NextIsUnsaturated(c, tgid); CurrentKeepsExecInv(c, tgid);
    case UnlinkRecord(_, tgid, _, _, _, _, _) => NextIsUnsaturated(c, tgid); CurrentKeepsExecInv(c, tgid);
    case ExitRecord(tgid, _) => NextIsUnsaturated(c, tgid); CurrentKeepsExecInv(c, tgid);
    case ForkRecord(parent, child) =>
      NextIsUnsaturated(c, parent);
      CurrentKeepsExecInv(c, parent);
      NonExecStepShape(c, d, prefixes);
      ForkLeavesRoom(c, parent, child);
      StartKeepsExecInv(CurrentProcess(c, parent).0, child);
    case _ =>
  }

  lemma ForkLeavesRoom(c: Coll, parent: U32, child: U32)
    requires var t := StartProcess(CurrentProcess(c, parent).0, child).0;
             child in t.nextGeneration && t.nextGeneration[child] < U32_MAX
    ensures NextGeneration(CurrentProcess(c, parent).0, child) < U32_MAX
  {
  }

  lemma {:induction false} RunKeepsExecInv(rootPid: U32, drained: seq<Drained>, prefixes: seq<string>)
    requires UnsaturatedRun(rootPid, drained, prefixes)
    ensures ExecInv(Collect(New(rootPid), drained, prefixes))
  {
    if drained != [] {
      var n := |drained| - 1;
      assert UnsaturatedRun(rootPid, drained[..n], prefixes) by {
        forall i | 0 <= i <= n ensures Unsaturated(Collect(New(rootPid), drained[..n][..i], prefixes)) {
          NestedPrefix(drained, n, i);
        }
      }
      RunKeepsExecInv(rootPid, drained[..n], prefixes);
      WholePrefix(drained);
      assert Unsaturated(Collect(New(rootPid), drained[..n], prefixes));
      assert Unsaturated(Collect(New(rootPid), drained[..n + 1], prefixes));
      StepKeepsExecInv(Collect(New(rootPid), drained[..n], prefixes), drained[n], prefixes);
    }
  }

  /** The trace handed to the canonicalizers: the synthetic exec of the root comes first. */
  function WithRootExec(c: Coll, o: Observation): seq<Event>
  {
    [Exec(c.root, o)] + c.events
  }

  lemma {:induction false} RootIsKept(rootPid: U32, drained: seq<Drained>, prefixes: seq<string>)
    ensures Collect(New(rootPid), drained, prefixes).root == New(rootPid).root
  {
    if drained != [] {
      RootIsKept(rootPid, drained[..|drained| - 1], prefixes);
      StepKeepsRoot(Collect(New(rootPid), drained[..|drained| - 1], prefixes), drained[|drained| - 1], prefixes);
    }
  }

  lemma StepKeepsRoot(c: Coll, d: Drained, prefixes: seq<string>)
    ensures CollStep(c, d, prefixes).root == c.root
  {
    if !d.record.ExecRecord? {
      NonExecStepShape(c, d, prefixes);
      assert ActorState(c, d).root == c.root;
    } else {
      assert OnExec(c, d).root == c.root;
    }
  }

  /** Epochs increase within a lifetime, and none of them is that of a fresh process. */
  ghost predicate EpochsCount(events: seq<Event>)
  {
    EpochsIncrease(events) && forall i :: 0 <= i < |events| && events[i].Exec? ==> events[i].process.epoch > 0
  }

  lemma SameExecsCount(events: seq<Event>, after: seq<Event>)
    requires EpochsCount(events)
    requires forall k :: 0 <= k < |after| && after[k].Exec? ==> k < |events| && after[k] == events[k]
    ensures EpochsCount(after)
  {
  }

  /** Correcting or adding the root's exit adds and removes no exec. */
  lemma FinishKeepsEpochs(c: Coll, rootPid: U32, exitCode: int)
    requires EpochsCount(c.events)
    ensures EpochsCount(Finish(c, rootPid, exitCode).events) && Finish(c, rootPid, exitCode).root == c.root
  {
    FinishKeepsEvents(c, rootPid, exitCode);
    SameExecsCount(c.events, Finish(c, rootPid, exitCode).events);
  }

  /** The finished trace as it is handed to the canonicalizers. */
  function HandedOn(rootPid: U32, drained: seq<Drained>, prefixes: seq<string>, exitCode: int,
        o: Observation): seq<Event>
  {
    WithRootExec(Finish(Collect(New(rootPid), drained, prefixes), rootPid, exitCode), o)
  }

  /** The two exec events carry different instances, of one lifetime only with increasing epochs. */
  predicate Succeeds(e: Event, e': Event)
    requires e.Exec? && e'.Exec?
  {
    e.process != e'.process && (e.process.lifetime == e'.process.lifetime ==> e.process.epoch < e'.process.epoch)
  }

  lemma UniqueAfterRoot(c: Coll, o: Observation, i: nat, j: nat)
    requires EpochsCount(c.events) && c.root.epoch == 0
    requires i < j < |WithRootExec(c, o)| && WithRootExec(c, o)[i].Exec? && WithRootExec(c, o)[j].Exec?
    ensures Succeeds(WithRootExec(c, o)[i], WithRootExec(c, o)[j])
  {
    var t := WithRootExec(c, o);
    assert t[j] == c.events[j - 1];
    if i > 0 { assert t[i] == c.events[i - 1]; }
  }

  /**
   No two exec events of a finished trace carry the same process instance, the synthetic root exec included, and
   epochs strictly increase within every lifetime, as long as no counter saturates.
   */
  lemma ExecInstancesAreUnique(rootPid: U32, drained: seq<Drained>, prefixes: seq<string>, exitCode: int,
        o: Observation, i: nat, j: nat)
    requires UnsaturatedRun(rootPid, drained, prefixes)
    requires var t := HandedOn(rootPid, drained, prefixes, exitCode, o);
             i < j < |t| && t[i].Exec? && t[j].Exec?
    ensures var t := HandedOn(rootPid, drained, prefixes, exitCode, o); Succeeds(t[i], t[j])
  {
    var c := Collect(New(rootPid), drained, prefixes);
    RunKeepsExecInv(rootPid, drained, prefixes);
    RootIsKept(rootPid, drained, prefixes);
    FinishKeepsEpochs(c, rootPid, exitCode);
    UniqueAfterRoot(Finish(c, rootPid, exitCode), o, i, j);
  }

  /** At the bound the epoch stops: two execs in a row get the same instance exactly when the second cannot count on. */
  lemma ExecsCollideIff(c: Coll, pid: U32)
    requires !(pid == c.root.lifetime.pid && c.rootExecPending)
    ensures ExecProcess(ExecProcess(c, pid).0, pid).1 == ExecProcess(c, pid).1 <==>
      CurrentProcess(c, pid).1.epoch >= U32_MAX - 1
  {
    var (c1, p) := ExecProcess(c, pid);
    assert CurrentProcess(c1, pid).1 == p.value;
  }

  // ---------------------------------------------------------------------------------------------
  // How long a run may be before a counter can saturate.

  ghost predicate Bounded(c: Coll, g: int, e: int)
  {
    && (forall pid :: pid in c.nextGeneration ==> c.nextGeneration[pid] <= g)
    && (forall pid :: pid in c.current ==> c.current[pid].epoch <= e)
  }

  lemma StartIsBounded(c: Coll, pid: U32, g: int, e: int)
    requires Bounded(c, g, e) && g >= 0 && e >= 0
    ensures Bounded(StartProcess(c, pid).0, g + 1, e)
  {
  }

  lemma CurrentIsBounded(c: Coll, pid: U32, g: int, e: int)
    requires Bounded(c, g, e) && g >= 0 && e >= 0
    ensures Bounded(CurrentProcess(c, pid).0, g + 1, e)
  {
    if pid !in c.current { StartIsBounded(c, pid, g, e); }
  }

  lemma StepIsBounded(c: Coll, d: Drained, prefixes: seq<string>, g: int, e: int)
    requires Bounded(c, g, e) && g >= 0 && e >= 0
    ensures Bounded(CollStep(c, d, prefixes), g + 2, e + 1)
  {
    if d.record.ExecRecord? {
      CurrentIsBounded(c, d.record.tgid, g, e);
    } else {
      NonExecStepShape(c, d, prefixes);
      ActorIsBounded(c, d, g, e);
    }
  }

  lemma ActorIsBounded(c: Coll, d: Drained, g: int, e: int)
    requires Bounded(c, g, e) && g >= 0 && e >= 0 && !d.record.ExecRecord?
    ensures Bounded(ActorState(c, d), g + 2, e)
  {
    match d.record
    case OpenRecord(tgid, _, _, _) => CurrentIsBounded(c, tgid, g, e);
    case CloseRecord(tgid, _, _) => CurrentIsBounded(c, tgid, g, e);
    case MmapRecord(tgid, _, _, _, _) => CurrentIsBounded(c, tgid, g, e);
    case RenameSource(_, tgid, _, _, _, _, _) => CurrentIsBounded(c, tgid, g, e);
    case UnlinkRecord(_, tgid, _, _, _, _, _) => CurrentIsBounded(c, tgid, g, e);
    case ExitRecord(tgid, _) => CurrentIsBounded(c, tgid, g, e);
    case ForkRecord(parent, child) =>
      CurrentIsBounded(c, parent, g, e);
      StartIsBounded(CurrentProcess(c, parent).0, child, g + 1, e);
    case _ =>
  }

  lemma {:induction false} RunIsBounded(rootPid: U32, drained: seq<Drained>, prefixes: seq<string>)
    ensures Bounded(Collect(New(rootPid), drained, prefixes), 2 * |drained| + 1, |drained|)
  {
    if drained != [] {
      var n := |drained| - 1;
      RunIsBounded(rootPid, drained[..n], prefixes);
      StepIsBounded(Collect(New(rootPid), drained[..n], prefixes), drained[n], prefixes, 2 * n + 1, n);
    }
  }

  /** Up to two thousand million records no counter can saturate. */
  lemma ShortRunsAreUnsaturated(rootPid: U32, drained: seq<Drained>, prefixes: seq<string>)
    requires |drained| < 0x7FFF_FFFF
    ensures UnsaturatedRun(rootPid, drained, prefixes)
  {
    forall i | 0 <= i <= |drained| ensures Unsaturated(Collect(New(rootPid), drained[..i], prefixes)) {
      RunIsBounded(rootPid, drained[..i], prefixes);
    }
  }
}
