/** Which process instance a PID stands for at a record, told by the records before it alone. */
module CollectorProcesses {
  import opened Trace
  import opened Records
  import opened Collector

  /** The record makes the collector look up the process of this PID. */
  predicate ActsFor(r: Record, pid: U32)
  {
    match r
    case OpenRecord(tgid, _, _, _) => tgid == pid
    case CloseRecord(tgid, _, _) => tgid == pid
    case MmapRecord(tgid, _, _, _, _) => tgid == pid
    case RenameSource(_, tgid, _, _, _, _, _) => tgid == pid
    case UnlinkRecord(_, tgid, _, _, _, _, _) => tgid == pid
    case ExecRecord(tgid) => tgid == pid
    case ForkRecord(parent, _) => parent == pid
    case ExitRecord(tgid, _) => tgid == pid
    case _ => false
  }

  predicate Forks(r: Record, pid: U32)
  {
    r.ForkRecord? && r.child == pid
  }

  /** How many processes had this PID: one that is there from the start or acts without a fork, one for each fork. */
  function Lives(rootPid: U32, drained: seq<Drained>, pid: U32): nat
  {
    if drained == [] then if pid == rootPid then 1 else 0
    else
      var n, r := Lives(rootPid, drained[..|drained| - 1], pid), drained[|drained| - 1].record;
      (if n == 0 && ActsFor(r, pid) then 1 else n) + if Forks(r, pid) then 1 else 0
  }

  /** The tracer's own exec of the build command comes first and is not counted. */
  predicate RootExecuted(rootPid: U32, drained: seq<Drained>)
  {
    exists i :: 0 <= i < |drained| && drained[i].record == ExecRecord(rootPid)
  }

  /** How many images the present process of this PID has executed. */
  function Images(rootPid: U32, drained: seq<Drained>, pid: U32): nat
  {
    if drained == [] then 0
    else
      var before, r := drained[..|drained| - 1], drained[|drained| - 1].record;
      var n := Images(rootPid, before, pid);
      if Forks(r, pid) then 0
      else if r == ExecRecord(pid) && (pid == rootPid ==> RootExecuted(rootPid, before)) then n + 1
      else n
  }

  function AtMost(n: nat, max: nat): nat
  {
    if n <= max then n else max
  }

  /** The process that a record after these finds under the PID; both counters stop at the 32-bit bound. */
  function ProcessOf(rootPid: U32, drained: seq<Drained>, pid: U32): Instance
  {
    var n := Lives(rootPid, drained, pid);
    Instance(Lifetime(pid, AtMost(if n == 0 then 0 else n - 1, U32_MAX)),
             AtMost(Images(rootPid, drained, pid), U32_MAX))
  }

  /** The state knows the PID as the records tell. */
  predicate Knows(c: Coll, rootPid: U32, drained: seq<Drained>, pid: U32)
  {
    && NextGeneration(c, pid) == AtMost(Lives(rootPid, drained, pid), U32_MAX)
    && (pid in c.current <==> Lives(rootPid, drained, pid) > 0)
    && (pid in c.current ==> c.current[pid] == ProcessOf(rootPid, drained, pid))
    && (pid !in c.current ==> Images(rootPid, drained, pid) == 0)
  }

  ghost predicate KnowsAll(c: Coll, rootPid: U32, drained: seq<Drained>)
  {
    && c.root.lifetime.pid == rootPid && (c.rootExecPending <==> !RootExecuted(rootPid, drained))
    && forall pid :: Knows(c, rootPid, drained, pid)
  }

  lemma KnownIsCurrent(c: Coll, rootPid: U32, drained: seq<Drained>, pid: U32)
    requires Knows(c, rootPid, drained, pid)
    ensures CurrentProcess(c, pid).1 == ProcessOf(rootPid, drained, pid)
  {
  }

  lemma RootExecutedOneMore(rootPid: U32, drained: seq<Drained>, n: nat)
    requires |drained| == n + 1
    ensures RootExecuted(rootPid, drained) <==>
      RootExecuted(rootPid, drained[..n]) || drained[n].record == ExecRecord(rootPid)
  {
    if RootExecuted(rootPid, drained[..n]) {
      var i :| 0 <= i < n && drained[..n][i].record == ExecRecord(rootPid);
      assert drained[i].record == ExecRecord(rootPid);
    }
    if i :| 0 <= i < |drained| && drained[i].record == ExecRecord(rootPid) {
      if i < n { assert drained[..n][i].record == ExecRecord(rootPid); }
    }
  }

  /** The record concerns the process of its `tgid` and no other. */
  predicate IsOwnRecord(r: Record)
  {
    r.OpenRecord? || r.CloseRecord? || r.MmapRecord? || r.RenameSource? || r.UnlinkRecord? || r.ExitRecord?
  }

  predicate SameProcesses(c: Coll, c1: Coll)
  {
    && c1.current == c.current && c1.nextGeneration == c.nextGeneration && c1.root == c.root
    && c1.rootExecPending == c.rootExecPending
  }

  lemma OpenLooksUp(c: Coll, d: Drained, prefixes: seq<string>)
    requires d.record.OpenRecord?
    ensures SameProcesses(CurrentProcess(c, d.record.tgid).0, OnOpen(c, d, prefixes))
  {
  }

  lemma CloseLooksUp(c: Coll, d: Drained)
    requires d.record.CloseRecord?
    ensures SameProcesses(CurrentProcess(c, d.record.tgid).0, OnClose(c, d))
  {
  }

  lemma MmapLooksUp(c: Coll, d: Drained)
    requires d.record.MmapRecord?
    ensures SameProcesses(CurrentProcess(c, d.record.tgid).0, OnMmap(c, d))
  {
  }

  lemma SourceLooksUp(c: Coll, d: Drained)
    requires d.record.RenameSource?
    ensures SameProcesses(CurrentProcess(c, d.record.tgid).0, OnRenameSource(c, d).0)
  {
  }

  lemma UnlinkLooksUp(c: Coll, d: Drained, prefixes: seq<string>)
    requires d.record.UnlinkRecord?
    ensures SameProcesses(CurrentProcess(c, d.record.tgid).0, OnUnlink(c, d, prefixes).0)
  {
  }

  lemma OwnRecordLooksUp(c: Coll, d: Drained, prefixes: seq<string>)
    requires IsOwnRecord(d.record)
    ensures SameProcesses(CurrentProcess(c, d.record.tgid).0, CollStep(c, d, prefixes))
  {
    match d.record
    case OpenRecord(_, _, _, _) => OpenLooksUp(c, d, prefixes);
    case CloseRecord(_, _, _) => CloseLooksUp(c, d);
    case MmapRecord(_, _, _, _, _) => MmapLooksUp(c, d);
    case RenameSource(_, _, _, _, _, _, _) => SourceLooksUp(c, d);
    case UnlinkRecord(_, _, _, _, _, _, _) => UnlinkLooksUp(c, d, prefixes);
    case ExitRecord(_, _) =>
  }

  lemma QuietRecordActs(c: Coll, d: Drained, prefixes: seq<string>)
    requires d.record.RenameDestination? || d.record.Uninterpretable?
    ensures SameProcesses(c, CollStep(c, d, prefixes))
  {
  }

  lemma ForkStarts(c: Coll, d: Drained, prefixes: seq<string>)
    requires d.record.ForkRecord?
    ensures SameProcesses(StartProcess(CurrentProcess(c, d.record.parent).0, d.record.child).0,
                          CollStep(c, d, prefixes))
  {
  }

  /** What is known of a PID depends on these fields alone. */
  lemma SameIsKnown(c: Coll, c1: Coll, rootPid: U32, drained: seq<Drained>, pid: U32)
    requires SameProcesses(c, c1) && Knows(c, rootPid, drained, pid)
    ensures Knows(c1, rootPid, drained, pid)
  {
  }

  lemma LookedUpIsKnown(c: Coll, rootPid: U32, drained: seq<Drained>, n: nat, pid: U32)
    requires |drained| == n + 1 && Knows(c, rootPid, drained[..n], pid) && IsOwnRecord(drained[n].record)
    ensures Knows(CurrentProcess(c, drained[n].record.tgid).0, rootPid, drained, pid)
  {
  }

  lemma KnowsAfterOwn(c: Coll, rootPid: U32, drained: seq<Drained>, n: nat, prefixes: seq<string>, pid: U32)
    requires |drained| == n + 1 && Knows(c, rootPid, drained[..n], pid) && IsOwnRecord(drained[n].record)
    ensures Knows(CollStep(c, drained[n], prefixes), rootPid, drained, pid)
  {
    var c1 := CurrentProcess(c, drained[n].record.tgid).0;
    OwnRecordLooksUp(c, drained[n], prefixes);
    LookedUpIsKnown(c, rootPid, drained, n, pid);
    SameIsKnown(c1, CollStep(c, drained[n], prefixes), rootPid, drained, pid);
  }

  lemma KnowsAfterQuiet(c: Coll, rootPid: U32, drained: seq<Drained>, n: nat, prefixes: seq<string>, pid: U32)
    requires |drained| == n + 1 && Knows(c, rootPid, drained[..n], pid)
    requires drained[n].record.RenameDestination? || drained[n].record.Uninterpretable?
    ensures Knows(CollStep(c, drained[n], prefixes), rootPid, drained, pid)
  {
    QuietRecordActs(c, drained[n], prefixes);
  }

  lemma KnowsAfterFork(c: Coll, rootPid: U32, drained: seq<Drained>, n: nat, prefixes: seq<string>, pid: U32)
    requires |drained| == n + 1 && Knows(c, rootPid, drained[..n], pid) && drained[n].record.ForkRecord?
    ensures Knows(CollStep(c, drained[n], prefixes), rootPid, drained, pid)
  {
    ForkStarts(c, drained[n], prefixes);
  }

  lemma KnowsAfterExec(c: Coll, rootPid: U32, drained: seq<Drained>, n: nat, prefixes: seq<string>, pid: U32)
    requires |drained| == n + 1 && Knows(c, rootPid, drained[..n], pid) && drained[n].record.ExecRecord?
    requires c.root.lifetime.pid == rootPid && (c.rootExecPending <==> !RootExecuted(rootPid, drained[..n]))
    requires rootPid in c.current
    ensures Knows(CollStep(c, drained[n], prefixes), rootPid, drained, pid)
  {
  }

  lemma StepKnows(c: Coll, rootPid: U32, drained: seq<Drained>, n: nat, prefixes: seq<string>)
    requires |drained| == n + 1 && KnowsAll(c, rootPid, drained[..n]) && Lives(rootPid, drained[..n], rootPid) > 0
    ensures KnowsAll(CollStep(c, drained[n], prefixes), rootPid, drained)
  {
    var d := drained[n];
    RootExecutedOneMore(rootPid, drained, n);
    assert Knows(c, rootPid, drained[..n], rootPid);
    forall pid ensures Knows(CollStep(c, d, prefixes), rootPid, drained, pid) {
      assert Knows(c, rootPid, drained[..n], pid);
      match d.record
      case RenameDestination(_, _, _, _, _, _, _) => KnowsAfterQuiet(c, rootPid, drained, n, prefixes, pid);
      case Uninterpretable => KnowsAfterQuiet(c, rootPid, drained, n, prefixes, pid);
      case ForkRecord(_, _) => KnowsAfterFork(c, rootPid, drained, n, prefixes, pid);
      case ExecRecord(_) => KnowsAfterExec(c, rootPid, drained, n, prefixes, pid);
      case _ => KnowsAfterOwn(c, rootPid, drained, n, prefixes, pid);
    }
    RootFlagFollows(c, rootPid, drained, n, prefixes);
  }

  lemma RootFlagFollows(c: Coll, rootPid: U32, drained: seq<Drained>, n: nat, prefixes: seq<string>)
    requires |drained| == n + 1 && c.root.lifetime.pid == rootPid
    requires c.rootExecPending <==> !RootExecuted(rootPid, drained[..n])
    ensures var c1 := CollStep(c, drained[n], prefixes);
            c1.root == c.root && (c1.rootExecPending <==> !RootExecuted(rootPid, drained))
  {
    RootExecutedOneMore(rootPid, drained, n);
    match drained[n].record
    case RenameDestination(_, _, _, _, _, _, _) => QuietRecordActs(c, drained[n], prefixes);
    case Uninterpretable => QuietRecordActs(c, drained[n], prefixes);
    case ForkRecord(_, _) => ForkStarts(c, drained[n], prefixes);
    case ExecRecord(_) =>
    case _ => OwnRecordLooksUp(c, drained[n], prefixes);
  }

  lemma {:induction false} RootLives(rootPid: U32, drained: seq<Drained>)
    ensures Lives(rootPid, drained, rootPid) > 0
  {
    if drained != [] { RootLives(rootPid, drained[..|drained| - 1]); }
  }

  lemma {:induction false} RunKnows(rootPid: U32, drained: seq<Drained>, prefixes: seq<string>)
    ensures KnowsAll(Collect(New(rootPid), drained, prefixes), rootPid, drained)
  {
    if drained != [] {
      var n := |drained| - 1;
      RunKnows(rootPid, drained[..n], prefixes);
      RootLives(rootPid, drained[..n]);
      StepKnows(Collect(New(rootPid), drained[..n], prefixes), rootPid, drained, n, prefixes);
    }
  }

  /**
   The instance that a PID stands for: its generation counts the earlier processes of the PID, its epoch the images
   executed since the last fork, without the first one of the root, both up to the 32-bit bound.
   */
  lemma ProcessesAreCounted(rootPid: U32, drained: seq<Drained>, prefixes: seq<string>, pid: U32)
    ensures CurrentProcess(Collect(New(rootPid), drained, prefixes), pid).1 == ProcessOf(rootPid, drained, pid)
  {
    RunKnows(rootPid, drained, prefixes);
    KnownIsCurrent(Collect(New(rootPid), drained, prefixes), rootPid, drained, pid);
  }
}
