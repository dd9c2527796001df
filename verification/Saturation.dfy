/** The counters of the collector do run out: traces in which two processes, or two images, get one identity. */
module Saturation {
  import opened Trace
  import opened Records
  import opened Collector

  function AtMost(n: nat, max: nat): nat
  {
    if n <= max then n else max
  }

  /** One process forks a child of one PID again and again; what else the records carry is of no concern. */
  predicate Forks(drained: seq<Drained>, parent: U32, child: U32)
  {
    forall i :: 0 <= i < |drained| ==> drained[i].record == ForkRecord(parent, child)
  }

  predicate IsForkOf(e: Event, child: U32, i: nat)
  {
    e.Fork? && e.child == Instance(Lifetime(child, AtMost(i, U32_MAX)), 0)
  }

  lemma ForkCounts(c: Coll, d: Drained, prefixes: seq<string>, parent: U32, child: U32, n: nat)
    requires d.record == ForkRecord(parent, child) && parent != child && NextGeneration(c, child) == AtMost(n, U32_MAX)
    ensures var c1 := CollStep(c, d, prefixes);
            && NextGeneration(c1, child) == AtMost(n + 1, U32_MAX)
            && |c1.events| == |c.events| + 1 && c.events <= c1.events && IsForkOf(c1.events[|c.events|], child, n)
  {
  }

  lemma {:induction false} ForksCount(rootPid: U32, drained: seq<Drained>, prefixes: seq<string>, parent: U32,
      child: U32)
    requires Forks(drained, parent, child) && parent != child && child != rootPid
    ensures var c := Collect(New(rootPid), drained, prefixes);
            && NextGeneration(c, child) == AtMost(|drained|, U32_MAX)
            && |c.events| == |drained| && forall i :: 0 <= i < |drained| ==> IsForkOf(c.events[i], child, i)
  {
    if drained != [] {
      var n := |drained| - 1;
      ForksCount(rootPid, drained[..n], prefixes, parent, child);
      ForkCounts(Collect(New(rootPid), drained[..n], prefixes), drained[n], prefixes, parent, child, n);
    }
  }

  /** In such a trace two children are one process exactly if the first is not among the first 2^32 - 1. */
  lemma ChildrenCollideIff(rootPid: U32, drained: seq<Drained>, prefixes: seq<string>, parent: U32, child: U32,
      i: nat, j: nat)
    requires Forks(drained, parent, child) && parent != child && child != rootPid && i < j < |drained|
    ensures var t := Collect(New(rootPid), drained, prefixes).events;
            |t| == |drained| && t[i].Fork? && t[j].Fork? && (t[i].child == t[j].child <==> i >= U32_MAX)
  {
    ForksCount(rootPid, drained, prefixes, parent, child);
    var t := Collect(New(rootPid), drained, prefixes).events;
    assert IsForkOf(t[i], child, i) && IsForkOf(t[j], child, j);
  }

  /** One process executes again and again. */
  predicate Execs(drained: seq<Drained>, pid: U32)
  {
    forall i :: 0 <= i < |drained| ==> drained[i].record == ExecRecord(pid)
  }

  predicate IsExecOf(e: Event, pid: U32, i: nat)
  {
    e.Exec? && e.process == Instance(Lifetime(pid, 0), AtMost(i, U32_MAX))
  }

  /** The process is at its n-th image, or does not exist yet. */
  predicate IsAtImage(c: Coll, pid: U32, n: nat)
  {
    && c.root.lifetime.pid != pid
    && if pid in c.current then c.current[pid] == Instance(Lifetime(pid, 0), AtMost(n, U32_MAX))
       else n == 0 && NextGeneration(c, pid) == 0
  }

  lemma ExecCounts(c: Coll, d: Drained, prefixes: seq<string>, pid: U32, n: nat)
    requires d.record == ExecRecord(pid) && IsAtImage(c, pid, n)
    ensures var c1 := CollStep(c, d, prefixes);
            && IsAtImage(c1, pid, n + 1)
            && |c1.events| == |c.events| + 1 && c.events <= c1.events && IsExecOf(c1.events[|c.events|], pid, n + 1)
  {
  }

  lemma {:induction false} ExecsCount(rootPid: U32, drained: seq<Drained>, prefixes: seq<string>, pid: U32)
    requires Execs(drained, pid) && pid != rootPid
    ensures var c := Collect(New(rootPid), drained, prefixes);
            && IsAtImage(c, pid, |drained|)
            && |c.events| == |drained| && forall i :: 0 <= i < |drained| ==> IsExecOf(c.events[i], pid, i + 1)
  {
    if drained != [] {
      var n := |drained| - 1;
      ExecsCount(rootPid, drained[..n], prefixes, pid);
      ExecCounts(Collect(New(rootPid), drained[..n], prefixes), drained[n], prefixes, pid, n);
    }
  }

  /** In such a trace two images are one instance exactly if the first is not among the first 2^32 - 2. */
  lemma ImagesCollideIff(rootPid: U32, drained: seq<Drained>, prefixes: seq<string>, pid: U32, i: nat, j: nat)
    requires Execs(drained, pid) && pid != rootPid && i < j < |drained|
    ensures var t := Collect(New(rootPid), drained, prefixes).events;
            |t| == |drained| && t[i].Exec? && t[j].Exec? && (t[i].process == t[j].process <==> i >= U32_MAX - 1)
  {
    ExecsCount(rootPid, drained, prefixes, pid);
    var t := Collect(New(rootPid), drained, prefixes).events;
    assert IsExecOf(t[i], pid, i + 1) && IsExecOf(t[j], pid, j + 1);
  }
}
