/** Every operation of the canonicalizer has a shape that its preimage determines, so the leaves determine the run. */
module CanonicalShapes {
  import opened Sequences
  import opened Paths
  import opened Text
  import opened Trace
  import opened Operations
  import opened Canonicalizer
  import opened CanonicalInvariants
  import opened Preimages

  predicate IsShapedOr(op: Option<CanonicalOp>)
  {
    op.Some? ==> Shaped(op.value)
  }

  predicate IsTokenOr(t: Option<string>)
  {
    t.Some? ==> IsToken(t.value)
  }

  /** A decision emits and starts operations of a shape, and completes writes with tokens. */
  predicate DecisionShaped(d: Decision)
  {
    && IsTokenOr(d.setTool) && IsShapedOr(d.emit) && (d.write.NewWrite? ==> Shaped(d.write.op))
    && (d.resolution.Close? ==> IsTokenOr(d.resolution.identity))
  }

  lemma OpenIsShaped(c: Config, v: View, e: Event)
    requires e.FileOpen? && IsTokenOr(v.tool) && IsObserved(e)
    ensures DecisionShaped(DecideOpen(c, v, e))
  {
    IdentityIsToken(e.observation);
  }

  lemma MmapIsShaped(c: Config, v: View, e: Event)
    requires e.FileMmap? && IsTokenOr(v.tool) && IsObserved(e)
    ensures DecisionShaped(DecideMmap(c, v, e))
  {
    if e.seen.Some? { IdentityIsToken(e.seen.value); }
    assert IsMark("mmap");
  }

  lemma CloseIsShaped(c: Config, v: View, e: Event)
    requires e.FileClose? && IsObserved(e)
    ensures DecisionShaped(DecideClose(c, v, e))
  {
    if e.seen.Some? { IdentityIsToken(e.seen.value); }
  }

  lemma RenameIsShaped(c: Config, v: View, e: Event)
    requires e.FileRename? && IsTokenOr(v.tool) && IsObserved(e)
    ensures DecisionShaped(DecideRename(c, v, e))
  {
    IdentityIsToken(e.observation);
    FlagsAreMark(e.flags);
  }

  lemma UnlinkIsShaped(c: Config, v: View, e: Event)
    requires e.FileUnlink? && IsTokenOr(v.tool) && IsObserved(e)
    ensures DecisionShaped(DecideUnlink(c, v, e))
  {
    IdentityIsToken(e.observation);
    FlagsAreMark(e.flags);
  }

  lemma DecisionsAreShaped(c: Config, v: View, e: Event)
    requires !e.Fork? && IsTokenOr(v.tool) && IsObserved(e)
    ensures DecisionShaped(Decide(c, v, e))
  {
    match e
    case Exec(_, o) => IdentityIsToken(o);
    case FileOpen(_, _, _, _, _, _) => OpenIsShaped(c, v, e);
    case FileMmap(_, _, _, _, _, _, _) => MmapIsShaped(c, v, e);
    case FileClose(_, _, _, _, _) => CloseIsShaped(c, v, e);
    case FileRename(_, _, _, _, _, _) => RenameIsShaped(c, v, e);
    case FileUnlink(_, _, _, _, _) => UnlinkIsShaped(c, v, e);
    case Exit(_, code) => ExitIsMark(code);
  }

  ghost predicate ToolsShaped(tools: map<Instance, string>)
  {
    forall p :: p in tools ==> IsToken(tools[p])
  }

  ghost predicate StateShaped(s: State)
  {
    AllShaped(s.ops) && AllShaped(s.external) && ToolsShaped(s.tools)
  }

  lemma OneMoreIsShaped(ops: seq<CanonicalOp>, op: CanonicalOp, i: nat)
    requires AllShaped(ops) && Shaped(op)
    ensures AllShaped(ops + [op.(processIndex := i)])
  {
    assert Shaped(op.(processIndex := i));
  }

  lemma OutputIsShaped(op: CanonicalOp, identity: string)
    requires Shaped(op) && IsWriteType(op.opType) && IsToken(identity)
    ensures Shaped(op.(outputs := [identity]))
  {
  }

  lemma SetOutputIsShaped(ops: seq<CanonicalOp>, i: nat, identity: Option<string>)
    requires AllShaped(ops) && IsTokenOr(identity) && (i < |ops| ==> IsWriteType(ops[i].opType))
    ensures AllShaped(SetOutput(ops, i, identity))
  {
    if i < |ops| && identity.Some? { OutputIsShaped(ops[i], identity.value); }
  }

  lemma EmitIsShaped(s: State, p: Instance, external: bool, op: CanonicalOp)
    requires StateShaped(s) && Shaped(op)
    ensures StateShaped(Emit(s, p, external, op))
  {
    OneMoreIsShaped(s.ops, op, IndexOf(s, p));
    OneMoreIsShaped(s.external, op, U32_MAX);
  }

  lemma NotedIsShaped(s: State, p: Instance, d: Decision)
    requires StateShaped(s) && DecisionShaped(d)
    ensures StateShaped(Note(s, p, d))
  {
  }

  lemma StartedIsShaped(s: State, p: Instance, d: Decision)
    requires StateShaped(s) && DecisionShaped(d)
    ensures StateShaped(Started(s, p, d))
  {
    if d.write.NewWrite? { EmitIsShaped(s, p, d.external, d.write.op); }
  }

  lemma FinishedIsShaped(s: State, p: Instance, d: Decision)
    requires StateShaped(s) && DecisionShaped(d) && Targets(s)
    ensures StateShaped(Finished(s, p, d))
  {
    if d.resolution.Close? {
      var slot := (p.lifetime, d.resolution.fd);
      if slot in s.pending { SetOutputIsShaped(s.ops, s.pending[slot], d.resolution.identity); }
      if slot in s.externalPending {
        SetOutputIsShaped(s.external, s.externalPending[slot], d.resolution.identity);
      }
    }
  }

  lemma ApplyIsShaped(s: State, p: Instance, d: Decision)
    requires StateShaped(s) && DecisionShaped(d) && Targets(s) && WellTyped(d)
    ensures StateShaped(Apply(s, p, d))
  {
    var s1 := Note(s, p, d);
    var s2 := Emitted(s1, p, d);
    NotedIsShaped(s, p, d);
    assert Targets(s1);
    EmittedKeeps(s1, p, d);
    if d.emit.Some? { EmitIsShaped(s1, p, d.external, d.emit.value); }
    StartedKeeps(s2, p, d);
    StartedIsShaped(s2, p, d);
    FinishedIsShaped(Started(s2, p, d), p, d);
  }

  lemma StepIsShaped(c: Config, s: State, e: Event)
    requires StateShaped(s) && Targets(s) && IsObserved(e)
    ensures StateShaped(Step(c, s, e))
  {
    if !e.Fork? {
      var v := ViewOf(s, e.process);
      DecisionsAreShaped(c, v, e);
      DecisionsAreWellTyped(c, v, e);
      ApplyIsShaped(s, e.process, Decide(c, v, e));
    }
  }

  /** All operations of a run, fork-tree and external, have one of the shapes. */
  lemma {:induction false} RunIsShaped(c: Config, events: seq<Event>)
    requires AreObserved(events)
    ensures StateShaped(Run(c, events))
  {
    if events != [] {
      var n := |events| - 1;
      RunIsShaped(c, events[..n]);
      RunKeepsInv(c, events[..n]);
      StepIsShaped(c, Run(c, events[..n]), events[n]);
    }
  }

  function AllOps(c: Config, events: seq<Event>): seq<CanonicalOp>
  {
    Run(c, events).ops + Run(c, events).external
  }

  /**
   The leaves of a trace determine its operations up to process indices and the one ambiguity: two traces have
   the same leaves exactly when each operation of one has its like in the other, unless two operations collide.
   */
  lemma LeavesDetermineRun(sha: Sha, c: Config, events: seq<Event>, c': Config, events': seq<Event>)
    requires AreObserved(events) && AreObserved(events')
    requires !SomeCollide(sha, AllOps(c, events), AllOps(c', events'))
    ensures Leaves(sha, Canonical(sha, c, events)) == Leaves(sha, Canonical(sha, c', events'))
            <==> HaveAlike(AllOps(c, events), AllOps(c', events')) && HaveAlike(AllOps(c', events'), AllOps(c, events))
  {
    RunIsShaped(c, events);
    RunIsShaped(c', events');
    EqualLeavesIff(sha, AllOps(c, events), AllOps(c', events'));
  }

  // ------------------------------------------------------------------------------------------- the ambiguity

  function Opened(p: Instance, path: string, fd: int, t: Digest): Event
  {
    FileOpen(p, path, 1, fd, false, Content(t))
  }

  /** The root runs a tool of content `t` and opens a file for writing, which is never closed. */
  function LeftOpen(c: Config, path: string, fd: int, t: Digest): seq<Event>
  {
    [Exec(c.root, Content(t))] + [Opened(c.root, path, fd, t)]
  }

  /** The root runs that tool; a process without one writes the content `t` to the file. */
  function ClosedBy(c: Config, p: Instance, path: string, fd: int, t: Digest): seq<Event>
  {
    [Exec(c.root, Content(t))] + [Opened(p, path, fd, t)] + [FileClose(p, fd, Some(path), false, Some(Content(t)))]
  }

  function AfterExec(c: Config, t: Digest): State
  {
    State([Op(ExecOp, Some(t), [], [], [])], [], map[c.root := 0], 1, map[], map[], {}, map[c.root := t])
  }

  lemma ExecRuns(c: Config, t: Digest)
    ensures Run(c, [Exec(c.root, Content(t))]) == AfterExec(c, t)
  {
    RunAppend(c, [], Exec(c.root, Content(t)));
    assert [] + [Exec(c.root, Content(t))] == [Exec(c.root, Content(t))];
  }

  lemma LeftOpenRuns(c: Config, path: string, fd: int, t: Digest)
    requires !Watched(path, c.prefixes) && !IsSystemState(path)
    ensures AllOps(c, LeftOpen(c, path, fd, t)) == AfterExec(c, t).ops + [Op(WriteOp, Some(t), [], [], [])]
  {
    ExecRuns(c, t);
    RunAppend(c, [Exec(c.root, Content(t))], Opened(c.root, path, fd, t));
    AppendNothing(AfterExec(c, t).ops + [Op(WriteOp, Some(t), [], [], [])]);
  }

  function AfterOpen(c: Config, p: Instance, fd: int, t: Digest): State
  {
    State(AfterExec(c, t).ops + [CanonicalOp(WriteOp, 1, None, [], [], [])], [], map[c.root := 0, p := 1], 2,
          map[(p.lifetime, fd) := 1], map[], {}, map[c.root := t])
  }

  lemma OpenRuns(c: Config, p: Instance, path: string, fd: int, t: Digest)
    requires !Watched(path, c.prefixes) && !IsSystemState(path) && p != c.root
    ensures Step(c, AfterExec(c, t), Opened(p, path, fd, t)) == AfterOpen(c, p, fd, t)
  {
  }

  lemma SecondOutput(op: CanonicalOp, write: CanonicalOp, t: string)
    ensures SetOutput([op] + [write], 1, Some(t)) == [op] + [write.(outputs := [t])]
  {
  }

  lemma CloseRuns(c: Config, p: Instance, path: string, fd: int, t: Digest)
    requires p != c.root
    ensures Step(c, AfterOpen(c, p, fd, t), FileClose(p, fd, Some(path), false, Some(Content(t)))).ops
            == AfterExec(c, t).ops + [CanonicalOp(WriteOp, 1, None, [], [], [t])]
    ensures Step(c, AfterOpen(c, p, fd, t), FileClose(p, fd, Some(path), false, Some(Content(t)))).external == []
  {
    SecondOutput(AfterExec(c, t).ops[0], CanonicalOp(WriteOp, 1, None, [], [], []), t);
  }

  lemma ClosedByRuns(c: Config, p: Instance, path: string, fd: int, t: Digest)
    requires !Watched(path, c.prefixes) && !IsSystemState(path) && p != c.root
    ensures AllOps(c, ClosedBy(c, p, path, fd, t))
            == AfterExec(c, t).ops + [CanonicalOp(WriteOp, 1, None, [], [], [t])]
  {
    var exec, open := Exec(c.root, Content(t)), Opened(p, path, fd, t);
    ExecRuns(c, t);
    RunAppend(c, [exec], open);
    OpenRuns(c, p, path, fd, t);
    RunAppend(c, [exec] + [open], FileClose(p, fd, Some(path), false, Some(Content(t))));
    CloseRuns(c, p, path, fd, t);
    AppendNothing(AfterExec(c, t).ops + [CanonicalOp(WriteOp, 1, None, [], [], [t])]);
  }

  lemma LeafOf(sha: Sha, ops: seq<CanonicalOp>, i: nat)
    requires i < |ops|
    ensures Hash(sha, SortFields(ops[i])) in LeafSet(sha, ops)
  {
    assert ops[i] in ops;
  }

  lemma PairLeaves(sha: Sha, op: CanonicalOp, a: CanonicalOp, b: CanonicalOp)
    requires Hash(sha, SortFields(a)) == Hash(sha, SortFields(b))
    ensures LeafSet(sha, [op] + [a]) <= LeafSet(sha, [op] + [b])
  {
    LeafOf(sha, [op] + [b], 0);
    LeafOf(sha, [op] + [b], 1);
  }

  lemma WritesAreConfused(sha: Sha, t: Digest, i: nat)
    ensures var write, write' := Op(WriteOp, Some(t), [], [], []), CanonicalOp(WriteOp, i, None, [], [], [t]);
            Confused(write, write') && Hash(sha, SortFields(write)) == Hash(sha, SortFields(write'))
  {
    var write, write' := Op(WriteOp, Some(t), [], [], []), CanonicalOp(WriteOp, i, None, [], [], [t]);
    ConfusedAgree(write, write');
    ShapedIsSorted(write);
    ShapedIsSorted(write');
  }

  /** Two sequences of two operations that differ in confused writes. */
  lemma ConfusedPairs(sha: Sha, op: CanonicalOp, t: Digest, ops: seq<CanonicalOp>, ops': seq<CanonicalOp>)
    requires ops == [op] + [Op(WriteOp, Some(t), [], [], [])]
    requires ops' == [op] + [CanonicalOp(WriteOp, 1, None, [], [], [t])]
    ensures |ops| == |ops'| == 2 && Confused(ops[1], ops'[1])
    ensures Leaves(sha, Finalized(sha, ops)) == Leaves(sha, Finalized(sha, ops'))
  {
    var write, write' := Op(WriteOp, Some(t), [], [], []), CanonicalOp(WriteOp, 1, None, [], [], [t]);
    WritesAreConfused(sha, t, 1);
    PairLeaves(sha, op, write, write');
    PairLeaves(sha, op, write', write);
    SameLeafSet(sha, ops, ops');
  }

  /**
   The ambiguity is reached: for any tool content, two traces with different operations whose leaves agree
   whatever the hash function.
   */
  lemma UnclosedWriteIsAmbiguous(sha: Sha, c: Config, p: Instance, path: string, fd: int, t: Digest)
    requires !Watched(path, c.prefixes) && !IsSystemState(path) && p != c.root
    ensures Leaves(sha, Canonical(sha, c, LeftOpen(c, path, fd, t)))
            == Leaves(sha, Canonical(sha, c, ClosedBy(c, p, path, fd, t)))
    ensures |AllOps(c, LeftOpen(c, path, fd, t))| == |AllOps(c, ClosedBy(c, p, path, fd, t))| == 2
    ensures Confused(AllOps(c, LeftOpen(c, path, fd, t))[1], AllOps(c, ClosedBy(c, p, path, fd, t))[1])
  {
    LeftOpenRuns(c, path, fd, t);
    ClosedByRuns(c, p, path, fd, t);
    ConfusedPairs(sha, Op(ExecOp, Some(t), [], [], []), t, AllOps(c, LeftOpen(c, path, fd, t)),
                  AllOps(c, ClosedBy(c, p, path, fd, t)));
  }
}
