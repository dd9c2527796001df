/** What every run of the canonicalizer keeps. */
module CanonicalInvariants {
  import opened Trace
  import opened Paths
  import opened Operations
  import opened Descriptors
  import opened Canonicalizer

  ghost predicate PointsAt(pending: map<Slot, nat>, ops: seq<CanonicalOp>, t: OpType)
  {
    forall slot :: slot in pending ==> pending[slot] < |ops| && ops[pending[slot]].opType == t
  }

  ghost predicate IsIndexed(index: map<Instance, nat>, i: nat)
  {
    exists p :: p in index && index[p] == i
  }

  /** Process indices are distinct and fill `0..next`, with the root at 0. */
  ghost predicate DenseIndex(root: Instance, index: map<Instance, nat>, next: nat)
  {
    && root in index && index[root] == 0
    && (forall p :: p in index ==> index[p] < next)
    && (forall p, q :: p in index && q in index && index[p] == index[q] ==> p == q)
    && (forall i :: 0 <= i < next ==> IsIndexed(index, i))
  }

  /** Pending entries are in range and point at operations of the right kind. */
  ghost predicate Targets(s: State)
  {
    && PointsAt(s.pending, s.ops, WriteOp)
    && PointsAt(s.externalPending, s.external, ExternalWriteOp)
  }

  ghost predicate Inv(c: Config, s: State)
  {
    Targets(s) && DenseIndex(c.root, s.index, s.next)
  }

  lemma RegisterKeepsDense(c: Config, s: State, p: Instance)
    requires DenseIndex(c.root, s.index, s.next)
    ensures DenseIndex(c.root, Register(s, p).index, Register(s, p).next)
  {
    var t := Register(s, p);
    forall i | 0 <= i < t.next ensures IsIndexed(t.index, i) {
      if i < s.next {
        assert IsIndexed(s.index, i);
        var q :| q in s.index && s.index[q] == i;
        assert q in t.index && t.index[q] == i;
      } else {
        assert p in t.index && t.index[p] == i;
      }
    }
  }

  /** Operations that every decision emits: a write is opened with a write operation and nothing else is one. */
  predicate WellTyped(d: Decision)
  {
    d.write.NewWrite? ==> d.write.op.opType == if d.external then ExternalWriteOp else WriteOp
  }

  lemma DecisionsAreWellTyped(c: Config, v: View, e: Event)
    requires !e.Fork?
    ensures WellTyped(Decide(c, v, e))
  {
  }

  lemma EmittedKeeps(s: State, p: Instance, d: Decision)
    requires Targets(s)
    ensures Targets(Emitted(s, p, d))
  {
  }

  lemma StartedKeeps(s: State, p: Instance, d: Decision)
    requires Targets(s) && WellTyped(d)
    ensures Targets(Started(s, p, d))
  {
  }

  lemma FinishedKeeps(s: State, p: Instance, d: Decision)
    requires Targets(s)
    ensures Targets(Finished(s, p, d))
  {
  }

  lemma ApplyKeepsTargets(s: State, p: Instance, d: Decision)
    requires Targets(s) && WellTyped(d)
    ensures Targets(Apply(s, p, d))
  {
    var s1 := Note(s, p, d);
    assert Targets(s1);
    EmittedKeeps(s1, p, d);
    StartedKeeps(Emitted(s1, p, d), p, d);
    FinishedKeeps(Started(Emitted(s1, p, d), p, d), p, d);
  }

  lemma StepKeepsTargets(c: Config, s: State, e: Event)
    requires Targets(s)
    ensures Targets(Step(c, s, e))
  {
    if !e.Fork? {
      DecisionsAreWellTyped(c, ViewOf(s, e.process), e);
      ApplyKeepsTargets(s, e.process, Decide(c, ViewOf(s, e.process), e));
    }
  }

  /** Equal in all that a decision changes only when it notes the process. */
  ghost predicate SameNotes(s: State, t: State)
  {
    s.index == t.index && s.next == t.next && s.fallback == t.fallback && s.tools == t.tools
  }

  lemma EmittedKeepsNotes(s: State, p: Instance, d: Decision)
    ensures SameNotes(Emitted(s, p, d), s)
  {
  }

  lemma StartedKeepsNotes(s: State, p: Instance, d: Decision)
    ensures SameNotes(Started(s, p, d), s)
  {
  }

  lemma FinishedKeepsNotes(s: State, p: Instance, d: Decision)
    ensures SameNotes(Finished(s, p, d), s)
  {
  }

  lemma ApplyKeepsNotes(s: State, p: Instance, d: Decision)
    ensures SameNotes(Apply(s, p, d), Note(s, p, d))
  {
    var s1 := Note(s, p, d);
    EmittedKeepsNotes(s1, p, d);
    StartedKeepsNotes(Emitted(s1, p, d), p, d);
    FinishedKeepsNotes(Started(Emitted(s1, p, d), p, d), p, d);
  }

  lemma StepKeepsInv(c: Config, s: State, e: Event)
    requires Inv(c, s)
    ensures Inv(c, Step(c, s, e))
  {
    StepKeepsTargets(c, s, e);
    if !e.Fork? {
      RegisterKeepsDense(c, s, e.process);
      ApplyKeepsNotes(s, e.process, Decide(c, ViewOf(s, e.process), e));
    }
  }

  /** Every pending index is in range and points at a write; process indices are injective and dense. */
  lemma {:induction false} RunKeepsInv(c: Config, events: seq<Event>)
    ensures Inv(c, Run(c, events))
  {
    if events != [] {
      RunKeepsInv(c, events[..|events| - 1]);
      StepKeepsInv(c, Run(c, events[..|events| - 1]), events[|events| - 1]);
    } else {
      var index := Run(c, events).index;
      assert c.root in index && index[c.root] == 0;
      assert IsIndexed(index, 0);
    }
  }

  /** `later` extends `earlier`; an operation already there changed at most the outputs of a write. */
  ghost predicate OnlyOutputsChange(earlier: seq<CanonicalOp>, later: seq<CanonicalOp>)
  {
    && |earlier| <= |later|
    && forall i :: 0 <= i < |earlier| ==>
         && later[i].(outputs := earlier[i].outputs) == earlier[i]
         && (!earlier[i].opType.WriteOp? && !earlier[i].opType.ExternalWriteOp? ==> later[i] == earlier[i])
  }

  ghost predicate OnlyOutputsChangeIn(s: State, t: State)
  {
    OnlyOutputsChange(s.ops, t.ops) && OnlyOutputsChange(s.external, t.external)
  }

  lemma FreezingComposes(s: seq<CanonicalOp>, t: seq<CanonicalOp>, u: seq<CanonicalOp>)
    requires OnlyOutputsChange(s, t) && OnlyOutputsChange(t, u)
    ensures OnlyOutputsChange(s, u)
  {
    forall i | 0 <= i < |s|
      ensures u[i].(outputs := s[i].outputs) == s[i]
      ensures !s[i].opType.WriteOp? && !s[i].opType.ExternalWriteOp? ==> u[i] == s[i]
    {
      assert t[i].(outputs := s[i].outputs) == s[i] && u[i].(outputs := t[i].outputs) == t[i];
    }
  }

  lemma FreezingInComposes(s: State, t: State, u: State)
    requires OnlyOutputsChangeIn(s, t) && OnlyOutputsChangeIn(t, u)
    ensures OnlyOutputsChangeIn(s, u)
  {
    FreezingComposes(s.ops, t.ops, u.ops);
    FreezingComposes(s.external, t.external, u.external);
  }

  lemma EmittedFreezes(s: State, p: Instance, d: Decision)
    ensures OnlyOutputsChangeIn(s, Emitted(s, p, d))
  {
  }

  lemma StartedFreezes(s: State, p: Instance, d: Decision)
    ensures OnlyOutputsChangeIn(s, Started(s, p, d))
  {
  }

  lemma FinishedFreezes(s: State, p: Instance, d: Decision)
    requires Targets(s)
    ensures OnlyOutputsChangeIn(s, Finished(s, p, d))
  {
  }

  lemma ApplyFreezes(s: State, p: Instance, d: Decision)
    requires Targets(s) && WellTyped(d)
    ensures OnlyOutputsChangeIn(s, Apply(s, p, d))
  {
    var s1 := Note(s, p, d);
    var s2 := Emitted(s1, p, d);
    assert Targets(s1) && OnlyOutputsChangeIn(s, s1);
    EmittedKeeps(s1, p, d);
    StartedKeeps(s2, p, d);
    EmittedFreezes(s1, p, d);
    StartedFreezes(s2, p, d);
    FinishedFreezes(Started(s2, p, d), p, d);
    FreezingInComposes(s, s1, s2);
    FreezingInComposes(s, s2, Started(s2, p, d));
    FreezingInComposes(s, Started(s2, p, d), Apply(s, p, d));
  }

  lemma StepFreezes(c: Config, s: State, e: Event)
    requires Targets(s)
    ensures OnlyOutputsChangeIn(s, Step(c, s, e))
    ensures s.fallback <= Step(c, s, e).fallback
  {
    if !e.Fork? {
      var d := Decide(c, ViewOf(s, e.process), e);
      DecisionsAreWellTyped(c, ViewOf(s, e.process), e);
      ApplyFreezes(s, e.process, d);
      ApplyKeepsNotes(s, e.process, d);
    }
  }

  /** An emitted operation is final but for the output of a write that is still open. */
  lemma {:induction false} EmittedOpsAreFinal(c: Config, events: seq<Event>, i: nat)
    requires i <= |events|
    ensures OnlyOutputsChangeIn(Run(c, events[..i]), Run(c, events))
    ensures Run(c, events[..i]).fallback <= Run(c, events).fallback
  {
    if i == |events| {
      assert events[..i] == events;
    } else {
      var n := |events| - 1;
      assert events[..n][..i] == events[..i];
      EmittedOpsAreFinal(c, events[..n], i);
      var before, mid, after := Run(c, events[..i]), Run(c, events[..n]), Run(c, events);
      RunKeepsInv(c, events[..n]);
      StepFreezes(c, mid, events[n]);
      FreezingComposes(before.ops, mid.ops, after.ops);
      FreezingComposes(before.external, mid.external, after.external);
    }
  }

  /** The event names a path, and one it names is watched. */
  predicate TouchesWatched(c: Config, e: Event)
  {
    match e
    case FileOpen(_, path, _, _, _, _) => Watched(path, c.prefixes)
    case FileMmap(_, _, _, _, mapped, _, _) => mapped.Some? && Watched(mapped.value, c.prefixes)
    case FileClose(_, _, closed, _, _) => closed.Some? && Watched(closed.value, c.prefixes)
    case FileRename(_, from, to, _, _, _) => Watched(from, c.prefixes) || Watched(to, c.prefixes)
    case FileUnlink(_, path, _, _, _) => Watched(path, c.prefixes)
    case _ => false
  }

  lemma MarkedDecisionIsExternal(c: Config, v: View, e: Event)
    requires TouchesWatched(c, e) && v.fallback && e.process.lifetime != c.root.lifetime
    ensures var d := Decide(c, v, e); d.external || d == NOTHING
  {
  }

  ghost predicate SameForkTreeOps(s: State, t: State)
  {
    s.ops == t.ops && s.pending == t.pending
  }

  lemma ExternalStagesKeepOps(s: State, p: Instance, d: Decision)
    requires d.external
    ensures SameForkTreeOps(s, Note(s, p, d)) && SameForkTreeOps(s, Emitted(s, p, d))
    ensures SameForkTreeOps(s, Started(s, p, d)) && SameForkTreeOps(s, Finished(s, p, d))
  {
  }

  lemma ExternalDecisionKeepsOps(s: State, p: Instance, d: Decision)
    requires d.external || d == NOTHING
    ensures SameForkTreeOps(s, Apply(s, p, d))
  {
    if d.external {
      var s1 := Note(s, p, d);
      var s2 := Emitted(s1, p, d);
      ExternalStagesKeepOps(s, p, d);
      ExternalStagesKeepOps(s1, p, d);
      ExternalStagesKeepOps(s2, p, d);
      ExternalStagesKeepOps(Started(s2, p, d), p, d);
    }
  }

  lemma MarkedStepStaysExternal(c: Config, s: State, e: Event)
    requires TouchesWatched(c, e)
    requires e.process.lifetime in s.fallback && e.process.lifetime != c.root.lifetime
    ensures SameForkTreeOps(s, Step(c, s, e))
  {
    MarkedDecisionIsExternal(c, ViewOf(s, e.process), e);
    ExternalDecisionKeepsOps(s, e.process, Decide(c, ViewOf(s, e.process), e));
  }

  /**
   Being booked as external is sticky: once some event of a non-root lifetime was, no later event of it on a
   watched path adds or completes a fork-tree operation.
   */
  lemma ExternalIsSticky(c: Config, events: seq<Event>, i: nat, j: nat)
    requires i <= j < |events| && TouchesWatched(c, events[j])
    requires events[j].process.lifetime != c.root.lifetime
    requires events[j].process.lifetime in Run(c, events[..i]).fallback
    ensures Run(c, events[..j + 1]).ops == Run(c, events[..j]).ops
    ensures Run(c, events[..j + 1]).pending == Run(c, events[..j]).pending
  {
    assert events[..j][..i] == events[..i];
    EmittedOpsAreFinal(c, events[..j], i);
    RunStep(c, events, j);
    MarkedStepStaysExternal(c, Run(c, events[..j]), events[j]);
  }
}
