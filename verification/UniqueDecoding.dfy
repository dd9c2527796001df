/** The shapes of what the slicer emits: every write has an output, so a preimage determines its operation. */
module UniqueDecoding {
  import opened Text
  import opened Trace
  import opened Operations
  import opened Preimages
  import opened SliceScan
  import opened SliceWalk
  import opened OutputSlice

  predicate FlowShaped(f: Flow)
  {
    && AreTokens(ToolTokens(f.tool))
    && (forall h :: h in f.input ==> IsToken(h)) && (forall h :: h in f.output + f.renamed ==> IsToken(h))
  }

  predicate FlowsShaped(flows: map<Instance, Flow>)
  {
    forall p :: p in flows ==> FlowShaped(flows[p])
  }

  lemma ReadsStayShaped(flows: map<Instance, Flow>, p: Instance, path: string, o: Observation)
    requires FlowsShaped(flows) && IsObservation(o)
    ensures FlowsShaped(Reads(flows, p, ReadHash(path, o)))
  {
    IdentityIsToken(o);
  }

  lemma SetKeepsShaped(flows: map<Instance, Flow>, p: Instance, f: Flow)
    requires FlowsShaped(flows) && FlowShaped(f)
    ensures FlowsShaped(flows[p := f])
  {
  }

  lemma FlowOfShaped(flows: map<Instance, Flow>, p: Instance)
    requires FlowsShaped(flows)
    ensures FlowShaped(FlowOf(flows, p))
  {
  }

  lemma StepKeepsShaped(root: Instance, s: Scan, e: Event)
    requires FlowsShaped(s.flows) && IsObserved(e)
    ensures FlowsShaped(ScanStep(root, s, e).flows)
  {
    match e
    case Exec(p, o) =>
      IdentityIsToken(o);
      FlowOfShaped(s.flows, p);
      SetKeepsShaped(s.flows, p, FlowOf(s.flows, p).(tool := Some(o.Identity()), hasExec := true));
    case Fork(parent, child) =>
      FlowOfShaped(s.flows, child);
      SetKeepsShaped(s.flows, child,
                     FlowOf(s.flows, child).(tool := if parent in s.flows then s.flows[parent].tool else None));
    case FileOpen(p, path, _, _, _, o) => ReadsStayShaped(s.flows, p, path, o);
    case FileMmap(p, _, _, _, mapped, _, seen) =>
      if mapped.Some? && seen.Some? { ReadsStayShaped(s.flows, p, mapped.value, seen.value); }
    case FileClose(_, _, _, _, _) => CloseKeepsShaped(s, e);
    case FileRename(p, _, _, _, _, o) =>
      IdentityIsToken(o);
      var f := FlowOf(s.flows, p);
      FlowOfShaped(s.flows, p);
      if o.Content? {
        SetKeepsShaped(s.flows, p, f.(input := f.input + {o.hash}, renamed := f.renamed + {o.hash}));
      }
    case _ =>
  }

  lemma CloseKeepsShaped(s: Scan, e: Event)
    requires e.FileClose? && FlowsShaped(s.flows) && IsObserved(e)
    ensures FlowsShaped(SliceScan.OnClose(s, e).flows)
  {
    var slot := (e.process.lifetime, e.fd);
    if !e.external && slot in s.pending && e.seen.Some? {
      var p := s.pending[slot].process;
      var f := FlowOf(s.flows, p);
      IdentityIsToken(e.seen.value);
      FlowOfShaped(s.flows, p);
      if e.seen.value.Content? { SetKeepsShaped(s.flows, p, f.(output := f.output + {e.seen.value.hash})); }
    }
  }

  lemma {:induction false} ScanIsShaped(root: Instance, events: seq<Event>)
    requires AreObserved(events)
    ensures FlowsShaped(ScanRun(root, events).flows)
  {
    if events != [] {
      ScanIsShaped(root, events[..|events| - 1]);
      StepKeepsShaped(root, ScanRun(root, events[..|events| - 1]), events[|events| - 1]);
    }
  }

  /** A shaped operation that is not a write without output. */
  predicate ShapedAndClosed(op: CanonicalOp)
  {
    Shaped(op) && (op.opType.WriteOp? ==> op.outputs != [])
  }

  lemma FlowOpIsShaped(f: Flow, relevant: set<string>, op: CanonicalOp)
    requires FlowShaped(f) && op in FlowOps(f, relevant)
    ensures ShapedAndClosed(op)
  {
  }

  lemma SentinelIsShaped(h: string)
    requires IsToken(h)
    ensures ShapedAndClosed(Sentinel(h))
  {
  }

  lemma MemberOpsAreShaped(s: Scan, members: set<Instance>, relevant: set<string>, op: CanonicalOp)
    requires FlowsShaped(s.flows) && op in MemberOps(s, members, relevant)
    ensures ShapedAndClosed(op)
  {
    var p :| p in members && p in s.flows && op in FlowOps(s.flows[p], relevant);
    FlowOpIsShaped(s.flows[p], relevant, op);
  }

  lemma OrphanOpIsShaped(s: Scan, choice: map<string, Instance>, h: string)
    requires FlowsShaped(s.flows) && IsToken(h)
    ensures ShapedAndClosed(OrphanOp(s, choice, h))
  {
    if h in choice { FlowOfShaped(s.flows, choice[h]); } else { SentinelIsShaped(h); }
  }

  lemma OrphanOpsAreShaped(s: Scan, orphans: set<string>, choice: map<string, Instance>, op: CanonicalOp)
    requires FlowsShaped(s.flows) && (forall h :: h in orphans ==> IsDigest(h)) && op in OrphanOps(s, orphans, choice)
    ensures ShapedAndClosed(op)
  {
    var h :| h in orphans && op == OrphanOp(s, choice, h);
    OrphanOpIsShaped(s, choice, h);
  }

  lemma ExitOpsAreShaped(s: Scan, op: CanonicalOp)
    requires FlowsShaped(s.flows) && op in ExitOps(s)
    ensures ShapedAndClosed(op)
  {
    FlowOfShaped(s.flows, s.rootExit.value.0);
    ExitIsMark(s.rootExit.value.1);
  }

  lemma ErasedIsShaped(op: CanonicalOp)
    requires ShapedAndClosed(Erase(op))
    ensures ShapedAndClosed(op)
  {
  }

  /** All operations of a slice, up to their process index, have one of the shapes, and all writes an output. */
  lemma SliceIsShaped(root: Instance, events: seq<Event>, outputs: seq<OutputFile>, slice: Slice, op: CanonicalOp)
    requires AreObserved(events)
    requires forall h :: h in HashesOf(outputs) ==> IsDigest(h)
    requires IsSlice(FinalScan(root, events), outputs, slice) && op in slice.emitted
    ensures ShapedAndClosed(op)
  {
    var s := FinalScan(root, events);
    ScanIsShaped(root, events);
    var e, relevant, orphans := Erase(op), Relevant(s, outputs, slice.members), Orphans(s, outputs, slice.members);
    assert e in ErasedSet(slice.emitted);
    if e in MemberOps(s, slice.members, relevant) {
      MemberOpsAreShaped(s, slice.members, relevant, e);
    } else if e in OrphanOps(s, orphans, slice.choice) {
      OrphanOpsAreShaped(s, orphans, slice.choice, e);
    } else {
      ExitOpsAreShaped(s, e);
    }
    ErasedIsShaped(op);
  }

  // ------------------------------------------------------------------------------------------- leaves

  lemma ClosedAreNotConfused(op: CanonicalOp, op': CanonicalOp)
    requires ShapedAndClosed(op) && ShapedAndClosed(op') && Alike(op, op')
    ensures Erase(op) == Erase(op')
  {
  }

  ghost predicate AllClosed(ops: seq<CanonicalOp>)
  {
    forall op :: op in ops ==> ShapedAndClosed(op)
  }

  lemma AlikeIsEqual(ops: seq<CanonicalOp>, ops': seq<CanonicalOp>)
    requires AllClosed(ops) && AllClosed(ops') && HaveAlike(ops, ops')
    ensures ErasedSet(ops) <= ErasedSet(ops')
  {
    forall op | op in ops ensures Erase(op) in ErasedSet(ops') {
      assert HasAlike(op, ops');
      var op' :| op' in ops' && Alike(op, op');
      ClosedAreNotConfused(op, op');
    }
  }

  /**
   The committed leaves of a slice determine its operations: two slices, of whatever traces, with the same leaves
   consist of the same operations up to process indices, or two of their operations collide.
   */
  lemma LeavesDetermineSlice(sha: Sha, root: Instance, events: seq<Event>, outputs: seq<OutputFile>, slice: Slice,
      root': Instance, events': seq<Event>, outputs': seq<OutputFile>, slice': Slice)
    requires AreObserved(events) && AreObserved(events')
    requires forall h :: h in HashesOf(outputs) + HashesOf(outputs') ==> IsDigest(h)
    requires IsSlice(FinalScan(root, events), outputs, slice) && IsSlice(FinalScan(root', events'), outputs', slice')
    requires Leaves(sha, Finalized(sha, slice.emitted)) == Leaves(sha, Finalized(sha, slice'.emitted))
    ensures ErasedSet(slice.emitted) == ErasedSet(slice'.emitted) || SomeCollide(sha, slice.emitted, slice'.emitted)
  {
    forall op | op in slice.emitted ensures ShapedAndClosed(op) {
      SliceIsShaped(root, events, outputs, slice, op);
    }
    forall op | op in slice'.emitted ensures ShapedAndClosed(op) {
      SliceIsShaped(root', events', outputs', slice', op);
    }
    if !SomeCollide(sha, slice.emitted, slice'.emitted) {
      EqualLeavesIff(sha, slice.emitted, slice'.emitted);
      AlikeIsEqual(slice.emitted, slice'.emitted);
      AlikeIsEqual(slice'.emitted, slice.emitted);
    }
  }
}
