/** Every selected output is accounted for, nothing irrelevant is emitted, and only unproduced content is an orphan. */
module SliceCompleteness {
  import opened Text
  import opened Trace
  import opened Operations
  import opened SliceScan
  import opened SlicePaths
  import opened SliceWalk
  import opened OutputSlice

  // ---------------------------------------------------------------------------------------------
  // The two indices of the scan agree: writers by hash, and the hashes in each process's flow.

  predicate Produced(flows: map<Instance, Flow>, w: Instance, h: string)
  {
    w in flows && h in flows[w].output + flows[w].renamed
  }

  ghost predicate HashesIndexed(s: Scan)
  {
    forall h, w :: w in Get(s.byHash, h) <==> Produced(s.flows, w, h)
  }

  lemma CreditAt(m: Writers, k: string, p: Instance, h: string)
    ensures Get(Credit(m, k, p), h) == if h == k then Get(m, k) + {p} else Get(m, h)
  {
  }

  lemma BookKeepsIndex(s: Scan, p: Instance, path: string, o: Observation)
    requires HashesIndexed(s)
    ensures HashesIndexed(Book(s, p, path, o))
  {
    var t := Book(s, p, path, o);
    if o.Content? {
      forall h, w ensures w in Get(t.byHash, h) <==> Produced(t.flows, w, h) {
        CreditAt(s.byHash, o.hash, p, h);
        assert w in Get(s.byHash, h) <==> Produced(s.flows, w, h);
      }
    }
  }

  lemma RenameKeepsIndex(s: Scan, e: Event)
    requires HashesIndexed(s) && e.FileRename?
    ensures HashesIndexed(OnRename(s, e))
  {
    var t := OnRename(s, e);
    if !e.external && e.observation.Content? {
      forall h, w ensures w in Get(t.byHash, h) <==> Produced(t.flows, w, h) {
        CreditAt(s.byHash, e.observation.hash, e.process, h);
        assert w in Get(s.byHash, h) <==> Produced(s.flows, w, h);
      }
    }
  }

  lemma SameProducts(s: Scan, t: Scan)
    requires HashesIndexed(s) && t.byHash == s.byHash
    requires forall w, h :: Produced(t.flows, w, h) <==> Produced(s.flows, w, h)
    ensures HashesIndexed(t)
  {
    forall h, w ensures w in Get(t.byHash, h) <==> Produced(t.flows, w, h) {
      assert w in Get(s.byHash, h) <==> Produced(s.flows, w, h);
    }
  }

  lemma ReadsKeepProducts(flows: map<Instance, Flow>, p: Instance, hash: Option<string>, w: Instance, h: string)
    ensures Produced(Reads(flows, p, hash), w, h) <==> Produced(flows, w, h)
  {
  }

  lemma StepKeepsIndex(root: Instance, s: Scan, e: Event)
    requires HashesIndexed(s)
    ensures HashesIndexed(ScanStep(root, s, e))
  {
    match e
    case FileClose(_, _, _, _, _) => CloseKeepsIndex(s, e);
    case FileRename(_, _, _, _, _, _) => RenameKeepsIndex(s, e);
    case _ =>
      OtherStepKeepsProducts(root, s, e);
      SameProducts(s, ScanStep(root, s, e));
  }

  lemma CloseKeepsIndex(s: Scan, e: Event)
    requires HashesIndexed(s) && e.FileClose?
    ensures HashesIndexed(OnClose(s, e))
  {
    var slot := (e.process.lifetime, e.fd);
    if !e.external && slot in s.pending {
      var s1 := s.(pending := s.pending - {slot});
      SameProducts(s, s1);
      if e.seen.Some? {
        BookKeepsIndex(s1, s.pending[slot].process,
          if e.closed.Some? then e.closed.value else s.pending[slot].path, e.seen.value);
      }
    }
  }

  lemma OtherStepKeepsProducts(root: Instance, s: Scan, e: Event)
    requires !e.FileClose? && !e.FileRename?
    ensures ScanStep(root, s, e).byHash == s.byHash
    ensures forall w, h :: Produced(ScanStep(root, s, e).flows, w, h) <==> Produced(s.flows, w, h)
  {
    var t := ScanStep(root, s, e);
    forall w, h ensures Produced(t.flows, w, h) <==> Produced(s.flows, w, h) {
      match e
      case FileOpen(p, path, _, _, _, o) => ReadsKeepProducts(s.flows, p, ReadHash(path, o), w, h);
      case FileMmap(p, _, _, _, mapped, _, seen) =>
        if mapped.Some? && seen.Some? { ReadsKeepProducts(s.flows, p, ReadHash(mapped.value, seen.value), w, h); }
      case _ =>
    }
  }

  lemma {:induction false} ScanIsIndexed(root: Instance, events: seq<Event>)
    ensures HashesIndexed(ScanRun(root, events))
  {
    if events != [] {
      var n := |events| - 1;
      ScanIsIndexed(root, events[..n]);
      StepKeepsIndex(root, ScanRun(root, events[..n]), events[n]);
    }
  }

  /** This event books content `h` for instance `w`: a finished write, or a rename. */
  predicate Produces(s: Scan, e: Event, w: Instance, h: string)
  {
    || (Credits(s, e).Some? && Credits(s, e).value.0 == w && e.seen == Some(Content(h)))
    || (e.FileRename? && !e.external && e.process == w && e.observation == Content(h))
  }

  lemma StepProduces(root: Instance, s: Scan, e: Event, w: Instance, h: string)
    ensures Produced(ScanStep(root, s, e).flows, w, h) <==> Produced(s.flows, w, h) || Produces(s, e, w, h)
  {
    if !e.FileClose? && !e.FileRename? { OtherStepKeepsProducts(root, s, e); }
  }

  ghost predicate ProducesAt(root: Instance, events: seq<Event>, i: nat, w: Instance, h: string)
  {
    i < |events| && Produces(ScanRun(root, events[..i]), events[i], w, h)
  }

  /** Flows record exactly what the events of the trace produced. */
  lemma {:induction false} ProducedIffEvent(root: Instance, events: seq<Event>, w: Instance, h: string)
    ensures Produced(ScanRun(root, events).flows, w, h) <==> exists i: nat :: ProducesAt(root, events, i, w, h)
  {
    if events != [] {
      var n := |events| - 1;
      ProducedIffEvent(root, events[..n], w, h);
      StepProduces(root, ScanRun(root, events[..n]), events[n], w, h);
      assert ProducesAt(root, events, n, w, h) <==> Produces(ScanRun(root, events[..n]), events[n], w, h);
      forall i: nat | i < n ensures ProducesAt(root, events, i, w, h) <==> ProducesAt(root, events[..n], i, w, h) {
        assert events[..n][..i] == events[..i];
      }
    }
  }

  // ---------------------------------------------------------------------------------------------
  // What the slice contains.

  /** Some process of the trace wrote or renamed this content. */
  ghost predicate SomebodyProduced(s: Scan, h: string)
  {
    exists w :: Produced(s.flows, w, h)
  }

  /** Each selected hash is the output of an emitted operation. */
  lemma SelectedHashIsOutput(s: Scan, outputs: seq<OutputFile>, members: set<Instance>,
      choice: map<string, Instance>, h: string)
    requires h in HashesOf(outputs)
    ensures exists op :: op in SliceSet(s, outputs, members, choice) && op.outputs == [h]
  {
    var relevant := Relevant(s, outputs, members);
    if h in Orphans(s, outputs, members) {
      var op := OrphanOp(s, choice, h);
      assert op in OrphanOps(s, Orphans(s, outputs, members), choice) && op.outputs == [h];
    } else {
      var p :| p in members && p in s.flows && h in s.flows[p].output + s.flows[p].renamed;
      var f := s.flows[p];
      var op := if h in f.output then Op(WriteOp, f.tool, [], [], [h]) else Op(RenameOp, f.tool, [], [h], [h]);
      assert op in FlowOps(f, relevant) by {
        if h in f.output { assert op in WriteOps(f, f.output * relevant); }
        else { assert op in RenameOps(f, f.renamed * relevant); }
      }
      assert op in MemberOps(s, members, relevant);
    }
  }

  /** Only relevant content is mentioned: a selected hash, or something that a member read. */
  lemma EmittedHashesAreRelevant(s: Scan, outputs: seq<OutputFile>, members: set<Instance>,
      choice: map<string, Instance>,
                                 op: CanonicalOp, h: string)
    requires op in SliceSet(s, outputs, members, choice) && h in op.inputs + op.outputs
    ensures h in Relevant(s, outputs, members)
  {
    var relevant := Relevant(s, outputs, members);
    if op in MemberOps(s, members, relevant) {
      var p :| p in members && p in s.flows && op in FlowOps(s.flows[p], relevant);
      FlowOpsAreRelevant(s.flows[p], relevant, op, h);
    } else if op in OrphanOps(s, Orphans(s, outputs, members), choice) {
      var g :| g in Orphans(s, outputs, members) && op == OrphanOp(s, choice, g);
      assert h == g;
    }
  }

  lemma FlowOpsAreRelevant(f: Flow, relevant: set<string>, op: CanonicalOp, h: string)
    requires op in FlowOps(f, relevant) && h in op.inputs + op.outputs
    ensures h in relevant
  {
  }

  lemma MemberOpHasNoArgs(s: Scan, members: set<Instance>, relevant: set<string>, op: CanonicalOp)
    requires op in MemberOps(s, members, relevant)
    ensures op.args == []
  {
    var p :| p in members && p in s.flows && op in FlowOps(s.flows[p], relevant);
    var f := s.flows[p];
    assert op in ExecOps(f) || op in ReadOps(f, f.input * relevant) || op in WriteOps(f, f.output * relevant)
        || op in RenameOps(f, f.renamed * relevant);
  }

  /** The unattributed sentinel stands for a selected hash exactly when no process produced that content. */
  lemma SentinelIffNobodyProduced(s: Scan, outputs: seq<OutputFile>, slice: Slice, h: string)
    requires HashesIndexed(s) && IsSlice(s, outputs, slice)
    ensures Sentinel(h) in ErasedSet(slice.emitted) <==> h in HashesOf(outputs) && !SomebodyProduced(s, h)
  {
    var orphans := Orphans(s, outputs, slice.members);
    if Sentinel(h) in ErasedSet(slice.emitted) {
      if Sentinel(h) in MemberOps(s, slice.members, Relevant(s, outputs, slice.members)) {
        MemberOpHasNoArgs(s, slice.members, Relevant(s, outputs, slice.members), Sentinel(h));
      }
      SentinelIsNoExit(s, h);
      assert Sentinel(h) in OrphanOps(s, orphans, slice.choice);
      var g :| g in orphans && Sentinel(h) == OrphanOp(s, slice.choice, g);
      assert g == h && h !in slice.choice;
      forall w ensures !Produced(s.flows, w, h) {
        assert w in Get(s.byHash, h) <==> Produced(s.flows, w, h);
        assert !Attributable(s, h, w);
      }
    }
    if h in HashesOf(outputs) && !SomebodyProduced(s, h) {
      assert h in orphans by {
        if h in ProducedBy(s, slice.members) {
          var p :| p in slice.members && p in s.flows && h in s.flows[p].output + s.flows[p].renamed;
          assert Produced(s.flows, p, h);
        }
      }
      ChosenProduced(s, orphans, slice.choice, h);
      assert OrphanOp(s, slice.choice, h) in OrphanOps(s, orphans, slice.choice);
    }
  }

  lemma ChosenProduced(s: Scan, orphans: set<string>, choice: map<string, Instance>, h: string)
    requires ValidChoice(s, orphans, choice)
    ensures h in choice ==> SomebodyProduced(s, h)
  {
    if h in choice { assert Produced(s.flows, choice[h], h); }
  }

  lemma SentinelIsNoExit(s: Scan, h: string)
    ensures Sentinel(h) !in ExitOps(s)
  {
  }

  // ---------------------------------------------------------------------------------------------
  // The same about a run of the slicer on a trace.

  lemma FinalScanIsIndexed(root: Instance, events: seq<Event>)
    ensures HashesIndexed(FinalScan(root, events))
  {
    ScanIsIndexed(root, events);
    SameProducts(ScanRun(root, events), FinalScan(root, events));
  }

  /** An operation of the emitted sequence, its process index left out. */
  predicate Emitted(slice: Slice, op: CanonicalOp)
  {
    op in ErasedSet(slice.emitted)
  }

  /** Output completeness of a slice of a trace, with the exact condition for the orphan sentinel. */
  lemma SliceAccountsForOutputs(root: Instance, events: seq<Event>, outputs: seq<OutputFile>, slice: Slice, h: string)
    requires IsSlice(FinalScan(root, events), outputs, slice)
    ensures h in HashesOf(outputs) ==> exists op :: Emitted(slice, op) && op.outputs == [h]
    ensures (exists op :: Emitted(slice, op) && h in op.inputs + op.outputs) ==>
      h in Relevant(FinalScan(root, events), outputs, slice.members)
    ensures Emitted(slice, Sentinel(h)) <==> h in HashesOf(outputs) && !SomebodyProduced(ScanRun(root, events), h)
  {
    var s := FinalScan(root, events);
    if h in HashesOf(outputs) {
      SelectedHashIsOutput(s, outputs, slice.members, slice.choice, h);
      var op :| op in SliceSet(s, outputs, slice.members, slice.choice) && op.outputs == [h];
      assert Emitted(slice, op);
    }
    if exists op :: Emitted(slice, op) && h in op.inputs + op.outputs {
      var op :| Emitted(slice, op) && h in op.inputs + op.outputs;
      EmittedHashesAreRelevant(s, outputs, slice.members, slice.choice, op, h);
    }
    FinalScanIsIndexed(root, events);
    SentinelIffNobodyProduced(s, outputs, slice, h);
  }
}
