/**
 The slicer's free choice among the producers of an orphan: exactly when it shows in the leaves, and traces in which it
 does.
 */
module OrphanChoice {
  import opened Text
  import opened Trace
  import opened Operations
  import opened Preimages
  import opened SliceScan
  import opened SliceWalk
  import opened OutputSlice
  import opened SliceDeterminism
  import opened UniqueDecoding

  // ------------------------------------------------------------------------------------------- slices for all choices

  /** Some list of the given operations, which carry no process index. */
  lemma {:induction false} Listed(ops: set<CanonicalOp>) returns (list: seq<CanonicalOp>)
    requires forall op :: op in ops ==> Erase(op) == op
    ensures ErasedSet(list) == ops
    decreases ops
  {
    if ops == {} {
      list := [];
    } else {
      var op :| op in ops;
      var rest := Listed(ops - {op});
      list := rest + [op];
      AppendErased(rest, op);
    }
  }

  lemma FlowOpIsErased(f: Flow, relevant: set<string>, op: CanonicalOp)
    requires op in FlowOps(f, relevant)
    ensures Erase(op) == op
  {
  }

  lemma SliceSetIsErased(s: Scan, outputs: seq<OutputFile>, members: set<Instance>, choice: map<string, Instance>)
    ensures forall op :: op in SliceSet(s, outputs, members, choice) ==> Erase(op) == op
  {
    var relevant, orphans := Relevant(s, outputs, members), Orphans(s, outputs, members);
    forall op | op in SliceSet(s, outputs, members, choice) ensures Erase(op) == op {
      if op in MemberOps(s, members, relevant) {
        var p :| p in members && p in s.flows && op in FlowOps(s.flows[p], relevant);
        FlowOpIsErased(s.flows[p], relevant, op);
      } else if op in OrphanOps(s, orphans, choice) {
        var h :| h in orphans && op == OrphanOp(s, choice, h);
      }
    }
  }

  lemma SliceFor(s: Scan, outputs: seq<OutputFile>, members: set<Instance>, choice: map<string, Instance>)
      returns (slice: Slice)
    requires IsLeast(s, outputs, members) && ValidChoice(s, Orphans(s, outputs, members), choice)
    ensures IsSlice(s, outputs, slice) && slice.members == members && slice.choice == choice
  {
    SliceSetIsErased(s, outputs, members, choice);
    var emitted := Listed(SliceSet(s, outputs, members, choice));
    slice := Slice(members, choice, emitted);
  }

  // ------------------------------------------------------------------------------------------- the leaves

  function LeavesOf(sha: Sha, slice: Slice): seq<string>
  {
    Leaves(sha, Finalized(sha, slice.emitted))
  }

  ghost predicate LeavesIgnoreChoice(sha: Sha, s: Scan, outputs: seq<OutputFile>)
  {
    forall a, b :: IsSlice(s, outputs, a) && IsSlice(s, outputs, b) ==> LeavesOf(sha, a) == LeavesOf(sha, b)
  }

  ghost predicate SlicesCollide(sha: Sha, s: Scan, outputs: seq<OutputFile>)
  {
    exists a, b :: IsSlice(s, outputs, a) && IsSlice(s, outputs, b) && SomeCollide(sha, a.emitted, b.emitted)
  }

  /** If two producers of an orphan run different tools, two slices differ. */
  lemma DifferentSlices(s: Scan, outputs: seq<OutputFile>, slice: Slice) returns (a: Slice, b: Slice)
    requires IsSlice(s, outputs, slice) && !OrphansAgree(s, Orphans(s, outputs, slice.members))
    ensures IsSlice(s, outputs, a) && IsSlice(s, outputs, b) && ErasedSet(a.emitted) != ErasedSet(b.emitted)
  {
    var orphans := Orphans(s, outputs, slice.members);
    var h, v, w :| h in orphans && Attributable(s, h, v) && Attributable(s, h, w) && s.flows[v].tool != s.flows[w].tool;
    RechooseIsValid(s, orphans, slice.choice, h, v);
    RechooseIsValid(s, orphans, slice.choice, h, w);
    a := SliceFor(s, outputs, slice.members, slice.choice[h := v]);
    b := SliceFor(s, outputs, slice.members, slice.choice[h := w]);
    DifferentToolsDifferentSlices(s, outputs, slice.members, slice.choice[h := v], slice.choice[h := w], h);
  }

  lemma AgreementHidesChoice(sha: Sha, s: Scan, outputs: seq<OutputFile>, slice: Slice)
    requires IsSlice(s, outputs, slice) && OrphansAgree(s, Orphans(s, outputs, slice.members))
    ensures LeavesIgnoreChoice(sha, s, outputs)
  {
    forall a, b | IsSlice(s, outputs, a) && IsSlice(s, outputs, b) ensures LeavesOf(sha, a) == LeavesOf(sha, b) {
      LeastIsUnique(s, outputs, a.members, slice.members);
      SliceIgnoresIterationOrder(sha, s, outputs, a, b);
    }
  }

  /**
   The leaves of a trace's slices are the same for every choice of orphan writers exactly when the producers of each
   orphan agree on the tool, unless operations of two slices collide.
   */
  lemma LeavesIgnoreChoiceIff(sha: Sha, root: Instance, events: seq<Event>, outputs: seq<OutputFile>, slice: Slice)
    requires AreObserved(events) && forall h :: h in HashesOf(outputs) ==> IsDigest(h)
    requires IsSlice(FinalScan(root, events), outputs, slice)
    ensures OrphansAgree(FinalScan(root, events), Orphans(FinalScan(root, events), outputs, slice.members)) ==>
      LeavesIgnoreChoice(sha, FinalScan(root, events), outputs)
    ensures LeavesIgnoreChoice(sha, FinalScan(root, events), outputs) ==>
      || OrphansAgree(FinalScan(root, events), Orphans(FinalScan(root, events), outputs, slice.members))
      || SlicesCollide(sha, FinalScan(root, events), outputs)
  {
    var s := FinalScan(root, events);
    if OrphansAgree(s, Orphans(s, outputs, slice.members)) {
      AgreementHidesChoice(sha, s, outputs, slice);
    } else if LeavesIgnoreChoice(sha, s, outputs) {
      var a, b := DifferentSlices(s, outputs, slice);
      assert LeavesOf(sha, a) == LeavesOf(sha, b);
      LeavesDetermineSlice(sha, root, events, outputs, a, root, events, outputs, b);
    }
  }

  // ------------------------------------------------------------------------------------------- traces that disagree

  /** A process runs a tool, and writes one file. */
  function Writing(p: Instance, tool: Digest, path: string, fd: int, h: Digest): seq<Event>
  {
    [Exec(p, Content(tool))] + [FileOpen(p, path, 1, fd, false, Content(h))]
    + [FileClose(p, fd, Some(path), false, Some(Content(h)))]
  }

  /** Two processes with different tools write the same content to two files. */
  function TwoProducers(p: Instance, tool: Digest, path: string, q: Instance, tool': Digest, path': string, fd: int,
      h: Digest): seq<Event>
  {
    Writing(p, tool, path, fd, h) + Writing(q, tool', path', fd, h)
  }

  lemma ScanAppend(root: Instance, pre: seq<Event>, e: Event)
    ensures ScanRun(root, pre + [e]) == ScanStep(root, ScanRun(root, pre), e)
  {
    assert (pre + [e])[..|pre|] == pre;
  }

  /** The scan after a process without a flow wrote a file under its tool. */
  function Written(s: Scan, p: Instance, tool: string, path: string, fd: int, h: string): Scan
  {
    s.(flows := s.flows[p := Flow(Some(tool), true, {}, {h}, {})], pending := s.pending - {(p.lifetime, fd)},
       byHash := Credit(s.byHash, h, p), byPath := Credit(s.byPath, path, p))
  }

  lemma WritingSteps(root: Instance, s: Scan, p: Instance, tool: Digest, path: string, fd: int, h: Digest)
    requires p !in s.flows
    ensures var s1 := ScanStep(root, s, Exec(p, Content(tool)));
            var s2 := ScanStep(root, s1, FileOpen(p, path, 1, fd, false, Content(h)));
            ScanStep(root, s2, FileClose(p, fd, Some(path), false, Some(Content(h))))
            == Written(s, p, tool, path, fd, h)
  {
    var slot, f := (p.lifetime, fd), Flow(Some(tool), true, {}, {}, {});
    var s1 := ScanStep(root, s, Exec(p, Content(tool)));
    assert s1 == s.(flows := s.flows[p := f]);
    var s2 := ScanStep(root, s1, FileOpen(p, path, 1, fd, false, Content(h)));
    assert s2 == s1.(pending := s.pending[slot := Pending(p, path)]);
    assert s2.pending - {slot} == s.pending - {slot};
    assert {} + {h} == {h};
    assert s2.flows[p := f.(output := {h})] == s.flows[p := f.(output := {h})];
  }

  lemma ThreeMore<T>(pre: seq<T>, a: seq<T>, b: seq<T>, c: seq<T>)
    ensures pre + (a + b + c) == pre + a + b + c
  {
  }

  lemma WritingRuns(root: Instance, pre: seq<Event>, p: Instance, tool: Digest, path: string, fd: int, h: Digest)
    requires p !in ScanRun(root, pre).flows
    ensures ScanRun(root, pre + Writing(p, tool, path, fd, h)) == Written(ScanRun(root, pre), p, tool, path, fd, h)
  {
    var exec, open := Exec(p, Content(tool)), FileOpen(p, path, 1, fd, false, Content(h));
    var close := FileClose(p, fd, Some(path), false, Some(Content(h)));
    ScanAppend(root, pre, exec);
    ScanAppend(root, pre + [exec], open);
    ScanAppend(root, pre + [exec] + [open], close);
    WritingSteps(root, ScanRun(root, pre), p, tool, path, fd, h);
    ThreeMore(pre, [exec], [open], [close]);
  }

  lemma TwoProducersRun(root: Instance, p: Instance, tool: Digest, path: string, q: Instance, tool': Digest,
      path': string, fd: int, h: Digest)
    requires p != q
    ensures FinalScan(root, TwoProducers(p, tool, path, q, tool', path', fd, h))
            == Written(Written(START, p, tool, path, fd, h), q, tool', path', fd, h)
  {
    assert [] + Writing(p, tool, path, fd, h) == Writing(p, tool, path, fd, h);
    WritingRuns(root, [], p, tool, path, fd, h);
    WritingRuns(root, Writing(p, tool, path, fd, h), q, tool', path', fd, h);
  }

  lemma NobodyIsLeast(s: Scan, outputs: seq<OutputFile>)
    requires forall i :: 0 <= i < |outputs| ==> Get(s.byPath, outputs[i].path) == {}
    ensures IsLeast(s, outputs, {})
  {
  }

  lemma TwoProducersAreObserved(p: Instance, tool: Digest, path: string, q: Instance, tool': Digest, path': string,
      fd: int, h: Digest)
    ensures AreObserved(TwoProducers(p, tool, path, q, tool', path', fd, h))
  {
    assert forall e :: e in Writing(p, tool, path, fd, h) ==> IsObserved(e);
    assert forall e :: e in Writing(q, tool', path', fd, h) ==> IsObserved(e);
  }

  lemma OneOutput(out: string, h: string)
    ensures HashesOf([OutputFile(out, h)]) == {h}
  {
    assert [OutputFile(out, h)][0].hash == h;
  }

  /** When that content is selected at a third path, both are candidates for it, and they disagree on the tool. */
  lemma TwoProducersDisagree(root: Instance, p: Instance, tool: Digest, path: string, q: Instance, tool': Digest,
      path': string, fd: int, h: Digest, out: string)
    requires p != q && tool != tool' && out != path && out != path'
    ensures var s := FinalScan(root, TwoProducers(p, tool, path, q, tool', path', fd, h));
            var outputs := [OutputFile(out, h)];
            && IsLeast(s, outputs, {}) && h in Orphans(s, outputs, {}) && !OrphansAgree(s, Orphans(s, outputs, {}))
            && ValidChoice(s, Orphans(s, outputs, {}), map[h := p])
  {
    var s := FinalScan(root, TwoProducers(p, tool, path, q, tool', path', fd, h));
    var outputs := [OutputFile(out, h)];
    TwoProducersRun(root, p, tool, path, q, tool', path', fd, h);
    NobodyIsLeast(s, outputs);
    OneOutput(out, h);
    assert ProducedBy(s, {}) == {};
    assert Attributable(s, h, p) && Attributable(s, h, q);
    assert s.flows[p].tool == Some(tool) && s.flows[q].tool == Some(tool');
  }

  /**
   The dependence is real: for all different tools, such a trace has two slices with different operations, and with
   different leaves unless operations of theirs collide.
   */
  lemma ChoiceShows(sha: Sha, root: Instance, p: Instance, tool: Digest, path: string, q: Instance, tool': Digest,
      path': string, fd: int, h: Digest, out: string) returns (a: Slice, b: Slice)
    requires p != q && tool != tool' && out != path && out != path'
    ensures var s := FinalScan(root, TwoProducers(p, tool, path, q, tool', path', fd, h));
            IsSlice(s, [OutputFile(out, h)], a) && IsSlice(s, [OutputFile(out, h)], b)
    ensures ErasedSet(a.emitted) != ErasedSet(b.emitted)
    ensures LeavesOf(sha, a) != LeavesOf(sha, b) || SomeCollide(sha, a.emitted, b.emitted)
  {
    var events, outputs := TwoProducers(p, tool, path, q, tool', path', fd, h), [OutputFile(out, h)];
    var s := FinalScan(root, events);
    TwoProducersDisagree(root, p, tool, path, q, tool', path', fd, h, out);
    TwoProducersAreObserved(p, tool, path, q, tool', path', fd, h);
    OneOutput(out, h);
    var slice := SliceFor(s, outputs, {}, map[h := p]);
    a, b := DifferentSlices(s, outputs, slice);
    if LeavesOf(sha, a) == LeavesOf(sha, b) {
      LeavesDetermineSlice(sha, root, events, outputs, a, root, events, outputs, b);
    }
  }
}
