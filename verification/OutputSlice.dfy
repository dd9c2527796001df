/** Emission of the output slice: what the member processes did with relevant content, orphans, and the exit. */
module OutputSlice {
  import opened Sorting
  import opened Text
  import opened Trace
  import opened Operations
  import opened SliceScan
  import opened SliceWalk

  // ---------------------------------------------------------------------------------------------
  // The emitted operations as a set, process indices left out.

  function ErasedSet(ops: seq<CanonicalOp>): set<CanonicalOp>
  {
    set op | op in ops :: Erase(op)
  }

  function ReadOps(f: Flow, hashes: set<string>): set<CanonicalOp>
  {
    set h | h in hashes :: Op(ReadOp, f.tool, [], [h], [])
  }

  function WriteOps(f: Flow, hashes: set<string>): set<CanonicalOp>
  {
    set h | h in hashes :: Op(WriteOp, f.tool, [], [], [h])
  }

  function RenameOps(f: Flow, hashes: set<string>): set<CanonicalOp>
  {
    set h | h in hashes :: Op(RenameOp, f.tool, [], [h], [h])
  }

  function ExecOps(f: Flow): set<CanonicalOp>
  {
    if f.hasExec && f.tool.Some? then {Op(ExecOp, f.tool, [], [], [])} else {}
  }

  /** What a member with this flow contributes. */
  function FlowOps(f: Flow, relevant: set<string>): set<CanonicalOp>
  {
    ExecOps(f) + ReadOps(f, f.input * relevant) + WriteOps(f, f.output * relevant) + RenameOps(f, f.renamed * relevant)
  }

  function MemberOps(s: Scan, members: set<Instance>, relevant: set<string>): set<CanonicalOp>
  {
    set p, op | p in members && p in s.flows && op in FlowOps(s.flows[p], relevant) :: op
  }

  /** All content that the given processes wrote or renamed. */
  function ProducedBy(s: Scan, members: set<Instance>): set<string>
  {
    set p, h | p in members && p in s.flows && h in s.flows[p].output + s.flows[p].renamed :: h
  }

  function Orphans(s: Scan, outputs: seq<OutputFile>, members: set<Instance>): set<string>
  {
    HashesOf(outputs) - ProducedBy(s, members)
  }

  predicate Attributable(s: Scan, h: string, w: Instance)
  {
    w in Get(s.byHash, h) && w in s.flows && h in s.flows[w].output + s.flows[w].renamed
  }

  /** For every orphan that some process produced, one such process. */
  ghost predicate ValidChoice(s: Scan, orphans: set<string>, choice: map<string, Instance>)
  {
    && (forall h :: h in choice ==> h in orphans && Attributable(s, h, choice[h]))
    && (forall h, w :: h in orphans && Attributable(s, h, w) ==> h in choice)
  }

  function Sentinel(h: string): CanonicalOp
  {
    Op(WriteOp, None, ["output"], [], [h])
  }

  function OrphanOp(s: Scan, choice: map<string, Instance>, h: string): CanonicalOp
  {
    if h in choice then Op(WriteOp, FlowOf(s.flows, choice[h]).tool, [], [], [h]) else Sentinel(h)
  }

  function OrphanOps(s: Scan, orphans: set<string>, choice: map<string, Instance>): set<CanonicalOp>
  {
    set h | h in orphans :: OrphanOp(s, choice, h)
  }

  function ExitOps(s: Scan): set<CanonicalOp>
  {
    match s.rootExit
    case None => {}
    case Some((p, code)) => {Op(ExitOp, FlowOf(s.flows, p).tool, ["exit:" + Signed(code)], [], [])}
  }

  function Relevant(s: Scan, outputs: seq<OutputFile>, members: set<Instance>): set<string>
  {
    HashesOf(outputs) + ReadsOf(s, members)
  }

  function SliceSet(s: Scan, outputs: seq<OutputFile>, members: set<Instance>, choice: map<string, Instance>)
      : set<CanonicalOp>
  {
    MemberOps(s, members, Relevant(s, outputs, members))
    + OrphanOps(s, Orphans(s, outputs, members), choice) + ExitOps(s)
  }

  /** The scan with the rename fixup applied. */
  function FinalScan(root: Instance, events: seq<Event>): Scan
  {
    var s := ScanRun(root, events);
    s.(byPath := Fixup(s.byPath, s.renames))
  }

  datatype Slice = Slice(members: set<Instance>, choice: map<string, Instance>, emitted: seq<CanonicalOp>)

  ghost predicate IsSlice(s: Scan, outputs: seq<OutputFile>, slice: Slice)
  {
    && IsLeast(s, outputs, slice.members)
    && ValidChoice(s, Orphans(s, outputs, slice.members), slice.choice)
    && ErasedSet(slice.emitted) == SliceSet(s, outputs, slice.members, slice.choice)
  }

  // ---------------------------------------------------------------------------------------------
  // The imperative emission.

  /** The derived order on process instances. */
  predicate InstanceLe(a: Instance, b: Instance)
  {
    if a.lifetime.pid != b.lifetime.pid then a.lifetime.pid < b.lifetime.pid
    else if a.lifetime.generation != b.lifetime.generation then a.lifetime.generation < b.lifetime.generation
    else a.epoch <= b.epoch
  }

  method SortInstances(included: set<Instance>) returns (processes: seq<Instance>)
    ensures SortedBy(InstanceLe, processes) && multiset(processes) == multiset(included)
  {
    var rest := included;
    var collected: seq<Instance> := [];
    while rest != {}
      invariant rest <= included && multiset(collected) == multiset(included - rest)
      decreases rest
    {
      var p :| p in rest;
      assert included - (rest - {p}) == (included - rest) + {p};
      collected, rest := collected + [p], rest - {p};
    }
    assert included - rest == included;
    processes := SortBy(InstanceLe, collected);
    SortBySorted(InstanceLe, collected);
  }

  /** The root is process 0; the others are numbered in ascending order. */
  method NumberProcesses(root: Instance, processes: seq<Instance>) returns (index: map<Instance, nat>, next: nat)
    ensures root in index && index[root] == 0
    ensures forall p :: p in processes ==> p in index
    ensures forall p :: p in index ==> index[p] < next
  {
    index, next := map[root := 0], 1;
    for i := 0 to |processes|
      invariant root in index && index[root] == 0
      invariant forall k :: 0 <= k < i ==> processes[k] in index
      invariant forall p :: p in index ==> index[p] < next
    {
      if processes[i] !in index {
        index := index[processes[i] := next];
        next := next + 1;
      }
    }
  }

  lemma AppendErased(ops: seq<CanonicalOp>, op: CanonicalOp)
    ensures ErasedSet(ops + [op]) == ErasedSet(ops) + {Erase(op)}
  {
  }

  /** One of the three sorted loops over the hashes of a flow: emit an operation for every hash that is kept. */
  method EmitHashes(ops: seq<CanonicalOp>, t: OpType, i: nat, f: Flow, hashes: set<string>, kept: set<string>)
      returns (ops': seq<CanonicalOp>)
    requires t.ReadOp? || t.WriteOp? || t.RenameOp?
    ensures ErasedSet(ops') == ErasedSet(ops) +
      match t
      case ReadOp => ReadOps(f, hashes * kept)
      case WriteOp => WriteOps(f, hashes * kept)
      case _ => RenameOps(f, hashes * kept)
  {
    ops' := ops;
    var sorted := SortedHashes(hashes);
    for k := 0 to |sorted|
      invariant ErasedSet(ops') == ErasedSet(ops) + HashOps(t, f, sorted[..k], kept)
    {
      var h := sorted[k];
      HashOpsStep(t, f, sorted, k, kept);
      if h in kept {
        var op := HashOp(t, f, h).(processIndex := i);
        AppendErased(ops', op);
        ops' := ops' + [op];
      }
    }
    AllHashOps(t, f, sorted, hashes, kept);
  }

  function HashOp(t: OpType, f: Flow, h: string): CanonicalOp
  {
    match t
    case ReadOp => Op(ReadOp, f.tool, [], [h], [])
    case WriteOp => Op(WriteOp, f.tool, [], [], [h])
    case _ => Op(RenameOp, f.tool, [], [h], [h])
  }

  ghost function HashOps(t: OpType, f: Flow, hashes: seq<string>, kept: set<string>): set<CanonicalOp>
  {
    set h | h in hashes && h in kept :: HashOp(t, f, h)
  }

  lemma HashOpsStep(t: OpType, f: Flow, hashes: seq<string>, k: nat, kept: set<string>)
    requires k < |hashes|
    ensures HashOps(t, f, hashes[..k + 1], kept) ==
      HashOps(t, f, hashes[..k], kept) + if hashes[k] in kept then {HashOp(t, f, hashes[k])} else {}
  {
    assert hashes[..k + 1] == hashes[..k] + [hashes[k]];
  }

  lemma AllHashOps(t: OpType, f: Flow, sorted: seq<string>, hashes: set<string>, kept: set<string>)
    requires Elements(sorted) == hashes && (t.ReadOp? || t.WriteOp? || t.RenameOp?)
    ensures HashOps(t, f, sorted[..|sorted|], kept) ==
      match t
      case ReadOp => ReadOps(f, hashes * kept)
      case WriteOp => WriteOps(f, hashes * kept)
      case _ => RenameOps(f, hashes * kept)
  {
    assert sorted[..|sorted|] == sorted;
    assert forall h :: h in sorted <==> h in hashes;
    assert HashOps(t, f, sorted, kept) == set h | h in hashes * kept :: HashOp(t, f, h);
  }

  /** All that one member emits; the selected hashes it produced are no longer remaining. */
  method EmitMember(ops: seq<CanonicalOp>, i: nat, f: Flow, relevant: set<string>, remaining: set<string>)
      returns (ops': seq<CanonicalOp>, remaining': set<string>)
    requires remaining <= relevant
    ensures ErasedSet(ops') == ErasedSet(ops) + FlowOps(f, relevant)
    ensures remaining' == remaining - (f.output + f.renamed)
  {
    ops' := ops;
    if f.hasExec && f.tool.Some? {
      var op := Op(ExecOp, f.tool, [], [], []).(processIndex := i);
      AppendErased(ops', op);
      ops' := ops' + [op];
    }
    assert ErasedSet(ops') == ErasedSet(ops) + ExecOps(f);
    ops' := EmitHashes(ops', ReadOp, i, f, f.input, relevant);
    assert relevant + remaining == relevant;
    ops' := EmitHashes(ops', WriteOp, i, f, f.output, relevant + remaining);
    remaining' := remaining - f.output;
    assert relevant + remaining' == relevant;
    ops' := EmitHashes(ops', RenameOp, i, f, f.renamed, relevant + remaining');
    remaining' := remaining' - f.renamed;
  }

  lemma MemberOpsStep(s: Scan, done: set<Instance>, p: Instance, relevant: set<string>)
    ensures MemberOps(s, done + {p}, relevant) ==
      MemberOps(s, done, relevant) + if p in s.flows then FlowOps(s.flows[p], relevant) else {}
    ensures ProducedBy(s, done + {p}) ==
      ProducedBy(s, done) + if p in s.flows then s.flows[p].output + s.flows[p].renamed else {}
  {
  }

  lemma PrefixElements<T>(s: seq<T>, i: nat)
    requires i < |s|
    ensures Elements(s[..i + 1]) == Elements(s[..i]) + {s[i]}
  {
    assert s[..i + 1] == s[..i] + [s[i]];
  }

  method EmitMembers(s: Scan, outputs: seq<OutputFile>, processes: seq<Instance>, index: map<Instance, nat>,
        relevant: set<string>)
      returns (ops: seq<CanonicalOp>, remaining: set<string>)
    requires HashesOf(outputs) <= relevant && forall p :: p in processes ==> p in index
    ensures ErasedSet(ops) == MemberOps(s, Elements(processes), relevant)
    ensures remaining == Orphans(s, outputs, Elements(processes))
  {
    ops, remaining := [], HashesOf(outputs);
    for i := 0 to |processes|
      invariant remaining <= relevant
      invariant ErasedSet(ops) == MemberOps(s, Elements(processes[..i]), relevant)
      invariant remaining == HashesOf(outputs) - ProducedBy(s, Elements(processes[..i]))
    {
      PrefixElements(processes, i);
      MemberOpsStep(s, Elements(processes[..i]), processes[i], relevant);
      if processes[i] in s.flows {
        ops, remaining := EmitMember(ops, index[processes[i]], s.flows[processes[i]], relevant, remaining);
      }
    }
    assert processes[..|processes|] == processes;
  }

  /** Search the recorded writers, in any order, for one that produced the content. */
  method FindWriter(s: Scan, h: string) returns (found: Option<Instance>)
    ensures found.Some? ==> Attributable(s, h, found.value)
    ensures found.None? ==> forall w :: !Attributable(s, h, w)
  {
    found := None;
    var rest := Get(s.byHash, h);
    while rest != {}
      invariant rest <= Get(s.byHash, h)
      invariant forall w :: w in Get(s.byHash, h) && w !in rest ==> !Attributable(s, h, w)
      decreases rest
    {
      var w :| w in rest;
      if w in s.flows && (h in s.flows[w].output || h in s.flows[w].renamed) {
        return Some(w);
      }
      rest := rest - {w};
    }
  }

  method EmitOrphans(s: Scan, orphans: set<string>, ops: seq<CanonicalOp>, index: map<Instance, nat>, next: nat)
      returns (ops': seq<CanonicalOp>, index': map<Instance, nat>, next': nat, ghost choice: map<string, Instance>)
    ensures ValidChoice(s, orphans, choice)
    ensures ErasedSet(ops') == ErasedSet(ops) + OrphanOps(s, orphans, choice)
    ensures index.Keys <= index'.Keys
  {
    ops', index', next', choice := ops, index, next, map[];
    var sorted := SortedHashes(orphans);
    for k := 0 to |sorted|
      invariant choice.Keys <= Elements(sorted[..k]) && index.Keys <= index'.Keys
      invariant ValidChoice(s, Elements(sorted[..k]), choice)
      invariant ErasedSet(ops') == ErasedSet(ops) + OrphanOps(s, Elements(sorted[..k]), choice)
    {
      var h := sorted[k];
      PrefixElements(sorted, k);
      NotYetListed(sorted, k);
      ghost var before := choice;
      var found := FindWriter(s, h);
      var op;
      if found.Some? {
        if found.value !in index' {
          index' := index'[found.value := next'];
          next' := next' + 1;
        }
        op := Op(WriteOp, FlowOf(s.flows, found.value).tool, [], [], [h]).(processIndex := index'[found.value]);
        choice := choice[h := found.value];
      } else {
        op := Sentinel(h).(processIndex := U32_MAX);
      }
      OrphanOpsStep(s, Elements(sorted[..k]), before, choice, h);
      AppendErased(ops', op);
      ops' := ops' + [op];
    }
    assert sorted[..|sorted|] == sorted;
  }

  lemma NotYetListed(sorted: seq<string>, k: nat)
    requires StrictlyAscending(sorted) && k < |sorted|
    ensures sorted[k] !in Elements(sorted[..k])
  {
  }

  lemma OrphanOpsStep(s: Scan, done: set<string>, before: map<string, Instance>, choice: map<string, Instance>,
        h: string)
    requires h !in done
    requires forall g :: g in done ==> (g in before <==> g in choice) && (g in before ==> before[g] == choice[g])
    ensures OrphanOps(s, done + {h}, choice) == OrphanOps(s, done, before) + {OrphanOp(s, choice, h)}
  {
    assert forall g :: g in done ==> OrphanOp(s, choice, g) == OrphanOp(s, before, g);
    assert OrphanOps(s, done + {h}, choice) == OrphanOps(s, done, choice) + {OrphanOp(s, choice, h)};
  }

  /** The root's exit, if the trace has one. */
  method EmitExit(s: Scan, ops: seq<CanonicalOp>, index: map<Instance, nat>) returns (ops': seq<CanonicalOp>)
    requires s.rootExit.Some? ==> s.rootExit.value.0 in index
    ensures ErasedSet(ops') == ErasedSet(ops) + ExitOps(s)
  {
    ops' := ops;
    if s.rootExit.Some? {
      var (process, exitCode) := s.rootExit.value;
      var op := Op(ExitOp, FlowOf(s.flows, process).tool, ["exit:" + Signed(exitCode)], [], []);
      AppendErased(ops, op.(processIndex := index[process]));
      ops' := ops + [op.(processIndex := index[process])];
    }
  }

  /** From the walk to the last operation. */
  method EmitSlice(s: Scan, root: Instance, outputs: seq<OutputFile>)
        returns (ops: seq<CanonicalOp>, ghost slice: Slice)
    ensures IsSlice(s, outputs, slice) && ops == slice.emitted
  {
    var included, relevant := Walk(s, outputs);
    var processes := SortInstances(included);
    MultisetElements(processes, included);
    var index, next := NumberProcesses(root, processes);
    if s.rootExit.Some? && s.rootExit.value.0 !in index {
      index := index[s.rootExit.value.0 := next];
    }
    var orphans;
    ops, orphans := EmitMembers(s, outputs, processes, index, relevant);
    ghost var choice;
    ops, index, next, choice := EmitOrphans(s, orphans, ops, index, next);
    ops := EmitExit(s, ops, index);
    slice := Slice(included, choice, ops);
  }

  /** `canonicalize_output_slice`. */
  method CanonicalizeOutputSlice(sha: Sha, events: seq<Event>, root: Instance, outputs: seq<OutputFile>)
      returns (result: seq<CanonicalOp>, ghost slice: Slice)
    ensures outputs == [] ==> result == []
    ensures outputs != [] ==>
      IsSlice(FinalScan(root, events), outputs, slice) && result == Finalized(sha, slice.emitted)
  {
    var s := ScanEvents(root, events);
    var byPath := ReapplyRenames(s.byPath, s.renames);
    if outputs == [] {
      return [], Slice({}, map[], []);
    }
    var ops;
    ops, slice := EmitSlice(s.(byPath := byPath), root, outputs);
    result := FinalizeOps(sha, ops);
  }

  lemma MultisetElements(processes: seq<Instance>, included: set<Instance>)
    requires multiset(processes) == multiset(included)
    ensures Elements(processes) == included
  {
    forall p ensures p in processes <==> p in included {
      assert p in processes <==> p in multiset(processes);
    }
  }
}
