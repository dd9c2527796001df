/**
 The leaves of an output slice depend neither on process identifiers nor on the iteration order of any hash map:
 two slices of renamed copies of one trace (in particular two slices of the same trace) have equal leaves.
 */
module SliceDeterminism {
  import opened Text
  import opened Trace
  import opened Operations
  import opened Descriptors
  import opened PidIndependence
  import opened SliceScan
  import opened SlicePaths
  import opened SliceWalk
  import opened OutputSlice

  function LiftSet(f: Renaming, s: set<Instance>): set<Instance>
  {
    set p | p in s :: Lift(f, p)
  }

  ghost predicate SameWriters(f: Renaming, m: Writers, n: Writers)
  {
    forall k :: Get(n, k) == LiftSet(f, Get(m, k))
  }

  function LiftPending(f: Renaming, e: Pending): Pending
  {
    e.(process := Lift(f, e.process))
  }

  ghost predicate SamePending(f: Renaming, m: map<Slot, Pending>, n: map<Slot, Pending>)
  {
    forall l, fd {:trigger (l, fd) in m} {:trigger (f(l), fd) in n} ::
      ((l, fd) in m <==> (f(l), fd) in n) && ((l, fd) in m ==> n[(f(l), fd)] == LiftPending(f, m[(l, fd)]))
  }

  function LiftExit(f: Renaming, x: Option<(Instance, int)>): Option<(Instance, int)>
  {
    match x case None => None case Some((p, code)) => Some((Lift(f, p), code))
  }

  /** The scans differ only by the renaming. */
  ghost predicate SameScan(f: Renaming, s: Scan, t: Scan)
  {
    && SameByInstance(f, s.flows, t.flows)
    && SamePending(f, s.pending, t.pending)
    && SameWriters(f, s.byHash, t.byHash) && SameWriters(f, s.byPath, t.byPath)
    && s.renames == t.renames
    && t.rootExit == LiftExit(f, s.rootExit)
  }

  lemma SameFlow(f: Renaming, m: map<Instance, Flow>, n: map<Instance, Flow>, p: Instance)
    requires SameByInstance(f, m, n)
    ensures FlowOf(n, Lift(f, p)) == FlowOf(m, p)
    ensures p in m <==> Lift(f, p) in n
  {
    assert p in m <==> Lift(f, p) in n;
  }

  lemma SameCredit(f: Renaming, m: Writers, n: Writers, k: string, p: Instance)
    requires SameWriters(f, m, n)
    ensures SameWriters(f, Credit(m, k, p), Credit(n, k, Lift(f, p)))
  {
    forall h ensures Get(Credit(n, k, Lift(f, p)), h) == LiftSet(f, Get(Credit(m, k, p), h)) {
      assert Get(n, h) == LiftSet(f, Get(m, h));
      LiftUnion(f, Get(m, k), {p});
      assert LiftSet(f, {p}) == {Lift(f, p)};
    }
  }

  lemma LiftUnion(f: Renaming, a: set<Instance>, b: set<Instance>)
    ensures LiftSet(f, a + b) == LiftSet(f, a) + LiftSet(f, b)
  {
  }

  lemma SameAlias(f: Renaming, m: Writers, n: Writers, from: string, to: string)
    requires SameWriters(f, m, n)
    ensures SameWriters(f, Alias(m, from, to), Alias(n, from, to))
  {
    forall q ensures Get(Alias(n, from, to), q) == LiftSet(f, Get(Alias(m, from, to), q)) {
      AliasAt(m, from, to, q);
      AliasAt(n, from, to, q);
      LiftUnion(f, Get(m, q), Gained(m, from, to, q));
      assert Get(n, q) == LiftSet(f, Get(m, q));
      assert Gained(n, from, to, q) == LiftSet(f, Gained(m, from, to, q));
    }
  }

  lemma SamePut(f: Renaming, g: Renaming, m: map<Slot, Pending>, n: map<Slot, Pending>, l: Lifetime, fd: int,
        e: Pending)
    requires Undoes(g, f) && SamePending(f, m, n)
    ensures SamePending(f, m[(l, fd) := e], n[(f(l), fd) := LiftPending(f, e)])
  {
  }

  lemma SameDrop(f: Renaming, g: Renaming, m: map<Slot, Pending>, n: map<Slot, Pending>, l: Lifetime, fd: int)
    requires Undoes(g, f) && SamePending(f, m, n)
    ensures SamePending(f, m - {(l, fd)}, n - {(f(l), fd)})
  {
  }

  lemma SameInheritance(f: Renaming, g: Renaming, m: map<Slot, Pending>, n: map<Slot, Pending>, pl: Lifetime,
        cl: Lifetime)
    requires Undoes(g, f) && SamePending(f, m, n)
    ensures SamePending(f, Inherit(m, pl, cl), Inherit(n, f(pl), f(cl)))
  {
  }

  lemma SameMoves(f: Renaming, m: map<Slot, Pending>, n: map<Slot, Pending>, from: string, to: string)
    requires SamePending(f, m, n)
    ensures SamePending(f, MovePending(m, from, to), MovePending(n, from, to))
  {
  }

  lemma SameFlowUpdate(f: Renaming, g: Renaming, s: Scan, t: Scan, p: Instance, flow: Flow)
    requires Undoes(g, f) && SameScan(f, s, t)
    ensures SameScan(f, s.(flows := s.flows[p := flow]), t.(flows := t.flows[Lift(f, p) := flow]))
  {
    SameUpdate(f, g, s.flows, t.flows, p, flow);
  }

  lemma SameAddRead(f: Renaming, g: Renaming, s: Scan, t: Scan, p: Instance, hash: Option<string>)
    requires Undoes(g, f) && SameScan(f, s, t)
    ensures SameScan(f, AddRead(s, p, hash), AddRead(t, Lift(f, p), hash))
  {
    SameFlow(f, s.flows, t.flows, p);
    if hash.Some? {
      var flow := FlowOf(s.flows, p);
      SameFlowUpdate(f, g, s, t, p, flow.(input := flow.input + {hash.value}));
    }
  }

  lemma SamePutScan(f: Renaming, g: Renaming, s: Scan, t: Scan, l: Lifetime, fd: int, e: Pending)
    requires Undoes(g, f) && SameScan(f, s, t)
    ensures SameScan(f, s.(pending := s.pending[(l, fd) := e]),
                     t.(pending := t.pending[(f(l), fd) := LiftPending(f, e)]))
  {
    SamePut(f, g, s.pending, t.pending, l, fd, e);
  }

  lemma SameDropScan(f: Renaming, g: Renaming, s: Scan, t: Scan, l: Lifetime, fd: int)
    requires Undoes(g, f) && SameScan(f, s, t)
    ensures SameScan(f, s.(pending := s.pending - {(l, fd)}), t.(pending := t.pending - {(f(l), fd)}))
  {
    SameDrop(f, g, s.pending, t.pending, l, fd);
  }

  lemma SameProduct(f: Renaming, g: Renaming, s: Scan, t: Scan, p: Instance, flow: Flow, h: string)
    requires Undoes(g, f) && SameScan(f, s, t)
    ensures SameScan(f, AddProduct(s, p, flow, h), AddProduct(t, Lift(f, p), flow, h))
  {
    SameUpdate(f, g, s.flows, t.flows, p, flow);
    SameCredit(f, s.byHash, t.byHash, h, p);
  }

  lemma SameBookPath(f: Renaming, s: Scan, t: Scan, p: Instance, path: string)
    requires SameScan(f, s, t)
    ensures SameScan(f, BookPath(s, p, path), BookPath(t, Lift(f, p), path))
  {
    SameCredit(f, s.byPath, t.byPath, path, p);
  }

  lemma SameBook(f: Renaming, g: Renaming, s: Scan, t: Scan, p: Instance, path: string, o: Observation)
    requires Undoes(g, f) && SameScan(f, s, t)
    ensures SameScan(f, Book(s, p, path, o), Book(t, Lift(f, p), path, o))
  {
    SameBookPath(f, s, t, p, path);
    SameFlow(f, s.flows, t.flows, p);
    if o.Content? {
      var flow := FlowOf(s.flows, p);
      var more := flow.(output := flow.output + {o.hash});
      SameProduct(f, g, BookPath(s, p, path), BookPath(t, Lift(f, p), path), p, more, o.hash);
      assert Book(s, p, path, o) == AddProduct(BookPath(s, p, path), p, more, o.hash);
      assert Book(t, Lift(f, p), path, o) == AddProduct(BookPath(t, Lift(f, p), path), Lift(f, p), more, o.hash);
    }
  }

  lemma SameOpen(f: Renaming, g: Renaming, s: Scan, t: Scan, e: Event)
    requires Undoes(g, f) && SameScan(f, s, t) && e.FileOpen?
    ensures SameScan(f, OnOpen(s, e), OnOpen(t, RenameEvent(f, e)))
  {
    var p := e.process;
    SameAddRead(f, g, s, t, p, ReadHash(e.path, e.observation));
    var s1 := if CanRead(e.flags) then AddRead(s, p, ReadHash(e.path, e.observation)) else s;
    var t1 := if CanRead(e.flags) then AddRead(t, Lift(f, p), ReadHash(e.path, e.observation)) else t;
    SamePutScan(f, g, s1, t1, p.lifetime, e.fd, Pending(p, e.path));
  }

  lemma SameMapping(f: Renaming, g: Renaming, s: Scan, t: Scan, p: Instance, fd: int, path: string,
        hash: Option<string>)
    requires Undoes(g, f) && SameScan(f, s, t)
    ensures var s1, t1 := AddRead(s, p, hash), AddRead(t, Lift(f, p), hash);
            && SameScan(f, s1, t1)
            && SameScan(f, s1.(pending := s1.pending[(p.lifetime, fd) := Pending(p, path)]),
                           t1.(pending := t1.pending[(f(p.lifetime), fd) := Pending(Lift(f, p), path)]))
  {
    SameAddRead(f, g, s, t, p, hash);
    SamePutScan(f, g, AddRead(s, p, hash), AddRead(t, Lift(f, p), hash), p.lifetime, fd, Pending(p, path));
  }

  lemma SameMmap(f: Renaming, g: Renaming, s: Scan, t: Scan, e: Event)
    requires Undoes(g, f) && SameScan(f, s, t) && e.FileMmap?
    ensures SameScan(f, OnMmap(s, e), OnMmap(t, RenameEvent(f, e)))
  {
    if !e.external && e.mapped.Some? && e.seen.Some? {
      SameMapping(f, g, s, t, e.process, e.fd, e.mapped.value, ReadHash(e.mapped.value, e.seen.value));
    }
  }

  lemma SameLookup(f: Renaming, m: map<Slot, Pending>, n: map<Slot, Pending>, l: Lifetime, fd: int)
    requires SamePending(f, m, n)
    ensures (l, fd) in m <==> (f(l), fd) in n
    ensures (l, fd) in m ==> n[(f(l), fd)] == LiftPending(f, m[(l, fd)])
  {
  }

  lemma SameClose(f: Renaming, g: Renaming, s: Scan, t: Scan, e: Event)
    requires Undoes(g, f) && SameScan(f, s, t) && e.FileClose?
    ensures SameScan(f, OnClose(s, e), OnClose(t, RenameEvent(f, e)))
  {
    var l, fd := e.process.lifetime, e.fd;
    SameLookup(f, s.pending, t.pending, l, fd);
    if !e.external && (l, fd) in s.pending {
      var entry := s.pending[(l, fd)];
      SameDropScan(f, g, s, t, l, fd);
      var s1, t1 := s.(pending := s.pending - {(l, fd)}), t.(pending := t.pending - {(f(l), fd)});
      if e.seen.Some? {
        SameBook(f, g, s1, t1, entry.process, if e.closed.Some? then e.closed.value else entry.path, e.seen.value);
      }
    }
  }

  lemma SameMovePaths(f: Renaming, s: Scan, t: Scan, p: Instance, from: string, to: string)
    requires SameScan(f, s, t)
    ensures SameScan(f, MovePaths(s, p, from, to), MovePaths(t, Lift(f, p), from, to))
  {
    SameMoves(f, s.pending, t.pending, from, to);
    SameAlias(f, s.byPath, t.byPath, from, to);
    SameCredit(f, Alias(s.byPath, from, to), Alias(t.byPath, from, to), to, p);
  }

  lemma SameRename(f: Renaming, g: Renaming, s: Scan, t: Scan, e: Event)
    requires Undoes(g, f) && SameScan(f, s, t) && e.FileRename?
    ensures SameScan(f, OnRename(s, e), OnRename(t, RenameEvent(f, e)))
  {
    if !e.external {
      var p, q := e.process, Lift(f, e.process);
      SameMovePaths(f, s, t, p, e.from, e.to);
      SameFlow(f, s.flows, t.flows, p);
      var s1, t1 := MovePaths(s, p, e.from, e.to), MovePaths(t, q, e.from, e.to);
      if e.observation.Content? {
        var flow, h := FlowOf(s.flows, p), e.observation.hash;
        var moved := flow.(input := flow.input + {h}, renamed := flow.renamed + {h});
        SameProduct(f, g, s1, t1, p, moved, h);
        assert OnRename(s, e) == AddProduct(s1, p, moved, h);
        assert OnRename(t, RenameEvent(f, e)) == AddProduct(t1, q, moved, h);
      } else {
        assert OnRename(s, e) == s1 && OnRename(t, RenameEvent(f, e)) == t1;
      }
    }
  }

  lemma SameForkScan(f: Renaming, g: Renaming, s: Scan, t: Scan, e: Event)
    requires Undoes(g, f) && SameScan(f, s, t) && e.Fork?
    ensures SameScan(f, OnFork(s, e), OnFork(t, RenameEvent(f, e)))
  {
    SameFlow(f, s.flows, t.flows, e.parent);
    SameFlow(f, s.flows, t.flows, e.child);
    var tool := if e.parent in s.flows then s.flows[e.parent].tool else None;
    SameFlowUpdate(f, g, s, t, e.child, FlowOf(s.flows, e.child).(tool := tool));
    SameInheritance(f, g, s.pending, t.pending, e.parent.lifetime, e.child.lifetime);
  }

  lemma SameScanStep(f: Renaming, g: Renaming, root: Instance, s: Scan, t: Scan, e: Event)
    requires Undoes(g, f) && SameScan(f, s, t)
    ensures SameScan(f, ScanStep(root, s, e), ScanStep(Lift(f, root), t, RenameEvent(f, e)))
  {
    match e
    case Exec(p, o) =>
      SameFlow(f, s.flows, t.flows, p);
      SameFlowUpdate(f, g, s, t, p, FlowOf(s.flows, p).(tool := Some(o.Identity()), hasExec := true));
    case Fork(_, _) => SameForkScan(f, g, s, t, e);
    case FileOpen(_, _, _, _, _, _) => SameOpen(f, g, s, t, e);
    case FileMmap(_, _, _, _, _, _, _) => SameMmap(f, g, s, t, e);
    case FileClose(_, _, _, _, _) => SameClose(f, g, s, t, e);
    case FileRename(_, _, _, _, _, _) => SameRename(f, g, s, t, e);
    case FileUnlink(_, _, _, _, _) =>
    case Exit(p, _) => assert f(p.lifetime) == f(root.lifetime) <==> p.lifetime == root.lifetime;
  }

  lemma {:induction false} SameScanRun(f: Renaming, g: Renaming, root: Instance, events: seq<Event>)
    requires Undoes(g, f)
    ensures SameScan(f, ScanRun(root, events), ScanRun(Lift(f, root), RenameTrace(f, events)))
  {
    if events != [] {
      var n := |events| - 1;
      assert RenameTrace(f, events)[..n] == RenameTrace(f, events[..n]);
      SameScanRun(f, g, root, events[..n]);
      SameScanStep(f, g, root, ScanRun(root, events[..n]), ScanRun(Lift(f, root), RenameTrace(f, events[..n])),
        events[n]);
    }
  }

  lemma {:induction false} SameFixup(f: Renaming, m: Writers, n: Writers, renames: Renames)
    requires SameWriters(f, m, n)
    ensures SameWriters(f, Fixup(m, renames), Fixup(n, renames))
    decreases renames
  {
    if renames != [] {
      SameAlias(f, m, n, renames[0].0, renames[0].1);
      SameFixup(f, Alias(m, renames[0].0, renames[0].1), Alias(n, renames[0].0, renames[0].1), renames[1..]);
    }
  }

  lemma SameFinalScan(f: Renaming, g: Renaming, root: Instance, events: seq<Event>)
    requires Undoes(g, f)
    ensures SameScan(f, FinalScan(root, events), FinalScan(Lift(f, root), RenameTrace(f, events)))
  {
    SameScanRun(f, g, root, events);
    SameFixup(f, ScanRun(root, events).byPath, ScanRun(Lift(f, root), RenameTrace(f, events)).byPath,
      ScanRun(root, events).renames);
  }

  // ---------------------------------------------------------------------------------------------
  // The walk and the emission respect the renaming.

  lemma LiftedIsClosed(f: Renaming, s: Scan, t: Scan, outputs: seq<OutputFile>, members: set<Instance>)
    requires SameScan(f, s, t) && IsClosed(s, outputs, members)
    ensures IsClosed(t, outputs, LiftSet(f, members))
  {
    var lifted := LiftSet(f, members);
    forall i | 0 <= i < |outputs| ensures Get(t.byPath, outputs[i].path) <= lifted {
      assert Get(t.byPath, outputs[i].path) == LiftSet(f, Get(s.byPath, outputs[i].path));
    }
    forall q, h | q in lifted && q in t.flows && h in t.flows[q].input && h !in HashesOf(outputs)
      ensures Get(t.byHash, h) <= lifted
    {
      var p :| p in members && q == Lift(f, p);
      SameFlow(f, s.flows, t.flows, p);
      assert Get(t.byHash, h) == LiftSet(f, Get(s.byHash, h));
    }
  }

  function Unlifted(f: Renaming, members: set<Instance>, lifted: set<Instance>): set<Instance>
  {
    set p | p in members && Lift(f, p) in lifted
  }

  lemma PreimageIsClosed(f: Renaming, g: Renaming, s: Scan, t: Scan, outputs: seq<OutputFile>,
        members: set<Instance>, lifted: set<Instance>)
    requires Undoes(g, f) && SameScan(f, s, t) && IsClosed(s, outputs, members) && IsClosed(t, outputs, lifted)
    ensures IsClosed(s, outputs, Unlifted(f, members, lifted))
  {
    var pre := Unlifted(f, members, lifted);
    forall i | 0 <= i < |outputs| ensures Get(s.byPath, outputs[i].path) <= pre {
      assert Get(t.byPath, outputs[i].path) == LiftSet(f, Get(s.byPath, outputs[i].path));
      forall p | p in Get(s.byPath, outputs[i].path) ensures p in pre {
        assert Lift(f, p) in LiftSet(f, Get(s.byPath, outputs[i].path));
      }
    }
    forall p, h | p in pre && p in s.flows && h in s.flows[p].input && h !in HashesOf(outputs)
      ensures Get(s.byHash, h) <= pre
    {
      SameFlow(f, s.flows, t.flows, p);
      assert Get(t.byHash, h) == LiftSet(f, Get(s.byHash, h));
      forall w | w in Get(s.byHash, h) ensures w in pre {
        assert Lift(f, w) in LiftSet(f, Get(s.byHash, h));
      }
    }
  }

  lemma SameMembers(f: Renaming, g: Renaming, s: Scan, t: Scan, outputs: seq<OutputFile>,
        members: set<Instance>, lifted: set<Instance>)
    requires Undoes(g, f) && SameScan(f, s, t) && IsLeast(s, outputs, members) && IsLeast(t, outputs, lifted)
    ensures lifted == LiftSet(f, members)
  {
    LiftedIsClosed(f, s, t, outputs, members);
    PreimageIsClosed(f, g, s, t, outputs, members, lifted);
  }

  lemma SameMemberSets(f: Renaming, s: Scan, t: Scan, members: set<Instance>, relevant: set<string>)
    requires SameScan(f, s, t)
    ensures ReadsOf(t, LiftSet(f, members)) == ReadsOf(s, members)
    ensures ProducedBy(t, LiftSet(f, members)) == ProducedBy(s, members)
    ensures MemberOps(t, LiftSet(f, members), relevant) == MemberOps(s, members, relevant)
  {
    var lifted := LiftSet(f, members);
    forall p | p in members
      ensures Lift(f, p) in lifted && (p in s.flows <==> Lift(f, p) in t.flows)
      ensures p in s.flows ==> t.flows[Lift(f, p)] == s.flows[p]
    {
      SameFlow(f, s.flows, t.flows, p);
    }
    forall q | q in lifted ensures exists p :: p in members && Lift(f, p) == q {}
  }

  /** Whichever writer the orphan fallback finds, the operation is the same: candidates agree on the tool. */
  ghost predicate OrphansAgree(s: Scan, orphans: set<string>)
  {
    forall h, v, w :: h in orphans && Attributable(s, h, v) && Attributable(s, h, w) ==>
      s.flows[v].tool == s.flows[w].tool
  }

  lemma SameAttributable(f: Renaming, g: Renaming, s: Scan, t: Scan, h: string, w: Instance)
    requires Undoes(g, f) && SameScan(f, s, t)
    ensures Attributable(s, h, w) <==> Attributable(t, h, Lift(f, w))
    ensures Attributable(s, h, w) ==> t.flows[Lift(f, w)] == s.flows[w]
  {
    SameFlow(f, s.flows, t.flows, w);
    assert Get(t.byHash, h) == LiftSet(f, Get(s.byHash, h));
    if Lift(f, w) in LiftSet(f, Get(s.byHash, h)) {
      var v :| v in Get(s.byHash, h) && Lift(f, v) == Lift(f, w);
      assert g(f(v.lifetime)) == g(f(w.lifetime));
      assert v == w;
    }
    if w in Get(s.byHash, h) { assert Lift(f, w) in LiftSet(f, Get(s.byHash, h)); }
  }

  lemma AttributableIsLifted(f: Renaming, g: Renaming, s: Scan, t: Scan, h: string, v: Instance) returns (w: Instance)
    requires Undoes(g, f) && SameScan(f, s, t) && Attributable(t, h, v)
    ensures v == Lift(f, w) && Attributable(s, h, w) && t.flows[v] == s.flows[w]
  {
    assert Get(t.byHash, h) == LiftSet(f, Get(s.byHash, h));
    w :| w in Get(s.byHash, h) && Lift(f, w) == v;
    SameAttributable(f, g, s, t, h, w);
  }

  lemma SameOrphanOp(f: Renaming, g: Renaming, s: Scan, t: Scan, orphans: set<string>,
                     choice: map<string, Instance>, other: map<string, Instance>, h: string)
    requires Undoes(g, f) && SameScan(f, s, t) && OrphansAgree(s, orphans) && h in orphans
    requires ValidChoice(s, orphans, choice) && ValidChoice(t, orphans, other)
    ensures OrphanOp(t, other, h) == OrphanOp(s, choice, h)
  {
    if h in choice { SameAttributable(f, g, s, t, h, choice[h]); }
    if h in other {
      var w := AttributableIsLifted(f, g, s, t, h, other[h]);
      assert h in choice;
      assert s.flows[w].tool == s.flows[choice[h]].tool;
    }
  }

  lemma SameOrphanOps(f: Renaming, g: Renaming, s: Scan, t: Scan, orphans: set<string>,
                      choice: map<string, Instance>, other: map<string, Instance>)
    requires Undoes(g, f) && SameScan(f, s, t) && OrphansAgree(s, orphans)
    requires ValidChoice(s, orphans, choice) && ValidChoice(t, orphans, other)
    ensures OrphanOps(t, orphans, other) == OrphanOps(s, orphans, choice)
  {
    forall h | h in orphans ensures OrphanOp(t, other, h) == OrphanOp(s, choice, h) {
      SameOrphanOp(f, g, s, t, orphans, choice, other, h);
    }
  }

  lemma SameExitOps(f: Renaming, s: Scan, t: Scan)
    requires SameScan(f, s, t)
    ensures ExitOps(t) == ExitOps(s)
  {
    if s.rootExit.Some? { SameFlow(f, s.flows, t.flows, s.rootExit.value.0); }
  }

  lemma SameSliceSet(f: Renaming, g: Renaming, s: Scan, t: Scan, outputs: seq<OutputFile>, a: Slice, b: Slice)
    requires Undoes(g, f) && SameScan(f, s, t) && IsSlice(s, outputs, a) && IsSlice(t, outputs, b)
    requires OrphansAgree(s, Orphans(s, outputs, a.members))
    ensures ErasedSet(a.emitted) == ErasedSet(b.emitted)
  {
    SameMembers(f, g, s, t, outputs, a.members, b.members);
    SameMemberSets(f, s, t, a.members, Relevant(s, outputs, a.members));
    assert Orphans(t, outputs, b.members) == Orphans(s, outputs, a.members);
    SameOrphanOps(f, g, s, t, Orphans(s, outputs, a.members), a.choice, b.choice);
    SameExitOps(f, s, t);
  }

  lemma SameErasedSameLeaves(sha: Sha, ops: seq<CanonicalOp>, others: seq<CanonicalOp>)
    requires ErasedSet(ops) == ErasedSet(others)
    ensures Leaves(sha, Finalized(sha, ops)) == Leaves(sha, Finalized(sha, others))
  {
    ErasedCovers(ops, others);
    ErasedCovers(others, ops);
    LeavesIgnoreOrderAndCount(sha, ops, others);
  }

  lemma ErasedCovers(ops: seq<CanonicalOp>, others: seq<CanonicalOp>)
    requires ErasedSet(ops) == ErasedSet(others)
    ensures CoveredBy(ops, others)
  {
    forall op | op in ops ensures exists other :: other in others && SameUpToFieldOrder(op, other) {
      assert Erase(op) in ErasedSet(others);
      var other :| other in others && Erase(other) == Erase(op);
      assert other.args == op.args && other.inputs == op.inputs && other.outputs == op.outputs;
      assert SameUpToFieldOrder(op, other);
    }
  }

  /**
   Slices of a trace and of a copy whose lifetimes are renamed but kept apart have the same leaves, provided that the
   candidate writers of every orphan agree on the tool, in particular when there is at most one candidate.
   */
  lemma SliceIgnoresPidsAndIterationOrder(sha: Sha, f: Renaming, root: Instance, events: seq<Event>,
                                          outputs: seq<OutputFile>, a: Slice, b: Slice)
    requires InjectiveOn(f, NamedIn(root, events))
    requires IsSlice(FinalScan(root, events), outputs, a)
    requires IsSlice(FinalScan(Lift(f, root), RenameTrace(f, events)), outputs, b)
    requires OrphansAgree(FinalScan(root, events), Orphans(FinalScan(root, events), outputs, a.members))
    ensures Leaves(sha, Finalized(sha, a.emitted)) == Leaves(sha, Finalized(sha, b.emitted))
  {
    var total, g := RenamingExtends(f, root, events);
    SameFinalScan(total, g, root, events);
    SameSliceSet(total, g, FinalScan(root, events), FinalScan(Lift(f, root), RenameTrace(f, events)), outputs, a, b);
    SameErasedSameLeaves(sha, a.emitted, b.emitted);
  }

  lemma RechooseIsValid(s: Scan, orphans: set<string>, choice: map<string, Instance>, h: string, w: Instance)
    requires ValidChoice(s, orphans, choice) && h in orphans && Attributable(s, h, w)
    ensures ValidChoice(s, orphans, choice[h := w])
  {
  }

  lemma WritesOfMembers(s: Scan, members: set<Instance>, relevant: set<string>, op: CanonicalOp, h: string)
    requires op in MemberOps(s, members, relevant) && op.opType == WriteOp && op.outputs == [h]
    ensures h in ProducedBy(s, members)
  {
    var p :| p in members && p in s.flows && op in FlowOps(s.flows[p], relevant);
    WritesOfFlow(s.flows[p], relevant, op, h);
    assert h in s.flows[p].output + s.flows[p].renamed;
  }

  lemma OrphanOpOf(s: Scan, orphans: set<string>, choice: map<string, Instance>, op: CanonicalOp, h: string)
    requires op in OrphanOps(s, orphans, choice) && op.outputs == [h]
    ensures op == OrphanOp(s, choice, h)
  {
    var g :| g in orphans && op == OrphanOp(s, choice, g);
    assert op.outputs[0] == g;
  }

  lemma ExitIsNoWrite(s: Scan, op: CanonicalOp)
    requires op.opType == WriteOp
    ensures op !in ExitOps(s)
  {
  }

  /** The one operation that a slice contains for an orphan. */
  lemma OrphanHasOneOp(s: Scan, outputs: seq<OutputFile>, members: set<Instance>, choice: map<string, Instance>,
                       h: string, op: CanonicalOp)
    requires h in Orphans(s, outputs, members) && op in SliceSet(s, outputs, members, choice)
    requires op.opType == WriteOp && op.outputs == [h]
    ensures op == OrphanOp(s, choice, h)
  {
    ExitIsNoWrite(s, op);
    if op in OrphanOps(s, Orphans(s, outputs, members), choice) {
      OrphanOpOf(s, Orphans(s, outputs, members), choice, op, h);
    } else {
      WritesOfMembers(s, members, Relevant(s, outputs, members), op, h);
    }
  }

  lemma WritesOfFlow(f: Flow, relevant: set<string>, op: CanonicalOp, h: string)
    requires op in FlowOps(f, relevant) && op.opType == WriteOp && op.outputs == [h]
    ensures h in f.output
  {
    assert op in WriteOps(f, f.output * relevant);
  }

  ghost predicate ChoiceIsImmaterial(s: Scan, outputs: seq<OutputFile>, members: set<Instance>)
  {
    var orphans := Orphans(s, outputs, members);
    forall c, d :: ValidChoice(s, orphans, c) && ValidChoice(s, orphans, d) ==>
      SliceSet(s, outputs, members, c) == SliceSet(s, outputs, members, d)
  }

  lemma AgreementMakesChoiceImmaterial(s: Scan, outputs: seq<OutputFile>, members: set<Instance>)
    requires OrphansAgree(s, Orphans(s, outputs, members))
    ensures ChoiceIsImmaterial(s, outputs, members)
  {
    var orphans := Orphans(s, outputs, members);
    var id: Renaming := (l: Lifetime) => l;
    SameAsItself(s);
    forall c, d | ValidChoice(s, orphans, c) && ValidChoice(s, orphans, d)
      ensures SliceSet(s, outputs, members, c) == SliceSet(s, outputs, members, d)
    {
      SameOrphanOps(id, id, s, s, orphans, c, d);
    }
  }

  lemma DifferentToolsDifferentSlices(s: Scan, outputs: seq<OutputFile>, members: set<Instance>,
                                      c: map<string, Instance>, d: map<string, Instance>, h: string)
    requires h in Orphans(s, outputs, members) && OrphanOp(s, c, h) != OrphanOp(s, d, h)
    ensures SliceSet(s, outputs, members, c) != SliceSet(s, outputs, members, d)
  {
    var op := OrphanOp(s, c, h);
    assert op in OrphanOps(s, Orphans(s, outputs, members), c);
    if op in SliceSet(s, outputs, members, d) { OrphanHasOneOp(s, outputs, members, d, h, op); }
  }

  lemma DisagreementMatters(s: Scan, outputs: seq<OutputFile>, members: set<Instance>, choice: map<string, Instance>,
                            h: string, v: Instance, w: Instance)
    requires ValidChoice(s, Orphans(s, outputs, members), choice) && h in Orphans(s, outputs, members)
    requires Attributable(s, h, v) && Attributable(s, h, w) && s.flows[v].tool != s.flows[w].tool
    ensures !ChoiceIsImmaterial(s, outputs, members)
  {
    var orphans := Orphans(s, outputs, members);
    RechooseIsValid(s, orphans, choice, h, v);
    RechooseIsValid(s, orphans, choice, h, w);
    DifferentToolsDifferentSlices(s, outputs, members, choice[h := v], choice[h := w], h);
  }

  /** The slice is the same for every choice of orphan writers exactly when the candidates agree on the tool. */
  lemma ChoiceIsImmaterialIff(s: Scan, outputs: seq<OutputFile>, members: set<Instance>, choice: map<string, Instance>)
    requires ValidChoice(s, Orphans(s, outputs, members), choice)
    ensures ChoiceIsImmaterial(s, outputs, members) <==> OrphansAgree(s, Orphans(s, outputs, members))
  {
    if OrphansAgree(s, Orphans(s, outputs, members)) {
      AgreementMakesChoiceImmaterial(s, outputs, members);
    } else {
      var h, v, w :| h in Orphans(s, outputs, members) && Attributable(s, h, v) && Attributable(s, h, w)
                     && s.flows[v].tool != s.flows[w].tool;
      DisagreementMatters(s, outputs, members, choice, h, v, w);
    }
  }

  /** Two slices of one trace differ at most in the choice of orphan writers. */
  lemma SliceIgnoresIterationOrder(sha: Sha, s: Scan, outputs: seq<OutputFile>, a: Slice, b: Slice)
    requires IsSlice(s, outputs, a) && IsSlice(s, outputs, b)
    requires OrphansAgree(s, Orphans(s, outputs, a.members))
    ensures Leaves(sha, Finalized(sha, a.emitted)) == Leaves(sha, Finalized(sha, b.emitted))
  {
    var id: Renaming := (l: Lifetime) => l;
    SameAsItself(s);
    SameSliceSet(id, id, s, s, outputs, a, b);
    SameErasedSameLeaves(sha, a.emitted, b.emitted);
  }

  lemma SameAsItself(s: Scan)
    ensures SameScan((l: Lifetime) => l, s, s)
  {
    var id: Renaming := (l: Lifetime) => l;
    forall p: Instance ensures Lift(id, p) == p {}
    forall m: Writers, k ensures Get(m, k) == LiftSet(id, Get(m, k)) {}
  }
}
