/** Process identifiers leave no trace in the canonical operations. */
module PidIndependence {
  import opened Trace
  import opened Operations
  import opened Descriptors
  import opened Canonicalizer

  type Renaming = Lifetime -> Lifetime

  ghost predicate Injective(f: Renaming)
  {
    forall a, b :: f(a) == f(b) ==> a == b
  }

  /** `g` undoes `f`: a form of injectivity that names the inverse. */
  ghost predicate Undoes(g: Renaming, f: Renaming)
  {
    forall a :: g(f(a)) == a
  }

  lemma InjectiveHasInverse(f: Renaming) returns (g: Renaming)
    requires Injective(f)
    ensures Undoes(g, f)
  {
    g := b => if exists a :: f(a) == b then (var a :| f(a) == b; a) else b;
  }

  function Lift(f: Renaming, p: Instance): Instance
  {
    p.(lifetime := f(p.lifetime))
  }

  function RenameEvent(f: Renaming, e: Event): Event
  {
    match e
    case Exec(p, o) => Exec(Lift(f, p), o)
    case Fork(parent, child) => Fork(Lift(f, parent), Lift(f, child))
    case FileOpen(p, path, flags, fd, external, o) => FileOpen(Lift(f, p), path, flags, fd, external, o)
    case FileMmap(p, fd, prot, flags, mapped, external, seen) =>
      FileMmap(Lift(f, p), fd, prot, flags, mapped, external, seen)
    case FileClose(p, fd, closed, external, seen) => FileClose(Lift(f, p), fd, closed, external, seen)
    case FileRename(p, from, to, flags, external, o) => FileRename(Lift(f, p), from, to, flags, external, o)
    case FileUnlink(p, path, flags, external, o) => FileUnlink(Lift(f, p), path, flags, external, o)
    case Exit(p, code) => Exit(Lift(f, p), code)
  }

  function RenameTrace(f: Renaming, events: seq<Event>): (r: seq<Event>)
    ensures |r| == |events| && forall i :: 0 <= i < |events| ==> r[i] == RenameEvent(f, events[i])
  {
    seq(|events|, i requires 0 <= i < |events| => RenameEvent(f, events[i]))
  }

  ghost predicate SameByInstance<T>(f: Renaming, m: map<Instance, T>, n: map<Instance, T>)
  {
    forall p {:trigger p in m} {:trigger Lift(f, p) in n} ::
      (p in m <==> Lift(f, p) in n) && (p in m ==> n[Lift(f, p)] == m[p])
  }

  ghost predicate SameBySlot<T>(f: Renaming, m: map<Slot, T>, n: map<Slot, T>)
  {
    forall l, fd {:trigger (l, fd) in m} {:trigger (f(l), fd) in n} ::
      ((l, fd) in m <==> (f(l), fd) in n) && ((l, fd) in m ==> n[(f(l), fd)] == m[(l, fd)])
  }

  ghost predicate SameLifetimes(f: Renaming, s: set<Lifetime>, t: set<Lifetime>)
  {
    forall l :: l in s <==> f(l) in t
  }

  /** The two scan states differ only by the renaming; their operations are equal. */
  ghost predicate Same(f: Renaming, s: State, t: State)
  {
    && s.ops == t.ops && s.external == t.external && s.next == t.next
    && SameByInstance(f, s.index, t.index) && SameByInstance(f, s.tools, t.tools)
    && SameBySlot(f, s.pending, t.pending) && SameBySlot(f, s.externalPending, t.externalPending)
    && SameLifetimes(f, s.fallback, t.fallback)
  }

  lemma SameUpdate<T>(f: Renaming, g: Renaming, m: map<Instance, T>, n: map<Instance, T>, p: Instance, x: T)
    requires Undoes(g, f) && SameByInstance(f, m, n)
    ensures SameByInstance(f, m[p := x], n[Lift(f, p) := x])
  {
  }

  lemma SameSlotUpdate<T>(f: Renaming, g: Renaming, m: map<Slot, T>, n: map<Slot, T>, slot: Slot, x: T)
    requires Undoes(g, f) && SameBySlot(f, m, n)
    ensures SameBySlot(f, m[slot := x], n[(f(slot.0), slot.1) := x])
  {
  }

  lemma SameSlotRemove<T>(f: Renaming, g: Renaming, m: map<Slot, T>, n: map<Slot, T>, slot: Slot)
    requires Undoes(g, f) && SameBySlot(f, m, n)
    ensures SameBySlot(f, m - {slot}, n - {(f(slot.0), slot.1)})
  {
  }

  lemma SameInherit<T>(f: Renaming, g: Renaming, m: map<Slot, T>, n: map<Slot, T>, parent: Lifetime, child: Lifetime)
    requires Undoes(g, f) && SameBySlot(f, m, n)
    ensures SameBySlot(f, Inherit(m, parent, child), Inherit(n, f(parent), f(child)))
  {
  }

  lemma SameDecision(f: Renaming, g: Renaming, c: Config, v: View, e: Event)
    requires Undoes(g, f) && !e.Fork?
    ensures Decide(c.(root := Lift(f, c.root)), v, RenameEvent(f, e)) == Decide(c, v, e)
  {
    assert f(e.process.lifetime) == f(c.root.lifetime) <==> e.process.lifetime == c.root.lifetime;
  }

  lemma SameRegister(f: Renaming, g: Renaming, s: State, t: State, p: Instance)
    requires Undoes(g, f) && Same(f, s, t)
    ensures Same(f, Register(s, p), Register(t, Lift(f, p)))
  {
    SameUpdate(f, g, s.index, t.index, p, s.next);
  }

  lemma SameTools(f: Renaming, g: Renaming, s: State, t: State, p: Instance, tool: string)
    requires Undoes(g, f) && Same(f, s, t)
    ensures Same(f, s.(tools := s.tools[p := tool]), t.(tools := t.tools[Lift(f, p) := tool]))
  {
    SameUpdate(f, g, s.tools, t.tools, p, tool);
  }

  lemma SameMark(f: Renaming, g: Renaming, s: State, t: State, l: Lifetime)
    requires Undoes(g, f) && Same(f, s, t)
    ensures Same(f, s.(fallback := s.fallback + {l}), t.(fallback := t.fallback + {f(l)}))
  {
  }

  lemma SameNote(f: Renaming, g: Renaming, s: State, t: State, p: Instance, d: Decision)
    requires Undoes(g, f) && Same(f, s, t)
    ensures Same(f, Note(s, p, d), Note(t, Lift(f, p), d))
  {
    var q := Lift(f, p);
    SameRegister(f, g, s, t, p);
    var s1, t1 := if d.register then Register(s, p) else s, if d.register then Register(t, q) else t;
    var s2, t2 := s1, t1;
    if d.setTool.Some? {
      SameTools(f, g, s1, t1, p, d.setTool.value);
      s2, t2 := s1.(tools := s1.tools[p := d.setTool.value]), t1.(tools := t1.tools[q := d.setTool.value]);
    }
    if d.mark { SameMark(f, g, s2, t2, p.lifetime); }
  }

  lemma SameEmit(f: Renaming, s: State, t: State, p: Instance, external: bool, op: CanonicalOp)
    requires Same(f, s, t)
    ensures Same(f, Emit(s, p, external, op), Emit(t, Lift(f, p), external, op))
  {
  }

  lemma SameSlotLookup<T>(f: Renaming, m: map<Slot, T>, n: map<Slot, T>, l: Lifetime, fd: int)
    requires SameBySlot(f, m, n)
    ensures (l, fd) in m <==> (f(l), fd) in n
  {
  }

  lemma SameAwait(f: Renaming, g: Renaming, s: State, t: State, l: Lifetime, fd: int, external: bool, i: nat)
    requires Undoes(g, f) && Same(f, s, t)
    ensures Same(f, Await(s, (l, fd), external, i), Await(t, (f(l), fd), external, i))
    ensures Awaiting(s, (l, fd), external) <==> Awaiting(t, (f(l), fd), external)
  {
    if external {
      SameSlotUpdate(f, g, s.externalPending, t.externalPending, (l, fd), i);
      SameSlotLookup(f, s.externalPending, t.externalPending, l, fd);
    } else {
      SameSlotUpdate(f, g, s.pending, t.pending, (l, fd), i);
      SameSlotLookup(f, s.pending, t.pending, l, fd);
    }
  }

  lemma SameStarted(f: Renaming, g: Renaming, s: State, t: State, p: Instance, d: Decision)
    requires Undoes(g, f) && Same(f, s, t)
    ensures Same(f, Started(s, p, d), Started(t, Lift(f, p), d))
  {
    if d.write.NewWrite? {
      var l, fd, external, op := p.lifetime, d.write.fd, d.external, d.write.op;
      var i := if external then |s.external| else |s.ops|;
      SameAwait(f, g, s, t, l, fd, external, i);
      SameEmit(f, s, t, p, external, op);
      SameAwait(f, g, Emit(s, p, external, op), Emit(t, Lift(f, p), external, op), l, fd, external, i);
    }
  }

  lemma SameFinished(f: Renaming, g: Renaming, s: State, t: State, p: Instance, d: Decision)
    requires Undoes(g, f) && Same(f, s, t)
    ensures Same(f, Finished(s, p, d), Finished(t, Lift(f, p), d))
  {
    if d.resolution.Close? {
      var slot := (p.lifetime, d.resolution.fd);
      if d.external {
        SameSlotRemove(f, g, s.externalPending, t.externalPending, slot);
      } else {
        SameSlotRemove(f, g, s.pending, t.pending, slot);
      }
    }
  }

  lemma SameApply(f: Renaming, g: Renaming, s: State, t: State, p: Instance, d: Decision)
    requires Undoes(g, f) && Same(f, s, t)
    ensures Same(f, Apply(s, p, d), Apply(t, Lift(f, p), d))
  {
    var q := Lift(f, p);
    SameNote(f, g, s, t, p, d);
    var s1, t1 := Note(s, p, d), Note(t, q, d);
    if d.emit.Some? { SameEmit(f, s1, t1, p, d.external, d.emit.value); }
    var s2, t2 := Emitted(s1, p, d), Emitted(t1, q, d);
    SameStarted(f, g, s2, t2, p, d);
    SameFinished(f, g, Started(s2, p, d), Started(t2, q, d), p, d);
  }

  lemma SameFork(f: Renaming, g: Renaming, s: State, t: State, parent: Instance, child: Instance)
    requires Undoes(g, f) && Same(f, s, t)
    ensures Same(f, ForkState(s, parent, child), ForkState(t, Lift(f, parent), Lift(f, child)))
  {
    SameInherit(f, g, s.pending, t.pending, parent.lifetime, child.lifetime);
    if parent in s.tools { SameUpdate(f, g, s.tools, t.tools, child, s.tools[parent]); }
  }

  lemma SameStep(f: Renaming, g: Renaming, c: Config, s: State, t: State, e: Event)
    requires Undoes(g, f) && Same(f, s, t)
    ensures Same(f, Step(c, s, e), Step(c.(root := Lift(f, c.root)), t, RenameEvent(f, e)))
  {
    if e.Fork? {
      SameFork(f, g, s, t, e.parent, e.child);
    } else {
      assert ViewOf(t, Lift(f, e.process)) == ViewOf(s, e.process);
      SameDecision(f, g, c, ViewOf(s, e.process), e);
      SameApply(f, g, s, t, e.process, Decide(c, ViewOf(s, e.process), e));
    }
  }

  lemma {:induction false} SameRun(f: Renaming, g: Renaming, c: Config, events: seq<Event>)
    requires Undoes(g, f)
    ensures Same(f, Run(c, events), Run(c.(root := Lift(f, c.root)), RenameTrace(f, events)))
  {
    if events != [] {
      var n := |events| - 1;
      assert RenameTrace(f, events)[..n] == RenameTrace(f, events[..n]);
      SameRun(f, g, c, events[..n]);
      SameStep(f, g, c, Run(c, events[..n]), Run(c.(root := Lift(f, c.root)), RenameTrace(f, events[..n])), events[n]);
    }
  }

  // ---------------------------------------------------------------------------------------------
  // It is enough that the lifetimes of the trace stay apart.

  function Named(e: Event): seq<Lifetime>
  {
    if e.Fork? then [e.parent.lifetime, e.child.lifetime] else [e.process.lifetime]
  }

  /** The lifetimes of the root and of all events. */
  function NamedIn(root: Instance, events: seq<Event>): seq<Lifetime>
  {
    if events == [] then [root.lifetime]
    else NamedIn(root, events[..|events| - 1]) + Named(events[|events| - 1])
  }

  /** The renaming keeps these lifetimes apart; what it does to others is of no concern. */
  ghost predicate InjectiveOn(f: Renaming, ls: seq<Lifetime>)
  {
    forall i, j :: 0 <= i < j < |ls| && f(ls[i]) == f(ls[j]) ==> ls[i] == ls[j]
  }

  ghost predicate Agree(f: Renaming, g: Renaming, ls: seq<Lifetime>)
  {
    forall i :: 0 <= i < |ls| ==> f(ls[i]) == g(ls[i])
  }

  function Swapped(a: Lifetime, b: Lifetime, l: Lifetime): Lifetime
  {
    if l == a then b else if l == b then a else l
  }

  /** `g`, and then the exchange that takes its image of `x` to that of `f`. */
  function Corrected(g: Renaming, f: Renaming, x: Lifetime): Renaming
  {
    (l: Lifetime) => Swapped(g(x), f(x), g(l))
  }

  /** A permutation of all lifetimes that does on `ls` what `f` does: one exchange after the other. */
  function Extension(f: Renaming, ls: seq<Lifetime>): Renaming
  {
    if ls == [] then (l: Lifetime) => l
    else Corrected(Extension(f, ls[..|ls| - 1]), f, ls[|ls| - 1])
  }

  lemma ExchangedTwice(a: Lifetime, b: Lifetime, l: Lifetime)
    ensures Swapped(a, b, Swapped(a, b, l)) == l
  {
  }

  lemma CorrectedIsInjective(g: Renaming, f: Renaming, x: Lifetime)
    requires Injective(g)
    ensures Injective(Corrected(g, f, x))
  {
    var h, a, b := Corrected(g, f, x), g(x), f(x);
    forall l, m | h(l) == h(m) ensures l == m {
      ExchangedTwice(a, b, g(l));
      ExchangedTwice(a, b, g(m));
      assert g(l) == g(m);
    }
  }

  lemma CorrectedAgrees(g: Renaming, f: Renaming, x: Lifetime, l: Lifetime)
    requires Injective(g) && (l == x || (g(l) == f(l) && f(l) != f(x)))
    ensures Corrected(g, f, x)(l) == f(l)
  {
    if l != x { assert g(l) != g(x); }
  }

  lemma OneMoreAgrees(g: Renaming, f: Renaming, ls: seq<Lifetime>, n: nat)
    requires |ls| == n + 1 && InjectiveOn(f, ls) && Injective(g) && Agree(g, f, ls[..n])
    ensures Agree(Corrected(g, f, ls[n]), f, ls)
  {
    var h := Corrected(g, f, ls[n]);
    forall i | 0 <= i < |ls| ensures h(ls[i]) == f(ls[i]) {
      if i < n { assert ls[..n][i] == ls[i] && (f(ls[i]) == f(ls[n]) ==> ls[i] == ls[n]); }
      CorrectedAgrees(g, f, ls[n], ls[i]);
    }
  }

  lemma {:induction false} ExtensionExtends(f: Renaming, ls: seq<Lifetime>)
    requires InjectiveOn(f, ls)
    ensures Injective(Extension(f, ls)) && Agree(Extension(f, ls), f, ls)
  {
    if ls != [] {
      var n := |ls| - 1;
      ExtensionExtends(f, ls[..n]);
      CorrectedIsInjective(Extension(f, ls[..n]), f, ls[n]);
      OneMoreAgrees(Extension(f, ls[..n]), f, ls, n);
    }
  }

  lemma SameRenamedEvent(f: Renaming, g: Renaming, e: Event)
    requires Agree(f, g, Named(e))
    ensures RenameEvent(f, e) == RenameEvent(g, e)
  {
    assert f(Named(e)[0]) == g(Named(e)[0]);
    if e.Fork? { assert f(Named(e)[1]) == g(Named(e)[1]); }
  }

  lemma AgreeOnParts(f: Renaming, g: Renaming, ls: seq<Lifetime>, more: seq<Lifetime>)
    requires Agree(f, g, ls + more)
    ensures Agree(f, g, ls) && Agree(f, g, more)
  {
    forall i | 0 <= i < |ls| ensures f(ls[i]) == g(ls[i]) { assert (ls + more)[i] == ls[i]; }
    forall i | 0 <= i < |more| ensures f(more[i]) == g(more[i]) { assert (ls + more)[|ls| + i] == more[i]; }
  }

  lemma {:induction false} SameRenamedTrace(f: Renaming, g: Renaming, root: Instance, events: seq<Event>)
    requires Agree(f, g, NamedIn(root, events))
    ensures RenameTrace(f, events) == RenameTrace(g, events) && Lift(f, root) == Lift(g, root)
  {
    if events == [] {
      assert f(NamedIn(root, events)[0]) == g(NamedIn(root, events)[0]);
    } else {
      var n := |events| - 1;
      AgreeOnParts(f, g, NamedIn(root, events[..n]), Named(events[n]));
      SameRenamedTrace(f, g, root, events[..n]);
      SameRenamedEvent(f, g, events[n]);
      LastRenamed(f, events, n);
      LastRenamed(g, events, n);
    }
  }

  lemma LastRenamed(f: Renaming, events: seq<Event>, n: nat)
    requires |events| == n + 1
    ensures RenameTrace(f, events) == RenameTrace(f, events[..n]) + [RenameEvent(f, events[n])]
  {
  }

  /** A renaming that keeps the lifetimes of a trace apart acts on it like one with an inverse. */
  lemma RenamingExtends(f: Renaming, root: Instance, events: seq<Event>) returns (total: Renaming, g: Renaming)
    requires InjectiveOn(f, NamedIn(root, events))
    ensures Undoes(g, total) && RenameTrace(total, events) == RenameTrace(f, events)
    ensures Lift(total, root) == Lift(f, root)
  {
    total := Extension(f, NamedIn(root, events));
    ExtensionExtends(f, NamedIn(root, events));
    g := InjectiveHasInverse(total);
    SameRenamedTrace(total, f, root, events);
  }

  /**
   Renaming the process lifetimes of a trace in any way that keeps them apart changes nothing in the result, process
   indices included.
   */
  lemma CanonicalIgnoresPids(sha: Sha, f: Renaming, c: Config, events: seq<Event>)
    requires InjectiveOn(f, NamedIn(c.root, events))
    ensures Canonical(sha, c.(root := Lift(f, c.root)), RenameTrace(f, events)) == Canonical(sha, c, events)
  {
    var total, g := RenamingExtends(f, c.root, events);
    SameRun(total, g, c, events);
  }
}
