/** Scheduling does not matter: independent neighbours in a trace can be swapped without changing the leaves. */
module Interleaving {
  import opened Sequences
  import opened Text
  import opened Trace
  import opened Paths
  import opened Operations
  import opened Descriptors
  import opened Canonicalizer
  import opened Worlds

  function Footprint(e: Event): set<Lifetime>
  {
    if e.Fork? then {e.parent.lifetime, e.child.lifetime} else {e.process.lifetime}
  }

  /** The fork-tree write operation that a close completes, with the identity it records. */
  function Completes(c: Config, s: State, e: Event): Option<(nat, string)>
  {
    if !e.FileClose? then None
    else
      var d, slot := Decide(c, ViewOf(s, e.process), e), (e.process.lifetime, e.fd);
      if d.resolution.Close? && !d.external && slot in s.pending && d.resolution.identity.Some?
      then Some((s.pending[slot], d.resolution.identity.value)) else None
  }

  /** Two closes complete one inherited write with different identities: the later one wins. */
  predicate Collide(c: Config, s: State, a: Event, b: Event)
  {
    var x, y := Completes(c, s, a), Completes(c, s, b);
    x.Some? && y.Some? && x.value.0 == y.value.0 && x.value.1 != y.value.1
  }

  // ---------------------------------------------------------------------------------------------
  // One event on the regrouped machine: a new local state, and at most one completed write elsewhere.

  datatype Effect = Effect(loc: Local, target: Option<Token>, identity: string)

  function EffectOf(c: Config, loc: Local, e: Event): Effect
    requires !e.Fork?
  {
    var d := Decide(c, LocalView(loc, e.process), e);
    var started := LOpen(loc, e.process, d);
    Effect(LFinished(started, d), LTarget(started, d),
           if d.resolution.Close? && d.resolution.identity.Some? then d.resolution.identity.value else "")
  }

  lemma StepIsEffect(c: Config, w: World, e: Event)
    requires !e.Fork?
    ensures var x := EffectOf(c, At(w, e.process.lifetime), e);
            WStep(c, w, e) == Patch(w[e.process.lifetime := x.loc], x.target, x.identity)
  {
  }

  /** A world whose pending tokens all name an operation. */
  ghost predicate Sound(w: World)
  {
    forall l, fd :: fd in At(w, l).pending ==> At(w, l).pending[fd].1 < |At(w, At(w, l).pending[fd].0).ops|
  }

  lemma TrackedIsSound(s: State, w: World, tok: seq<Token>, ext: seq<Token>)
    requires Tracks(s, w, tok, ext)
    ensures Sound(w)
  {
    forall l, fd | fd in At(w, l).pending ensures At(w, l).pending[fd].1 < |At(w, At(w, l).pending[fd].0).ops| {
      assert TrackedAt(s.pending, w, tok, l, fd);
      var i := s.pending[(l, fd)];
      assert tok[i].1 < |Log(w, tok[i].0, false)|;
    }
  }

  // A completed write elsewhere does not influence what an event does.

  lemma OpenCommutesWithPatch(loc: Local, p: Instance, d: Decision, n: nat, id: string)
    requires n < |loc.ops|
    ensures LOpen(PatchLocal(loc, n, id), p, d) == PatchLocal(LOpen(loc, p, d), n, id)
  {
    NoteCommutesWithPatch(loc, p, d, n, id);
    EmittedCommutesWithPatch(LNote(loc, p, d), d, n, id);
    StartedCommutesWithPatch(LEmitted(LNote(loc, p, d), d), p.lifetime, d, n, id);
  }

  lemma NoteCommutesWithPatch(loc: Local, p: Instance, d: Decision, n: nat, id: string)
    ensures LNote(PatchLocal(loc, n, id), p, d) == PatchLocal(LNote(loc, p, d), n, id)
    ensures LNote(loc, p, d).ops == loc.ops
  {
  }

  lemma AppendCommutesWithSetOutput(ops: seq<CanonicalOp>, op: CanonicalOp, n: nat, id: string)
    requires n < |ops|
    ensures SetOutput(ops, n, Some(id)) + [op] == SetOutput(ops + [op], n, Some(id))
  {
  }

  lemma EmitCommutesWithPatch(loc: Local, external: bool, op: CanonicalOp, n: nat, id: string)
    requires n < |loc.ops|
    ensures LEmit(PatchLocal(loc, n, id), external, op) == PatchLocal(LEmit(loc, external, op), n, id)
    ensures |loc.ops| <= |LEmit(loc, external, op).ops|
  {
    AppendCommutesWithSetOutput(loc.ops, Erase(op), n, id);
  }

  lemma EmittedCommutesWithPatch(loc: Local, d: Decision, n: nat, id: string)
    requires n < |loc.ops|
    ensures LEmitted(PatchLocal(loc, n, id), d) == PatchLocal(LEmitted(loc, d), n, id)
    ensures |loc.ops| <= |LEmitted(loc, d).ops|
  {
    if d.emit.Some? { EmitCommutesWithPatch(loc, d.external, d.emit.value, n, id); }
  }

  lemma StartedCommutesWithPatch(loc: Local, l: Lifetime, d: Decision, n: nat, id: string)
    requires n < |loc.ops|
    ensures LStarted(PatchLocal(loc, n, id), l, d) == PatchLocal(LStarted(loc, l, d), n, id)
    ensures |loc.ops| <= |LStarted(loc, l, d).ops|
  {
    if d.write.NewWrite? { EmitCommutesWithPatch(loc, d.external, d.write.op, n, id); }
  }

  lemma FinishedCommutesWithPatch(loc: Local, d: Decision, n: nat, id: string)
    requires n < |loc.ops|
    ensures LFinished(PatchLocal(loc, n, id), d) == PatchLocal(LFinished(loc, d), n, id)
    ensures LTarget(PatchLocal(loc, n, id), d) == LTarget(loc, d)
    ensures LFinished(loc, d).ops == loc.ops
  {
  }

  lemma OpenGrows(loc: Local, p: Instance, d: Decision)
    ensures |loc.ops| <= |LOpen(loc, p, d).ops|
  {
    assert |loc.ops| == |LNote(loc, p, d).ops|;
    assert |loc.ops| <= |LEmitted(LNote(loc, p, d), d).ops|;
  }

  lemma EffectCommutesWithPatch(c: Config, loc: Local, e: Event, n: nat, id: string)
    requires !e.Fork? && n < |loc.ops|
    ensures var x := EffectOf(c, loc, e);
            && EffectOf(c, PatchLocal(loc, n, id), e) == x.(loc := PatchLocal(x.loc, n, id))
            && |loc.ops| <= |x.loc.ops|
  {
    var d := Decide(c, LocalView(loc, e.process), e);
    assert LocalView(PatchLocal(loc, n, id), e.process) == LocalView(loc, e.process);
    OpenCommutesWithPatch(loc, e.process, d, n, id);
    OpenGrows(loc, e.process, d);
    FinishedCommutesWithPatch(LOpen(loc, e.process, d), d, n, id);
  }

  function PatchAt(loc: Local, l: Lifetime, t: Option<Token>, id: string): Local
  {
    if t.Some? && t.value.0 == l then PatchLocal(loc, t.value.1, id) else loc
  }

  lemma AtPatch(w: World, t: Option<Token>, id: string, l: Lifetime)
    ensures At(Patch(w, t, id), l) == PatchAt(At(w, l), l, t, id)
  {
  }

  lemma PatchThenUpdate(w: World, t: Option<Token>, id: string, l: Lifetime, loc: Local)
    ensures Patch(w, t, id)[l := PatchAt(loc, l, t, id)] == Patch(w[l := loc], t, id)
  {
    if t.Some? && t.value.0 != l {
      assert Patch(w, t, id)[l := loc] == Patch(w[l := loc], t, id);
    }
  }

  lemma SetOutputsCommute(ops: seq<CanonicalOp>, m: nat, id: string, n: nat, id': string)
    requires m != n || id == id'
    ensures SetOutput(SetOutput(ops, m, Some(id)), n, Some(id')) == SetOutput(SetOutput(ops, n, Some(id')), m, Some(id))
  {
  }

  lemma PatchesCommute(w: World, t: Option<Token>, id: string, u: Option<Token>, id': string)
    requires t.None? || u.None? || t != u || id == id'
    ensures Patch(Patch(w, t, id), u, id') == Patch(Patch(w, u, id'), t, id)
  {
    if t.Some? && u.Some? {
      if t.value.0 == u.value.0 {
        var l, m, n := t.value.0, t.value.1, u.value.1;
        SetOutputsCommute(At(w, l).ops, m, id, n, id');
        assert PatchLocal(PatchLocal(At(w, l), m, id), n, id') == PatchLocal(PatchLocal(At(w, l), n, id'), m, id);
        assert Patch(Patch(w, t, id), u, id') == w[l := PatchLocal(PatchLocal(At(w, l), m, id), n, id')];
        assert Patch(Patch(w, u, id'), t, id) == w[l := PatchLocal(PatchLocal(At(w, l), n, id'), m, id)];
      } else {
        assert Patch(Patch(w, t, id), u, id') == Patch(Patch(w, u, id'), t, id);
      }
    }
  }

  lemma EffectTargetInRange(c: Config, w: World, l: Lifetime, e: Event)
    requires Sound(w) && !e.Fork?
    ensures var x := EffectOf(c, At(w, l), e);
            x.target.Some? ==> x.target.value.1 < |At(w, x.target.value.0).ops|
  {
    var loc := At(w, l);
    var d := Decide(c, LocalView(loc, e.process), e);
    if d.resolution.Close? {
      CloseOnlyFinishes(c, LocalView(loc, e.process), e);
      assert LOpen(loc, e.process, d) == loc;
    }
  }

  lemma CloseOnlyFinishes(c: Config, v: View, e: Event)
    requires !e.Fork? && Decide(c, v, e).resolution.Close?
    ensures var d := Decide(c, v, e);
            e.FileClose? && !d.register && d.setTool.None? && !d.mark && d.emit.None? && d.write.NoWrite?
            && d.resolution.fd == e.fd
  {
  }

  /** Two local events in sequence: both new local states, then both completed writes. */
  function Both(w: World, la: Lifetime, x: Effect, lb: Lifetime, y: Effect): World
  {
    Patch(Patch(w[la := x.loc][lb := y.loc], x.target, x.identity), y.target, y.identity)
  }

  lemma SecondIgnoresPatch(c: Config, loc: Local, b: Event, x: Effect, y: Effect)
    requires !b.Fork? && y == EffectOf(c, loc, b)
    requires x.target.Some? && x.target.value.0 == b.process.lifetime ==> x.target.value.1 < |loc.ops|
    ensures var lb := b.process.lifetime;
            EffectOf(c, PatchAt(loc, lb, x.target, x.identity), b)
              == y.(loc := PatchAt(y.loc, lb, x.target, x.identity))
  {
    if x.target.Some? && x.target.value.0 == b.process.lifetime {
      EffectCommutesWithPatch(c, loc, b, x.target.value.1, x.identity);
    }
  }

  lemma LocalAfterLocal(c: Config, w: World, a: Event, b: Event, x: Effect, y: Effect)
    requires Sound(w) && !a.Fork? && !b.Fork? && a.process.lifetime != b.process.lifetime
    requires x == EffectOf(c, At(w, a.process.lifetime), a) && y == EffectOf(c, At(w, b.process.lifetime), b)
    ensures WStep(c, WStep(c, w, a), b) == Both(w, a.process.lifetime, x, b.process.lifetime, y)
  {
    var la, lb := a.process.lifetime, b.process.lifetime;
    var w1 := w[la := x.loc];
    StepIsEffect(c, w, a);
    EffectTargetInRange(c, w, la, a);
    AtPatch(w1, x.target, x.identity, lb);
    assert At(w1, lb) == At(w, lb);
    SecondIgnoresPatch(c, At(w, lb), b, x, y);
    StepIsEffect(c, Patch(w1, x.target, x.identity), b);
    PatchThenUpdate(w1, x.target, x.identity, lb, y.loc);
  }

  lemma BothCommute(w: World, la: Lifetime, x: Effect, lb: Lifetime, y: Effect)
    requires la != lb
    requires x.target.None? || y.target.None? || x.target != y.target || x.identity == y.identity
    ensures Both(w, la, x, lb, y) == Both(w, lb, y, la, x)
  {
    assert w[la := x.loc][lb := y.loc] == w[lb := y.loc][la := x.loc];
    PatchesCommute(w[la := x.loc][lb := y.loc], x.target, x.identity, y.target, y.identity);
  }

  lemma LocalsCommute(c: Config, w: World, a: Event, b: Event, x: Effect, y: Effect)
    requires Sound(w) && !a.Fork? && !b.Fork? && a.process.lifetime != b.process.lifetime
    requires x == EffectOf(c, At(w, a.process.lifetime), a) && y == EffectOf(c, At(w, b.process.lifetime), b)
    requires x.target.None? || y.target.None? || x.target != y.target || x.identity == y.identity
    ensures WStep(c, WStep(c, w, a), b) == WStep(c, WStep(c, w, b), a)
  {
    LocalAfterLocal(c, w, a, b, x, y);
    LocalAfterLocal(c, w, b, a, y, x);
    BothCommute(w, a.process.lifetime, x, b.process.lifetime, y);
  }

  lemma ForkIgnoresPatch(pLoc: Local, cLoc: Local, parent: Instance, child: Instance, n: nat, id: string)
    ensures ForkLocal(PatchLocal(pLoc, n, id), cLoc, parent, child) == ForkLocal(pLoc, cLoc, parent, child)
    ensures ForkLocal(pLoc, PatchLocal(cLoc, n, id), parent, child)
         == PatchLocal(ForkLocal(pLoc, cLoc, parent, child), n, id)
    ensures ForkLocal(PatchLocal(pLoc, n, id), PatchLocal(cLoc, n, id), parent, child)
         == PatchLocal(ForkLocal(pLoc, cLoc, parent, child), n, id)
  {
  }

  lemma ForkAfterPatch(w: World, t: Option<Token>, id: string, parent: Instance, child: Instance)
    ensures var pl, cl := parent.lifetime, child.lifetime;
            var forked := ForkLocal(At(w, pl), At(w, cl), parent, child);
            Patch(w, t, id)[cl := ForkLocal(At(Patch(w, t, id), pl), At(Patch(w, t, id), cl), parent, child)]
            == Patch(w[cl := forked], t, id)
  {
    var pl, cl := parent.lifetime, child.lifetime;
    var forked := ForkLocal(At(w, pl), At(w, cl), parent, child);
    AtPatch(w, t, id, pl);
    AtPatch(w, t, id, cl);
    if t.Some? { ForkIgnoresPatch(At(w, pl), At(w, cl), parent, child, t.value.1, id); }
    PatchThenUpdate(w, t, id, cl, forked);
  }

  lemma ForkThenLocal(c: Config, w: World, f: Event, e: Event, x: Effect)
    requires f.Fork? && !e.Fork? && e.process.lifetime !in Footprint(f)
    requires x == EffectOf(c, At(w, e.process.lifetime), e)
    ensures WStep(c, WStep(c, w, f), e) == Patch(WStep(c, w, f)[e.process.lifetime := x.loc], x.target, x.identity)
  {
    assert At(WStep(c, w, f), e.process.lifetime) == At(w, e.process.lifetime);
    StepIsEffect(c, WStep(c, w, f), e);
  }

  lemma UpdatesCommute(w: World, l: Lifetime, x: Local, k: Lifetime, y: Local)
    requires l != k
    ensures w[l := x][k := y] == w[k := y][l := x]
  {
  }

  lemma LocalThenFork(c: Config, w: World, f: Event, e: Event, x: Effect)
    requires f.Fork? && !e.Fork? && e.process.lifetime !in Footprint(f)
    requires x == EffectOf(c, At(w, e.process.lifetime), e)
    ensures WStep(c, WStep(c, w, e), f) == Patch(WStep(c, w, f)[e.process.lifetime := x.loc], x.target, x.identity)
  {
    var l, pl, cl := e.process.lifetime, f.parent.lifetime, f.child.lifetime;
    var w1 := w[l := x.loc];
    StepIsEffect(c, w, e);
    assert At(w1, pl) == At(w, pl) && At(w1, cl) == At(w, cl);
    ForkAfterPatch(w1, x.target, x.identity, f.parent, f.child);
    UpdatesCommute(w, l, x.loc, cl, ForkLocal(At(w, pl), At(w, cl), f.parent, f.child));
  }

  lemma ForkLocalCommute(c: Config, w: World, f: Event, e: Event, x: Effect)
    requires f.Fork? && !e.Fork? && e.process.lifetime !in Footprint(f)
    requires x == EffectOf(c, At(w, e.process.lifetime), e)
    ensures WStep(c, WStep(c, w, f), e) == WStep(c, WStep(c, w, e), f)
  {
    ForkThenLocal(c, w, f, e, x);
    LocalThenFork(c, w, f, e, x);
  }

  lemma ForksCommute(c: Config, w: World, f: Event, g: Event)
    requires f.Fork? && g.Fork? && Footprint(f) !! Footprint(g)
    ensures WStep(c, WStep(c, w, f), g) == WStep(c, WStep(c, w, g), f)
  {
    var cl, cl' := f.child.lifetime, g.child.lifetime;
    assert f.parent.lifetime in Footprint(f) && cl in Footprint(f);
    assert g.parent.lifetime in Footprint(g) && cl' in Footprint(g);
    var x := ForkLocal(At(w, f.parent.lifetime), At(w, cl), f.parent, f.child);
    var y := ForkLocal(At(w, g.parent.lifetime), At(w, cl'), g.parent, g.child);
    assert w[cl := x][cl' := y] == w[cl' := y][cl := x];
  }

  lemma SameTokenSamePlace(ops: seq<CanonicalOp>, tok: seq<Token>, w: World, i: nat, j: nat)
    requires OpsTracked(ops, tok, w, false) && i < |tok| && j < |tok| && tok[i] == tok[j]
    ensures i == j
  {
  }

  /** The tokens of two closes agree exactly when the operations they complete in the common vector do. */
  lemma CollisionIsVisible(c: Config, s: State, w: World, tok: seq<Token>, ext: seq<Token>, a: Event, b: Event)
    requires Tracks(s, w, tok, ext) && !a.Fork? && !b.Fork? && !Collide(c, s, a, b)
    ensures var x, y := EffectOf(c, At(w, a.process.lifetime), a), EffectOf(c, At(w, b.process.lifetime), b);
            x.target.None? || y.target.None? || x.target != y.target || x.identity == y.identity
  {
    TargetIsCompleted(c, s, w, tok, ext, a);
    TargetIsCompleted(c, s, w, tok, ext, b);
    var x, y := EffectOf(c, At(w, a.process.lifetime), a), EffectOf(c, At(w, b.process.lifetime), b);
    if x.target.Some? && y.target.Some? && x.target == y.target {
      SameTokenSamePlace(s.ops, tok, w, Completes(c, s, a).value.0, Completes(c, s, b).value.0);
    }
  }

  lemma TargetIsCompleted(c: Config, s: State, w: World, tok: seq<Token>, ext: seq<Token>, e: Event)
    requires Tracks(s, w, tok, ext) && !e.Fork?
    ensures var x, done := EffectOf(c, At(w, e.process.lifetime), e), Completes(c, s, e);
            x.target.Some? ==> done.Some? && done.value.0 < |tok| && x.target.value == tok[done.value.0]
                               && x.identity == done.value.1
  {
    var p := e.process;
    var loc := At(w, p.lifetime);
    assert ViewOf(s, p) == LocalView(loc, p);
    var d := Decide(c, LocalView(loc, p), e);
    if d.resolution.Close? {
      CloseOnlyFinishes(c, LocalView(loc, p), e);
      assert LOpen(loc, p, d) == loc;
      assert TrackedAt(s.pending, w, tok, p.lifetime, e.fd);
    }
  }

  /** The write that an event completes, named by its place, and the identity that it records. */
  function Completion(c: Config, w: World, e: Event): Option<(Token, string)>
  {
    if e.Fork? then None else CompletedBy(EffectOf(c, At(w, e.process.lifetime), e))
  }

  function CompletedBy(x: Effect): Option<(Token, string)>
  {
    if x.target.Some? then Some((x.target.value, x.identity)) else None
  }

  predicate Clash(x: Option<(Token, string)>, y: Option<(Token, string)>)
  {
    x.Some? && y.Some? && x.value.0 == y.value.0 && x.value.1 != y.value.1
  }

  lemma StepsCommute(c: Config, w: World, a: Event, b: Event)
    requires Sound(w) && Footprint(a) !! Footprint(b) && !Clash(Completion(c, w, a), Completion(c, w, b))
    ensures WStep(c, WStep(c, w, a), b) == WStep(c, WStep(c, w, b), a)
  {
    if a.Fork? && b.Fork? {
      ForksCommute(c, w, a, b);
    } else if a.Fork? {
      assert b.process.lifetime in Footprint(b);
      ForkLocalCommute(c, w, a, b, EffectOf(c, At(w, b.process.lifetime), b));
    } else if b.Fork? {
      assert a.process.lifetime in Footprint(a);
      ForkLocalCommute(c, w, b, a, EffectOf(c, At(w, a.process.lifetime), a));
    } else {
      assert a.process.lifetime in Footprint(a) && b.process.lifetime in Footprint(b);
      LocalsCommute(c, w, a, b, EffectOf(c, At(w, a.process.lifetime), a), EffectOf(c, At(w, b.process.lifetime), b));
    }
  }

  lemma RunIsSound(c: Config, events: seq<Event>)
    ensures Sound(WRun(c, events))
  {
    var tok, ext := RunTracks(c, events);
    TrackedIsSound(Run(c, events), WRun(c, events), tok, ext);
  }

  lemma IndependentStepsCommute(c: Config, pre: seq<Event>, a: Event, b: Event)
    requires Footprint(a) !! Footprint(b) && !Collide(c, Run(c, pre), a, b)
    ensures WStep(c, WStep(c, WRun(c, pre), a), b) == WStep(c, WStep(c, WRun(c, pre), b), a)
  {
    var w := WRun(c, pre);
    var tok, ext := RunTracks(c, pre);
    RunIsSound(c, pre);
    if !a.Fork? && !b.Fork? { CollisionIsVisible(c, Run(c, pre), w, tok, ext, a, b); }
    StepsCommute(c, w, a, b);
  }

  lemma AppendStep(c: Config, pre: seq<Event>, e: Event)
    ensures WRun(c, pre + [e]) == WStep(c, WRun(c, pre), e)
  {
    assert (pre + [e])[..|pre|] == pre;
  }

  lemma {:induction false} SameSuffixSameWorld(c: Config, pre: seq<Event>, other: seq<Event>, post: seq<Event>)
    requires WRun(c, pre) == WRun(c, other)
    ensures WRun(c, pre + post) == WRun(c, other + post)
    decreases post
  {
    if post == [] {
      AppendNothing(pre);
      AppendNothing(other);
    } else {
      AppendStep(c, pre, post[0]);
      AppendStep(c, other, post[0]);
      SameSuffixSameWorld(c, pre + [post[0]], other + [post[0]], post[1..]);
      ShiftHead(pre, post);
      ShiftHead(other, post);
    }
  }

  lemma ShiftHead<T>(pre: seq<T>, post: seq<T>)
    requires post != []
    ensures pre + [post[0]] + post[1..] == pre + post
  {
  }

  /**
   Swapping two neighbours whose footprints are disjoint leaves the committed leaves unchanged, unless both are
   closes that complete the same write with different identities.
   */
  lemma InterleavingIndependence(sha: Sha, c: Config, pre: seq<Event>, a: Event, b: Event, post: seq<Event>)
    requires Footprint(a) !! Footprint(b) && !Collide(c, Run(c, pre), a, b)
    ensures Leaves(sha, Canonical(sha, c, pre + [a, b] + post)) == Leaves(sha, Canonical(sha, c, pre + [b, a] + post))
  {
    IndependentStepsCommute(c, pre, a, b);
    TwoSteps(c, pre, a, b);
    TwoSteps(c, pre, b, a);
    SameSuffixSameWorld(c, pre + [a, b], pre + [b, a], post);
    SameWorldSameLeaves(sha, c, pre + [a, b] + post, pre + [b, a] + post);
  }

  lemma TwoSteps(c: Config, pre: seq<Event>, a: Event, b: Event)
    ensures WRun(c, pre + [a, b]) == WStep(c, WStep(c, WRun(c, pre), a), b)
  {
    AppendStep(c, pre, a);
    AppendStep(c, pre + [a], b);
    assert pre + [a] + [b] == pre + [a, b];
  }

  ghost predicate SwapAt(c: Config, t: seq<Event>, u: seq<Event>, pre: seq<Event>, a: Event, b: Event, post: seq<Event>)
  {
    && t == pre + [a, b] + post && u == pre + [b, a] + post
    && Footprint(a) !! Footprint(b)
    && !Collide(c, Run(c, pre), a, b)
  }

  ghost predicate Swapped(c: Config, t: seq<Event>, u: seq<Event>)
  {
    exists pre, a, b, post :: SwapAt(c, t, u, pre, a, b, post)
  }

  /** Each schedule of the sequence arises from its predecessor by one independent swap. */
  ghost predicate Rescheduling(c: Config, schedules: seq<seq<Event>>)
  {
    forall k :: 0 <= k < |schedules| - 1 ==> Swapped(c, schedules[k], schedules[k + 1])
  }

  lemma SwapKeepsLeaves(sha: Sha, c: Config, t: seq<Event>, u: seq<Event>)
    requires Swapped(c, t, u)
    ensures Leaves(sha, Canonical(sha, c, t)) == Leaves(sha, Canonical(sha, c, u))
  {
    var pre, a, b, post :| SwapAt(c, t, u, pre, a, b, post);
    InterleavingIndependence(sha, c, pre, a, b, post);
  }

  /** Every schedule that independent swaps can reach commits to the same leaves. */
  lemma {:induction false} ReschedulingKeepsLeaves(sha: Sha, c: Config, schedules: seq<seq<Event>>, n: nat)
    requires n < |schedules| && Rescheduling(c, schedules)
    ensures Leaves(sha, Canonical(sha, c, schedules[n])) == Leaves(sha, Canonical(sha, c, schedules[0]))
  {
    if n > 0 {
      ReschedulingKeepsLeaves(sha, c, schedules, n - 1);
      assert Swapped(c, schedules[n - 1], schedules[n - 1 + 1]);
      SwapKeepsLeaves(sha, c, schedules[n - 1], schedules[n]);
    }
  }

  // ---------------------------------------------------------------------------------------------
  // The side condition is needed: whichever of two closes of an inherited descriptor comes last decides.

  const ROOT := Instance(Lifetime(1, 0), 0)
  const CHILD := Instance(Lifetime(2, 0), 0)
  const OPENED := FileOpen(ROOT, "/o", 1, 3, false, Content("x"))
  function CloseOf(p: Instance, identity: string): Event
  {
    FileClose(p, 3, Some("/o"), false, Some(Content(identity)))
  }

  const ROOT_CLOSE := CloseOf(ROOT, "r")
  const CHILD_CLOSE := CloseOf(CHILD, "c")

  function WriteOf(identity: string): CanonicalOp
  {
    CanonicalOp(WriteOp, 0, None, [], [], [identity])
  }

  /** The scan state after the root opened descriptor 3 for writing and forked. */
  const FORKED := State([WriteOf("").(outputs := [])], [], map[ROOT := 0], 1,
                        map[(ROOT.lifetime, 3) := 0, (CHILD.lifetime, 3) := 0], map[], {}, map[])

  /** The state before the fork. */
  const HALF := FORKED.(pending := map[(ROOT.lifetime, 3) := 0])

  lemma ForkedStep(c: Config)
    ensures Step(c, HALF, Fork(ROOT, CHILD)) == FORKED
  {
    assert Inherit(map[(ROOT.lifetime, 3) := 0], ROOT.lifetime, CHILD.lifetime) == FORKED.pending;
  }

  lemma ForkedRun(c: Config)
    requires c == Config(ROOT, [])
    ensures Run(c, [OPENED, Fork(ROOT, CHILD)]) == FORKED
  {
    RunAppend(c, [], OPENED);
    RunAppend(c, [OPENED], Fork(ROOT, CHILD));
    assert [] + [OPENED] == [OPENED] && [OPENED] + [Fork(ROOT, CHILD)] == [OPENED, Fork(ROOT, CHILD)];
    OpenedStep(c);
    ForkedStep(c);
  }

  lemma OpenedStep(c: Config)
    requires c == Config(ROOT, [])
    ensures Step(c, Initial(ROOT), OPENED) == HALF
  {
    OpenedPathIsPlain();
    var s, d := Initial(ROOT), Decide(c, ViewOf(Initial(ROOT), ROOT), OPENED);
    assert d == NOTHING.(register := true, write := NewWrite(3, Op(WriteOp, None, [], [], []), false));
    assert Emitted(Note(s, ROOT, d), ROOT, d) == s;
  }

  lemma OpenedPathIsPlain()
    ensures !IsSystemState("/o")
  {
  }

  /** Closing descriptor 3 once more overwrites the identity that an earlier close recorded. */
  lemma CloseOverwrites(c: Config, s: State, e: Event, identity: string)
    requires c == Config(ROOT, [])
    requires e == CloseOf(ROOT, identity) || e == CloseOf(CHILD, identity)
    requires |s.ops| == 1 && s.ops[0].(outputs := []) == FORKED.ops[0]
    requires (e.process.lifetime, 3) in s.pending && s.pending[(e.process.lifetime, 3)] == 0
    ensures Step(c, s, e) == s.(ops := [WriteOf(identity)], pending := s.pending - {(e.process.lifetime, 3)})
    ensures Completes(c, s, e) == Some((0, identity))
  {
  }

  /** After two closes, of which the second is `e'`, the identity is that of the second. */
  lemma SecondCloseDecides(c: Config, e: Event, identity: string, e': Event, identity': string)
    requires c == Config(ROOT, [])
    requires e == CloseOf(ROOT, identity) || e == CloseOf(CHILD, identity)
    requires e' == CloseOf(ROOT, identity') || e' == CloseOf(CHILD, identity')
    requires e.process != e'.process
    ensures Run(c, [OPENED, Fork(ROOT, CHILD)] + [e, e']).ops == [WriteOf(identity')]
  {
    var pre := [OPENED, Fork(ROOT, CHILD)];
    ForkedRun(c);
    CloseOverwrites(c, FORKED, e, identity);
    CloseOverwrites(c, Step(c, FORKED, e), e', identity');
    RunAppend(c, pre, e);
    RunAppend(c, pre + [e], e');
    assert pre + [e] + [e'] == pre + [e, e'];
  }

  lemma LastCloseWins()
    ensures var c := Config(ROOT, []);
            var pre := [OPENED, Fork(ROOT, CHILD)];
            && Footprint(ROOT_CLOSE) !! Footprint(CHILD_CLOSE)
            && Collide(c, Run(c, pre), ROOT_CLOSE, CHILD_CLOSE)
            && Run(c, pre + [ROOT_CLOSE, CHILD_CLOSE]).ops == [WriteOf("c")]
            && Run(c, pre + [CHILD_CLOSE, ROOT_CLOSE]).ops == [WriteOf("r")]
  {
    var c := Config(ROOT, []);
    ForkedRun(c);
    CloseOverwrites(c, FORKED, ROOT_CLOSE, "r");
    CloseOverwrites(c, FORKED, CHILD_CLOSE, "c");
    SecondCloseDecides(c, ROOT_CLOSE, "r", CHILD_CLOSE, "c");
    SecondCloseDecides(c, CHILD_CLOSE, "c", ROOT_CLOSE, "r");
  }
}
