/**
 The canonicalizer regrouped by process lifetime.  A `World` keeps, for every lifetime, the operations that it
 emitted and its own view of descriptors and tools; a pending write is named by a token (lifetime, position in
 that lifetime's list) instead of a position in the common vector.  `StepTracks` shows that the scan of
 `Canonicalizer` is this machine up to the order of operations.
 */
module Worlds {
  import opened Text
  import opened Trace
  import opened Operations
  import opened Descriptors
  import opened Canonicalizer

  type Token = (Lifetime, nat)

  datatype Local = Local(
    ops: seq<CanonicalOp>,
    external: seq<CanonicalOp>,
    known: set<Instance>,
    pending: map<int, Token>,
    externalPending: map<int, nat>,
    fallback: bool,
    tools: map<Instance, string>)

  const FRESH := Local([], [], {}, map[], map[], false, map[])

  type World = map<Lifetime, Local>

  function At(w: World, l: Lifetime): Local
  {
    if l in w then w[l] else FRESH
  }

  function LocalView(loc: Local, p: Instance): View
  {
    View(loc.fallback, ToolOf(loc.tools, p), p in loc.known)
  }

  function LNote(loc: Local, p: Instance, d: Decision): Local
  {
    loc.(known := if d.register then loc.known + {p} else loc.known,
         tools := if d.setTool.Some? then loc.tools[p := d.setTool.value] else loc.tools,
         fallback := loc.fallback || d.mark)
  }

  function LEmit(loc: Local, external: bool, op: CanonicalOp): Local
  {
    if external then loc.(external := loc.external + [Erase(op)]) else loc.(ops := loc.ops + [Erase(op)])
  }

  function LEmitted(loc: Local, d: Decision): Local
  {
    if d.emit.Some? then LEmit(loc, d.external, d.emit.value) else loc
  }

  function LAwaiting(loc: Local, fd: int, external: bool): bool
  {
    if external then fd in loc.externalPending else fd in loc.pending
  }

  function LAwait(loc: Local, l: Lifetime, fd: int, external: bool, n: nat): Local
  {
    if external then loc.(externalPending := loc.externalPending[fd := n])
    else loc.(pending := loc.pending[fd := (l, n)])
  }

  function LStarted(loc: Local, l: Lifetime, d: Decision): Local
  {
    if d.write.NoWrite? || (d.write.keepOlder && LAwaiting(loc, d.write.fd, d.external)) then loc
    else LAwait(LEmit(loc, d.external, d.write.op), l, d.write.fd, d.external,
                if d.external then |loc.external| else |loc.ops|)
  }

  function LFinished(loc: Local, d: Decision): Local
  {
    if d.resolution.NoResolution? || !LAwaiting(loc, d.resolution.fd, d.external) then loc
    else if d.external then
      loc.(externalPending := loc.externalPending - {d.resolution.fd},
           external := SetOutput(loc.external, loc.externalPending[d.resolution.fd], d.resolution.identity))
    else loc.(pending := loc.pending - {d.resolution.fd})
  }

  /** The fork-tree write that a decision completes, possibly one that another lifetime opened. */
  function LTarget(loc: Local, d: Decision): Option<Token>
  {
    if d.resolution.Close? && !d.external && d.resolution.fd in loc.pending && d.resolution.identity.Some?
    then Some(loc.pending[d.resolution.fd]) else None
  }

  function LOpen(loc: Local, p: Instance, d: Decision): Local
  {
    LStarted(LEmitted(LNote(loc, p, d), d), p.lifetime, d)
  }

  function LApply(loc: Local, p: Instance, d: Decision): Local
  {
    LFinished(LOpen(loc, p, d), d)
  }

  function ForkLocal(parentLocal: Local, childLocal: Local, parent: Instance, child: Instance): Local
  {
    childLocal.(
      tools := if parent in parentLocal.tools then childLocal.tools[child := parentLocal.tools[parent]]
               else childLocal.tools,
      pending := childLocal.pending + parentLocal.pending)
  }

  function PatchLocal(loc: Local, n: nat, identity: string): Local
  {
    loc.(ops := SetOutput(loc.ops, n, Some(identity)))
  }

  function Patch(w: World, target: Option<Token>, identity: string): World
  {
    if target.None? then w
    else w[target.value.0 := PatchLocal(At(w, target.value.0), target.value.1, identity)]
  }

  function PatchedBy(w: World, loc: Local, d: Decision): World
  {
    match LTarget(loc, d)
    case None => w
    case Some(t) => Patch(w, Some(t), d.resolution.identity.value)
  }

  function WApply(w: World, p: Instance, d: Decision): World
  {
    var loc := At(w, p.lifetime);
    PatchedBy(w[p.lifetime := LApply(loc, p, d)], LOpen(loc, p, d), d)
  }

  function WStep(c: Config, w: World, e: Event): World
  {
    if e.Fork? then
      w[e.child.lifetime := ForkLocal(At(w, e.parent.lifetime), At(w, e.child.lifetime), e.parent, e.child)]
    else WApply(w, e.process, Decide(c, LocalView(At(w, e.process.lifetime), e.process), e))
  }

  function WRun(c: Config, events: seq<Event>): World
  {
    if events == [] then map[c.root.lifetime := FRESH.(known := {c.root})]
    else WStep(c, WRun(c, events[..|events| - 1]), events[|events| - 1])
  }

  // ---------------------------------------------------------------------------------------------
  // The scan state is the world with its operations interleaved.

  function Log(w: World, l: Lifetime, external: bool): seq<CanonicalOp>
  {
    if external then At(w, l).external else At(w, l).ops
  }

  /** `tok[i]` names the place of the i-th operation; every place is named exactly once. */
  ghost predicate OpsTracked(ops: seq<CanonicalOp>, tok: seq<Token>, w: World, x: bool)
  {
    && OpsNamed(ops, tok, w, x)
    && (forall i, j :: 0 <= i < j < |tok| ==> tok[i] != tok[j])
    && PlacesNamed(tok, w, x)
  }

  ghost predicate OpsNamed(ops: seq<CanonicalOp>, tok: seq<Token>, w: World, x: bool)
  {
    && |tok| == |ops|
    && forall i :: 0 <= i < |tok| ==>
         tok[i].1 < |Log(w, tok[i].0, x)| && Log(w, tok[i].0, x)[tok[i].1] == Erase(ops[i])
  }

  ghost predicate PlacesNamed(tok: seq<Token>, w: World, x: bool)
  {
    forall l, n :: 0 <= n < |Log(w, l, x)| ==> (l, n) in tok
  }

  ghost predicate PendingTracked(pending: map<Slot, nat>, w: World, tok: seq<Token>)
  {
    forall l, fd :: TrackedAt(pending, w, tok, l, fd)
  }

  ghost predicate TrackedAt(pending: map<Slot, nat>, w: World, tok: seq<Token>, l: Lifetime, fd: int)
  {
    && ((l, fd) in pending <==> fd in At(w, l).pending)
    && ((l, fd) in pending ==> pending[(l, fd)] < |tok| && tok[pending[(l, fd)]] == At(w, l).pending[fd])
  }

  ghost predicate ExternalTracked(pending: map<Slot, nat>, w: World, ext: seq<Token>)
  {
    forall l, fd ::
      && ((l, fd) in pending <==> fd in At(w, l).externalPending)
      && ((l, fd) in pending ==>
            pending[(l, fd)] < |ext| && ext[pending[(l, fd)]] == (l, At(w, l).externalPending[fd]))
  }

  ghost predicate IndexTracked(index: map<Instance, nat>, w: World)
  {
    forall p :: p in index <==> p in At(w, p.lifetime).known
  }

  ghost predicate ToolsTracked(tools: map<Instance, string>, w: World)
  {
    forall p :: ToolOf(tools, p) == ToolOf(At(w, p.lifetime).tools, p)
  }

  ghost predicate MarksTracked(fallback: set<Lifetime>, w: World)
  {
    forall l :: l in fallback <==> At(w, l).fallback
  }

  ghost predicate Tracks(s: State, w: World, tok: seq<Token>, ext: seq<Token>)
  {
    && OpsTracked(s.ops, tok, w, false) && OpsTracked(s.external, ext, w, true)
    && PendingTracked(s.pending, w, tok) && ExternalTracked(s.externalPending, w, ext)
    && IndexTracked(s.index, w) && ToolsTracked(s.tools, w) && MarksTracked(s.fallback, w)
  }

  // An update of one local state keeps what it does not touch.

  lemma KeepLogs(ops: seq<CanonicalOp>, tok: seq<Token>, w: World, l: Lifetime, loc: Local, x: bool)
    requires OpsTracked(ops, tok, w, x)
    requires if x then loc.external == At(w, l).external else loc.ops == At(w, l).ops
    ensures OpsTracked(ops, tok, w[l := loc], x)
  {
    assert forall k :: Log(w[l := loc], k, x) == Log(w, k, x);
  }

  lemma KeepPending(pending: map<Slot, nat>, w: World, tok: seq<Token>, more: seq<Token>, l: Lifetime, loc: Local)
    requires PendingTracked(pending, w, tok) && loc.pending == At(w, l).pending
    ensures PendingTracked(pending, w[l := loc], tok + more)
  {
    var w', tok' := w[l := loc], tok + more;
    forall k, fd ensures TrackedAt(pending, w', tok', k, fd) {
      assert TrackedAt(pending, w, tok, k, fd);
      assert At(w', k).pending == At(w, k).pending;
    }
  }

  lemma KeepExternal(pending: map<Slot, nat>, w: World, ext: seq<Token>, more: seq<Token>, l: Lifetime, loc: Local)
    requires ExternalTracked(pending, w, ext) && loc.externalPending == At(w, l).externalPending
    ensures ExternalTracked(pending, w[l := loc], ext + more)
  {
    assert forall k :: At(w[l := loc], k).externalPending == At(w, k).externalPending;
  }

  lemma KeepIndex(index: map<Instance, nat>, w: World, l: Lifetime, loc: Local)
    requires IndexTracked(index, w) && loc.known == At(w, l).known
    ensures IndexTracked(index, w[l := loc])
  {
    assert forall k :: At(w[l := loc], k).known == At(w, k).known;
  }

  lemma KeepTools(tools: map<Instance, string>, w: World, l: Lifetime, loc: Local)
    requires ToolsTracked(tools, w) && loc.tools == At(w, l).tools
    ensures ToolsTracked(tools, w[l := loc])
  {
    assert forall k :: At(w[l := loc], k).tools == At(w, k).tools;
  }

  lemma KeepMarks(fallback: set<Lifetime>, w: World, l: Lifetime, loc: Local)
    requires MarksTracked(fallback, w) && loc.fallback == At(w, l).fallback
    ensures MarksTracked(fallback, w[l := loc])
  {
    assert forall k :: At(w[l := loc], k).fallback == At(w, k).fallback;
  }

  lemma KeepNotes(s: State, w: World, l: Lifetime, loc: Local)
    requires IndexTracked(s.index, w) && ToolsTracked(s.tools, w) && MarksTracked(s.fallback, w)
    requires loc.known == At(w, l).known && loc.tools == At(w, l).tools && loc.fallback == At(w, l).fallback
    ensures IndexTracked(s.index, w[l := loc]) && ToolsTracked(s.tools, w[l := loc])
      && MarksTracked(s.fallback, w[l := loc])
  {
    KeepIndex(s.index, w, l, loc);
    KeepTools(s.tools, w, l, loc);
    KeepMarks(s.fallback, w, l, loc);
  }

  lemma RegisterIndex(s: State, w: World, p: Instance, loc: Local)
    requires IndexTracked(s.index, w) && loc.known == At(w, p.lifetime).known + {p}
    ensures IndexTracked(Register(s, p).index, w[p.lifetime := loc])
  {
    var w' := w[p.lifetime := loc];
    forall q ensures q in Register(s, p).index <==> q in At(w', q.lifetime).known {
      assert q in s.index <==> q in At(w, q.lifetime).known;
      assert p in s.index <==> p in At(w, p.lifetime).known;
    }
  }

  lemma SetTools(tools: map<Instance, string>, w: World, p: Instance, tool: string, loc: Local)
    requires ToolsTracked(tools, w) && loc.tools == At(w, p.lifetime).tools[p := tool]
    ensures ToolsTracked(tools[p := tool], w[p.lifetime := loc])
  {
    var w' := w[p.lifetime := loc];
    forall q ensures ToolOf(tools[p := tool], q) == ToolOf(At(w', q.lifetime).tools, q) {
      assert ToolOf(tools, q) == ToolOf(At(w, q.lifetime).tools, q);
    }
  }

  lemma NoteTracks(s: State, w: World, tok: seq<Token>, ext: seq<Token>, p: Instance, d: Decision)
    requires Tracks(s, w, tok, ext)
    ensures Tracks(Note(s, p, d), w[p.lifetime := LNote(At(w, p.lifetime), p, d)], tok, ext)
  {
    var l, loc := p.lifetime, LNote(At(w, p.lifetime), p, d);
    var t := Note(s, p, d);
    assert t.ops == s.ops && t.external == s.external && t.pending == s.pending
      && t.externalPending == s.externalPending;
    KeepLogs(s.ops, tok, w, l, loc, false);
    KeepLogs(s.external, ext, w, l, loc, true);
    KeepPending(s.pending, w, tok, [], l, loc);
    KeepExternal(s.externalPending, w, ext, [], l, loc);
    assert tok + [] == tok && ext + [] == ext;
    NoteNotes(s, w, p, d);
  }

  lemma NoteNotes(s: State, w: World, p: Instance, d: Decision)
    requires IndexTracked(s.index, w) && ToolsTracked(s.tools, w) && MarksTracked(s.fallback, w)
    ensures var t, w' := Note(s, p, d), w[p.lifetime := LNote(At(w, p.lifetime), p, d)];
            IndexTracked(t.index, w') && ToolsTracked(t.tools, w') && MarksTracked(t.fallback, w')
  {
    var l, loc := p.lifetime, LNote(At(w, p.lifetime), p, d);
    if d.register { RegisterIndex(s, w, p, loc); } else { KeepIndex(s.index, w, l, loc); }
    if d.setTool.Some? { SetTools(s.tools, w, p, d.setTool.value, loc); } else { KeepTools(s.tools, w, l, loc); }
    if !d.mark { KeepMarks(s.fallback, w, l, loc); } else { SetMark(s.fallback, w, l, loc); }
  }

  lemma SetMark(fallback: set<Lifetime>, w: World, l: Lifetime, loc: Local)
    requires MarksTracked(fallback, w) && loc.fallback
    ensures MarksTracked(fallback + {l}, w[l := loc])
  {
    forall k ensures k in fallback + {l} <==> At(w[l := loc], k).fallback {
      assert k in fallback <==> At(w, k).fallback;
    }
  }

  lemma AppendNames(ops: seq<CanonicalOp>, tok: seq<Token>, w: World, w': World, l: Lifetime, x: bool, op: CanonicalOp)
    requires OpsNamed(ops, tok, w, x)
    requires forall k :: Log(w', k, x) == if k == l then Log(w, l, x) + [Erase(op)] else Log(w, k, x)
    ensures OpsNamed(ops + [op], tok + [(l, |Log(w, l, x)|)], w', x)
  {
  }

  lemma AppendPlaces(tok: seq<Token>, w: World, w': World, l: Lifetime, x: bool)
    requires PlacesNamed(tok, w, x)
    requires forall k :: |Log(w', k, x)| == if k == l then |Log(w, l, x)| + 1 else |Log(w, k, x)|
    ensures PlacesNamed(tok + [(l, |Log(w, l, x)|)], w', x)
  {
    var n := |Log(w, l, x)|;
    var tok' := tok + [(l, n)];
    forall k, m | 0 <= m < |Log(w', k, x)| ensures (k, m) in tok' {
      if k == l && m == n { assert tok'[|tok|] == (k, m); }
      else { assert (k, m) in tok; }
    }
  }

  lemma AppendTracks(ops: seq<CanonicalOp>, tok: seq<Token>, w: World, l: Lifetime, loc: Local, x: bool,
        op: CanonicalOp)
    requires OpsTracked(ops, tok, w, x)
    requires (if x then loc.external else loc.ops) == Log(w, l, x) + [Erase(op)]
    ensures OpsTracked(ops + [op], tok + [(l, |Log(w, l, x)|)], w[l := loc], x)
  {
    var n, w' := |Log(w, l, x)|, w[l := loc];
    assert forall k :: Log(w', k, x) == if k == l then Log(w, l, x) + [Erase(op)] else Log(w, k, x);
    AppendNames(ops, tok, w, w', l, x, op);
    AppendPlaces(tok, w, w', l, x);
    forall i | 0 <= i < |tok| ensures tok[i] != (l, n) {
      assert tok[i].1 < |Log(w, tok[i].0, x)|;
    }
  }

  lemma EmitTracks(s: State, w: World, tok: seq<Token>, ext: seq<Token>, p: Instance, external: bool, op: CanonicalOp)
      returns (tok': seq<Token>, ext': seq<Token>)
    requires Tracks(s, w, tok, ext)
    ensures Tracks(Emit(s, p, external, op), w[p.lifetime := LEmit(At(w, p.lifetime), external, op)], tok', ext')
    ensures external ==> tok' == tok && ext' == ext + [(p.lifetime, |At(w, p.lifetime).external|)]
    ensures !external ==> tok' == tok + [(p.lifetime, |At(w, p.lifetime).ops|)] && ext' == ext
    ensures tok <= tok'
  {
    var l, loc := p.lifetime, LEmit(At(w, p.lifetime), external, op);
    KeepNotes(s, w, l, loc);
    assert tok + [] == tok && ext + [] == ext;
    if external {
      var more: seq<Token> := [(l, |At(w, l).external|)];
      tok', ext' := tok, ext + more;
      AppendTracks(s.external, ext, w, l, loc, true, op.(processIndex := U32_MAX));
      KeepLogs(s.ops, tok, w, l, loc, false);
      KeepPending(s.pending, w, tok, [], l, loc);
      KeepExternal(s.externalPending, w, ext, more, l, loc);
    } else {
      var more: seq<Token> := [(l, |At(w, l).ops|)];
      tok', ext' := tok + more, ext;
      AppendTracks(s.ops, tok, w, l, loc, false, op.(processIndex := IndexOf(s, p)));
      KeepLogs(s.external, ext, w, l, loc, true);
      KeepPending(s.pending, w, tok, more, l, loc);
      KeepExternal(s.externalPending, w, ext, [], l, loc);
    }
  }

  lemma PutPending(pending: map<Slot, nat>, w: World, tok: seq<Token>, l: Lifetime, fd: int, i: nat, loc: Local)
    requires PendingTracked(pending, w, tok) && i < |tok| && loc.pending == At(w, l).pending[fd := tok[i]]
    ensures PendingTracked(pending[(l, fd) := i], w[l := loc], tok)
  {
    var after, w' := pending[(l, fd) := i], w[l := loc];
    forall k, fd' ensures TrackedAt(after, w', tok, k, fd') {
      assert TrackedAt(pending, w, tok, k, fd');
    }
  }

  lemma PutExternal(pending: map<Slot, nat>, w: World, ext: seq<Token>, l: Lifetime, fd: int, i: nat, n: nat,
        loc: Local)
    requires ExternalTracked(pending, w, ext) && i < |ext| && ext[i] == (l, n)
    requires loc.externalPending == At(w, l).externalPending[fd := n]
    ensures ExternalTracked(pending[(l, fd) := i], w[l := loc], ext)
  {
  }

  lemma AwaitTracks(s: State, w: World, tok: seq<Token>, ext: seq<Token>, l: Lifetime, fd: int, external: bool,
        i: nat, n: nat)
    requires Tracks(s, w, tok, ext)
    requires if external then i < |ext| && ext[i] == (l, n) else i < |tok| && tok[i] == (l, n)
    ensures Tracks(Await(s, (l, fd), external, i), w[l := LAwait(At(w, l), l, fd, external, n)], tok, ext)
  {
    var loc := LAwait(At(w, l), l, fd, external, n);
    KeepLogs(s.ops, tok, w, l, loc, false);
    KeepLogs(s.external, ext, w, l, loc, true);
    KeepNotes(s, w, l, loc);
    assert tok + [] == tok && ext + [] == ext;
    if external {
      KeepPending(s.pending, w, tok, [], l, loc);
      PutExternal(s.externalPending, w, ext, l, fd, i, n, loc);
    } else {
      KeepExternal(s.externalPending, w, ext, [], l, loc);
      PutPending(s.pending, w, tok, l, fd, i, loc);
    }
  }

  lemma AwaitingTracks(s: State, w: World, tok: seq<Token>, ext: seq<Token>, l: Lifetime, fd: int, external: bool)
    requires Tracks(s, w, tok, ext)
    ensures Awaiting(s, (l, fd), external) == LAwaiting(At(w, l), fd, external)
  {
    assert TrackedAt(s.pending, w, tok, l, fd);
  }

  lemma SameWorld(s: State, w: World, tok: seq<Token>, ext: seq<Token>, l: Lifetime)
    requires Tracks(s, w, tok, ext)
    ensures Tracks(s, w[l := At(w, l)], tok, ext)
  {
    KeepLogs(s.ops, tok, w, l, At(w, l), false);
    KeepLogs(s.external, ext, w, l, At(w, l), true);
    KeepNotes(s, w, l, At(w, l));
    assert tok + [] == tok && ext + [] == ext;
    KeepPending(s.pending, w, tok, [], l, At(w, l));
    KeepExternal(s.externalPending, w, ext, [], l, At(w, l));
  }

  lemma StartTracks(s: State, w: World, tok: seq<Token>, ext: seq<Token>, p: Instance, fd: int, external: bool,
        op: CanonicalOp)
      returns (tok': seq<Token>, ext': seq<Token>)
    requires Tracks(s, w, tok, ext)
    ensures var l := p.lifetime;
            var loc := At(w, l);
            Tracks(Await(Emit(s, p, external, op), (l, fd), external, if external then |s.external| else |s.ops|),
                   w[l := LAwait(LEmit(loc, external, op), l, fd, external,
                     if external then |loc.external| else |loc.ops|)],
                   tok', ext')
    ensures tok <= tok'
  {
    var l := p.lifetime;
    var loc := At(w, l);
    tok', ext' := EmitTracks(s, w, tok, ext, p, external, op);
    var s1, w1 := Emit(s, p, external, op), w[l := LEmit(loc, external, op)];
    AwaitTracks(s1, w1, tok', ext', l, fd, external,
                if external then |s.external| else |s.ops|, if external then |loc.external| else |loc.ops|);
    OverwriteLocal(w, l, LEmit(loc, external, op), LAwait(LEmit(loc, external, op), l, fd, external,
      if external then |loc.external| else |loc.ops|));
  }

  lemma StartedTracks(s: State, w: World, tok: seq<Token>, ext: seq<Token>, p: Instance, d: Decision)
      returns (tok': seq<Token>, ext': seq<Token>)
    requires Tracks(s, w, tok, ext)
    ensures Tracks(Started(s, p, d), w[p.lifetime := LStarted(At(w, p.lifetime), p.lifetime, d)], tok', ext')
    ensures tok <= tok'
  {
    var l := p.lifetime;
    tok', ext' := tok, ext;
    if d.write.NewWrite? { AwaitingTracks(s, w, tok, ext, l, d.write.fd, d.external); }
    if d.write.NoWrite? || (d.write.keepOlder && Awaiting(s, (l, d.write.fd), d.external)) {
      SameWorld(s, w, tok, ext, l);
    } else {
      tok', ext' := StartTracks(s, w, tok, ext, p, d.write.fd, d.external, d.write.op);
    }
  }

  lemma SetOutputTracks(ops: seq<CanonicalOp>, tok: seq<Token>, w: World, w': World, x: bool, i: nat,
        id: Option<string>)
    requires OpsTracked(ops, tok, w, x) && i < |tok|
    requires forall k :: Log(w', k, x) == if k == tok[i].0 then SetOutput(Log(w, k, x), tok[i].1, id) else Log(w, k, x)
    ensures OpsTracked(SetOutput(ops, i, id), tok, w', x)
  {
    forall j | 0 <= j < |tok|
      ensures tok[j].1 < |Log(w', tok[j].0, x)|
      ensures Log(w', tok[j].0, x)[tok[j].1] == Erase(SetOutput(ops, i, id)[j])
    {
      if j < i { assert tok[j] != tok[i]; } else if i < j { assert tok[i] != tok[j]; }
    }
  }

  lemma DropPending(pending: map<Slot, nat>, w: World, tok: seq<Token>, l: Lifetime, fd: int, loc: Local)
    requires PendingTracked(pending, w, tok) && loc.pending == At(w, l).pending - {fd}
    ensures PendingTracked(pending - {(l, fd)}, w[l := loc], tok)
  {
    var after, w' := pending - {(l, fd)}, w[l := loc];
    forall k, fd' ensures TrackedAt(after, w', tok, k, fd') {
      assert TrackedAt(pending, w, tok, k, fd');
    }
  }

  lemma DropExternal(pending: map<Slot, nat>, w: World, ext: seq<Token>, l: Lifetime, fd: int, loc: Local)
    requires ExternalTracked(pending, w, ext) && loc.externalPending == At(w, l).externalPending - {fd}
    ensures ExternalTracked(pending - {(l, fd)}, w[l := loc], ext)
  {
  }

  lemma ExternalFinishTracks(s: State, w: World, tok: seq<Token>, ext: seq<Token>, l: Lifetime, d: Decision)
    requires Tracks(s, w, tok, ext) && d.resolution.Close? && d.external
    requires (l, d.resolution.fd) in s.externalPending && d.resolution.fd in At(w, l).externalPending
    ensures var slot := (l, d.resolution.fd);
            Tracks(s.(externalPending := s.externalPending - {slot},
                      external := SetOutput(s.external, s.externalPending[slot], d.resolution.identity)),
                   w[l := LFinished(At(w, l), d)], tok, ext)
  {
    var loc, i, id := LFinished(At(w, l), d), s.externalPending[(l, d.resolution.fd)], d.resolution.identity;
    var w', n := w[l := loc], At(w, l).externalPending[d.resolution.fd];
    assert i < |ext| && ext[i] == (l, n);
    assert forall k :: Log(w', k, true) == if k == l then SetOutput(Log(w, k, true), n, id) else Log(w, k, true);
    SetOutputTracks(s.external, ext, w, w', true, i, id);
    KeepLogs(s.ops, tok, w, l, loc, false);
    KeepNotes(s, w, l, loc);
    assert tok + [] == tok;
    KeepPending(s.pending, w, tok, [], l, loc);
    DropExternal(s.externalPending, w, ext, l, d.resolution.fd, loc);
  }

  /** Close the descriptor, the write not yet completed. */
  lemma DropTracks(s: State, w: World, tok: seq<Token>, ext: seq<Token>, l: Lifetime, fd: int)
    requires Tracks(s, w, tok, ext)
    ensures Tracks(s.(pending := s.pending - {(l, fd)}),
                   w[l := At(w, l).(pending := At(w, l).pending - {fd})], tok, ext)
  {
    var loc := At(w, l).(pending := At(w, l).pending - {fd});
    KeepLogs(s.ops, tok, w, l, loc, false);
    KeepLogs(s.external, ext, w, l, loc, true);
    KeepNotes(s, w, l, loc);
    assert ext + [] == ext;
    KeepExternal(s.externalPending, w, ext, [], l, loc);
    DropPending(s.pending, w, tok, l, fd, loc);
  }

  /** Complete a write, wherever it was opened. */
  lemma PatchTracks(s: State, w: World, tok: seq<Token>, ext: seq<Token>, i: nat, id: string)
    requires Tracks(s, w, tok, ext) && i < |tok|
    ensures Tracks(s.(ops := SetOutput(s.ops, i, Some(id))), Patch(w, Some(tok[i]), id), tok, ext)
  {
    var l, n := tok[i].0, tok[i].1;
    var loc := PatchLocal(At(w, l), n, id);
    var w' := w[l := loc];
    assert forall k ::
      Log(w', k, false) == if k == l then SetOutput(Log(w, k, false), n, Some(id)) else Log(w, k, false);
    SetOutputTracks(s.ops, tok, w, w', false, i, Some(id));
    KeepLogs(s.external, ext, w, l, loc, true);
    KeepNotes(s, w, l, loc);
    assert tok + [] == tok && ext + [] == ext;
    KeepPending(s.pending, w, tok, [], l, loc);
    KeepExternal(s.externalPending, w, ext, [], l, loc);
  }

  lemma ForkTreeFinishTracks(s: State, w: World, tok: seq<Token>, ext: seq<Token>, l: Lifetime, d: Decision)
    requires Tracks(s, w, tok, ext) && d.resolution.Close? && !d.external
    requires (l, d.resolution.fd) in s.pending && d.resolution.fd in At(w, l).pending
    ensures var slot := (l, d.resolution.fd);
            Tracks(s.(pending := s.pending - {slot},
                      ops := SetOutput(s.ops, s.pending[slot], d.resolution.identity)),
                   PatchedBy(w[l := LFinished(At(w, l), d)], At(w, l), d), tok, ext)
  {
    var fd, i, id := d.resolution.fd, s.pending[(l, d.resolution.fd)], d.resolution.identity;
    assert TrackedAt(s.pending, w, tok, l, fd);
    DropTracks(s, w, tok, ext, l, fd);
    var t, v := s.(pending := s.pending - {(l, fd)}), w[l := LFinished(At(w, l), d)];
    if id.Some? { PatchTracks(t, v, tok, ext, i, id.value); }
  }

  lemma FinishedTracks(s: State, w: World, tok: seq<Token>, ext: seq<Token>, p: Instance, d: Decision)
    requires Tracks(s, w, tok, ext)
    ensures var loc := At(w, p.lifetime);
            Tracks(Finished(s, p, d), PatchedBy(w[p.lifetime := LFinished(loc, d)], loc, d), tok, ext)
  {
    var l := p.lifetime;
    if d.resolution.Close? { AwaitingTracks(s, w, tok, ext, l, d.resolution.fd, d.external); }
    if d.resolution.NoResolution? || !Awaiting(s, (l, d.resolution.fd), d.external) {
      SameWorld(s, w, tok, ext, l);
    } else if d.external {
      ExternalFinishTracks(s, w, tok, ext, l, d);
    } else {
      ForkTreeFinishTracks(s, w, tok, ext, l, d);
    }
  }

  lemma EmittedTracks(s: State, w: World, tok: seq<Token>, ext: seq<Token>, p: Instance, d: Decision)
      returns (tok': seq<Token>, ext': seq<Token>)
    requires Tracks(s, w, tok, ext)
    ensures Tracks(Emitted(s, p, d), w[p.lifetime := LEmitted(At(w, p.lifetime), d)], tok', ext')
    ensures tok <= tok'
  {
    tok', ext' := tok, ext;
    if d.emit.Some? {
      tok', ext' := EmitTracks(s, w, tok, ext, p, d.external, d.emit.value);
    } else {
      SameWorld(s, w, tok, ext, p.lifetime);
    }
  }

  lemma OverwriteLocal(w: World, l: Lifetime, x: Local, y: Local)
    ensures At(w[l := x], l) == x && w[l := x][l := y] == w[l := y]
  {
  }

  lemma ApplyTracks(s: State, w: World, tok: seq<Token>, ext: seq<Token>, p: Instance, d: Decision)
      returns (tok': seq<Token>, ext': seq<Token>)
    requires Tracks(s, w, tok, ext)
    ensures Tracks(Apply(s, p, d), WApply(w, p, d), tok', ext')
    ensures tok <= tok'
  {
    var l := p.lifetime;
    var s1, x1 := Note(s, p, d), LNote(At(w, l), p, d);
    NoteTracks(s, w, tok, ext, p, d);
    tok', ext' := EmittedTracks(s1, w[l := x1], tok, ext, p, d);
    var s2, x2 := Emitted(s1, p, d), LEmitted(x1, d);
    OverwriteLocal(w, l, x1, x2);
    tok', ext' := StartedTracks(s2, w[l := x2], tok', ext', p, d);
    var s3, x3 := Started(s2, p, d), LStarted(x2, l, d);
    OverwriteLocal(w, l, x2, x3);
    FinishedTracks(s3, w[l := x3], tok', ext', p, d);
    OverwriteLocal(w, l, x3, LFinished(x3, d));
  }

  lemma ForkTracks(s: State, w: World, tok: seq<Token>, ext: seq<Token>, parent: Instance, child: Instance)
    requires Tracks(s, w, tok, ext)
    ensures var w' := w[child.lifetime := ForkLocal(At(w, parent.lifetime), At(w, child.lifetime), parent, child)];
            Tracks(ForkState(s, parent, child), w', tok, ext)
  {
    var l, loc := child.lifetime, ForkLocal(At(w, parent.lifetime), At(w, child.lifetime), parent, child);
    KeepLogs(s.ops, tok, w, l, loc, false);
    KeepLogs(s.external, ext, w, l, loc, true);
    KeepIndex(s.index, w, l, loc);
    KeepMarks(s.fallback, w, l, loc);
    assert ext + [] == ext;
    KeepExternal(s.externalPending, w, ext, [], l, loc);
    assert ToolOf(s.tools, parent) == ToolOf(At(w, parent.lifetime).tools, parent);
    if parent in s.tools { SetTools(s.tools, w, child, s.tools[parent], loc); } else { KeepTools(s.tools, w, l, loc); }
    ForkPendingTracks(s.pending, w, tok, parent.lifetime, child.lifetime, loc);
  }

  lemma ForkPendingTracks(pending: map<Slot, nat>, w: World, tok: seq<Token>, pl: Lifetime, cl: Lifetime, loc: Local)
    requires PendingTracked(pending, w, tok) && loc.pending == At(w, cl).pending + At(w, pl).pending
    ensures PendingTracked(Inherit(pending, pl, cl), w[cl := loc], tok)
  {
    var after, w' := Inherit(pending, pl, cl), w[cl := loc];
    forall l, fd ensures TrackedAt(after, w', tok, l, fd) {
      assert TrackedAt(pending, w, tok, l, fd) && TrackedAt(pending, w, tok, pl, fd);
      ForkPendingAt(pending, w, tok, pl, cl, loc, l, fd);
    }
  }

  lemma ForkPendingAt(pending: map<Slot, nat>, w: World, tok: seq<Token>, pl: Lifetime, cl: Lifetime, loc: Local,
                      l: Lifetime, fd: int)
    requires loc.pending == At(w, cl).pending + At(w, pl).pending
    requires TrackedAt(pending, w, tok, l, fd) && TrackedAt(pending, w, tok, pl, fd)
    ensures TrackedAt(Inherit(pending, pl, cl), w[cl := loc], tok, l, fd)
  {
    InheritValue(pending, pl, cl, l, fd);
    assert At(w[cl := loc], l) == if l == cl then loc else At(w, l);
  }

  lemma InheritValue(pending: map<Slot, nat>, pl: Lifetime, cl: Lifetime, l: Lifetime, fd: int)
    ensures var after := Inherit(pending, pl, cl);
            && ((l, fd) in after <==> (l, fd) in pending || (l == cl && (pl, fd) in pending))
            && ((l, fd) in after ==>
                  (after[(l, fd)] == if l == cl && (pl, fd) in pending then pending[(pl, fd)] else pending[(l, fd)]))
  {
  }

  lemma StepTracks(c: Config, s: State, w: World, tok: seq<Token>, ext: seq<Token>, e: Event)
      returns (tok': seq<Token>, ext': seq<Token>)
    requires Tracks(s, w, tok, ext)
    ensures Tracks(Step(c, s, e), WStep(c, w, e), tok', ext')
    ensures tok <= tok'
  {
    tok', ext' := tok, ext;
    if e.Fork? {
      ForkTracks(s, w, tok, ext, e.parent, e.child);
    } else {
      assert ViewOf(s, e.process) == LocalView(At(w, e.process.lifetime), e.process);
      tok', ext' := ApplyTracks(s, w, tok, ext, e.process, Decide(c, ViewOf(s, e.process), e));
    }
  }

  /** The scan refines the regrouped machine along every trace. */
  lemma {:induction false} RunTracks(c: Config, events: seq<Event>) returns (tok: seq<Token>, ext: seq<Token>)
    ensures Tracks(Run(c, events), WRun(c, events), tok, ext)
  {
    if events == [] {
      tok, ext := [], [];
      InitialTracks(c);
    } else {
      var n := |events| - 1;
      tok, ext := RunTracks(c, events[..n]);
      tok, ext := StepTracks(c, Run(c, events[..n]), WRun(c, events[..n]), tok, ext, events[n]);
    }
  }

  ghost predicate RunTracked(c: Config, events: seq<Event>, tok: seq<Token>, ext: seq<Token>)
  {
    Tracks(Run(c, events), WRun(c, events), tok, ext)
  }

  lemma OneMoreTracks(c: Config, events: seq<Event>, tok: seq<Token>, ext: seq<Token>, n: nat)
      returns (tok': seq<Token>, ext': seq<Token>)
    requires |events| == n + 1 && RunTracked(c, events[..n], tok, ext)
    ensures RunTracked(c, events, tok', ext') && tok <= tok'
  {
    tok', ext' := StepTracks(c, Run(c, events[..n]), WRun(c, events[..n]), tok, ext, events[n]);
  }

  lemma SamePrefixTracked(c: Config, events: seq<Event>, others: seq<Event>, tok: seq<Token>, ext: seq<Token>)
    requires RunTracked(c, events, tok, ext) && events == others
    ensures RunTracked(c, others, tok, ext)
  {
  }

  /** Any tracking of a prefix extends to the whole: operations keep their places. */
  lemma {:induction false} TracksExtend(c: Config, events: seq<Event>, i: nat, tok: seq<Token>, ext: seq<Token>)
      returns (tok': seq<Token>, ext': seq<Token>)
    requires i <= |events| && RunTracked(c, events[..i], tok, ext)
    ensures RunTracked(c, events, tok', ext') && tok <= tok'
  {
    if i == |events| {
      SamePrefixTracked(c, events[..i], events, tok, ext);
      tok', ext' := tok, ext;
    } else {
      var n := |events| - 1;
      SamePrefixTracked(c, events[..i], events[..n][..i], tok, ext);
      var mid, midExt := TracksExtend(c, events[..n], i, tok, ext);
      tok', ext' := OneMoreTracks(c, events, mid, midExt, n);
    }
  }

  lemma InitialTracks(c: Config)
    ensures Tracks(Initial(c.root), map[c.root.lifetime := FRESH.(known := {c.root})], [], [])
  {
    assert At(map[c.root.lifetime := FRESH.(known := {c.root})], c.root.lifetime).known == {c.root};
  }

  lemma TrackedOpsCovered(sha: Sha, ops: seq<CanonicalOp>, others: seq<CanonicalOp>, tok: seq<Token>,
        tok': seq<Token>, w: World, x: bool)
    requires OpsTracked(ops, tok, w, x) && OpsTracked(others, tok', w, x)
    ensures CoveredBy(ops, others)
  {
    forall op | op in ops ensures exists other :: other in others && SameUpToFieldOrder(op, other) {
      var i :| 0 <= i < |ops| && ops[i] == op;
      assert (tok[i].0, tok[i].1) in tok';
      var j :| 0 <= j < |tok'| && tok'[j] == tok[i];
      assert Erase(others[j]) == Erase(op);
      assert SameUpToFieldOrder(op, others[j]);
    }
  }

  /** Runs that end in the same world commit to the same leaves. */
  lemma SameWorldSameLeaves(sha: Sha, c: Config, events: seq<Event>, others: seq<Event>)
    requires WRun(c, events) == WRun(c, others)
    ensures Leaves(sha, Canonical(sha, c, events)) == Leaves(sha, Canonical(sha, c, others))
  {
    var s, t, w := Run(c, events), Run(c, others), WRun(c, events);
    var tok, ext := RunTracks(c, events);
    var tok', ext' := RunTracks(c, others);
    TrackedOpsCovered(sha, s.ops, t.ops, tok, tok', w, false);
    TrackedOpsCovered(sha, t.ops, s.ops, tok', tok, w, false);
    TrackedOpsCovered(sha, s.external, t.external, ext, ext', w, true);
    TrackedOpsCovered(sha, t.external, s.external, ext', ext, w, true);
    CoveredConcat(s.ops, s.external, t.ops, t.external);
    CoveredConcat(t.ops, t.external, s.ops, s.external);
    LeavesIgnoreOrderAndCount(sha, s.ops + s.external, t.ops + t.external);
  }

  lemma CoveredConcat(a: seq<CanonicalOp>, b: seq<CanonicalOp>, a': seq<CanonicalOp>, b': seq<CanonicalOp>)
    requires CoveredBy(a, a') && CoveredBy(b, b')
    ensures CoveredBy(a + b, a' + b')
  {
    forall op | op in a + b ensures exists other :: other in a' + b' && SameUpToFieldOrder(op, other) {
      if op in a {
        var other :| other in a' && SameUpToFieldOrder(op, other);
        assert other in a' + b';
      } else {
        var other :| other in b' && SameUpToFieldOrder(op, other);
        assert other in a' + b';
      }
    }
  }
}
