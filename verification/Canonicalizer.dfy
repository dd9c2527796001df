/**
 The event canonicalizer: one pass over the trace that emits operations, with pending writes kept as
 indices into the vector of operations emitted so far.

 `Decide` is the branch logic of one event; what it reads of the scan state is a `View` of the acting
 process. `Apply` carries a decision out. The method `CanonicalizeEvents` is the imperative pass.
 */
module Canonicalizer {
  import opened Text
  import opened Trace
  import opened Paths
  import opened Operations
  import opened Descriptors

  datatype Config = Config(root: Instance, prefixes: seq<string>)

  datatype State = State(
    ops: seq<CanonicalOp>,
    external: seq<CanonicalOp>,
    index: map<Instance, nat>,
    next: nat,
    pending: map<Slot, nat>,
    externalPending: map<Slot, nat>,
    fallback: set<Lifetime>,
    tools: map<Instance, string>)

  function Initial(root: Instance): State
  {
    State([], [], map[root := 0], 1, map[], map[], {}, map[])
  }

  /** All that the handling of an event reads about its process. */
  datatype View = View(fallback: bool, tool: Option<string>, known: bool)

  datatype Write = NoWrite | NewWrite(fd: int, op: CanonicalOp, keepOlder: bool)
  datatype Resolution = NoResolution | Close(fd: int, identity: Option<string>)

  /** What one event does; `external` says to which of the two operation vectors. */
  datatype Decision = Decision(
    external: bool,
    register: bool,
    setTool: Option<string>,
    mark: bool,
    emit: Option<CanonicalOp>,
    write: Write,
    resolution: Resolution)

  const NOTHING := Decision(false, false, None, false, None, NoWrite, NoResolution)

  /** A fork-tree event that is nevertheless booked as external. */
  predicate FallsBack(c: Config, v: View, e: Event, onWatched: bool)
    requires !e.Fork? && !e.Exec? && !e.Exit?
  {
    && !e.external
    && e.process.lifetime != c.root.lifetime
    && onWatched
    && (v.fallback || v.tool.None?)
  }

  function DecideOpen(c: Config, v: View, e: Event): Decision
    requires e.FileOpen?
  {
    var input, output := CanRead(e.flags), CanWrite(e.flags);
    var watched := Watched(e.path, c.prefixes);
    if e.external && !watched then NOTHING
    else if e.external || FallsBack(c, v, e, watched) then
      Decision(true, false, None, true,
        if input then Some(Op(ExternalReadOp, None, [], [e.observation.Identity()], [])) else None,
        if output then NewWrite(e.fd, Op(ExternalWriteOp, None, [], [], []), false) else NoWrite,
        NoResolution)
    else if IsSystemState(e.path) then
      NOTHING.(register := true, emit := Some(Op(SystemStateOp, v.tool, [], [SYSTEM_STATE_SENTINEL], [])))
    else
      NOTHING.(register := true,
        emit := if input then Some(Op(ReadOp, v.tool, [], [e.observation.Identity()], [])) else None,
        write := if output then NewWrite(e.fd, Op(WriteOp, v.tool, [], [], []), false) else NoWrite)
  }

  function DecideMmap(c: Config, v: View, e: Event): Decision
    requires e.FileMmap?
  {
    if e.mapped.None? || e.seen.None? || (e.external && !Watched(e.mapped.value, c.prefixes)) then NOTHING
    else
      var path, identity := e.mapped.value, e.seen.value.Identity();
      var output := IsSharedWrite(e.prot, e.flags);
      if e.external || FallsBack(c, v, e, Watched(path, c.prefixes)) then
        Decision(true, false, None, true,
          Some(Op(ExternalReadOp, None, ["mmap"], [identity], [])),
          if output then NewWrite(e.fd, Op(ExternalWriteOp, None, [], [], []), true) else NoWrite,
          NoResolution)
      else if IsSystemState(path) then
        NOTHING.(register := true, emit := Some(Op(SystemStateOp, v.tool, [], [SYSTEM_STATE_SENTINEL], [])))
      else
        NOTHING.(register := true,
          emit := Some(Op(ReadOp, v.tool, ["mmap"], [identity], [])),
          write := if output then NewWrite(e.fd, Op(WriteOp, v.tool, [], [], []), true) else NoWrite)
  }

  function ObservedIdentity(seen: Option<Observation>): Option<string>
  {
    match seen case Some(o) => Some(o.Identity()) case None => None
  }

  function DecideClose(c: Config, v: View, e: Event): Decision
    requires e.FileClose?
  {
    if e.closed.None? then NOTHING
    else
      var fallsBack := !e.external && e.process.lifetime != c.root.lifetime && v.fallback
                       && Watched(e.closed.value, c.prefixes);
      NOTHING.(external := e.external || fallsBack, resolution := Close(e.fd, ObservedIdentity(e.seen)))
  }

  function DecideRename(c: Config, v: View, e: Event): Decision
    requires e.FileRename?
  {
    var watched := Watched(e.from, c.prefixes) || Watched(e.to, c.prefixes);
    var id, args := e.observation.Identity(), ["flags:" + Hex(e.flags)];
    if e.external || FallsBack(c, v, e, watched) then
      NOTHING.(external := true, mark := true, emit := Some(Op(ExternalRenameOp, None, args, [id], [id])))
    else
      NOTHING.(register := true, emit := Some(Op(RenameOp, v.tool, args, [id], [id])))
  }

  function DecideUnlink(c: Config, v: View, e: Event): Decision
    requires e.FileUnlink?
  {
    var id, args := e.observation.Identity(), ["flags:" + Hex(e.flags)];
    if e.external || FallsBack(c, v, e, Watched(e.path, c.prefixes)) then
      NOTHING.(external := true, mark := true, emit := Some(Op(ExternalDeleteOp, None, args, [id], [])))
    else
      NOTHING.(register := true, emit := Some(Op(DeleteOp, v.tool, args, [id], [])))
  }

  function DecideExit(c: Config, v: View, e: Event): Decision
    requires e.Exit?
  {
    if !v.known then NOTHING
    else
      var args := if e.process.lifetime == c.root.lifetime then ["exit:" + Signed(e.exitCode)] else [];
      NOTHING.(emit := Some(Op(ExitOp, v.tool, args, [], [])))
  }

  function Decide(c: Config, v: View, e: Event): Decision
    requires !e.Fork?
  {
    match e
    case Exec(_, o) =>
      NOTHING.(register := true, setTool := Some(o.Identity()),
               emit := Some(Op(ExecOp, Some(o.Identity()), [], [], [])))
    case FileOpen(_, _, _, _, _, _) => DecideOpen(c, v, e)
    case FileMmap(_, _, _, _, _, _, _) => DecideMmap(c, v, e)
    case FileClose(_, _, _, _, _) => DecideClose(c, v, e)
    case FileRename(_, _, _, _, _, _) => DecideRename(c, v, e)
    case FileUnlink(_, _, _, _, _) => DecideUnlink(c, v, e)
    case Exit(_, _) => DecideExit(c, v, e)
  }

  function ToolOf(tools: map<Instance, string>, p: Instance): Option<string>
  {
    if p in tools then Some(tools[p]) else None
  }

  function ViewOf(s: State, p: Instance): View
  {
    View(p.lifetime in s.fallback, ToolOf(s.tools, p), p in s.index)
  }

  function IndexOf(s: State, p: Instance): nat
  {
    if p in s.index then s.index[p] else 0
  }

  function Register(s: State, p: Instance): State
  {
    if p in s.index then s else s.(index := s.index[p := s.next], next := s.next + 1)
  }

  /** Bookkeeping about the process: its index, its tool and the sticky external mark. */
  function Note(s: State, p: Instance, d: Decision): State
  {
    var s1 := if d.register then Register(s, p) else s;
    var s2 := if d.setTool.Some? then s1.(tools := s1.tools[p := d.setTool.value]) else s1;
    if d.mark then s2.(fallback := s2.fallback + {p.lifetime}) else s2
  }

  function Emit(s: State, p: Instance, external: bool, op: CanonicalOp): State
  {
    if external then s.(external := s.external + [op.(processIndex := U32_MAX)])
    else s.(ops := s.ops + [op.(processIndex := IndexOf(s, p))])
  }

  function Awaiting(s: State, slot: Slot, external: bool): bool
  {
    if external then slot in s.externalPending else slot in s.pending
  }

  function Await(s: State, slot: Slot, external: bool, i: nat): State
  {
    if external then s.(externalPending := s.externalPending[slot := i]) else s.(pending := s.pending[slot := i])
  }

  function StartWrite(s: State, p: Instance, external: bool, w: Write): State
    requires w.NewWrite?
  {
    var slot := (p.lifetime, w.fd);
    if w.keepOlder && Awaiting(s, slot, external) then s
    else Await(Emit(s, p, external, w.op), slot, external, if external then |s.external| else |s.ops|)
  }

  function SetOutput(ops: seq<CanonicalOp>, i: nat, identity: Option<string>): (r: seq<CanonicalOp>)
    ensures |r| == |ops|
  {
    if i < |ops| && identity.Some? then ops[i := ops[i].(outputs := [identity.value])] else ops
  }

  function Finish(s: State, p: Instance, external: bool, r: Resolution): State
    requires r.Close?
  {
    var slot := (p.lifetime, r.fd);
    if external then
      if slot !in s.externalPending then s
      else s.(externalPending := s.externalPending - {slot},
              external := SetOutput(s.external, s.externalPending[slot], r.identity))
    else
      if slot !in s.pending then s
      else s.(pending := s.pending - {slot}, ops := SetOutput(s.ops, s.pending[slot], r.identity))
  }

  function Emitted(s: State, p: Instance, d: Decision): State
  {
    if d.emit.Some? then Emit(s, p, d.external, d.emit.value) else s
  }

  function Started(s: State, p: Instance, d: Decision): State
  {
    if d.write.NewWrite? then StartWrite(s, p, d.external, d.write) else s
  }

  function Finished(s: State, p: Instance, d: Decision): State
  {
    if d.resolution.Close? then Finish(s, p, d.external, d.resolution) else s
  }

  function Apply(s: State, p: Instance, d: Decision): State
  {
    Finished(Started(Emitted(Note(s, p, d), p, d), p, d), p, d)
  }

  function ForkState(s: State, parent: Instance, child: Instance): State
  {
    s.(tools := if parent in s.tools then s.tools[child := s.tools[parent]] else s.tools,
       pending := Inherit(s.pending, parent.lifetime, child.lifetime))
  }

  function Step(c: Config, s: State, e: Event): State
  {
    if e.Fork? then ForkState(s, e.parent, e.child)
    else Apply(s, e.process, Decide(c, ViewOf(s, e.process), e))
  }

  function Run(c: Config, events: seq<Event>): State
  {
    if events == [] then Initial(c.root)
    else Step(c, Run(c, events[..|events| - 1]), events[|events| - 1])
  }

  function Canonical(sha: Sha, c: Config, events: seq<Event>): seq<CanonicalOp>
  {
    Finalized(sha, Run(c, events).ops + Run(c, events).external)
  }

  lemma RunStep(c: Config, events: seq<Event>, i: nat)
    requires i < |events|
    ensures Run(c, events[..i + 1]) == Step(c, Run(c, events[..i]), events[i])
  {
    assert events[..i + 1][..i] == events[..i];
  }

  lemma RunAppend(c: Config, pre: seq<Event>, e: Event)
    ensures Run(c, pre + [e]) == Step(c, Run(c, pre), e)
  {
    assert (pre + [e])[..|pre|] == pre;
  }
}
