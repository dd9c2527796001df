/**
 Where the recorded operations come from, told by the events of the trace alone: which events record which operations,
 in which order, and which close gives a write its output.
 */
module CanonicalProvenance {
  import opened Sequences
  import opened Text
  import opened Trace
  import opened Paths
  import opened Operations
  import opened Descriptors
  import opened Canonicalizer
  import opened CanonicalFacts

  // ---------------------------------------------------------------------------------------------
  // Writes: started by an event on a descriptor, handed on by forks, completed by closes.

  /** The path that an open or an observed mapping is about. */
  function PathOf(e: Event): string
    requires e.FileOpen? || (e.FileMmap? && e.mapped.Some?)
  {
    if e.FileOpen? then e.path else e.mapped.value
  }

  /** The event opens its file for writing or maps it so that memory is written back. */
  predicate MayWrite(e: Event)
  {
    || (e.FileOpen? && CanWrite(e.flags))
    || (e.FileMmap? && e.mapped.Some? && e.seen.Some? && IsSharedWrite(e.prot, e.flags))
  }

  /** The event opens or maps descriptor `fd` of `l` for writing, counting as external or as the build's own. */
  predicate WritesTo(c: Config, before: seq<Event>, e: Event, l: Lifetime, fd: int, foreign: bool)
  {
    && MayWrite(e) && e.process.lifetime == l && e.fd == fd
    && if foreign then IsForeign(c, before, e) else IsOwn(c, before, e) && !IsSystemState(PathOf(e))
  }

  predicate Closes(c: Config, before: seq<Event>, e: Event, l: Lifetime, fd: int, foreign: bool)
  {
    && e.FileClose? && e.closed.Some? && e.process.lifetime == l && e.fd == fd
    && (foreign <==> ClosesForeign(c, before, e))
  }

  /**
   The event that started the write now open at a descriptor.  Another open replaces it, another mapping does not; a
   close ends it; a fork hands the build's own writes on to the child.
   */
  function OpenWrite(c: Config, events: seq<Event>, l: Lifetime, fd: int, foreign: bool): (i: Option<nat>)
    ensures i.Some? ==> i.value < |events|
    decreases |events|
  {
    if events == [] then None
    else
      var n, before, e := |events| - 1, events[..|events| - 1], events[|events| - 1];
      if WritesTo(c, before, e, l, fd, foreign) && (e.FileOpen? || OpenWrite(c, before, l, fd, foreign).None?)
      then Some(n)
      else if Closes(c, before, e, l, fd, foreign) then None
      else if !foreign && e.Fork? && e.child.lifetime == l && OpenWrite(c, before, e.parent.lifetime, fd, false).Some?
      then OpenWrite(c, before, e.parent.lifetime, fd, false)
      else OpenWrite(c, before, l, fd, foreign)
  }

  /** The event starts a write of its own. */
  predicate StartsWrite(c: Config, before: seq<Event>, e: Event, foreign: bool)
  {
    && MayWrite(e) && WritesTo(c, before, e, e.process.lifetime, e.fd, foreign)
    && (e.FileMmap? ==> OpenWrite(c, before, e.process.lifetime, e.fd, foreign).None?)
  }

  /** The event closes the write that event `i` started. */
  predicate Completes(c: Config, before: seq<Event>, e: Event, i: nat, foreign: bool)
  {
    && e.FileClose? && Closes(c, before, e, e.process.lifetime, e.fd, foreign)
    && OpenWrite(c, before, e.process.lifetime, e.fd, foreign) == Some(i)
  }

  /** What the last close that completed the write of event `i` observed. */
  function OutputOf(c: Config, events: seq<Event>, i: nat, foreign: bool): seq<string>
  {
    if |events| <= i + 1 then []
    else
      var before, e := events[..|events| - 1], events[|events| - 1];
      if Completes(c, before, e, i, foreign) && e.seen.Some? then [e.seen.value.Identity()]
      else OutputOf(c, before, i, foreign)
  }

  // ---------------------------------------------------------------------------------------------
  // Which event tells which operation.

  predicate IsWrite(t: OpType)
  {
    t.WriteOp? || t.ExternalWriteOp?
  }

  predicate IsExternal(t: OpType)
  {
    t.ExternalReadOp? || t.ExternalWriteOp? || t.ExternalRenameOp? || t.ExternalDeleteOp?
  }

  /** The event reads its file: a readable open, without arguments, or a mapping, with "mmap". */
  predicate ReadsAs(e: Event, args: seq<string>, inputs: seq<string>)
  {
    || (e.FileOpen? && CanRead(e.flags) && args == [] && inputs == [e.observation.Identity()])
    || (e.FileMmap? && e.seen.Some? && args == ["mmap"] && inputs == [e.seen.value.Identity()])
  }

  predicate NamesFile(e: Event)
  {
    e.FileOpen? || (e.FileMmap? && e.mapped.Some?)
  }

  /** The operation tells this about the event, whatever its process index and, for a write, its output. */
  predicate TellsOf(c: Config, before: seq<Event>, e: Event, op: CanonicalOp)
  {
    match op.opType
    case ExecOp =>
      && e.Exec? && op.tool == Some(e.observation.Identity()) && op.args == [] && op.inputs == [] && op.outputs == []
    case ReadOp =>
      && IsOwn(c, before, e) && NamesFile(e) && !IsSystemState(PathOf(e)) && op.tool == LastImage(before, e.process)
      && ReadsAs(e, op.args, op.inputs) && op.outputs == []
    case SystemStateOp =>
      && IsOwn(c, before, e) && NamesFile(e) && IsSystemState(PathOf(e)) && op.tool == LastImage(before, e.process)
      && op.args == [] && op.inputs == [SYSTEM_STATE_SENTINEL] && op.outputs == []
    case WriteOp =>
      && StartsWrite(c, before, e, false) && op.tool == LastImage(before, e.process) && op.args == [] && op.inputs == []
    case RenameOp =>
      && IsOwn(c, before, e) && e.FileRename? && op.tool == LastImage(before, e.process)
      && op.args == ["flags:" + Hex(e.flags)] && op.inputs == [e.observation.Identity()] && op.outputs == op.inputs
    case DeleteOp =>
      && IsOwn(c, before, e) && e.FileUnlink? && op.tool == LastImage(before, e.process)
      && op.args == ["flags:" + Hex(e.flags)] && op.inputs == [e.observation.Identity()] && op.outputs == []
    case ExitOp =>
      && e.Exit? && e.process in Processes(c, before) && op.tool == LastImage(before, e.process)
      && op.args == (if e.process.lifetime == c.root.lifetime then ["exit:" + Signed(e.exitCode)] else [])
      && op.inputs == [] && op.outputs == []
    case ExternalReadOp =>
      IsForeign(c, before, e) && op.tool == None && ReadsAs(e, op.args, op.inputs) && op.outputs == []
    case ExternalWriteOp => StartsWrite(c, before, e, true) && op.tool == None && op.args == [] && op.inputs == []
    case ExternalRenameOp =>
      && IsForeign(c, before, e) && e.FileRename? && op.tool == None
      && op.args == ["flags:" + Hex(e.flags)] && op.inputs == [e.observation.Identity()] && op.outputs == op.inputs
    case ExternalDeleteOp =>
      && IsForeign(c, before, e) && e.FileUnlink? && op.tool == None
      && op.args == ["flags:" + Hex(e.flags)] && op.inputs == [e.observation.Identity()] && op.outputs == []
  }

  /** The number of the event's process among those known, or the largest one for an external operation. */
  predicate HasIndexOf(c: Config, events: seq<Event>, p: Instance, op: CanonicalOp)
  {
    if IsExternal(op.opType) then op.processIndex == U32_MAX
    else op.processIndex < |Processes(c, events)| && Processes(c, events)[op.processIndex] == p
  }

  /** After the whole trace, the operation tells what event `i` did. */
  predicate Tells(c: Config, events: seq<Event>, i: nat, op: CanonicalOp)
  {
    && i < |events| && TellsOf(c, events[..i], events[i], op) && !events[i].Fork?
    && HasIndexOf(c, events, events[i].process, op)
    && (IsWrite(op.opType) ==> op.outputs == OutputOf(c, events, i, IsExternal(op.opType)))
  }

  /** Which event an operation comes from, and whether it is the write that the event starts. */
  datatype Origin = Origin(event: nat, write: bool)

  /** The event records something that is no write. */
  predicate Accesses(c: Config, before: seq<Event>, e: Event, foreign: bool)
  {
    match e
    case Exec(_, _) => !foreign
    case FileOpen(_, path, flags, _, _, _) =>
      if foreign then IsForeign(c, before, e) && CanRead(flags)
      else IsOwn(c, before, e) && (IsSystemState(path) || CanRead(flags))
    case Exit(p, _) => !foreign && p in Processes(c, before)
    case _ => if foreign then IsForeign(c, before, e) else IsOwn(c, before, e)
  }

  function OriginsAt(c: Config, before: seq<Event>, e: Event, foreign: bool): seq<Origin>
  {
    (if Accesses(c, before, e, foreign) then [Origin(|before|, false)] else [])
    + if StartsWrite(c, before, e, foreign) then [Origin(|before|, true)] else []
  }

  /** The origins of all operations of one kind, in the order of the events, for each first the access. */
  function Origins(c: Config, events: seq<Event>, foreign: bool): seq<Origin>
  {
    if events == [] then []
    else
      var n := |events| - 1;
      Origins(c, events[..n], foreign) + OriginsAt(c, events[..n], events[n], foreign)
  }

  // ---------------------------------------------------------------------------------------------
  // A decision carries out what the trace tells.

  predicate DecidesAccess(c: Config, before: seq<Event>, e: Event, d: Decision, foreign: bool)
    requires !e.Fork?
  {
    && (Accesses(c, before, e, foreign) <==> d.emit.Some? && d.external == foreign)
    && (d.emit.Some? && d.external == foreign ==>
          && TellsOf(c, before, e, d.emit.value) && !IsWrite(d.emit.value.opType)
          && IsExternal(d.emit.value.opType) == foreign)
  }

  predicate DecidesWrite(c: Config, before: seq<Event>, e: Event, d: Decision, foreign: bool)
    requires !e.Fork?
  {
    && (d.write.NewWrite? && d.external == foreign <==>
          MayWrite(e) && WritesTo(c, before, e, e.process.lifetime, e.fd, foreign))
    && (d.write.NewWrite? && d.external == foreign ==>
          d.write == NewWrite(e.fd, if foreign then Op(ExternalWriteOp, None, [], [], [])
                                    else Op(WriteOp, LastImage(before, e.process), [], [], []), e.FileMmap?))
  }

  lemma OpenDecides(c: Config, before: seq<Event>, v: View, e: Event, foreign: bool)
    requires e.FileOpen? && SeesProcess(c, before, v, e.process)
    ensures DecidesAccess(c, before, e, DecideOpen(c, v, e), foreign)
    ensures DecidesWrite(c, before, e, DecideOpen(c, v, e), foreign)
  {
  }

  lemma MmapDecides(c: Config, before: seq<Event>, v: View, e: Event, foreign: bool)
    requires e.FileMmap? && SeesProcess(c, before, v, e.process)
    ensures DecidesAccess(c, before, e, DecideMmap(c, v, e), foreign)
    ensures DecidesWrite(c, before, e, DecideMmap(c, v, e), foreign)
  {
  }

  lemma RenameDecides(c: Config, before: seq<Event>, v: View, e: Event, foreign: bool)
    requires e.FileRename? && SeesProcess(c, before, v, e.process)
    ensures DecidesAccess(c, before, e, DecideRename(c, v, e), foreign)
  {
  }

  lemma UnlinkDecides(c: Config, before: seq<Event>, v: View, e: Event, foreign: bool)
    requires e.FileUnlink? && SeesProcess(c, before, v, e.process)
    ensures DecidesAccess(c, before, e, DecideUnlink(c, v, e), foreign)
  {
  }

  lemma ProcessDecides(c: Config, before: seq<Event>, v: View, e: Event, foreign: bool)
    requires (e.Exec? || e.Exit?) && SeesProcess(c, before, v, e.process)
    ensures DecidesAccess(c, before, e, Decide(c, v, e), foreign)
  {
  }

  lemma DecisionRecords(c: Config, before: seq<Event>, v: View, e: Event, foreign: bool)
    requires !e.Fork? && !e.FileClose? && SeesProcess(c, before, v, e.process)
    ensures var d := Decide(c, v, e);
            && DecidesAccess(c, before, e, d, foreign) && DecidesWrite(c, before, e, d, foreign)
            && d.resolution.NoResolution?
  {
    match e
    case FileOpen(_, _, _, _, _, _) => OpenDecides(c, before, v, e, foreign);
    case FileMmap(_, _, _, _, _, _, _) => MmapDecides(c, before, v, e, foreign);
    case FileRename(_, _, _, _, _, _) => RenameDecides(c, before, v, e, foreign);
    case FileUnlink(_, _, _, _, _) => UnlinkDecides(c, before, v, e, foreign);
    case _ => ProcessDecides(c, before, v, e, foreign);
  }

  lemma CloseDecides(c: Config, before: seq<Event>, v: View, e: Event)
    requires e.FileClose? && SeesProcess(c, before, v, e.process)
    ensures var d := Decide(c, v, e);
            && d.emit.None? && d.write.NoWrite? && !d.register && !d.mark && d.setTool.None?
            && d.external == ClosesForeign(c, before, e)
            && d.resolution == if e.closed.Some? then Close(e.fd, ObservedIdentity(e.seen)) else NoResolution
  {
  }

  // ---------------------------------------------------------------------------------------------
  // What a decision does to either vector of operations and to the table of its open writes.

  function Vec(s: State, foreign: bool): seq<CanonicalOp>
  {
    if foreign then s.external else s.ops
  }

  function Table(s: State, foreign: bool): map<Slot, nat>
  {
    if foreign then s.externalPending else s.pending
  }

  function Numbered(s: State, p: Instance, d: Decision, op: CanonicalOp): CanonicalOp
  {
    op.(processIndex := if d.external then U32_MAX else IndexOf(Note(s, p, d), p))
  }

  predicate Begins(s: State, p: Instance, d: Decision, foreign: bool)
  {
    d.write.NewWrite? && d.external == foreign
    && !(d.write.keepOlder && (p.lifetime, d.write.fd) in Table(s, foreign))
  }

  function AddedAccess(s: State, p: Instance, d: Decision, foreign: bool): seq<CanonicalOp>
  {
    if d.emit.Some? && d.external == foreign then [Numbered(s, p, d, d.emit.value)] else []
  }

  function AddedWrite(s: State, p: Instance, d: Decision, foreign: bool): seq<CanonicalOp>
  {
    if Begins(s, p, d, foreign) then [Numbered(s, p, d, d.write.op)] else []
  }

  lemma NoteKeepsVec(s: State, p: Instance, d: Decision, foreign: bool)
    ensures Vec(Note(s, p, d), foreign) == Vec(s, foreign) && Table(Note(s, p, d), foreign) == Table(s, foreign)
  {
  }

  lemma EmittedAdds(s: State, t: State, p: Instance, d: Decision, foreign: bool)
    requires Vec(t, foreign) == Vec(s, foreign) && Table(t, foreign) == Table(s, foreign)
    requires IndexOf(t, p) == IndexOf(Note(s, p, d), p)
    ensures Vec(Emitted(t, p, d), foreign) == Vec(s, foreign) + AddedAccess(s, p, d, foreign)
    ensures Table(Emitted(t, p, d), foreign) == Table(s, foreign)
    ensures IndexOf(Emitted(t, p, d), p) == IndexOf(t, p)
  {
  }

  lemma StartedAdds(s: State, t: State, p: Instance, d: Decision, foreign: bool)
    requires Table(t, foreign) == Table(s, foreign) && IndexOf(t, p) == IndexOf(Note(s, p, d), p)
    ensures Vec(Started(t, p, d), foreign) == Vec(t, foreign) + AddedWrite(s, p, d, foreign)
    ensures Table(Started(t, p, d), foreign) ==
      if Begins(s, p, d, foreign) then Table(s, foreign)[(p.lifetime, d.write.fd) := |Vec(t, foreign)|]
      else Table(s, foreign)
  {
  }

  lemma ApplyAdds(s: State, p: Instance, d: Decision, foreign: bool)
    requires d.resolution.NoResolution?
    ensures var t := Apply(s, p, d);
            && Vec(t, foreign) == Vec(s, foreign) + AddedAccess(s, p, d, foreign) + AddedWrite(s, p, d, foreign)
            && Table(t, foreign) ==
                 if Begins(s, p, d, foreign)
                 then Table(s, foreign)[(p.lifetime, d.write.fd) :=
                                          |Vec(s, foreign) + AddedAccess(s, p, d, foreign)|]
                 else Table(s, foreign)
  {
    var t := Note(s, p, d);
    NoteKeepsVec(s, p, d, foreign);
    EmittedAdds(s, t, p, d, foreign);
    StartedAdds(s, Emitted(t, p, d), p, d, foreign);
  }

  lemma ApplyCloses(s: State, p: Instance, d: Decision, foreign: bool)
    requires d.emit.None? && d.write.NoWrite? && !d.register && !d.mark && d.setTool.None? && d.resolution.Close?
    ensures var t, slot := Apply(s, p, d), (p.lifetime, d.resolution.fd);
            if d.external == foreign && slot in Table(s, foreign)
            then Vec(t, foreign) == SetOutput(Vec(s, foreign), Table(s, foreign)[slot], d.resolution.identity)
                 && Table(t, foreign) == Table(s, foreign) - {slot}
            else Vec(t, foreign) == Vec(s, foreign) && Table(t, foreign) == Table(s, foreign)
  {
  }

  // ---------------------------------------------------------------------------------------------
  // The operations after a trace.

  predicate IsToldBy(c: Config, events: seq<Event>, op: CanonicalOp, o: Origin, foreign: bool)
  {
    && Tells(c, events, o.event, op)
    && (IsWrite(op.opType) <==> o.write) && (IsExternal(op.opType) <==> foreign)
  }

  predicate AllTold(c: Config, events: seq<Event>, ops: seq<CanonicalOp>, origins: seq<Origin>, foreign: bool)
  {
    |ops| == |origins| && forall k :: 0 <= k < |ops| ==> IsToldBy(c, events, ops[k], origins[k], foreign)
  }

  /** The table points at the write that is open at a descriptor. */
  predicate PointsAtOpen(c: Config, events: seq<Event>, table: map<Slot, nat>, origins: seq<Origin>, l: Lifetime,
      fd: int, foreign: bool)
  {
    match OpenWrite(c, events, l, fd, foreign)
    case None => (l, fd) !in table
    case Some(i) => (l, fd) in table && table[(l, fd)] < |origins| && origins[table[(l, fd)]] == Origin(i, true)
  }

  ghost predicate KnowsWrites(c: Config, events: seq<Event>, table: map<Slot, nat>, origins: seq<Origin>, foreign: bool)
  {
    forall l, fd :: PointsAtOpen(c, events, table, origins, l, fd, foreign)
  }

  lemma {:induction false} OriginsAreEarlier(c: Config, events: seq<Event>, foreign: bool, k: nat)
    requires k < |Origins(c, events, foreign)|
    ensures Origins(c, events, foreign)[k].event < |events|
  {
    var n := |events| - 1;
    if k < |Origins(c, events[..n], foreign)| { OriginsAreEarlier(c, events[..n], foreign, k); }
  }

  lemma {:induction false} OriginsAscend(c: Config, events: seq<Event>, foreign: bool, j: nat, k: nat)
    requires j < k < |Origins(c, events, foreign)|
    ensures var o, o' := Origins(c, events, foreign)[j], Origins(c, events, foreign)[k];
            o.event < o'.event || (o.event == o'.event && !o.write && o'.write)
  {
    var n := |events| - 1;
    var earlier := Origins(c, events[..n], foreign);
    if k < |earlier| {
      OriginsAscend(c, events[..n], foreign, j, k);
    } else if j < |earlier| {
      OriginsAreEarlier(c, events[..n], foreign, j);
    }
  }

  lemma OriginsAreDistinct(c: Config, events: seq<Event>, foreign: bool, j: nat, k: nat)
    requires j < |Origins(c, events, foreign)| && k < |Origins(c, events, foreign)|
    requires Origins(c, events, foreign)[j] == Origins(c, events, foreign)[k]
    ensures j == k
  {
    if j < k { OriginsAscend(c, events, foreign, j, k); }
    if k < j { OriginsAscend(c, events, foreign, k, j); }
  }

  lemma IndexStays(c: Config, events: seq<Event>, n: nat, p: Instance, op: CanonicalOp)
    requires |events| == n + 1 && HasIndexOf(c, events[..n], p, op)
    ensures HasIndexOf(c, events, p, op)
  {
    ProcessesGrow(c, events, n);
  }

  /** One more event changes what was told at most in the output of the write that it completes. */
  lemma ToldStays(c: Config, events: seq<Event>, n: nat, i: nat, op: CanonicalOp)
    requires |events| == n + 1 && Tells(c, events[..n], i, op)
    ensures if IsWrite(op.opType) && Completes(c, events[..n], events[n], i, IsExternal(op.opType))
               && events[n].seen.Some?
            then Tells(c, events, i, op.(outputs := [events[n].seen.value.Identity()]))
            else Tells(c, events, i, op)
  {
    NestedPrefix(events, n, i);
    IndexStays(c, events, n, events[i].process, op);
  }

  lemma ToldConcat(c: Config, events: seq<Event>, a: seq<CanonicalOp>, x: seq<Origin>, b: seq<CanonicalOp>,
      y: seq<Origin>, foreign: bool)
    requires AllTold(c, events, a, x, foreign) && AllTold(c, events, b, y, foreign)
    ensures AllTold(c, events, a + b, x + y, foreign)
  {
  }

  /** An event that closes nothing leaves all that was told as it is. */
  lemma AllToldStays(c: Config, events: seq<Event>, n: nat, ops: seq<CanonicalOp>, origins: seq<Origin>, foreign: bool)
    requires |events| == n + 1 && !events[n].FileClose? && AllTold(c, events[..n], ops, origins, foreign)
    ensures AllTold(c, events, ops, origins, foreign)
  {
    forall k | 0 <= k < |ops| ensures IsToldBy(c, events, ops[k], origins[k], foreign) {
      ToldStays(c, events, n, origins[k].event, ops[k]);
    }
  }

  lemma NumberIsIndex(c: Config, events: seq<Event>, s: State, p: Instance, op: CanonicalOp)
    requires Numbers(s.index, s.next, Processes(c, events))
    requires if IsExternal(op.opType) then op.processIndex == U32_MAX
             else p in Processes(c, events) && op.processIndex == IndexOf(s, p)
    ensures HasIndexOf(c, events, p, op)
  {
    if !IsExternal(op.opType) {
      var k :| 0 <= k < |Processes(c, events)| && Processes(c, events)[k] == p;
      assert s.index[Processes(c, events)[k]] == k;
    }
  }

  /** Whoever acts for the build is known afterwards. */
  lemma ActorIsKnown(c: Config, events: seq<Event>, n: nat)
    requires |events| == n + 1
    requires Accesses(c, events[..n], events[n], false) || StartsWrite(c, events[..n], events[n], false)
    ensures !events[n].Fork? && events[n].process in Processes(c, events)
  {
  }

  lemma AccessIsTold(c: Config, s: State, events: seq<Event>, n: nat, d: Decision, foreign: bool)
    requires |events| == n + 1 && !events[n].Fork? && DecidesAccess(c, events[..n], events[n], d, foreign)
    requires Numbers(Note(s, events[n].process, d).index, Note(s, events[n].process, d).next, Processes(c, events))
    ensures AllTold(c, events, AddedAccess(s, events[n].process, d, foreign),
                    if Accesses(c, events[..n], events[n], foreign) then [Origin(n, false)] else [], foreign)
  {
    var p := events[n].process;
    if Accesses(c, events[..n], events[n], foreign) {
      var op := Numbered(s, p, d, d.emit.value);
      if !foreign { ActorIsKnown(c, events, n); }
      NumberIsIndex(c, events, Note(s, p, d), p, op);
      assert TellsOf(c, events[..n], events[n], op);
    }
  }

  lemma WriteIsTold(c: Config, s: State, events: seq<Event>, n: nat, d: Decision, foreign: bool)
    requires |events| == n + 1 && !events[n].Fork? && DecidesWrite(c, events[..n], events[n], d, foreign)
    requires Begins(s, events[n].process, d, foreign) <==> StartsWrite(c, events[..n], events[n], foreign)
    requires Numbers(Note(s, events[n].process, d).index, Note(s, events[n].process, d).next, Processes(c, events))
    ensures AllTold(c, events, AddedWrite(s, events[n].process, d, foreign),
                    if StartsWrite(c, events[..n], events[n], foreign) then [Origin(n, true)] else [], foreign)
  {
    var p := events[n].process;
    if StartsWrite(c, events[..n], events[n], foreign) {
      var op := Numbered(s, p, d, d.write.op);
      if !foreign { ActorIsKnown(c, events, n); }
      NumberIsIndex(c, events, Note(s, p, d), p, op);
      assert TellsOf(c, events[..n], events[n], op);
    }
  }

  /** A write begins unless it is by a mapping and another one is open. */
  lemma BeginsIffStarts(c: Config, s: State, before: seq<Event>, e: Event, d: Decision, foreign: bool)
    requires !e.Fork? && DecidesWrite(c, before, e, d, foreign)
    requires KnowsWrites(c, before, Table(s, foreign), Origins(c, before, foreign), foreign)
    ensures Begins(s, e.process, d, foreign) <==> StartsWrite(c, before, e, foreign)
  {
    if d.write.NewWrite? && d.external == foreign {
      assert PointsAtOpen(c, before, Table(s, foreign), Origins(c, before, foreign), e.process.lifetime, e.fd, foreign);
    }
  }

  /** After an access the table points at the write that the access began, and is otherwise as before. */
  lemma AccessPointsAtOpen(c: Config, s: State, events: seq<Event>, n: nat, d: Decision, table: map<Slot, nat>,
      foreign: bool, l: Lifetime, fd: int)
    requires |events| == n + 1 && !events[n].Fork? && !events[n].FileClose?
    requires DecidesWrite(c, events[..n], events[n], d, foreign)
    requires DecidesAccess(c, events[..n], events[n], d, foreign)
    requires Begins(s, events[n].process, d, foreign) <==> StartsWrite(c, events[..n], events[n], foreign)
    requires |Vec(s, foreign)| == |Origins(c, events[..n], foreign)|
    requires PointsAtOpen(c, events[..n], Table(s, foreign), Origins(c, events[..n], foreign), l, fd, foreign)
    requires table == if Begins(s, events[n].process, d, foreign)
                      then Table(s, foreign)[(events[n].process.lifetime, d.write.fd) :=
                             |Vec(s, foreign) + AddedAccess(s, events[n].process, d, foreign)|]
                      else Table(s, foreign)
    ensures PointsAtOpen(c, events, table, Origins(c, events, foreign), l, fd, foreign)
  {
    var before, e := events[..n], events[n];
    var earlier, origins := Origins(c, before, foreign), Origins(c, events, foreign);
    assert earlier <= origins;
    if Begins(s, e.process, d, foreign) {
      LastOrigin(c, events, n, foreign);
    }
  }

  lemma LastOrigin(c: Config, events: seq<Event>, n: nat, foreign: bool)
    requires |events| == n + 1 && StartsWrite(c, events[..n], events[n], foreign)
    ensures var k := |Origins(c, events[..n], foreign)|
                     + if Accesses(c, events[..n], events[n], foreign) then 1 else 0;
            k < |Origins(c, events, foreign)| && Origins(c, events, foreign)[k] == Origin(n, true)
  {
  }

  /** Operations and table of one kind are as the trace tells. */
  ghost predicate KnowsOps(c: Config, events: seq<Event>, s: State, foreign: bool)
  {
    && AllTold(c, events, Vec(s, foreign), Origins(c, events, foreign), foreign)
    && KnowsWrites(c, events, Table(s, foreign), Origins(c, events, foreign), foreign)
  }

  lemma AccessKnowsOps(c: Config, s: State, events: seq<Event>, n: nat, foreign: bool)
    requires |events| == n + 1 && !events[n].Fork? && !events[n].FileClose?
    requires KnowsProcesses(c, s, events[..n]) && KnowsOps(c, events[..n], s, foreign)
    ensures KnowsOps(c, events, Step(c, s, events[n]), foreign)
  {
    var before, e, p := events[..n], events[n], events[n].process;
    var d := Decide(c, ViewOf(s, p), e);
    ViewSees(c, s, before, p);
    DecisionRecords(c, before, ViewOf(s, p), e, foreign);
    DecisionNotes(c, before, ViewOf(s, p), e);
    NoteNumbers(c, s, d, events, n);
    BeginsIffStarts(c, s, before, e, d, foreign);
    ApplyAdds(s, p, d, foreign);
    AccessTells(c, s, events, n, d, Apply(s, p, d), foreign);
    var table := Table(Apply(s, p, d), foreign);
    forall l, fd ensures PointsAtOpen(c, events, table, Origins(c, events, foreign), l, fd, foreign) {
      assert PointsAtOpen(c, before, Table(s, foreign), Origins(c, before, foreign), l, fd, foreign);
      AccessPointsAtOpen(c, s, events, n, d, table, foreign, l, fd);
    }
  }

  lemma AccessTells(c: Config, s: State, events: seq<Event>, n: nat, d: Decision, t: State, foreign: bool)
    requires |events| == n + 1 && !events[n].Fork? && !events[n].FileClose?
    requires DecidesAccess(c, events[..n], events[n], d, foreign)
    requires DecidesWrite(c, events[..n], events[n], d, foreign)
    requires Begins(s, events[n].process, d, foreign) <==> StartsWrite(c, events[..n], events[n], foreign)
    requires Numbers(Note(s, events[n].process, d).index, Note(s, events[n].process, d).next, Processes(c, events))
    requires AllTold(c, events[..n], Vec(s, foreign), Origins(c, events[..n], foreign), foreign)
    requires Vec(t, foreign) == Vec(s, foreign) + AddedAccess(s, events[n].process, d, foreign)
                                + AddedWrite(s, events[n].process, d, foreign)
    ensures AllTold(c, events, Vec(t, foreign), Origins(c, events, foreign), foreign)
  {
    var before, e, p := events[..n], events[n], events[n].process;
    var access := if Accesses(c, before, e, foreign) then [Origin(n, false)] else [];
    var write := if StartsWrite(c, before, e, foreign) then [Origin(n, true)] else [];
    AllToldStays(c, events, n, Vec(s, foreign), Origins(c, before, foreign), foreign);
    AccessIsTold(c, s, events, n, d, foreign);
    WriteIsTold(c, s, events, n, d, foreign);
    ToldConcat(c, events, Vec(s, foreign), Origins(c, before, foreign), AddedAccess(s, p, d, foreign), access, foreign);
    ToldConcat(c, events, Vec(s, foreign) + AddedAccess(s, p, d, foreign), Origins(c, before, foreign) + access,
               AddedWrite(s, p, d, foreign), write, foreign);
    Assoc(Origins(c, before, foreign), access, write);
  }

  /** Events that record nothing leave the list of origins alone. */
  lemma NoOrigin(c: Config, events: seq<Event>, n: nat, foreign: bool)
    requires |events| == n + 1 && (events[n].Fork? || events[n].FileClose?)
    ensures Origins(c, events, foreign) == Origins(c, events[..n], foreign)
  {
    AppendNothing(Origins(c, events[..n], foreign));
  }

  lemma InheritedAt(pending: map<Slot, nat>, parent: Lifetime, child: Lifetime, l: Lifetime, fd: int)
    ensures var after := Inherit(pending, parent, child);
            if l == child && (parent, fd) in pending then (l, fd) in after && after[(l, fd)] == pending[(parent, fd)]
            else ((l, fd) in after <==> (l, fd) in pending)
                 && ((l, fd) in pending ==> after[(l, fd)] == pending[(l, fd)])
  {
    assert (l, fd) in Inherit(pending, parent, child) <==>
      (l, fd) in pending || Inherits(pending, parent, child, (l, fd));
  }

  lemma ForkPointsAtOpen(c: Config, events: seq<Event>, n: nat, pending: map<Slot, nat>, origins: seq<Origin>,
      l: Lifetime, fd: int)
    requires |events| == n + 1 && events[n].Fork?
    requires PointsAtOpen(c, events[..n], pending, origins, l, fd, false)
    requires PointsAtOpen(c, events[..n], pending, origins, events[n].parent.lifetime, fd, false)
    ensures var after := Inherit(pending, events[n].parent.lifetime, events[n].child.lifetime);
            PointsAtOpen(c, events, after, origins, l, fd, false)
  {
    InheritedAt(pending, events[n].parent.lifetime, events[n].child.lifetime, l, fd);
  }

  /** A fork hands on the build's own writes and no external ones. */
  lemma ForkKnowsWrites(c: Config, s: State, events: seq<Event>, n: nat, origins: seq<Origin>, foreign: bool)
    requires |events| == n + 1 && events[n].Fork?
    requires KnowsWrites(c, events[..n], Table(s, foreign), origins, foreign)
    ensures KnowsWrites(c, events, Table(Step(c, s, events[n]), foreign), origins, foreign)
  {
    var e, table := events[n], Table(s, foreign);
    forall l, fd ensures PointsAtOpen(c, events, Table(Step(c, s, e), foreign), origins, l, fd, foreign) {
      assert PointsAtOpen(c, events[..n], table, origins, l, fd, foreign);
      if !foreign {
        assert PointsAtOpen(c, events[..n], table, origins, e.parent.lifetime, fd, false);
        ForkPointsAtOpen(c, events, n, table, origins, l, fd);
      }
    }
  }

  lemma ForkKeepsVec(c: Config, s: State, e: Event, foreign: bool)
    requires e.Fork?
    ensures Vec(Step(c, s, e), foreign) == Vec(s, foreign)
  {
  }

  lemma ForkKnowsOps(c: Config, s: State, events: seq<Event>, n: nat, foreign: bool)
    requires |events| == n + 1 && events[n].Fork? && KnowsOps(c, events[..n], s, foreign)
    ensures KnowsOps(c, events, Step(c, s, events[n]), foreign)
  {
    var earlier := Origins(c, events[..n], foreign);
    NoOrigin(c, events, n, foreign);
    ForkKeepsVec(c, s, events[n], foreign);
    AllToldStays(c, events, n, Vec(s, foreign), earlier, foreign);
    ForkKnowsWrites(c, s, events, n, earlier, foreign);
  }

  /** The position in the vector, if there is one, is that of the write which the close at the end completes. */
  predicate IsCompleted(c: Config, events: seq<Event>, n: nat, at: Option<nat>, foreign: bool)
    requires |events| == n + 1
  {
    var origins := Origins(c, events[..n], foreign);
    && (at.Some? ==> at.value < |origins| && origins[at.value].write
                     && Completes(c, events[..n], events[n], origins[at.value].event, foreign))
    && (at.None? ==> forall k :: 0 <= k < |origins| ==>
                       !Completes(c, events[..n], events[n], origins[k].event, foreign))
  }

  lemma CompletedIs(c: Config, events: seq<Event>, n: nat, at: Option<nat>, foreign: bool, k: nat)
    requires |events| == n + 1 && IsCompleted(c, events, n, at, foreign) && k < |Origins(c, events[..n], foreign)|
    ensures var o := Origins(c, events[..n], foreign)[k];
            o.write && Completes(c, events[..n], events[n], o.event, foreign) <==> at == Some(k)
  {
    var origins := Origins(c, events[..n], foreign);
    if origins[k].write && Completes(c, events[..n], events[n], origins[k].event, foreign) {
      assert origins[k] == origins[at.value];
      OriginsAreDistinct(c, events[..n], foreign, k, at.value);
    }
  }

  /** What an operation at position `k` becomes when the one at position `at` is completed. */
  function Completed(op: CanonicalOp, k: nat, at: Option<nat>, seen: Option<Observation>): CanonicalOp
  {
    if at == Some(k) && seen.Some? then op.(outputs := [seen.value.Identity()]) else op
  }

  lemma CloseTellsOne(c: Config, events: seq<Event>, n: nat, at: Option<nat>, foreign: bool, k: nat, op: CanonicalOp)
    requires |events| == n + 1 && events[n].FileClose? && IsCompleted(c, events, n, at, foreign)
    requires k < |Origins(c, events[..n], foreign)|
    requires IsToldBy(c, events[..n], op, Origins(c, events[..n], foreign)[k], foreign)
    ensures IsToldBy(c, events, Completed(op, k, at, events[n].seen), Origins(c, events[..n], foreign)[k], foreign)
  {
    ToldStays(c, events, n, Origins(c, events[..n], foreign)[k].event, op);
    CompletedIs(c, events, n, at, foreign, k);
  }

  lemma SetOutputAt(ops: seq<CanonicalOp>, at: Option<nat>, seen: Option<Observation>, k: nat)
    requires k < |ops|
    ensures (if at.Some? then SetOutput(ops, at.value, ObservedIdentity(seen)) else ops)[k] ==
      Completed(ops[k], k, at, seen)
  {
  }

  /** The close at the end gives its output to that write and to no other operation. */
  lemma CloseTells(c: Config, events: seq<Event>, n: nat, ops: seq<CanonicalOp>, at: Option<nat>, foreign: bool)
    requires |events| == n + 1 && events[n].FileClose? && IsCompleted(c, events, n, at, foreign)
    requires AllTold(c, events[..n], ops, Origins(c, events[..n], foreign), foreign)
    ensures AllTold(c, events,
                    if at.Some? then SetOutput(ops, at.value, ObservedIdentity(events[n].seen)) else ops,
                    Origins(c, events[..n], foreign), foreign)
  {
    var origins, seen := Origins(c, events[..n], foreign), events[n].seen;
    var after := if at.Some? then SetOutput(ops, at.value, ObservedIdentity(seen)) else ops;
    forall k | 0 <= k < |ops| ensures IsToldBy(c, events, after[k], origins[k], foreign) {
      assert IsToldBy(c, events[..n], ops[k], origins[k], foreign);
      CloseTellsOne(c, events, n, at, foreign, k, ops[k]);
      SetOutputAt(ops, at, seen, k);
    }
  }

  /** Where the table points for the descriptor that the event closes. */
  function Pointed(c: Config, before: seq<Event>, e: Event, table: map<Slot, nat>, foreign: bool): Option<nat>
    requires e.FileClose?
  {
    if Closes(c, before, e, e.process.lifetime, e.fd, foreign) && (e.process.lifetime, e.fd) in table
    then Some(table[(e.process.lifetime, e.fd)]) else None
  }

  lemma PointedIsCompleted(c: Config, events: seq<Event>, n: nat, table: map<Slot, nat>, foreign: bool)
    requires |events| == n + 1 && events[n].FileClose?
    requires KnowsWrites(c, events[..n], table, Origins(c, events[..n], foreign), foreign)
    ensures IsCompleted(c, events, n, Pointed(c, events[..n], events[n], table, foreign), foreign)
  {
    var e := events[n];
    assert PointsAtOpen(c, events[..n], table, Origins(c, events[..n], foreign), e.process.lifetime, e.fd, foreign);
  }

  lemma ClosedPointsAtOpen(c: Config, events: seq<Event>, n: nat, table: map<Slot, nat>, foreign: bool)
    requires |events| == n + 1 && events[n].FileClose?
    requires KnowsWrites(c, events[..n], table, Origins(c, events[..n], foreign), foreign)
    ensures var after := if Pointed(c, events[..n], events[n], table, foreign).Some?
                         then table - {(events[n].process.lifetime, events[n].fd)} else table;
            KnowsWrites(c, events, after, Origins(c, events[..n], foreign), foreign)
  {
    var e, origins := events[n], Origins(c, events[..n], foreign);
    var after := if Pointed(c, events[..n], e, table, foreign).Some?
                 then table - {(e.process.lifetime, e.fd)} else table;
    forall l, fd ensures PointsAtOpen(c, events, after, origins, l, fd, foreign) {
      assert PointsAtOpen(c, events[..n], table, origins, l, fd, foreign);
    }
  }

  /** What a close does to either vector and its table. */
  lemma CloseActs(c: Config, s: State, before: seq<Event>, e: Event, foreign: bool)
    requires e.FileClose? && KnowsProcesses(c, s, before)
    ensures var t, at := Step(c, s, e), Pointed(c, before, e, Table(s, foreign), foreign);
            && Vec(t, foreign) == (if at.Some? then SetOutput(Vec(s, foreign), at.value, ObservedIdentity(e.seen))
                                   else Vec(s, foreign))
            && Table(t, foreign) == (if at.Some? then Table(s, foreign) - {(e.process.lifetime, e.fd)}
                                     else Table(s, foreign))
  {
    var d := Decide(c, ViewOf(s, e.process), e);
    ViewSees(c, s, before, e.process);
    CloseDecides(c, before, ViewOf(s, e.process), e);
    if d.resolution.Close? { ApplyCloses(s, e.process, d, foreign); } else { ApplyAdds(s, e.process, d, foreign); }
  }

  lemma CloseKnowsOps(c: Config, s: State, events: seq<Event>, n: nat, foreign: bool)
    requires |events| == n + 1 && events[n].FileClose?
    requires KnowsProcesses(c, s, events[..n]) && KnowsOps(c, events[..n], s, foreign)
    ensures KnowsOps(c, events, Step(c, s, events[n]), foreign)
  {
    NoOrigin(c, events, n, foreign);
    CloseActs(c, s, events[..n], events[n], foreign);
    PointedIsCompleted(c, events, n, Table(s, foreign), foreign);
    CloseTells(c, events, n, Vec(s, foreign), Pointed(c, events[..n], events[n], Table(s, foreign), foreign), foreign);
    ClosedPointsAtOpen(c, events, n, Table(s, foreign), foreign);
  }

  /** After any trace both vectors hold exactly one operation for each origin, in order, and it tells the event. */
  lemma {:induction false} OperationsAreTold(c: Config, events: seq<Event>, foreign: bool)
    ensures KnowsOps(c, events, Run(c, events), foreign)
  {
    if events != [] {
      var n := |events| - 1;
      OperationsAreTold(c, events[..n], foreign);
      RunKnowsProcesses(c, events[..n]);
      match events[n]
      case Fork(_, _) => ForkKnowsOps(c, Run(c, events[..n]), events, n, foreign);
      case FileClose(_, _, _, _, _) => CloseKnowsOps(c, Run(c, events[..n]), events, n, foreign);
      case _ => AccessKnowsOps(c, Run(c, events[..n]), events, n, foreign);
    }
  }

  // ---------------------------------------------------------------------------------------------
  // The results.

  /** The event is the origin of an operation. */
  predicate IsOrigin(c: Config, events: seq<Event>, o: Origin, foreign: bool)
  {
    && o.event < |events|
    && if o.write then StartsWrite(c, events[..o.event], events[o.event], foreign)
       else Accesses(c, events[..o.event], events[o.event], foreign)
  }

  lemma OriginAt(c: Config, before: seq<Event>, e: Event, o: Origin, foreign: bool)
    ensures o in OriginsAt(c, before, e, foreign) <==>
      o.event == |before| && if o.write then StartsWrite(c, before, e, foreign) else Accesses(c, before, e, foreign)
  {
  }

  lemma IsOriginOneMore(c: Config, events: seq<Event>, n: nat, o: Origin, foreign: bool)
    requires |events| == n + 1
    ensures IsOrigin(c, events, o, foreign) <==>
      IsOrigin(c, events[..n], o, foreign) || o in OriginsAt(c, events[..n], events[n], foreign)
  {
    OriginAt(c, events[..n], events[n], o, foreign);
    if o.event < n { NestedPrefix(events, n, o.event); }
  }

  lemma InEither<T>(x: T, a: seq<T>, b: seq<T>)
    ensures x in a + b <==> x in a || x in b
  {
  }

  lemma {:induction false} OriginIff(c: Config, events: seq<Event>, o: Origin, foreign: bool)
    ensures o in Origins(c, events, foreign) <==> IsOrigin(c, events, o, foreign)
  {
    if events != [] {
      var n := |events| - 1;
      OriginIff(c, events[..n], o, foreign);
      IsOriginOneMore(c, events, n, o, foreign);
      InEither(o, Origins(c, events[..n], foreign), OriginsAt(c, events[..n], events[n], foreign));
    }
  }

  lemma TellsOfOrigin(c: Config, events: seq<Event>, i: nat, op: CanonicalOp)
    requires Tells(c, events, i, op)
    ensures IsOrigin(c, events, Origin(i, IsWrite(op.opType)), IsExternal(op.opType))
  {
  }

  lemma SameTold(c: Config, before: seq<Event>, e: Event, a: CanonicalOp, b: CanonicalOp)
    requires TellsOf(c, before, e, a) && TellsOf(c, before, e, b)
    requires (IsWrite(a.opType) <==> IsWrite(b.opType)) && (IsExternal(a.opType) <==> IsExternal(b.opType))
    ensures a.opType == b.opType && a.tool == b.tool && a.args == b.args && a.inputs == b.inputs
    ensures !IsWrite(a.opType) ==> a.outputs == b.outputs
  {
  }

  /** An event tells at most one access and one write of its own. */
  lemma TellsOnce(c: Config, events: seq<Event>, i: nat, a: CanonicalOp, b: CanonicalOp)
    requires Tells(c, events, i, a) && Tells(c, events, i, b)
    requires (IsWrite(a.opType) <==> IsWrite(b.opType)) && (IsExternal(a.opType) <==> IsExternal(b.opType))
    ensures a == b
  {
    SameTold(c, events[..i], events[i], a, b);
    if !IsExternal(a.opType) { ProcessesAreDistinct(c, events, a.processIndex, b.processIndex); }
  }

  lemma RecordedInIff(c: Config, events: seq<Event>, op: CanonicalOp, foreign: bool)
    ensures op in Vec(Run(c, events), foreign) <==>
      (IsExternal(op.opType) <==> foreign) && exists i: nat :: Tells(c, events, i, op)
  {
    var ops, origins := Vec(Run(c, events), foreign), Origins(c, events, foreign);
    OperationsAreTold(c, events, foreign);
    if op in ops {
      var k :| 0 <= k < |ops| && ops[k] == op;
      assert Tells(c, events, origins[k].event, op);
    }
    if (IsExternal(op.opType) <==> foreign) && exists i: nat :: Tells(c, events, i, op) {
      var i: nat :| Tells(c, events, i, op);
      TellsOfOrigin(c, events, i, op);
      OriginIff(c, events, Origin(i, IsWrite(op.opType)), foreign);
      var k :| 0 <= k < |origins| && origins[k] == Origin(i, IsWrite(op.opType));
      TellsOnce(c, events, i, op, ops[k]);
    }
  }

  /**
   Provenance, in both directions: an operation is recorded if and only if some event of the trace tells it; external
   ones in their own vector.
   */
  lemma RecordedIffTold(c: Config, events: seq<Event>, op: CanonicalOp)
    ensures op in Run(c, events).ops <==> !IsExternal(op.opType) && exists i: nat :: Tells(c, events, i, op)
    ensures op in Run(c, events).external <==> IsExternal(op.opType) && exists i: nat :: Tells(c, events, i, op)
  {
    RecordedInIff(c, events, op, false);
    RecordedInIff(c, events, op, true);
  }

  /** Each origin has one operation, at its place among the origins, which ascend with the events. */
  lemma OneOperationPerOrigin(c: Config, events: seq<Event>, foreign: bool)
    ensures var ops, origins := Vec(Run(c, events), foreign), Origins(c, events, foreign);
            && AllTold(c, events, ops, origins, foreign)
            && (forall o :: o in origins <==> IsOrigin(c, events, o, foreign))
            && (forall j, k :: 0 <= j < k < |origins| ==>
                  origins[j].event < origins[k].event
                  || (origins[j].event == origins[k].event && !origins[j].write && origins[k].write))
  {
    OperationsAreTold(c, events, foreign);
    var origins := Origins(c, events, foreign);
    forall o ensures o in origins <==> IsOrigin(c, events, o, foreign) { OriginIff(c, events, o, foreign); }
    forall j, k | 0 <= j < k < |origins|
      ensures origins[j].event < origins[k].event
              || (origins[j].event == origins[k].event && !origins[j].write && origins[k].write)
    {
      OriginsAscend(c, events, foreign, j, k);
    }
  }

  /** Close `j` completes the write of event `i`, observes the file, and no later close does both. */
  predicate IsLastCompletion(c: Config, events: seq<Event>, j: nat, i: nat, foreign: bool)
  {
    && i < j < |events| && Completes(c, events[..j], events[j], i, foreign) && events[j].seen.Some?
    && forall k :: j < k < |events| && Completes(c, events[..k], events[k], i, foreign) ==> events[k].seen.None?
  }

  lemma CompletionStays(c: Config, events: seq<Event>, n: nat, j: nat, i: nat, foreign: bool)
    requires |events| == n + 1 && j < n
    requires !(Completes(c, events[..n], events[n], i, foreign) && events[n].seen.Some?)
    ensures IsLastCompletion(c, events, j, i, foreign) <==> IsLastCompletion(c, events[..n], j, i, foreign)
  {
    forall k | j <= k < n ensures events[..n][..k] == events[..k] { NestedPrefix(events, n, k); }
  }

  lemma {:induction false} OutputHasClose(c: Config, events: seq<Event>, i: nat, foreign: bool) returns (j: nat)
    requires OutputOf(c, events, i, foreign) != []
    ensures IsLastCompletion(c, events, j, i, foreign)
    ensures OutputOf(c, events, i, foreign) == [events[j].seen.value.Identity()]
  {
    var n := |events| - 1;
    if Completes(c, events[..n], events[n], i, foreign) && events[n].seen.Some? {
      j := n;
    } else {
      j := OutputHasClose(c, events[..n], i, foreign);
      CompletionStays(c, events, n, j, i, foreign);
    }
  }

  lemma {:induction false} CloseGivesOutput(c: Config, events: seq<Event>, j: nat, i: nat, foreign: bool)
    requires IsLastCompletion(c, events, j, i, foreign)
    ensures OutputOf(c, events, i, foreign) == [events[j].seen.value.Identity()]
  {
    var n := |events| - 1;
    if j < n {
      CompletionStays(c, events, n, j, i, foreign);
      CloseGivesOutput(c, events[..n], j, i, foreign);
    }
  }

  /** The output of a write is what its last observing close saw, and there is none without such a close. */
  lemma OutputIsLastSeen(c: Config, events: seq<Event>, i: nat, foreign: bool, identity: string)
    ensures OutputOf(c, events, i, foreign) == [identity] <==>
      exists j: nat :: IsLastCompletion(c, events, j, i, foreign) && events[j].seen.value.Identity() == identity
    ensures OutputOf(c, events, i, foreign) == [] <==> forall j: nat :: !IsLastCompletion(c, events, j, i, foreign)
  {
    if OutputOf(c, events, i, foreign) != [] {
      var j := OutputHasClose(c, events, i, foreign);
    }
    forall j: nat | IsLastCompletion(c, events, j, i, foreign)
      ensures OutputOf(c, events, i, foreign) == [events[j].seen.value.Identity()]
    {
      CloseGivesOutput(c, events, j, i, foreign);
    }
  }
}
