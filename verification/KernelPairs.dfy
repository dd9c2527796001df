/**
 The records of a rename or an unlink, on the kernel side, one step at a time: a thread in whose handlers no drop was
 raised since it entered its call is on the way to its own records, if the call is to be recorded at all, and any other
 thread has lost at least one of them.
 */
module KernelPairs {
  import opened Text
  import opened Trace
  import opened Records
  import opened Kernel

  function Get<K, V>(m: map<K, V>, k: K): Option<V>
  {
    if k in m then Some(m[k]) else None
  }

  /** What the shared maps hold under one thread's key. */
  datatype Local = Local(stash: Option<Stash>, oldPath: Option<string>, newPath: Option<string>, clock: nat)

  function LocalOf(m: Maps, k: Key): Local
  {
    Local(Get(m.stash, k), Get(m.oldPath, k), Get(m.newPath, k), Clock(m, k))
  }

  type PathRecord = r: Record | IsPathRecord(r) witness UnlinkRecord(0, 0, 0, 0, 0, false, "")

  predicate Belongs(r: Record, k: Key)
  {
    IsPathRecord(r) && r.pid == k.1 && r.tgid == k.0
  }

  /** The rename and unlink records of one thread, in the order of their submission. */
  function Mine(ring: seq<Record>, k: Key): (m: seq<PathRecord>)
  {
    if ring == [] then []
    else
      var m, r := Mine(ring[..|ring| - 1], k), ring[|ring| - 1];
      if Belongs(r, k) then m + [r] else m
  }

  lemma MineOfOneMore(ring: seq<Record>, r: Record, k: Key)
    ensures Mine(ring + [r], k) == if Belongs(r, k) then Mine(ring, k) + [r] else Mine(ring, k)
  {
    assert (ring + [r])[..|ring|] == ring;
  }

  /** A thread uses an operation id for nothing but one source record followed by one destination record. */
  predicate Ordered(m: seq<PathRecord>)
  {
    forall i, j :: 0 <= i < j < |m| ==> Precedes(m[i], m[j])
  }

  predicate Precedes(r: PathRecord, r': PathRecord)
  {
    r.opId < r'.opId || (r.opId == r'.opId && r.RenameSource? && r'.RenameDestination?)
  }

  /** The records of a call: its own descriptors and flags, whether it is external, and the captured paths. */
  function Source(k: Key, call: Call, tracked: bool, time: nat): Record
    requires call.RenameCall?
  {
    RenameSource(k.1, k.0, time, call.oldDfd, call.flags, !tracked, Capture(call.source))
  }

  function Destination(k: Key, call: Call, tracked: bool, time: nat): Record
    requires call.RenameCall?
  {
    RenameDestination(k.1, k.0, time, call.newDfd, call.flags, !tracked, Capture(call.target))
  }

  function Removed(k: Key, call: Call, tracked: bool, time: nat): Record
    requires call.UnlinkCall?
  {
    UnlinkRecord(k.1, k.0, time, call.dfd, call.flags, !tracked, Capture(call.path))
  }

  /** The records carry the paths of the call exactly when both fit in the buffers they are captured in. */
  lemma OwnPathsIff(k: Key, call: Call, tracked: bool, time: nat)
    requires call.RenameCall?
    ensures Source(k, call, tracked, time).path == call.source
            && Destination(k, call, tracked, time).path == call.target <==>
      |call.source| <= MAX_CAPTURED && |call.target| <= MAX_CAPTURED
  {
  }

  /** All records of the call under one operation id. */
  predicate HasRecords(m: seq<PathRecord>, k: Key, call: Call, tracked: bool, time: nat)
  {
    match call
    case RenameCall(_, _, _, _, _) => Source(k, call, tracked, time) in m && Destination(k, call, tracked, time) in m
    case UnlinkCall(_, _, _) => Removed(k, call, tracked, time) in m
  }

  /** The first of them is missing. */
  predicate Lacks(m: seq<PathRecord>, k: Key, call: Call, tracked: bool, time: nat)
  {
    match call
    case RenameCall(_, _, _, _, _) => Source(k, call, tracked, time) !in m
    case UnlinkCall(_, _, _) => Removed(k, call, tracked, time) !in m
  }

  /** A path that the kernel cannot tell to be outside all watched prefixes. */
  predicate MayBeWatched(cfg: Config, path: string)
  {
    !("/" <= path) || exists i :: 0 <= i < |cfg.prefixes| && cfg.prefixes[i] != "" && |cfg.prefixes[i]| <= 128
                                  && cfg.prefixes[i] <= path
  }

  /** A call to be recorded: of a tracked process, or in watch mode on a path that may be watched. */
  predicate Wanted(cfg: Config, call: Call, tracked: bool)
  {
    tracked || (cfg.watchMode && match call
                                 case RenameCall(_, _, _, source, target) =>
                                   MayBeWatched(cfg, Capture(source)) || MayBeWatched(cfg, Capture(target))
                                 case UnlinkCall(_, _, path) => MayBeWatched(cfg, Capture(path)))
  }

  /** Records submitted so far are no later than the clock; an exit handler has room for what it submits next. */
  predicate Timely(pc: Pc, clock: nat, m: seq<PathRecord>)
  {
    && (forall i :: 0 <= i < |m| ==> m[i].opId <= clock)
    && (pc.ExitOld? || pc.EmitSource? || pc.EmitUnlink? ==>
          pc.time == clock && forall i :: 0 <= i < |m| ==> m[i].opId < clock)
    && (pc.ExitNew? || pc.EmitDestination? ==>
          pc.time == clock && forall i :: 0 <= i < |m| ==> m[i].opId < clock || m[i].RenameSource?)
  }

  predicate Captured(l: Local, call: Call)
  {
    l.oldPath == Some(Capture(FirstPath(call))) && (call.RenameCall? ==> l.newPath == Some(Capture(SecondPath(call))))
  }

  /** A stash that is not the present call's: outside watch mode one that a tracked process left to an untracked one. */
  predicate IsStale(tracked: bool, st: Stash)
  {
    !tracked && !st.fromWatch
  }

  predicate NothingOwn(l: Local, tracked: bool)
  {
    l.stash.Some? ==> IsStale(tracked, l.stash.value)
  }

  predicate LeavesWith(k: Key, pc: Pc, m: seq<PathRecord>)
    requires pc.Leaving?
  {
    pc.ok ==> pc.stamp.Some? && HasRecords(m, k, pc.call, pc.tracked, pc.stamp.value)
  }

  predicate LeavesWithout(k: Key, pc: Pc, m: seq<PathRecord>)
    requires pc.Leaving?
  {
    pc.ok ==> pc.stamp.None? || !HasRecords(m, k, pc.call, pc.tracked, pc.stamp.value)
  }

  /** How far a wanted call has come, at each of its steps after the stash is left. */
  predicate WithStash(k: Key, pc: Pc, l: Local, m: seq<PathRecord>)
  {
    match pc
    case InCall(call, tracked) => Captured(l, call) && l.stash == Some(StashOf(call, tracked))
    case ExitStart(call, tracked, _) => Captured(l, call) && l.stash == Some(StashOf(call, tracked))
    case ExitOld(call, tracked, st, _) => st == StashOf(call, tracked) && Captured(l, call)
    case EmitSource(call, tracked, st, _, path) =>
      call.RenameCall? && st == StashOf(call, tracked) && path == Capture(FirstPath(call)) && Captured(l, call)
    case ExitNew(call, tracked, st, time) =>
      call.RenameCall? && st == StashOf(call, tracked) && Source(k, call, tracked, time) in m && Captured(l, call)
    case EmitDestination(call, tracked, st, time, path) =>
      call.RenameCall? && st == StashOf(call, tracked) && Source(k, call, tracked, time) in m
      && path == Capture(SecondPath(call))
    case EmitUnlink(call, tracked, st, _, path) =>
      call.UnlinkCall? && st == StashOf(call, tracked) && path == Capture(FirstPath(call))
    case Clearing(_, next) => next.Leaving? && LeavesWith(k, next, m)
    case Leaving(_, _, _, _) => LeavesWith(k, pc, m)
    case _ => false
  }

  /** How a call goes on that is not wanted, or after a drop in one of its handlers: without a stash, or a record. */
  predicate OffTrack(k: Key, pc: Pc, l: Local, m: seq<PathRecord>)
  {
    match pc
    case InCall(call, tracked) => NothingOwn(l, tracked)
    case ExitStart(call, tracked, _) => NothingOwn(l, tracked)
    case ExitOld(call, tracked, st, _) => IsStale(tracked, st)
    case EmitSource(call, tracked, st, _, _) => IsStale(tracked, st)
    case ExitNew(call, tracked, _, time) => Lacks(m, k, call, tracked, time)
    case EmitDestination(call, tracked, _, time, _) => Lacks(m, k, call, tracked, time)
    case EmitUnlink(call, tracked, st, _, _) => IsStale(tracked, st)
    case Clearing(removed, next) =>
      || (next.InCall? && (removed > 0 ==> l.stash.None?))
      || (next.Leaving? && LeavesWithout(k, next, m))
    case Leaving(_, _, _, _) => LeavesWithout(k, pc, m)
    case _ => false
  }

  /** Only in watch mode does an untracked thread capture anything; after a drop it goes on to the second path only. */
  predicate Entering(cfg: Config, pc: Pc, l: Local, hurt: bool)
  {
    match pc
    case EnterStart(_) => !hurt
    case StashOld(_, tracked) => !hurt && (tracked || cfg.watchMode)
    case StashNew(call, tracked, oldOk) =>
      (tracked || cfg.watchMode) && call.RenameCall? && oldOk == !hurt
      && (oldOk ==> l.oldPath == Some(Capture(FirstPath(call))))
    case GetOld(call, tracked) => !hurt && (tracked || cfg.watchMode) && Captured(l, call)
    case GetNew(call, tracked) => !hurt && (tracked || cfg.watchMode) && Captured(l, call) && call.RenameCall?
    case PutStash(call, tracked) => !hurt && Wanted(cfg, call, tracked) && Captured(l, call)
    case _ => false
  }

  /** The call of a thread that has left its enter handler. */
  function Entered(pc: Pc): Option<(Call, bool)>
  {
    match pc
    case InCall(call, tracked) => Some((call, tracked))
    case ExitStart(call, tracked, _) => Some((call, tracked))
    case ExitOld(call, tracked, _, _) => Some((call, tracked))
    case EmitSource(call, tracked, _, _, _) => Some((call, tracked))
    case ExitNew(call, tracked, _, _) => Some((call, tracked))
    case EmitDestination(call, tracked, _, _, _) => Some((call, tracked))
    case EmitUnlink(call, tracked, _, _, _) => Some((call, tracked))
    case Leaving(call, tracked, _, _) => Some((call, tracked))
    case Clearing(_, next) =>
      (match next
       case InCall(call, tracked) => Some((call, tracked))
       case Leaving(call, tracked, _, _) => Some((call, tracked))
       case _ => None)
    case _ => None
  }

  /** Where the thread goes on when it has recorded a drop. */
  function Resumed(pc: Pc): Pc
  {
    if pc.Dropping? then pc.next else pc
  }

  /** The state of a thread after its enter handler; `off` says that its call is not to be recorded in full. */
  predicate ExitExact(k: Key, pc: Pc, l: Local, m: seq<PathRecord>, off: bool)
  {
    Ordered(m) && Timely(pc, l.clock, m) && if off then OffTrack(k, pc, l, m) else WithStash(k, pc, l, m)
  }

  /** The state of one thread; `hurt` says whether it raised a drop since it last entered a call. */
  predicate KeyExact(cfg: Config, k: Key, pc: Pc, l: Local, m: seq<PathRecord>, hurt: bool)
  {
    var r := Resumed(pc);
    && !r.Dropping? && (pc.Dropping? ==> hurt) && (l.stash.Some? && !cfg.watchMode ==> !l.stash.value.fromWatch)
    && match Entered(r)
       case Some((call, tracked)) => ExitExact(k, r, l, m, hurt || !Wanted(cfg, call, tracked))
       case None => Ordered(m) && Timely(r, l.clock, m) && (r.Idle? || Entering(cfg, r, l, hurt))
  }

  /** `d` is a call of `k` that has all of its own records. */
  predicate OwnRecordsOf(d: Done, k: Key, m: seq<PathRecord>)
  {
    d.key == k && d.stamp.Some? && HasRecords(m, k, d.call, d.tracked, d.stamp.value)
  }

  predicate IsRecorded(cfg: Config, d: Done, hurt: bool)
  {
    Wanted(cfg, d.call, d.tracked) && !hurt
  }

  predicate DoneClean(ring: seq<Record>, d: Done)
  {
    OwnRecordsOf(d, d.key, Mine(ring, d.key))
  }

  // ------------------------------------------------------------------------------ one step of a thread, own key

  function RingAfter(ring: seq<Record>, output: Output): seq<Record>
  {
    if output.Submitted? then ring + [output.record] else ring
  }

  /** The thread moved without submitting or completing anything. */
  predicate MovedExactly(cfg: Config, k: Key, move: Move, m: seq<PathRecord>, hurt: bool)
  {
    && !move.output.Submitted? && !move.output.Completed?
    && KeyExact(cfg, k, move.pc, LocalOf(move.maps, k), m, hurt || move.pc.Dropping?)
  }

  lemma BeginOwn(cfg: Config, isTracked: bool, maps: Maps, m: seq<PathRecord>, k: Key, pc: Pc, c: Choice, hurt: bool)
    requires pc.EnterStart? && KeyExact(cfg, k, pc, LocalOf(maps, k), m, hurt)
    ensures MovedExactly(cfg, k, EnterStep(cfg, isTracked, maps, k, pc, c), m, hurt)
  {
  }

  lemma FirstCaptureOwn(cfg: Config, isTracked: bool, maps: Maps, m: seq<PathRecord>, k: Key, pc: Pc, c: Choice,
      hurt: bool)
    requires pc.StashOld? && KeyExact(cfg, k, pc, LocalOf(maps, k), m, hurt)
    ensures MovedExactly(cfg, k, EnterStep(cfg, isTracked, maps, k, pc, c), m, hurt)
  {
  }

  lemma SecondCaptureOwn(cfg: Config, isTracked: bool, maps: Maps, m: seq<PathRecord>, k: Key, pc: Pc, c: Choice,
      hurt: bool)
    requires pc.StashNew? && KeyExact(cfg, k, pc, LocalOf(maps, k), m, hurt)
    ensures MovedExactly(cfg, k, EnterStep(cfg, isTracked, maps, k, pc, c), m, hurt)
  {
  }

  /** The filter passes what may be watched. */
  lemma FilterIsExact(cfg: Config, path: string, other: string)
    ensures FilteredOut(cfg, [path]) <==> !MayBeWatched(cfg, path)
    ensures FilteredOut(cfg, [path, other]) <==> !MayBeWatched(cfg, path) && !MayBeWatched(cfg, other)
  {
    assert [path][0] == path && [path, other][0] == path && [path, other][1] == other;
  }

  lemma ReadFirstOwn(cfg: Config, isTracked: bool, maps: Maps, m: seq<PathRecord>, k: Key, pc: Pc, c: Choice,
      hurt: bool)
    requires pc.GetOld? && KeyExact(cfg, k, pc, LocalOf(maps, k), m, hurt)
    ensures MovedExactly(cfg, k, EnterStep(cfg, isTracked, maps, k, pc, c), m, hurt)
  {
    FilterIsExact(cfg, Capture(FirstPath(pc.call)), "");
  }

  lemma ReadSecondOwn(cfg: Config, isTracked: bool, maps: Maps, m: seq<PathRecord>, k: Key, pc: Pc, c: Choice,
      hurt: bool)
    requires pc.GetNew? && KeyExact(cfg, k, pc, LocalOf(maps, k), m, hurt)
    ensures MovedExactly(cfg, k, EnterStep(cfg, isTracked, maps, k, pc, c), m, hurt)
  {
    FilterIsExact(cfg, Capture(FirstPath(pc.call)), Capture(SecondPath(pc.call)));
  }

  lemma StashOwn(cfg: Config, isTracked: bool, maps: Maps, m: seq<PathRecord>, k: Key, pc: Pc, c: Choice, hurt: bool)
    requires pc.PutStash? && KeyExact(cfg, k, pc, LocalOf(maps, k), m, hurt)
    ensures MovedExactly(cfg, k, EnterStep(cfg, isTracked, maps, k, pc, c), m, hurt)
  {
  }

  /** One step after the enter handler, about the same call, without a submission. */
  predicate ExitMoved(k: Key, pc: Pc, move: Move, l: Local, m: seq<PathRecord>, off: bool)
  {
    var r := Resumed(move.pc);
    && !move.output.Submitted? && !move.output.Completed? && !r.Dropping? && Entered(r) == Entered(pc)
    && (LocalOf(move.maps, k).stash == l.stash || LocalOf(move.maps, k).stash.None?)
    && ExitExact(k, r, LocalOf(move.maps, k), m, off || move.pc.Dropping?)
  }

  lemma ClearOwn(drops: U64, maps: Maps, m: seq<PathRecord>, k: Key, pc: Pc, c: Choice, off: bool)
    requires pc.Clearing? && ExitExact(k, pc, LocalOf(maps, k), m, off)
    ensures ExitMoved(k, pc, HelperStep(drops, maps, k, pc, c), LocalOf(maps, k), m, off)
  {
  }

  lemma StartExitOwn(maps: Maps, m: seq<PathRecord>, k: Key, pc: Pc, c: Choice, off: bool)
    requires pc.ExitStart? && ExitExact(k, pc, LocalOf(maps, k), m, off)
    ensures ExitMoved(k, pc, ExitStep(maps, k, pc, c), LocalOf(maps, k), m, off)
  {
  }

  lemma ReadSourceOwn(maps: Maps, m: seq<PathRecord>, k: Key, pc: Pc, c: Choice, off: bool)
    requires pc.ExitOld? && ExitExact(k, pc, LocalOf(maps, k), m, off)
    ensures ExitMoved(k, pc, ExitStep(maps, k, pc, c), LocalOf(maps, k), m, off)
  {
  }

  lemma ReadDestinationOwn(maps: Maps, m: seq<PathRecord>, k: Key, pc: Pc, c: Choice, off: bool)
    requires pc.ExitNew? && ExitExact(k, pc, LocalOf(maps, k), m, off)
    ensures ExitMoved(k, pc, ExitStep(maps, k, pc, c), LocalOf(maps, k), m, off)
  {
  }

  predicate Submits(pc: Pc)
  {
    pc.EmitSource? || pc.EmitDestination? || pc.EmitUnlink?
  }

  function SubmittedBy(k: Key, pc: Pc): PathRecord
    requires Submits(pc)
  {
    match pc
    case EmitSource(_, _, st, time, path) => SourceRecord(k, st, time, path)
    case EmitDestination(_, _, st, time, path) => DestinationRecord(k, st, time, path)
    case EmitUnlink(_, _, st, time, path) => RemovedRecord(k, st, time, path)
  }

  lemma OrderedWith(m: seq<PathRecord>, r: PathRecord)
    requires Ordered(m) && forall i :: 0 <= i < |m| ==> Precedes(m[i], r)
    ensures Ordered(m + [r]) && r in m + [r] && forall x :: x in m ==> x in m + [r]
  {
    assert (m + [r])[|m|] == r;
  }

  /** The thread goes on with its record in the ring. */
  predicate Submitting(k: Key, pc: Pc, move: Move, maps: Maps, m: seq<PathRecord>, off: bool)
    requires Submits(pc)
  {
    && move.output == Submitted(SubmittedBy(k, pc)) && move.maps == maps && Entered(move.pc) == Entered(pc)
    && !move.pc.Dropping? && ExitExact(k, move.pc, LocalOf(maps, k), m + [SubmittedBy(k, pc)], off)
  }

  lemma RefusedOwn(maps: Maps, m: seq<PathRecord>, k: Key, pc: Pc, c: Choice, off: bool)
    requires Submits(pc) && ExitExact(k, pc, LocalOf(maps, k), m, off) && !c.accepted
    ensures ExitMoved(k, pc, ExitStep(maps, k, pc, c), LocalOf(maps, k), m, off)
    ensures ExitStep(maps, k, pc, c).pc.Dropping?
  {
  }

  lemma SubmitSourceOwn(maps: Maps, m: seq<PathRecord>, k: Key, pc: Pc, c: Choice, off: bool)
    requires pc.EmitSource? && ExitExact(k, pc, LocalOf(maps, k), m, off) && c.accepted
    ensures Submitting(k, pc, ExitStep(maps, k, pc, c), maps, m, off)
  {
    OrderedWith(m, SubmittedBy(k, pc));
  }

  lemma SubmitDestinationOwn(maps: Maps, m: seq<PathRecord>, k: Key, pc: Pc, c: Choice, off: bool)
    requires pc.EmitDestination? && ExitExact(k, pc, LocalOf(maps, k), m, off) && c.accepted
    ensures Submitting(k, pc, ExitStep(maps, k, pc, c), maps, m, off)
  {
    OrderedWith(m, SubmittedBy(k, pc));
  }

  lemma SubmitUnlinkOwn(maps: Maps, m: seq<PathRecord>, k: Key, pc: Pc, c: Choice, off: bool)
    requires pc.EmitUnlink? && ExitExact(k, pc, LocalOf(maps, k), m, off) && c.accepted
    ensures Submitting(k, pc, ExitStep(maps, k, pc, c), maps, m, off)
  {
    OrderedWith(m, SubmittedBy(k, pc));
  }

  /** The ring refuses the record, which raises a drop, or holds it. */
  lemma SubmitOwn(maps: Maps, m: seq<PathRecord>, k: Key, pc: Pc, c: Choice, off: bool)
    requires Submits(pc) && ExitExact(k, pc, LocalOf(maps, k), m, off)
    ensures var move := ExitStep(maps, k, pc, c);
            if c.accepted then Submitting(k, pc, move, maps, m, off)
            else move.pc.Dropping? && ExitMoved(k, pc, move, LocalOf(maps, k), m, off)
  {
    if !c.accepted {
      RefusedOwn(maps, m, k, pc, c, off);
    } else if pc.EmitSource? {
      SubmitSourceOwn(maps, m, k, pc, c, off);
    } else if pc.EmitDestination? {
      SubmitDestinationOwn(maps, m, k, pc, c, off);
    } else {
      SubmitUnlinkOwn(maps, m, k, pc, c, off);
    }
  }

  /** A call completes with its records exactly if it is wanted and its thread is not hurt. */
  lemma LeaveOwn(maps: Maps, m: seq<PathRecord>, k: Key, pc: Pc, c: Choice, off: bool)
    requires pc.Leaving? && ExitExact(k, pc, LocalOf(maps, k), m, off)
    ensures var move := ExitStep(maps, k, pc, c);
            && move.pc.Idle? && move.maps == maps && !move.output.Submitted?
            && (move.output.Completed? ==>
                  && move.output.done.key == k && Entered(pc) == Some((move.output.done.call, move.output.done.tracked))
                  && (OwnRecordsOf(move.output.done, k, m) <==> !off))
  {
  }

  /** One step of a thread keeps it on its track, or puts it off the track by raising a drop. */
  predicate ActedExactly(cfg: Config, s: State, k: Key, move: Move, hurt: bool)
  {
    && KeyExact(cfg, k, move.pc, LocalOf(move.maps, k), Mine(RingAfter(s.ring, move.output), k),
                hurt || move.pc.Dropping?)
    && (move.output.Completed? ==>
          && move.output.done.key == k
          && (OwnRecordsOf(move.output.done, k, Mine(s.ring, k)) <==> IsRecorded(cfg, move.output.done, hurt)))
  }

  predicate OffOf(cfg: Config, pc: Pc, hurt: bool)
    requires Entered(pc).Some?
  {
    hurt || !Wanted(cfg, Entered(pc).value.0, Entered(pc).value.1)
  }

  lemma MovedActs(cfg: Config, s: State, k: Key, move: Move, hurt: bool)
    requires KeyExact(cfg, k, PcOf(s, k), LocalOf(s.maps, k), Mine(s.ring, k), hurt)
    requires Entered(PcOf(s, k)).Some?
    requires ExitMoved(k, PcOf(s, k), move, LocalOf(s.maps, k), Mine(s.ring, k), OffOf(cfg, PcOf(s, k), hurt))
    ensures ActedExactly(cfg, s, k, move, hurt)
  {
  }

  lemma SubmittingActs(cfg: Config, s: State, k: Key, move: Move, hurt: bool)
    requires KeyExact(cfg, k, PcOf(s, k), LocalOf(s.maps, k), Mine(s.ring, k), hurt)
    requires Submits(PcOf(s, k))
    requires Submitting(k, PcOf(s, k), move, s.maps, Mine(s.ring, k), OffOf(cfg, PcOf(s, k), hurt))
    ensures ActedExactly(cfg, s, k, move, hurt)
  {
    MineOfOneMore(s.ring, SubmittedBy(k, PcOf(s, k)), k);
  }

  lemma LeavingActs(cfg: Config, s: State, k: Key, c: Choice, hurt: bool)
    requires KeyExact(cfg, k, PcOf(s, k), LocalOf(s.maps, k), Mine(s.ring, k), hurt) && PcOf(s, k).Leaving?
    ensures ActedExactly(cfg, s, k, ExitStep(s.maps, k, PcOf(s, k), c), hurt)
  {
    LeaveOwn(s.maps, Mine(s.ring, k), k, PcOf(s, k), c, OffOf(cfg, PcOf(s, k), hurt));
  }

  lemma WaitingActs(cfg: Config, s: State, k: Key, c: Choice, hurt: bool)
    requires KeyExact(cfg, k, PcOf(s, k), LocalOf(s.maps, k), Mine(s.ring, k), hurt) && PcOf(s, k).InCall?
    ensures ActedExactly(cfg, s, k, ExitStep(s.maps, k, PcOf(s, k), c), hurt)
  {
  }

  lemma ActInExit(cfg: Config, s: State, k: Key, c: Choice, hurt: bool)
    requires KeyExact(cfg, k, PcOf(s, k), LocalOf(s.maps, k), Mine(s.ring, k), hurt)
    requires Entered(PcOf(s, k)).Some?
    ensures ActedExactly(cfg, s, k, Act(cfg, s, k, c), hurt)
  {
    var pc, m, off := PcOf(s, k), Mine(s.ring, k), OffOf(cfg, PcOf(s, k), hurt);
    var move := Act(cfg, s, k, c);
    if pc.Clearing? {
      ClearOwn(s.drops, s.maps, m, k, pc, c, off);
      MovedActs(cfg, s, k, move, hurt);
    } else if pc.ExitStart? {
      StartExitOwn(s.maps, m, k, pc, c, off);
      MovedActs(cfg, s, k, move, hurt);
    } else if pc.ExitOld? {
      ReadSourceOwn(s.maps, m, k, pc, c, off);
      MovedActs(cfg, s, k, move, hurt);
    } else if pc.ExitNew? {
      ReadDestinationOwn(s.maps, m, k, pc, c, off);
      MovedActs(cfg, s, k, move, hurt);
    } else if Submits(pc) {
      SubmitOwn(s.maps, m, k, pc, c, off);
      if c.accepted { SubmittingActs(cfg, s, k, move, hurt); } else { MovedActs(cfg, s, k, move, hurt); }
    } else if pc.Leaving? {
      LeavingActs(cfg, s, k, c, hurt);
    } else {
      WaitingActs(cfg, s, k, c, hurt);
    }
  }

  lemma SameResumption(cfg: Config, k: Key, pc: Pc, next: Pc, l: Local, m: seq<PathRecord>)
    requires KeyExact(cfg, k, pc, l, m, true) && Resumed(next) == Resumed(pc)
    ensures KeyExact(cfg, k, next, l, m, true)
  {
  }

  lemma DroppingMove(s: State, k: Key, pc: Pc, c: Choice)
    requires pc.Dropping? && !pc.next.Dropping?
    ensures var move := HelperStep(s.drops, s.maps, k, pc, c);
            && move.maps == s.maps && Resumed(move.pc) == Resumed(pc)
            && !move.output.Submitted? && !move.output.Completed?
  {
  }

  /** A thread that is recording a drop goes on with it. */
  lemma ResumeOwn(cfg: Config, s: State, k: Key, c: Choice, hurt: bool)
    requires KeyExact(cfg, k, PcOf(s, k), LocalOf(s.maps, k), Mine(s.ring, k), hurt) && PcOf(s, k).Dropping?
    ensures ActedExactly(cfg, s, k, HelperStep(s.drops, s.maps, k, PcOf(s, k), c), hurt)
  {
    var move := HelperStep(s.drops, s.maps, k, PcOf(s, k), c);
    DroppingMove(s, k, PcOf(s, k), c);
    SameResumption(cfg, k, PcOf(s, k), move.pc, LocalOf(s.maps, k), Mine(s.ring, k));
  }

  lemma IdleOwn(cfg: Config, s: State, k: Key, c: Choice, hurt: bool)
    requires KeyExact(cfg, k, PcOf(s, k), LocalOf(s.maps, k), Mine(s.ring, k), hurt) && PcOf(s, k).Idle?
    ensures ActedExactly(cfg, s, k, ExitStep(s.maps, k, PcOf(s, k), c), hurt)
  {
  }

  /** One step of any handler keeps the thread on its track, or puts it off the track by raising a drop. */
  lemma ActOwn(cfg: Config, s: State, k: Key, c: Choice, hurt: bool)
    requires KeyExact(cfg, k, PcOf(s, k), LocalOf(s.maps, k), Mine(s.ring, k), hurt)
    ensures ActedExactly(cfg, s, k, Act(cfg, s, k, c), hurt)
  {
    var pc, m, isTracked := PcOf(s, k), Mine(s.ring, k), k.0 in s.tracked;
    if pc.EnterStart? {
      BeginOwn(cfg, isTracked, s.maps, m, k, pc, c, hurt);
    } else if pc.StashOld? {
      FirstCaptureOwn(cfg, isTracked, s.maps, m, k, pc, c, hurt);
    } else if pc.StashNew? {
      SecondCaptureOwn(cfg, isTracked, s.maps, m, k, pc, c, hurt);
    } else if pc.GetOld? {
      ReadFirstOwn(cfg, isTracked, s.maps, m, k, pc, c, hurt);
    } else if pc.GetNew? {
      ReadSecondOwn(cfg, isTracked, s.maps, m, k, pc, c, hurt);
    } else if pc.PutStash? {
      StashOwn(cfg, isTracked, s.maps, m, k, pc, c, hurt);
    } else if pc.Dropping? {
      ResumeOwn(cfg, s, k, c, hurt);
    } else if pc.Idle? {
      IdleOwn(cfg, s, k, c, hurt);
    } else {
      ActInExit(cfg, s, k, c, hurt);
    }
  }

  // ------------------------------------------------------------------------------ all other keys are untouched

  lemma ActForeign(cfg: Config, s: State, k: Key, c: Choice, other: Key)
    requires other != k
    ensures LocalOf(Act(cfg, s, k, c).maps, other) == LocalOf(s.maps, other)
  {
  }

  predicate SubmitsOwn(output: Output, k: Key)
  {
    output.Submitted? ==> Belongs(output.record, k)
  }

  lemma ActSubmitsOwn(cfg: Config, s: State, k: Key, c: Choice)
    ensures SubmitsOwn(Act(cfg, s, k, c).output, k)
  {
  }

  lemma RingGrows(ring: seq<Record>, output: Output, k: Key)
    requires SubmitsOwn(output, k)
    ensures forall other :: other != k ==> Mine(RingAfter(ring, output), other) == Mine(ring, other)
    ensures forall other, r :: r in Mine(ring, other) ==> r in Mine(RingAfter(ring, output), other)
  {
    if output.Submitted? {
      forall other { MineOfOneMore(ring, output.record, other); }
    }
  }
}
