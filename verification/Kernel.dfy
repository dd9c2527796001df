/**
 The kernel side of renames and unlinks as interleaved atomic steps.  Handlers of different threads run on
 different CPUs; each step does at most one operation on a shared map, on the ring buffer or on the drop counter,
 and the drop counter is read and written in two separate steps.  The environment decides which thread moves,
 whether user memory can be read, whether an insertion or a reservation is accepted, what the system call returns
 and what the clock says.  Field offsets are populated, so reading a tracepoint field does not fail.
 */
module Kernel {
  import opened Text
  import opened Trace
  import opened Records

  /** (tgid, pid): the key of all per-thread maps. */
  type Key = (U32, U32)

  datatype Call =
    | RenameCall(oldDfd: int, newDfd: int, flags: U32, source: string, target: string)
    | UnlinkCall(dfd: int, flags: U32, path: string)

  datatype Stash = Stash(oldDfd: int, newDfd: int, flags: U32, isRename: bool, fromWatch: bool)

  /** Where a thread is in its enter handler, its system call, or its exit handler. */
  datatype Pc =
    | Idle
    | EnterStart(call: Call)
    | StashOld(call: Call, tracked: bool)
    | StashNew(call: Call, tracked: bool, oldOk: bool)
    | GetOld(call: Call, tracked: bool)
    | GetNew(call: Call, tracked: bool)
    | PutStash(call: Call, tracked: bool)
    | InCall(call: Call, tracked: bool)
    | ExitStart(call: Call, tracked: bool, ret: int)
    | ExitOld(call: Call, tracked: bool, stash: Stash, time: nat)
    | EmitSource(call: Call, tracked: bool, stash: Stash, time: nat, path: string)
    | ExitNew(call: Call, tracked: bool, stash: Stash, time: nat)
    | EmitDestination(call: Call, tracked: bool, stash: Stash, time: nat, path: string)
    | EmitUnlink(call: Call, tracked: bool, stash: Stash, time: nat, path: string)
    | Clearing(removed: nat, next: Pc)
    | Leaving(call: Call, tracked: bool, ok: bool, stamp: Option<nat>)
    | Dropping(read: Option<U64>, next: Pc)

  /** A successful call, whether its group was tracked when it was entered, and its operation id if it got one. */
  datatype Done = Done(key: Key, call: Call, tracked: bool, stamp: Option<nat>)

  /** The shared maps, each entry under the key of one thread, and the last time each thread read. */
  datatype Maps = Maps(
    stash: map<Key, Stash>,
    oldPath: map<Key, string>,
    newPath: map<Key, string>,
    clock: map<Key, nat>)

  datatype State = State(
    pcs: map<Key, Pc>,
    tracked: set<U32>,
    maps: Maps,
    drops: U64,
    refused: bool,
    ring: seq<Record>,
    done: seq<Done>,
    steps: nat)

  const INIT := State(map[], {}, Maps(map[], map[], map[], map[]), 0, false, [], [], 0)

  /** What a step does besides moving its thread and updating the maps. */
  datatype Output = Silent | Submitted(record: Record) | Stored(drops: U64) | Refused | Completed(done: Done)

  datatype Move = Move(maps: Maps, pc: Pc, output: Output)

  datatype Config = Config(watchMode: bool, prefixes: seq<string>)

  /** The environment's answers for one step. */
  datatype Choice = Choice(readable: bool, accepted: bool, time: nat)

  datatype Step =
    | Begin(key: Key, call: Call)
    | Advance(key: Key, choice: Choice)
    | Return(key: Key, ret: int)
    | Die(key: Key)
    | OtherDrop(key: Key)
    | OtherRecord(record: Record)
    | Track(tgid: U32)
    | Untrack(tgid: U32)

  const MAX_CAPTURED := 255

  /** A user string is copied into a buffer of 256 bytes, its terminator included. */
  function Capture(path: string): string
  {
    if |path| <= MAX_CAPTURED then path else path[..MAX_CAPTURED]
  }

  function FirstPath(call: Call): string
  {
    match call case RenameCall(_, _, _, source, _) => source case UnlinkCall(_, _, path) => path
  }

  function SecondPath(call: Call): string
  {
    if call.RenameCall? then call.target else ""
  }

  function StashOf(call: Call, tracked: bool): Stash
  {
    match call
    case RenameCall(oldDfd, newDfd, flags, _, _) => Stash(oldDfd, newDfd, flags, true, !tracked)
    case UnlinkCall(dfd, flags, _) => Stash(dfd, 0, flags, false, !tracked)
  }

  predicate MatchesWatchedPrefix(prefixes: seq<string>, path: string)
  {
    exists i :: 0 <= i < |prefixes| && 0 < |prefixes[i]| <= 128 && prefixes[i] <= path
  }

  /** An untracked operation that the kernel can already tell to be outside all watched prefixes. */
  predicate FilteredOut(cfg: Config, paths: seq<string>)
  {
    forall i :: 0 <= i < |paths| ==> "/" <= paths[i] && !MatchesWatchedPrefix(cfg.prefixes, paths[i])
  }

  function Clock(m: Maps, k: Key): nat
  {
    if k in m.clock then m.clock[k] else 0
  }

  function IncrementU64(n: U64): U64
  {
    if n == U64_MAX then 0 else n + 1
  }

  function Drop(next: Pc): Pc
  {
    Dropping(None, next)
  }

  function Abandon(call: Call, tracked: bool): Pc
  {
    Clearing(0, InCall(call, tracked))
  }

  function Goto(m: Maps, pc: Pc): Move
  {
    Move(m, pc, Silent)
  }

  /** The next step of the enter handler of thread `k`, whose tgid is now tracked or not. */
  function EnterStep(cfg: Config, isTracked: bool, m: Maps, k: Key, pc: Pc, c: Choice): Move
  {
    match pc
    case EnterStart(call) =>
      Goto(m, if !isTracked && !cfg.watchMode then InCall(call, false) else StashOld(call, isTracked))
    case StashOld(call, tracked) =>
      var path := Capture(FirstPath(call));
      if c.readable && path != "" && c.accepted then
        Goto(m.(oldPath := m.oldPath[k := path]),
             if call.RenameCall? then StashNew(call, tracked, true) else GetOld(call, tracked))
      else
        Goto(m, Drop(if call.RenameCall? then StashNew(call, tracked, false) else Abandon(call, tracked)))
    case StashNew(call, tracked, oldOk) =>
      var path := Capture(SecondPath(call));
      if c.readable && path != "" && c.accepted then
        Goto(m.(newPath := m.newPath[k := path]), if oldOk then GetOld(call, tracked) else Abandon(call, tracked))
      else
        Goto(m, Drop(Abandon(call, tracked)))
    case GetOld(call, tracked) =>
      Goto(m, if k !in m.oldPath then Drop(Abandon(call, tracked))
              else if call.RenameCall? then GetNew(call, tracked)
              else if !tracked && FilteredOut(cfg, [m.oldPath[k]]) then Abandon(call, tracked)
              else PutStash(call, tracked))
    case GetNew(call, tracked) =>
      Goto(m, if k !in m.newPath then Drop(Abandon(call, tracked))
              else if !tracked && k in m.oldPath && FilteredOut(cfg, [m.oldPath[k], m.newPath[k]])
              then Abandon(call, tracked)
              else PutStash(call, tracked))
    case PutStash(call, tracked) =>
      if c.accepted then Goto(m.(stash := m.stash[k := StashOf(call, tracked)]), InCall(call, tracked))
      else Goto(m, Drop(Abandon(call, tracked)))
    case _ => Goto(m, pc)
  }

  function Leave(call: Call, tracked: bool, time: nat): Pc
  {
    Clearing(0, Leaving(call, tracked, true, Some(time)))
  }

  function SourceRecord(k: Key, st: Stash, time: nat, path: string): Record
  {
    RenameSource(k.1, k.0, time, st.oldDfd, st.flags, st.fromWatch, path)
  }

  function DestinationRecord(k: Key, st: Stash, time: nat, path: string): Record
  {
    RenameDestination(k.1, k.0, time, st.newDfd, st.flags, st.fromWatch, path)
  }

  function RemovedRecord(k: Key, st: Stash, time: nat, path: string): Record
  {
    UnlinkRecord(k.1, k.0, time, st.oldDfd, st.flags, st.fromWatch, path)
  }

  /** Reserve, fill and submit a record, or go on to record a drop. */
  function Submit(m: Maps, r: Record, next: Pc, c: Choice): Move
  {
    if c.accepted then Move(m, next, Submitted(r)) else Goto(m, Drop(next))
  }

  /** The next step of the exit handler of thread `k`; a clock reading is later than the thread's previous one. */
  function ExitStep(m: Maps, k: Key, pc: Pc, c: Choice): Move
  {
    match pc
    case ExitStart(call, tracked, ret) =>
      if k !in m.stash then Goto(m, Leaving(call, tracked, ret >= 0, None))
      else if ret < 0 then Goto(m, Clearing(0, Leaving(call, tracked, false, None)))
      else if c.time <= Clock(m, k) then Goto(m, pc)
      else Goto(m.(clock := m.clock[k := c.time]), ExitOld(call, tracked, m.stash[k], c.time))
    case ExitOld(call, tracked, st, time) =>
      Goto(m, if k !in m.oldPath then Drop(Leave(call, tracked, time))
              else if st.isRename then EmitSource(call, tracked, st, time, m.oldPath[k])
              else EmitUnlink(call, tracked, st, time, m.oldPath[k]))
    case EmitSource(call, tracked, st, time, path) =>
      Submit(m, SourceRecord(k, st, time, path), ExitNew(call, tracked, st, time), c)
    case ExitNew(call, tracked, st, time) =>
      Goto(m, if k !in m.newPath then Drop(Leave(call, tracked, time))
              else EmitDestination(call, tracked, st, time, m.newPath[k]))
    case EmitDestination(call, tracked, st, time, path) =>
      Submit(m, DestinationRecord(k, st, time, path), Leave(call, tracked, time), c)
    case EmitUnlink(call, tracked, st, time, path) =>
      Submit(m, RemovedRecord(k, st, time, path), Leave(call, tracked, time), c)
    case Leaving(call, tracked, ok, stamp) =>
      Move(m, Idle, if ok then Completed(Done(k, call, tracked, stamp)) else Silent)
    case _ => Goto(m, pc)
  }

  /** The steps of the two shared helpers: removing a stash, and recording a drop. */
  function HelperStep(drops: U64, m: Maps, k: Key, pc: Pc, c: Choice): Move
  {
    match pc
    case Clearing(removed, next) =>
      if removed == 0 then Goto(m.(stash := m.stash - {k}), Clearing(1, next))
      else if removed == 1 then Goto(m.(oldPath := m.oldPath - {k}), Clearing(2, next))
      else Goto(m.(newPath := m.newPath - {k}), next)
    case Dropping(read, next) =>
      if read.None? then Goto(m, Dropping(Some(drops), next))
      else Move(m, next, if c.accepted then Stored(IncrementU64(read.value)) else Refused)
    case _ => Goto(m, pc)
  }

  predicate InEnter(pc: Pc)
  {
    pc.EnterStart? || pc.StashOld? || pc.StashNew? || pc.GetOld? || pc.GetNew? || pc.PutStash?
  }

  predicate InHelper(pc: Pc)
  {
    pc.Clearing? || pc.Dropping?
  }

  function Act(cfg: Config, s: State, k: Key, c: Choice): Move
  {
    var pc := PcOf(s, k);
    if InEnter(pc) then EnterStep(cfg, k.0 in s.tracked, s.maps, k, pc, c)
    else if InHelper(pc) then HelperStep(s.drops, s.maps, k, pc, c)
    else ExitStep(s.maps, k, pc, c)
  }

  function PcOf(s: State, k: Key): Pc
  {
    if k in s.pcs then s.pcs[k] else Idle
  }

  function SetPc(s: State, k: Key, pc: Pc): State
  {
    s.(pcs := s.pcs[k := pc])
  }

  function Apply(s: State, k: Key, move: Move): State
  {
    s.(pcs := s.pcs[k := move.pc],
       maps := move.maps,
       ring := if move.output.Submitted? then s.ring + [move.output.record] else s.ring,
       drops := if move.output.Stored? then move.output.drops else s.drops,
       refused := s.refused || move.output.Refused?,
       done := if move.output.Completed? then s.done + [move.output.done] else s.done)
  }

  predicate IsPathRecord(r: Record)
  {
    r.RenameSource? || r.RenameDestination? || r.UnlinkRecord?
  }

  /** What a step does; one that is not enabled does nothing. */
  function Effect(cfg: Config, s: State, step: Step): State
  {
    match step
    case Begin(k, call) => if PcOf(s, k).Idle? then SetPc(s, k, EnterStart(call)) else s
    case Advance(k, c) => Apply(s, k, Act(cfg, s, k, c))
    case Return(k, ret) =>
      if PcOf(s, k).InCall? then SetPc(s, k, ExitStart(PcOf(s, k).call, PcOf(s, k).tracked, ret)) else s
    case Die(k) => if PcOf(s, k).InCall? then SetPc(s, k, Idle) else s
    case OtherDrop(k) => if PcOf(s, k).Idle? then SetPc(s, k, Drop(Idle)) else s
    case OtherRecord(r) => if IsPathRecord(r) then s else s.(ring := s.ring + [r])
    case Track(tgid) => s.(tracked := s.tracked + {tgid})
    case Untrack(tgid) => s.(tracked := s.tracked - {tgid})
  }

  function Next(cfg: Config, s: State, step: Step): State
  {
    Effect(cfg, s, step).(steps := s.steps + 1)
  }

  function Execute(cfg: Config, run: seq<Step>): State
  {
    if run == [] then INIT else Next(cfg, Execute(cfg, run[..|run| - 1]), run[|run| - 1])
  }
}
