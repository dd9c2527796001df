/** Operation ids: the completed renames of one thread carry strictly ascending ones, whatever other threads do. */
module KernelStamps {
  import opened Text
  import opened Trace
  import opened Kernel

  /** The operation id that an exit handler is working under. */
  function Held(pc: Pc): Option<nat>
  {
    match pc
    case ExitOld(_, _, _, time) => Some(time)
    case EmitSource(_, _, _, time, _) => Some(time)
    case ExitNew(_, _, _, time) => Some(time)
    case EmitDestination(_, _, _, time, _) => Some(time)
    case EmitUnlink(_, _, _, time, _) => Some(time)
    case Leaving(_, _, _, stamp) => stamp
    case Clearing(_, next) => Held(next)
    case Dropping(_, next) => Held(next)
    case _ => None
  }

  /** `d` was completed under an id that is no later than the clock, and earlier than the id now in use. */
  predicate IsPast(d: Done, clock: nat, held: Option<nat>)
  {
    d.stamp.Some? ==> d.stamp.value <= clock && (held.Some? ==> d.stamp.value < held.value)
  }

  predicate Fits(k: Key, pc: Pc, clock: nat, done: seq<Done>)
  {
    && (Held(pc).Some? ==> Held(pc).value <= clock)
    && forall i :: 0 <= i < |done| && done[i].key == k ==> IsPast(done[i], clock, Held(pc))
  }

  /** Completed renames of one thread, in the order of completion, carry ascending ids. */
  predicate Ascending(done: seq<Done>)
  {
    forall i, j :: 0 <= i < j < |done| && done[i].key == done[j].key && done[i].stamp.Some? && done[j].stamp.Some? ==>
      done[i].stamp.value < done[j].stamp.value
  }

  ghost predicate StampInv(s: State)
  {
    Ascending(s.done) && forall k :: Fits(k, PcOf(s, k), Clock(s.maps, k), s.done)
  }

  /** A move either keeps the id and the clock, or takes up a later id than the clock, or gives the id up. */
  predicate KeepsTime(pc: Pc, clock: nat, move: Move, k: Key)
  {
    var clock1 := Clock(move.maps, k);
    && (move.output.Completed? ==>
          move.output.done.key == k && move.output.done.stamp == Held(pc) && Held(move.pc).None?)
    && (|| (clock1 == clock && (Held(move.pc) == Held(pc) || Held(move.pc).None?))
        || (clock1 > clock && Held(move.pc) == Some(clock1)))
  }

  lemma HeldInHelpers(call: Call, tracked: bool, time: nat)
    ensures Held(Abandon(call, tracked)).None? && Held(Leave(call, tracked, time)) == Some(time)
    ensures forall next :: Held(Drop(next)) == Held(next)
  {
  }

  lemma EnterKeepsTime(cfg: Config, isTracked: bool, m: Maps, k: Key, pc: Pc, c: Choice)
    requires InEnter(pc)
    ensures KeepsTime(pc, Clock(m, k), EnterStep(cfg, isTracked, m, k, pc, c), k)
  {
    HeldInHelpers(pc.call, if pc.EnterStart? then false else pc.tracked, 0);
  }

  lemma HelperKeepsTime(drops: U64, m: Maps, k: Key, pc: Pc, c: Choice)
    requires InHelper(pc)
    ensures KeepsTime(pc, Clock(m, k), HelperStep(drops, m, k, pc, c), k)
  {
  }

  lemma ExitKeepsTime(m: Maps, k: Key, pc: Pc, c: Choice)
    requires !InEnter(pc) && !InHelper(pc)
    ensures KeepsTime(pc, Clock(m, k), ExitStep(m, k, pc, c), k)
  {
    if Held(pc).Some? { HeldInHelpers(pc.call, pc.tracked, Held(pc).value); }
  }

  lemma ActKeepsTime(cfg: Config, s: State, k: Key, c: Choice)
    ensures KeepsTime(PcOf(s, k), Clock(s.maps, k), Act(cfg, s, k, c), k)
  {
    var pc := PcOf(s, k);
    if InEnter(pc) {
      EnterKeepsTime(cfg, k.0 in s.tracked, s.maps, k, pc, c);
    } else if InHelper(pc) {
      HelperKeepsTime(s.drops, s.maps, k, pc, c);
    } else {
      ExitKeepsTime(s.maps, k, pc, c);
    }
  }

  lemma ActKeepsClocks(cfg: Config, s: State, k: Key, c: Choice, other: Key)
    requires other != k
    ensures Clock(Act(cfg, s, k, c).maps, other) == Clock(s.maps, other)
  {
  }

  function DoneAfter(done: seq<Done>, output: Output): seq<Done>
  {
    if output.Completed? then done + [output.done] else done
  }

  lemma MoveFits(k: Key, pc: Pc, clock: nat, move: Move, done: seq<Done>)
    requires Fits(k, pc, clock, done) && Ascending(done) && KeepsTime(pc, clock, move, k)
    ensures Fits(k, move.pc, Clock(move.maps, k), DoneAfter(done, move.output))
    ensures Ascending(DoneAfter(done, move.output))
  {
  }

  lemma ApplyKeepsStamps(cfg: Config, s: State, k: Key, c: Choice)
    requires StampInv(s)
    ensures StampInv(Apply(s, k, Act(cfg, s, k, c)))
  {
    var move := Act(cfg, s, k, c);
    var t := Apply(s, k, move);
    assert Fits(k, PcOf(s, k), Clock(s.maps, k), s.done);
    ActKeepsTime(cfg, s, k, c);
    MoveFits(k, PcOf(s, k), Clock(s.maps, k), move, s.done);
    assert t.done == DoneAfter(s.done, move.output);
    forall other ensures Fits(other, PcOf(t, other), Clock(t.maps, other), t.done) {
      if other != k {
        assert Fits(other, PcOf(s, other), Clock(s.maps, other), s.done);
        ActKeepsClocks(cfg, s, k, c, other);
      }
    }
  }

  /** Outside its handlers a thread takes up no id. */
  lemma SetPcKeepsStamps(s: State, k: Key, pc: Pc)
    requires StampInv(s) && Held(pc).None?
    ensures StampInv(SetPc(s, k, pc))
  {
    var t := SetPc(s, k, pc);
    forall other ensures Fits(other, PcOf(t, other), Clock(t.maps, other), t.done) {
      assert Fits(other, PcOf(s, other), Clock(s.maps, other), s.done);
    }
  }

  lemma SameKeepsStamps(s: State, t: State)
    requires StampInv(s) && t.pcs == s.pcs && t.maps == s.maps && t.done == s.done
    ensures StampInv(t)
  {
    forall k ensures Fits(k, PcOf(t, k), Clock(t.maps, k), t.done) {
      assert Fits(k, PcOf(s, k), Clock(s.maps, k), s.done);
    }
  }

  lemma EffectKeepsStamps(cfg: Config, s: State, step: Step)
    requires StampInv(s)
    ensures StampInv(Effect(cfg, s, step))
  {
    match step
    case Begin(k, call) => SetPcKeepsStamps(s, k, EnterStart(call));
    case Advance(k, c) => ApplyKeepsStamps(cfg, s, k, c);
    case Return(k, ret) =>
      if PcOf(s, k).InCall? { SetPcKeepsStamps(s, k, ExitStart(PcOf(s, k).call, PcOf(s, k).tracked, ret)); }
    case Die(k) => SetPcKeepsStamps(s, k, Idle);
    case OtherDrop(k) => SetPcKeepsStamps(s, k, Drop(Idle));
    case OtherRecord(_) => SameKeepsStamps(s, Effect(cfg, s, step));
    case Track(_) => SameKeepsStamps(s, Effect(cfg, s, step));
    case Untrack(_) => SameKeepsStamps(s, Effect(cfg, s, step));
  }

  /** In every run the completed renames of a thread have ascending, hence different, operation ids. */
  lemma {:induction false} RunKeepsStamps(cfg: Config, run: seq<Step>)
    ensures StampInv(Execute(cfg, run))
  {
    if run != [] {
      var s := Execute(cfg, run[..|run| - 1]);
      RunKeepsStamps(cfg, run[..|run| - 1]);
      EffectKeepsStamps(cfg, s, run[|run| - 1]);
      SameKeepsStamps(Effect(cfg, s, run[|run| - 1]), Execute(cfg, run));
    }
  }
}
