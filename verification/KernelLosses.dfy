/**
 Which completed calls reach the ring, for every interleaving and whatever became of the drop counter: exactly those
 that are wanted and in whose own handlers no drop was raised.  When the counter is zero, those are the wanted ones
 whose own updates of it were not refused.
 */
module KernelLosses {
  import opened Text
  import opened Trace
  import opened Records
  import opened Kernel
  import opened KernelDrops
  import opened KernelStamps
  import opened KernelPairs

  /**
   The threads that raised a drop, and those whose update of the counter was refused, since they last entered a call;
   and the same of each completed call, noted on its completion.
   */
  datatype Losses = Losses(raised: set<Key>, refused: set<Key>, lost: seq<bool>, hidden: seq<bool>)

  function LossesAfter(cfg: Config, s: State, l: Losses, step: Step): Losses
  {
    match step
    case Begin(k, _) =>
      if PcOf(s, k).Idle? then l.(raised := l.raised - {k}, refused := l.refused - {k}) else l
    case Advance(k, c) =>
      var move := Act(cfg, s, k, c);
      Losses(if move.pc.Dropping? then l.raised + {k} else l.raised,
             if move.output.Refused? then l.refused + {k} else l.refused,
             if move.output.Completed? then l.lost + [k in l.raised] else l.lost,
             if move.output.Completed? then l.hidden + [k in l.refused] else l.hidden)
    case OtherDrop(k) => if PcOf(s, k).Idle? then l.(raised := l.raised + {k}) else l
    case _ => l
  }

  function LossesOf(cfg: Config, run: seq<Step>): Losses
  {
    if run == [] then Losses({}, {}, [], [])
    else LossesAfter(cfg, Execute(cfg, run[..|run| - 1]), LossesOf(cfg, run[..|run| - 1]), run[|run| - 1])
  }

  // ------------------------------------------------------------------------------ lost calls

  ghost predicate KeysExact(cfg: Config, s: State, raised: set<Key>)
  {
    forall k :: KeyExact(cfg, k, PcOf(s, k), LocalOf(s.maps, k), Mine(s.ring, k), k in raised)
  }

  predicate DonesExact(cfg: Config, ring: seq<Record>, done: seq<Done>, lost: seq<bool>)
  {
    && |lost| == |done|
    && forall e :: 0 <= e < |done| ==> (DoneClean(ring, done[e]) <==> IsRecorded(cfg, done[e], lost[e]))
  }

  ghost predicate Exact(cfg: Config, s: State, l: Losses)
  {
    KeysExact(cfg, s, l.raised) && DonesExact(cfg, s.ring, s.done, l.lost)
  }

  lemma SetPcKeepsExact(cfg: Config, s: State, k: Key, pc: Pc, raised: set<Key>, raised': set<Key>)
    requires KeysExact(cfg, s, raised) && raised - {k} == raised' - {k}
    requires KeyExact(cfg, k, pc, LocalOf(s.maps, k), Mine(s.ring, k), k in raised')
    ensures KeysExact(cfg, SetPc(s, k, pc), raised')
  {
    var t := SetPc(s, k, pc);
    forall other
      ensures KeyExact(cfg, other, PcOf(t, other), LocalOf(t.maps, other), Mine(t.ring, other), other in raised')
    {
      if other != k {
        assert KeyExact(cfg, other, PcOf(s, other), LocalOf(s.maps, other), Mine(s.ring, other), other in raised);
        assert other in raised <==> other in raised - {k};
        assert other in raised' <==> other in raised' - {k};
      }
    }
  }

  lemma ApplyToOther(cfg: Config, s: State, k: Key, c: Choice, other: Key, hurt: bool)
    requires other != k && KeyExact(cfg, other, PcOf(s, other), LocalOf(s.maps, other), Mine(s.ring, other), hurt)
    ensures var t := Apply(s, k, Act(cfg, s, k, c));
            KeyExact(cfg, other, PcOf(t, other), LocalOf(t.maps, other), Mine(t.ring, other), hurt)
  {
    var move := Act(cfg, s, k, c);
    ActForeign(cfg, s, k, c, other);
    ActSubmitsOwn(cfg, s, k, c);
    RingGrows(s.ring, move.output, k);
    assert PcOf(Apply(s, k, move), other) == PcOf(s, other);
    assert Apply(s, k, move).ring == RingAfter(s.ring, move.output);
  }

  lemma ApplyKeepsKeys(cfg: Config, s: State, k: Key, c: Choice, raised: set<Key>)
    requires KeysExact(cfg, s, raised)
    ensures var move := Act(cfg, s, k, c);
            KeysExact(cfg, Apply(s, k, move), if move.pc.Dropping? then raised + {k} else raised)
  {
    var move := Act(cfg, s, k, c);
    var t, raised' := Apply(s, k, move), if move.pc.Dropping? then raised + {k} else raised;
    forall other
      ensures KeyExact(cfg, other, PcOf(t, other), LocalOf(t.maps, other), Mine(t.ring, other), other in raised')
    {
      assert KeyExact(cfg, other, PcOf(s, other), LocalOf(s.maps, other), Mine(s.ring, other), other in raised);
      if other == k { ActOwn(cfg, s, k, c, k in raised); } else { ApplyToOther(cfg, s, k, c, other, other in raised); }
    }
  }

  /** What a thread submits carries the id that it holds. */
  lemma SubmitsUnderHeld(cfg: Config, s: State, k: Key, c: Choice)
    ensures var output := Act(cfg, s, k, c).output;
            output.Submitted? ==> Belongs(output.record, k) && Held(PcOf(s, k)) == Some(output.record.opId)
  {
  }

  /** A record under a later id does not complete an earlier call. */
  lemma LaterIsNoPair(m: seq<PathRecord>, r: PathRecord, d: Done, k: Key)
    requires d.stamp.Some? ==> d.stamp.value < r.opId
    ensures OwnRecordsOf(d, k, m + [r]) <==> OwnRecordsOf(d, k, m)
  {
    if d.stamp.Some? {
      if d.call.RenameCall? {
        var a, b := Source(k, d.call, d.tracked, d.stamp.value), Destination(k, d.call, d.tracked, d.stamp.value);
        assert a in m + [r] <==> a in m || a == r;
        assert b in m + [r] <==> b in m || b == r;
      } else {
        var a := Removed(k, d.call, d.tracked, d.stamp.value);
        assert a in m + [r] <==> a in m || a == r;
      }
    }
  }

  lemma SubmissionKeepsDone(ring: seq<Record>, output: Output, k: Key, d: Done, clock: nat, held: Option<nat>)
    requires output.Submitted? ==> Belongs(output.record, k) && held == Some(output.record.opId)
    requires d.key == k ==> IsPast(d, clock, held)
    ensures DoneClean(RingAfter(ring, output), d) <==> DoneClean(ring, d)
  {
    if output.Submitted? {
      MineOfOneMore(ring, output.record, d.key);
      if d.key == k { LaterIsNoPair(Mine(ring, k), output.record, d, k); }
    }
  }

  lemma ApplyKeepsDones(cfg: Config, s: State, k: Key, c: Choice, l: Losses)
    requires Exact(cfg, s, l) && StampInv(s)
    ensures var move := Act(cfg, s, k, c);
            DonesExact(cfg, RingAfter(s.ring, move.output), DoneAfter(s.done, move.output),
                       if move.output.Completed? then l.lost + [k in l.raised] else l.lost)
  {
    var move := Act(cfg, s, k, c);
    SubmitsUnderHeld(cfg, s, k, c);
    assert Fits(k, PcOf(s, k), Clock(s.maps, k), s.done);
    forall e | 0 <= e < |s.done|
      ensures DoneClean(RingAfter(s.ring, move.output), s.done[e]) <==> DoneClean(s.ring, s.done[e])
    {
      SubmissionKeepsDone(s.ring, move.output, k, s.done[e], Clock(s.maps, k), Held(PcOf(s, k)));
    }
    assert KeyExact(cfg, k, PcOf(s, k), LocalOf(s.maps, k), Mine(s.ring, k), k in l.raised);
    ActOwn(cfg, s, k, c, k in l.raised);
  }

  lemma ApplyKeepsExact(cfg: Config, s: State, k: Key, c: Choice, l: Losses)
    requires Exact(cfg, s, l) && StampInv(s)
    ensures Exact(cfg, Apply(s, k, Act(cfg, s, k, c)), LossesAfter(cfg, s, l, Advance(k, c)))
  {
    var move := Act(cfg, s, k, c);
    ApplyKeepsKeys(cfg, s, k, c, l.raised);
    ApplyKeepsDones(cfg, s, k, c, l);
    assert Apply(s, k, move).ring == RingAfter(s.ring, move.output);
    assert Apply(s, k, move).done == DoneAfter(s.done, move.output);
  }

  lemma OtherRecordKeepsExact(cfg: Config, s: State, r: Record, l: Losses)
    requires Exact(cfg, s, l) && !IsPathRecord(r)
    ensures Exact(cfg, s.(ring := s.ring + [r]), l)
  {
    var t := s.(ring := s.ring + [r]);
    forall k ensures Mine(t.ring, k) == Mine(s.ring, k) { MineOfOneMore(s.ring, r, k); }
    forall k ensures KeyExact(cfg, k, PcOf(t, k), LocalOf(t.maps, k), Mine(t.ring, k), k in l.raised) {
      assert KeyExact(cfg, k, PcOf(s, k), LocalOf(s.maps, k), Mine(s.ring, k), k in l.raised);
    }
  }

  /** Exactness is about threads, maps, records and completed renames. */
  lemma SameKeepsExact(cfg: Config, s: State, t: State, l: Losses)
    requires Exact(cfg, s, l) && t.pcs == s.pcs && t.maps == s.maps && t.ring == s.ring && t.done == s.done
    ensures Exact(cfg, t, l)
  {
    forall k ensures KeyExact(cfg, k, PcOf(t, k), LocalOf(t.maps, k), Mine(t.ring, k), k in l.raised) {
      assert KeyExact(cfg, k, PcOf(s, k), LocalOf(s.maps, k), Mine(s.ring, k), k in l.raised);
    }
  }

  lemma EffectKeepsExact(cfg: Config, s: State, l: Losses, step: Step)
    requires Exact(cfg, s, l) && StampInv(s)
    ensures Exact(cfg, Effect(cfg, s, step), LossesAfter(cfg, s, l, step))
  {
    match step
    case Begin(k, call) =>
      assert KeyExact(cfg, k, PcOf(s, k), LocalOf(s.maps, k), Mine(s.ring, k), k in l.raised);
      if PcOf(s, k).Idle? { SetPcKeepsExact(cfg, s, k, EnterStart(call), l.raised, l.raised - {k}); }
    case Advance(k, c) => ApplyKeepsExact(cfg, s, k, c, l);
    case Return(k, ret) =>
      assert KeyExact(cfg, k, PcOf(s, k), LocalOf(s.maps, k), Mine(s.ring, k), k in l.raised);
      if PcOf(s, k).InCall? {
        SetPcKeepsExact(cfg, s, k, ExitStart(PcOf(s, k).call, PcOf(s, k).tracked, ret), l.raised, l.raised);
      }
    case Die(k) =>
      assert KeyExact(cfg, k, PcOf(s, k), LocalOf(s.maps, k), Mine(s.ring, k), k in l.raised);
      if PcOf(s, k).InCall? { SetPcKeepsExact(cfg, s, k, Idle, l.raised, l.raised); }
    case OtherDrop(k) =>
      assert KeyExact(cfg, k, PcOf(s, k), LocalOf(s.maps, k), Mine(s.ring, k), k in l.raised);
      if PcOf(s, k).Idle? { SetPcKeepsExact(cfg, s, k, Drop(Idle), l.raised, l.raised + {k}); }
    case OtherRecord(r) => if !IsPathRecord(r) { OtherRecordKeepsExact(cfg, s, r, l); }
    case Track(_) => SameKeepsExact(cfg, s, Effect(cfg, s, step), l);
    case Untrack(_) => SameKeepsExact(cfg, s, Effect(cfg, s, step), l);
  }

  lemma {:induction false} RunKeepsExact(cfg: Config, run: seq<Step>)
    ensures Exact(cfg, Execute(cfg, run), LossesOf(cfg, run))
  {
    if run != [] {
      var n := |run| - 1;
      var s := Execute(cfg, run[..n]);
      RunKeepsExact(cfg, run[..n]);
      RunKeepsStamps(cfg, run[..n]);
      EffectKeepsExact(cfg, s, LossesOf(cfg, run[..n]), run[n]);
      SameKeepsExact(cfg, Effect(cfg, s, run[n]), Execute(cfg, run), LossesOf(cfg, run));
    }
  }

  /**
   For every interleaving and every answer of the system, without regard to the counter: a completed call has an
   operation id and all of its own records in the ring exactly if it is wanted and no drop was raised in its handlers.
   The ids of a thread's completed calls ascend, and its records of one id are the two halves of a rename.
   */
  lemma SubmittedIff(cfg: Config, run: seq<Step>)
    ensures var s, lost := Execute(cfg, run), LossesOf(cfg, run).lost;
            && |lost| == |s.done|
            && (forall e :: 0 <= e < |s.done| ==>
                  (DoneClean(s.ring, s.done[e]) <==> IsRecorded(cfg, s.done[e], lost[e])))
            && Ascending(s.done) && (forall k :: Ordered(Mine(s.ring, k)))
  {
    RunKeepsExact(cfg, run);
    RunKeepsStamps(cfg, run);
    var s := Execute(cfg, run);
    forall k ensures Ordered(Mine(s.ring, k)) {
      assert KeyExact(cfg, k, PcOf(s, k), LocalOf(s.maps, k), Mine(s.ring, k), k in LossesOf(cfg, run).raised);
    }
  }

  // ------------------------------------------------------------------------------ hidden losses

  /** A refused update belongs to a raised drop; a raised drop that is not under way was refused, or counted. */
  predicate Seen(dropping: bool, raised: bool, refused: bool, counted: bool, anyRefused: bool)
  {
    && (refused ==> raised && anyRefused) && (dropping ==> raised)
    && (raised && !dropping ==> refused || counted)
  }

  ghost predicate ThreadsSeen(s: State, raised: set<Key>, refused: set<Key>)
  {
    forall k :: Seen(PcOf(s, k).Dropping?, k in raised, k in refused, s.drops > 0, s.refused)
  }

  predicate DonesSeen(lost: seq<bool>, hidden: seq<bool>, counted: bool, anyRefused: bool)
  {
    |lost| == |hidden| && forall e :: 0 <= e < |lost| ==> Seen(false, lost[e], hidden[e], counted, anyRefused)
  }

  ghost predicate AllSeen(s: State, l: Losses)
  {
    ThreadsSeen(s, l.raised, l.refused) && DonesSeen(l.lost, l.hidden, s.drops > 0, s.refused)
  }

  /** A thread stores or refuses a count only at the end of a drop, and completes a rename only outside one. */
  predicate DropsOnly(pc: Pc, output: Output)
  {
    && (output.Stored? || output.Refused? ==> pc.Dropping?)
    && (output.Completed? ==> !pc.Dropping?)
  }

  lemma ActDropsOnly(cfg: Config, s: State, k: Key, c: Choice)
    ensures DropsOnly(PcOf(s, k), Act(cfg, s, k, c).output)
  {
  }

  lemma MoveIsSeen(pc: Pc, move: Move, raised: bool, refused: bool, counted: bool, counted': bool, any: bool)
    requires Seen(pc.Dropping?, raised, refused, counted, any) && DropsOnly(pc, move.output)
    requires pc.Dropping? ==> move.pc.Dropping? || move.output.Stored? || move.output.Refused?
    requires counted || move.output.Stored? ==> counted'
    ensures Seen(move.pc.Dropping?, raised || move.pc.Dropping?, refused || move.output.Refused?, counted',
                 any || move.output.Refused?)
  {
  }

  lemma ApplyKeepsSeen(cfg: Config, s: State, k: Key, c: Choice, l: Losses)
    requires AllSeen(s, l) && DropInv(s) && s.steps < U64_MAX
    ensures AllSeen(Next(cfg, s, Advance(k, c)), LossesAfter(cfg, s, l, Advance(k, c)))
  {
    var move, t, l' := Act(cfg, s, k, c), Next(cfg, s, Advance(k, c)), LossesAfter(cfg, s, l, Advance(k, c));
    ActIsSteady(cfg, s, k, c);
    ActDropsOnly(cfg, s, k, c);
    if s.drops > 0 { NextKeepsCounted(cfg, s, Advance(k, c)); }
    forall other
      ensures Seen(PcOf(t, other).Dropping?, other in l'.raised, other in l'.refused, t.drops > 0, t.refused)
    {
      assert Seen(PcOf(s, other).Dropping?, other in l.raised, other in l.refused, s.drops > 0, s.refused);
      if other == k {
        MoveIsSeen(PcOf(s, k), move, k in l.raised, k in l.refused, s.drops > 0, t.drops > 0, s.refused);
      }
    }
    assert Seen(PcOf(s, k).Dropping?, k in l.raised, k in l.refused, s.drops > 0, s.refused);
  }

  /** A step of one thread outside its handlers. */
  lemma SetPcKeepsSeen(s: State, t: State, k: Key, pc: Pc, l: Losses, l': Losses)
    requires AllSeen(s, l) && t.pcs == s.pcs[k := pc] && t.drops == s.drops && t.refused == s.refused
    requires l.raised - {k} == l'.raised - {k} && l.refused - {k} == l'.refused - {k}
    requires l'.lost == l.lost && l'.hidden == l.hidden
    requires Seen(pc.Dropping?, k in l'.raised, k in l'.refused, s.drops > 0, s.refused)
    ensures AllSeen(t, l')
  {
    forall other
      ensures Seen(PcOf(t, other).Dropping?, other in l'.raised, other in l'.refused, t.drops > 0, t.refused)
    {
      if other != k {
        assert Seen(PcOf(s, other).Dropping?, other in l.raised, other in l.refused, s.drops > 0, s.refused);
        assert other in l.raised <==> other in l.raised - {k};
        assert other in l'.raised <==> other in l'.raised - {k};
        assert other in l.refused <==> other in l.refused - {k};
        assert other in l'.refused <==> other in l'.refused - {k};
      }
    }
  }

  lemma SameKeepsSeen(s: State, t: State, l: Losses)
    requires AllSeen(s, l) && t.pcs == s.pcs && t.drops == s.drops && t.refused == s.refused
    ensures AllSeen(t, l)
  {
    forall k ensures Seen(PcOf(t, k).Dropping?, k in l.raised, k in l.refused, t.drops > 0, t.refused) {
      assert Seen(PcOf(s, k).Dropping?, k in l.raised, k in l.refused, s.drops > 0, s.refused);
    }
  }

  lemma NextKeepsSeen(cfg: Config, s: State, l: Losses, step: Step)
    requires AllSeen(s, l) && DropInv(s) && s.steps < U64_MAX
    ensures AllSeen(Next(cfg, s, step), LossesAfter(cfg, s, l, step))
  {
    var t, l' := Next(cfg, s, step), LossesAfter(cfg, s, l, step);
    match step
    case Begin(k, call) =>
      if PcOf(s, k).Idle? { SetPcKeepsSeen(s, t, k, EnterStart(call), l, l'); } else { SameKeepsSeen(s, t, l); }
    case Advance(k, c) => ApplyKeepsSeen(cfg, s, k, c, l);
    case Return(k, ret) =>
      assert Seen(PcOf(s, k).Dropping?, k in l.raised, k in l.refused, s.drops > 0, s.refused);
      if PcOf(s, k).InCall? {
        SetPcKeepsSeen(s, t, k, ExitStart(PcOf(s, k).call, PcOf(s, k).tracked, ret), l, l);
      } else {
        SameKeepsSeen(s, t, l);
      }
    case Die(k) =>
      assert Seen(PcOf(s, k).Dropping?, k in l.raised, k in l.refused, s.drops > 0, s.refused);
      if PcOf(s, k).InCall? { SetPcKeepsSeen(s, t, k, Idle, l, l); } else { SameKeepsSeen(s, t, l); }
    case OtherDrop(k) =>
      assert Seen(PcOf(s, k).Dropping?, k in l.raised, k in l.refused, s.drops > 0, s.refused);
      if PcOf(s, k).Idle? { SetPcKeepsSeen(s, t, k, Drop(Idle), l, l'); } else { SameKeepsSeen(s, t, l); }
    case OtherRecord(_) => SameKeepsSeen(s, t, l);
    case Track(_) => SameKeepsSeen(s, t, l);
    case Untrack(_) => SameKeepsSeen(s, t, l);
  }

  lemma {:induction false} RunKeepsSeen(cfg: Config, run: seq<Step>)
    requires |run| <= U64_MAX
    ensures AllSeen(Execute(cfg, run), LossesOf(cfg, run))
  {
    if run != [] {
      var n := |run| - 1;
      RunKeepsSeen(cfg, run[..n]);
      RunKeepsDropInv(cfg, run[..n]);
      NextKeepsSeen(cfg, Execute(cfg, run[..n]), LossesOf(cfg, run[..n]), run[n]);
    }
  }

  /**
   At count zero a completed call is submitted exactly if it is wanted and no update of the counter was refused in its
   own handlers, whatever other handlers met with and whoever is recording a drop.
   */
  lemma SubmittedAtZeroIff(cfg: Config, run: seq<Step>, e: nat)
    requires |run| <= U64_MAX && Execute(cfg, run).drops == 0 && e < |Execute(cfg, run).done|
    ensures var s, hidden := Execute(cfg, run), LossesOf(cfg, run).hidden;
            |hidden| == |s.done| && (hidden[e] ==> s.refused)
            && (DoneClean(s.ring, s.done[e]) <==> IsRecorded(cfg, s.done[e], hidden[e]))
  {
    var s, l := Execute(cfg, run), LossesOf(cfg, run);
    SubmittedIff(cfg, run);
    RunKeepsSeen(cfg, run);
    assert Seen(false, l.lost[e], l.hidden[e], s.drops > 0, s.refused);
  }

  /**
   For every interleaving: if at the end the counter is zero and no update of it was refused, each completed call that
   is wanted got an operation id and submitted all of its records, captured from itself; the ids of a thread's completed
   calls ascend, and no two records of a thread with one id are of the same half.
   */
  lemma EveryCallIsSubmitted(cfg: Config, run: seq<Step>)
    requires |run| <= U64_MAX && Execute(cfg, run).drops == 0 && !Execute(cfg, run).refused
    ensures var s := Execute(cfg, run);
            && (forall e :: 0 <= e < |s.done| && Wanted(cfg, s.done[e].call, s.done[e].tracked) ==>
                  DoneClean(s.ring, s.done[e]))
            && Ascending(s.done)
            && (forall k :: Ordered(Mine(s.ring, k)))
  {
    SubmittedIff(cfg, run);
    var s := Execute(cfg, run);
    forall e | 0 <= e < |s.done| && Wanted(cfg, s.done[e].call, s.done[e].tracked)
      ensures DoneClean(s.ring, s.done[e])
    {
      SubmittedAtZeroIff(cfg, run, e);
    }
  }
}
