/** Recorded drops are never forgotten, although the counter is incremented without atomicity. */
module KernelDrops {
  import opened Sequences
  import opened Text
  import opened Trace
  import opened Kernel

  /** A drop was recorded, is being recorded by some thread, or the counter refused it. */
  ghost predicate Counted(s: State)
  {
    s.drops > 0 || s.refused || exists k :: k in s.pcs && s.pcs[k].Dropping?
  }

  predicate IsPlain(pc: Pc)
  {
    !pc.Dropping? && !pc.Clearing?
  }

  /** A drop is not nested in another, and a count that was read and not yet written back is at most `n`. */
  predicate PcFine(pc: Pc, n: nat)
  {
    match pc
    case Dropping(read, next) =>
      && (IsPlain(next) || (next.Clearing? && IsPlain(next.next)))
      && (read.Some? ==> read.value <= n)
    case Clearing(_, next) => IsPlain(next)
    case _ => true
  }

  predicate PcsFine(pcs: map<Key, Pc>, n: nat)
  {
    forall k :: k in pcs ==> PcFine(pcs[k], n)
  }

  predicate DropInv(s: State)
  {
    s.drops <= s.steps && PcsFine(s.pcs, s.steps)
  }

  /** What one step of a thread does to the counter, and to what the thread knows of it. */
  predicate Steady(drops: nat, steps: nat, move: Move, dropping: bool)
  {
    && PcFine(move.pc, steps + 1)
    && (move.output.Stored? ==> 0 < move.output.drops <= steps + 1)
    && (dropping ==> move.pc.Dropping? || move.output.Stored? || move.output.Refused?)
  }

  lemma EnterIsSteady(cfg: Config, s: State, k: Key, c: Choice)
    requires InEnter(PcOf(s, k))
    ensures Steady(s.drops, s.steps, EnterStep(cfg, k.0 in s.tracked, s.maps, k, PcOf(s, k), c), false)
  {
  }

  lemma ExitIsSteady(m: Maps, k: Key, pc: Pc, c: Choice, drops: nat, steps: nat)
    requires IsPlain(pc)
    ensures Steady(drops, steps, ExitStep(m, k, pc, c), false)
  {
  }

  lemma HelperIsSteady(m: Maps, k: Key, pc: Pc, c: Choice, drops: U64, steps: nat)
    requires drops <= steps < U64_MAX && PcFine(pc, steps) && InHelper(pc)
    ensures Steady(drops, steps, HelperStep(drops, m, k, pc, c), pc.Dropping?)
  {
  }

  lemma ActIsSteady(cfg: Config, s: State, k: Key, c: Choice)
    requires DropInv(s) && s.steps < U64_MAX
    ensures Steady(s.drops, s.steps, Act(cfg, s, k, c), PcOf(s, k).Dropping?)
  {
    var pc := PcOf(s, k);
    if InEnter(pc) {
      EnterIsSteady(cfg, s, k, c);
    } else if InHelper(pc) {
      HelperIsSteady(s.maps, k, pc, c, s.drops, s.steps);
    } else {
      ExitIsSteady(s.maps, k, pc, c, s.drops, s.steps);
    }
  }

  lemma SetKeepsFine(pcs: map<Key, Pc>, k: Key, pc: Pc, n: nat)
    requires PcsFine(pcs, n) && PcFine(pc, n + 1)
    ensures PcsFine(pcs[k := pc], n + 1) && PcsFine(pcs, n + 1)
  {
  }

  lemma NextKeepsDropInv(cfg: Config, s: State, step: Step)
    requires DropInv(s) && s.steps < U64_MAX
    ensures DropInv(Next(cfg, s, step)) && Next(cfg, s, step).steps == s.steps + 1
  {
    match step
    case Begin(k, call) => SetKeepsFine(s.pcs, k, EnterStart(call), s.steps);
    case Advance(k, c) =>
      ActIsSteady(cfg, s, k, c);
      SetKeepsFine(s.pcs, k, Act(cfg, s, k, c).pc, s.steps);
    case Return(k, ret) =>
      if PcOf(s, k).InCall? {
        SetKeepsFine(s.pcs, k, ExitStart(PcOf(s, k).call, PcOf(s, k).tracked, ret), s.steps);
      } else {
        SetKeepsFine(s.pcs, k, Idle, s.steps);
      }
    case Die(k) => SetKeepsFine(s.pcs, k, Idle, s.steps);
    case OtherDrop(k) => SetKeepsFine(s.pcs, k, Drop(Idle), s.steps);
    case OtherRecord(_) => SetKeepsFine(s.pcs, (0, 0), Idle, s.steps);
    case Track(_) => SetKeepsFine(s.pcs, (0, 0), Idle, s.steps);
    case Untrack(_) => SetKeepsFine(s.pcs, (0, 0), Idle, s.steps);
  }

  /** Once a drop is on its way it stays visible: the counter never returns to zero. */
  lemma NextKeepsCounted(cfg: Config, s: State, step: Step)
    requires DropInv(s) && s.steps < U64_MAX && Counted(s)
    ensures Counted(Next(cfg, s, step))
    ensures s.drops > 0 ==> Next(cfg, s, step).drops > 0
  {
    var t := Next(cfg, s, step);
    if step.Advance? { ActIsSteady(cfg, s, step.key, step.choice); }
    if s.drops == 0 && !s.refused {
      var k :| k in s.pcs && s.pcs[k].Dropping?;
      assert k in t.pcs;
      if !(step.Advance? && step.key == k) {
        assert t.pcs[k] == s.pcs[k];
      } else {
        assert t.pcs[k] == Act(cfg, s, k, step.choice).pc;
      }
    }
  }

  lemma {:induction false} RunKeepsDropInv(cfg: Config, run: seq<Step>)
    requires |run| <= U64_MAX
    ensures DropInv(Execute(cfg, run)) && Execute(cfg, run).steps == |run|
  {
    if run != [] {
      RunKeepsDropInv(cfg, run[..|run| - 1]);
      NextKeepsDropInv(cfg, Execute(cfg, run[..|run| - 1]), run[|run| - 1]);
    }
  }

  /** From the moment a drop is counted, the counter stays positive for the rest of the run. */
  lemma {:induction false} DropsStayPositive(cfg: Config, run: seq<Step>, i: nat)
    requires i <= |run| <= U64_MAX
    ensures Execute(cfg, run[..i]).drops > 0 ==> Execute(cfg, run).drops > 0
    ensures Counted(Execute(cfg, run[..i])) ==> Counted(Execute(cfg, run))
  {
    if i == |run| {
      assert run[..i] == run;
    } else {
      var n := |run| - 1;
      NestedPrefix(run, n, i);
      DropsStayPositive(cfg, run[..n], i);
      RunKeepsDropInv(cfg, run[..n]);
      if Counted(Execute(cfg, run[..n])) { NextKeepsCounted(cfg, Execute(cfg, run[..n]), run[n]); }
    }
  }

  // ------------------------------------------------------------------------------ the count is only a lower bound

  const YES := Choice(true, true, 0)

  function TwoDropsAtOnce(j: Key, k: Key): seq<Step>
  {
    [OtherDrop(j), OtherDrop(k), Advance(j, YES), Advance(k, YES), Advance(j, YES), Advance(k, YES)]
  }

  lemma OneMoreStep(cfg: Config, run: seq<Step>, step: Step)
    ensures Execute(cfg, run + [step]) == Next(cfg, Execute(cfg, run), step)
  {
    assert (run + [step])[..|run|] == run;
  }

  lemma DropBegins(cfg: Config, s: State, k: Key)
    requires k !in s.pcs
    ensures var t := Next(cfg, s, OtherDrop(k)); t.pcs == s.pcs[k := Dropping(None, Idle)] && t.drops == s.drops
  {
  }

  lemma DropReads(cfg: Config, s: State, k: Key)
    requires k in s.pcs && s.pcs[k] == Dropping(None, Idle)
    ensures var t := Next(cfg, s, Advance(k, YES));
            t.pcs == s.pcs[k := Dropping(Some(s.drops), Idle)] && t.drops == s.drops
  {
  }

  lemma DropWrites(cfg: Config, s: State, k: Key)
    requires k in s.pcs && s.pcs[k] == Dropping(Some(0), Idle)
    ensures var t := Next(cfg, s, Advance(k, YES)); t.pcs == s.pcs[k := Idle] && t.drops == 1
  {
  }

  /** Two drops that are recorded at the same time count as one: the counter stays positive, but it is not exact. */
  lemma SimultaneousDropsCountOnce(cfg: Config, j: Key, k: Key)
    requires j != k
    ensures Execute(cfg, TwoDropsAtOnce(j, k)).drops == 1
    ensures forall i :: i in Execute(cfg, TwoDropsAtOnce(j, k)).pcs ==> Execute(cfg, TwoDropsAtOnce(j, k)).pcs[i].Idle?
  {
    var r1, r2 := [OtherDrop(j)], [OtherDrop(j), OtherDrop(k)];
    var r3 := r2 + [Advance(j, YES)];
    var r4 := r3 + [Advance(k, YES)];
    var r5 := r4 + [Advance(j, YES)];
    assert [] + r1 == r1 && r1 + [OtherDrop(k)] == r2 && r5 + [Advance(k, YES)] == TwoDropsAtOnce(j, k);
    OneMoreStep(cfg, [], OtherDrop(j));
    OneMoreStep(cfg, r1, OtherDrop(k));
    OneMoreStep(cfg, r2, Advance(j, YES));
    OneMoreStep(cfg, r3, Advance(k, YES));
    OneMoreStep(cfg, r4, Advance(j, YES));
    OneMoreStep(cfg, r5, Advance(k, YES));
    BothDrop(cfg, INIT, j, k);
  }

  lemma BothDrop(cfg: Config, s: State, j: Key, k: Key)
    requires j != k && s.pcs == map[] && s.drops == 0
    ensures var r := Next(cfg, Next(cfg, Next(cfg, s, OtherDrop(j)), OtherDrop(k)), Advance(j, YES));
            var t := Next(cfg, r, Advance(k, YES));
            var u := Next(cfg, Next(cfg, t, Advance(j, YES)), Advance(k, YES));
            u.drops == 1 && u.pcs == map[j := Idle, k := Idle]
  {
    DropBegins(cfg, s, j);
    var s1 := Next(cfg, s, OtherDrop(j));
    DropBegins(cfg, s1, k);
    var s2 := Next(cfg, s1, OtherDrop(k));
    DropReads(cfg, s2, j);
    var s3 := Next(cfg, s2, Advance(j, YES));
    DropReads(cfg, s3, k);
    var s4 := Next(cfg, s3, Advance(k, YES));
    DropWrites(cfg, s4, j);
    DropWrites(cfg, Next(cfg, s4, Advance(j, YES)), k);
  }
}
