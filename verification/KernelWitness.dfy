/**
 Runs in which one rename is entered, returns and completes: an undisturbed one, which meets the hypotheses of the
 zero-loss theorem, and one in which all later insertions are refused, which shows why a refused counter is excluded.
 */
module KernelWitness {
  import opened Sequences
  import opened Text
  import opened Records
  import opened Kernel
  import opened KernelDrops
  import opened KernelPairs

  const YES := Choice(true, true, 1)
  const NO := Choice(true, false, 1)

  /** A thread with what the shared state holds, seen from a thread that is alone. */
  datatype Own = Own(pc: Pc, maps: Maps, ring: seq<Record>, done: seq<Done>, refused: bool)

  /** Only thread `k` is at work, and no drop was counted. */
  predicate Alone(s: State, k: Key, o: Own)
  {
    && s.pcs == map[k := o.pc] && s.maps == o.maps && s.ring == o.ring && s.done == o.done
    && s.drops == 0 && s.refused == o.refused
  }

  /** The next step of the thread; only entering depends on whether its group is tracked. */
  function MoveOf(cfg: Config, k: Key, o: Own, c: Choice): Move
  {
    if InEnter(o.pc) then EnterStep(cfg, true, o.maps, k, o.pc, c)
    else if InHelper(o.pc) then HelperStep(0, o.maps, k, o.pc, c)
    else ExitStep(o.maps, k, o.pc, c)
  }

  /** The thread moves from `o` to `o'` without storing a count. */
  predicate MovesTo(cfg: Config, k: Key, o: Own, c: Choice, o': Own)
  {
    var move := MoveOf(cfg, k, o, c);
    && !o.pc.EnterStart? && !move.output.Stored? && o'.refused == (o.refused || move.output.Refused?)
    && o'.pc == move.pc && o'.maps == move.maps
    && o'.ring == RingAfter(o.ring, move.output)
    && o'.done == if move.output.Completed? then o.done + [move.output.done] else o.done
  }

  lemma AloneMoves(cfg: Config, s: State, k: Key, o: Own, c: Choice, o': Own)
    requires Alone(s, k, o) && MovesTo(cfg, k, o, c, o')
    ensures Alone(Next(cfg, s, Advance(k, c)), k, o')
  {
    assert Act(cfg, s, k, c) == MoveOf(cfg, k, o, c);
    assert map[k := o.pc][k := o'.pc] == map[k := o'.pc];
  }

  /** Each entry of the path moves to the next, all with one answer of the system. */
  predicate IsPath(cfg: Config, k: Key, path: seq<Own>, c: Choice)
  {
    path != [] && forall j :: 0 <= j < |path| - 1 ==> MovesTo(cfg, k, path[j], c, path[j + 1])
  }

  function Advances(k: Key, c: Choice, n: nat): seq<Step>
  {
    seq(n, _ => Advance(k, c))
  }

  /** Handler steps of the thread alone follow the path. */
  lemma {:induction false} RunFollowsPath(cfg: Config, run: seq<Step>, k: Key, path: seq<Own>, c: Choice, n: nat)
    requires IsPath(cfg, k, path, c) && Alone(Execute(cfg, run), k, path[0]) && n < |path|
    ensures Alone(Execute(cfg, run + Advances(k, c, n)), k, path[n])
  {
    if n == 0 {
      AppendNothing(run);
      assert Advances(k, c, 0) == [];
    } else {
      RunFollowsPath(cfg, run, k, path, c, n - 1);
      assert run + Advances(k, c, n) == (run + Advances(k, c, n - 1)) + [Advance(k, c)];
      OneMoreStep(cfg, run + Advances(k, c, n - 1), Advance(k, c));
      assert MovesTo(cfg, k, path[n - 1], c, path[n - 1 + 1]);
      AloneMoves(cfg, Execute(cfg, run + Advances(k, c, n - 1)), k, path[n - 1], c, path[n]);
    }
  }

  predicate Ordinary(call: Call)
  {
    call.RenameCall? && FirstPath(call) != "" && SecondPath(call) != ""
  }

  const EMPTY := Maps(map[], map[], map[], map[])

  function FirstCaptured(k: Key, call: Call): Maps
  {
    EMPTY.(oldPath := map[k := Capture(FirstPath(call))])
  }

  function BothCaptured(k: Key, call: Call): Maps
  {
    FirstCaptured(k, call).(newPath := map[k := Capture(SecondPath(call))])
  }

  function Stashed(k: Key, call: Call): Maps
  {
    BothCaptured(k, call).(stash := map[k := StashOf(call, true)])
  }

  function Clocked(k: Key, call: Call): Maps
  {
    Stashed(k, call).(clock := map[k := 1])
  }

  /** The enter handler captures both paths and leaves the stash. */
  function EnterPath(k: Key, call: Call): seq<Own>
  {
    [Own(StashOld(call, true), EMPTY, [], [], false),
     Own(StashNew(call, true, true), FirstCaptured(k, call), [], [], false),
     Own(GetOld(call, true), BothCaptured(k, call), [], [], false),
     Own(GetNew(call, true), BothCaptured(k, call), [], [], false),
     Own(PutStash(call, true), BothCaptured(k, call), [], [], false),
     Own(InCall(call, true), Stashed(k, call), [], [], false)]
  }

  lemma EnterPathFirst(cfg: Config, k: Key, call: Call)
    requires Ordinary(call)
    ensures var p := EnterPath(k, call); MovesTo(cfg, k, p[0], YES, p[1]) && MovesTo(cfg, k, p[1], YES, p[2])
  {
  }

  lemma EnterPathSecond(cfg: Config, k: Key, call: Call)
    requires Ordinary(call)
    ensures var p := EnterPath(k, call); MovesTo(cfg, k, p[2], YES, p[3]) && MovesTo(cfg, k, p[3], YES, p[4])
  {
  }

  lemma EnterPathThird(cfg: Config, k: Key, call: Call)
    requires Ordinary(call)
    ensures var p := EnterPath(k, call); MovesTo(cfg, k, p[4], YES, p[5])
  {
  }

  lemma EnterPathIsPath(cfg: Config, k: Key, call: Call)
    requires Ordinary(call)
    ensures IsPath(cfg, k, EnterPath(k, call), YES)
  {
    EnterPathFirst(cfg, k, call);
    EnterPathSecond(cfg, k, call);
    EnterPathThird(cfg, k, call);
  }

  /** The exit handler submits both records, and starts to remove the stash. */
  function EmitPath(k: Key, call: Call): seq<Own>
    requires Ordinary(call)
  {
    var st, m := StashOf(call, true), Clocked(k, call);
    var src, dst := Source(k, call, true, 1), Destination(k, call, true, 1);
    [Own(ExitStart(call, true, 0), Stashed(k, call), [], [], false),
     Own(ExitOld(call, true, st, 1), m, [], [], false),
     Own(EmitSource(call, true, st, 1, Capture(FirstPath(call))), m, [], [], false),
     Own(ExitNew(call, true, st, 1), m, [src], [], false),
     Own(EmitDestination(call, true, st, 1, Capture(SecondPath(call))), m, [src], [], false),
     Own(Leave(call, true, 1), m, [src, dst], [], false)]
  }

  lemma EmitPathFirst(cfg: Config, k: Key, call: Call)
    requires Ordinary(call)
    ensures var p := EmitPath(k, call); MovesTo(cfg, k, p[0], YES, p[1]) && MovesTo(cfg, k, p[1], YES, p[2])
  {
  }

  lemma EmitPathSecond(cfg: Config, k: Key, call: Call)
    requires Ordinary(call)
    ensures var p := EmitPath(k, call); MovesTo(cfg, k, p[2], YES, p[3]) && MovesTo(cfg, k, p[3], YES, p[4])
  {
  }

  lemma EmitPathThird(cfg: Config, k: Key, call: Call)
    requires Ordinary(call)
    ensures var p := EmitPath(k, call); MovesTo(cfg, k, p[4], YES, p[5])
  {
  }

  lemma EmitPathIsPath(cfg: Config, k: Key, call: Call)
    requires Ordinary(call)
    ensures IsPath(cfg, k, EmitPath(k, call), YES)
  {
    EmitPathFirst(cfg, k, call);
    EmitPathSecond(cfg, k, call);
    EmitPathThird(cfg, k, call);
  }

  /** The stash is removed from one map after the other, and the rename is complete. */
  function LeavePath(k: Key, call: Call, ring: seq<Record>, refused: bool): seq<Own>
    requires Ordinary(call)
  {
    var pc, m := Leaving(call, true, true, Some(1)), Clocked(k, call);
    var m1 := m.(stash := m.stash - {k});
    var m2 := m1.(oldPath := m1.oldPath - {k});
    var m3 := m2.(newPath := m2.newPath - {k});
    [Own(Leave(call, true, 1), m, ring, [], refused),
     Own(Clearing(1, pc), m1, ring, [], refused),
     Own(Clearing(2, pc), m2, ring, [], refused),
     Own(pc, m3, ring, [], refused),
     Own(Idle, m3, ring, [Done(k, call, true, Some(1))], refused)]
  }

  lemma LeavePathFirst(cfg: Config, k: Key, call: Call, ring: seq<Record>, refused: bool, c: Choice)
    requires Ordinary(call)
    ensures var p := LeavePath(k, call, ring, refused); MovesTo(cfg, k, p[0], c, p[1]) && MovesTo(cfg, k, p[1], c, p[2])
  {
  }

  lemma LeavePathSecond(cfg: Config, k: Key, call: Call, ring: seq<Record>, refused: bool, c: Choice)
    requires Ordinary(call)
    ensures var p := LeavePath(k, call, ring, refused); MovesTo(cfg, k, p[2], c, p[3]) && MovesTo(cfg, k, p[3], c, p[4])
  {
  }

  lemma LeavePathIsPath(cfg: Config, k: Key, call: Call, ring: seq<Record>, refused: bool, c: Choice)
    requires Ordinary(call)
    ensures IsPath(cfg, k, LeavePath(k, call, ring, refused), c)
  {
    LeavePathFirst(cfg, k, call, ring, refused, c);
    LeavePathSecond(cfg, k, call, ring, refused, c);
  }

  /** The exit handler when the ring is full and the counter refuses its updates: the source record. */
  function SourceRefused(k: Key, call: Call): seq<Own>
    requires Ordinary(call)
  {
    var st, m := StashOf(call, true), Clocked(k, call);
    var pc := ExitNew(call, true, st, 1);
    [Own(ExitStart(call, true, 0), Stashed(k, call), [], [], false),
     Own(ExitOld(call, true, st, 1), m, [], [], false),
     Own(EmitSource(call, true, st, 1, Capture(FirstPath(call))), m, [], [], false),
     Own(Dropping(None, pc), m, [], [], false),
     Own(Dropping(Some(0), pc), m, [], [], false),
     Own(pc, m, [], [], true)]
  }

  lemma SourceRefusedFirst(cfg: Config, k: Key, call: Call)
    requires Ordinary(call)
    ensures var p := SourceRefused(k, call); MovesTo(cfg, k, p[0], NO, p[1]) && MovesTo(cfg, k, p[1], NO, p[2])
  {
  }

  lemma SourceRefusedSecond(cfg: Config, k: Key, call: Call)
    requires Ordinary(call)
    ensures var p := SourceRefused(k, call); MovesTo(cfg, k, p[2], NO, p[3]) && MovesTo(cfg, k, p[3], NO, p[4])
  {
  }

  lemma SourceRefusedThird(cfg: Config, k: Key, call: Call)
    requires Ordinary(call)
    ensures var p := SourceRefused(k, call); MovesTo(cfg, k, p[4], NO, p[5])
  {
  }

  lemma SourceRefusedIsPath(cfg: Config, k: Key, call: Call)
    requires Ordinary(call)
    ensures IsPath(cfg, k, SourceRefused(k, call), NO)
  {
    SourceRefusedFirst(cfg, k, call);
    SourceRefusedSecond(cfg, k, call);
    SourceRefusedThird(cfg, k, call);
  }

  /** And the destination record. */
  function DestinationRefused(k: Key, call: Call): seq<Own>
    requires Ordinary(call)
  {
    var st, m := StashOf(call, true), Clocked(k, call);
    var pc := Leave(call, true, 1);
    [Own(ExitNew(call, true, st, 1), m, [], [], true),
     Own(EmitDestination(call, true, st, 1, Capture(SecondPath(call))), m, [], [], true),
     Own(Dropping(None, pc), m, [], [], true),
     Own(Dropping(Some(0), pc), m, [], [], true),
     Own(pc, m, [], [], true)]
  }

  lemma DestinationRefusedFirst(cfg: Config, k: Key, call: Call)
    requires Ordinary(call)
    ensures var p := DestinationRefused(k, call); MovesTo(cfg, k, p[0], NO, p[1]) && MovesTo(cfg, k, p[1], NO, p[2])
  {
  }

  lemma DestinationRefusedSecond(cfg: Config, k: Key, call: Call)
    requires Ordinary(call)
    ensures var p := DestinationRefused(k, call); MovesTo(cfg, k, p[2], NO, p[3]) && MovesTo(cfg, k, p[3], NO, p[4])
  {
  }

  lemma DestinationRefusedIsPath(cfg: Config, k: Key, call: Call)
    requires Ordinary(call)
    ensures IsPath(cfg, k, DestinationRefused(k, call), NO)
  {
    DestinationRefusedFirst(cfg, k, call);
    DestinationRefusedSecond(cfg, k, call);
  }

  function Entering(k: Key, call: Call): seq<Step>
  {
    [Track(k.0)] + [Begin(k, call)] + [Advance(k, YES)]
  }

  function Returning(k: Key, call: Call): seq<Step>
  {
    Entering(k, call) + Advances(k, YES, 5) + [Return(k, 0)]
  }

  lemma AloneAtStart(cfg: Config, k: Key, call: Call)
    requires Ordinary(call)
    ensures Alone(Execute(cfg, Entering(k, call)), k, EnterPath(k, call)[0])
  {
    OneMoreStep(cfg, [], Track(k.0));
    assert [] + [Track(k.0)] == [Track(k.0)];
    OneMoreStep(cfg, [Track(k.0)], Begin(k, call));
    OneMoreStep(cfg, [Track(k.0)] + [Begin(k, call)], Advance(k, YES));
  }

  lemma AloneReturns(cfg: Config, s: State, k: Key, call: Call, tracked: bool, m: Maps)
    requires Alone(s, k, Own(InCall(call, tracked), m, [], [], false))
    ensures Alone(Next(cfg, s, Return(k, 0)), k, Own(ExitStart(call, tracked, 0), m, [], [], false))
  {
    assert map[k := InCall(call, tracked)][k := ExitStart(call, tracked, 0)] == map[k := ExitStart(call, tracked, 0)];
  }

  lemma AloneInCall(cfg: Config, k: Key, call: Call)
    requires Ordinary(call)
    ensures Alone(Execute(cfg, Entering(k, call) + Advances(k, YES, 5)), k,
                  Own(InCall(call, true), Stashed(k, call), [], [], false))
  {
    AloneAtStart(cfg, k, call);
    EnterPathIsPath(cfg, k, call);
    RunFollowsPath(cfg, Entering(k, call), k, EnterPath(k, call), YES, 5);
  }

  lemma AloneAtReturn(cfg: Config, k: Key, call: Call)
    requires Ordinary(call)
    ensures Alone(Execute(cfg, Returning(k, call)), k, EmitPath(k, call)[0])
  {
    AloneInCall(cfg, k, call);
    OneMoreStep(cfg, Entering(k, call) + Advances(k, YES, 5), Return(k, 0));
    AloneReturns(cfg, Execute(cfg, Entering(k, call) + Advances(k, YES, 5)), k, call, true, Stashed(k, call));
  }

  function Undisturbed(k: Key, call: Call): seq<Step>
  {
    Returning(k, call) + Advances(k, YES, 5) + Advances(k, YES, 4)
  }

  /** Every rename of a tracked thread with two paths can complete, with both of its records and no drop. */
  lemma UndisturbedRenameCompletes(cfg: Config, k: Key, call: Call)
    requires Ordinary(call)
    ensures var s := Execute(cfg, Undisturbed(k, call));
            && s.done == [Done(k, call, true, Some(1))]
            && s.ring == [Source(k, call, true, 1), Destination(k, call, true, 1)]
            && !Counted(s)
  {
    var both := [Source(k, call, true, 1), Destination(k, call, true, 1)];
    AloneAtReturn(cfg, k, call);
    EmitPathIsPath(cfg, k, call);
    RunFollowsPath(cfg, Returning(k, call), k, EmitPath(k, call), YES, 5);
    LeavePathIsPath(cfg, k, call, both, false, YES);
    RunFollowsPath(cfg, Returning(k, call) + Advances(k, YES, 5), k, LeavePath(k, call, both, false), YES, 4);
  }

  function AllRefused(k: Key, call: Call): seq<Step>
  {
    Returning(k, call) + Advances(k, NO, 5) + Advances(k, NO, 4) + Advances(k, NO, 4)
  }

  /** A rename whose records the ring refuses is lost at count zero when the counter refuses its updates as well. */
  lemma RefusedRenameVanishes(cfg: Config, k: Key, call: Call)
    requires Ordinary(call)
    ensures var s := Execute(cfg, AllRefused(k, call));
            && s.done == [Done(k, call, true, Some(1))] && s.ring == [] && s.drops == 0 && s.refused
            && forall j :: j in s.pcs ==> !s.pcs[j].Dropping?
  {
    AloneAtReturn(cfg, k, call);
    var r1 := Returning(k, call) + Advances(k, NO, 5);
    var r2 := r1 + Advances(k, NO, 4);
    SourceRefusedIsPath(cfg, k, call);
    RunFollowsPath(cfg, Returning(k, call), k, SourceRefused(k, call), NO, 5);
    DestinationRefusedIsPath(cfg, k, call);
    RunFollowsPath(cfg, r1, k, DestinationRefused(k, call), NO, 4);
    LeavePathIsPath(cfg, k, call, [], true, NO);
    RunFollowsPath(cfg, r2, k, LeavePath(k, call, [], true), NO, 4);
  }

  // ------------------------------------------------------------------------------ a stash that outlives its call

  /** Outside watch mode an untracked thread enters a call and leaves the stash of its key as it is. */
  function Reusing(k: Key, dead: Call, other: Call): seq<Step>
  {
    Entering(k, dead) + Advances(k, YES, 5) + [Die(k)] + [Untrack(k.0)] + [Begin(k, other)] + [Advance(k, YES)]
    + [Return(k, 0)]
  }

  lemma AloneReuses(cfg: Config, s: State, k: Key, dead: Call, other: Call, m: Maps)
    requires !cfg.watchMode && Alone(s, k, Own(InCall(dead, true), m, [], [], false))
    ensures var s1 := Next(cfg, Next(cfg, s, Die(k)), Untrack(k.0));
            var s2 := Next(cfg, Next(cfg, s1, Begin(k, other)), Advance(k, YES));
            Alone(s2, k, Own(InCall(other, false), m, [], [], false))
  {
  }

  lemma AloneAtReuse(cfg: Config, k: Key, dead: Call, other: Call)
    requires Ordinary(dead) && !cfg.watchMode
    ensures Alone(Execute(cfg, Reusing(k, dead, other)), k, StalePath(k, dead, other)[0])
  {
    AloneInCall(cfg, k, dead);
    var r0 := Entering(k, dead) + Advances(k, YES, 5);
    var r1 := r0 + [Die(k)] + [Untrack(k.0)];
    var r2 := r1 + [Begin(k, other)] + [Advance(k, YES)];
    OneMoreStep(cfg, r0, Die(k));
    OneMoreStep(cfg, r0 + [Die(k)], Untrack(k.0));
    OneMoreStep(cfg, r1, Begin(k, other));
    OneMoreStep(cfg, r1 + [Begin(k, other)], Advance(k, YES));
    AloneReuses(cfg, Execute(cfg, r0), k, dead, other, Stashed(k, dead));
    OneMoreStep(cfg, r2, Return(k, 0));
    AloneReturns(cfg, Execute(cfg, r2), k, other, false, Stashed(k, dead));
  }

  /** The exit handler of the other call submits the records of the dead one. */
  function StalePath(k: Key, dead: Call, other: Call): seq<Own>
    requires Ordinary(dead)
  {
    var st, m := StashOf(dead, true), Clocked(k, dead);
    var src, dst := Source(k, dead, true, 1), Destination(k, dead, true, 1);
    [Own(ExitStart(other, false, 0), Stashed(k, dead), [], [], false),
     Own(ExitOld(other, false, st, 1), m, [], [], false),
     Own(EmitSource(other, false, st, 1, Capture(FirstPath(dead))), m, [], [], false),
     Own(ExitNew(other, false, st, 1), m, [src], [], false),
     Own(EmitDestination(other, false, st, 1, Capture(SecondPath(dead))), m, [src], [], false),
     Own(Leave(other, false, 1), m, [src, dst], [], false)]
  }

  lemma StalePathFirst(cfg: Config, k: Key, dead: Call, other: Call)
    requires Ordinary(dead)
    ensures var p := StalePath(k, dead, other); MovesTo(cfg, k, p[0], YES, p[1]) && MovesTo(cfg, k, p[1], YES, p[2])
  {
  }

  lemma StalePathSecond(cfg: Config, k: Key, dead: Call, other: Call)
    requires Ordinary(dead)
    ensures var p := StalePath(k, dead, other); MovesTo(cfg, k, p[2], YES, p[3]) && MovesTo(cfg, k, p[3], YES, p[4])
  {
  }

  lemma StalePathThird(cfg: Config, k: Key, dead: Call, other: Call)
    requires Ordinary(dead)
    ensures var p := StalePath(k, dead, other); MovesTo(cfg, k, p[4], YES, p[5])
  {
  }

  lemma StalePathIsPath(cfg: Config, k: Key, dead: Call, other: Call)
    requires Ordinary(dead)
    ensures IsPath(cfg, k, StalePath(k, dead, other), YES)
  {
    StalePathFirst(cfg, k, dead, other);
    StalePathSecond(cfg, k, dead, other);
    StalePathThird(cfg, k, dead, other);
  }

  /**
   A thread dies in a rename; its key is reused by an untracked process, whose next rename or unlink, whatever it is,
   puts both records of the rename that never returned into the ring, with no drop.
   */
  lemma DeadRenameIsSubmitted(cfg: Config, k: Key, dead: Call, other: Call)
    requires Ordinary(dead) && !cfg.watchMode
    ensures var s := Execute(cfg, Reusing(k, dead, other) + Advances(k, YES, 5));
            && s.ring == [Source(k, dead, true, 1), Destination(k, dead, true, 1)]
            && s.done == [] && s.drops == 0 && !s.refused
  {
    AloneAtReuse(cfg, k, dead, other);
    StalePathIsPath(cfg, k, dead, other);
    RunFollowsPath(cfg, Reusing(k, dead, other), k, StalePath(k, dead, other), YES, 5);
  }
}
