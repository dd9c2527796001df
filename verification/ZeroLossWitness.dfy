/** The zero-loss theorem at work on whole runs: its hypotheses hold together, and what fails without them. */
module ZeroLossWitness {
  import opened Sequences
  import opened Text
  import opened Trace
  import opened Records
  import opened Collector
  import opened CollectorRenames
  import opened Kernel
  import opened KernelPairs
  import opened KernelLosses
  import opened KernelWitness
  import opened ZeroLoss

  /** The two records of a rename as they are drained, whatever the system then shows. */
  predicate DrainsPair(k: Key, call: Call, d1: Drained, d2: Drained)
  {
    && call.RenameCall? && d1.record == Source(k, call, true, 1) && d2.record == Destination(k, call, true, 1)
    && Decoded(d1).Some? && Decoded(d2).Some?
  }

  lemma TwoSteps(c: Coll, d1: Drained, d2: Drained, prefixes: seq<string>)
    ensures Collect(c, [d1, d2], prefixes) == CollStep(CollStep(c, d1, prefixes), d2, prefixes)
  {
    CollectStep(c, [d1, d2], prefixes, 1);
    CollectStep(c, [d1, d2], prefixes, 0);
    WholePrefix([d1, d2]);
    assert [d1, d2][..0] == [];
  }

  /** The collector turns the two records into one rename, with nothing malformed and nothing left waiting. */
  lemma PairIsCollected(rootPid: U32, exitCode: int, k: Key, call: Call, d1: Drained, d2: Drained,
      prefixes: seq<string>)
    requires Ordinary(call) && DrainsPair(k, call, d1, d2)
    ensures Finish(Collect(New(rootPid), [d1, d2], prefixes), rootPid, exitCode).malformed == 0
  {
    var c := New(rootPid);
    TwoSteps(c, d1, d2, prefixes);
    var c1 := CollStep(c, d1, prefixes);
    assert c1.malformed == 0 && c1.renames.Keys == {(k.1, 1)};
    var c2 := CollStep(c1, d2, prefixes);
    assert c2.malformed == 0 && c2.renames == map[];
  }

  lemma PairIsTheRing(k: Key, call: Call, d1: Drained, d2: Drained)
    requires DrainsPair(k, call, d1, d2)
    ensures var ring := [Source(k, call, true, 1), Destination(k, call, true, 1)];
            multiset(RecordsOf([d1, d2])) == multiset(ring) && PidsAreUnambiguous(ring)
  {
    assert RecordsOf([d1, d2]) == [Source(k, call, true, 1), Destination(k, call, true, 1)];
  }

  /** All hypotheses of the zero-loss theorem hold together for an undisturbed rename, whenever it is drained. */
  lemma HypothesesMeet(cfg: Config, rootPid: U32, exitCode: int, k: Key, call: Call, d1: Drained, d2: Drained,
      prefixes: seq<string>)
    requires Ordinary(call) && DrainsPair(k, call, d1, d2)
    ensures var s := Execute(cfg, Undisturbed(k, call));
            && s.done == [Done(k, call, true, Some(1))]
            && |Undisturbed(k, call)| <= U64_MAX && !s.refused
            && multiset(RecordsOf([d1, d2])) == multiset(s.ring) && PidsAreUnambiguous(s.ring)
            && s.drops + Finish(Collect(New(rootPid), [d1, d2], prefixes), rootPid, exitCode).malformed == 0
  {
    UndisturbedRenameCompletes(cfg, k, call);
    PairIsCollected(rootPid, exitCode, k, call, d1, d2, prefixes);
    PairIsTheRing(k, call, d1, d2);
    assert |Undisturbed(k, call)| == 18;
  }

  /** Hence the theorem applies: the rename is traced. */
  lemma UndisturbedRenameIsTraced(cfg: Config, rootPid: U32, exitCode: int, k: Key, call: Call, d1: Drained,
      d2: Drained, prefixes: seq<string>) returns (i: nat, j: nat)
    requires Ordinary(call) && DrainsPair(k, call, d1, d2)
    ensures Traced(rootPid, exitCode, [d1, d2], prefixes, Done(k, call, true, Some(1)), i, j)
  {
    HypothesesMeet(cfg, rootPid, exitCode, k, call, d1, d2, prefixes);
    NoRenameIsLost(cfg, Undisturbed(k, call), rootPid, exitCode, [d1, d2], prefixes);
    var done, hidden := Execute(cfg, Undisturbed(k, call)).done, LossesOf(cfg, Undisturbed(k, call)).hidden;
    var at: seq<Option<Place>> :| LostAsHidden(rootPid, exitCode, [d1, d2], prefixes, done, hidden, at);
    assert Placed(rootPid, exitCode, [d1, d2], prefixes, done[0], at[0]);
    i, j := at[0].value.source, at[0].value.destination;
  }

  /**
   The failing input for own paths: every undisturbed rename of absolute paths of which one is longer than 255 bytes is
   in the trace under other paths, with all counters at zero.
   */
  lemma LongRenameIsCut(cfg: Config, rootPid: U32, exitCode: int, k: Key, call: Call, d1: Drained, d2: Drained,
      prefixes: seq<string>) returns (i: nat, j: nat)
    requires Ordinary(call) && DrainsPair(k, call, d1, d2)
    requires "/" <= FirstPath(call) && HasNoNul(FirstPath(call))
    requires "/" <= SecondPath(call) && HasNoNul(SecondPath(call))
    requires |FirstPath(call)| > MAX_CAPTURED || |SecondPath(call)| > MAX_CAPTURED
    ensures Traced(rootPid, exitCode, [d1, d2], prefixes, Done(k, call, true, Some(1)), i, j)
    ensures var e := EventsOf(rootPid, [d1, d2], prefixes, Done(k, call, true, Some(1)), i, j)[0];
            e.from != FirstPath(call) || e.to != SecondPath(call)
  {
    i, j := UndisturbedRenameIsTraced(cfg, rootPid, exitCode, k, call, d1, d2, prefixes);
    TracedPathsAreOwnIff(rootPid, exitCode, [d1, d2], prefixes, Done(k, call, true, Some(1)), i, j);
  }

  /**
   The failing input for the counters: the ring refuses both records of a rename and the counter both of its updates.
   All hypotheses of the theorem hold for the empty order, and it says that the rename is nowhere in the trace.
   */
  lemma RefusedRenameIsLost(cfg: Config, rootPid: U32, exitCode: int, k: Key, call: Call, prefixes: seq<string>)
    requires Ordinary(call)
    ensures var s := Execute(cfg, AllRefused(k, call));
            && s.done == [Done(k, call, true, Some(1))] && LossesOf(cfg, AllRefused(k, call)).hidden == [true]
            && |AllRefused(k, call)| <= U64_MAX && multiset(RecordsOf([])) == multiset(s.ring)
            && PidsAreUnambiguous(s.ring)
            && s.drops + Finish(Collect(New(rootPid), [], prefixes), rootPid, exitCode).malformed == 0
            && forall i, j :: !Traced(rootPid, exitCode, [], prefixes, s.done[0], i, j)
  {
    RefusedRenameVanishes(cfg, k, call);
    assert |AllRefused(k, call)| == 22;
    assert Collect(New(rootPid), [], prefixes).renames == map[];
    SubmittedAtZeroIff(cfg, AllRefused(k, call), 0);
  }

  /**
   The failing input for the converse: a rename that never returned is in the trace all the same, with all counters at
   zero, since another call took up what it had left behind.
   */
  lemma DeadRenameIsTraced(cfg: Config, rootPid: U32, exitCode: int, k: Key, dead: Call, other: Call, d1: Drained,
      d2: Drained, prefixes: seq<string>) returns (i: nat, j: nat)
    requires Ordinary(dead) && DrainsPair(k, dead, d1, d2) && !cfg.watchMode
    ensures var s := Execute(cfg, Reusing(k, dead, other) + Advances(k, YES, 5));
            && multiset(RecordsOf([d1, d2])) == multiset(s.ring) && s.done == [] && !s.refused
            && s.drops + Finish(Collect(New(rootPid), [d1, d2], prefixes), rootPid, exitCode).malformed == 0
    ensures Traced(rootPid, exitCode, [d1, d2], prefixes, Done(k, dead, true, Some(1)), i, j)
  {
    DeadRenameIsSubmitted(cfg, k, dead, other);
    PairIsTheRing(k, dead, d1, d2);
    PairIsCollected(rootPid, exitCode, k, dead, d1, d2, prefixes);
    i, j := UndisturbedRenameIsTraced(cfg, rootPid, exitCode, k, dead, d1, d2, prefixes);
  }
}
