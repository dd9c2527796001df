/**
 Exactly when two neighbours of a trace may be swapped.  The recorded operations stay the same unless both events are
 closes that complete one write with different identities; then they differ, and the leaves agree only by coincidence.
 */
module Schedules {
  import opened Sorting
  import opened Text
  import opened Trace
  import opened Operations
  import opened Canonicalizer
  import opened CanonicalInvariants
  import opened Worlds
  import opened Interleaving

  /** The operations of a scan without their order and their process indices. */
  datatype Recorded = Recorded(forkTree: multiset<CanonicalOp>, external: multiset<CanonicalOp>)

  function RecordedBy(c: Config, events: seq<Event>): Recorded
  {
    Recorded(multiset(MapSeq(Erase, Run(c, events).ops)), multiset(MapSeq(Erase, Run(c, events).external)))
  }

  // ---------------------------------------------------------------------------------------------
  // The same world has the same recorded operations.

  ghost predicate NoRepeats<T>(s: seq<T>)
  {
    forall i, j :: 0 <= i < j < |s| ==> s[i] != s[j]
  }

  lemma {:induction false} CountWithoutRepeats<T>(s: seq<T>, x: T)
    requires NoRepeats(s)
    ensures multiset(s)[x] == if x in s then 1 else 0
  {
    if s != [] {
      var n := |s| - 1;
      assert s == s[..n] + [s[n]];
      CountWithoutRepeats(s[..n], x);
      assert s[n] !in s[..n];
    }
  }

  lemma SameElementsSameMultiset<T>(s: seq<T>, t: seq<T>)
    requires NoRepeats(s) && NoRepeats(t) && forall x :: x in s <==> x in t
    ensures multiset(s) == multiset(t)
  {
    forall x ensures multiset(s)[x] == multiset(t)[x] {
      CountWithoutRepeats(s, x);
      CountWithoutRepeats(t, x);
    }
  }

  lemma RemoveAt<T>(t: seq<T>, i: nat)
    requires i < |t|
    ensures multiset(Without(t, i)) == multiset(t) - multiset{t[i]}
  {
    assert t == t[..i] + [t[i]] + t[i + 1..];
  }

  function Without<T>(s: seq<T>, i: nat): seq<T>
    requires i < |s|
  {
    s[..i] + s[i + 1..]
  }

  lemma MapWithout<T, U>(f: T -> U, t: seq<T>, i: nat)
    requires i < |t|
    ensures f(t[i]) in multiset(MapSeq(f, t))
    ensures multiset(MapSeq(f, Without(t, i))) == multiset(MapSeq(f, t)) - multiset{f(t[i])}
  {
    assert MapSeq(f, Without(t, i)) == Without(MapSeq(f, t), i);
    RemoveAt(MapSeq(f, t), i);
    assert MapSeq(f, t)[i] in MapSeq(f, t);
  }

  lemma SameWithoutHead<T>(s: seq<T>, t: seq<T>) returns (i: nat)
    requires multiset(s) == multiset(t) && s != []
    ensures i < |t| && t[i] == s[0] && multiset(Without(s, 0)) == multiset(Without(t, i))
  {
    assert s[0] in multiset(t);
    i :| 0 <= i < |t| && t[i] == s[0];
    RemoveAt(s, 0);
    RemoveAt(t, i);
  }

  /** Mapping respects permutation. */
  lemma {:induction false} MapOfPermutation<T, U>(f: T -> U, s: seq<T>, t: seq<T>)
    requires multiset(s) == multiset(t)
    ensures multiset(MapSeq(f, s)) == multiset(MapSeq(f, t))
    decreases |s|
  {
    if s == [] {
      assert |t| == |multiset(t)| == 0;
    } else {
      var i := SameWithoutHead(s, t);
      MapOfPermutation(f, Without(s, 0), Without(t, i));
      MapWithout(f, s, 0);
      MapWithout(f, t, i);
      PutBack(multiset(MapSeq(f, s)), multiset(MapSeq(f, t)), f(s[0]));
    }
  }

  lemma PutBack<T>(a: multiset<T>, b: multiset<T>, x: T)
    requires x in a && x in b && a - multiset{x} == b - multiset{x}
    ensures a == b
  {
    assert a == a - multiset{x} + multiset{x} && b == b - multiset{x} + multiset{x};
  }

  /** The operation at the place that a token names. */
  function OpAt(w: World, x: bool): Token -> CanonicalOp
  {
    (t: Token) => if t.1 < |Log(w, t.0, x)| then Log(w, t.0, x)[t.1] else Op(ExecOp, None, [], [], [])
  }

  lemma TokensListPlaces(ops: seq<CanonicalOp>, tok: seq<Token>, w: World, x: bool, t: Token)
    requires OpsTracked(ops, tok, w, x)
    ensures t in tok <==> t.1 < |Log(w, t.0, x)|
  {
    assert t == (t.0, t.1);
  }

  lemma TrackedOpsRecorded(ops: seq<CanonicalOp>, others: seq<CanonicalOp>, tok: seq<Token>, tok': seq<Token>, w: World,
      x: bool)
    requires OpsTracked(ops, tok, w, x) && OpsTracked(others, tok', w, x)
    ensures multiset(MapSeq(Erase, ops)) == multiset(MapSeq(Erase, others))
  {
    forall t ensures t in tok <==> t in tok' {
      TokensListPlaces(ops, tok, w, x, t);
      TokensListPlaces(others, tok', w, x, t);
    }
    SameElementsSameMultiset(tok, tok');
    MapOfPermutation(OpAt(w, x), tok, tok');
    assert MapSeq(OpAt(w, x), tok) == MapSeq(Erase, ops);
    assert MapSeq(OpAt(w, x), tok') == MapSeq(Erase, others);
  }

  lemma SameWorldSameRecord(c: Config, events: seq<Event>, others: seq<Event>)
    requires WRun(c, events) == WRun(c, others)
    ensures RecordedBy(c, events) == RecordedBy(c, others)
  {
    var tok, ext := RunTracks(c, events);
    var tok', ext' := RunTracks(c, others);
    TrackedOpsRecorded(Run(c, events).ops, Run(c, others).ops, tok, tok', WRun(c, events), false);
    TrackedOpsRecorded(Run(c, events).external, Run(c, others).external, ext, ext', WRun(c, events), true);
  }

  // ---------------------------------------------------------------------------------------------
  // Colliding closes.

  /** A close that completes operation `m` sets its outputs, frees the slot, and does nothing else. */
  lemma CompletingStep(c: Config, s: State, e: Event)
    requires Completes(c, s, e).Some? && Completes(c, s, e).value.0 < |s.ops|
    ensures var (m, id) := Completes(c, s, e).value;
            Step(c, s, e) == s.(ops := s.ops[m := s.ops[m].(outputs := [id])],
                                pending := s.pending - {(e.process.lifetime, e.fd)})
  {
    CloseOnlyFinishes(c, ViewOf(s, e.process), e);
  }

  /** The first close does not get in the way of the second. */
  lemma StillCompletes(c: Config, s: State, a: Event, b: Event)
    requires Completes(c, s, a).Some? && Completes(c, s, a).value.0 < |s.ops|
    requires b.FileClose? && b.process.lifetime != a.process.lifetime
    ensures Completes(c, Step(c, s, a), b) == Completes(c, s, b)
  {
    CompletingStep(c, s, a);
    assert ViewOf(Step(c, s, a), b.process) == ViewOf(s, b.process);
  }

  /** After both closes the operation has the identity that the second one saw. */
  lemma SecondDecides(c: Config, s: State, a: Event, b: Event)
    requires Completes(c, s, a).Some? && Completes(c, s, b).Some?
    requires Completes(c, s, a).value.0 == Completes(c, s, b).value.0 < |s.ops|
    requires a.process.lifetime != b.process.lifetime
    ensures var (m, id) := Completes(c, s, b).value;
            var t := Step(c, Step(c, s, a), b);
            t.ops == s.ops[m := s.ops[m].(outputs := [id])] && t.external == s.external
  {
    CompletingStep(c, s, a);
    StillCompletes(c, s, a, b);
    CompletingStep(c, Step(c, s, a), b);
  }

  lemma TwoRunSteps(c: Config, pre: seq<Event>, a: Event, b: Event)
    ensures Run(c, pre + [a, b]) == Step(c, Step(c, Run(c, pre), a), b)
  {
    RunAppend(c, pre, a);
    RunAppend(c, pre + [a], b);
    assert pre + [a] + [b] == pre + [a, b];
  }

  /** What colliding closes leave behind, in either order. */
  lemma CollidingRuns(c: Config, pre: seq<Event>, a: Event, b: Event)
    requires Footprint(a) !! Footprint(b) && Collide(c, Run(c, pre), a, b)
    ensures var s := Run(c, pre);
            var m := Completes(c, s, a).value.0;
            && m < |s.ops|
            && Run(c, pre + [a, b]).ops == s.ops[m := s.ops[m].(outputs := [Completes(c, s, b).value.1])]
            && Run(c, pre + [b, a]).ops == s.ops[m := s.ops[m].(outputs := [Completes(c, s, a).value.1])]
            && Run(c, pre + [a, b]).external == Run(c, pre + [b, a]).external == s.external
  {
    var s := Run(c, pre);
    RunKeepsInv(c, pre);
    assert s.pending[(a.process.lifetime, a.fd)] < |s.ops|;
    assert a.process.lifetime in Footprint(a) && b.process.lifetime in Footprint(b);
    TwoRunSteps(c, pre, a, b);
    TwoRunSteps(c, pre, b, a);
    SecondDecides(c, s, a, b);
    SecondDecides(c, s, b, a);
  }

  lemma MultisetWithReplaced<T>(s: seq<T>, m: nat, x: T)
    requires m < |s|
    ensures multiset(s[m := x]) == multiset(s[..m] + s[m + 1..]) + multiset{x}
  {
    assert s[m := x] == s[..m] + [x] + s[m + 1..];
  }

  lemma MapWithReplaced<T, U>(f: T -> U, s: seq<T>, m: nat, x: T)
    requires m < |s|
    ensures MapSeq(f, s[m := x]) == MapSeq(f, s)[m := f(x)]
  {
  }

  lemma ReplacedDiffer<T>(s: seq<T>, m: nat, x: T, y: T)
    requires m < |s| && x != y
    ensures multiset(s[m := x]) != multiset(s[m := y])
  {
    MultisetWithReplaced(s, m, x);
    MultisetWithReplaced(s, m, y);
    var rest := multiset(s[..m] + s[m + 1..]);
    assert (rest + multiset{x})[x] != (rest + multiset{y})[x];
  }

  /** Swapping colliding closes changes the recorded operations, whatever the trace before them. */
  lemma CollidingClosesDiffer(c: Config, pre: seq<Event>, a: Event, b: Event)
    requires Footprint(a) !! Footprint(b) && Collide(c, Run(c, pre), a, b)
    ensures RecordedBy(c, pre + [a, b]) != RecordedBy(c, pre + [b, a])
  {
    var s := Run(c, pre);
    CollidingRuns(c, pre, a, b);
    var m, ida, idb := Completes(c, s, a).value.0, Completes(c, s, a).value.1, Completes(c, s, b).value.1;
    var x, y := s.ops[m].(outputs := [idb]), s.ops[m].(outputs := [ida]);
    MapWithReplaced(Erase, s.ops, m, x);
    MapWithReplaced(Erase, s.ops, m, y);
    assert Erase(x).outputs[0] != Erase(y).outputs[0];
    ReplacedDiffer(MapSeq(Erase, s.ops), m, Erase(x), Erase(y));
  }

  /**
   Neighbours with disjoint footprints may be swapped without changing the recorded operations exactly when they are
   not closes that complete one write with different identities.
   */
  lemma SwapIsHarmlessIff(c: Config, pre: seq<Event>, a: Event, b: Event)
    requires Footprint(a) !! Footprint(b)
    ensures RecordedBy(c, pre + [a, b]) == RecordedBy(c, pre + [b, a]) <==> !Collide(c, Run(c, pre), a, b)
  {
    if Collide(c, Run(c, pre), a, b) {
      CollidingClosesDiffer(c, pre, a, b);
    } else {
      IndependentStepsCommute(c, pre, a, b);
      TwoSteps(c, pre, a, b);
      TwoSteps(c, pre, b, a);
      SameWorldSameRecord(c, pre + [a, b], pre + [b, a]);
    }
  }

  // ---------------------------------------------------------------------------------------------
  // The leaves after colliding closes.

  function LeafOf(sha: Sha, op: CanonicalOp): string
  {
    Hash(sha, SortFields(op))
  }

  /** The leaves of all operations but the one at `m`. */
  ghost function OtherLeaves(sha: Sha, s: State, m: nat): set<string>
    requires m < |s.ops|
  {
    LeafSet(sha, s.ops[..m] + s.ops[m + 1..] + s.external)
  }

  lemma LeavesWithReplaced(sha: Sha, s: State, m: nat, x: CanonicalOp)
    requires m < |s.ops|
    ensures LeafSet(sha, s.ops[m := x] + s.external) == OtherLeaves(sha, s, m) + {LeafOf(sha, x)}
  {
    var all, rest := s.ops[m := x] + s.external, s.ops[..m] + s.ops[m + 1..] + s.external;
    assert s.ops[m := x] == s.ops[..m] + [x] + s.ops[m + 1..];
    assert forall op :: op in all <==> op in rest || op == x;
  }

  lemma SameWithOneMore<T>(rest: set<T>, x: T, y: T)
    ensures rest + {x} == rest + {y} <==> x == y || (x in rest && y in rest)
  {
    if rest + {x} == rest + {y} { assert x in rest + {y} && y in rest + {x}; }
  }

  /**
   After colliding closes the leaves agree for both orders exactly when the two outcomes of the write hash alike, or
   other operations have both hashes anyway.
   */
  lemma CollidingLeavesAgreeIff(sha: Sha, c: Config, pre: seq<Event>, a: Event, b: Event)
    requires Footprint(a) !! Footprint(b) && Collide(c, Run(c, pre), a, b)
    ensures var s := Run(c, pre);
            var m := Completes(c, s, a).value.0;
            m < |s.ops| &&
            var x := LeafOf(sha, s.ops[m].(outputs := [Completes(c, s, b).value.1]));
            var y := LeafOf(sha, s.ops[m].(outputs := [Completes(c, s, a).value.1]));
            (Leaves(sha, Canonical(sha, c, pre + [a, b])) == Leaves(sha, Canonical(sha, c, pre + [b, a])) <==>
             x == y || (x in OtherLeaves(sha, s, m) && y in OtherLeaves(sha, s, m)))
  {
    var s := Run(c, pre);
    CollidingRuns(c, pre, a, b);
    var m := Completes(c, s, a).value.0;
    var x, y := s.ops[m].(outputs := [Completes(c, s, b).value.1]), s.ops[m].(outputs := [Completes(c, s, a).value.1]);
    LeavesWithReplaced(sha, s, m, x);
    LeavesWithReplaced(sha, s, m, y);
    SameWithOneMore(OtherLeaves(sha, s, m), LeafOf(sha, x), LeafOf(sha, y));
    LeavesAgreeIff(sha, s.ops[m := x] + s.external, s.ops[m := y] + s.external);
  }

  lemma LeavesAgreeIff(sha: Sha, ops: seq<CanonicalOp>, others: seq<CanonicalOp>)
    ensures Leaves(sha, Finalized(sha, ops)) == Leaves(sha, Finalized(sha, others))
      <==> LeafSet(sha, ops) == LeafSet(sha, others)
  {
    LeavesAreTheSortedSet(sha, ops);
    LeavesAreTheSortedSet(sha, others);
    if LeafSet(sha, ops) == LeafSet(sha, others) { SameLeafSet(sha, ops, others); }
  }
}
