/**
 Scheduling without mention of swaps: what a trace records is determined by what each process lifetime sees of it, as
 long as no two closes by unrelated lifetimes complete one write with different identities.
 */
module FreeSchedules {
  import opened Sequences
  import opened Text
  import opened Trace
  import opened Operations
  import opened Canonicalizer
  import opened Worlds
  import opened Interleaving
  import opened Schedules

  // ---------------------------------------------------------------------------------------------
  // What one lifetime sees.

  /** The events of a lifetime, in order; a fork is seen by parent and child. */
  function SeenBy(l: Lifetime, events: seq<Event>): seq<Event>
  {
    if events == [] then []
    else
      var n := |events| - 1;
      SeenBy(l, events[..n]) + if l in Footprint(events[n]) then [events[n]] else []
  }

  /** Two schedules of one set of concurrent processes. */
  ghost predicate SameViews(t: seq<Event>, u: seq<Event>)
  {
    forall l :: SeenBy(l, t) == SeenBy(l, u)
  }

  lemma SeenOneMore(l: Lifetime, events: seq<Event>, e: Event)
    ensures SeenBy(l, events + [e]) == SeenBy(l, events) + if l in Footprint(e) then [e] else []
  {
    assert (events + [e])[..|events|] == events;
  }

  lemma {:induction false} SeenJoined(l: Lifetime, a: seq<Event>, b: seq<Event>)
    ensures SeenBy(l, a + b) == SeenBy(l, a) + SeenBy(l, b)
  {
    if b == [] {
      AppendNothing(a);
      AppendNothing(SeenBy(l, a));
    } else {
      var n := |b| - 1;
      SeenJoined(l, a, b[..n]);
      OneMore(b, n);
      WholePrefix(b);
      Assoc(a, b[..n], [b[n]]);
      SeenOneMore(l, a + b[..n], b[n]);
      Assoc(SeenBy(l, a), SeenBy(l, b[..n]), if l in Footprint(b[n]) then [b[n]] else []);
    }
  }

  predicate Unseen(l: Lifetime, events: seq<Event>)
  {
    forall i :: 0 <= i < |events| ==> l !in Footprint(events[i])
  }

  lemma {:induction false} UnseenIsEmpty(l: Lifetime, events: seq<Event>)
    requires Unseen(l, events)
    ensures SeenBy(l, events) == []
  {
    if events != [] { UnseenIsEmpty(l, events[..|events| - 1]); }
  }

  /** The last event that a lifetime sees. */
  lemma {:induction false} LastSeen(l: Lifetime, events: seq<Event>) returns (p: nat)
    requires SeenBy(l, events) != []
    ensures p < |events| && l in Footprint(events[p]) && Unseen(l, events[p + 1..])
    ensures events[p] == SeenBy(l, events)[|SeenBy(l, events)| - 1]
  {
    var n := |events| - 1;
    if l in Footprint(events[n]) {
      p := n;
    } else {
      p := LastSeen(l, events[..n]);
      forall i | p < i < |events| ensures l !in Footprint(events[i]) {
        if i < n { assert events[..n][p + 1..][i - p - 1] == events[i]; }
      }
    }
  }

  // ---------------------------------------------------------------------------------------------
  // Collisions.

  /** Unrelated events at `i` and `j` complete one write with different identities. */
  ghost predicate Collision(c: Config, t: seq<Event>, i: nat, j: nat)
    requires i < |t| && j < |t|
  {
    var x, y := Completes(c, Run(c, t[..i]), t[i]), Completes(c, Run(c, t[..j]), t[j]);
    Footprint(t[i]) !! Footprint(t[j]) && x.Some? && y.Some? && x.value.0 == y.value.0 && x.value.1 != y.value.1
  }

  ghost predicate CollisionFree(c: Config, t: seq<Event>)
  {
    forall i, j :: 0 <= i < j < |t| ==> !Collision(c, t, i, j)
  }

  function CompletionAt(c: Config, t: seq<Event>, i: nat): Option<(Token, string)>
    requires i < |t|
  {
    Completion(c, WRun(c, t[..i]), t[i])
  }

  ghost predicate ClashFree(c: Config, t: seq<Event>)
  {
    forall i, j :: 0 <= i < |t| && 0 <= j < |t| && Footprint(t[i]) !! Footprint(t[j]) ==>
      !Clash(CompletionAt(c, t, i), CompletionAt(c, t, j))
  }

  lemma CompletionIsSeen(c: Config, t: seq<Event>, i: nat, tok: seq<Token>, ext: seq<Token>)
    requires i < |t| && RunTracked(c, t[..i], tok, ext)
    ensures var x, done := CompletionAt(c, t, i), Completes(c, Run(c, t[..i]), t[i]);
            x.Some? ==> done.Some? && done.value.0 < |tok| && x.value == (tok[done.value.0], done.value.1)
  {
    if !t[i].Fork? { TargetIsCompleted(c, Run(c, t[..i]), WRun(c, t[..i]), tok, ext, t[i]); }
  }

  lemma DifferentPlaces(c: Config, events: seq<Event>, tok: seq<Token>, ext: seq<Token>, m: nat, n: nat)
    requires RunTracked(c, events, tok, ext) && m < |tok| && n < |tok| && tok[m] == tok[n]
    ensures m == n
  {
    SameTokenSamePlace(Run(c, events).ops, tok, WRun(c, events), m, n);
  }

  lemma ClashIsCollision(c: Config, t: seq<Event>, i: nat, j: nat)
    requires i < j < |t| && Footprint(t[i]) !! Footprint(t[j]) && !Collision(c, t, i, j)
    ensures !Clash(CompletionAt(c, t, i), CompletionAt(c, t, j))
  {
    var tok, ext := RunTracks(c, t[..i]);
    NestedPrefix(t, j, i);
    SamePrefixTracked(c, t[..i], t[..j][..i], tok, ext);
    var tok', ext' := TracksExtend(c, t[..j], i, tok, ext);
    CompletionIsSeen(c, t, i, tok, ext);
    CompletionIsSeen(c, t, j, tok', ext');
    if Clash(CompletionAt(c, t, i), CompletionAt(c, t, j)) {
      DifferentPlaces(c, t[..j], tok', ext', Completes(c, Run(c, t[..i]), t[i]).value.0,
                      Completes(c, Run(c, t[..j]), t[j]).value.0);
    }
  }

  lemma CollisionFreeIsClashFree(c: Config, t: seq<Event>)
    requires CollisionFree(c, t)
    ensures ClashFree(c, t)
  {
    forall i, j | 0 <= i < |t| && 0 <= j < |t| && Footprint(t[i]) !! Footprint(t[j])
      ensures !Clash(CompletionAt(c, t, i), CompletionAt(c, t, j))
    {
      if i < j {
        ClashIsCollision(c, t, i, j);
      } else if j < i {
        ClashIsCollision(c, t, j, i);
      }
    }
  }

  // ---------------------------------------------------------------------------------------------
  // One swap.

  lemma CompletionAfterFork(c: Config, w: World, f: Event, b: Event)
    requires f.Fork? && !b.Fork? && Footprint(f) !! Footprint(b)
    ensures Completion(c, WStep(c, w, f), b) == Completion(c, w, b)
  {
    assert b.process.lifetime in Footprint(b) && f.child.lifetime in Footprint(f);
    assert At(WStep(c, w, f), b.process.lifetime) == At(w, b.process.lifetime);
  }

  lemma AtAfterEffect(w: World, la: Lifetime, x: Effect, lb: Lifetime)
    requires la != lb
    ensures At(Patch(w[la := x.loc], x.target, x.identity), lb) == PatchAt(At(w, lb), lb, x.target, x.identity)
  {
    AtPatch(w[la := x.loc], x.target, x.identity, lb);
    assert At(w[la := x.loc], lb) == At(w, lb);
  }

  lemma PatchedCompletion(c: Config, loc: Local, b: Event, x: Effect)
    requires !b.Fork?
    requires x.target.Some? && x.target.value.0 == b.process.lifetime ==> x.target.value.1 < |loc.ops|
    ensures CompletedBy(EffectOf(c, PatchAt(loc, b.process.lifetime, x.target, x.identity), b))
         == CompletedBy(EffectOf(c, loc, b))
  {
    SecondIgnoresPatch(c, loc, b, x, EffectOf(c, loc, b));
  }

  lemma CompletionAfterLocal(c: Config, w: World, a: Event, b: Event)
    requires Sound(w) && !a.Fork? && !b.Fork? && a.process.lifetime != b.process.lifetime
    ensures Completion(c, WStep(c, w, a), b) == Completion(c, w, b)
  {
    var la, lb, x := a.process.lifetime, b.process.lifetime, EffectOf(c, At(w, a.process.lifetime), a);
    StepIsEffect(c, w, a);
    EffectTargetInRange(c, w, la, a);
    AtAfterEffect(w, la, x, lb);
    PatchedCompletion(c, At(w, lb), b, x);
  }

  /** An unrelated step does not change what an event completes. */
  lemma CompletionIsStable(c: Config, w: World, a: Event, b: Event)
    requires Sound(w) && Footprint(a) !! Footprint(b)
    ensures Completion(c, WStep(c, w, a), b) == Completion(c, w, b)
  {
    if !b.Fork? {
      if a.Fork? {
        CompletionAfterFork(c, w, a, b);
      } else {
        assert a.process.lifetime in Footprint(a) && b.process.lifetime in Footprint(b);
        CompletionAfterLocal(c, w, a, b);
      }
    }
  }

  /** Where the swap of the neighbours at `n` puts the event at `i`. */
  function Exchanged(n: nat, i: nat): nat
  {
    if i == n then n + 1 else if i == n + 1 then n else i
  }

  /** `u` is `t` with the unrelated, compatible events at `n` and `n + 1` swapped. */
  ghost predicate Exchange(c: Config, t: seq<Event>, u: seq<Event>, n: nat)
  {
    && n + 1 < |t| == |u| && (forall i :: 0 <= i < |u| ==> u[i] == t[Exchanged(n, i)])
    && Footprint(t[n]) !! Footprint(t[n + 1]) && ClashFree(c, t)
  }

  lemma NextWorld(c: Config, t: seq<Event>, i: nat)
    requires i < |t|
    ensures WRun(c, t[..i + 1]) == WStep(c, WRun(c, t[..i]), t[i])
  {
    OneMore(t, i);
    AppendStep(c, t[..i], t[i]);
  }

  lemma NeighboursCommute(c: Config, t: seq<Event>, u: seq<Event>, n: nat)
    requires Exchange(c, t, u, n)
    ensures t[..n] == u[..n] && WRun(c, t[..n + 2]) == WRun(c, u[..n + 2])
    ensures CompletionAt(c, u, n) == CompletionAt(c, t, n + 1) && CompletionAt(c, u, n + 1) == CompletionAt(c, t, n)
  {
    var w, a, b := WRun(c, t[..n]), t[n], t[n + 1];
    assert t[..n] == u[..n] && u[n] == b && u[n + 1] == a;
    RunIsSound(c, t[..n]);
    NextWorld(c, t, n);
    NextWorld(c, t, n + 1);
    NextWorld(c, u, n);
    NextWorld(c, u, n + 1);
    CompletionIsStable(c, w, a, b);
    CompletionIsStable(c, w, b, a);
    assert !Clash(CompletionAt(c, t, n), CompletionAt(c, t, n + 1));
    StepsCommute(c, w, a, b);
  }

  lemma SplitPrefix<T>(t: seq<T>, u: seq<T>, n: nat, i: nat)
    requires n <= i <= |t| == |u| && forall k :: n <= k < |t| ==> t[k] == u[k]
    ensures t[..i] == t[..n] + t[n..i] && u[..i] == u[..n] + t[n..i]
  {
  }

  lemma SameFrom(c: Config, t: seq<Event>, u: seq<Event>, n: nat, i: nat)
    requires n <= i <= |t| == |u| && WRun(c, t[..n]) == WRun(c, u[..n])
    requires forall k :: n <= k < |t| ==> t[k] == u[k]
    ensures WRun(c, t[..i]) == WRun(c, u[..i])
  {
    SplitPrefix(t, u, n, i);
    SameSuffixSameWorld(c, t[..n], u[..n], t[n..i]);
  }

  lemma ExchangedCompletion(c: Config, t: seq<Event>, u: seq<Event>, n: nat, i: nat)
    requires Exchange(c, t, u, n) && i < |u|
    ensures CompletionAt(c, u, i) == CompletionAt(c, t, Exchanged(n, i))
  {
    NeighboursCommute(c, t, u, n);
    if i < n {
      NestedPrefix(t, n, i);
      NestedPrefix(u, n, i);
    } else if i > n + 1 {
      SameFrom(c, t, u, n + 2, i);
    }
  }

  lemma ExchangedClash(c: Config, t: seq<Event>, u: seq<Event>, n: nat, i: nat, j: nat)
    requires Exchange(c, t, u, n) && i < |u| && j < |u| && Footprint(u[i]) !! Footprint(u[j])
    ensures !Clash(CompletionAt(c, u, i), CompletionAt(c, u, j))
  {
    ExchangedCompletion(c, t, u, n, i);
    ExchangedCompletion(c, t, u, n, j);
    assert u[i] == t[Exchanged(n, i)] && u[j] == t[Exchanged(n, j)];
  }

  lemma ExchangedWorld(c: Config, t: seq<Event>, u: seq<Event>, n: nat)
    requires Exchange(c, t, u, n)
    ensures WRun(c, t) == WRun(c, u)
  {
    NeighboursCommute(c, t, u, n);
    SameFrom(c, t, u, n + 2, |t|);
    WholePrefix(t);
    WholePrefix(u);
  }

  /** A swap leaves the world as it is, and makes no events collide. */
  lemma ExchangeIsHarmless(c: Config, t: seq<Event>, u: seq<Event>, n: nat)
    requires Exchange(c, t, u, n)
    ensures WRun(c, t) == WRun(c, u) && ClashFree(c, u)
  {
    ExchangedWorld(c, t, u, n);
    forall i, j | 0 <= i < |u| && 0 <= j < |u| && Footprint(u[i]) !! Footprint(u[j])
      ensures !Clash(CompletionAt(c, u, i), CompletionAt(c, u, j))
    {
      ExchangedClash(c, t, u, n, i, j);
    }
  }

  // ---------------------------------------------------------------------------------------------
  // From one schedule to the other.

  lemma ExchangedHead(c: Config, pre: seq<Event>, e: Event, post: seq<Event>)
    requires post != [] && Footprint(e) !! Footprint(post[0]) && ClashFree(c, pre + [e] + post)
    ensures Exchange(c, pre + [e] + post, (pre + [post[0]]) + [e] + post[1..], |pre|)
  {
  }

  lemma ShiftTail(pre: seq<Event>, post: seq<Event>, e: Event)
    requires post != []
    ensures (pre + [post[0]]) + post[1..] + [e] == pre + post + [e]
  {
  }

  /** An event unrelated to all that follow can be moved to the end. */
  lemma {:induction false} MoveToEnd(c: Config, pre: seq<Event>, e: Event, post: seq<Event>)
    requires forall i :: 0 <= i < |post| ==> Footprint(e) !! Footprint(post[i])
    requires ClashFree(c, pre + [e] + post)
    ensures WRun(c, pre + [e] + post) == WRun(c, pre + post + [e]) && ClashFree(c, pre + post + [e])
    decreases post
  {
    if post == [] {
      AppendNothing(pre + [e]);
      AppendNothing(pre);
    } else {
      var next := (pre + [post[0]]) + [e] + post[1..];
      ExchangedHead(c, pre, e, post);
      ExchangeIsHarmless(c, pre + [e] + post, next, |pre|);
      MoveToEnd(c, pre + [post[0]], e, post[1..]);
      ShiftTail(pre, post, e);
    }
  }

  lemma ClashFreePrefix(c: Config, t: seq<Event>, e: Event)
    requires ClashFree(c, t + [e])
    ensures ClashFree(c, t)
  {
    var more := t + [e];
    forall i, j | 0 <= i < |t| && 0 <= j < |t| && Footprint(t[i]) !! Footprint(t[j])
      ensures !Clash(CompletionAt(c, t, i), CompletionAt(c, t, j))
    {
      assert more[..i] == t[..i] && more[..j] == t[..j] && more[i] == t[i] && more[j] == t[j];
      assert !Clash(CompletionAt(c, more, i), CompletionAt(c, more, j));
    }
  }

  /** The last event of one schedule occurs in the other, and nothing after it there is related to it. */
  lemma FindLast(t: seq<Event>, e: Event, u: seq<Event>) returns (p: nat)
    requires SameViews(t + [e], u)
    ensures p < |u| && u[p] == e && forall i :: p < i < |u| ==> Footprint(e) !! Footprint(u[i])
  {
    var l := if e.Fork? then e.parent.lifetime else e.process.lifetime;
    p := LastOfView(t, e, u, l);
    forall i | p < i < |u| ensures Footprint(e) !! Footprint(u[i]) {
      forall m | m in Footprint(e) ensures m !in Footprint(u[i]) {
        var q := LastOfView(t, e, u, m);
        if i > q { assert u[q + 1..][i - q - 1] == u[i]; }
      }
    }
  }

  lemma LastOfView(t: seq<Event>, e: Event, u: seq<Event>, l: Lifetime) returns (p: nat)
    requires SameViews(t + [e], u) && l in Footprint(e)
    ensures p < |u| && u[p] == e && Unseen(l, u[p + 1..])
  {
    SeenOneMore(l, t, e);
    assert SeenBy(l, u) == SeenBy(l, t) + [e];
    p := LastSeen(l, u);
  }

  lemma SameViewsWithout(t: seq<Event>, e: Event, pre: seq<Event>, post: seq<Event>)
    requires SameViews(t + [e], pre + [e] + post) && forall i :: 0 <= i < |post| ==> Footprint(e) !! Footprint(post[i])
    ensures SameViews(t, pre + post)
  {
    forall l ensures SeenBy(l, t) == SeenBy(l, pre + post) {
      SeenOneMore(l, t, e);
      SeenJoined(l, pre + [e], post);
      SeenOneMore(l, pre, e);
      SeenJoined(l, pre, post);
      if l in Footprint(e) {
        UnseenIsEmpty(l, post);
        AppendNothing(SeenBy(l, pre) + [e]);
        AppendNothing(SeenBy(l, pre));
        AppendedEqual(SeenBy(l, t), SeenBy(l, pre), [e]);
      } else {
        AppendNothing(SeenBy(l, t));
        AppendNothing(SeenBy(l, pre));
      }
    }
  }

  lemma NothingSeen(u: seq<Event>)
    requires SameViews([], u)
    ensures u == []
  {
    if u != [] {
      var e := u[|u| - 1];
      var l := if e.Fork? then e.parent.lifetime else e.process.lifetime;
      assert l in Footprint(e);
      assert SeenBy(l, u) == SeenBy(l, []);
    }
  }

  lemma {:induction false} SchedulesMeet(c: Config, t: seq<Event>, u: seq<Event>)
    requires SameViews(t, u) && ClashFree(c, u)
    ensures WRun(c, t) == WRun(c, u)
    decreases |t|
  {
    if t == [] {
      NothingSeen(u);
    } else {
      var n := |t| - 1;
      var e, rest := t[n], t[..n];
      assert t == rest + [e];
      var p := FindLast(rest, e, u);
      var pre, post := u[..p], u[p + 1..];
      assert u == pre + [e] + post;
      forall i | 0 <= i < |post| ensures Footprint(e) !! Footprint(post[i]) { assert post[i] == u[p + 1 + i]; }
      MoveToEnd(c, pre, e, post);
      ClashFreePrefix(c, pre + post, e);
      SameViewsWithout(rest, e, pre, post);
      SchedulesMeet(c, rest, pre + post);
      AppendStep(c, rest, e);
      AppendStep(c, pre + post, e);
    }
  }

  /**
   Two traces in which every process lifetime sees the same events in the same order record the same operations and
   commit to the same leaves, if in one of them no unrelated closes complete a write with different identities.
   */
  lemma ViewsDetermineLeaves(sha: Sha, c: Config, t: seq<Event>, u: seq<Event>)
    requires SameViews(t, u) && CollisionFree(c, u)
    ensures RecordedBy(c, t) == RecordedBy(c, u)
    ensures Leaves(sha, Canonical(sha, c, t)) == Leaves(sha, Canonical(sha, c, u))
  {
    CollisionFreeIsClashFree(c, u);
    SchedulesMeet(c, t, u);
    SameWorldSameRecord(c, t, u);
    SameWorldSameLeaves(sha, c, t, u);
  }
}
