/**
 No rename is lost silently: kernel handlers, ring buffer and collector together.  The kernel run is arbitrary, the
 drained order is any rearrangement of what was submitted, and the two counters are all that has to be looked at.
 */
module ZeroLoss {
  import opened Sequences
  import opened Text
  import opened Trace
  import opened Records
  import opened Collector
  import opened CollectorRenames
  import opened Kernel
  import opened KernelStamps
  import opened KernelPairs
  import opened KernelLosses
  import Lifetimes

  /** Two threads never use a PID in the same nanosecond, so PID and operation id tell operations apart. */
  predicate PidsAreUnambiguous(ring: seq<Record>)
  {
    forall r, r' ::
      r in ring && r' in ring && IsPathRecord(r) && IsPathRecord(r') && r.pid == r'.pid && r.opId == r'.opId
      ==> r.tgid == r'.tgid
  }

  function RecordsOf(order: seq<Drained>): seq<Record>
  {
    seq(|order|, i requires 0 <= i < |order| => order[i].record)
  }

  // ---------------------------------------------------------------------- counting

  lemma {:induction false} MineCounts(ring: seq<Record>, k: Key, r: Record)
    requires Belongs(r, k)
    ensures multiset(Mine(ring, k))[r] == multiset(ring)[r]
  {
    if ring != [] {
      var n := |ring| - 1;
      MineCounts(ring[..n], k, r);
      assert ring == ring[..n] + [ring[n]];
    }
  }

  lemma TwoOccurrences<T>(s: seq<T>, i: nat, j: nat)
    requires i < j < |s| && s[i] == s[j]
    ensures multiset(s)[s[i]] >= 2
  {
    assert s == s[..j] + [s[j]] + s[j + 1..];
    assert s[i] in s[..j];
  }

  /** In an ordered list no record occurs twice. */
  lemma {:induction false} OrderedCounts(m: seq<PathRecord>, r: PathRecord)
    requires Ordered(m)
    ensures multiset(m)[r] <= 1
  {
    if m != [] {
      var n := |m| - 1;
      OrderedCounts(m[..n], r);
      assert m == m[..n] + [m[n]];
      forall i | 0 <= i < n ensures m[i] != m[n] { assert Precedes(m[i], m[n]); }
      assert m[n] !in m[..n];
    }
  }

  lemma InOrder(m: seq<PathRecord>, a: nat, b: nat)
    requires Ordered(m) && a < |m| && b < |m|
    ensures a < b ==> Precedes(m[a], m[b])
  {
  }

  /** At most one record of each kind for each operation, in the ring and so in the drained order. */
  lemma OneRecordOfAHalf(ring: seq<Record>, order: seq<Drained>, k: Key, r: Record, i: nat, j: nat)
    requires PidsAreUnambiguous(ring) && Ordered(Mine(ring, k)) && multiset(RecordsOf(order)) == multiset(ring)
    requires Belongs(r, k) && r in ring
    requires i < |order| && order[i].record == r
    requires j < |order| && IsPathRecord(order[j].record)
      && (order[j].record.pid, order[j].record.opId) == (r.pid, r.opId)
    requires order[j].record.RenameSource? == r.RenameSource?
      && order[j].record.RenameDestination? == r.RenameDestination?
    ensures i == j
  {
    var r', m := order[j].record, Mine(ring, k);
    assert RecordsOf(order)[j] == r';
    assert r' in multiset(RecordsOf(order));
    assert r' in ring;
    MineCounts(ring, k, r);
    MineCounts(ring, k, r');
    var a :| 0 <= a < |m| && m[a] == r;
    var b :| 0 <= b < |m| && m[b] == r';
    InOrder(m, a, b);
    InOrder(m, b, a);
    assert a == b;
    OrderedCounts(m, r);
    var rs := RecordsOf(order);
    assert rs[i] == rs[j] == r;
    if i < j { TwoOccurrences(rs, i, j); }
    if j < i { TwoOccurrences(rs, j, i); }
  }

  lemma DrainedSomewhere(ring: seq<Record>, order: seq<Drained>, r: Record) returns (i: nat)
    requires multiset(RecordsOf(order)) == multiset(ring) && r in ring
    ensures i < |order| && order[i].record == r
  {
    assert r in multiset(ring);
    assert r in RecordsOf(order);
    i :| 0 <= i < |RecordsOf(order)| && RecordsOf(order)[i] == r;
  }

  lemma {:induction false} MineIsInRing(ring: seq<Record>, k: Key, r: Record)
    requires r in Mine(ring, k)
    ensures r in ring && Belongs(r, k)
  {
    if ring != [] && r in Mine(ring[..|ring| - 1], k) { MineIsInRing(ring[..|ring| - 1], k, r); }
  }

  // ---------------------------------------------------------------------- the theorem

  function KeyOf(d: Done): RenameKey
    requires d.stamp.Some?
  {
    (d.key.1, d.stamp.value)
  }

  /** A rename by a process of the build. */
  predicate IsBuildRename(d: Done)
  {
    d.tracked && d.call.RenameCall?
  }

  /** The rename events of `d` when its halves are drained at `i` and `j`: from its own source to its destination. */
  function EventsOf(rootPid: U32, order: seq<Drained>, prefixes: seq<string>, d: Done, i: nat, j: nat): seq<Event>
    requires i < |order| && j < |order| && order[i].record.RenameSource? && order[j].record.RenameDestination?
    requires Decoded(order[i]).Some? && Decoded(order[j]).Some?
  {
    var process := CurrentProcess(At(rootPid, order, prefixes, i), d.key.0).1;
    RenameEvents(PendingRename(process, Decoded(order[i]).value, d.call.flags, false), Decoded(order[j]).value, false,
                 order[j])
  }

  /**
   The drained records at `i` and `j` are the two halves of `d` and no other records are.  Processing the second adds
   just the rename of `d`, by the process then current for its thread group, and the finished trace still holds it.
   */
  predicate Traced(rootPid: U32, exitCode: int, order: seq<Drained>, prefixes: seq<string>, d: Done, i: nat, j: nat)
  {
    && IsBuildRename(d) && d.stamp.Some? && i < j < |order|
    && order[i].record == Source(d.key, d.call, true, d.stamp.value)
    && order[j].record == Destination(d.key, d.call, true, d.stamp.value)
    && OnlySource(order, KeyOf(d), i) && OnlyDestination(order, KeyOf(d), j)
    && Decoded(order[i]).Some? && Decoded(order[j]).Some?
    && CurrentProcess(At(rootPid, order, prefixes, i), d.key.0).1.lifetime.pid == d.key.0
    && var block := EventsOf(rootPid, order, prefixes, d, i, j);
    && At(rootPid, order, prefixes, j + 1).events == At(rootPid, order, prefixes, j).events + block
    && HasBlock(Finish(At(rootPid, order, prefixes, |order|), rootPid, exitCode).events,
                |At(rootPid, order, prefixes, j).events|, block)
  }

  predicate OnlyDestination(order: seq<Drained>, key: RenameKey, j: nat)
  {
    forall j' :: 0 <= j' < |order| && IsDestinationOf(order[j'].record, key) ==> j' == j
  }

  lemma HalvesAreUnique(ring: seq<Record>, order: seq<Drained>, d: Done, i: nat, j: nat)
    requires PidsAreUnambiguous(ring) && Ordered(Mine(ring, d.key)) && multiset(RecordsOf(order)) == multiset(ring)
    requires IsBuildRename(d) && DoneClean(ring, d) && i < |order| && j < |order|
    requires order[i].record == Source(d.key, d.call, true, d.stamp.value)
    requires order[j].record == Destination(d.key, d.call, true, d.stamp.value)
    ensures OnlySource(order, KeyOf(d), i) && OnlyDestination(order, KeyOf(d), j)
  {
    MineIsInRing(ring, d.key, order[i].record);
    MineIsInRing(ring, d.key, order[j].record);
    forall x | 0 <= x < |order| && IsSourceOf(order[x].record, KeyOf(d)) ensures x == i {
      OneRecordOfAHalf(ring, order, d.key, order[i].record, i, x);
    }
    forall x | 0 <= x < |order| && IsDestinationOf(order[x].record, KeyOf(d)) ensures x == j {
      OneRecordOfAHalf(ring, order, d.key, order[j].record, j, x);
    }
  }

  lemma CurrentHasPid(rootPid: U32, order: seq<Drained>, prefixes: seq<string>, i: nat, pid: U32)
    requires i <= |order|
    ensures CurrentProcess(At(rootPid, order, prefixes, i), pid).1.lifetime.pid == pid
  {
    Lifetimes.RunKeepsIssued(rootPid, order[..i], prefixes, i);
    Lifetimes.CurrentKeepsIssued(At(rootPid, order, prefixes, i), pid);
  }

  /** The composition for one rename whose records reached the ring. */
  lemma SubmittedIsTraced(rootPid: U32, exitCode: int, ring: seq<Record>, order: seq<Drained>, prefixes: seq<string>,
      d: Done) returns (i: nat, j: nat)
    requires multiset(RecordsOf(order)) == multiset(ring) && PidsAreUnambiguous(ring)
    requires IsBuildRename(d) && DoneClean(ring, d) && Ordered(Mine(ring, d.key))
    requires Finish(At(rootPid, order, prefixes, |order|), rootPid, exitCode).malformed == 0
    ensures Traced(rootPid, exitCode, order, prefixes, d, i, j)
  {
    MineIsInRing(ring, d.key, Source(d.key, d.call, true, d.stamp.value));
    MineIsInRing(ring, d.key, Destination(d.key, d.call, true, d.stamp.value));
    i := DrainedSomewhere(ring, order, Source(d.key, d.call, true, d.stamp.value));
    j := DrainedSomewhere(ring, order, Destination(d.key, d.call, true, d.stamp.value));
    HalvesAreUnique(ring, order, d, i, j);
    CurrentHasPid(rootPid, order, prefixes, i, d.key.0);
    CountsGrow(rootPid, order, prefixes, j + 1, |order|);
    var half := DestinationsArePaired(rootPid, exitCode, order, prefixes, KeyOf(d), i, j,
                                      At(rootPid, order, prefixes, |order|));
    assert half == PendingRename(CurrentProcess(At(rootPid, order, prefixes, i), d.key.0).1, Decoded(order[i]).value,
                                 d.call.flags, false);
  }

  predicate HasNoNul(s: string)
  {
    '\0' !in s
  }

  lemma NothingToTrim(s: string)
    requires HasNoNul(s)
    ensures TrimNul(s) == s
  {
    if s != "" { assert s[|s| - 1] in s; }
  }

  lemma CaptureOfPath(path: string)
    requires HasNoNul(path)
    ensures HasNoNul(Capture(path)) && (Capture(path) == path <==> |path| <= MAX_CAPTURED)
    ensures "/" <= path ==> "/" <= Capture(path)
  {
    assert forall c :: c in Capture(path) ==> c in path;
  }

  lemma DecodedIsCapture(d: Drained, path: string)
    requires d.record.RenameSource? || d.record.RenameDestination?
    requires d.record.path == Capture(path) && "/" <= path && HasNoNul(path) && Decoded(d).Some?
    ensures Decoded(d).value == Capture(path)
  {
    CaptureOfPath(path);
    NothingToTrim(Capture(path));
  }

  /**
   A traced rename of absolute paths names the paths of its call exactly when both have at most 255 bytes.  A longer
   path is cut, and nothing counts that.
   */
  lemma TracedPathsAreOwnIff(rootPid: U32, exitCode: int, order: seq<Drained>, prefixes: seq<string>, d: Done, i: nat,
      j: nat)
    requires Traced(rootPid, exitCode, order, prefixes, d, i, j)
    requires "/" <= FirstPath(d.call) && HasNoNul(FirstPath(d.call))
    requires "/" <= SecondPath(d.call) && HasNoNul(SecondPath(d.call))
    ensures var e := EventsOf(rootPid, order, prefixes, d, i, j)[0];
            (e.from == FirstPath(d.call) && e.to == SecondPath(d.call) <==>
             |FirstPath(d.call)| <= MAX_CAPTURED && |SecondPath(d.call)| <= MAX_CAPTURED)
  {
    DecodedIsCapture(order[i], FirstPath(d.call));
    DecodedIsCapture(order[j], SecondPath(d.call));
    CaptureOfPath(FirstPath(d.call));
    CaptureOfPath(SecondPath(d.call));
  }

  /** Where the two halves of a completed rename are in the drained order. */
  datatype Place = Place(source: nat, destination: nat)

  ghost predicate AllPairs<A, B>(p: (A, B) -> bool, s: seq<A>, t: seq<B>)
  {
    |s| == |t| && forall e :: 0 <= e < |s| ==> p(s[e], t[e])
  }

  lemma OneMorePair<A, B>(p: (A, B) -> bool, s: seq<A>, t: seq<B>, n: nat, y: B)
    requires |s| == n + 1 && AllPairs(p, s[..n], t) && p(s[n], y)
    ensures AllPairs(p, s, t + [y])
  {
    forall e | 0 <= e < n ensures p(s[e], (t + [y])[e]) { assert s[..n][e] == s[e]; }
  }

  /** The rename is traced at the place, or nowhere. */
  ghost predicate Placed(rootPid: U32, exitCode: int, order: seq<Drained>, prefixes: seq<string>, d: Done,
      place: Option<Place>)
  {
    match place
    case Some(p) => Traced(rootPid, exitCode, order, prefixes, d, p.source, p.destination)
    case None => forall i, j :: !Traced(rootPid, exitCode, order, prefixes, d, i, j)
  }

  ghost predicate AllPlaced(rootPid: U32, exitCode: int, order: seq<Drained>, prefixes: seq<string>, done: seq<Done>,
      at: seq<Option<Place>>)
  {
    AllPairs((d: Done, p: Option<Place>) => Placed(rootPid, exitCode, order, prefixes, d, p), done, at)
  }

  /** The positions in the trace that the record at `j` filled. */
  predicate SpansDisjoint(rootPid: U32, order: seq<Drained>, prefixes: seq<string>, j: nat, j': nat)
    requires j < |order| && j' < |order|
  {
    || |At(rootPid, order, prefixes, j + 1).events| <= |At(rootPid, order, prefixes, j').events|
    || |At(rootPid, order, prefixes, j' + 1).events| <= |At(rootPid, order, prefixes, j).events|
  }

  predicate PlacesApart(rootPid: U32, order: seq<Drained>, prefixes: seq<string>, p: Place, q: Place)
  {
    && p.source != q.source && p.destination != q.destination && p.destination < |order| && q.destination < |order|
    && SpansDisjoint(rootPid, order, prefixes, p.destination, q.destination)
  }

  /** Different renames have different records, and their events fill disjoint stretches of the trace. */
  ghost predicate Apart(rootPid: U32, order: seq<Drained>, prefixes: seq<string>, at: seq<Option<Place>>)
  {
    forall e, e' :: 0 <= e < e' < |at| && at[e].Some? && at[e'].Some? ==>
      PlacesApart(rootPid, order, prefixes, at[e].value, at[e'].value)
  }

  lemma InRingIsMine(ring: seq<Record>, k: Key, r: Record)
    requires r in ring && Belongs(r, k)
    ensures r in Mine(ring, k)
  {
    MineCounts(ring, k, r);
    assert r in multiset(ring);
    assert multiset(Mine(ring, k))[r] > 0;
  }

  lemma DrainedIsInRing(ring: seq<Record>, order: seq<Drained>, i: nat)
    requires multiset(RecordsOf(order)) == multiset(ring) && i < |order|
    ensures order[i].record in ring
  {
    assert RecordsOf(order)[i] == order[i].record;
    assert order[i].record in multiset(RecordsOf(order));
  }

  /** A traced rename was submitted. */
  lemma TracedIsSubmitted(rootPid: U32, exitCode: int, ring: seq<Record>, order: seq<Drained>, prefixes: seq<string>,
      d: Done, i: nat, j: nat)
    requires multiset(RecordsOf(order)) == multiset(ring) && Traced(rootPid, exitCode, order, prefixes, d, i, j)
    ensures DoneClean(ring, d)
  {
    DrainedIsInRing(ring, order, i);
    DrainedIsInRing(ring, order, j);
    InRingIsMine(ring, d.key, order[i].record);
    InRingIsMine(ring, d.key, order[j].record);
  }

  /** A submitted rename is traced somewhere, another one nowhere. */
  lemma PlaceOf(rootPid: U32, exitCode: int, ring: seq<Record>, order: seq<Drained>, prefixes: seq<string>, d: Done)
      returns (place: Option<Place>)
    requires multiset(RecordsOf(order)) == multiset(ring) && PidsAreUnambiguous(ring) && Ordered(Mine(ring, d.key))
    requires Finish(At(rootPid, order, prefixes, |order|), rootPid, exitCode).malformed == 0
    ensures Placed(rootPid, exitCode, order, prefixes, d, place)
    ensures place.Some? <==> IsBuildRename(d) && DoneClean(ring, d)
  {
    if IsBuildRename(d) && DoneClean(ring, d) {
      var i, j := SubmittedIsTraced(rootPid, exitCode, ring, order, prefixes, d);
      place := Some(Place(i, j));
    } else {
      place := None;
      forall i, j ensures !Traced(rootPid, exitCode, order, prefixes, d, i, j) {
        if Traced(rootPid, exitCode, order, prefixes, d, i, j) {
          TracedIsSubmitted(rootPid, exitCode, ring, order, prefixes, d, i, j);
        }
      }
    }
  }

  lemma {:induction false} PlaceAll(rootPid: U32, exitCode: int, ring: seq<Record>, order: seq<Drained>,
      prefixes: seq<string>, done: seq<Done>) returns (at: seq<Option<Place>>)
    requires multiset(RecordsOf(order)) == multiset(ring) && PidsAreUnambiguous(ring)
    requires forall k :: Ordered(Mine(ring, k))
    requires Finish(At(rootPid, order, prefixes, |order|), rootPid, exitCode).malformed == 0
    ensures AllPlaced(rootPid, exitCode, order, prefixes, done, at)
    ensures |at| == |done|
    ensures forall e :: 0 <= e < |done| ==> (at[e].Some? <==> IsBuildRename(done[e]) && DoneClean(ring, done[e]))
  {
    if done == [] {
      at := [];
    } else {
      var n := |done| - 1;
      at := PlaceAll(rootPid, exitCode, ring, order, prefixes, done[..n]);
      var place := PlaceOf(rootPid, exitCode, ring, order, prefixes, done[n]);
      OneMorePair((d: Done, p: Option<Place>) => Placed(rootPid, exitCode, order, prefixes, d, p), done, at, n, place);
      at := at + [place];
    }
  }

  lemma DifferentSpans(rootPid: U32, order: seq<Drained>, prefixes: seq<string>, j: nat, j': nat)
    requires j < |order| && j' < |order| && j != j'
    ensures SpansDisjoint(rootPid, order, prefixes, j, j')
  {
    if j < j' {
      CountsGrow(rootPid, order, prefixes, j + 1, j');
    } else {
      CountsGrow(rootPid, order, prefixes, j' + 1, j);
    }
  }

  lemma PlacesAreApart(rootPid: U32, exitCode: int, order: seq<Drained>, prefixes: seq<string>, done: seq<Done>,
      at: seq<Option<Place>>)
    requires AllPlaced(rootPid, exitCode, order, prefixes, done, at) && Ascending(done)
    ensures Apart(rootPid, order, prefixes, at)
  {
    forall e, e' | 0 <= e < e' < |at| && at[e].Some? && at[e'].Some?
      ensures PlacesApart(rootPid, order, prefixes, at[e].value, at[e'].value)
    {
      var p, q := at[e].value, at[e'].value;
      assert Placed(rootPid, exitCode, order, prefixes, done[e], at[e]);
      assert Placed(rootPid, exitCode, order, prefixes, done[e'], at[e']);
      assert done[e].key != done[e'].key || done[e].stamp.value != done[e'].stamp.value;
      DifferentSpans(rootPid, order, prefixes, p.destination, q.destination);
    }
  }

  /** The build's renames are traced, but for those in whose own handlers the counter refused an update. */
  ghost predicate LostAsHidden(rootPid: U32, exitCode: int, order: seq<Drained>, prefixes: seq<string>,
      done: seq<Done>, hidden: seq<bool>, at: seq<Option<Place>>)
  {
    && AllPlaced(rootPid, exitCode, order, prefixes, done, at) && Apart(rootPid, order, prefixes, at)
    && |at| == |done| == |hidden|
    && forall e :: 0 <= e < |done| ==> (at[e].Some? <==> IsBuildRename(done[e]) && !hidden[e])
  }

  /**
   For every interleaving of threads, every answer of the system and every order of draining: when drops plus malformed
   records come to zero, a completed rename of a tracked thread is in the trace exactly if no update of the counter was
   refused in its own handlers.  Then it is there exactly once and as its own: from its own source record to its own
   destination record, no two renames sharing a record or a position in the trace.
   */
  lemma NoRenameIsLost(cfg: Config, run: seq<Step>, rootPid: U32, exitCode: int, order: seq<Drained>,
      prefixes: seq<string>)
    requires |run| <= U64_MAX
    requires multiset(RecordsOf(order)) == multiset(Execute(cfg, run).ring)
    requires PidsAreUnambiguous(Execute(cfg, run).ring)
    requires Execute(cfg, run).drops + Finish(Collect(New(rootPid), order, prefixes), rootPid, exitCode).malformed == 0
    ensures exists at ::
      LostAsHidden(rootPid, exitCode, order, prefixes, Execute(cfg, run).done, LossesOf(cfg, run).hidden, at)
    ensures !Execute(cfg, run).refused ==>
      forall e :: 0 <= e < |LossesOf(cfg, run).hidden| ==> !LossesOf(cfg, run).hidden[e]
  {
    SubmittedIff(cfg, run);
    WholePrefix(order);
    var s, l := Execute(cfg, run), LossesOf(cfg, run);
    var at := PlaceAll(rootPid, exitCode, s.ring, order, prefixes, s.done);
    PlacesAreApart(rootPid, exitCode, order, prefixes, s.done, at);
    RunKeepsSeen(cfg, run);
    forall e | 0 <= e < |s.done|
      ensures (at[e].Some? <==> IsBuildRename(s.done[e]) && !l.hidden[e]) && (l.hidden[e] ==> s.refused)
    {
      SubmittedAtZeroIff(cfg, run, e);
    }
    assert LostAsHidden(rootPid, exitCode, order, prefixes, s.done, l.hidden, at);
  }
}
