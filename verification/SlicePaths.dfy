/** Rename closure in the slicer: who is credited with a path once the renames of the whole trace are applied. */
module SlicePaths {
  import opened Text
  import opened Trace
  import opened Paths
  import opened SliceScan

  type Renames = seq<(string, string)>

  /** `q` is reached from `p` by applying some of the renames, in order. */
  ghost predicate Reaches(renames: Renames, p: string, q: string)
    decreases renames
  {
    if renames == [] then p == q
    else
      var from, to := renames[0].0, renames[0].1;
      Reaches(renames[1..], p, q) || (Under(p, from) && Reaches(renames[1..], to + p[|from|..], q))
  }

  /** The path after all renames, in order. */
  function FoldRenames(renames: Renames, path: string): string
    decreases renames
  {
    if renames == [] then path else FoldRenames(renames[1..], Moved(path, renames[0].0, renames[0].1))
  }

  lemma MovedIsImage(path: string, from: string, to: string)
    ensures Moved(path, from, to) == if Under(path, from) then to + path[|from|..] else path
  {
    if path == from { assert to + path[|from|..] == to; }
  }

  lemma {:induction false} FoldIsReached(renames: Renames, path: string)
    ensures Reaches(renames, path, FoldRenames(renames, path))
    ensures Reaches(renames, path, path)
    decreases renames
  {
    if renames != [] {
      MovedIsImage(path, renames[0].0, renames[0].1);
      FoldIsReached(renames[1..], Moved(path, renames[0].0, renames[0].1));
      FoldIsReached(renames[1..], path);
    }
  }

  lemma AliasAt(m: Writers, from: string, to: string, q: string)
    ensures Get(Alias(m, from, to), q) == Get(m, q) + Gained(m, from, to, q)
  {
    if Under(q, to) && from + q[|to|..] in m {
      ImageOfSource(from, to, q);
      assert q in Images(m, from, to);
    }
    if q in Images(m, from, to) {
      var p :| p in m && Under(p, from) && q == to + p[|from|..];
      SourceOfImage(from, to, p);
    }
  }

  lemma AliasCredits(m: Writers, from: string, to: string, w: Instance, p: string)
    requires w in Get(m, p)
    ensures w in Get(Alias(m, from, to), p)
    ensures Under(p, from) ==> w in Get(Alias(m, from, to), to + p[|from|..])
  {
    AliasAt(m, from, to, p);
    if Under(p, from) {
      SourceOfImage(from, to, p);
      AliasAt(m, from, to, to + p[|from|..]);
    }
  }

  lemma {:induction false} FixupCredits(m: Writers, renames: Renames, w: Instance, p: string, q: string)
    requires w in Get(m, p) && Reaches(renames, p, q)
    ensures w in Get(Fixup(m, renames), q)
    decreases renames
  {
    if renames != [] {
      var from, to := renames[0].0, renames[0].1;
      AliasCredits(m, from, to, w, p);
      if Reaches(renames[1..], p, q) {
        FixupCredits(Alias(m, from, to), renames[1..], w, p, q);
      } else {
        FixupCredits(Alias(m, from, to), renames[1..], w, to + p[|from|..], q);
      }
    }
  }

  lemma {:induction false} FixupOrigin(m: Writers, renames: Renames, w: Instance, q: string) returns (p: string)
    requires w in Get(Fixup(m, renames), q)
    ensures w in Get(m, p) && Reaches(renames, p, q)
    decreases renames
  {
    if renames == [] {
      p := q;
    } else {
      var from, to := renames[0].0, renames[0].1;
      p := FixupOrigin(Alias(m, from, to), renames[1..], w, q);
      AliasAt(m, from, to, p);
      if w !in Get(m, p) {
        ImageOfSource(from, to, p);
        p := from + p[|to|..];
      }
    }
  }

  /** Exactly who the fixup credits with a path: those recorded at a path that some of the renames turn into it. */
  lemma FixupIsRenameClosure(m: Writers, renames: Renames, w: Instance, q: string)
    ensures w in Get(Fixup(m, renames), q) <==> exists p :: w in Get(m, p) && Reaches(renames, p, q)
  {
    if w in Get(Fixup(m, renames), q) {
      var p := FixupOrigin(m, renames, w, q);
    }
    if exists p :: w in Get(m, p) && Reaches(renames, p, q) {
      var p :| w in Get(m, p) && Reaches(renames, p, q);
      FixupCredits(m, renames, w, p, q);
    }
  }

  // ---------------------------------------------------------------------------------------------
  // Over a whole trace.

  function RenameOf(e: Event): Renames
  {
    if e.FileRename? && !e.external then [(e.from, e.to)] else []
  }

  /** The renames of the trace that are not external. */
  function RenamesOf(events: seq<Event>): Renames
  {
    if events == [] then [] else RenamesOf(events[..|events| - 1]) + RenameOf(events[|events| - 1])
  }

  /** The close at the end of `s` credits this instance with this path. */
  function Credits(s: Scan, e: Event): Option<(Instance, string)>
  {
    if e.FileClose? && !e.external && (e.process.lifetime, e.fd) in s.pending && e.seen.Some? then
      var entry := s.pending[(e.process.lifetime, e.fd)];
      Some((entry.process, if e.closed.Some? then e.closed.value else entry.path))
    else None
  }

  lemma StepKeepsWriters(root: Instance, s: Scan, e: Event, w: Instance, path: string)
    requires w in Get(s.byPath, path)
    ensures w in Get(ScanStep(root, s, e).byPath, path)
  {
    if e.FileRename? && !e.external { AliasCredits(s.byPath, e.from, e.to, w, path); }
  }

  lemma {:induction false} WritersAreKept(root: Instance, events: seq<Event>, i: nat, w: Instance, path: string)
    requires i <= |events| && w in Get(ScanRun(root, events[..i]).byPath, path)
    ensures w in Get(ScanRun(root, events).byPath, path)
  {
    if i == |events| {
      assert events[..i] == events;
    } else {
      var n := |events| - 1;
      assert events[..n][..i] == events[..i];
      WritersAreKept(root, events[..n], i, w, path);
      StepKeepsWriters(root, ScanRun(root, events[..n]), events[n], w, path);
    }
  }

  lemma StepCollectsRename(root: Instance, s: Scan, e: Event)
    ensures ScanStep(root, s, e).renames == s.renames + RenameOf(e)
  {
  }

  lemma {:induction false} ScanCollectsRenames(root: Instance, events: seq<Event>)
    ensures ScanRun(root, events).renames == RenamesOf(events)
  {
    if events != [] {
      var n := |events| - 1;
      ScanCollectsRenames(root, events[..n]);
      StepCollectsRename(root, ScanRun(root, events[..n]), events[n]);
    }
  }

  /** The writers by path from which the slicer starts its walk. */
  function FinalWriters(root: Instance, events: seq<Event>): Writers
  {
    Fixup(ScanRun(root, events).byPath, ScanRun(root, events).renames)
  }

  /**
   Late writers: a writer that any close of the trace records at a path ends up at every path that some of the
   trace's renames lead to, in particular after all of them, also when those renames came before the close.
   */
  lemma LateWritersReachFinalPath(root: Instance, events: seq<Event>, i: nat)
    requires i < |events| && Credits(ScanRun(root, events[..i]), events[i]).Some?
    ensures var (w, path) := Credits(ScanRun(root, events[..i]), events[i]).value;
            && w in Get(FinalWriters(root, events), FoldRenames(RenamesOf(events), path))
            && forall q :: Reaches(RenamesOf(events), path, q) ==> w in Get(FinalWriters(root, events), q)
  {
    var (w, path) := Credits(ScanRun(root, events[..i]), events[i]).value;
    ScanRunStep(root, events, i);
    CloseBooksPath(root, ScanRun(root, events[..i]), events[i]);
    WritersAreKept(root, events, i + 1, w, path);
    ScanCollectsRenames(root, events);
    forall q | Reaches(RenamesOf(events), path, q) ensures w in Get(FinalWriters(root, events), q) {
      FixupCredits(ScanRun(root, events).byPath, RenamesOf(events), w, path, q);
    }
    FoldIsReached(RenamesOf(events), path);
  }

  lemma CloseBooksPath(root: Instance, s: Scan, e: Event)
    requires Credits(s, e).Some?
    ensures Credits(s, e).value.0 in Get(ScanStep(root, s, e).byPath, Credits(s, e).value.1)
  {
  }

  lemma RenameBooksPath(root: Instance, s: Scan, e: Event)
    requires e.FileRename? && !e.external
    ensures e.process in Get(ScanStep(root, s, e).byPath, e.to)
  {
  }

  /** A renamer is credited with the destination, and so with everything that later renames make of it. */
  lemma RenamersReachFinalPath(root: Instance, events: seq<Event>, i: nat)
    requires i < |events| && events[i].FileRename? && !events[i].external
    ensures events[i].process in Get(FinalWriters(root, events), FoldRenames(RenamesOf(events), events[i].to))
    ensures events[i].process in Get(FinalWriters(root, events), events[i].to)
  {
    var e := events[i];
    ScanRunStep(root, events, i);
    RenameBooksPath(root, ScanRun(root, events[..i]), e);
    WritersAreKept(root, events, i + 1, e.process, e.to);
    ScanCollectsRenames(root, events);
    FoldIsReached(RenamesOf(events), e.to);
    FixupCredits(ScanRun(root, events).byPath, RenamesOf(events), e.process, e.to,
      FoldRenames(RenamesOf(events), e.to));
    FixupCredits(ScanRun(root, events).byPath, RenamesOf(events), e.process, e.to, e.to);
  }
}
