/** What the slicer's scan knows after a trace, told by the events of the trace alone. */
module SliceFacts {
  import opened Text
  import opened Trace
  import opened Paths
  import opened SliceScan
  import opened SlicePaths
  import opened SliceOpeners

  /** Who accesses `path` and finds this there has read the content `h`. */
  predicate IsReadOf(path: string, found: Observation, h: string)
  {
    if IsSystemState(path) then h == SYSTEM_STATE_SENTINEL else found == Content(h)
  }

  /** The event reads content `h` for instance `w`. */
  predicate ReadsContent(e: Event, w: Instance, h: string)
  {
    match e
    case FileOpen(process, path, flags, _, external, found) =>
      process == w && !external && CanRead(flags) && IsReadOf(path, found, h)
    case FileMmap(process, _, _, _, mapped, external, seen) =>
      process == w && !external && mapped.Some? && seen.Some? && IsReadOf(mapped.value, seen.value, h)
    case FileRename(process, _, _, _, external, found) => process == w && !external && found == Content(h)
    case _ => false
  }

  predicate RenamesContent(e: Event, w: Instance, h: string)
  {
    e.FileRename? && e.process == w && !e.external && e.observation == Content(h)
  }

  /** The close at `i` ends a write that `w` started, directly or through forks, and observes the content `h`. */
  ghost predicate WritesContent(events: seq<Event>, i: nat, w: Instance, h: string)
  {
    && i < |events| && events[i].FileClose? && !events[i].external && events[i].seen == Some(Content(h))
    && HandedTo(events[..i], events[i].process.lifetime, events[i].fd, w)
  }

  predicate Executes(e: Event, w: Instance)
  {
    e.Exec? && e.process == w
  }

  predicate ExitsRoot(e: Event, root: Instance)
  {
    e.Exit? && e.process.lifetime == root.lifetime
  }

  /** The identity of the last image that the instance, or whoever forked it, has executed. */
  function ToolOf(events: seq<Event>, w: Instance): Option<string>
  {
    if events == [] then None
    else
      var before, e := events[..|events| - 1], events[|events| - 1];
      if Executes(e, w) then Some(e.observation.Identity())
      else if e.Fork? && e.child == w then ToolOf(before, e.parent)
      else ToolOf(before, w)
  }

  // ---------------------------------------------------------------------------------------------
  // One event.

  /** The flows of all other instances stay, and of this one all but the reads. */
  lemma ReadsAt(flows: map<Instance, Flow>, p: Instance, hash: Option<string>, w: Instance)
    ensures FlowOf(Reads(flows, p, hash), w) ==
      FlowOf(flows, w).(input := FlowOf(flows, w).input + if p == w && hash.Some? then {hash.value} else {})
  {
  }

  lemma ReadHashIs(path: string, found: Observation, h: string)
    ensures ReadHash(path, found) == Some(h) <==> IsReadOf(path, found, h)
  {
  }

  lemma OpenReads(s: Scan, e: Event, w: Instance, h: string)
    requires e.FileOpen?
    ensures h in FlowOf(OnOpen(s, e).flows, w).input <==> h in FlowOf(s.flows, w).input || ReadsContent(e, w, h)
  {
    ReadsAt(s.flows, e.process, ReadHash(e.path, e.observation), w);
    ReadHashIs(e.path, e.observation, h);
  }

  lemma MmapReads(s: Scan, e: Event, w: Instance, h: string)
    requires e.FileMmap?
    ensures h in FlowOf(OnMmap(s, e).flows, w).input <==> h in FlowOf(s.flows, w).input || ReadsContent(e, w, h)
  {
    if e.mapped.Some? && e.seen.Some? {
      ReadsAt(s.flows, e.process, ReadHash(e.mapped.value, e.seen.value), w);
      ReadHashIs(e.mapped.value, e.seen.value, h);
    }
  }

  lemma RenameActs(s: Scan, e: Event, w: Instance, h: string)
    requires e.FileRename?
    ensures var f, g := FlowOf(s.flows, w), FlowOf(OnRename(s, e).flows, w);
            && (h in g.input <==> h in f.input || RenamesContent(e, w, h))
            && (h in g.renamed <==> h in f.renamed || RenamesContent(e, w, h))
            && g.output == f.output && g.tool == f.tool && g.hasExec == f.hasExec
  {
  }

  lemma CloseActs(s: Scan, e: Event, w: Instance, h: string)
    requires e.FileClose?
    ensures var f, g := FlowOf(s.flows, w), FlowOf(OnClose(s, e).flows, w);
            && g.input == f.input && g.renamed == f.renamed && g.tool == f.tool && g.hasExec == f.hasExec
            && (h in g.output <==> h in f.output || (Credits(s, e).Some? && Credits(s, e).value.0 == w
                                                     && e.seen == Some(Content(h))))
  {
  }

  /** Reading leaves the rest of a flow alone. */
  lemma AccessKeepsProducts(root: Instance, s: Scan, e: Event, w: Instance)
    requires e.FileOpen? || e.FileMmap?
    ensures FlowOf(ScanStep(root, s, e).flows, w).(input := {}) == FlowOf(s.flows, w).(input := {})
  {
    if e.FileOpen? {
      ReadsAt(s.flows, e.process, ReadHash(e.path, e.observation), w);
    } else if e.mapped.Some? && e.seen.Some? {
      ReadsAt(s.flows, e.process, ReadHash(e.mapped.value, e.seen.value), w);
    }
  }

  lemma ProcessActs(root: Instance, s: Scan, e: Event, w: Instance)
    requires e.Exec? || e.Fork? || e.FileUnlink? || e.Exit?
    ensures var f, g := FlowOf(s.flows, w), FlowOf(ScanStep(root, s, e).flows, w);
            && g.input == f.input && g.output == f.output && g.renamed == f.renamed
            && (g.hasExec <==> f.hasExec || Executes(e, w))
            && g.tool == (if Executes(e, w) then Some(e.observation.Identity())
                          else if e.Fork? && e.child == w then FlowOf(s.flows, e.parent).tool else f.tool)
  {
  }

  lemma StepReads(root: Instance, s: Scan, e: Event, w: Instance, h: string)
    ensures h in FlowOf(ScanStep(root, s, e).flows, w).input <==>
      h in FlowOf(s.flows, w).input || ReadsContent(e, w, h)
  {
    match e
    case FileOpen(_, _, _, _, _, _) => OpenReads(s, e, w, h);
    case FileMmap(_, _, _, _, _, _, _) => MmapReads(s, e, w, h);
    case FileRename(_, _, _, _, _, _) => RenameActs(s, e, w, h);
    case FileClose(_, _, _, _, _) => CloseActs(s, e, w, h);
    case _ => ProcessActs(root, s, e, w);
  }

  lemma StepProducts(root: Instance, s: Scan, e: Event, w: Instance, h: string)
    ensures var f, g := FlowOf(s.flows, w), FlowOf(ScanStep(root, s, e).flows, w);
            && (h in g.renamed <==> h in f.renamed || RenamesContent(e, w, h))
            && (h in g.output <==> h in f.output || (Credits(s, e).Some? && Credits(s, e).value.0 == w
                                                     && e.seen == Some(Content(h))))
  {
    match e
    case FileRename(_, _, _, _, _, _) => RenameActs(s, e, w, h);
    case FileClose(_, _, _, _, _) => CloseActs(s, e, w, h);
    case FileOpen(_, _, _, _, _, _) => AccessKeepsProducts(root, s, e, w);
    case FileMmap(_, _, _, _, _, _, _) => AccessKeepsProducts(root, s, e, w);
    case _ => ProcessActs(root, s, e, w);
  }

  lemma StepTool(root: Instance, s: Scan, e: Event, w: Instance)
    ensures var f, g := FlowOf(s.flows, w), FlowOf(ScanStep(root, s, e).flows, w);
            && (g.hasExec <==> f.hasExec || Executes(e, w))
            && g.tool == (if Executes(e, w) then Some(e.observation.Identity())
                          else if e.Fork? && e.child == w then FlowOf(s.flows, e.parent).tool else f.tool)
  {
    match e
    case FileRename(_, _, _, _, _, _) => RenameActs(s, e, w, "");
    case FileClose(_, _, _, _, _) => CloseActs(s, e, w, "");
    case FileOpen(_, _, _, _, _, _) => AccessKeepsProducts(root, s, e, w);
    case FileMmap(_, _, _, _, _, _, _) => AccessKeepsProducts(root, s, e, w);
    case _ => ProcessActs(root, s, e, w);
  }

  lemma StepExit(root: Instance, s: Scan, e: Event)
    ensures ScanStep(root, s, e).rootExit == if ExitsRoot(e, root) then Some((e.process, e.exitCode)) else s.rootExit
  {
  }

  // ---------------------------------------------------------------------------------------------
  // Whole traces.

  ghost predicate Happens(events: seq<Event>, p: Event -> bool)
  {
    exists i :: 0 <= i < |events| && p(events[i])
  }

  lemma HappensOneMore(events: seq<Event>, n: nat, p: Event -> bool)
    requires |events| == n + 1
    ensures Happens(events, p) <==> Happens(events[..n], p) || p(events[n])
  {
    if Happens(events, p) && !p(events[n]) {
      var i :| 0 <= i < |events| && p(events[i]);
      assert p(events[..n][i]);
    }
    if Happens(events[..n], p) {
      var i :| 0 <= i < n && p(events[..n][i]);
      assert p(events[i]);
    }
  }

  /** An instance has read a content exactly when some event of the trace read it. */
  lemma {:induction false} ReadIffEvent(root: Instance, events: seq<Event>, w: Instance, h: string)
    ensures h in FlowOf(ScanRun(root, events).flows, w).input <==> Happens(events, e => ReadsContent(e, w, h))
  {
    if events != [] {
      var n := |events| - 1;
      ReadIffEvent(root, events[..n], w, h);
      StepReads(root, ScanRun(root, events[..n]), events[n], w, h);
      HappensOneMore(events, n, e => ReadsContent(e, w, h));
    }
  }

  /** It has renamed a content exactly when some rename of the trace observed it. */
  lemma {:induction false} RenamedIffEvent(root: Instance, events: seq<Event>, w: Instance, h: string)
    ensures h in FlowOf(ScanRun(root, events).flows, w).renamed <==> Happens(events, e => RenamesContent(e, w, h))
  {
    if events != [] {
      var n := |events| - 1;
      RenamedIffEvent(root, events[..n], w, h);
      StepProducts(root, ScanRun(root, events[..n]), events[n], w, h);
      HappensOneMore(events, n, e => RenamesContent(e, w, h));
    }
  }

  lemma CreditsIffHanded(root: Instance, events: seq<Event>, i: nat, w: Instance, h: string)
    requires i < |events|
    ensures var credits := Credits(ScanRun(root, events[..i]), events[i]);
            credits.Some? && credits.value.0 == w && events[i].seen == Some(Content(h)) <==>
            WritesContent(events, i, w, h)
  {
    if events[i].FileClose? {
      OpenWriteBelongsToOpener(root, events[..i], events[i].process.lifetime, events[i].fd, w);
    }
  }

  /** It has written a content exactly when some close of the trace observed it at the end of a write of its own. */
  lemma {:induction false} WrittenIffEvent(root: Instance, events: seq<Event>, w: Instance, h: string)
    ensures h in FlowOf(ScanRun(root, events).flows, w).output <==> exists i: nat :: WritesContent(events, i, w, h)
  {
    if events != [] {
      var n := |events| - 1;
      WrittenIffEvent(root, events[..n], w, h);
      StepProducts(root, ScanRun(root, events[..n]), events[n], w, h);
      CreditsIffHanded(root, events, n, w, h);
      forall i: nat | i < n ensures WritesContent(events, i, w, h) <==> WritesContent(events[..n], i, w, h) {
        assert events[..n][..i] == events[..i];
      }
    }
  }

  /** Its tool is the last image that it or the chain of its forking ancestors executed; an own exec is remembered. */
  lemma {:induction false} ToolIsLastImage(root: Instance, events: seq<Event>, w: Instance)
    ensures FlowOf(ScanRun(root, events).flows, w).tool == ToolOf(events, w)
    ensures FlowOf(ScanRun(root, events).flows, w).hasExec <==> Happens(events, e => Executes(e, w))
    decreases |events|
  {
    if events != [] {
      var n := |events| - 1;
      ToolIsLastImage(root, events[..n], w);
      if events[n].Fork? { ToolIsLastImage(root, events[..n], events[n].parent); }
      StepTool(root, ScanRun(root, events[..n]), events[n], w);
      HappensOneMore(events, n, e => Executes(e, w));
    }
  }

  /** The exit at `i` is the last one of the root. */
  predicate IsLastExit(events: seq<Event>, root: Instance, i: nat)
  {
    i < |events| && ExitsRoot(events[i], root) && forall j :: i < j < |events| ==> !ExitsRoot(events[j], root)
  }

  /** The exit that is remembered is the last one of the root's lifetime. */
  lemma {:induction false} RootExitIsLast(root: Instance, events: seq<Event>, p: Instance, code: int)
    ensures ScanRun(root, events).rootExit == Some((p, code)) <==>
      exists i: nat :: IsLastExit(events, root, i) && events[i].process == p && events[i].exitCode == code
  {
    if events != [] {
      var n := |events| - 1;
      RootExitIsLast(root, events[..n], p, code);
      StepExit(root, ScanRun(root, events[..n]), events[n]);
      if ExitsRoot(events[n], root) {
        assert IsLastExit(events, root, n);
      } else {
        forall i: nat | i < n ensures IsLastExit(events, root, i) <==> IsLastExit(events[..n], root, i) {
          ExitsBefore(events, n, root, i);
        }
      }
    }
  }

  lemma ExitsBefore(events: seq<Event>, n: nat, root: Instance, i: nat)
    requires |events| == n + 1 && i < n && !ExitsRoot(events[n], root)
    ensures IsLastExit(events, root, i) <==> IsLastExit(events[..n], root, i)
  {
    assert forall j :: i < j < n ==> events[..n][j] == events[j];
  }

  // ---------------------------------------------------------------------------------------------
  // Who wrote which path.

  /** The event records a writer of a path: a close the opener of the file, a rename itself of its destination. */
  function Recorded(events: seq<Event>, i: nat): Option<(Instance, string)>
    requires i < |events|
  {
    match events[i]
    case FileClose(process, fd, closed, external, seen) =>
      (match OwnerOf(events[..i], process.lifetime, fd)
       case None => None
       case Some(o) =>
         if external || seen.None? then None
         else Some((o.process, if closed.Some? then closed.value else o.path)))
    case FileRename(process, _, to, _, external, _) => if external then None else Some((process, to))
    case _ => None
  }

  /** Event `i` records `w` at `p`, and renames after it turn `p` into `q`. */
  ghost predicate WroteAt(events: seq<Event>, i: nat, w: Instance, p: string, q: string)
  {
    i < |events| && Recorded(events, i) == Some((w, p)) && Reaches(RenamesOf(events[i + 1..]), p, q)
  }

  ghost predicate Wrote(events: seq<Event>, w: Instance, q: string)
  {
    exists i: nat, p :: WroteAt(events, i, w, p, q)
  }

  lemma {:induction false} ReachesOneMore(renames: Renames, from: string, to: string, p: string, q: string)
    ensures Reaches(renames + [(from, to)], p, q) <==>
      Reaches(renames, p, q) || (Under(q, to) && Reaches(renames, p, from + q[|to|..]))
    decreases renames
  {
    var longer := renames + [(from, to)];
    if renames == [] {
      assert longer[1..] == [];
      if Under(p, from) { SourceOfImage(from, to, p); }
      if Under(q, to) { ImageOfSource(from, to, q); }
    } else {
      assert longer[1..] == renames[1..] + [(from, to)];
      ReachesOneMore(renames[1..], from, to, p, q);
      if Under(p, renames[0].0) {
        ReachesOneMore(renames[1..], from, to, renames[0].1 + p[|renames[0].0|..], q);
      }
    }
  }

  lemma LaterEvents(events: seq<Event>, n: nat, i: nat)
    requires |events| == n + 1 && i < n
    ensures RenamesOf(events[i + 1..]) == RenamesOf(events[..n][i + 1..]) + RenameOf(events[n])
  {
    var later := events[i + 1..];
    assert later[..|later| - 1] == events[..n][i + 1..];
  }

  lemma RecordedBefore(events: seq<Event>, n: nat, i: nat)
    requires |events| == n + 1 && i < n
    ensures Recorded(events[..n], i) == Recorded(events, i)
  {
    assert events[..n][..i] == events[..i];
  }

  /** A writer of an earlier event stays, and a rename also leads to its image. */
  lemma EarlierWriter(events: seq<Event>, n: nat, i: nat, w: Instance, p: string, q: string)
    requires |events| == n + 1 && i < n
    ensures WroteAt(events, i, w, p, q) <==>
      WroteAt(events[..n], i, w, p, q)
      || (RenameOf(events[n]) != [] && Under(q, events[n].to)
          && WroteAt(events[..n], i, w, p, events[n].from + q[|events[n].to|..]))
  {
    RecordedBefore(events, n, i);
    LaterEvents(events, n, i);
    var renames := RenamesOf(events[..n][i + 1..]);
    if RenameOf(events[n]) == [] {
      assert renames + [] == renames;
    } else {
      ReachesOneMore(renames, events[n].from, events[n].to, p, q);
    }
  }

  lemma LastWriter(events: seq<Event>, n: nat, w: Instance, q: string)
    requires |events| == n + 1
    ensures (exists p :: WroteAt(events, n, w, p, q)) <==> Recorded(events, n) == Some((w, q))
  {
    assert events[n + 1..] == [];
    if Recorded(events, n) == Some((w, q)) { assert WroteAt(events, n, w, q, q); }
  }

  lemma WroteOneMore(events: seq<Event>, n: nat, w: Instance, q: string)
    requires |events| == n + 1
    ensures Wrote(events, w, q) <==>
      || Recorded(events, n) == Some((w, q)) || Wrote(events[..n], w, q)
      || (RenameOf(events[n]) != [] && Under(q, events[n].to)
          && Wrote(events[..n], w, events[n].from + q[|events[n].to|..]))
  {
    LastWriter(events, n, w, q);
    forall i: nat, p | i < n
      ensures WroteAt(events, i, w, p, q) <==>
        WroteAt(events[..n], i, w, p, q)
        || (RenameOf(events[n]) != [] && Under(q, events[n].to)
            && WroteAt(events[..n], i, w, p, events[n].from + q[|events[n].to|..]))
    {
      EarlierWriter(events, n, i, w, p, q);
    }
  }

  lemma CreditAt(m: Writers, k: string, w: Instance, q: string)
    ensures Get(Credit(m, k, w), q) == Get(m, q) + if q == k then {w} else {}
  {
  }

  lemma RenameRecords(s: Scan, e: Event, w: Instance, q: string)
    requires e.FileRename? && !e.external
    ensures w in Get(OnRename(s, e).byPath, q) <==>
      (w == e.process && q == e.to) || w in Get(s.byPath, q)
      || (Under(q, e.to) && w in Get(s.byPath, e.from + q[|e.to|..]))
  {
    AliasAt(s.byPath, e.from, e.to, q);
    CreditAt(Alias(s.byPath, e.from, e.to), e.to, e.process, q);
  }

  lemma CloseRecords(s: Scan, e: Event, w: Instance, q: string)
    requires e.FileClose?
    ensures w in Get(OnClose(s, e).byPath, q) <==> Credits(s, e) == Some((w, q)) || w in Get(s.byPath, q)
  {
    if Credits(s, e).Some? { CreditAt(s.byPath, Credits(s, e).value.1, Credits(s, e).value.0, q); }
  }

  lemma StepRecords(root: Instance, events: seq<Event>, n: nat, w: Instance, q: string)
    requires |events| == n + 1
    ensures var s, e := ScanRun(root, events[..n]), events[n];
            w in Get(ScanStep(root, s, e).byPath, q) <==>
              || Recorded(events, n) == Some((w, q)) || w in Get(s.byPath, q)
              || (RenameOf(e) != [] && Under(q, e.to) && w in Get(s.byPath, e.from + q[|e.to|..]))
  {
    var s, e := ScanRun(root, events[..n]), events[n];
    match e
    case FileClose(process, fd, _, _, _) =>
      PendingIsOwner(root, events[..n], process.lifetime, fd);
      CloseRecords(s, e, w, q);
    case FileRename(_, _, _, _, external, _) => if !external { RenameRecords(s, e, w, q); }
    case _ =>
  }

  /** During the scan exactly those are recorded at a path who wrote what later renames turned into it. */
  lemma {:induction false} RecordedIffWrote(root: Instance, events: seq<Event>, w: Instance, q: string)
    ensures w in Get(ScanRun(root, events).byPath, q) <==> Wrote(events, w, q)
    decreases |events|
  {
    if events != [] {
      var n := |events| - 1;
      RecordedIffWrote(root, events[..n], w, q);
      if events[n].FileRename? && Under(q, events[n].to) {
        RecordedIffWrote(root, events[..n], w, events[n].from + q[|events[n].to|..]);
      }
      StepRecords(root, events, n, w, q);
      WroteOneMore(events, n, w, q);
    }
  }

  /**
   The writers by path from which the walk starts: exactly those whose close or rename recorded a path that renames
   after it, and then any of the whole trace once more, turn into the path.
   */
  lemma FinalWritersIff(root: Instance, events: seq<Event>, w: Instance, q: string)
    ensures w in Get(FinalWriters(root, events), q) <==>
      exists p :: Wrote(events, w, p) && Reaches(RenamesOf(events), p, q)
  {
    ScanCollectsRenames(root, events);
    FixupIsRenameClosure(ScanRun(root, events).byPath, RenamesOf(events), w, q);
    forall p ensures w in Get(ScanRun(root, events).byPath, p) <==> Wrote(events, w, p) {
      RecordedIffWrote(root, events, w, p);
    }
  }
}
