/**
 The collector's descriptor table is a function of the trace: whoever reads the trace can replay it, and every mapping
 and every close says exactly what the replay says about its descriptor.
 */
module CollectorReplay {
  import opened Sequences
  import opened Text
  import opened Trace
  import opened Paths
  import opened Descriptors
  import opened Records
  import opened Collector
  import opened CollectorRenames

  /** The table as the trace tells it; `reversing` after the first event of an exchange: the second moves nothing. */
  datatype Replay = Replay(files: map<Slot, OpenFile>, reversing: bool)

  function Follow(r: Replay, e: Event): Replay
  {
    match e
    case FileOpen(p, path, flags, fd, _, o) =>
      if fd < 0 then r else r.(files := r.files[(p.lifetime, fd) := OpenFile(path, flags, Some(o))])
    case FileClose(p, fd, _, _, _) => r.(files := r.files - {(p.lifetime, fd)})
    case Fork(parent, child) => r.(files := Inherit(r.files, parent.lifetime, child.lifetime))
    case FileRename(_, from, to, flags, _, _) =>
      if r.reversing then r.(reversing := false)
      else Replay(MoveOpenFiles(r.files, from, to, IsExchange(flags)), IsExchange(flags))
    case _ => r
  }

  function Replayed(events: seq<Event>): Replay
  {
    if events == [] then Replay(map[], false)
    else Follow(Replayed(events[..|events| - 1]), events[|events| - 1])
  }

  /** A mapping of a descriptor that is open names its file and the content seen when it was opened. */
  predicate MappingExplained(files: map<Slot, OpenFile>, e: Event)
    requires e.FileMmap?
  {
    var slot := (e.process.lifetime, e.fd);
    if slot in files
    then e.mapped == Some(files[slot].path) && e.seen == files[slot].cached && e.seen.Some?
    else e.mapped.None? && e.seen.None? && !e.external
  }

  /** A close names the file, and what it finds there exactly if the descriptor could write. */
  predicate CloseExplained(files: map<Slot, OpenFile>, e: Event)
    requires e.FileClose?
  {
    var slot := (e.process.lifetime, e.fd);
    if slot in files
    then e.closed == Some(files[slot].path) && (e.seen.Some? <==> CanWrite(files[slot].flags))
    else e.closed.None? && e.seen.None? && !e.external
  }

  /** External events on named paths are watched, a truncating open finds nothing, the table explains the rest. */
  predicate Explained(r: Replay, e: Event, prefixes: seq<string>)
  {
    match e
    case FileOpen(_, path, flags, fd, external, o) =>
      && (external ==> Watched(path, prefixes))
      && (fd >= 0 && IsTruncating(flags) ==> o == EMPTY_CONTENT)
    case FileMmap(_, _, _, _, _, _, _) => MappingExplained(r.files, e)
    case FileClose(_, _, _, _, _) => CloseExplained(r.files, e)
    case FileRename(_, from, to, _, external, _) => external ==> Watched(from, prefixes) || Watched(to, prefixes)
    case FileUnlink(_, path, _, external, _) => external ==> Watched(path, prefixes)
    case _ => true
  }

  ghost predicate AllExplained(events: seq<Event>, prefixes: seq<string>)
  {
    forall i :: 0 <= i < |events| ==> Explained(Replayed(events[..i]), events[i], prefixes)
  }

  ghost predicate AllCached(fds: map<Slot, OpenFile>)
  {
    forall slot :: slot in fds ==> fds[slot].cached.Some?
  }

  /** The table is the replay of the trace. */
  ghost predicate Explains(fds: map<Slot, OpenFile>, events: seq<Event>, prefixes: seq<string>)
  {
    Replayed(events) == Replay(fds, false) && AllCached(fds) && AllExplained(events, prefixes)
  }

  ghost predicate ExplainsState(c: Coll, prefixes: seq<string>)
  {
    Explains(c.fds, c.events, prefixes)
  }

  // ---------------------------------------------------------------------- one record

  lemma ReplayOneMore(events: seq<Event>, e: Event)
    ensures Replayed(events + [e]) == Follow(Replayed(events), e)
  {
    assert (events + [e])[..|events|] == events;
  }

  lemma ExplainedOneMore(events: seq<Event>, e: Event, prefixes: seq<string>)
    requires AllExplained(events, prefixes) && Explained(Replayed(events), e, prefixes)
    ensures AllExplained(events + [e], prefixes)
  {
    var more := events + [e];
    forall i | 0 <= i < |more| ensures Explained(Replayed(more[..i]), more[i], prefixes) {
      assert more[..i] == events[..i];
      if i == |events| { WholePrefix(events); }
    }
  }

  lemma EventIsExplained(fds: map<Slot, OpenFile>, events: seq<Event>, e: Event, prefixes: seq<string>)
    requires Explains(fds, events, prefixes) && Explained(Replay(fds, false), e, prefixes)
    requires !Follow(Replay(fds, false), e).reversing && AllCached(Follow(Replay(fds, false), e).files)
    ensures Explains(Follow(Replay(fds, false), e).files, events + [e], prefixes)
  {
    ReplayOneMore(events, e);
    ExplainedOneMore(events, e, prefixes);
  }

  lemma CurrentKeepsTable(c: Coll, pid: U32)
    ensures CurrentProcess(c, pid).0.fds == c.fds && CurrentProcess(c, pid).0.events == c.events
  {
  }

  lemma OpenIsExplained(c: Coll, d: Drained, prefixes: seq<string>)
    requires d.record.OpenRecord? && ExplainsState(c, prefixes)
    ensures ExplainsState(OnOpen(c, d, prefixes), prefixes)
  {
    var r := d.record;
    CurrentKeepsTable(c, r.tgid);
    if !r.external || Watched(d.resolved, prefixes) {
      var o := if r.fd >= 0 && IsTruncating(r.flags) then EMPTY_CONTENT else d.now;
      EventIsExplained(c.fds, c.events,
                       FileOpen(CurrentProcess(c, r.tgid).1, d.resolved, r.flags, r.fd, r.external, o), prefixes);
    }
  }

  lemma CloseIsExplained(c: Coll, d: Drained, prefixes: seq<string>)
    requires d.record.CloseRecord? && ExplainsState(c, prefixes)
    ensures ExplainsState(OnClose(c, d), prefixes)
  {
    var r, p := d.record, CurrentProcess(c, d.record.tgid).1;
    var slot := (p.lifetime, r.fd);
    CurrentKeepsTable(c, r.tgid);
    if slot in c.fds {
      var seen := if CanWrite(c.fds[slot].flags) then Some(d.now) else None;
      EventIsExplained(c.fds, c.events, FileClose(p, r.fd, Some(c.fds[slot].path), r.external, seen), prefixes);
    } else if !r.external {
      assert c.fds - {slot} == c.fds;
      EventIsExplained(c.fds, c.events, FileClose(p, r.fd, None, false, None), prefixes);
    }
  }

  lemma MmapIsExplained(c: Coll, d: Drained, prefixes: seq<string>)
    requires d.record.MmapRecord? && ExplainsState(c, prefixes)
    ensures ExplainsState(OnMmap(c, d), prefixes)
  {
    var r, p := d.record, CurrentProcess(c, d.record.tgid).1;
    var slot := (p.lifetime, r.fd);
    CurrentKeepsTable(c, r.tgid);
    if slot in c.fds {
      var f := c.fds[slot];
      assert c.fds[slot := f.(cached := Some(f.cached.value))] == c.fds;
      EventIsExplained(c.fds, c.events, FileMmap(p, r.fd, r.prot, r.flags, Some(f.path), r.external, f.cached),
                       prefixes);
    } else if !r.external {
      EventIsExplained(c.fds, c.events, FileMmap(p, r.fd, r.prot, r.flags, None, false, None), prefixes);
    }
  }

  lemma UnlinkIsExplained(c: Coll, d: Drained, prefixes: seq<string>)
    requires d.record.UnlinkRecord? && ExplainsState(c, prefixes)
    ensures ExplainsState(OnUnlink(c, d, prefixes).0, prefixes)
  {
    var r := d.record;
    CurrentKeepsTable(c, r.tgid);
    if DecodePath(r.path).Some? {
      var path := ResolvePath(DecodePath(r.path).value, d.resolved);
      if !r.external || Watched(path, prefixes) {
        EventIsExplained(c.fds, c.events,
                         FileUnlink(CurrentProcess(c, r.tgid).1, path, r.flags, r.external, d.now), prefixes);
      }
    }
  }

  /** The forward event moves the files; for an exchange the reverse one follows and moves nothing. */
  lemma RenameIsExplained(fds: map<Slot, OpenFile>, events: seq<Event>, p: PendingRename, to: string, external: bool,
      d: Drained, prefixes: seq<string>)
    requires Explains(fds, events, prefixes)
    requires external ==> Watched(p.from, prefixes) || Watched(to, prefixes)
    ensures Explains(MoveOpenFiles(fds, p.from, to, IsExchange(p.flags)), events + RenameEvents(p, to, external, d),
                     prefixes)
  {
    var forward := FileRename(p.process, p.from, to, p.flags, external, d.now);
    ReplayOneMore(events, forward);
    ExplainedOneMore(events, forward, prefixes);
    if IsExchange(p.flags) {
      var back := FileRename(p.process, to, p.from, p.flags, external, d.other);
      ReplayOneMore(events + [forward], back);
      ExplainedOneMore(events + [forward], back, prefixes);
      Assoc(events, [forward], [back]);
    } else {
      AppendNothing([forward]);
    }
  }

  lemma DestinationIsExplained(c: Coll, d: Drained, prefixes: seq<string>)
    requires d.record.RenameDestination? && ExplainsState(c, prefixes)
    ensures ExplainsState(OnRenameDestination(c, d, prefixes).0, prefixes)
  {
    var r := d.record;
    var key := (r.pid, r.opId);
    if key in c.renames && DecodePath(r.path).Some? {
      var p, to := c.renames[key], ResolvePath(DecodePath(r.path).value, d.resolved);
      var external := p.external || r.external;
      if !external || Watched(p.from, prefixes) || Watched(to, prefixes) {
        RenameIsExplained(c.fds, c.events, p, to, external, d, prefixes);
      }
    }
  }

  lemma ForkIsExplained(c: Coll, d: Drained, prefixes: seq<string>)
    requires d.record.ForkRecord? && ExplainsState(c, prefixes)
    ensures ExplainsState(OnFork(c, d), prefixes)
  {
    var (_, parent, child) := ForkProcess(c, d.record.parent, d.record.child);
    CurrentKeepsTable(c, d.record.parent);
    EventIsExplained(c.fds, c.events, Fork(parent, child), prefixes);
  }

  lemma ExecIsExplained(c: Coll, d: Drained, prefixes: seq<string>)
    requires d.record.ExecRecord? && ExplainsState(c, prefixes)
    ensures ExplainsState(OnExec(c, d), prefixes)
  {
    var p := ExecProcess(c, d.record.tgid).1;
    CurrentKeepsTable(c, d.record.tgid);
    if p.Some? { EventIsExplained(c.fds, c.events, Exec(p.value, d.now), prefixes); }
  }

  lemma ExitIsExplained(c: Coll, d: Drained, prefixes: seq<string>)
    requires d.record.ExitRecord? && ExplainsState(c, prefixes)
    ensures ExplainsState(OnExit(c, d), prefixes)
  {
    CurrentKeepsTable(c, d.record.tgid);
    EventIsExplained(c.fds, c.events, Exit(CurrentProcess(c, d.record.tgid).1, d.record.exitCode), prefixes);
  }

  lemma FileRecordIsExplained(c: Coll, d: Drained, prefixes: seq<string>)
    requires ExplainsState(c, prefixes)
    requires d.record.OpenRecord? || d.record.CloseRecord? || d.record.MmapRecord? || d.record.UnlinkRecord?
    ensures ExplainsState(ProcessEvent(c, d, prefixes).0, prefixes)
  {
    match d.record
    case OpenRecord(_, _, _, _) => OpenIsExplained(c, d, prefixes);
    case CloseRecord(_, _, _) => CloseIsExplained(c, d, prefixes);
    case MmapRecord(_, _, _, _, _) => MmapIsExplained(c, d, prefixes);
    case UnlinkRecord(_, _, _, _, _, _, _) => UnlinkIsExplained(c, d, prefixes);
  }

  lemma RenameRecordIsExplained(c: Coll, d: Drained, prefixes: seq<string>)
    requires ExplainsState(c, prefixes) && (d.record.RenameSource? || d.record.RenameDestination?)
    ensures ExplainsState(ProcessEvent(c, d, prefixes).0, prefixes)
  {
    if d.record.RenameSource? {
      CurrentKeepsTable(c, d.record.tgid);
    } else {
      DestinationIsExplained(c, d, prefixes);
    }
  }

  lemma RecordIsExplained(c: Coll, d: Drained, prefixes: seq<string>)
    requires ExplainsState(c, prefixes)
    ensures ExplainsState(CollStep(c, d, prefixes), prefixes)
  {
    match d.record
    case RenameSource(_, _, _, _, _, _, _) => RenameRecordIsExplained(c, d, prefixes);
    case RenameDestination(_, _, _, _, _, _, _) => RenameRecordIsExplained(c, d, prefixes);
    case ExecRecord(_) => ExecIsExplained(c, d, prefixes);
    case ForkRecord(_, _) => ForkIsExplained(c, d, prefixes);
    case ExitRecord(_, _) => ExitIsExplained(c, d, prefixes);
    case Uninterpretable =>
    case _ => FileRecordIsExplained(c, d, prefixes);
  }

  // ---------------------------------------------------------------------- whole runs

  /** In every reachable state the table is the replay of the trace, and every event is explained by those before it. */
  lemma {:induction false} TableIsReplayed(rootPid: U32, drained: seq<Drained>, prefixes: seq<string>)
    ensures ExplainsState(Collect(New(rootPid), drained, prefixes), prefixes)
  {
    if drained != [] {
      var n := |drained| - 1;
      TableIsReplayed(rootPid, drained[..n], prefixes);
      RecordIsExplained(Collect(New(rootPid), drained[..n], prefixes), drained[n], prefixes);
    }
  }

  /** Equal but for the contents of exit events. */
  predicate SameButExits(a: seq<Event>, b: seq<Event>)
  {
    |a| == |b| && forall i :: 0 <= i < |a| ==> a[i] == b[i] || (a[i].Exit? && b[i].Exit?)
  }

  lemma {:induction false} ExitsReplayAlike(a: seq<Event>, b: seq<Event>, n: nat)
    requires SameButExits(a, b) && n <= |a|
    ensures Replayed(a[..n]) == Replayed(b[..n])
  {
    if n > 0 {
      ExitsReplayAlike(a, b, n - 1);
      NestedPrefix(a, n, n - 1);
      NestedPrefix(b, n, n - 1);
      assert a[..n][n - 1] == a[n - 1] && b[..n][n - 1] == b[n - 1];
    }
  }

  lemma ExitsExplainAlike(a: seq<Event>, b: seq<Event>, prefixes: seq<string>)
    requires SameButExits(a, b) && AllExplained(a, prefixes)
    ensures AllExplained(b, prefixes)
  {
    forall i | 0 <= i < |b| ensures Explained(Replayed(b[..i]), b[i], prefixes) {
      ExitsReplayAlike(a, b, i);
      assert Explained(Replayed(a[..i]), a[i], prefixes);
    }
  }

  /** Every event of the finished trace is explained by the trace before it. */
  lemma TraceExplainsItself(rootPid: U32, drained: seq<Drained>, prefixes: seq<string>, exitCode: int)
    ensures AllExplained(Finish(Collect(New(rootPid), drained, prefixes), rootPid, exitCode).events, prefixes)
  {
    var c := Collect(New(rootPid), drained, prefixes);
    var before, after := c.events, Finish(c, rootPid, exitCode).events;
    var i := LastExit(before, rootPid);
    TableIsReplayed(rootPid, drained, prefixes);
    FinishKeepsEvents(c, rootPid, exitCode);
    if i < |before| {
      ExitsExplainAlike(before, after, prefixes);
    } else {
      ExplainedOneMore(before, after[i], prefixes);
      assert after == before + [after[i]];
    }
  }

  // ---------------------------------------------------------------------- one descriptor over time

  /** The event opens or closes the slot, or gives its lifetime a parent's descriptors. */
  predicate Touches(e: Event, slot: Slot)
  {
    match e
    case FileOpen(p, _, _, fd, _, _) => (p.lifetime, fd) == slot
    case FileClose(p, fd, _, _, _) => (p.lifetime, fd) == slot
    case Fork(_, child) => child.lifetime == slot.0
    case _ => false
  }

  lemma UntouchedIsKept(r: Replay, e: Event, slot: Slot)
    requires !Touches(e, slot) && slot in r.files
    ensures slot in Follow(r, e).files && Follow(r, e).files[slot].cached == r.files[slot].cached
    ensures Follow(r, e).files[slot].flags == r.files[slot].flags
  {
  }

  lemma {:induction false} UntouchedStays(events: seq<Event>, slot: Slot, i: nat, j: nat)
    requires i <= j <= |events| && slot in Replayed(events[..i]).files
    requires forall k :: i <= k < j ==> !Touches(events[k], slot)
    ensures slot in Replayed(events[..j]).files
    ensures Replayed(events[..j]).files[slot].cached == Replayed(events[..i]).files[slot].cached
    ensures Replayed(events[..j]).files[slot].flags == Replayed(events[..i]).files[slot].flags
  {
    if i < j {
      UntouchedStays(events, slot, i, j - 1);
      OneMore(events, j - 1);
      ReplayOneMore(events[..j - 1], events[j - 1]);
      UntouchedIsKept(Replayed(events[..j - 1]), events[j - 1], slot);
    }
  }

  /** From its open to its close a descriptor reports one content, whatever is mapped, renamed or written meanwhile. */
  lemma MappingsReportTheOpen(events: seq<Event>, prefixes: seq<string>, i: nat, j: nat)
    requires AllExplained(events, prefixes) && i < j < |events|
    requires events[i].FileOpen? && events[i].fd >= 0
    requires var slot := (events[i].process.lifetime, events[i].fd);
             && (forall k :: i < k < j ==> !Touches(events[k], slot))
             && (events[j].FileMmap? || events[j].FileClose?) && (events[j].process.lifetime, events[j].fd) == slot
    ensures events[j].FileMmap? ==> events[j].seen == Some(events[i].observation)
    ensures events[j].FileClose? ==> events[j].closed.Some? && (events[j].seen.Some? <==> CanWrite(events[i].flags))
  {
    var slot := (events[i].process.lifetime, events[i].fd);
    OneMore(events, i);
    ReplayOneMore(events[..i], events[i]);
    UntouchedStays(events, slot, i + 1, j);
    assert Explained(Replayed(events[..j]), events[j], prefixes);
  }

  /** After a close the slot is free: until it is opened or inherited again, its mappings and closes name no file. */
  lemma ClosedSlotIsFree(events: seq<Event>, prefixes: seq<string>, i: nat, j: nat)
    requires AllExplained(events, prefixes) && i < j < |events| && events[i].FileClose?
    requires var slot := (events[i].process.lifetime, events[i].fd);
             && (forall k :: i < k < j ==> !Touches(events[k], slot))
             && (events[j].FileMmap? || events[j].FileClose?) && (events[j].process.lifetime, events[j].fd) == slot
    ensures events[j].seen.None? && !events[j].external
    ensures if events[j].FileMmap? then events[j].mapped.None? else events[j].closed.None?
  {
    var slot := (events[i].process.lifetime, events[i].fd);
    OneMore(events, i);
    ReplayOneMore(events[..i], events[i]);
    UntouchedStaysFree(events, slot, i + 1, j);
    assert Explained(Replayed(events[..j]), events[j], prefixes);
  }

  lemma {:induction false} UntouchedStaysFree(events: seq<Event>, slot: Slot, i: nat, j: nat)
    requires i <= j <= |events| && slot !in Replayed(events[..i]).files
    requires forall k :: i <= k < j ==> !Touches(events[k], slot)
    ensures slot !in Replayed(events[..j]).files
  {
    if i < j {
      UntouchedStaysFree(events, slot, i, j - 1);
      OneMore(events, j - 1);
      ReplayOneMore(events[..j - 1], events[j - 1]);
    }
  }
}
