/** No unlink is lost silently either: kernel handlers, ring buffer and collector together, as for renames. */
module ZeroLossUnlinks {
  import opened Sequences
  import opened Text
  import opened Trace
  import opened Records
  import opened Collector
  import opened CollectorRenames
  import opened CollectorProcesses
  import CollectorCalls
  import CollectorCounts
  import opened Kernel
  import opened KernelPairs
  import opened KernelLosses
  import opened ZeroLoss

  /** An unlink by a process of the build. */
  predicate IsBuildUnlink(d: Done)
  {
    d.tracked && d.call.UnlinkCall?
  }

  predicate IsUnlinkOf(r: Record, key: RenameKey)
  {
    r.UnlinkRecord? && (r.pid, r.opId) == key
  }

  /** The only drained unlink record with this thread id and operation id. */
  predicate OnlyUnlink(order: seq<Drained>, key: RenameKey, i: nat)
  {
    forall j :: 0 <= j < |order| && IsUnlinkOf(order[j].record, key) ==> j == i
  }

  /** Position `p` of the trace tells this unlink. */
  predicate TellsUnlink(trace: seq<Event>, p: nat, process: Instance, path: string, flags: U32, found: Observation)
  {
    p < |trace| && trace[p] == FileUnlink(process, path, flags, false, found)
  }

  /**
   The drained record at `i` is that of `d` and no other is.  The finished trace tells it at the place where processing
   put it: by the process that the records before stand for, on the captured path, with what the record observed.
   */
  predicate UnlinkTraced(rootPid: U32, exitCode: int, order: seq<Drained>, prefixes: seq<string>, d: Done, i: nat)
  {
    && IsBuildUnlink(d) && d.stamp.Some? && i < |order|
    && order[i].record == Removed(d.key, d.call, true, d.stamp.value) && OnlyUnlink(order, KeyOf(d), i)
    && DecodePath(Capture(d.call.path)).Some?
    && TellsUnlink(Finish(At(rootPid, order, prefixes, |order|), rootPid, exitCode).events,
                   |At(rootPid, order, prefixes, i).events|, ProcessOf(rootPid, order[..i], d.key.0),
                   ResolvePath(DecodePath(Capture(d.call.path)).value, order[i].resolved), d.call.flags, order[i].now)
  }

  lemma UnlinkIsUnique(ring: seq<Record>, order: seq<Drained>, d: Done, i: nat)
    requires PidsAreUnambiguous(ring) && Ordered(Mine(ring, d.key)) && multiset(RecordsOf(order)) == multiset(ring)
    requires IsBuildUnlink(d) && DoneClean(ring, d) && i < |order|
    requires order[i].record == Removed(d.key, d.call, true, d.stamp.value)
    ensures OnlyUnlink(order, KeyOf(d), i)
  {
    MineIsInRing(ring, d.key, order[i].record);
    forall j | 0 <= j < |order| && IsUnlinkOf(order[j].record, KeyOf(d)) ensures j == i {
      OneRecordOfAHalf(ring, order, d.key, order[i].record, i, j);
    }
  }

  /** An event that is not an exit stays where processing its record put it. */
  lemma EventSurvives(rootPid: U32, exitCode: int, order: seq<Drained>, prefixes: seq<string>, i: nat)
    requires i < |order|
    requires |At(rootPid, order, prefixes, i).events| < |At(rootPid, order, prefixes, i + 1).events|
    requires !At(rootPid, order, prefixes, i + 1).events[|At(rootPid, order, prefixes, i).events|].Exit?
    ensures var p := |At(rootPid, order, prefixes, i).events|;
            var trace := Finish(At(rootPid, order, prefixes, |order|), rootPid, exitCode).events;
            p < |trace| && trace[p] == At(rootPid, order, prefixes, i + 1).events[p]
  {
    CountsGrow(rootPid, order, prefixes, i + 1, |order|);
    FinishKeepsEvents(At(rootPid, order, prefixes, |order|), rootPid, exitCode);
  }

  lemma UnlinkRecordIsTraced(rootPid: U32, order: seq<Drained>, prefixes: seq<string>, i: nat)
    requires i < |order| && order[i].record.UnlinkRecord? && !order[i].record.external
    requires DecodePath(order[i].record.path).Some?
    ensures var r := order[i].record;
            TellsUnlink(At(rootPid, order, prefixes, i + 1).events, |At(rootPid, order, prefixes, i).events|,
                        ProcessOf(rootPid, order[..i], r.tgid),
                        ResolvePath(DecodePath(r.path).value, order[i].resolved), r.flags, order[i].now)
  {
    var drained := order[..i + 1];
    NestedPrefix(order, i + 1, i);
    CollectorCalls.RecordAdds(rootPid, drained, i, prefixes);
    var c, c1 := At(rootPid, order, prefixes, i), At(rootPid, order, prefixes, i + 1);
    assert CollectorCalls.Told(c1.events[|c.events| + 0]) ==
      CollectorCalls.CallsAt(rootPid, order[..i], order[i], prefixes)[0];
  }

  /** A submitted unlink is traced. */
  lemma SubmittedUnlinkIsTraced(rootPid: U32, exitCode: int, ring: seq<Record>, order: seq<Drained>,
      prefixes: seq<string>, d: Done) returns (i: nat)
    requires multiset(RecordsOf(order)) == multiset(ring) && PidsAreUnambiguous(ring)
    requires IsBuildUnlink(d) && DoneClean(ring, d) && Ordered(Mine(ring, d.key))
    requires Finish(Collect(New(rootPid), order, prefixes), rootPid, exitCode).malformed == 0
    ensures UnlinkTraced(rootPid, exitCode, order, prefixes, d, i)
  {
    var r := Removed(d.key, d.call, true, d.stamp.value);
    MineIsInRing(ring, d.key, r);
    i := DrainedSomewhere(ring, order, r);
    UnlinkIsUnique(ring, order, d, i);
    CollectorCounts.NothingMalformedIff(rootPid, order, prefixes, exitCode);
    assert !CollectorCounts.IsMalformed(order[..i], order[i]);
    UnlinkRecordIsTraced(rootPid, order, prefixes, i);
    EventSurvives(rootPid, exitCode, order, prefixes, i);
  }

  /** A traced unlink was submitted. */
  lemma TracedUnlinkIsSubmitted(rootPid: U32, exitCode: int, ring: seq<Record>, order: seq<Drained>,
      prefixes: seq<string>, d: Done, i: nat)
    requires multiset(RecordsOf(order)) == multiset(ring) && UnlinkTraced(rootPid, exitCode, order, prefixes, d, i)
    ensures DoneClean(ring, d)
  {
    DrainedIsInRing(ring, order, i);
    InRingIsMine(ring, d.key, order[i].record);
  }

  /**
   For every interleaving of threads, every answer of the system and every order of draining: when drops plus malformed
   records come to zero, a completed unlink by a process of the build is in the trace, exactly once and as its own, if
   and only if no update of the counter was refused in its own handlers.
   */
  lemma NoUnlinkIsLost(cfg: Config, run: seq<Step>, rootPid: U32, exitCode: int, order: seq<Drained>,
      prefixes: seq<string>, e: nat)
    requires |run| <= U64_MAX && e < |Execute(cfg, run).done| && IsBuildUnlink(Execute(cfg, run).done[e])
    requires multiset(RecordsOf(order)) == multiset(Execute(cfg, run).ring)
    requires PidsAreUnambiguous(Execute(cfg, run).ring)
    requires Execute(cfg, run).drops + Finish(Collect(New(rootPid), order, prefixes), rootPid, exitCode).malformed == 0
    ensures e < |LossesOf(cfg, run).hidden|
    ensures (exists i: nat :: UnlinkTraced(rootPid, exitCode, order, prefixes, Execute(cfg, run).done[e], i)) <==>
      !LossesOf(cfg, run).hidden[e]
  {
    var s := Execute(cfg, run);
    var d := s.done[e];
    SubmittedIff(cfg, run);
    SubmittedAtZeroIff(cfg, run, e);
    if DoneClean(s.ring, d) {
      var i := SubmittedUnlinkIsTraced(rootPid, exitCode, s.ring, order, prefixes, d);
    }
    if i: nat :| UnlinkTraced(rootPid, exitCode, order, prefixes, d, i) {
      TracedUnlinkIsSubmitted(rootPid, exitCode, s.ring, order, prefixes, d, i);
    }
  }
}
