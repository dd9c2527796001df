/** What the count of malformed records counts: the unreadable records, and in the end the renames left half done. */
module CollectorCounts {
  import opened Sequences
  import opened Text
  import opened Trace
  import opened Records
  import opened Collector
  import opened CollectorRenames
  import opened CollectorProcesses
  import opened CollectorCalls

  /**
   A record that tells nothing: one of no known kind, one of a rename or unlink without a readable path, or a
   destination for which no source waits.
   */
  predicate IsMalformed(before: seq<Drained>, d: Drained)
  {
    match d.record
    case Uninterpretable => true
    case RenameSource(_, _, _, _, _, _, path) => DecodePath(path).None?
    case RenameDestination(pid, _, opId, _, _, _, path) =>
      DecodePath(path).None? || PendingSource(before, (pid, opId)).None?
    case UnlinkRecord(_, _, _, _, _, _, path) => DecodePath(path).None?
    case _ => false
  }

  function MalformedRecords(drained: seq<Drained>): nat
  {
    if drained == [] then 0
    else
      var n := |drained| - 1;
      MalformedRecords(drained[..n]) + if IsMalformed(drained[..n], drained[n]) then 1 else 0
  }

  lemma UnlinkIsFine(c: Coll, d: Drained, prefixes: seq<string>)
    requires d.record.UnlinkRecord?
    ensures OnUnlink(c, d, prefixes).1 <==> DecodePath(d.record.path).Some?
  {
  }

  lemma DestinationIsFine(c: Coll, d: Drained, prefixes: seq<string>)
    requires d.record.RenameDestination?
    ensures OnRenameDestination(c, d, prefixes).1 <==>
      DecodePath(d.record.path).Some? && (d.record.pid, d.record.opId) in c.renames
  {
  }

  lemma RecordIsFine(rootPid: U32, before: seq<Drained>, d: Drained, prefixes: seq<string>)
    ensures ProcessEvent(Collect(New(rootPid), before, prefixes), d, prefixes).1 <==> !IsMalformed(before, d)
  {
    var c := Collect(New(rootPid), before, prefixes);
    match d.record
    case RenameDestination(pid, _, opId, _, _, _, _) =>
      PendingIsLatestSource(rootPid, before, prefixes, (pid, opId));
      DestinationIsFine(c, d, prefixes);
    case UnlinkRecord(_, _, _, _, _, _, _) => UnlinkIsFine(c, d, prefixes);
    case _ =>
  }

  lemma StepCounts(c: Coll, d: Drained, prefixes: seq<string>)
    ensures CollStep(c, d, prefixes).malformed ==
      if ProcessEvent(c, d, prefixes).1 then c.malformed else AtMost(c.malformed + 1, U64_MAX)
  {
    RecordIsHandled(c, d, prefixes);
  }

  /** The count is that of the malformed records, up to the 64-bit bound. */
  lemma {:induction false} MalformedAreCounted(rootPid: U32, drained: seq<Drained>, prefixes: seq<string>)
    ensures Collect(New(rootPid), drained, prefixes).malformed == AtMost(MalformedRecords(drained), U64_MAX)
  {
    if drained != [] {
      var n := |drained| - 1;
      MalformedAreCounted(rootPid, drained[..n], prefixes);
      RecordIsFine(rootPid, drained[..n], drained[n], prefixes);
      StepCounts(Collect(New(rootPid), drained[..n], prefixes), drained[n], prefixes);
    }
  }

  lemma {:induction false} NoneIsMalformedIff(drained: seq<Drained>)
    ensures MalformedRecords(drained) == 0 <==>
      forall i :: 0 <= i < |drained| ==> !IsMalformed(drained[..i], drained[i])
  {
    if drained != [] {
      var n := |drained| - 1;
      NoneIsMalformedIff(drained[..n]);
      forall i | 0 <= i < n ensures drained[..n][..i] == drained[..i] { NestedPrefix(drained, n, i); }
      assert forall i :: 0 <= i < n ==> drained[..n][i] == drained[i];
    }
  }

  lemma FinishCounts(c: Coll, rootPid: U32, exitCode: int)
    ensures Finish(c, rootPid, exitCode).malformed == AtMost(c.malformed + |c.renames|, U64_MAX)
  {
    WithExitKeepsRenames(c, rootPid, exitCode);
  }

  lemma WithExitKeepsRenames(c: Coll, rootPid: U32, exitCode: int)
    ensures WithExit(c, rootPid, exitCode).renames == c.renames
    ensures WithExit(c, rootPid, exitCode).malformed == c.malformed
  {
  }

  lemma SomebodyWaits(renames: map<RenameKey, PendingRename>) returns (key: RenameKey)
    requires |renames| > 0
    ensures key in renames
  {
    assert renames.Keys != {};
    key :| key in renames;
  }

  predicate Waits(drained: seq<Drained>, key: RenameKey)
  {
    PendingSource(drained, key).Some?
  }

  lemma WaitsIffPending(rootPid: U32, drained: seq<Drained>, prefixes: seq<string>, key: RenameKey)
    ensures key in Collect(New(rootPid), drained, prefixes).renames <==> Waits(drained, key)
  {
    PendingIsLatestSource(rootPid, drained, prefixes, key);
  }

  lemma NothingWaitsIff(rootPid: U32, drained: seq<Drained>, prefixes: seq<string>)
    ensures |Collect(New(rootPid), drained, prefixes).renames| == 0 <==> forall key :: !Waits(drained, key)
  {
    var renames := Collect(New(rootPid), drained, prefixes).renames;
    if |renames| > 0 {
      var key := SomebodyWaits(renames);
      WaitsIffPending(rootPid, drained, prefixes, key);
    } else {
      forall key ensures !Waits(drained, key) { WaitsIffPending(rootPid, drained, prefixes, key); }
    }
  }

  /** The final count is zero exactly when every record told something and no rename is left half done. */
  lemma NothingMalformedIff(rootPid: U32, drained: seq<Drained>, prefixes: seq<string>, exitCode: int)
    ensures Finish(Collect(New(rootPid), drained, prefixes), rootPid, exitCode).malformed == 0 <==>
      && (forall i :: 0 <= i < |drained| ==> !IsMalformed(drained[..i], drained[i]))
      && (forall key :: !Waits(drained, key))
  {
    MalformedAreCounted(rootPid, drained, prefixes);
    FinishCounts(Collect(New(rootPid), drained, prefixes), rootPid, exitCode);
    NoneIsMalformedIff(drained);
    NothingWaitsIff(rootPid, drained, prefixes);
  }
}
