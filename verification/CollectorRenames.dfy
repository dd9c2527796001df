/** A collector run without malformed records turns each rename destination, with its own source, into events. */
module CollectorRenames {
  import opened Paths
  import opened Text
  import opened Trace
  import opened Records
  import opened Collector

  predicate IsSourceOf(r: Record, key: RenameKey)
  {
    r.RenameSource? && (r.pid, r.opId) == key
  }

  predicate IsDestinationOf(r: Record, key: RenameKey)
  {
    r.RenameDestination? && (r.pid, r.opId) == key
  }

  function Decoded(d: Drained): Option<string>
    requires d.record.RenameSource? || d.record.RenameDestination?
  {
    match DecodePath(d.record.path)
    case None => None
    case Some(raw) => Some(ResolvePath(raw, d.resolved))
  }

  /** The half of a rename that a source record leaves behind. */
  predicate IsHalf(p: PendingRename, c: Coll, d: Drained)
    requires d.record.RenameSource?
  {
    && p.process == CurrentProcess(c, d.record.tgid).1 && Some(p.from) == Decoded(d)
    && p.flags == d.record.flags && p.external == d.record.external
  }

  // ---------------------------------------------------------------------- one record

  /** Everything but the pending renames, which are left alone, may change; the trace only grows. */
  predicate Passive(c: Coll, c1: Coll)
  {
    c1.malformed == c.malformed && c1.renames == c.renames && c.events <= c1.events
  }

  lemma CurrentIsPassive(c: Coll, pid: U32)
    ensures Passive(c, CurrentProcess(c, pid).0)
  {
  }

  lemma StartIsPassive(c: Coll, pid: U32)
    ensures Passive(c, StartProcess(c, pid).0)
  {
  }

  lemma OpenIsPassive(c: Coll, d: Drained, prefixes: seq<string>)
    requires d.record.OpenRecord?
    ensures Passive(c, OnOpen(c, d, prefixes))
  {
    CurrentIsPassive(c, d.record.tgid);
  }

  lemma CloseIsPassive(c: Coll, d: Drained)
    requires d.record.CloseRecord?
    ensures Passive(c, OnClose(c, d))
  {
    CurrentIsPassive(c, d.record.tgid);
  }

  lemma MmapIsPassive(c: Coll, d: Drained)
    requires d.record.MmapRecord?
    ensures Passive(c, OnMmap(c, d))
  {
    CurrentIsPassive(c, d.record.tgid);
  }

  lemma UnlinkIsPassive(c: Coll, d: Drained, prefixes: seq<string>)
    requires d.record.UnlinkRecord?
    ensures Passive(c, OnUnlink(c, d, prefixes).0)
  {
    CurrentIsPassive(c, d.record.tgid);
  }

  lemma ProcessIsPassive(c: Coll, d: Drained)
    requires d.record.ExecRecord? || d.record.ForkRecord? || d.record.ExitRecord?
    ensures Passive(c, ProcessEvent(c, d, []).0)
  {
    match d.record
    case ExecRecord(pid) => CurrentIsPassive(c, pid);
    case ForkRecord(parent, child) =>
      CurrentIsPassive(c, parent);
      StartIsPassive(CurrentProcess(c, parent).0, child);
    case ExitRecord(pid, _) => CurrentIsPassive(c, pid);
  }

  /** What one record does to the renames that wait for their second half, and to the count of malformed records. */
  predicate Handled(c: Coll, c1: Coll, ok: bool, d: Drained)
  {
    && c1.malformed == c.malformed && c.events <= c1.events
    && (forall key :: key in c1.renames ==>
          if IsSourceOf(d.record, key) && ok then IsHalf(c1.renames[key], c, d)
          else key in c.renames && c1.renames[key] == c.renames[key])
    && (forall key :: key in c.renames && !IsSourceOf(d.record, key) && !IsDestinationOf(d.record, key) ==>
          key in c1.renames && c1.renames[key] == c.renames[key])
    && (d.record.RenameSource? && ok ==> (d.record.pid, d.record.opId) in c1.renames)
    && (d.record.RenameDestination? ==> (d.record.pid, d.record.opId) !in c1.renames)
    && (d.record.RenameDestination? && ok ==> (d.record.pid, d.record.opId) in c.renames)
  }

  lemma SourceIsHandled(c: Coll, d: Drained)
    requires d.record.RenameSource?
    ensures Handled(c, OnRenameSource(c, d).0, OnRenameSource(c, d).1, d)
  {
    CurrentIsPassive(c, d.record.tgid);
  }

  lemma DestinationIsHandled(c: Coll, d: Drained, prefixes: seq<string>)
    requires d.record.RenameDestination?
    ensures Handled(c, OnRenameDestination(c, d, prefixes).0, OnRenameDestination(c, d, prefixes).1, d)
  {
  }

  lemma RecordIsHandled(c: Coll, d: Drained, prefixes: seq<string>)
    ensures Handled(c, ProcessEvent(c, d, prefixes).0, ProcessEvent(c, d, prefixes).1, d)
  {
    match d.record
    case OpenRecord(_, _, _, _) => OpenIsPassive(c, d, prefixes);
    case CloseRecord(_, _, _) => CloseIsPassive(c, d);
    case MmapRecord(_, _, _, _, _) => MmapIsPassive(c, d);
    case RenameSource(_, _, _, _, _, _, _) => SourceIsHandled(c, d);
    case RenameDestination(_, _, _, _, _, _, _) => DestinationIsHandled(c, d, prefixes);
    case UnlinkRecord(_, _, _, _, _, _, _) => UnlinkIsPassive(c, d, prefixes);
    case Uninterpretable =>
    case _ => ProcessIsPassive(c, d);
  }

  /** What a completed rename adds to the trace: nothing if it is external and touches no watched path. */
  function Completion(half: PendingRename, to: string, d: Drained, prefixes: seq<string>): seq<Event>
    requires d.record.RenameDestination?
  {
    var external := half.external || d.record.external;
    if external && !Watched(half.from, prefixes) && !Watched(to, prefixes) then []
    else RenameEvents(half, to, external, d)
  }

  /** A completed destination consumes the pending half of its key and adds its events. */
  lemma DestinationCompletes(c: Coll, d: Drained, prefixes: seq<string>, key: RenameKey)
    requires IsDestinationOf(d.record, key) && ProcessEvent(c, d, prefixes).1
    ensures key in c.renames && Decoded(d).Some?
    ensures ProcessEvent(c, d, prefixes).0.events ==
      c.events + Completion(c.renames[key], Decoded(d).value, d, prefixes)
  {
  }

  // ---------------------------------------------------------------------- runs without malformed records

  function At(rootPid: U32, order: seq<Drained>, prefixes: seq<string>, i: nat): Coll
    requires i <= |order|
  {
    Collect(New(rootPid), order[..i], prefixes)
  }

  lemma StepAt(rootPid: U32, order: seq<Drained>, prefixes: seq<string>, i: nat)
    requires i < |order|
    ensures var c, c1, ok := At(rootPid, order, prefixes, i), At(rootPid, order, prefixes, i + 1),
              ProcessEvent(At(rootPid, order, prefixes, i), order[i], prefixes).1;
            && c.malformed <= c1.malformed && c.events <= c1.events
            && (c1.malformed == 0 ==> ok && c1 == ProcessEvent(c, order[i], prefixes).0)
  {
    CollectStep(New(rootPid), order, prefixes, i);
    RecordIsHandled(At(rootPid, order, prefixes, i), order[i], prefixes);
  }

  predicate Below(c: Coll, c1: Coll)
  {
    c.malformed <= c1.malformed && c.events <= c1.events
  }

  lemma {:induction false} ChainGrows(chain: seq<Coll>, i: nat, n: nat)
    requires i <= n < |chain| && forall k :: 0 <= k < |chain| - 1 ==> Below(chain[k], chain[k + 1])
    ensures Below(chain[i], chain[n])
  {
    if i < n { ChainGrows(chain, i, n - 1); }
  }

  lemma CountsGrow(rootPid: U32, order: seq<Drained>, prefixes: seq<string>, i: nat, n: nat)
    requires i <= n <= |order|
    ensures Below(At(rootPid, order, prefixes, i), At(rootPid, order, prefixes, n))
  {
    var chain := seq(|order| + 1, k requires 0 <= k <= |order| => At(rootPid, order, prefixes, k));
    forall k | 0 <= k < |chain| - 1 ensures Below(chain[k], chain[k + 1]) { StepAt(rootPid, order, prefixes, k); }
    ChainGrows(chain, i, n);
  }

  predicate OnlySource(order: seq<Drained>, key: RenameKey, i: nat)
  {
    forall i' :: 0 <= i' < |order| && IsSourceOf(order[i'].record, key) ==> i' == i
  }

  /** A pending half comes from the only source record of its key. */
  lemma {:induction false} HalfIsFromSource(rootPid: U32, order: seq<Drained>, prefixes: seq<string>, key: RenameKey,
      i: nat, n: nat)
    requires n <= |order| && OnlySource(order, key, i)
    requires At(rootPid, order, prefixes, n).malformed == 0 && key in At(rootPid, order, prefixes, n).renames
    ensures i < n && order[i].record.RenameSource?
    ensures IsHalf(At(rootPid, order, prefixes, n).renames[key], At(rootPid, order, prefixes, i), order[i])
  {
    if n > 0 {
      StepAt(rootPid, order, prefixes, n - 1);
      RecordIsHandled(At(rootPid, order, prefixes, n - 1), order[n - 1], prefixes);
      if !IsSourceOf(order[n - 1].record, key) {
        HalfIsFromSource(rootPid, order, prefixes, key, i, n - 1);
      }
    }
  }

  /** Only the last exit of the root gets another exit code; when there is none, one is added. */
  predicate OnlyLastExitChanges(c: Coll, after: seq<Event>, rootPid: U32, exitCode: int)
  {
    var before, i := c.events, LastExit(c.events, rootPid);
    && |after| == (if i < |before| then |before| else |before| + 1)
    && (forall m :: 0 <= m < |before| && m != i ==> after[m] == before[m])
    && after[i] == Exit(if i < |before| then before[i].process else CurrentProcess(c, rootPid).1, exitCode)
  }

  lemma WithExitKeepsEvents(c: Coll, rootPid: U32, exitCode: int)
    ensures var c1 := WithExit(c, rootPid, exitCode);
            c1.malformed == c.malformed && OnlyLastExitChanges(c, c1.events, rootPid, exitCode)
  {
    if LastExit(c.events, rootPid) == |c.events| { CurrentIsPassive(c, rootPid); }
  }

  /** The final correction of the root's exit touches no other event. */
  lemma FinishKeepsEvents(c: Coll, rootPid: U32, exitCode: int)
    ensures var f := Finish(c, rootPid, exitCode);
            && OnlyLastExitChanges(c, f.events, rootPid, exitCode)
            && (f.malformed == 0 ==> c.malformed == 0 && c.renames == map[])
  {
    WithExitKeepsEvents(c, rootPid, exitCode);
  }

  /** The finished trace holds `events` as a block that starts at `p`. */
  predicate HasBlock(trace: seq<Event>, p: nat, events: seq<Event>)
  {
    p + |events| <= |trace| && forall m :: 0 <= m < |events| ==> trace[p + m] == events[m]
  }

  lemma BlockSurvives(before: seq<Event>, after: seq<Event>, trace: seq<Event>, block: seq<Event>)
    requires before + block <= after && |after| <= |trace|
    requires forall m :: 0 <= m < |after| && !after[m].Exit? ==> trace[m] == after[m]
    requires forall m :: 0 <= m < |block| ==> !block[m].Exit?
    ensures HasBlock(trace, |before|, block)
  {
    forall m | 0 <= m < |block| ensures trace[|before| + m] == block[m] {
      assert (before + block)[|before| + m] == block[m] == after[|before| + m];
    }
  }

  /** The events that a destination adds in state `c` are still there when the trace is finished from `last`. */
  lemma AddedBlockSurvives(c: Coll, c1: Coll, last: Coll, block: seq<Event>, rootPid: U32, exitCode: int)
    requires c1.events == c.events + block && Below(c1, last)
    requires forall m :: 0 <= m < |block| ==> !block[m].Exit?
    ensures HasBlock(Finish(last, rootPid, exitCode).events, |c.events|, block)
  {
    FinishKeepsEvents(last, rootPid, exitCode);
    BlockSurvives(c.events, last.events, Finish(last, rootPid, exitCode).events, block);
  }

  lemma GoodDestination(rootPid: U32, order: seq<Drained>, prefixes: seq<string>, key: RenameKey, i: nat, j: nat)
      returns (half: PendingRename)
    requires i < |order| && j < |order| && OnlySource(order, key, i) && IsDestinationOf(order[j].record, key)
    requires At(rootPid, order, prefixes, j + 1).malformed == 0
    ensures i < j && order[i].record.RenameSource? && Decoded(order[j]).Some?
    ensures IsHalf(half, At(rootPid, order, prefixes, i), order[i])
    ensures At(rootPid, order, prefixes, j + 1).events ==
      At(rootPid, order, prefixes, j).events + Completion(half, Decoded(order[j]).value, order[j], prefixes)
  {
    StepAt(rootPid, order, prefixes, j);
    DestinationCompletes(At(rootPid, order, prefixes, j), order[j], prefixes, key);
    HalfIsFromSource(rootPid, order, prefixes, key, i, j);
    half := At(rootPid, order, prefixes, j).renames[key];
  }

  /**
   When nothing is malformed in the end, in the last state, the destination record of an operation comes after the only
   source record of that operation.  Its step adds exactly the rename that pairs the two, followed by its reverse for an
   exchange, unless the rename is external and touches no watched path; and the finished trace still holds them.
   */
  lemma DestinationsArePaired(rootPid: U32, exitCode: int, order: seq<Drained>, prefixes: seq<string>, key: RenameKey,
      i: nat, j: nat, last: Coll) returns (half: PendingRename)
    requires i < |order| && j < |order| && OnlySource(order, key, i) && IsDestinationOf(order[j].record, key)
    requires Below(At(rootPid, order, prefixes, j + 1), last) && Finish(last, rootPid, exitCode).malformed == 0
    ensures i < j && order[i].record.RenameSource? && Decoded(order[j]).Some?
    ensures IsHalf(half, At(rootPid, order, prefixes, i), order[i])
    ensures var block := Completion(half, Decoded(order[j]).value, order[j], prefixes);
            && At(rootPid, order, prefixes, j + 1).events == At(rootPid, order, prefixes, j).events + block
            && HasBlock(Finish(last, rootPid, exitCode).events, |At(rootPid, order, prefixes, j).events|, block)
  {
    FinishKeepsEvents(last, rootPid, exitCode);
    half := GoodDestination(rootPid, order, prefixes, key, i, j);
    AddedBlockSurvives(At(rootPid, order, prefixes, j), At(rootPid, order, prefixes, j + 1), last,
                       Completion(half, Decoded(order[j]).value, order[j], prefixes), rootPid, exitCode);
  }
}
