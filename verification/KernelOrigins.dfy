/**
 Where the path records in the ring come from.  Each is submitted by an exit handler of a call that succeeded, and tells
 that call exactly if the stash that the handler took up was left by the call itself.
 */
module KernelOrigins {
  import opened Text
  import opened Trace
  import opened Records
  import opened Kernel
  import opened KernelPairs

  /** A submitted path record, with the call in whose exit handler that happened. */
  datatype Submission = Submission(key: Key, call: Call, tracked: bool, succeeded: bool, own: bool, record: Record)

  /** The threads whose present call left a stash, those whose present call succeeded, and all submissions. */
  datatype Origins = Origins(own: set<Key>, succeeded: set<Key>, log: seq<Submission>)

  function OriginsAfter(cfg: Config, s: State, o: Origins, step: Step): Origins
  {
    match step
    case Begin(k, _) =>
      if PcOf(s, k).Idle? then o.(own := o.own - {k}, succeeded := o.succeeded - {k}) else o
    case Return(k, ret) =>
      if PcOf(s, k).InCall? && ret >= 0 then o.(succeeded := o.succeeded + {k}) else o
    case Advance(k, c) =>
      var pc, output := PcOf(s, k), Act(cfg, s, k, c).output;
      o.(own := if pc.PutStash? && c.accepted then o.own + {k} else o.own,
         log := if output.Submitted? && Submits(pc)
                then o.log + [Submission(k, pc.call, pc.tracked, k in o.succeeded, k in o.own, output.record)]
                else o.log)
    case _ => o
  }

  function OriginsOf(cfg: Config, run: seq<Step>): Origins
  {
    if run == [] then Origins({}, {}, [])
    else OriginsAfter(cfg, Execute(cfg, run[..|run| - 1]), OriginsOf(cfg, run[..|run| - 1]), run[|run| - 1])
  }

  /**
   The record tells this call: the ids of its thread, its own descriptor (the old one for a source or an unlink, the new
   one for a destination), its flags, whether its process is untracked, and its path as captured.
   */
  predicate IsOwn(k: Key, call: Call, tracked: bool, r: Record)
  {
    match r
    case RenameSource(pid, tgid, _, dfd, flags, external, path) =>
      && call.RenameCall? && (tgid, pid) == k && dfd == call.oldDfd && flags == call.flags
      && (external <==> !tracked) && path == Capture(call.source)
    case RenameDestination(pid, tgid, _, dfd, flags, external, path) =>
      && call.RenameCall? && (tgid, pid) == k && dfd == call.newDfd && flags == call.flags
      && (external <==> !tracked) && path == Capture(call.target)
    case UnlinkRecord(pid, tgid, _, dfd, flags, external, path) =>
      && call.UnlinkCall? && (tgid, pid) == k && dfd == call.dfd && flags == call.flags
      && (external <==> !tracked) && path == Capture(call.path)
    case _ => false
  }

  // ------------------------------------------------------------------------------ one thread

  predicate PathsOf(l: Local, call: Call)
  {
    l.oldPath == Some(Capture(FirstPath(call))) && (call.RenameCall? ==> l.newPath == Some(Capture(SecondPath(call))))
  }

  /** A stash of the call itself, or a tracked process's, found outside watch mode by an untracked one. */
  predicate TakenUp(cfg: Config, l: Local, call: Call, tracked: bool, st: Stash, own: bool)
  {
    if own then st == StashOf(call, tracked) && PathsOf(l, call) else !tracked && !cfg.watchMode && !st.fromWatch
  }

  predicate Stashing(cfg: Config, tracked: bool, own: bool)
  {
    !own && (tracked || cfg.watchMode)
  }

  predicate InCallWith(cfg: Config, l: Local, call: Call, tracked: bool, own: bool)
  {
    if own then l.stash == Some(StashOf(call, tracked)) && PathsOf(l, call)
    else l.stash.Some? ==> !tracked && !cfg.watchMode
  }

  predicate FromOwn(cfg: Config, pc: Pc, l: Local, own: bool, succeeded: bool)
  {
    match pc
    case EnterStart(_) => !own && !succeeded
    case StashOld(_, tracked) => Stashing(cfg, tracked, own) && !succeeded
    case StashNew(call, tracked, oldOk) =>
      Stashing(cfg, tracked, own) && !succeeded && call.RenameCall?
      && (oldOk ==> l.oldPath == Some(Capture(FirstPath(call))))
    case GetOld(call, tracked) => Stashing(cfg, tracked, own) && !succeeded && PathsOf(l, call)
    case GetNew(call, tracked) => Stashing(cfg, tracked, own) && !succeeded && PathsOf(l, call)
    case PutStash(call, tracked) => Stashing(cfg, tracked, own) && !succeeded && PathsOf(l, call)
    case InCall(call, tracked) => !succeeded && InCallWith(cfg, l, call, tracked, own)
    case ExitStart(call, tracked, ret) => (succeeded <==> ret >= 0) && InCallWith(cfg, l, call, tracked, own)
    case ExitOld(call, tracked, st, _) => succeeded && TakenUp(cfg, l, call, tracked, st, own)
    case EmitSource(call, tracked, st, _, path) =>
      succeeded && st.isRename && TakenUp(cfg, l, call, tracked, st, own)
      && (own ==> path == Capture(FirstPath(call)))
    case ExitNew(call, tracked, st, _) => succeeded && st.isRename && TakenUp(cfg, l, call, tracked, st, own)
    case EmitDestination(call, tracked, st, _, path) =>
      succeeded && st.isRename && TakenUp(cfg, l, call, tracked, st, own)
      && (own ==> path == Capture(SecondPath(call)))
    case EmitUnlink(call, tracked, st, _, path) =>
      succeeded && !st.isRename && TakenUp(cfg, l, call, tracked, st, own)
      && (own ==> path == Capture(FirstPath(call)))
    case Clearing(removed, next) =>
      (next.InCall? && !own && !succeeded && (removed > 0 ==> l.stash.None?)) || next.Leaving?
    case Dropping(_, _) => false
    case _ => true
  }

  /** Outside watch mode only tracked processes leave a stash. */
  predicate OriginExact(cfg: Config, pc: Pc, l: Local, own: bool, succeeded: bool)
  {
    (l.stash.Some? && !cfg.watchMode ==> !l.stash.value.fromWatch) && FromOwn(cfg, Resumed(pc), l, own, succeeded)
  }

  predicate OwnAfter(pc: Pc, c: Choice, own: bool)
  {
    own || (pc.PutStash? && c.accepted)
  }

  lemma CaptureOrigin(cfg: Config, isTracked: bool, m: Maps, k: Key, pc: Pc, c: Choice, own: bool, succeeded: bool)
    requires (pc.EnterStart? || pc.StashOld? || pc.StashNew?) && OriginExact(cfg, pc, LocalOf(m, k), own, succeeded)
    ensures var move := EnterStep(cfg, isTracked, m, k, pc, c);
            OriginExact(cfg, move.pc, LocalOf(move.maps, k), OwnAfter(pc, c, own), succeeded)
  {
  }

  lemma StashOrigin(cfg: Config, isTracked: bool, m: Maps, k: Key, pc: Pc, c: Choice, own: bool, succeeded: bool)
    requires (pc.GetOld? || pc.GetNew? || pc.PutStash?) && OriginExact(cfg, pc, LocalOf(m, k), own, succeeded)
    ensures var move := EnterStep(cfg, isTracked, m, k, pc, c);
            OriginExact(cfg, move.pc, LocalOf(move.maps, k), OwnAfter(pc, c, own), succeeded)
  {
  }

  lemma HelperOrigin(cfg: Config, drops: U64, m: Maps, k: Key, pc: Pc, c: Choice, own: bool, succeeded: bool)
    requires InHelper(pc) && OriginExact(cfg, pc, LocalOf(m, k), own, succeeded)
    ensures var move := HelperStep(drops, m, k, pc, c);
            OriginExact(cfg, move.pc, LocalOf(move.maps, k), own, succeeded)
  {
  }

  lemma ReadOrigin(cfg: Config, m: Maps, k: Key, pc: Pc, c: Choice, own: bool, succeeded: bool)
    requires !InEnter(pc) && !InHelper(pc) && !Submits(pc) && OriginExact(cfg, pc, LocalOf(m, k), own, succeeded)
    ensures var move := ExitStep(m, k, pc, c);
            OriginExact(cfg, move.pc, LocalOf(move.maps, k), own, succeeded)
  {
  }

  lemma SubmitOrigin(cfg: Config, m: Maps, k: Key, pc: Pc, c: Choice, own: bool, succeeded: bool)
    requires Submits(pc) && OriginExact(cfg, pc, LocalOf(m, k), own, succeeded)
    ensures var move := ExitStep(m, k, pc, c);
            OriginExact(cfg, move.pc, LocalOf(move.maps, k), own, succeeded)
    ensures succeeded && (IsOwn(k, pc.call, pc.tracked, SubmittedBy(k, pc)) <==> own)
    ensures cfg.watchMode || pc.tracked ==> own
  {
  }

  /** The submission is one of a call that succeeded, and tells it exactly if the call left the stash. */
  predicate SubmissionExact(cfg: Config, x: Submission)
  {
    && x.succeeded && (IsOwn(x.key, x.call, x.tracked, x.record) <==> x.own)
    && (cfg.watchMode || x.tracked ==> x.own)
  }

  lemma ActOrigin(cfg: Config, s: State, k: Key, c: Choice, own: bool, succeeded: bool)
    requires OriginExact(cfg, PcOf(s, k), LocalOf(s.maps, k), own, succeeded)
    ensures var move := Act(cfg, s, k, c);
            OriginExact(cfg, move.pc, LocalOf(move.maps, k), OwnAfter(PcOf(s, k), c, own), succeeded)
  {
    var pc, tracked := PcOf(s, k), k.0 in s.tracked;
    if pc.GetOld? || pc.GetNew? || pc.PutStash? {
      StashOrigin(cfg, tracked, s.maps, k, pc, c, own, succeeded);
    } else if InEnter(pc) {
      CaptureOrigin(cfg, tracked, s.maps, k, pc, c, own, succeeded);
    } else if InHelper(pc) {
      HelperOrigin(cfg, s.drops, s.maps, k, pc, c, own, succeeded);
    } else if Submits(pc) {
      SubmitOrigin(cfg, s.maps, k, pc, c, own, succeeded);
    } else {
      ReadOrigin(cfg, s.maps, k, pc, c, own, succeeded);
    }
  }

  lemma ActSubmits(cfg: Config, s: State, k: Key, c: Choice)
    requires Act(cfg, s, k, c).output.Submitted?
    ensures Submits(PcOf(s, k)) && Act(cfg, s, k, c).output.record == SubmittedBy(k, PcOf(s, k))
  {
  }

  lemma SubmissionIsExact(cfg: Config, s: State, k: Key, c: Choice, own: bool, succeeded: bool)
    requires OriginExact(cfg, PcOf(s, k), LocalOf(s.maps, k), own, succeeded)
    requires Act(cfg, s, k, c).output.Submitted?
    ensures var pc := PcOf(s, k);
            && Submits(pc)
            && SubmissionExact(cfg, Submission(k, pc.call, pc.tracked, succeeded, own, Act(cfg, s, k, c).output.record))
  {
    ActSubmits(cfg, s, k, c);
    SubmitOrigin(cfg, s.maps, k, PcOf(s, k), c, own, succeeded);
  }

  // ------------------------------------------------------------------------------ runs

  ghost predicate ThreadsExact(cfg: Config, s: State, o: Origins)
  {
    forall k :: OriginExact(cfg, PcOf(s, k), LocalOf(s.maps, k), k in o.own, k in o.succeeded)
  }

  /** The path records of the ring are those of the log, in the same order. */
  predicate IsLogOf(log: seq<Submission>, ring: seq<Record>)
  {
    seq(|log|, i requires 0 <= i < |log| => log[i].record) == PathRecords(ring)
  }

  function PathRecords(ring: seq<Record>): seq<Record>
  {
    if ring == [] then []
    else
      var n := |ring| - 1;
      PathRecords(ring[..n]) + if IsPathRecord(ring[n]) then [ring[n]] else []
  }

  lemma PathRecordsOneMore(ring: seq<Record>, r: Record)
    ensures PathRecords(ring + [r]) == PathRecords(ring) + if IsPathRecord(r) then [r] else []
  {
    assert (ring + [r])[..|ring|] == ring;
  }

  ghost predicate LogExact(cfg: Config, log: seq<Submission>)
  {
    forall i :: 0 <= i < |log| ==> SubmissionExact(cfg, log[i])
  }

  ghost predicate OriginsExact(cfg: Config, s: State, o: Origins)
  {
    ThreadsExact(cfg, s, o) && LogExact(cfg, o.log) && IsLogOf(o.log, s.ring)
  }

  lemma SetPcKeepsOrigins(cfg: Config, s: State, t: State, k: Key, o: Origins, o': Origins)
    requires ThreadsExact(cfg, s, o) && t.maps == s.maps
    requires forall other :: other != k ==> PcOf(t, other) == PcOf(s, other)
    requires o.own - {k} == o'.own - {k} && o.succeeded - {k} == o'.succeeded - {k}
    requires OriginExact(cfg, PcOf(t, k), LocalOf(s.maps, k), k in o'.own, k in o'.succeeded)
    ensures ThreadsExact(cfg, t, o')
  {
    forall other
      ensures OriginExact(cfg, PcOf(t, other), LocalOf(t.maps, other), other in o'.own, other in o'.succeeded)
    {
      if other != k {
        assert OriginExact(cfg, PcOf(s, other), LocalOf(s.maps, other), other in o.own, other in o.succeeded);
        assert other in o.own <==> other in o.own - {k};
        assert other in o'.own <==> other in o'.own - {k};
        assert other in o.succeeded <==> other in o.succeeded - {k};
        assert other in o'.succeeded <==> other in o'.succeeded - {k};
      }
    }
  }

  lemma LogOneMore(cfg: Config, log: seq<Submission>, ring: seq<Record>, x: Submission)
    requires LogExact(cfg, log) && IsLogOf(log, ring) && SubmissionExact(cfg, x) && IsPathRecord(x.record)
    ensures LogExact(cfg, log + [x]) && IsLogOf(log + [x], ring + [x.record])
  {
    PathRecordsOneMore(ring, x.record);
    var more := log + [x];
    assert seq(|more|, i requires 0 <= i < |more| => more[i].record)
        == seq(|log|, i requires 0 <= i < |log| => log[i].record) + [x.record];
  }

  lemma AdvanceKeepsThreads(cfg: Config, s: State, k: Key, c: Choice, o: Origins)
    requires ThreadsExact(cfg, s, o)
    ensures ThreadsExact(cfg, Effect(cfg, s, Advance(k, c)), OriginsAfter(cfg, s, o, Advance(k, c)))
  {
    var t, o' := Effect(cfg, s, Advance(k, c)), OriginsAfter(cfg, s, o, Advance(k, c));
    forall other
      ensures OriginExact(cfg, PcOf(t, other), LocalOf(t.maps, other), other in o'.own, other in o'.succeeded)
    {
      assert OriginExact(cfg, PcOf(s, other), LocalOf(s.maps, other), other in o.own, other in o.succeeded);
      if other == k { ActOrigin(cfg, s, k, c, k in o.own, k in o.succeeded); } else { ActForeign(cfg, s, k, c, other); }
    }
  }

  lemma AdvanceKeepsLog(cfg: Config, s: State, k: Key, c: Choice, o: Origins)
    requires OriginsExact(cfg, s, o)
    ensures LogExact(cfg, OriginsAfter(cfg, s, o, Advance(k, c)).log)
    ensures IsLogOf(OriginsAfter(cfg, s, o, Advance(k, c)).log, Effect(cfg, s, Advance(k, c)).ring)
  {
    var pc, output := PcOf(s, k), Act(cfg, s, k, c).output;
    assert OriginExact(cfg, pc, LocalOf(s.maps, k), k in o.own, k in o.succeeded);
    if output.Submitted? {
      SubmissionIsExact(cfg, s, k, c, k in o.own, k in o.succeeded);
      LogOneMore(cfg, o.log, s.ring,
                 Submission(k, pc.call, pc.tracked, k in o.succeeded, k in o.own, output.record));
    }
  }

  lemma OtherRecordKeepsLog(log: seq<Submission>, ring: seq<Record>, r: Record)
    requires IsLogOf(log, ring) && !IsPathRecord(r)
    ensures IsLogOf(log, ring + [r])
  {
    PathRecordsOneMore(ring, r);
  }

  lemma EffectKeepsOrigins(cfg: Config, s: State, o: Origins, step: Step)
    requires OriginsExact(cfg, s, o)
    ensures OriginsExact(cfg, Effect(cfg, s, step), OriginsAfter(cfg, s, o, step))
  {
    var t, o' := Effect(cfg, s, step), OriginsAfter(cfg, s, o, step);
    match step
    case Begin(k, _) => SetPcKeepsOrigins(cfg, s, t, k, o, o');
    case Advance(k, c) => AdvanceKeepsThreads(cfg, s, k, c, o); AdvanceKeepsLog(cfg, s, k, c, o);
    case Return(k, _) => ReturnKeepsOrigins(cfg, s, o, step);
    case Die(k) => SetPcKeepsOrigins(cfg, s, t, k, o, o');
    case OtherDrop(k) => SetPcKeepsOrigins(cfg, s, t, k, o, o');
    case OtherRecord(r) =>
      SetPcKeepsOrigins(cfg, s, t, (0, 0), o, o');
      if !IsPathRecord(r) { OtherRecordKeepsLog(o.log, s.ring, r); }
    case Track(_) => SetPcKeepsOrigins(cfg, s, t, (0, 0), o, o');
    case Untrack(_) => SetPcKeepsOrigins(cfg, s, t, (0, 0), o, o');
  }

  lemma ReturnKeepsOrigins(cfg: Config, s: State, o: Origins, step: Step)
    requires OriginsExact(cfg, s, o) && step.Return?
    ensures OriginsExact(cfg, Effect(cfg, s, step), OriginsAfter(cfg, s, o, step))
  {
    var k := step.key;
    assert OriginExact(cfg, PcOf(s, k), LocalOf(s.maps, k), k in o.own, k in o.succeeded);
    SetPcKeepsOrigins(cfg, s, Effect(cfg, s, step), k, o, OriginsAfter(cfg, s, o, step));
  }

  /**
   For every interleaving: the path records in the ring are, in order, those that exit handlers of calls submitted which
   had succeeded.  Such a record tells its call exactly if the handler took up a stash that the call itself had left;
   and it always did in watch mode, and for tracked processes.
   */
  lemma {:induction false} RecordsAreOwnIff(cfg: Config, run: seq<Step>)
    ensures OriginsExact(cfg, Execute(cfg, run), OriginsOf(cfg, run))
  {
    if run != [] {
      var n := |run| - 1;
      var s, t, o := Execute(cfg, run[..n]), Execute(cfg, run), OriginsOf(cfg, run[..n]);
      RecordsAreOwnIff(cfg, run[..n]);
      EffectKeepsOrigins(cfg, s, o, run[n]);
      forall k ensures PcOf(t, k) == PcOf(Effect(cfg, s, run[n]), k) { }
      SetPcKeepsOrigins(cfg, Effect(cfg, s, run[n]), t, (0, 0), OriginsOf(cfg, run), OriginsOf(cfg, run));
    }
  }
}
