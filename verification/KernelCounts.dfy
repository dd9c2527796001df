/** Exactly when the drop counter is the number of recorded drops, although it is read and written in two steps. */
module KernelCounts {
  import opened Text
  import opened Trace
  import opened Kernel
  import opened KernelDrops

  /** What a step does with the counter: a thread reads it, or writes back one more than it read. */
  datatype Access = NoAccess | Read(key: Key) | Write(key: Key)

  // ------------------------------------------------------------------------------ a counter that is read and written

  function Writes(log: seq<Access>, n: nat): nat
    requires n <= |log|
  {
    if n == 0 then 0 else Writes(log, n - 1) + if log[n - 1].Write? then 1 else 0
  }

  /** The last of the first `n` accesses at which thread `k` read the counter. */
  function LastRead(log: seq<Access>, n: nat, k: Key): (r: Option<nat>)
    requires n <= |log|
    ensures r.Some? ==> r.value < n && log[r.value] == Read(k)
  {
    if n == 0 then None else if log[n - 1] == Read(k) then Some(n - 1) else LastRead(log, n - 1, k)
  }

  /** The counter after `n` accesses. */
  function Value(log: seq<Access>, n: nat): nat
    requires n <= |log|
  {
    if n == 0 then 0
    else if log[n - 1].Write? then
      match LastRead(log, n - 1, log[n - 1].key)
      case None => 1
      case Some(r) => Value(log, r) + 1
    else Value(log, n - 1)
  }

  predicate WrittenBetween(log: seq<Access>, r: nat, n: nat)
    requires n <= |log|
  {
    exists m :: r < m < n && log[m].Write?
  }

  /** The write at `n` loses another one: some thread wrote after this one had read. */
  predicate Overtakes(log: seq<Access>, n: nat)
    requires n < |log|
  {
    && log[n].Write?
    && var r := LastRead(log, n, log[n].key);
       r.Some? && WrittenBetween(log, r.value, n)
  }

  /** Every write was preceded by a read of the same thread. */
  predicate ReadsFirst(log: seq<Access>)
  {
    forall n :: 0 <= n < |log| && log[n].Write? ==> LastRead(log, n, log[n].key).Some?
  }

  lemma {:induction false} WritesGrow(log: seq<Access>, i: nat, n: nat)
    requires i <= n <= |log|
    ensures Writes(log, i) <= Writes(log, n)
  {
    if i < n { WritesGrow(log, i, n - 1); }
  }

  lemma WritesBetween(log: seq<Access>, r: nat, n: nat)
    requires r < n <= |log| && WrittenBetween(log, r, n)
    ensures Writes(log, r) < Writes(log, n)
  {
    var m :| r < m < n && log[m].Write?;
    WritesGrow(log, r, m);
    WritesGrow(log, m + 1, n);
  }

  lemma {:induction false} QuietKeepsValue(log: seq<Access>, r: nat, n: nat)
    requires r < n <= |log| && !log[r].Write? && !WrittenBetween(log, r, n)
    ensures Value(log, n) == Value(log, r)
  {
    if n > r + 1 {
      assert !log[n - 1].Write?;
      QuietKeepsValue(log, r, n - 1);
    }
  }

  /** The value is at most the number of writes, and equal to it exactly when no write overtakes another. */
  lemma {:induction false} ValueIsExactIff(log: seq<Access>, n: nat)
    requires n <= |log| && ReadsFirst(log)
    ensures Value(log, n) <= Writes(log, n)
    ensures Value(log, n) == Writes(log, n) <==> forall j :: 0 <= j < n ==> !Overtakes(log, j)
  {
    if n > 0 {
      ValueIsExactIff(log, n - 1);
      if log[n - 1].Write? {
        var r := LastRead(log, n - 1, log[n - 1].key).value;
        ValueIsExactIff(log, r);
        if WrittenBetween(log, r, n - 1) {
          WritesBetween(log, r, n - 1);
          assert Overtakes(log, n - 1);
        } else {
          QuietKeepsValue(log, r, n - 1);
        }
      }
    }
  }

  lemma {:induction false} LastReadOfPrefix(log: seq<Access>, x: Access, n: nat, k: Key)
    requires n <= |log|
    ensures LastRead(log + [x], n, k) == LastRead(log, n, k)
  {
    if n > 0 { LastReadOfPrefix(log, x, n - 1, k); }
  }

  lemma {:induction false} ValueOfPrefix(log: seq<Access>, x: Access, n: nat)
    requires n <= |log|
    ensures Value(log + [x], n) == Value(log, n)
  {
    if n > 0 {
      ValueOfPrefix(log, x, n - 1);
      if log[n - 1].Write? {
        LastReadOfPrefix(log, x, n - 1, log[n - 1].key);
        var r := LastRead(log, n - 1, log[n - 1].key);
        if r.Some? { ValueOfPrefix(log, x, r.value); }
      }
    }
  }

  // ------------------------------------------------------------------------------ the counter of the kernel

  function AccessOf(cfg: Config, s: State, step: Step): Access
  {
    if !step.Advance? then NoAccess
    else if Act(cfg, s, step.key, step.choice).output.Stored? then Write(step.key)
    else if PcOf(s, step.key).Dropping? && PcOf(s, step.key).read.None? then Read(step.key)
    else NoAccess
  }

  /** What each step of a run does with the counter. */
  function Log(cfg: Config, run: seq<Step>): (log: seq<Access>)
    ensures |log| == |run|
  {
    if run == [] then []
    else
      var s := Execute(cfg, run[..|run| - 1]);
      Log(cfg, run[..|run| - 1]) + [AccessOf(cfg, s, run[|run| - 1])]
  }

  /** The counter is the value of the log, and what a thread holds is the value when it read. */
  ghost predicate Follows(drops: U64, pcs: map<Key, Pc>, log: seq<Access>)
  {
    && drops == Value(log, |log|) && ReadsFirst(log)
    && forall k :: k in pcs && pcs[k].Dropping? && pcs[k].read.Some? ==> HoldsLastRead(pcs[k].read.value, log, k)
  }

  predicate HoldsLastRead(v: U64, log: seq<Access>, k: Key)
  {
    LastRead(log, |log|, k).Some? && v == Value(log, LastRead(log, |log|, k).value)
  }

  lemma StillHolds(v: U64, log: seq<Access>, k: Key, x: Access)
    requires HoldsLastRead(v, log, k) && x != Read(k)
    ensures HoldsLastRead(v, log + [x], k)
  {
    LastReadOfPrefix(log, x, |log|, k);
    ValueOfPrefix(log, x, LastRead(log, |log|, k).value);
  }

  lemma ReadsFirstStays(log: seq<Access>, x: Access)
    requires ReadsFirst(log) && (x.Write? ==> LastRead(log, |log|, x.key).Some?)
    ensures ReadsFirst(log + [x])
  {
    var more := log + [x];
    forall n | 0 <= n < |more| && more[n].Write? ensures LastRead(more, n, more[n].key).Some? {
      LastReadOfPrefix(log, x, n, more[n].key);
    }
  }

  lemma ValueOfOneMore(log: seq<Access>, x: Access)
    requires x.Write? ==> LastRead(log, |log|, x.key).Some?
    ensures Value(log + [x], |log| + 1) ==
      if x.Write? then Value(log, LastRead(log, |log|, x.key).value) + 1 else Value(log, |log|)
  {
    ValueOfPrefix(log, x, |log|);
    if x.Write? {
      LastReadOfPrefix(log, x, |log|, x.key);
      ValueOfPrefix(log, x, LastRead(log, |log|, x.key).value);
    }
  }

  /** A thread holds a count only because it just read it, and stores its successor. */
  lemma ActReads(cfg: Config, s: State, k: Key, c: Choice)
    requires PcFine(PcOf(s, k), s.steps) && s.steps < U64_MAX
    ensures var pc, move := PcOf(s, k), Act(cfg, s, k, c);
            && (move.pc.Dropping? && move.pc.read.Some? ==>
                  pc.Dropping? && pc.read.None? && move.pc.read.value == s.drops)
            && (move.output.Stored? ==>
                  pc.Dropping? && pc.read.Some? && move.output.drops == pc.read.value + 1 && !move.pc.Dropping?)
  {
  }

  lemma AdvanceFollows(cfg: Config, s: State, log: seq<Access>, k: Key, c: Choice)
    requires Follows(s.drops, s.pcs, log) && DropInv(s) && s.steps < U64_MAX
    ensures var t := Next(cfg, s, Advance(k, c));
            Follows(t.drops, t.pcs, log + [AccessOf(cfg, s, Advance(k, c))])
  {
    var t, x := Next(cfg, s, Advance(k, c)), AccessOf(cfg, s, Advance(k, c));
    ActReads(cfg, s, k, c);
    ReadsFirstStays(log, x);
    ValueOfOneMore(log, x);
    forall j | j in t.pcs && t.pcs[j].Dropping? && t.pcs[j].read.Some?
      ensures HoldsLastRead(t.pcs[j].read.value, log + [x], j)
    {
      if j == k {
        ValueOfPrefix(log, x, |log|);
      } else {
        StillHolds(t.pcs[j].read.value, log, j, x);
      }
    }
  }

  lemma OtherStepFollows(cfg: Config, s: State, log: seq<Access>, step: Step)
    requires Follows(s.drops, s.pcs, log) && !step.Advance?
    ensures var t := Next(cfg, s, step); Follows(t.drops, t.pcs, log + [NoAccess])
  {
    var t := Next(cfg, s, step);
    ReadsFirstStays(log, NoAccess);
    ValueOfOneMore(log, NoAccess);
    forall j | j in t.pcs && t.pcs[j].Dropping? && t.pcs[j].read.Some?
      ensures HoldsLastRead(t.pcs[j].read.value, log + [NoAccess], j)
    {
      StillHolds(t.pcs[j].read.value, log, j, NoAccess);
    }
  }

  lemma {:induction false} RunFollowsLog(cfg: Config, run: seq<Step>)
    requires |run| <= U64_MAX
    ensures Follows(Execute(cfg, run).drops, Execute(cfg, run).pcs, Log(cfg, run))
  {
    if run != [] {
      var n := |run| - 1;
      RunFollowsLog(cfg, run[..n]);
      RunKeepsDropInv(cfg, run[..n]);
      if run[n].Advance? {
        AdvanceFollows(cfg, Execute(cfg, run[..n]), Log(cfg, run[..n]), run[n].key, run[n].choice);
      } else {
        OtherStepFollows(cfg, Execute(cfg, run[..n]), Log(cfg, run[..n]), run[n]);
      }
    }
  }

  /**
   The counter is at most the number of increments written, and equal to it exactly when no increment is written
   between the read and the write of another.
   */
  lemma CountIsExactIff(cfg: Config, run: seq<Step>)
    requires |run| <= U64_MAX
    ensures var log := Log(cfg, run);
            && Execute(cfg, run).drops <= Writes(log, |log|)
            && (Execute(cfg, run).drops == Writes(log, |log|) <==> forall n :: 0 <= n < |log| ==> !Overtakes(log, n))
  {
    RunFollowsLog(cfg, run);
    ValueIsExactIff(Log(cfg, run), |run|);
  }
}
