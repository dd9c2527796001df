/** Whom the slicer credits when a descriptor is closed: the instance that opened it for writing, through forks. */
module SliceOpeners {
  import opened Text
  import opened Trace
  import opened Descriptors
  import opened SliceScan
  import opened SlicePaths

  /** The write that an event starts on its descriptor: a writable open, or a writable shared mapping. */
  function Starts(e: Event): Option<Pending>
  {
    match e
    case FileOpen(process, path, flags, _, external, _) =>
      if !external && CanWrite(flags) then Some(Pending(process, path)) else None
    case FileMmap(process, _, prot, flags, mapped, external, seen) =>
      if !external && mapped.Some? && seen.Some? && IsSharedWrite(prot, flags) then
        Some(Pending(process, mapped.value))
      else None
    case _ => None
  }

  predicate StartsAt(e: Event, l: Lifetime, fd: int)
  {
    Starts(e).Some? && e.process.lifetime == l && e.fd == fd
  }

  predicate EndsAt(e: Event, l: Lifetime, fd: int)
  {
    e.FileClose? && !e.external && e.process.lifetime == l && e.fd == fd
  }

  /** The open write behind a descriptor, read off the trace alone: who started it, and where its path is by now. */
  function OwnerOf(events: seq<Event>, l: Lifetime, fd: int): Option<Pending>
  {
    if events == [] then None
    else
      var before, e := events[..|events| - 1], events[|events| - 1];
      if StartsAt(e, l, fd) then Starts(e)
      else if EndsAt(e, l, fd) then None
      else if e.Fork? && e.child.lifetime == l && OwnerOf(before, e.parent.lifetime, fd).Some? then
        OwnerOf(before, e.parent.lifetime, fd)
      else
        match OwnerOf(before, l, fd)
        case None => None
        case Some(o) =>
          if e.FileRename? && !e.external then Some(o.(path := Moved(o.path, e.from, e.to))) else Some(o)
  }

  function Lookup(pending: map<Slot, Pending>, l: Lifetime, fd: int): Option<Pending>
  {
    if (l, fd) in pending then Some(pending[(l, fd)]) else None
  }

  /** The open write that a slot holds after one event. */
  function NextLookup(s: Scan, e: Event, l: Lifetime, fd: int): Option<Pending>
  {
    if StartsAt(e, l, fd) then Starts(e)
    else if EndsAt(e, l, fd) then None
    else if e.Fork? && e.child.lifetime == l && Lookup(s.pending, e.parent.lifetime, fd).Some? then
      Lookup(s.pending, e.parent.lifetime, fd)
    else
      match Lookup(s.pending, l, fd)
      case None => None
      case Some(o) =>
        if e.FileRename? && !e.external then Some(o.(path := Moved(o.path, e.from, e.to))) else Some(o)
  }

  lemma ForkLookup(s: Scan, e: Event, l: Lifetime, fd: int)
    requires e.Fork?
    ensures Lookup(SliceScan.OnFork(s, e).pending, l, fd) == NextLookup(s, e, l, fd)
  {
    var after := Inherit(s.pending, e.parent.lifetime, e.child.lifetime);
    assert (l, fd) in after <==>
      (l, fd) in s.pending || Inherits(s.pending, e.parent.lifetime, e.child.lifetime, (l, fd));
  }

  lemma OpenLookup(s: Scan, e: Event, l: Lifetime, fd: int)
    requires e.FileOpen?
    ensures Lookup(SliceScan.OnOpen(s, e).pending, l, fd) == NextLookup(s, e, l, fd)
  {
    assert (e.process.lifetime, e.fd) == (l, fd) <==> e.process.lifetime == l && e.fd == fd;
  }

  lemma MmapLookup(s: Scan, e: Event, l: Lifetime, fd: int)
    requires e.FileMmap?
    ensures Lookup(SliceScan.OnMmap(s, e).pending, l, fd) == NextLookup(s, e, l, fd)
  {
    assert (e.process.lifetime, e.fd) == (l, fd) <==> e.process.lifetime == l && e.fd == fd;
  }

  lemma CloseLookup(s: Scan, e: Event, l: Lifetime, fd: int)
    requires e.FileClose?
    ensures Lookup(SliceScan.OnClose(s, e).pending, l, fd) == NextLookup(s, e, l, fd)
  {
    assert (e.process.lifetime, e.fd) == (l, fd) <==> e.process.lifetime == l && e.fd == fd;
  }

  lemma RenameLookup(s: Scan, e: Event, l: Lifetime, fd: int)
    requires e.FileRename?
    ensures Lookup(SliceScan.OnRename(s, e).pending, l, fd) == NextLookup(s, e, l, fd)
  {
  }

  lemma StepLookup(root: Instance, s: Scan, e: Event, l: Lifetime, fd: int)
    ensures Lookup(ScanStep(root, s, e).pending, l, fd) == NextLookup(s, e, l, fd)
  {
    match e
    case Fork(_, _) => ForkLookup(s, e, l, fd);
    case FileOpen(_, _, _, _, _, _) => OpenLookup(s, e, l, fd);
    case FileMmap(_, _, _, _, _, _, _) => MmapLookup(s, e, l, fd);
    case FileClose(_, _, _, _, _) => CloseLookup(s, e, l, fd);
    case FileRename(_, _, _, _, _, _) => RenameLookup(s, e, l, fd);
    case _ =>
  }

  /** The table of open writes is a function of the trace: it never depends on the order of map iteration. */
  lemma {:induction false} PendingIsOwner(root: Instance, events: seq<Event>, l: Lifetime, fd: int)
    ensures Lookup(ScanRun(root, events).pending, l, fd) == OwnerOf(events, l, fd)
    decreases |events|
  {
    if events != [] {
      var n := |events| - 1;
      PendingIsOwner(root, events[..n], l, fd);
      if events[n].Fork? { PendingIsOwner(root, events[..n], events[n].parent.lifetime, fd); }
      StepLookup(root, ScanRun(root, events[..n]), events[n], l, fd);
    }
  }

  // ---------------------------------------------------------------------------------------------
  // The same, declaratively: a chain of lifetimes that hands the descriptor from its opener to the closer.

  /** Event `j` passes descriptor `fd` from lifetime `a` on to `b`, or leaves it with `a == b`. */
  ghost predicate Passes(events: seq<Event>, j: nat, a: Lifetime, b: Lifetime, fd: int)
    requires j < |events|
  {
    var e := events[j];
    || (e.Fork? && e.parent.lifetime == a && e.child.lifetime == b)
    || (a == b && !StartsAt(e, a, fd) && !EndsAt(e, a, fd)
        && !(e.Fork? && e.child.lifetime == a && OwnerOf(events[..j], e.parent.lifetime, fd).Some?))
  }

  /** `chain[k]` holds the descriptor after event `i + k`; event `i` started the write. */
  ghost predicate HandedOn(events: seq<Event>, i: nat, chain: seq<Lifetime>, fd: int)
  {
    && i < |events| && |chain| == |events| - i
    && StartsAt(events[i], chain[0], fd)
    && forall k :: 1 <= k < |chain| ==> Passes(events, i + k, chain[k - 1], chain[k], fd)
  }

  lemma PassesOnPrefix(events: seq<Event>, j: nat, a: Lifetime, b: Lifetime, fd: int)
    requires j < |events| - 1
    ensures Passes(events, j, a, b, fd) <==> Passes(events[..|events| - 1], j, a, b, fd)
  {
    assert events[..|events| - 1][..j] == events[..j];
  }

  lemma HandedOnPrefix(events: seq<Event>, i: nat, chain: seq<Lifetime>, fd: int)
    requires HandedOn(events, i, chain, fd) && |chain| > 1
    ensures HandedOn(events[..|events| - 1], i, chain[..|chain| - 1], fd)
  {
    forall k | 1 <= k < |chain| - 1 ensures Passes(events[..|events| - 1], i + k, chain[k - 1], chain[k], fd) {
      PassesOnPrefix(events, i + k, chain[k - 1], chain[k], fd);
    }
  }

  lemma HandedOnExtend(events: seq<Event>, i: nat, chain: seq<Lifetime>, fd: int, l: Lifetime)
    requires events != [] && HandedOn(events[..|events| - 1], i, chain, fd)
    requires Passes(events, |events| - 1, chain[|chain| - 1], l, fd)
    ensures HandedOn(events, i, chain + [l], fd)
  {
    var longer := chain + [l];
    forall k | 1 <= k < |longer| ensures Passes(events, i + k, longer[k - 1], longer[k], fd) {
      if k < |chain| { PassesOnPrefix(events, i + k, chain[k - 1], chain[k], fd); }
    }
  }

  lemma {:induction false} OwnerHasChain(events: seq<Event>, l: Lifetime, fd: int)
        returns (i: nat, chain: seq<Lifetime>)
    requires OwnerOf(events, l, fd).Some?
    ensures HandedOn(events, i, chain, fd) && chain[|chain| - 1] == l
    ensures events[i].process == OwnerOf(events, l, fd).value.process
    decreases |events|
  {
    var n := |events| - 1;
    var e := events[n];
    if StartsAt(e, l, fd) {
      i, chain := n, [l];
    } else {
      var from := if e.Fork? && e.child.lifetime == l && OwnerOf(events[..n], e.parent.lifetime, fd).Some?
                  then e.parent.lifetime else l;
      i, chain := OwnerHasChain(events[..n], from, fd);
      HandedOnExtend(events, i, chain, fd, l);
      chain := chain + [l];
    }
  }

  lemma {:induction false} ChainHasOwner(events: seq<Event>, i: nat, chain: seq<Lifetime>, fd: int)
    requires HandedOn(events, i, chain, fd)
    ensures var owner := OwnerOf(events, chain[|chain| - 1], fd);
            owner.Some? && owner.value.process == events[i].process
    decreases |events|
  {
    var n := |events| - 1;
    if |chain| == 1 {
      assert StartsAt(events[n], chain[0], fd);
    } else {
      HandedOnPrefix(events, i, chain, fd);
      ChainHasOwner(events[..n], i, chain[..|chain| - 1], fd);
      assert Passes(events, i + (|chain| - 1), chain[|chain| - 2], chain[|chain| - 1], fd);
    }
  }

  ghost predicate HandedFrom(events: seq<Event>, i: nat, chain: seq<Lifetime>, l: Lifetime, fd: int, w: Instance)
  {
    HandedOn(events, i, chain, fd) && chain[|chain| - 1] == l && events[i].process == w
  }

  /** Some write that `w` started was handed on to descriptor `fd` of `l`. */
  ghost predicate HandedTo(events: seq<Event>, l: Lifetime, fd: int, w: Instance)
  {
    exists i: nat, chain :: HandedFrom(events, i, chain, l, fd, w)
  }

  lemma OwnerIffHanded(events: seq<Event>, l: Lifetime, fd: int, w: Instance)
    ensures OwnerOf(events, l, fd).Some? && OwnerOf(events, l, fd).value.process == w <==> HandedTo(events, l, fd, w)
  {
    if OwnerOf(events, l, fd).Some? {
      var i, chain := OwnerHasChain(events, l, fd);
      assert HandedFrom(events, i, chain, l, fd, OwnerOf(events, l, fd).value.process);
    }
    if HandedTo(events, l, fd, w) {
      var i: nat, chain :| HandedFrom(events, i, chain, l, fd, w);
      ChainHasOwner(events, i, chain, fd);
    }
  }

  predicate Owns(s: Scan, l: Lifetime, fd: int, w: Instance)
  {
    Lookup(s.pending, l, fd).Some? && Lookup(s.pending, l, fd).value.process == w
  }

  /**
   Opener attribution: the slicer holds an open write of instance `w` at a descriptor exactly when `w` started a
   write that was handed on to it, through forks and undisturbed by any other open, mapping or close on the way.
   */
  lemma OpenWriteBelongsToOpener(root: Instance, events: seq<Event>, l: Lifetime, fd: int, w: Instance)
    ensures Owns(ScanRun(root, events), l, fd, w) <==> HandedTo(events, l, fd, w)
  {
    PendingIsOwner(root, events, l, fd);
    OwnerIffHanded(events, l, fd, w);
  }

  /** An instance that started no write in the trace so far is never the owner of one. */
  lemma NonOpenerOwnsNothing(root: Instance, events: seq<Event>, slot: Slot)
    requires slot in ScanRun(root, events).pending
    ensures exists i :: 0 <= i < |events| && Starts(events[i]).Some?
                        && events[i].process == ScanRun(root, events).pending[slot].process
  {
    assert slot == (slot.0, slot.1);
    PendingIsOwner(root, events, slot.0, slot.1);
    var i, chain := OwnerHasChain(events, slot.0, slot.1);
    assert StartsAt(events[i], chain[0], slot.1);
  }

  /** A close books the write for the instance whose open was handed on to the closed descriptor. */
  lemma CloseCreditsOpener(root: Instance, events: seq<Event>, i: nat)
    requires i < |events| && Credits(ScanRun(root, events[..i]), events[i]).Some?
    ensures HandedTo(events[..i], events[i].process.lifetime, events[i].fd,
                     Credits(ScanRun(root, events[..i]), events[i]).value.0)
  {
    var e := events[i];
    var w := Credits(ScanRun(root, events[..i]), e).value.0;
    assert Owns(ScanRun(root, events[..i]), e.process.lifetime, e.fd, w);
    OpenWriteBelongsToOpener(root, events[..i], e.process.lifetime, e.fd, w);
  }
}
