/**
 The scan of the output slicer: which process read, wrote and renamed which content, who wrote which path, and
 which writes are still open.  `ScanStep` is one event; `ScanEvents` is the imperative pass with its inner loops
 over hash maps, whose order is arbitrary.
 */
module SliceScan {
  import opened Text
  import opened Trace
  import opened Paths
  import opened Descriptors

  type Writers = map<string, set<Instance>>

  datatype Flow = Flow(tool: Option<string>, hasExec: bool, input: set<string>, output: set<string>,
    renamed: set<string>)

  const EMPTY_FLOW := Flow(None, false, {}, {}, {})

  datatype Pending = Pending(process: Instance, path: string)

  datatype Scan = Scan(
    flows: map<Instance, Flow>,
    pending: map<Slot, Pending>,
    byHash: Writers,
    byPath: Writers,
    renames: seq<(string, string)>,
    rootExit: Option<(Instance, int)>)

  const START := Scan(map[], map[], map[], map[], [], None)

  function FlowOf(flows: map<Instance, Flow>, p: Instance): Flow
  {
    if p in flows then flows[p] else EMPTY_FLOW
  }

  function Get(m: Writers, k: string): set<Instance>
  {
    if k in m then m[k] else {}
  }

  function Credit(m: Writers, k: string, p: Instance): (r: Writers)
  {
    m[k := Get(m, k) + {p}]
  }

  /** The content hash that an access to `path` counts as a read of. */
  function ReadHash(path: string, o: Observation): Option<string>
  {
    if IsSystemState(path) then Some(SYSTEM_STATE_SENTINEL) else o.ContentHash()
  }

  function Reads(flows: map<Instance, Flow>, p: Instance, hash: Option<string>): map<Instance, Flow>
  {
    match hash
    case None => flows
    case Some(h) => var f := FlowOf(flows, p); flows[p := f.(input := f.input + {h})]
  }

  function AddRead(s: Scan, p: Instance, hash: Option<string>): Scan
  {
    s.(flows := Reads(s.flows, p, hash))
  }

  function OnExec(s: Scan, e: Event): Scan
    requires e.Exec?
  {
    var f := FlowOf(s.flows, e.process);
    s.(flows := s.flows[e.process := f.(tool := Some(e.observation.Identity()), hasExec := true)])
  }

  function OnFork(s: Scan, e: Event): Scan
    requires e.Fork?
  {
    var inherited := if e.parent in s.flows then s.flows[e.parent].tool else None;
    s.(flows := s.flows[e.child := FlowOf(s.flows, e.child).(tool := inherited)],
       pending := Inherit(s.pending, e.parent.lifetime, e.child.lifetime))
  }

  function OnOpen(s: Scan, e: Event): Scan
    requires e.FileOpen?
  {
    if e.external then s
    else
      var s1 := if CanRead(e.flags) then AddRead(s, e.process, ReadHash(e.path, e.observation)) else s;
      if CanWrite(e.flags) then
        s1.(pending := s1.pending[(e.process.lifetime, e.fd) := Pending(e.process, e.path)])
      else s1
  }

  function OnMmap(s: Scan, e: Event): Scan
    requires e.FileMmap?
  {
    if e.external || e.mapped.None? || e.seen.None? then s
    else
      var s1 := AddRead(s, e.process, ReadHash(e.mapped.value, e.seen.value));
      if IsSharedWrite(e.prot, e.flags) then
        s1.(pending := s1.pending[(e.process.lifetime, e.fd) := Pending(e.process, e.mapped.value)])
      else s1
  }

  /** Set the flow of `p`, and credit it with content `h`. */
  function AddProduct(s: Scan, p: Instance, f: Flow, h: string): Scan
  {
    s.(flows := s.flows[p := f], byHash := Credit(s.byHash, h, p))
  }

  function BookPath(s: Scan, p: Instance, path: string): Scan
  {
    s.(byPath := Credit(s.byPath, path, p))
  }

  /** Book a finished write: the opener wrote `path`, and the content if it could be hashed. */
  function Book(s: Scan, p: Instance, path: string, o: Observation): Scan
  {
    var s1, f := BookPath(s, p, path), FlowOf(s.flows, p);
    match o.ContentHash()
    case None => s1
    case Some(h) => AddProduct(s1, p, f.(output := f.output + {h}), h)
  }

  function OnClose(s: Scan, e: Event): Scan
    requires e.FileClose?
  {
    var slot := (e.process.lifetime, e.fd);
    if e.external || slot !in s.pending then s
    else
      var entry, s1 := s.pending[slot], s.(pending := s.pending - {slot});
      if e.seen.None? then s1
      else Book(s1, entry.process, if e.closed.Some? then e.closed.value else entry.path, e.seen.value)
  }

  function Moved(path: string, from: string, to: string): string
  {
    match RewritePrefix(path, from, to) case Some(moved) => moved case None => path
  }

  function MovePending(pending: map<Slot, Pending>, from: string, to: string): map<Slot, Pending>
  {
    map slot | slot in pending :: pending[slot].(path := Moved(pending[slot].path, from, to))
  }

  /** The paths that a rename makes aliases of recorded ones. */
  function Images(m: Writers, from: string, to: string): set<string>
  {
    set path | path in m && Under(path, from) :: to + path[|from|..]
  }

  /** Who gains credit for `path` when everything under `from` is also known under `to`. */
  function Gained(m: Writers, from: string, to: string, path: string): set<Instance>
  {
    if Under(path, to) then Get(m, from + path[|to|..]) else {}
  }

  /** Copy the writers of every path under `from` to its image under `to`. */
  function Alias(m: Writers, from: string, to: string): Writers
  {
    map path | path in m.Keys + Images(m, from, to) :: Get(m, path) + Gained(m, from, to, path)
  }

  /** What a rename does to paths, whatever the identity of the moved file. */
  function MovePaths(s: Scan, p: Instance, from: string, to: string): Scan
  {
    s.(pending := MovePending(s.pending, from, to),
       byPath := Credit(Alias(s.byPath, from, to), to, p),
       renames := s.renames + [(from, to)])
  }

  function OnRename(s: Scan, e: Event): Scan
    requires e.FileRename?
  {
    if e.external then s
    else
      var s1, f := MovePaths(s, e.process, e.from, e.to), FlowOf(s.flows, e.process);
      match e.observation.ContentHash()
      case None => s1
      case Some(h) => AddProduct(s1, e.process, f.(input := f.input + {h}, renamed := f.renamed + {h}), h)
  }

  function ScanStep(root: Instance, s: Scan, e: Event): Scan
  {
    match e
    case Exec(_, _) => OnExec(s, e)
    case Fork(_, _) => OnFork(s, e)
    case FileOpen(_, _, _, _, _, _) => OnOpen(s, e)
    case FileMmap(_, _, _, _, _, _, _) => OnMmap(s, e)
    case FileClose(_, _, _, _, _) => OnClose(s, e)
    case FileRename(_, _, _, _, _, _) => OnRename(s, e)
    case FileUnlink(_, _, _, _, _) => s
    case Exit(p, code) => if p.lifetime == root.lifetime then s.(rootExit := Some((p, code))) else s
  }

  function ScanRun(root: Instance, events: seq<Event>): Scan
  {
    if events == [] then START
    else ScanStep(root, ScanRun(root, events[..|events| - 1]), events[|events| - 1])
  }

  /** The fixup after the scan: re-apply every rename alias, in trace order. */
  function Fixup(m: Writers, renames: seq<(string, string)>): Writers
    decreases renames
  {
    if renames == [] then m else Fixup(Alias(m, renames[0].0, renames[0].1), renames[1..])
  }

  lemma ScanRunStep(root: Instance, events: seq<Event>, i: nat)
    requires i < |events|
    ensures ScanRun(root, events[..i + 1]) == ScanStep(root, ScanRun(root, events[..i]), events[i])
  {
    assert events[..i + 1][..i] == events[..i];
  }

  // ---------------------------------------------------------------------------------------------
  // The imperative pass.

  method RewritePending(pending: map<Slot, Pending>, from: string, to: string) returns (result: map<Slot, Pending>)
    ensures result == MovePending(pending, from, to)
  {
    result := pending;
    var rest := pending.Keys;
    while rest != {}
      invariant result.Keys == pending.Keys && rest <= pending.Keys
      invariant forall slot :: slot in pending ==>
        (result[slot] == if slot in rest then pending[slot]
                         else pending[slot].(path := Moved(pending[slot].path, from, to)))
      decreases rest
    {
      var slot :| slot in rest;
      match RewritePrefix(result[slot].path, from, to)
      {
        case Some(moved) => result := result[slot := result[slot].(path := moved)];
        case None =>
      }
      rest := rest - {slot};
    }
  }

  /** Collect the aliases of the current paths first, then enter them. */
  method AliasWriters(m: Writers, from: string, to: string) returns (result: Writers)
    ensures result == Alias(m, from, to)
  {
    var rest := set path | path in m && Under(path, from);
    result := m;
    while rest != {}
      invariant forall path :: path in rest ==> path in m && Under(path, from)
      invariant forall path :: path in result <==> path in m || AliasDone(m, rest, from, to, path)
      invariant forall path :: path in result ==>
        (result[path] ==
           if AliasDone(m, rest, from, to, path) then Get(m, path) + Gained(m, from, to, path) else Get(m, path))
      decreases rest
    {
      var path :| path in rest;
      var image := to + path[|from|..];
      AliasStep(m, rest, from, to, path);
      result := result[image := Get(result, image) + m[path]];
      rest := rest - {path};
    }
    AliasComplete(m, from, to, result);
  }

  /** `path` is the image of a recorded path that the loop has already entered. */
  ghost predicate AliasDone(m: Writers, rest: set<string>, from: string, to: string, path: string)
  {
    Under(path, to) && from + path[|to|..] in m && from + path[|to|..] !in rest
  }

  lemma SourceOfImage(from: string, to: string, path: string)
    requires Under(path, from)
    ensures var image := to + path[|from|..];
            Under(image, to) && from + image[|to|..] == path
  {
    var image := to + path[|from|..];
    assert image[|to|..] == path[|from|..];
  }

  lemma ImageOfSource(from: string, to: string, path: string)
    requires Under(path, to)
    ensures var source := from + path[|to|..];
            Under(source, from) && to + source[|from|..] == path
  {
    SourceOfImage(to, from, path);
  }

  lemma AliasStep(m: Writers, rest: set<string>, from: string, to: string, path: string)
    requires path in rest && path in m && Under(path, from)
    ensures var image := to + path[|from|..];
            && AliasDone(m, rest - {path}, from, to, image) && !AliasDone(m, rest, from, to, image)
            && Gained(m, from, to, image) == m[path]
    ensures forall q :: q != to + path[|from|..] ==>
      (AliasDone(m, rest - {path}, from, to, q) <==> AliasDone(m, rest, from, to, q))
  {
    SourceOfImage(from, to, path);
    forall q | q != to + path[|from|..]
      ensures AliasDone(m, rest - {path}, from, to, q) <==> AliasDone(m, rest, from, to, q)
    {
      if Under(q, to) { ImageOfSource(from, to, q); }
    }
  }

  lemma AliasComplete(m: Writers, from: string, to: string, result: Writers)
    requires forall path :: path in result <==> path in m || AliasDone(m, {}, from, to, path)
    requires forall path :: path in result ==>
      (result[path] ==
         if AliasDone(m, {}, from, to, path) then Get(m, path) + Gained(m, from, to, path) else Get(m, path))
    ensures result == Alias(m, from, to)
  {
    forall path ensures AliasDone(m, {}, from, to, path) <==> path in Images(m, from, to) {
      if AliasDone(m, {}, from, to, path) { ImageOfSource(from, to, path); }
      if path in Images(m, from, to) {
        var source :| source in m && Under(source, from) && path == to + source[|from|..];
        SourceOfImage(from, to, source);
      }
    }
    forall path | path in result ensures result[path] == Get(m, path) + Gained(m, from, to, path) {
      if !AliasDone(m, {}, from, to, path) { assert Gained(m, from, to, path) == {}; }
    }
  }

  /** The arm of the scan for a close: the write that is still open, if any, is finished by whoever started it. */
  method FinishWrite(s: Scan, e: Event) returns (s': Scan)
    requires e.FileClose?
    ensures s' == OnClose(s, e)
  {
    var slot := (e.process.lifetime, e.fd);
    s' := s;
    if !e.external && slot in s.pending {
      var entry := s.pending[slot];
      s' := s'.(pending := s.pending - {slot});
      if e.seen.Some? {
        var path := if e.closed.Some? then e.closed.value else entry.path;
        s' := s'.(byPath := Credit(s'.byPath, path, entry.process));
        if e.seen.value.Content? {
          var flow, h := FlowOf(s'.flows, entry.process), e.seen.value.hash;
          s' := s'.(flows := s'.flows[entry.process := flow.(output := flow.output + {h})],
                    byHash := Credit(s'.byHash, h, entry.process));
        }
      }
    }
  }

  /** The arm of the scan for a rename. */
  method FollowRename(s: Scan, e: Event) returns (s': Scan)
    requires e.FileRename?
    ensures s' == OnRename(s, e)
  {
    s' := s;
    if !e.external {
      var pending := RewritePending(s.pending, e.from, e.to);
      var byPath := AliasWriters(s.byPath, e.from, e.to);
      byPath := Credit(byPath, e.to, e.process);
      s' := s'.(pending := pending, byPath := byPath, renames := s.renames + [(e.from, e.to)]);
      if e.observation.Content? {
        var flow, h := FlowOf(s.flows, e.process), e.observation.hash;
        s' := s'.(flows := s.flows[e.process := flow.(input := flow.input + {h}, renamed := flow.renamed + {h})],
                  byHash := Credit(s.byHash, h, e.process));
      }
    }
  }

  /** One event of the scan, the inner loops included. */
  method ScanEvent(root: Instance, s: Scan, e: Event) returns (s': Scan)
    ensures s' == ScanStep(root, s, e)
  {
    s' := s;
    match e {
      case Exec(process, observation) =>
        var flow := FlowOf(s.flows, process);
        s' := s.(flows := s.flows[process := flow.(tool := Some(observation.Identity()), hasExec := true)]);
      case Fork(parent, child) =>
        var tool := if parent in s.flows then s.flows[parent].tool else None;
        var pending := InheritWrites(s.pending, parent.lifetime, child.lifetime);
        s' := s.(flows := s.flows[child := FlowOf(s.flows, child).(tool := tool)], pending := pending);
      case FileOpen(process, path, flags, fd, external, observation) =>
        if !external {
          if CanRead(flags) { s' := s'.(flows := Reads(s.flows, process, ReadHash(path, observation))); }
          if CanWrite(flags) { s' := s'.(pending := s.pending[(process.lifetime, fd) := Pending(process, path)]); }
        }
      case FileMmap(process, fd, prot, flags, mapped, external, seen) =>
        if !external && mapped.Some? && seen.Some? {
          s' := s'.(flows := Reads(s.flows, process, ReadHash(mapped.value, seen.value)));
          if IsSharedWrite(prot, flags) {
            s' := s'.(pending := s.pending[(process.lifetime, fd) := Pending(process, mapped.value)]);
          }
        }
      case FileClose(_, _, _, _, _) => s' := FinishWrite(s, e);
      case FileRename(_, _, _, _, _, _) => s' := FollowRename(s, e);
      case FileUnlink(_, _, _, _, _) =>
      case Exit(process, exitCode) =>
        if process.lifetime == root.lifetime { s' := s.(rootExit := Some((process, exitCode))); }
    }
  }

  method ScanEvents(root: Instance, events: seq<Event>) returns (s: Scan)
    ensures s == ScanRun(root, events)
  {
    s := START;
    for i := 0 to |events|
      invariant s == ScanRun(root, events[..i])
    {
      ScanRunStep(root, events, i);
      s := ScanEvent(root, s, events[i]);
    }
    assert events[..|events|] == events;
  }

  /** The loop after the scan. */
  method ReapplyRenames(m: Writers, renames: seq<(string, string)>) returns (result: Writers)
    ensures result == Fixup(m, renames)
  {
    result := m;
    for i := 0 to |renames|
      invariant Fixup(result, renames[i..]) == Fixup(m, renames)
    {
      assert renames[i..][1..] == renames[i + 1..];
      result := AliasWriters(result, renames[i].0, renames[i].1);
    }
  }
}
