/** The imperative pass of `canonicalize_events`: the variables of its loop and one method for each kind of event. */
module CanonicalPass {
  import opened Text
  import opened Trace
  import opened Paths
  import opened Operations
  import opened Descriptors
  import opened Canonicalizer

  class Pass {
    const config: Config
    var ops: seq<CanonicalOp>
    var external: seq<CanonicalOp>
    var index: map<Instance, nat>
    var next: nat
    var pending: map<Slot, nat>
    var externalPending: map<Slot, nat>
    var fallback: set<Lifetime>
    var tools: map<Instance, string>

    constructor (config: Config)
      ensures this.config == config && Value() == Initial(config.root)
    {
      this.config := config;
      ops, external := [], [];
      index, next := map[config.root := 0], 1;
      pending, externalPending := map[], map[];
      fallback, tools := {}, map[];
    }

    function Value(): State
      reads this
    {
      State(ops, external, index, next, pending, externalPending, fallback, tools)
    }

    method ProcessIndex(process: Instance) returns (i: nat)
      modifies this`index, this`next
      ensures Value() == Register(old(Value()), process)
      ensures process in index && i == index[process]
    {
      if process !in index {
        index := index[process := next];
        next := next + 1;
      }
      i := index[process];
    }

    method Push(t: OpType, i: nat, tool: Option<string>, args: seq<string>, inputs: seq<string>, outputs: seq<string>)
      modifies this`ops
      ensures ops == old(ops) + [CanonicalOp(t, i, tool, args, inputs, outputs)]
    {
      ops := ops + [CanonicalOp(t, i, tool, args, inputs, outputs)];
    }

    method PushExternal(t: OpType, args: seq<string>, inputs: seq<string>, outputs: seq<string>)
      modifies this`external
      ensures external == old(external) + [CanonicalOp(t, U32_MAX, None, args, inputs, outputs)]
    {
      external := external + [CanonicalOp(t, U32_MAX, None, args, inputs, outputs)];
    }

    function Tool(process: Instance): Option<string>
      reads this`tools
    {
      ToolOf(tools, process)
    }

    /** A fork-tree event on a watched path by a process that is not known to belong to the build. */
    predicate FallbackExternal(process: Instance, external: bool, watched: bool)
      reads this
    {
      !external && process.lifetime != config.root.lifetime && watched
      && (process.lifetime in fallback || process !in tools)
    }

    method OnExec(e: Event)
      requires e.Exec?
      modifies this
      ensures Value() == Step(config, old(Value()), e)
    {
      var i := ProcessIndex(e.process);
      var tool := e.observation.Identity();
      tools := tools[e.process := tool];
      Push(ExecOp, i, Some(tool), [], [], []);
    }

    method OnFork(e: Event)
      requires e.Fork?
      modifies this
      ensures Value() == Step(config, old(Value()), e)
    {
      if e.parent in tools {
        tools := tools[e.child := tools[e.parent]];
      }
      pending := InheritWrites(pending, e.parent.lifetime, e.child.lifetime);
    }

    method OnExternalOpen(e: Event)
      requires e.FileOpen? && (e.external ==> Watched(e.path, config.prefixes))
      requires e.external || FallbackExternal(e.process, e.external, Watched(e.path, config.prefixes))
      modifies this
      ensures Value() == Step(config, old(Value()), e)
    {
      fallback := fallback + {e.process.lifetime};
      if CanRead(e.flags) {
        PushExternal(ExternalReadOp, [], [e.observation.Identity()], []);
      }
      if CanWrite(e.flags) {
        externalPending := externalPending[(e.process.lifetime, e.fd) := |external|];
        PushExternal(ExternalWriteOp, [], [], []);
      }
    }

    method OnOpen(e: Event)
      requires e.FileOpen?
      modifies this
      ensures Value() == Step(config, old(Value()), e)
    {
      var process, watched := e.process, Watched(e.path, config.prefixes);
      if e.external && !watched {
        return;
      }
      if e.external || FallbackExternal(process, e.external, watched) {
        OnExternalOpen(e);
        return;
      }
      var i := ProcessIndex(process);
      if IsSystemState(e.path) {
        Push(SystemStateOp, i, Tool(process), [], [SYSTEM_STATE_SENTINEL], []);
      } else {
        if CanRead(e.flags) {
          Push(ReadOp, i, Tool(process), [], [e.observation.Identity()], []);
        }
        if CanWrite(e.flags) {
          pending := pending[(process.lifetime, e.fd) := |ops|];
          Push(WriteOp, i, Tool(process), [], [], []);
        }
      }
    }

    method OnExternalMmap(e: Event)
      requires e.FileMmap? && e.mapped.Some? && e.seen.Some?
      requires e.external ==> Watched(e.mapped.value, config.prefixes)
      requires e.external || FallbackExternal(e.process, e.external, Watched(e.mapped.value, config.prefixes))
      modifies this
      ensures Value() == Step(config, old(Value()), e)
    {
      var slot := (e.process.lifetime, e.fd);
      ghost var d := Decide(config, ViewOf(Value(), e.process), e);
      fallback := fallback + {e.process.lifetime};
      PushExternal(ExternalReadOp, ["mmap"], [e.seen.value.Identity()], []);
      assert Value() == Emitted(Note(old(Value()), e.process, d), e.process, d);
      if IsSharedWrite(e.prot, e.flags) && slot !in externalPending {
        externalPending := externalPending[slot := |external|];
        PushExternal(ExternalWriteOp, [], [], []);
      }
    }

    method OnForkTreeMmap(e: Event)
      requires e.FileMmap? && e.mapped.Some? && e.seen.Some? && !e.external
      requires !FallbackExternal(e.process, e.external, Watched(e.mapped.value, config.prefixes))
      modifies this
      ensures Value() == Step(config, old(Value()), e)
    {
      var process, slot := e.process, (e.process.lifetime, e.fd);
      ghost var d := Decide(config, ViewOf(Value(), process), e);
      var i := ProcessIndex(process);
      if IsSystemState(e.mapped.value) {
        Push(SystemStateOp, i, Tool(process), [], [SYSTEM_STATE_SENTINEL], []);
        return;
      }
      Push(ReadOp, i, Tool(process), ["mmap"], [e.seen.value.Identity()], []);
      assert Value() == Emitted(Note(old(Value()), process, d), process, d);
      if IsSharedWrite(e.prot, e.flags) && slot !in pending {
        pending := pending[slot := |ops|];
        Push(WriteOp, i, Tool(process), [], [], []);
      }
    }

    method OnMmap(e: Event)
      requires e.FileMmap?
      modifies this
      ensures Value() == Step(config, old(Value()), e)
    {
      if e.mapped.None? || e.seen.None? || (e.external && !Watched(e.mapped.value, config.prefixes)) {
        return;
      }
      if e.external || FallbackExternal(e.process, e.external, Watched(e.mapped.value, config.prefixes)) {
        OnExternalMmap(e);
      } else {
        OnForkTreeMmap(e);
      }
    }

    method OnClose(e: Event)
      requires e.FileClose?
      modifies this
      ensures Value() == Step(config, old(Value()), e)
    {
      if e.closed.None? {
        return;
      }
      var slot := (e.process.lifetime, e.fd);
      var fallsBack := !e.external && e.process.lifetime != config.root.lifetime
                       && e.process.lifetime in fallback && Watched(e.closed.value, config.prefixes);
      if e.external || fallsBack {
        if slot in externalPending {
          var i := externalPending[slot];
          externalPending := externalPending - {slot};
          if i < |external| && e.seen.Some? {
            external := external[i := external[i].(outputs := [e.seen.value.Identity()])];
          }
        }
      } else if slot in pending {
        var i := pending[slot];
        pending := pending - {slot};
        if i < |ops| && e.seen.Some? {
          ops := ops[i := ops[i].(outputs := [e.seen.value.Identity()])];
        }
      }
    }

    method OnRename(e: Event)
      requires e.FileRename?
      modifies this
      ensures Value() == Step(config, old(Value()), e)
    {
      var process, identity, args := e.process, e.observation.Identity(), ["flags:" + Hex(e.flags)];
      var watched := Watched(e.from, config.prefixes) || Watched(e.to, config.prefixes);
      if e.external || FallbackExternal(process, e.external, watched) {
        fallback := fallback + {process.lifetime};
        PushExternal(ExternalRenameOp, args, [identity], [identity]);
      } else {
        var i := ProcessIndex(process);
        Push(RenameOp, i, Tool(process), args, [identity], [identity]);
      }
    }

    method OnUnlink(e: Event)
      requires e.FileUnlink?
      modifies this
      ensures Value() == Step(config, old(Value()), e)
    {
      var process, identity, args := e.process, e.observation.Identity(), ["flags:" + Hex(e.flags)];
      var watched := Watched(e.path, config.prefixes);
      if e.external || FallbackExternal(process, e.external, watched) {
        fallback := fallback + {process.lifetime};
        PushExternal(ExternalDeleteOp, args, [identity], []);
      } else {
        var i := ProcessIndex(process);
        Push(DeleteOp, i, Tool(process), args, [identity], []);
      }
    }

    method OnExit(e: Event)
      requires e.Exit?
      modifies this
      ensures Value() == Step(config, old(Value()), e)
    {
      if e.process in index {
        var args := if e.process.lifetime == config.root.lifetime then ["exit:" + Signed(e.exitCode)] else [];
        Push(ExitOp, index[e.process], Tool(e.process), args, [], []);
      }
    }

    method On(e: Event)
      modifies this
      ensures Value() == Step(config, old(Value()), e)
    {
      match e
      case Exec(_, _) => OnExec(e);
      case Fork(_, _) => OnFork(e);
      case FileOpen(_, _, _, _, _, _) => OnOpen(e);
      case FileMmap(_, _, _, _, _, _, _) => OnMmap(e);
      case FileClose(_, _, _, _, _) => OnClose(e);
      case FileRename(_, _, _, _, _, _) => OnRename(e);
      case FileUnlink(_, _, _, _, _) => OnUnlink(e);
      case Exit(_, _) => OnExit(e);
    }
  }

  method CanonicalizeEvents(sha: Sha, events: seq<Event>, root: Instance, prefixes: seq<string>)
      returns (result: seq<CanonicalOp>)
    ensures result == Canonical(sha, Config(root, prefixes), events)
  {
    var pass := new Pass(Config(root, prefixes));
    for i := 0 to |events|
      invariant pass.Value() == Run(pass.config, events[..i])
    {
      RunStep(pass.config, events, i);
      pass.On(events[i]);
    }
    assert events[..|events|] == events;
    result := FinalizeOps(sha, pass.ops + pass.external);
  }
}
