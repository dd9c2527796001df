/**
 What the canonicalizer knows about processes after a trace, told by the events of the trace alone: the tool of an
 instance, which lifetimes count as external, and the order in which instances become known.
 */
module CanonicalFacts {
  import opened Text
  import opened Trace
  import opened Operations
  import opened Canonicalizer
  import opened CanonicalInvariants

  /** The identity of the last image that the instance executed, or inherited from a parent that had one. */
  function LastImage(events: seq<Event>, p: Instance): Option<string>
  {
    if events == [] then None
    else
      var before, e := events[..|events| - 1], events[|events| - 1];
      if e.Exec? && e.process == p then Some(e.observation.Identity())
      else if e.Fork? && e.child == p && LastImage(before, e.parent).Some? then LastImage(before, e.parent)
      else LastImage(before, p)
  }

  /** An open, a mapping of a file that was observed, a rename or an unlink. */
  predicate IsAccess(e: Event)
  {
    || e.FileOpen? || e.FileRename? || e.FileUnlink?
    || (e.FileMmap? && e.mapped.Some? && e.seen.Some?)
  }

  /**
   The access counts as external: it is marked so and moves or removes a file or is on a watched path, or it is on a
   watched path by a process without a tool, or of a lifetime that already counts as external, but not the root's.
   */
  predicate IsForeign(c: Config, before: seq<Event>, e: Event)
    decreases |before|, 1
  {
    && IsAccess(e)
    && if e.external then e.FileRename? || e.FileUnlink? || TouchesWatched(c, e)
       else
         && e.process.lifetime != c.root.lifetime && TouchesWatched(c, e)
         && (LastImage(before, e.process).None? || CountsAsExternal(c, before, e.process.lifetime))
  }

  /** Some access of the lifetime counted as external. */
  predicate CountsAsExternal(c: Config, events: seq<Event>, l: Lifetime)
    decreases |events|, 0
  {
    && events != []
    && var before, e := events[..|events| - 1], events[|events| - 1];
       CountsAsExternal(c, before, l) || (IsForeign(c, before, e) && e.process.lifetime == l)
  }

  /** The access is by the build itself. */
  predicate IsOwn(c: Config, before: seq<Event>, e: Event)
  {
    IsAccess(e) && !e.external && !IsForeign(c, before, e)
  }

  /** The instances in the order in which they became known: the root, and then by their execs and own accesses. */
  function Processes(c: Config, events: seq<Event>): seq<Instance>
  {
    if events == [] then [c.root]
    else
      var before, e := events[..|events| - 1], events[|events| - 1];
      var known := Processes(c, before);
      if (e.Exec? || IsOwn(c, before, e)) && e.process !in known then known + [e.process] else known
  }

  /** The close is of a descriptor that counts as external. */
  predicate ClosesForeign(c: Config, before: seq<Event>, e: Event)
  {
    && e.FileClose? && e.closed.Some?
    && (e.external || (e.process.lifetime != c.root.lifetime && TouchesWatched(c, e)
                       && CountsAsExternal(c, before, e.process.lifetime)))
  }

  // ---------------------------------------------------------------------------------------------
  // The scan state agrees.

  ghost predicate KnowsTools(tools: map<Instance, string>, events: seq<Event>)
  {
    forall p :: ToolOf(tools, p) == LastImage(events, p)
  }

  ghost predicate KnowsExternals(c: Config, fallback: set<Lifetime>, events: seq<Event>)
  {
    forall l :: l in fallback <==> CountsAsExternal(c, events, l)
  }

  /** The index numbers the known instances in their order. */
  ghost predicate Numbers(index: map<Instance, nat>, next: nat, known: seq<Instance>)
  {
    && next == |known|
    && (forall p :: p in index <==> p in known)
    && (forall k :: 0 <= k < |known| ==> known[k] in index && index[known[k]] == k)
  }

  ghost predicate KnowsProcesses(c: Config, s: State, events: seq<Event>)
  {
    && KnowsTools(s.tools, events) && KnowsExternals(c, s.fallback, events)
    && Numbers(s.index, s.next, Processes(c, events))
  }

  /** The view of a process says what the trace says of it. */
  predicate SeesProcess(c: Config, before: seq<Event>, v: View, p: Instance)
  {
    && (v.fallback <==> CountsAsExternal(c, before, p.lifetime)) && v.tool == LastImage(before, p)
    && (v.known <==> p in Processes(c, before))
  }

  lemma ViewSees(c: Config, s: State, before: seq<Event>, p: Instance)
    requires KnowsProcesses(c, s, before)
    ensures SeesProcess(c, before, ViewOf(s, p), p)
  {
  }

  /** What a decision notes about its process. */
  predicate NotesProcess(c: Config, before: seq<Event>, e: Event, d: Decision)
    requires !e.Fork?
  {
    && (d.mark <==> IsForeign(c, before, e)) && (d.register <==> e.Exec? || IsOwn(c, before, e))
    && d.setTool == (if e.Exec? then Some(e.observation.Identity()) else None)
    && (d.external <==> IsForeign(c, before, e) || ClosesForeign(c, before, e))
  }

  lemma OpenNotes(c: Config, before: seq<Event>, v: View, e: Event)
    requires e.FileOpen? && SeesProcess(c, before, v, e.process)
    ensures NotesProcess(c, before, e, DecideOpen(c, v, e))
  {
  }

  lemma MmapNotes(c: Config, before: seq<Event>, v: View, e: Event)
    requires e.FileMmap? && SeesProcess(c, before, v, e.process)
    ensures NotesProcess(c, before, e, DecideMmap(c, v, e))
  {
  }

  lemma DecisionNotes(c: Config, before: seq<Event>, v: View, e: Event)
    requires !e.Fork? && SeesProcess(c, before, v, e.process)
    ensures NotesProcess(c, before, e, Decide(c, v, e))
  {
    match e
    case FileOpen(_, _, _, _, _, _) => OpenNotes(c, before, v, e);
    case FileMmap(_, _, _, _, _, _, _) => MmapNotes(c, before, v, e);
    case _ =>
  }

  lemma RegisterNumbers(s: State, p: Instance, known: seq<Instance>)
    requires Numbers(s.index, s.next, known)
    ensures var t := Register(s, p);
            Numbers(t.index, t.next, if p in known then known else known + [p])
  {
    if p !in known {
      var t := Register(s, p);
      forall q ensures q in t.index <==> q in known + [p] {
        assert q in s.index <==> q in known;
      }
    }
  }

  lemma NoteKnowsTools(s: State, d: Decision, events: seq<Event>, n: nat)
    requires |events| == n + 1 && !events[n].Fork? && KnowsTools(s.tools, events[..n])
    requires d.setTool == (if events[n].Exec? then Some(events[n].observation.Identity()) else None)
    ensures KnowsTools(Note(s, events[n].process, d).tools, events)
  {
    var p := events[n].process;
    forall q ensures ToolOf(Note(s, p, d).tools, q) == LastImage(events, q) {
      assert ToolOf(s.tools, q) == LastImage(events[..n], q);
    }
  }

  lemma NoteKnowsExternals(c: Config, s: State, d: Decision, events: seq<Event>, n: nat)
    requires |events| == n + 1 && !events[n].Fork? && KnowsExternals(c, s.fallback, events[..n])
    requires d.mark <==> IsForeign(c, events[..n], events[n])
    ensures KnowsExternals(c, Note(s, events[n].process, d).fallback, events)
  {
    var p := events[n].process;
    forall l ensures l in Note(s, p, d).fallback <==> CountsAsExternal(c, events, l) {
      assert l in s.fallback <==> CountsAsExternal(c, events[..n], l);
    }
  }

  lemma NoteNumbers(c: Config, s: State, d: Decision, events: seq<Event>, n: nat)
    requires |events| == n + 1 && !events[n].Fork? && Numbers(s.index, s.next, Processes(c, events[..n]))
    requires d.register <==> events[n].Exec? || IsOwn(c, events[..n], events[n])
    ensures var t := Note(s, events[n].process, d);
            Numbers(t.index, t.next, Processes(c, events))
  {
    RegisterNumbers(s, events[n].process, Processes(c, events[..n]));
  }

  lemma ForkKnowsTools(s: State, events: seq<Event>, n: nat)
    requires |events| == n + 1 && events[n].Fork? && KnowsTools(s.tools, events[..n])
    ensures KnowsTools(ForkState(s, events[n].parent, events[n].child).tools, events)
  {
    var e := events[n];
    forall q ensures ToolOf(ForkState(s, e.parent, e.child).tools, q) == LastImage(events, q) {
      assert ToolOf(s.tools, q) == LastImage(events[..n], q);
      assert ToolOf(s.tools, e.parent) == LastImage(events[..n], e.parent);
    }
  }

  lemma ForkKnowsExternals(c: Config, s: State, events: seq<Event>, n: nat)
    requires |events| == n + 1 && events[n].Fork? && KnowsExternals(c, s.fallback, events[..n])
    ensures KnowsExternals(c, s.fallback, events)
  {
    forall l ensures l in s.fallback <==> CountsAsExternal(c, events, l) {
      assert l in s.fallback <==> CountsAsExternal(c, events[..n], l);
    }
  }

  lemma SameNotesKnow(c: Config, s: State, t: State, events: seq<Event>)
    requires SameNotes(s, t) && KnowsProcesses(c, t, events)
    ensures KnowsProcesses(c, s, events)
  {
  }

  lemma StepKnowsProcesses(c: Config, s: State, events: seq<Event>, n: nat)
    requires |events| == n + 1 && KnowsProcesses(c, s, events[..n])
    ensures KnowsProcesses(c, Step(c, s, events[n]), events)
  {
    var e := events[n];
    if e.Fork? {
      ForkKnowsTools(s, events, n);
      ForkKnowsExternals(c, s, events, n);
    } else {
      var d := Decide(c, ViewOf(s, e.process), e);
      ViewSees(c, s, events[..n], e.process);
      DecisionNotes(c, events[..n], ViewOf(s, e.process), e);
      NoteKnowsTools(s, d, events, n);
      NoteKnowsExternals(c, s, d, events, n);
      NoteNumbers(c, s, d, events, n);
      ApplyKeepsNotes(s, e.process, d);
      SameNotesKnow(c, Apply(s, e.process, d), Note(s, e.process, d), events);
    }
  }

  /** After any trace tools, external lifetimes and process numbers are as the trace tells. */
  lemma {:induction false} RunKnowsProcesses(c: Config, events: seq<Event>)
    ensures KnowsProcesses(c, Run(c, events), events)
  {
    if events != [] {
      var n := |events| - 1;
      RunKnowsProcesses(c, events[..n]);
      StepKnowsProcesses(c, Run(c, events[..n]), events, n);
    }
  }

  /** The list of known instances only grows, at its end, and names none twice. */
  lemma {:induction false} ProcessesGrow(c: Config, events: seq<Event>, i: nat)
    requires i <= |events|
    ensures Processes(c, events[..i]) <= Processes(c, events)
    decreases |events|
  {
    if i < |events| {
      var n := |events| - 1;
      assert events[..n][..i] == events[..i];
      ProcessesGrow(c, events[..n], i);
    } else {
      assert events[..i] == events;
    }
  }

  lemma ProcessesAreDistinct(c: Config, events: seq<Event>, j: nat, k: nat)
    requires j < |Processes(c, events)| && k < |Processes(c, events)|
    requires Processes(c, events)[j] == Processes(c, events)[k]
    ensures j == k
  {
    RunKnowsProcesses(c, events);
  }
}
