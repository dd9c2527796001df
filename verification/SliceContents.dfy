/**
 What an output slice consists of, told by the trace alone: which processes are members, and which operations are
 emitted for them, for orphans and for the exit of the root.
 */
module SliceContents {
  import opened Text
  import opened Trace
  import opened Operations
  import opened SliceScan
  import opened SlicePaths
  import opened SliceWalk
  import opened OutputSlice
  import opened SliceCompleteness
  import opened SliceFacts

  ghost predicate HasRead(events: seq<Event>, w: Instance, h: string)
  {
    Happens(events, e => ReadsContent(e, w, h))
  }

  ghost predicate HasRenamed(events: seq<Event>, w: Instance, h: string)
  {
    Happens(events, e => RenamesContent(e, w, h))
  }

  ghost predicate HasWritten(events: seq<Event>, w: Instance, h: string)
  {
    exists i: nat :: WritesContent(events, i, w, h)
  }

  ghost predicate HasProduced(events: seq<Event>, w: Instance, h: string)
  {
    HasWritten(events, w, h) || HasRenamed(events, w, h)
  }

  ghost predicate HasExecuted(events: seq<Event>, w: Instance)
  {
    Happens(events, e => Executes(e, w))
  }

  /** The instance wrote or renamed something that the renames of the trace turn into `path`. */
  ghost predicate LeftAt(events: seq<Event>, w: Instance, path: string)
  {
    exists p :: Wrote(events, w, p) && Reaches(RenamesOf(events), p, path)
  }

  // ---------------------------------------------------------------------------------------------
  // Members.

  /** Who left a selected path is a member, and who produced what a member read, unless that is selected itself. */
  ghost predicate ClosedOverTrace(events: seq<Event>, outputs: seq<OutputFile>, members: set<Instance>)
  {
    && (forall i, w :: 0 <= i < |outputs| && LeftAt(events, w, outputs[i].path) ==> w in members)
    && (forall p, h, w :: p in members && HasRead(events, p, h) && h !in HashesOf(outputs) && HasProduced(events, w, h)
          ==> w in members)
  }

  lemma FlowTells(root: Instance, events: seq<Event>, w: Instance, h: string)
    ensures var f := FlowOf(ScanRun(root, events).flows, w);
            && (h in f.input <==> HasRead(events, w, h)) && (h in f.output <==> HasWritten(events, w, h))
            && (h in f.renamed <==> HasRenamed(events, w, h))
            && f.tool == ToolOf(events, w) && (f.hasExec <==> HasExecuted(events, w))
  {
    ReadIffEvent(root, events, w, h);
    WrittenIffEvent(root, events, w, h);
    RenamedIffEvent(root, events, w, h);
    ToolIsLastImage(root, events, w);
  }

  lemma IndexTells(root: Instance, events: seq<Event>, w: Instance, h: string)
    ensures w in Get(ScanRun(root, events).byHash, h) <==> HasProduced(events, w, h)
  {
    ScanIsIndexed(root, events);
    FlowTells(root, events, w, h);
    assert w in Get(ScanRun(root, events).byHash, h) <==> Produced(ScanRun(root, events).flows, w, h);
  }

  lemma SeedsTell(root: Instance, events: seq<Event>, outputs: seq<OutputFile>, members: set<Instance>)
    ensures HasSeeds(FinalScan(root, events), outputs, members) <==>
      forall i, w :: 0 <= i < |outputs| && LeftAt(events, w, outputs[i].path) ==> w in members
  {
    forall i, w | 0 <= i < |outputs|
      ensures w in Get(FinalScan(root, events).byPath, outputs[i].path) <==> LeftAt(events, w, outputs[i].path)
    {
      FinalWritersIff(root, events, w, outputs[i].path);
    }
  }

  lemma ProducersTell(root: Instance, events: seq<Event>, outs: set<string>, members: set<Instance>)
    ensures BringsProducers(FinalScan(root, events), outs, members) <==>
      forall p, h, w :: p in members && HasRead(events, p, h) && h !in outs && HasProduced(events, w, h) ==>
        w in members
  {
    var s := FinalScan(root, events);
    forall p, h ensures p in s.flows && h in s.flows[p].input <==> HasRead(events, p, h) {
      FlowTells(root, events, p, h);
    }
    forall w, h ensures w in Get(s.byHash, h) <==> HasProduced(events, w, h) { IndexTells(root, events, w, h); }
  }

  lemma ClosedIff(root: Instance, events: seq<Event>, outputs: seq<OutputFile>, members: set<Instance>)
    ensures IsClosed(FinalScan(root, events), outputs, members) <==> ClosedOverTrace(events, outputs, members)
  {
    SeedsTell(root, events, outputs, members);
    ProducersTell(root, events, HashesOf(outputs), members);
  }

  ghost predicate LeastOverTrace(events: seq<Event>, outputs: seq<OutputFile>, members: set<Instance>)
  {
    && ClosedOverTrace(events, outputs, members)
    && forall others :: ClosedOverTrace(events, outputs, others) ==> members <= others
  }

  /** The members are the least set of instances that the trace closes under the two rules. */
  lemma MembersIff(root: Instance, events: seq<Event>, outputs: seq<OutputFile>, members: set<Instance>)
    ensures IsLeast(FinalScan(root, events), outputs, members) <==> LeastOverTrace(events, outputs, members)
  {
    forall others
      ensures IsClosed(FinalScan(root, events), outputs, others) <==> ClosedOverTrace(events, outputs, others)
    {
      ClosedIff(root, events, outputs, others);
    }
  }

  // ---------------------------------------------------------------------------------------------
  // Operations.

  /** A selected content, or one that a member read. */
  ghost predicate IsRelevant(events: seq<Event>, outputs: seq<OutputFile>, members: set<Instance>, h: string)
  {
    h in HashesOf(outputs) || exists p :: p in members && HasRead(events, p, h)
  }

  /** The operation tells what member `p` did. */
  ghost predicate TellsMember(events: seq<Event>, outputs: seq<OutputFile>, members: set<Instance>, p: Instance,
      op: CanonicalOp)
  {
    && p in members && op.tool == ToolOf(events, p) && op.args == []
    && match op.opType
       case ExecOp => HasExecuted(events, p) && op.tool.Some? && op.inputs == [] && op.outputs == []
       case ReadOp => |op.inputs| == 1 && op.outputs == [] && HasRead(events, p, op.inputs[0])
       case WriteOp =>
         && op.inputs == [] && |op.outputs| == 1 && HasWritten(events, p, op.outputs[0])
         && IsRelevant(events, outputs, members, op.outputs[0])
       case RenameOp => |op.inputs| == 1 && op.outputs == op.inputs && HasRenamed(events, p, op.inputs[0])
       case _ => false
  }

  /** A selected content that no member produced. */
  ghost predicate IsOrphan(events: seq<Event>, outputs: seq<OutputFile>, members: set<Instance>, h: string)
  {
    h in HashesOf(outputs) && forall p :: p in members ==> !HasProduced(events, p, h)
  }

  /** The operation tells an orphan: as written by the chosen producer, or by nobody. */
  ghost predicate TellsOrphan(events: seq<Event>, outputs: seq<OutputFile>, members: set<Instance>,
      choice: map<string, Instance>, op: CanonicalOp)
  {
    && op.opType == WriteOp && op.inputs == [] && |op.outputs| == 1
    && IsOrphan(events, outputs, members, op.outputs[0])
    && if op.outputs[0] in choice then op.tool == ToolOf(events, choice[op.outputs[0]]) && op.args == []
       else op.tool == None && op.args == ["output"]
  }

  /** Exactly the orphans that somebody produced have a chosen producer. */
  ghost predicate ChoosesProducers(events: seq<Event>, outputs: seq<OutputFile>, members: set<Instance>,
      choice: map<string, Instance>)
  {
    forall h ::
      && (h in choice <==> IsOrphan(events, outputs, members, h) && exists w :: HasProduced(events, w, h))
      && (h in choice ==> HasProduced(events, choice[h], h))
  }

  /** The operation tells how the root exited in the end. */
  ghost predicate TellsExit(root: Instance, events: seq<Event>, op: CanonicalOp)
  {
    && op.opType == ExitOp && op.inputs == [] && op.outputs == []
    && exists i: nat :: IsLastExit(events, root, i) && op.tool == ToolOf(events, events[i].process)
         && op.args == ["exit:" + Signed(events[i].exitCode)]
  }

  lemma FlowOpIff(f: Flow, relevant: set<string>, op: CanonicalOp)
    ensures op in FlowOps(f, relevant) <==>
      && op.processIndex == 0 && op.tool == f.tool && op.args == []
      && match op.opType
         case ExecOp => f.hasExec && op.tool.Some? && op.inputs == [] && op.outputs == []
         case ReadOp => |op.inputs| == 1 && op.outputs == [] && op.inputs[0] in f.input * relevant
         case WriteOp => op.inputs == [] && |op.outputs| == 1 && op.outputs[0] in f.output * relevant
         case RenameOp => |op.inputs| == 1 && op.outputs == op.inputs && op.inputs[0] in f.renamed * relevant
         case _ => false
  {
    match op.opType
    case ReadOp =>
      if |op.inputs| == 1 && op.outputs == [] && op.args == [] && op.processIndex == 0 && op.tool == f.tool {
        assert op == Op(ReadOp, f.tool, [], [op.inputs[0]], []);
      }
    case WriteOp =>
      if |op.outputs| == 1 && op.inputs == [] && op.args == [] && op.processIndex == 0 && op.tool == f.tool {
        assert op == Op(WriteOp, f.tool, [], [], [op.outputs[0]]);
      }
    case RenameOp =>
      if |op.inputs| == 1 && op.outputs == op.inputs && op.args == [] && op.processIndex == 0 && op.tool == f.tool {
        assert op == Op(RenameOp, f.tool, [], [op.inputs[0]], [op.inputs[0]]);
      }
    case _ =>
  }

  lemma RelevantIff(root: Instance, events: seq<Event>, outputs: seq<OutputFile>, members: set<Instance>, h: string)
    ensures h in Relevant(FinalScan(root, events), outputs, members) <==> IsRelevant(events, outputs, members, h)
  {
    var s := FinalScan(root, events);
    forall p ensures p in s.flows && h in s.flows[p].input <==> HasRead(events, p, h) { FlowTells(root, events, p, h); }
  }

  /** What a rename moves it also reads. */
  lemma RenamedIsRead(events: seq<Event>, w: Instance, h: string)
    requires HasRenamed(events, w, h)
    ensures HasRead(events, w, h)
  {
    var i :| 0 <= i < |events| && RenamesContent(events[i], w, h);
    assert ReadsContent(events[i], w, h);
  }

  lemma MemberFlowIff(root: Instance, events: seq<Event>, outputs: seq<OutputFile>, members: set<Instance>,
      p: Instance, op: CanonicalOp)
    requires p in members
    ensures var s := FinalScan(root, events);
            op in FlowOps(FlowOf(s.flows, p), Relevant(s, outputs, members)) <==>
              op.processIndex == 0 && TellsMember(events, outputs, members, p, op)
  {
    var s := FinalScan(root, events);
    FlowOpIff(FlowOf(s.flows, p), Relevant(s, outputs, members), op);
    FlowTells(root, events, p, "");
    if |op.inputs| == 1 {
      FlowTells(root, events, p, op.inputs[0]);
      RelevantIff(root, events, outputs, members, op.inputs[0]);
      if HasRenamed(events, p, op.inputs[0]) { RenamedIsRead(events, p, op.inputs[0]); }
    }
    if |op.outputs| == 1 {
      FlowTells(root, events, p, op.outputs[0]);
      RelevantIff(root, events, outputs, members, op.outputs[0]);
    }
  }

  lemma MemberOpIff(root: Instance, events: seq<Event>, outputs: seq<OutputFile>, members: set<Instance>,
      op: CanonicalOp)
    ensures var s := FinalScan(root, events);
            op in MemberOps(s, members, Relevant(s, outputs, members)) <==>
              op.processIndex == 0 && exists p :: TellsMember(events, outputs, members, p, op)
  {
    var s := FinalScan(root, events);
    var relevant := Relevant(s, outputs, members);
    forall p | p in members
      ensures p in s.flows && op in FlowOps(s.flows[p], relevant) <==>
        op.processIndex == 0 && TellsMember(events, outputs, members, p, op)
    {
      MemberFlowIff(root, events, outputs, members, p, op);
      if p !in s.flows { FlowOpIff(EMPTY_FLOW, relevant, op); }
    }
  }

  lemma OrphanIff(root: Instance, events: seq<Event>, outputs: seq<OutputFile>, members: set<Instance>, h: string)
    ensures h in Orphans(FinalScan(root, events), outputs, members) <==> IsOrphan(events, outputs, members, h)
  {
    var s := FinalScan(root, events);
    forall p ensures p in s.flows && h in s.flows[p].output + s.flows[p].renamed <==> HasProduced(events, p, h) {
      FlowTells(root, events, p, h);
    }
  }

  lemma AttributableIff(root: Instance, events: seq<Event>, h: string, w: Instance)
    ensures Attributable(FinalScan(root, events), h, w) <==> HasProduced(events, w, h)
  {
    IndexTells(root, events, w, h);
    FlowTells(root, events, w, h);
  }

  lemma OrphanOpIff(root: Instance, events: seq<Event>, outputs: seq<OutputFile>, members: set<Instance>,
      choice: map<string, Instance>, op: CanonicalOp)
    ensures var s := FinalScan(root, events);
            op in OrphanOps(s, Orphans(s, outputs, members), choice) <==>
              op.processIndex == 0 && TellsOrphan(events, outputs, members, choice, op)
  {
    var s := FinalScan(root, events);
    forall h ensures h in Orphans(s, outputs, members) <==> IsOrphan(events, outputs, members, h) {
      OrphanIff(root, events, outputs, members, h);
    }
    forall h | h in choice ensures FlowOf(s.flows, choice[h]).tool == ToolOf(events, choice[h]) {
      ToolIsLastImage(root, events, choice[h]);
    }
    if op.processIndex == 0 && TellsOrphan(events, outputs, members, choice, op) {
      assert op.outputs == [op.outputs[0]];
      assert op == OrphanOp(s, choice, op.outputs[0]);
    }
  }

  lemma ExitOpIff(root: Instance, events: seq<Event>, op: CanonicalOp)
    ensures op in ExitOps(FinalScan(root, events)) <==> op.processIndex == 0 && TellsExit(root, events, op)
  {
    var s := FinalScan(root, events);
    if s.rootExit.Some? {
      var (p, code) := s.rootExit.value;
      RootExitIsLast(root, events, p, code);
      ToolIsLastImage(root, events, p);
    }
    if TellsExit(root, events, op) {
      var i: nat :| IsLastExit(events, root, i) && op.tool == ToolOf(events, events[i].process)
                    && op.args == ["exit:" + Signed(events[i].exitCode)];
      RootExitIsLast(root, events, events[i].process, events[i].exitCode);
    }
  }

  lemma ChoiceIff(root: Instance, events: seq<Event>, outputs: seq<OutputFile>, members: set<Instance>,
      choice: map<string, Instance>)
    ensures ValidChoice(FinalScan(root, events), Orphans(FinalScan(root, events), outputs, members), choice) <==>
      ChoosesProducers(events, outputs, members, choice)
  {
    var s := FinalScan(root, events);
    forall h ensures h in Orphans(s, outputs, members) <==> IsOrphan(events, outputs, members, h) {
      OrphanIff(root, events, outputs, members, h);
    }
    forall h, w ensures Attributable(s, h, w) <==> HasProduced(events, w, h) { AttributableIff(root, events, h, w); }
  }

  /**
   A slice of a trace, exactly: its members are the least closed set; each chosen producer produced its orphan; and an
   operation is emitted if and only if it tells what a member executed, read, wrote or renamed, an orphan, or the exit.
   */
  lemma SliceTellsTrace(root: Instance, events: seq<Event>, outputs: seq<OutputFile>, slice: Slice)
    requires IsSlice(FinalScan(root, events), outputs, slice)
    ensures LeastOverTrace(events, outputs, slice.members)
    ensures ChoosesProducers(events, outputs, slice.members, slice.choice)
    ensures forall op :: op in ErasedSet(slice.emitted) <==>
      op.processIndex == 0
      && ((exists p :: TellsMember(events, outputs, slice.members, p, op))
          || TellsOrphan(events, outputs, slice.members, slice.choice, op) || TellsExit(root, events, op))
  {
    MembersIff(root, events, outputs, slice.members);
    ChoiceIff(root, events, outputs, slice.members, slice.choice);
    forall op
      ensures op in SliceSet(FinalScan(root, events), outputs, slice.members, slice.choice) <==>
        op.processIndex == 0
        && ((exists p :: TellsMember(events, outputs, slice.members, p, op))
            || TellsOrphan(events, outputs, slice.members, slice.choice, op) || TellsExit(root, events, op))
    {
      MemberOpIff(root, events, outputs, slice.members, op);
      OrphanOpIff(root, events, outputs, slice.members, slice.choice, op);
      ExitOpIff(root, events, op);
    }
  }
}
