/**
 What the hash preimage of an operation says about it.  A preimage is a tag, at most one tool identity, at most one
 argument, and the identities of inputs and outputs, without separators; it decodes uniquely but for one ambiguity.
 */
module Preimages {
  import opened Sequences
  import opened Sorting
  import opened Text
  import opened Trace
  import opened Operations

  // ------------------------------------------------------------------------------------------- tokens

  /** Content, missing, unreadable and non-regular identities, and the stand-in for system state. */
  predicate IsToken(t: string)
  {
    || IsDigest(t)
    || ("missing:" <= t && IsDigest(t[8..]))
    || ("unreadable:" <= t && IsDigest(t[11..]))
    || ("non-regular:" <= t && IsDigest(t[12..]))
    || t == SYSTEM_STATE_SENTINEL
  }

  predicate AreTokens(ts: seq<string>)
  {
    forall i :: 0 <= i < |ts| ==> IsToken(ts[i])
  }

  function TokenLength(first: char): nat
  {
    if first == 's' then 71 else if first == 'm' then 79 else if first == 'u' then 82
    else if first == 'n' then 83 else if first == 'S' then 77 else 0
  }

  lemma FirstOf(start: string, s: string)
    requires |start| >= 2 && start <= s
    ensures s[0] == start[0] && s[1] == start[1]
  {
  }

  /** The first character of a token says how long it is. */
  lemma TokenLengths(t: string)
    requires IsToken(t)
    ensures |t| >= 2 && |t| == TokenLength(t[0]) && (t[0] == 'm' ==> t[1] == 'i')
  {
    if IsDigest(t) {
      FirstOf("sha256:", t);
    } else if t == SYSTEM_STATE_SENTINEL {
      FirstOf("SYSTEM_STATE:", t);
    } else if "missing:" <= t && IsDigest(t[8..]) {
      FirstOf("missing:", t);
    } else if "unreadable:" <= t && IsDigest(t[11..]) {
      FirstOf("unreadable:", t);
    } else {
      FirstOf("non-regular:", t);
    }
  }

  /** Tokens are prefix-free: two texts that start with tokens and are equal start with the same token. */
  lemma TokensArePrefixFree(t: string, a: string, t': string, b: string)
    requires IsToken(t) && IsToken(t') && t + a == t' + b
    ensures t == t' && a == b
  {
    TokenLengths(t);
    TokenLengths(t');
    assert t[0] == (t + a)[0] == (t' + b)[0] == t'[0];
    SplitEqual(t, a, t', b);
  }

  /** No text that starts like this starts with a token. */
  predicate StartsNoToken(x: string)
  {
    x == "" || TokenLength(x[0]) == 0 || (x[0] == 'm' && |x| >= 2 && x[1] != 'i')
  }

  lemma NotAToken(t: string, a: string, x: string)
    requires IsToken(t) && StartsNoToken(x)
    ensures t + a != x
  {
    TokenLengths(t);
    assert (t + a)[0] == t[0] && (t + a)[1] == t[1];
  }

  /** The tokens at the start of a text are determined by it. */
  lemma {:induction false} TokensAreDetermined(ts: seq<string>, x: string, ts': seq<string>, x': string)
    requires AreTokens(ts) && AreTokens(ts') && StartsNoToken(x) && StartsNoToken(x')
    requires Concat(ts) + x == Concat(ts') + x'
    ensures ts == ts' && x == x'
  {
    if ts != [] {
      Assoc(ts[0], Concat(ts[1..]), x);
      if ts' == [] {
        NotAToken(ts[0], Concat(ts[1..]) + x, x');
      } else {
        Assoc(ts'[0], Concat(ts'[1..]), x');
        TokensArePrefixFree(ts[0], Concat(ts[1..]) + x, ts'[0], Concat(ts'[1..]) + x');
        TokensAreDetermined(ts[1..], x, ts'[1..], x');
        assert ts == [ts[0]] + ts[1..] && ts' == [ts'[0]] + ts'[1..];
      }
    } else if ts' != [] {
      Assoc(ts'[0], Concat(ts'[1..]), x');
      NotAToken(ts'[0], Concat(ts'[1..]) + x', x);
    } else {
      assert "" + x == x && "" + x' == x';
    }
  }

  // ------------------------------------------------------------------------------------------- arguments

  /** An argument: it holds no separator and does not look like a token. */
  predicate IsMark(arg: string)
  {
    '\0' !in arg && arg != "" && StartsNoToken(arg)
  }

  predicate AreMarks(args: seq<string>)
  {
    |args| <= 1 && forall i :: 0 <= i < |args| ==> IsMark(args[i])
  }

  /** The text up to the first separator is determined by the whole. */
  lemma SeparatorSplits(a: string, b: string, a': string, b': string)
    requires '\0' !in a && '\0' !in a' && a + "\0" + b == a' + "\0" + b'
    ensures a == a' && b == b'
  {
    var x := a + "\0" + b;
    assert x[|a|] == '\0' && x[|a'|] == '\0';
    assert forall i :: 0 <= i < |a| ==> x[i] == a[i];
    assert forall i :: 0 <= i < |a'| ==> x[i] == a'[i];
    assert |a| == |a'|;
    SplitEqual(a + "\0", b, a' + "\0", b');
    SplitEqual(a, "\0", a', "\0");
  }

  lemma MarkedStartsNoToken(arg: string, rest: string)
    requires IsMark(arg)
    ensures StartsNoToken(arg + "\0" + rest)
  {
    var x := arg + "\0" + rest;
    assert x[0] == arg[0];
    assert |arg| >= 2 ==> x[1] == arg[1];
    assert |arg| == 1 ==> x[1] == '\0';
  }

  lemma TerminatedMark(args: seq<string>)
    requires AreMarks(args)
    ensures Terminated(args) == if args == [] then "" else args[0] + "\0"
  {
    if args != [] {
      assert args[1..] == [];
      AppendNothing(args[0] + "\0");
    }
  }

  lemma {:induction false} ConcatJoins(ts: seq<string>, us: seq<string>)
    ensures Concat(ts + us) == Concat(ts) + Concat(us)
  {
    if ts == [] {
      assert ts + us == us && "" + Concat(us) == Concat(us);
    } else {
      assert (ts + us)[1..] == ts[1..] + us;
      ConcatJoins(ts[1..], us);
      Assoc(ts[0], Concat(ts[1..]), Concat(us));
    }
  }

  /** What follows the tag: tokens, at most one terminated argument, tokens. */
  function Rest(ts: seq<string>, args: seq<string>, us: seq<string>): string
  {
    Concat(ts) + (Terminated(args) + Concat(us))
  }

  lemma RestWithoutMark(ts: seq<string>, us: seq<string>)
    ensures Rest(ts, [], us) == Concat(ts + us) + ""
  {
    ConcatJoins(ts, us);
    AppendNothing(Concat(ts + us));
    assert "" + Concat(us) == Concat(us);
  }

  lemma RestWithMark(ts: seq<string>, args: seq<string>, us: seq<string>)
    requires AreMarks(args) && args != []
    ensures Rest(ts, args, us) == Concat(ts) + (args[0] + "\0" + Concat(us))
    ensures StartsNoToken(args[0] + "\0" + Concat(us))
  {
    TerminatedMark(args);
    MarkedStartsNoToken(args[0], Concat(us));
  }

  lemma BothMarked(ts: seq<string>, args: seq<string>, us: seq<string>, ts': seq<string>, args': seq<string>,
      us': seq<string>)
    requires AreTokens(ts) && AreTokens(us) && AreTokens(ts') && AreTokens(us') && AreMarks(args) && AreMarks(args')
    requires args != [] && args' != [] && Rest(ts, args, us) == Rest(ts', args', us')
    ensures args == args' && ts == ts' && us == us'
  {
    RestWithMark(ts, args, us);
    RestWithMark(ts', args', us');
    TokensAreDetermined(ts, args[0] + "\0" + Concat(us), ts', args'[0] + "\0" + Concat(us'));
    SeparatorSplits(args[0], Concat(us), args'[0], Concat(us'));
    AppendNothing(Concat(us));
    TokensAreDetermined(us, "", us', "");
  }

  /** A marked rest is not an unmarked one. */
  lemma MarkIsSeen(ts: seq<string>, us: seq<string>, ts': seq<string>, args': seq<string>, us': seq<string>)
    requires AreTokens(ts) && AreTokens(us) && AreTokens(ts') && AreMarks(args') && args' != []
    ensures Rest(ts, [], us) != Rest(ts', args', us')
  {
    RestWithoutMark(ts, us);
    RestWithMark(ts', args', us');
    if Rest(ts, [], us) == Rest(ts', args', us') {
      TokensAreDetermined(ts + us, "", ts', args'[0] + "\0" + Concat(us'));
    }
  }

  /** The argument is determined; with one so are the tokens on either side, without one all tokens in a row. */
  lemma RestDetermines(ts: seq<string>, args: seq<string>, us: seq<string>, ts': seq<string>, args': seq<string>,
      us': seq<string>)
    requires AreTokens(ts) && AreTokens(us) && AreTokens(ts') && AreTokens(us') && AreMarks(args) && AreMarks(args')
    requires Rest(ts, args, us) == Rest(ts', args', us')
    ensures args == args' && ts + us == ts' + us' && (args != [] ==> ts == ts' && us == us')
  {
    if args != [] && args' != [] {
      BothMarked(ts, args, us, ts', args', us');
    } else if args != [] {
      MarkIsSeen(ts', us', ts, args, us);
    } else if args' != [] {
      MarkIsSeen(ts, us, ts', args', us');
    } else {
      RestWithoutMark(ts, us);
      RestWithoutMark(ts', us');
      TokensAreDetermined(ts + us, "", ts' + us', "");
    }
  }

  // ------------------------------------------------------------------------------------------- tags

  /** The type that a text with a tag at its start has. */
  function TypeOf(x: string): OpType
    requires |x| >= 4
  {
    if x[0] == 's' then SystemStateOp
    else if x[0] == 'f' then
      if |x| < 8 then ExecOp
      else if x[5] == 'w' then WriteOp else if x[5] == 'd' then DeleteOp
      else if x[7] == 'a' then ReadOp else RenameOp
    else if x[2] == 'e' then ExecOp else if x[2] == 'i' then ExitOp
    else if |x| < 17 then ExecOp
    else if x[14] == 'w' then ExternalWriteOp else if x[14] == 'd' then ExternalDeleteOp
    else if x[16] == 'a' then ExternalReadOp else ExternalRenameOp
  }

  lemma TypeOfTag(t: OpType, rest: string)
    ensures |Tag(t)| >= 4 && TypeOf(Tag(t) + rest) == t
  {
    var tag, x := Tag(t), Tag(t) + rest;
    assert forall i :: 0 <= i < |tag| ==> x[i] == tag[i];
  }

  /** Tags are prefix-free. */
  lemma TagsArePrefixFree(t: OpType, a: string, t': OpType, b: string)
    requires Tag(t) + a == Tag(t') + b
    ensures t == t' && a == b
  {
    TypeOfTag(t, a);
    TypeOfTag(t', b);
    SplitEqual(Tag(t), a, Tag(t'), b);
  }

  // ------------------------------------------------------------------------------------------- operations

  predicate IsExternalType(t: OpType)
  {
    t.ExternalReadOp? || t.ExternalWriteOp? || t.ExternalRenameOp? || t.ExternalDeleteOp?
  }

  predicate IsWriteType(t: OpType)
  {
    t.WriteOp? || t.ExternalWriteOp?
  }

  function InputCount(t: OpType): nat
  {
    if t.ExecOp? || t.ExitOp? || IsWriteType(t) then 0 else 1
  }

  function OutputCount(t: OpType): nat
  {
    if t.RenameOp? || t.ExternalRenameOp? then 1 else 0
  }

  function ToolTokens(tool: Option<string>): seq<string>
  {
    match tool case Some(t) => [t] case None => []
  }

  /** The shape of all operations that canonicalizer and slicer emit: only a write may have an output or none. */
  predicate Shaped(op: CanonicalOp)
  {
    && AreTokens(ToolTokens(op.tool)) && AreMarks(op.args) && AreTokens(op.inputs) && AreTokens(op.outputs)
    && |op.inputs| == InputCount(op.opType)
    && (if IsWriteType(op.opType) then |op.outputs| <= 1 else |op.outputs| == OutputCount(op.opType))
    && (op.opType.ExecOp? ==> op.tool.Some?) && (IsExternalType(op.opType) ==> op.tool.None?)
  }

  lemma ToolIsConcat(tool: Option<string>)
    ensures Concat(ToolTokens(tool)) == ToolBytes(tool)
  {
    if tool.Some? { ConcatOfOne(tool.value); }
  }

  lemma ConcatOfOne(s: string)
    ensures Concat([s]) == s
  {
    assert [s][1..] == [];
    AppendNothing(s);
  }

  lemma PreimageIsRest(op: CanonicalOp)
    ensures Preimage(op) == Tag(op.opType) + Rest(ToolTokens(op.tool), op.args, op.inputs + op.outputs)
  {
    var tag, tool, args := Tag(op.opType), ToolBytes(op.tool), Terminated(op.args);
    var ins, outs := Concat(op.inputs), Concat(op.outputs);
    ToolIsConcat(op.tool);
    ConcatJoins(op.inputs, op.outputs);
    Assoc(tag + tool + args, ins, outs);
    Assoc(tag + tool, args, ins + outs);
    Assoc(tag, tool, args + (ins + outs));
  }

  /** A write that was never closed, by a process with a known tool, next to one by an unknown tool of that content. */
  predicate Confused(unclosed: CanonicalOp, closed: CanonicalOp)
  {
    && unclosed.opType.WriteOp? && closed.opType.WriteOp? && unclosed.args == closed.args == []
    && unclosed.inputs == closed.inputs == []
    && unclosed.tool.Some? && unclosed.outputs == [] && closed.tool.None? && closed.outputs == [unclosed.tool.value]
  }

  lemma TwoTokens(ts: seq<string>, us: seq<string>, ts': seq<string>, us': seq<string>)
    requires |ts| <= 1 && |us| <= 2 && |ts'| <= 1 && |us'| <= 2 && ts + us == ts' + us'
    ensures |us| == |us'| ==> ts == ts' && us == us'
    ensures |us| < |us'| <= 1 ==> us == [] && ts' == [] && us' == ts
  {
    if |us| == |us'| { SplitEqual(ts, us, ts', us'); }
    if |us| < |us'| <= 1 {
      AppendNothing(ts);
      assert ts' + us' == us';
    }
  }

  lemma SameTypeDecodes(op: CanonicalOp, op': CanonicalOp)
    requires Shaped(op) && Shaped(op') && op.opType == op'.opType && op.args == op'.args
    requires ToolTokens(op.tool) + (op.inputs + op.outputs) == ToolTokens(op'.tool) + (op'.inputs + op'.outputs)
    requires op.args != [] ==> op.tool == op'.tool
    ensures Erase(op) == Erase(op') || Confused(op, op') || Confused(op', op)
  {
    var us, us' := op.inputs + op.outputs, op'.inputs + op'.outputs;
    TwoTokens(ToolTokens(op.tool), us, ToolTokens(op'.tool), us');
    TwoTokens(ToolTokens(op'.tool), us', ToolTokens(op.tool), us);
    if |us| == |us'| { SplitEqual(op.inputs, op.outputs, op'.inputs, op'.outputs); }
  }

  /**
   Unique decoding: two operations have one preimage exactly when they agree in type, tool, arguments, inputs and
   outputs, or are the one confused pair.
   */
  lemma PreimageDeterminesIff(op: CanonicalOp, op': CanonicalOp)
    requires Shaped(op) && Shaped(op')
    ensures Preimage(op) == Preimage(op') <==> Erase(op) == Erase(op') || Confused(op, op') || Confused(op', op)
  {
    var ts, us := ToolTokens(op.tool), op.inputs + op.outputs;
    var ts', us' := ToolTokens(op'.tool), op'.inputs + op'.outputs;
    PreimageIsRest(op);
    PreimageIsRest(op');
    if Preimage(op) == Preimage(op') {
      TagsArePrefixFree(op.opType, Rest(ts, op.args, us), op'.opType, Rest(ts', op'.args, us'));
      RestDetermines(ts, op.args, us, ts', op'.args, us');
      SameTypeDecodes(op, op');
    }
    if Confused(op, op') { ConfusedAgree(op, op'); }
    if Confused(op', op) { ConfusedAgree(op', op); }
  }

  lemma ConfusedAgree(unclosed: CanonicalOp, closed: CanonicalOp)
    requires Confused(unclosed, closed)
    ensures Preimage(unclosed) == Preimage(closed)
  {
    ConcatOfOne(unclosed.tool.value);
  }

  // ------------------------------------------------------------------------------------------- observations

  predicate IsObservation(o: Observation)
  {
    match o
    case Content(hash) => IsDigest(hash)
    case Missing(p) => IsDigest(p)
    case Unreadable(p) => IsDigest(p)
    case NonRegular(p) => IsDigest(p)
  }

  /** The observations of an event carry digests, as hashing a file or a path produces them. */
  predicate IsObserved(e: Event)
  {
    match e
    case Exec(_, o) => IsObservation(o)
    case FileOpen(_, _, _, _, _, o) => IsObservation(o)
    case FileMmap(_, _, _, _, _, _, seen) => seen.Some? ==> IsObservation(seen.value)
    case FileClose(_, _, _, _, seen) => seen.Some? ==> IsObservation(seen.value)
    case FileRename(_, _, _, _, _, o) => IsObservation(o)
    case FileUnlink(_, _, _, _, o) => IsObservation(o)
    case _ => true
  }

  ghost predicate AreObserved(events: seq<Event>)
  {
    forall i :: 0 <= i < |events| ==> IsObserved(events[i])
  }

  lemma IdentityIsToken(o: Observation)
    requires IsObservation(o)
    ensures IsToken(o.Identity()) && (o.Content? ==> IsToken(o.hash))
  {
    match o
    case Content(h) =>
    case Missing(p) => assert ("missing:" + p)[8..] == p;
    case Unreadable(p) => assert ("unreadable:" + p)[11..] == p;
    case NonRegular(p) => assert ("non-regular:" + p)[12..] == p;
  }

  lemma {:induction false} DecimalHasNoNul(n: nat)
    ensures '\0' !in Decimal(n)
  {
  }

  lemma ExitIsMark(code: int)
    ensures IsMark("exit:" + Signed(code))
  {
    DecimalHasNoNul(if code < 0 then -code else code);
    var arg := "exit:" + Signed(code);
    assert forall c :: c in arg ==> c in "exit:" || c in Signed(code);
    assert arg[0] == 'e';
  }

  lemma {:induction false} HexHasNoNul(n: nat)
    ensures '\0' !in HexDigits(n)
  {
    if n >= 16 { HexHasNoNul(n / 16); }
  }

  lemma FlagsAreMark(flags: nat)
    ensures IsMark("flags:" + Hex(flags))
  {
    HexHasNoNul(flags);
    var arg := "flags:" + Hex(flags);
    assert forall c :: c in arg ==> c in "flags:0x" || c in HexDigits(flags);
    assert arg[0] == 'f';
  }

  // ------------------------------------------------------------------------------------------- leaves

  ghost predicate AllShaped(ops: seq<CanonicalOp>)
  {
    forall op :: op in ops ==> Shaped(op)
  }

  lemma ShapedIsSorted(op: CanonicalOp)
    requires Shaped(op)
    ensures SortFields(op) == op
  {
    SortOfSorted(Le, op.args);
    SortOfSorted(Le, op.inputs);
    SortOfSorted(Le, op.outputs);
  }

  /** Equal up to the process index and the one ambiguity. */
  predicate Alike(op: CanonicalOp, op': CanonicalOp)
  {
    Erase(op) == Erase(op') || Confused(op, op') || Confused(op', op)
  }

  ghost predicate HasAlike(op: CanonicalOp, ops: seq<CanonicalOp>)
  {
    exists op' :: op' in ops && Alike(op, op')
  }

  ghost predicate HaveAlike(ops: seq<CanonicalOp>, ops': seq<CanonicalOp>)
  {
    forall op :: op in ops ==> HasAlike(op, ops')
  }

  /** Two operations with different preimages and one hash. */
  predicate Collide(sha: Sha, op: CanonicalOp, op': CanonicalOp)
  {
    Preimage(op) != Preimage(op') && Hash(sha, op) == Hash(sha, op')
  }

  ghost predicate SomeCollide(sha: Sha, ops: seq<CanonicalOp>, ops': seq<CanonicalOp>)
  {
    exists op, op' :: op in ops && op' in ops' && Collide(sha, op, op')
  }

  lemma LeavesFindAlike(sha: Sha, ops: seq<CanonicalOp>, ops': seq<CanonicalOp>)
    requires AllShaped(ops) && AllShaped(ops') && LeafSet(sha, ops) <= LeafSet(sha, ops')
    ensures HaveAlike(ops, ops') || SomeCollide(sha, ops, ops')
  {
    if !SomeCollide(sha, ops, ops') {
      forall op | op in ops ensures HasAlike(op, ops') {
        assert Hash(sha, SortFields(op)) in LeafSet(sha, ops');
        var op' :| op' in ops' && Hash(sha, SortFields(op')) == Hash(sha, SortFields(op));
        ShapedIsSorted(op);
        ShapedIsSorted(op');
        assert !Collide(sha, op, op');
        PreimageDeterminesIff(op, op');
      }
    }
  }

  lemma AlikeHaveLeaves(sha: Sha, ops: seq<CanonicalOp>, ops': seq<CanonicalOp>)
    requires AllShaped(ops) && AllShaped(ops') && HaveAlike(ops, ops')
    ensures LeafSet(sha, ops) <= LeafSet(sha, ops')
  {
    forall op | op in ops ensures Hash(sha, SortFields(op)) in LeafSet(sha, ops') {
      assert HasAlike(op, ops');
      var op' :| op' in ops' && Alike(op, op');
      ShapedIsSorted(op);
      ShapedIsSorted(op');
      PreimageDeterminesIff(op, op');
      assert Hash(sha, SortFields(op')) in LeafSet(sha, ops');
    }
  }

  lemma CollideBothWays(sha: Sha, ops: seq<CanonicalOp>, ops': seq<CanonicalOp>)
    ensures SomeCollide(sha, ops', ops) ==> SomeCollide(sha, ops, ops')
  {
    if SomeCollide(sha, ops', ops) {
      var op', op :| op' in ops' && op in ops && Collide(sha, op', op);
      assert Collide(sha, op, op');
    }
  }

  /** Equal leaves: every operation of one side is alike one of the other, or two of their operations collide. */
  lemma EqualLeavesIff(sha: Sha, ops: seq<CanonicalOp>, ops': seq<CanonicalOp>)
    requires AllShaped(ops) && AllShaped(ops') && !SomeCollide(sha, ops, ops')
    ensures Leaves(sha, Finalized(sha, ops)) == Leaves(sha, Finalized(sha, ops'))
            <==> HaveAlike(ops, ops') && HaveAlike(ops', ops)
  {
    CollideBothWays(sha, ops, ops');
    if Leaves(sha, Finalized(sha, ops)) == Leaves(sha, Finalized(sha, ops')) {
      LeavesAreTheSortedSet(sha, ops);
      LeavesAreTheSortedSet(sha, ops');
      LeavesFindAlike(sha, ops, ops');
      LeavesFindAlike(sha, ops', ops);
    }
    if HaveAlike(ops, ops') && HaveAlike(ops', ops) {
      AlikeHaveLeaves(sha, ops, ops');
      AlikeHaveLeaves(sha, ops', ops);
      SameLeafSet(sha, ops, ops');
    }
  }
}
