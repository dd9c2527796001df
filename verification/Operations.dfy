/** Canonical operations, their hash preimages, and the sorted set that is committed to. */
module Operations {
  import opened Sorting
  import opened Text

  predicate IsLowerHex(c: char)
  {
    '0' <= c <= '9' || 'a' <= c <= 'f'
  }

  /** The printed form of a SHA-256 value. */
  predicate IsDigest(s: string)
  {
    && |s| == 71
    && "sha256:" <= s
    && forall i :: 7 <= i < |s| ==> IsLowerHex(s[i])
  }

  type Digest = s: string | IsDigest(s)
    witness "sha256:" + seq(64, _ => '0')

  /** SHA-256 with its printed form, left unspecified: only the shape of the result is known. */
  type Sha = string -> Digest

  datatype OpType =
    | ExecOp | ReadOp | WriteOp | RenameOp | DeleteOp | SystemStateOp | ExitOp
    | ExternalReadOp | ExternalWriteOp | ExternalRenameOp | ExternalDeleteOp

  datatype CanonicalOp = CanonicalOp(
    opType: OpType,
    processIndex: nat,
    tool: Option<string>,
    args: seq<string>,
    inputs: seq<string>,
    outputs: seq<string>)

  /** The operation without its diagnostic process index. */
  function Erase(op: CanonicalOp): CanonicalOp
  {
    op.(processIndex := 0)
  }

  /** An operation whose process index is still to be filled in. */
  function Op(t: OpType, tool: Option<string>, args: seq<string>, inputs: seq<string>,
        outputs: seq<string>): CanonicalOp
  {
    CanonicalOp(t, 0, tool, args, inputs, outputs)
  }

  function Tag(t: OpType): string
  {
    match t
    case ExecOp => "exec"
    case ReadOp => "file_read"
    case WriteOp => "file_write"
    case RenameOp => "file_rename"
    case DeleteOp => "file_delete"
    case SystemStateOp => "system_state_read"
    case ExitOp => "exit"
    case ExternalReadOp => "external_file_read"
    case ExternalWriteOp => "external_file_write"
    case ExternalRenameOp => "external_file_rename"
    case ExternalDeleteOp => "external_file_delete"
  }

  function Concat(parts: seq<string>): string
  {
    if parts == [] then "" else parts[0] + Concat(parts[1..])
  }

  function Terminated(args: seq<string>): string
  {
    if args == [] then "" else args[0] + "\0" + Terminated(args[1..])
  }

  function ToolBytes(tool: Option<string>): string
  {
    match tool case Some(t) => t case None => ""
  }

  /** The bytes that `hash` feeds to the hasher. */
  function Preimage(op: CanonicalOp): string
  {
    Tag(op.opType) + ToolBytes(op.tool) + Terminated(op.args) + Concat(op.inputs) + Concat(op.outputs)
  }

  function Hash(sha: Sha, op: CanonicalOp): Digest
  {
    sha(Preimage(op))
  }

  function Key(sha: Sha): CanonicalOp -> string
  {
    (op: CanonicalOp) => Hash(sha, op)
  }

  function SortFields(op: CanonicalOp): CanonicalOp
  {
    op.(args := Sort(op.args), inputs := Sort(op.inputs), outputs := Sort(op.outputs))
  }

  function SortByHash(sha: Sha, ops: seq<CanonicalOp>): seq<CanonicalOp>
  {
    SortBy(ByKey(Le, Key(sha)), MapSeq(SortFields, ops))
  }

  function Finalized(sha: Sha, ops: seq<CanonicalOp>): seq<CanonicalOp>
  {
    DedupBy(Key(sha), SortByHash(sha, ops))
  }

  function Leaves(sha: Sha, ops: seq<CanonicalOp>): seq<string>
  {
    MapSeq(Key(sha), ops)
  }

  /** The hashes of the field-sorted operations, as a set. */
  ghost function LeafSet(sha: Sha, ops: seq<CanonicalOp>): set<string>
  {
    set op | op in ops :: Hash(sha, SortFields(op))
  }

  lemma SortedOpHasOrigin(sha: Sha, ops: seq<CanonicalOp>, op: CanonicalOp) returns (j: nat)
    requires op in SortByHash(sha, ops)
    ensures j < |ops| && SortFields(ops[j]) == op
  {
    SortedImageElement(ByKey(Le, Key(sha)), SortFields, ops, op);
    j :| 0 <= j < |ops| && SortFields(ops[j]) == op;
  }

  lemma OpReachesSorted(sha: Sha, ops: seq<CanonicalOp>, op: CanonicalOp) returns (i: nat)
    requires op in ops
    ensures i < |SortByHash(sha, ops)| && SortByHash(sha, ops)[i] == SortFields(op)
  {
    var j :| 0 <= j < |ops| && ops[j] == op;
    SortedImageElement(ByKey(Le, Key(sha)), SortFields, ops, SortFields(op));
    assert SortFields(ops[j]) == SortFields(op);
    i :| 0 <= i < |SortByHash(sha, ops)| && SortByHash(sha, ops)[i] == SortFields(op);
  }

  lemma LeavesWithinSet(sha: Sha, ops: seq<CanonicalOp>)
    ensures Elements(Leaves(sha, Finalized(sha, ops))) <= LeafSet(sha, ops)
  {
    var done := Finalized(sha, ops);
    forall i | 0 <= i < |done| ensures Leaves(sha, done)[i] in LeafSet(sha, ops) {
      DedupIsSubset(Key(sha), SortByHash(sha, ops), done[i]);
      var j := SortedOpHasOrigin(sha, ops, done[i]);
      assert ops[j] in ops;
    }
  }

  lemma SetWithinLeaves(sha: Sha, ops: seq<CanonicalOp>)
    ensures LeafSet(sha, ops) <= Elements(Leaves(sha, Finalized(sha, ops)))
  {
    var done := Finalized(sha, ops);
    forall op | op in ops ensures Hash(sha, SortFields(op)) in Leaves(sha, done) {
      var i := OpReachesSorted(sha, ops, op);
      var k := DedupCovers(Key(sha), SortByHash(sha, ops), i);
      assert Leaves(sha, done)[k] == Hash(sha, SortFields(op));
    }
  }

  /** The committed leaves are the ascending enumeration of a set, computed from the operations as a set. */
  lemma LeavesAreTheSortedSet(sha: Sha, ops: seq<CanonicalOp>)
    ensures StrictlyAscending(Leaves(sha, Finalized(sha, ops)))
    ensures Elements(Leaves(sha, Finalized(sha, ops))) == LeafSet(sha, ops)
  {
    LeIsTotalOrder();
    ByKeyIsPreorder(Le, Key(sha));
    SortBySorted(ByKey(Le, Key(sha)), MapSeq(SortFields, ops));
    DedupAscends(Le, Key(sha), SortByHash(sha, ops));
    LeavesWithinSet(sha, ops);
    SetWithinLeaves(sha, ops);
  }

  /** `op` and `other` differ at most in process index and in the order inside each field. */
  predicate SameUpToFieldOrder(op: CanonicalOp, other: CanonicalOp)
  {
    && op.opType == other.opType && op.tool == other.tool
    && multiset(op.args) == multiset(other.args)
    && multiset(op.inputs) == multiset(other.inputs)
    && multiset(op.outputs) == multiset(other.outputs)
  }

  lemma SameHash(sha: Sha, op: CanonicalOp, other: CanonicalOp)
    requires SameUpToFieldOrder(op, other)
    ensures Hash(sha, SortFields(op)) == Hash(sha, SortFields(other))
  {
    LeIsTotalOrder();
    SortForgetsOrder(Le, op.args, other.args);
    SortForgetsOrder(Le, op.inputs, other.inputs);
    SortForgetsOrder(Le, op.outputs, other.outputs);
    assert Preimage(SortFields(op)) == Preimage(SortFields(other));
  }

  ghost predicate CoveredBy(ops: seq<CanonicalOp>, others: seq<CanonicalOp>)
  {
    forall op :: op in ops ==> exists other :: other in others && SameUpToFieldOrder(op, other)
  }

  /**
   Set semantics: permuting or repeating operations, renumbering processes and permuting the fields
   inside an operation never change the committed leaves.
   */
  lemma LeavesIgnoreOrderAndCount(sha: Sha, ops: seq<CanonicalOp>, others: seq<CanonicalOp>)
    requires CoveredBy(ops, others) && CoveredBy(others, ops)
    ensures Leaves(sha, Finalized(sha, ops)) == Leaves(sha, Finalized(sha, others))
  {
    CoveredLeafSet(sha, ops, others);
    CoveredLeafSet(sha, others, ops);
    SameLeafSet(sha, ops, others);
  }

  lemma CoveredLeafSet(sha: Sha, ops: seq<CanonicalOp>, others: seq<CanonicalOp>)
    requires CoveredBy(ops, others)
    ensures LeafSet(sha, ops) <= LeafSet(sha, others)
  {
    forall h | h in LeafSet(sha, ops) ensures h in LeafSet(sha, others) {
      var op :| op in ops && Hash(sha, SortFields(op)) == h;
      var other :| other in others && SameUpToFieldOrder(op, other);
      SameHash(sha, op, other);
    }
  }

  lemma SameLeafSet(sha: Sha, ops: seq<CanonicalOp>, others: seq<CanonicalOp>)
    requires LeafSet(sha, ops) == LeafSet(sha, others)
    ensures Leaves(sha, Finalized(sha, ops)) == Leaves(sha, Finalized(sha, others))
  {
    LeavesAreTheSortedSet(sha, ops);
    LeavesAreTheSortedSet(sha, others);
    AscendingIsUnique(Leaves(sha, Finalized(sha, ops)), Leaves(sha, Finalized(sha, others)));
  }

  /** Finalizing twice changes nothing, process indices included. */
  lemma FinalizedIsIdempotent(sha: Sha, ops: seq<CanonicalOp>)
    ensures Finalized(sha, Finalized(sha, ops)) == Finalized(sha, ops)
  {
    var done := Finalized(sha, ops);
    forall i | 0 <= i < |done| ensures SortFields(done[i]) == done[i] {
      DedupIsSubset(Key(sha), SortByHash(sha, ops), done[i]);
      var j := SortedOpHasOrigin(sha, ops, done[i]);
      FieldSortIdempotent(ops[j]);
    }
    assert MapSeq(SortFields, done) == done;
    LeavesAreTheSortedSet(sha, ops);
    AscendingIsSorted(sha, done);
    SortOfSorted(ByKey(Le, Key(sha)), done);
    DedupOfAscending(Le, Key(sha), done);
  }

  lemma FieldSortIdempotent(op: CanonicalOp)
    ensures SortFields(SortFields(op)) == SortFields(op)
  {
    SortIdempotent(op.args);
    SortIdempotent(op.inputs);
    SortIdempotent(op.outputs);
  }

  lemma AscendingIsSorted(sha: Sha, ops: seq<CanonicalOp>)
    requires StrictlyAscending(Leaves(sha, ops))
    ensures SortedBy(ByKey(Le, Key(sha)), ops)
  {
    forall i, j | 0 <= i < j < |ops| ensures ByKey(Le, Key(sha))(ops[i], ops[j]) {
      assert Le(Leaves(sha, ops)[i], Leaves(sha, ops)[j]);
    }
  }

  /** The first loop of `finalize_ops`. */
  method SortEveryField(ops: seq<CanonicalOp>) returns (result: seq<CanonicalOp>)
    ensures result == MapSeq(SortFields, ops)
  {
    result := ops;
    for i := 0 to |ops|
      invariant |result| == |ops|
      invariant forall k :: 0 <= k < i ==> result[k] == SortFields(ops[k])
      invariant forall k :: i <= k < |ops| ==> result[k] == ops[k]
    {
      result := result[i := SortFields(ops[i])];
    }
  }

  /** `finalize_ops`: sort the fields, sort stably by hash, drop repeated hashes. */
  method FinalizeOps(sha: Sha, ops: seq<CanonicalOp>) returns (result: seq<CanonicalOp>)
    ensures result == Finalized(sha, ops)
  {
    result := SortEveryField(ops);
    result := SortBy(ByKey(Le, Key(sha)), result);
    result := Dedup(Key(sha), result);
  }
}
