/** Attestations: construction, validation in every supported version, and what an equal root hash commits to. */
module Attestation {
  import opened Sorting
  import opened Text
  import opened Operations
  import opened Merkle
  import opened Commitment

  /** The frozen JSON commitment of versions 0.2.0 and 0.2.1, whose serializer is not part of this model. */
  type LegacyCommitment = Content -> string

  datatype Value = Value(
    version: string,
    predicateType: string,
    rootHash: string,
    content: Content,
    tree: MerkleTree)

  datatype Failure = LegacyRootMismatch | ProcessRootMismatch | CommitmentMismatch | UnsupportedVersion(version: string)

  predicate OutputLe(a: AttestedOutput, b: AttestedOutput)
  {
    if a.path != b.path then Le(a.path, b.path) else Le(a.hash, b.hash)
  }

  lemma OutputLeIsTotalOrder()
    ensures TotalOrder(OutputLe)
  {
    LeIsTotalOrder();
    forall a, b | OutputLe(a, b) && OutputLe(b, a) ensures a == b { }
    forall a, b, c | OutputLe(a, b) && OutputLe(b, c) ensures OutputLe(a, c) { }
  }

  function SortOutputs(outputs: seq<AttestedOutput>): seq<AttestedOutput>
  {
    SortBy(OutputLe, outputs)
  }

  function CommitmentHash(sha: Sha, c: Content): string
  {
    sha(Encode(c))
  }

  /** The content that a new attestation commits to. */
  function SortedContent(sha: Sha, tree: MerkleTree, command: seq<string>, selection: OutputSelection,
      outputs: seq<AttestedOutput>): Content
  {
    Content(RootHash(sha, tree), command,
            OutputSelection(selection.mode, Sort(selection.artifacts), Sort(selection.outputRoots)),
            SortOutputs(outputs))
  }

  function Constructed(sha: Sha, tree: MerkleTree, command: seq<string>, selection: OutputSelection,
      outputs: seq<AttestedOutput>): Value
  {
    var c := SortedContent(sha, tree, command, selection, outputs);
    Value("0.3.0", "https://repx.dev/process-provenance/v0.3.0", CommitmentHash(sha, c), c, tree)
  }

  /** The process root is filled in when it is missing, also when validation then fails. */
  function Filled(sha: Sha, a: Value): Value
  {
    if a.content.processRoot == "" then a.(content := a.content.(processRoot := RootHash(sha, a.tree))) else a
  }

  function CheckFilled(sha: Sha, commitment: LegacyCommitment, a: Value): Option<Failure>
  {
    if RootHash(sha, a.tree) != a.content.processRoot then Some(ProcessRootMismatch)
    else if commitment(a.content) != a.rootHash then Some(CommitmentMismatch)
    else None
  }

  /** The outcome of validation and the attestation afterwards. */
  function Validated(sha: Sha, legacy: LegacyCommitment, a: Value): (Value, Option<Failure>)
  {
    if a.version == "0.1.0" then
      if a.rootHash != RootHash(sha, a.tree) then (a, Some(LegacyRootMismatch))
      else (a.(content := a.content.(processRoot := RootHash(sha, a.tree))), None)
    else if a.version == "0.2.0" || a.version == "0.2.1" then (Filled(sha, a), CheckFilled(sha, legacy, Filled(sha, a)))
    else if a.version == "0.3.0" then
      (Filled(sha, a), CheckFilled(sha, c => CommitmentHash(sha, c), Filled(sha, a)))
    else (a, Some(UnsupportedVersion(a.version)))
  }

  class Attestation {
    var version: string
    var predicateType: string
    var rootHash: string
    var processRoot: string
    var command: seq<string>
    var selection: OutputSelection
    var outputs: seq<AttestedOutput>
    var tree: MerkleTree

    function Content(): Content
      reads this
    {
      Commitment.Content(processRoot, command, selection, outputs)
    }

    function Current(): Value
      reads this
    {
      Value(version, predicateType, rootHash, Content(), tree)
    }

    constructor NewWithOutputs(sha: Sha, tree: MerkleTree, command: seq<string>, selection: OutputSelection,
        outputs: seq<AttestedOutput>)
      ensures Current() == Constructed(sha, tree, command, selection, outputs)
    {
      var root := RootHash(sha, tree);
      var sorted := selection;
      sorted := sorted.(artifacts := Sort(sorted.artifacts));
      sorted := sorted.(outputRoots := Sort(sorted.outputRoots));
      var sortedOutputs := SortOutputs(outputs);
      var encoded := EncodeCommitment(Commitment.Content(root, command, sorted, sortedOutputs));
      version := "0.3.0";
      predicateType := "https://repx.dev/process-provenance/v0.3.0";
      rootHash := sha(encoded);
      processRoot := root;
      this.command := command;
      this.selection := sorted;
      this.outputs := sortedOutputs;
      this.tree := tree;
    }

    method Validate(sha: Sha, legacy: LegacyCommitment) returns (failure: Option<Failure>)
      modifies this`processRoot
      ensures (Current(), failure) == Validated(sha, legacy, old(Current()))
    {
      var derived := RootHash(sha, tree);
      if version == "0.1.0" {
        if rootHash != derived {
          return Some(LegacyRootMismatch);
        }
        processRoot := derived;
      } else if version == "0.2.0" || version == "0.2.1" {
        if processRoot == "" {
          processRoot := derived;
        }
        if derived != processRoot {
          return Some(ProcessRootMismatch);
        }
        var computed := legacy(Content());
        if computed != rootHash {
          return Some(CommitmentMismatch);
        }
      } else if version == "0.3.0" {
        if processRoot == "" {
          processRoot := derived;
        }
        if derived != processRoot {
          return Some(ProcessRootMismatch);
        }
        var encoded := EncodeCommitment(Content());
        if sha(encoded) != rootHash {
          return Some(CommitmentMismatch);
        }
      } else {
        return Some(UnsupportedVersion(version));
      }
      failure := None;
    }
  }

  /** What is constructed validates, and validation leaves it as it is. */
  lemma ConstructedValidates(sha: Sha, legacy: LegacyCommitment, tree: MerkleTree, command: seq<string>,
      selection: OutputSelection, outputs: seq<AttestedOutput>)
    ensures var a := Constructed(sha, tree, command, selection, outputs); Validated(sha, legacy, a) == (a, None)
  {
  }

  /** The order in which outputs, artifacts and output roots are given does not matter; their multiplicity does. */
  lemma ConstructionForgetsOrder(sha: Sha, tree: MerkleTree, command: seq<string>, s: OutputSelection,
      s': OutputSelection, outputs: seq<AttestedOutput>, outputs': seq<AttestedOutput>)
    ensures Constructed(sha, tree, command, s, outputs) == Constructed(sha, tree, command, s', outputs') <==>
      && s.mode == s'.mode && multiset(s.artifacts) == multiset(s'.artifacts)
      && multiset(s.outputRoots) == multiset(s'.outputRoots) && multiset(outputs) == multiset(outputs')
  {
    LeIsTotalOrder();
    OutputLeIsTotalOrder();
    SortForgetsOrder(Le, s.artifacts, s'.artifacts);
    SortForgetsOrder(Le, s.outputRoots, s'.outputRoots);
    SortForgetsOrder(OutputLe, outputs, outputs');
  }

  /** A version 0.3.0 attestation that passed validation. */
  predicate IsValid(sha: Sha, legacy: LegacyCommitment, a: Value)
  {
    a.version == "0.3.0" && Validated(sha, legacy, a) == (a, None)
  }

  lemma ValidMeans(sha: Sha, legacy: LegacyCommitment, a: Value)
    requires a.version == "0.3.0"
    ensures IsValid(sha, legacy, a) <==>
      a.content.processRoot == RootHash(sha, a.tree) && a.rootHash == CommitmentHash(sha, a.content)
  {
  }

  /** A tree as it is written today: leaves only, at least one, each a digest. */
  predicate PlainTree(t: MerkleTree)
  {
    t == Built(t.leaves) && t.leaves != [] && AllDigests(t.leaves)
  }

  /** The two inputs of `sha` at which the comparison of two attestations ends. */
  function Witness(sha: Sha, a: Value, b: Value): Option<(string, string)>
    requires PlainTree(a.tree) && PlainTree(b.tree)
    requires NextPowerOfTwo(|a.tree.leaves|) == NextPowerOfTwo(|b.tree.leaves|)
  {
    if Encode(a.content) != Encode(b.content) then Some((Encode(a.content), Encode(b.content)))
    else Collision(sha, Padded(sha, a.tree.leaves), Padded(sha, b.tree.leaves))
  }

  /**
   The root hash of a valid attestation commits to everything: two with the same root hash and trees of the same
   padded width have the same command, selection, outputs and padded leaves, hence the same leaves where none is the
   padding, or comparing them yields a collision of `sha`.
   */
  lemma RootHashCommits(sha: Sha, legacy: LegacyCommitment, a: Value, b: Value)
    requires IsValid(sha, legacy, a) && IsValid(sha, legacy, b) && a.rootHash == b.rootHash
    requires Fits(a.content) && Fits(b.content) && PlainTree(a.tree) && PlainTree(b.tree)
    requires NextPowerOfTwo(|a.tree.leaves|) == NextPowerOfTwo(|b.tree.leaves|)
    ensures Witness(sha, a, b).None? <==>
      a.content == b.content && Padded(sha, a.tree.leaves) == Padded(sha, b.tree.leaves)
    ensures Witness(sha, a, b).None? && Padding(sha) !in a.tree.leaves + b.tree.leaves ==> a.tree == b.tree
    ensures Witness(sha, a, b).Some? ==>
      var (x, y) := Witness(sha, a, b).value; x != y && sha(x) == sha(y)
  {
    ValidMeans(sha, legacy, a);
    ValidMeans(sha, legacy, b);
    if Encode(a.content) == Encode(b.content) {
      EncodingIsInjective(a.content, b.content);
      RootBinds(sha, a.tree.leaves, b.tree.leaves);
    }
  }

  // ------------------------------------------------------------------------------------------- every version

  predicate IsLegacy(version: string)
  {
    version == "0.2.0" || version == "0.2.1"
  }

  /** The process root that the tree has is recorded, or none is. */
  predicate RootFits(sha: Sha, a: Value)
  {
    a.content.processRoot == "" || a.content.processRoot == RootHash(sha, a.tree)
  }

  function WithRoot(sha: Sha, a: Value): Value
  {
    a.(content := a.content.(processRoot := RootHash(sha, a.tree)))
  }

  /**
   Exactly what passes, in every version, and how: the process root is that of the tree afterwards, and the root hash is
   that of the tree for version 0.1.0, the frozen commitment to the content for 0.2.x, its encoding's hash for 0.3.0.
   */
  lemma AcceptedIff(sha: Sha, legacy: LegacyCommitment, a: Value)
    ensures Validated(sha, legacy, a).1.None? <==>
      || (a.version == "0.1.0" && a.rootHash == RootHash(sha, a.tree))
      || (IsLegacy(a.version) && RootFits(sha, a) && a.rootHash == legacy(WithRoot(sha, a).content))
      || (a.version == "0.3.0" && RootFits(sha, a) && a.rootHash == sha(Encode(WithRoot(sha, a).content)))
    ensures Validated(sha, legacy, a).1.None? ==> Validated(sha, legacy, a).0 == WithRoot(sha, a)
  {
  }

  /** Exactly what is rejected with which failure; only a commitment that does not match leaves the root filled in. */
  lemma RejectedIff(sha: Sha, legacy: LegacyCommitment, a: Value, failure: Failure)
    ensures Validated(sha, legacy, a).1 == Some(failure) <==>
      match failure
      case UnsupportedVersion(v) => v == a.version && v !in {"0.1.0", "0.2.0", "0.2.1", "0.3.0"}
      case LegacyRootMismatch => a.version == "0.1.0" && a.rootHash != RootHash(sha, a.tree)
      case ProcessRootMismatch => a.version in {"0.2.0", "0.2.1", "0.3.0"} && !RootFits(sha, a)
      case CommitmentMismatch =>
        RootFits(sha, a)
        && ((IsLegacy(a.version) && a.rootHash != legacy(WithRoot(sha, a).content))
            || (a.version == "0.3.0" && a.rootHash != sha(Encode(WithRoot(sha, a).content))))
    ensures Validated(sha, legacy, a).1 == Some(failure) ==>
      Validated(sha, legacy, a).0 == if failure.CommitmentMismatch? then WithRoot(sha, a) else a
  {
  }

  predicate Accepted(sha: Sha, legacy: LegacyCommitment, a: Value)
  {
    Validated(sha, legacy, a).1.None?
  }

  /** Leaves and nothing else are stored, so that the root of the tree is computed from them. */
  predicate WithoutNodes(t: MerkleTree)
  {
    t.nodes == [] && t.leaves != [] && AllDigests(t.leaves)
  }

  predicate SameWidth(t: MerkleTree, u: MerkleTree)
  {
    NextPowerOfTwo(|t.leaves|) == NextPowerOfTwo(|u.leaves|)
  }

  /** What comparing two trees of one padded width and one root yields. */
  predicate TreesBound(sha: Sha, t: MerkleTree, u: MerkleTree)
    requires SameWidth(t, u)
  {
    var found := Collision(sha, Padded(sha, t.leaves), Padded(sha, u.leaves));
    && (found.None? <==> Padded(sha, t.leaves) == Padded(sha, u.leaves))
    && (found.Some? ==> found.value.0 != found.value.1 && sha(found.value.0) == sha(found.value.1))
  }

  lemma RootsBindTrees(sha: Sha, t: MerkleTree, u: MerkleTree)
    requires WithoutNodes(t) && WithoutNodes(u) && SameWidth(t, u)
    requires RootHash(sha, t) == RootHash(sha, u)
    ensures TreesBound(sha, t, u)
  {
    RootBinds(sha, t.leaves, u.leaves);
  }

  /** Tamper evidence of version 0.1.0: the root hash commits to the leaves, and to nothing else. */
  lemma OldRootCommits(sha: Sha, legacy: LegacyCommitment, a: Value, b: Value)
    requires Accepted(sha, legacy, a) && Accepted(sha, legacy, b) && a.rootHash == b.rootHash
    requires a.version == b.version == "0.1.0" && WithoutNodes(a.tree) && WithoutNodes(b.tree)
    requires SameWidth(a.tree, b.tree)
    ensures TreesBound(sha, a.tree, b.tree)
  {
    AcceptedIff(sha, legacy, a);
    AcceptedIff(sha, legacy, b);
    RootsBindTrees(sha, a.tree, b.tree);
  }

  /**
   Tamper evidence of versions 0.2.x: two with one root hash have the same content after validation, process root
   included, or contents on which the frozen commitment collides; equal contents bind the leaves.
   */
  lemma LegacyRootCommits(sha: Sha, legacy: LegacyCommitment, a: Value, b: Value)
    requires Accepted(sha, legacy, a) && Accepted(sha, legacy, b) && a.rootHash == b.rootHash
    requires IsLegacy(a.version) && IsLegacy(b.version)
    ensures var c, d := Validated(sha, legacy, a).0.content, Validated(sha, legacy, b).0.content;
            && (c == d || (c != d && legacy(c) == legacy(d)))
            && (c == d && WithoutNodes(a.tree) && WithoutNodes(b.tree) && SameWidth(a.tree, b.tree) ==>
                  TreesBound(sha, a.tree, b.tree))
  {
    AcceptedIff(sha, legacy, a);
    AcceptedIff(sha, legacy, b);
    if Validated(sha, legacy, a).0.content == Validated(sha, legacy, b).0.content
       && WithoutNodes(a.tree) && WithoutNodes(b.tree) && SameWidth(a.tree, b.tree) {
      RootsBindTrees(sha, a.tree, b.tree);
    }
  }

  /**
   The condition on nodes is needed: a stored list of nodes is believed, so a version 0.1.0 attestation passes with any
   leaves behind the right first node.
   */
  lemma StoredNodesAreBelieved(sha: Sha, legacy: LegacyCommitment, root: string, leaf: string, c: Content)
    ensures var a := Value("0.1.0", "", root, c, MerkleTree([], [root, leaf, leaf], 2));
            Accepted(sha, legacy, a) && LeafHashes(a.tree) == [leaf, leaf]
  {
  }
}
