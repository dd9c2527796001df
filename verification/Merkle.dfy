/** The bottom-up Merkle loop, the balanced tree it computes, and what an equal root says about the leaves. */
module Merkle {
  import opened Sequences
  import opened Text
  import opened Operations

  const DIGEST_WIDTH := 71

  function HashPair(sha: Sha, left: string, right: string): Digest
  {
    sha(left + right)
  }

  function Padding(sha: Sha): Digest
  {
    HashPair(sha, "padding", "padding")
  }

  predicate IsPowerOfTwo(n: nat)
  {
    n == 1 || (n > 1 && n % 2 == 0 && IsPowerOfTwo(n / 2))
  }

  /** The least power of two that is at least `n`: `usize::next_power_of_two`. */
  function NextPowerOfTwo(n: nat): (p: nat)
    ensures IsPowerOfTwo(p) && n <= p && (n > 0 ==> p < 2 * n)
  {
    if n <= 1 then 1 else 2 * NextPowerOfTwo((n + 1) / 2)
  }

  lemma {:induction false} NextPowerOfTwoIsLeast(n: nat, q: nat)
    requires IsPowerOfTwo(q) && n <= q
    ensures NextPowerOfTwo(n) <= q
  {
    if n > 1 { NextPowerOfTwoIsLeast((n + 1) / 2, q / 2); }
  }

  function Padded(sha: Sha, leaves: seq<string>): (padded: seq<string>)
    ensures |padded| == NextPowerOfTwo(|leaves|) && leaves <= padded
  {
    leaves + seq(NextPowerOfTwo(|leaves|) - |leaves|, _ => Padding(sha))
  }

  /** One round of the loop: each pair of neighbours becomes its parent. */
  function Pairs(sha: Sha, level: seq<string>): seq<string>
  {
    seq(|level| / 2, i requires 0 <= i < |level| / 2 => HashPair(sha, level[2 * i], level[2 * i + 1]))
  }

  /** The balanced tree over a list whose length is a power of two: split in half, hash the two halves together. */
  function Tree(sha: Sha, level: seq<string>): string
    requires IsPowerOfTwo(|level|)
  {
    if |level| == 1 then level[0]
    else
      var h := |level| / 2;
      HashPair(sha, Tree(sha, level[..h]), Tree(sha, level[h..]))
  }

  function Root(sha: Sha, leaves: seq<string>): string
  {
    if leaves == [] then HashPair(sha, "empty", "empty") else Tree(sha, Padded(sha, leaves))
  }

  lemma PairsOfHalves(sha: Sha, level: seq<string>, h: nat)
    requires |level| == 2 * h && h % 2 == 0
    ensures Pairs(sha, level)[..h / 2] == Pairs(sha, level[..h])
    ensures Pairs(sha, level)[h / 2..] == Pairs(sha, level[h..])
  {
  }

  /** A round of the loop leaves the root of the balanced tree as it is. */
  lemma {:induction false} RoundKeepsTree(sha: Sha, level: seq<string>)
    requires |level| > 1 && IsPowerOfTwo(|level|)
    ensures IsPowerOfTwo(|Pairs(sha, level)|) && Tree(sha, Pairs(sha, level)) == Tree(sha, level)
    decreases |level|
  {
    var h := |level| / 2;
    if h > 1 {
      PairsOfHalves(sha, level, h);
      RoundKeepsTree(sha, level[..h]);
      RoundKeepsTree(sha, level[h..]);
    }
  }

  /** The neighbours of position `i` on the way up: the other one of each pair. */
  function Siblings(sha: Sha, level: seq<string>, i: nat): seq<string>
    requires IsPowerOfTwo(|level|) && i < |level|
    decreases |level|
  {
    if |level| == 1 then []
    else [level[if i % 2 == 0 then i + 1 else i - 1]] + Siblings(sha, Pairs(sha, level), i / 2)
  }

  /** The value together with its neighbour, in their order. */
  function Joined(sha: Sha, value: string, i: nat, sibling: string): string
  {
    if i % 2 == 0 then sha(value + sibling) else sha(sibling + value)
  }

  /** The value at position `i`, joined with one neighbour after the other. */
  function Climb(sha: Sha, value: string, i: nat, path: seq<string>): string
    decreases |path|
  {
    if path == [] then value else Climb(sha, Joined(sha, value, i, path[0]), i / 2, path[1..])
  }

  lemma {:induction false} ClimbStep(sha: Sha, value: string, i: nat, sibling: string, rest: seq<string>)
    ensures Climb(sha, value, i, [sibling] + rest) == Climb(sha, Joined(sha, value, i, sibling), i / 2, rest)
  {
    assert ([sibling] + rest)[1..] == rest;
  }

  lemma ParentIsJoined(sha: Sha, level: seq<string>, i: nat)
    requires i < |level| && |level| % 2 == 0
    ensures Pairs(sha, level)[i / 2] == Joined(sha, level[i], i, level[if i % 2 == 0 then i + 1 else i - 1])
  {
  }

  lemma {:induction false} ClimbReachesTree(sha: Sha, level: seq<string>, i: nat)
    requires IsPowerOfTwo(|level|) && i < |level|
    ensures Climb(sha, level[i], i, Siblings(sha, level, i)) == Tree(sha, level)
    decreases |level|
  {
    if |level| > 1 {
      var above, sibling := Pairs(sha, level), level[if i % 2 == 0 then i + 1 else i - 1];
      RoundKeepsTree(sha, level);
      ParentIsJoined(sha, level, i);
      ClimbReachesTree(sha, above, i / 2);
      ClimbStep(sha, level[i], i, sibling, Siblings(sha, above, i / 2));
    }
  }

  lemma PaddingIs(sha: Sha)
    ensures Padding(sha) == sha("paddingpadding")
  {
    assert "padding" + "padding" == "paddingpadding";
  }

  /** Every leaf leads to the root by its own neighbours, and so does the padding beyond the leaves. */
  lemma LeafLeadsToRoot(sha: Sha, leaves: seq<string>, i: nat, leaf: string)
    requires leaves != [] && i < NextPowerOfTwo(|leaves|)
    requires leaf == if i < |leaves| then leaves[i] else sha("paddingpadding")
    ensures Climb(sha, leaf, i, Siblings(sha, Padded(sha, leaves), i)) == Root(sha, leaves)
  {
    PaddingIs(sha);
    var padded := Padded(sha, leaves);
    assert padded[i] == leaf;
    ClimbReachesTree(sha, padded, i);
  }

  /** Pad to a power of two, then hash neighbours together until one value is left. */
  method RootFromLeaves(sha: Sha, leaves: seq<string>) returns (root: string)
    ensures root == Root(sha, leaves)
  {
    if leaves == [] {
      return HashPair(sha, "empty", "empty");
    }
    var level := leaves;
    var target := NextPowerOfTwo(|level|);
    while |level| < target
      invariant |leaves| <= |level| <= target
      invariant level == leaves + seq(|level| - |leaves|, _ => Padding(sha))
    {
      level := level + [HashPair(sha, "padding", "padding")];
    }
    assert level == Padded(sha, leaves);
    while |level| > 1
      invariant IsPowerOfTwo(|level|) && Tree(sha, level) == Root(sha, leaves)
      decreases |level|
    {
      RoundKeepsTree(sha, level);
      level := Pairs(sha, level);
    }
    root := level[|level| - 1];
  }

  // ------------------------------------------------------------------------------------------- binding

  predicate AllDigests(leaves: seq<string>)
  {
    forall i :: 0 <= i < |leaves| ==> |leaves[i]| == DIGEST_WIDTH
  }

  lemma {:induction false} TreeIsWide(sha: Sha, level: seq<string>)
    requires IsPowerOfTwo(|level|) && AllDigests(level)
    ensures |Tree(sha, level)| == DIGEST_WIDTH
  {
  }

  /** Walk down two trees of the same shape and return the first two different inputs with equal hashes, if any. */
  function Collision(sha: Sha, a: seq<string>, b: seq<string>): Option<(string, string)>
    requires IsPowerOfTwo(|a|) && |a| == |b|
    decreases |a|
  {
    if |a| == 1 then None
    else
      var h := |a| / 2;
      var x, y := Tree(sha, a[..h]) + Tree(sha, a[h..]), Tree(sha, b[..h]) + Tree(sha, b[h..]);
      if x != y then Some((x, y))
      else
        match Collision(sha, a[..h], b[..h])
        case Some(pair) => Some(pair)
        case None => Collision(sha, a[h..], b[h..])
  }

  lemma HalvesEqual<T>(a: seq<T>, b: seq<T>, h: nat)
    requires |a| == |b| && h <= |a|
    ensures a == b <==> a[..h] == b[..h] && a[h..] == b[h..]
  {
    assert a == a[..h] + a[h..] && b == b[..h] + b[h..];
  }

  /** Equal roots of two trees of the same shape: the leaves are equal, or the walk ends in a collision of `sha`. */
  lemma {:induction false} EqualTrees(sha: Sha, a: seq<string>, b: seq<string>)
    requires IsPowerOfTwo(|a|) && |a| == |b| && AllDigests(a) && AllDigests(b)
    requires Tree(sha, a) == Tree(sha, b)
    ensures Collision(sha, a, b).None? <==> a == b
    ensures Collision(sha, a, b).Some? ==>
      var (x, y) := Collision(sha, a, b).value; x != y && sha(x) == sha(y)
    decreases |a|
  {
    if |a| > 1 {
      var h := |a| / 2;
      var x, y := Tree(sha, a[..h]) + Tree(sha, a[h..]), Tree(sha, b[..h]) + Tree(sha, b[h..]);
      HalvesEqual(a, b, h);
      if x == y {
        TreeIsWide(sha, a[..h]);
        TreeIsWide(sha, b[..h]);
        SplitEqual(Tree(sha, a[..h]), Tree(sha, a[h..]), Tree(sha, b[..h]), Tree(sha, b[h..]));
        EqualTrees(sha, a[..h], b[..h]);
        EqualTrees(sha, a[h..], b[h..]);
      }
    }
  }

  /**
   Binding: two lists of digests with the same padded width and the same root agree after padding, unless walking
   down their trees yields a collision.  Lists without the padding digest are then equal.
   */
  lemma RootBinds(sha: Sha, a: seq<string>, b: seq<string>)
    requires a != [] && b != [] && AllDigests(a) && AllDigests(b)
    requires NextPowerOfTwo(|a|) == NextPowerOfTwo(|b|) && Root(sha, a) == Root(sha, b)
    ensures var found := Collision(sha, Padded(sha, a), Padded(sha, b));
            && (found.None? <==> Padded(sha, a) == Padded(sha, b))
            && (found.None? && Padding(sha) !in a && Padding(sha) !in b ==> a == b)
            && (found.Some? ==> found.value.0 != found.value.1 && sha(found.value.0) == sha(found.value.1))
  {
    EqualTrees(sha, Padded(sha, a), Padded(sha, b));
    if Padded(sha, a) == Padded(sha, b) && Padding(sha) !in a && Padding(sha) !in b {
      PaddingShows(sha, a, b);
      PaddingShows(sha, b, a);
      assert a == Padded(sha, a)[..|a|] && b == Padded(sha, b)[..|b|];
    }
  }

  lemma PaddingShows(sha: Sha, a: seq<string>, b: seq<string>)
    requires Padded(sha, a) == Padded(sha, b)
    ensures |a| < |b| ==> Padding(sha) in b
  {
    if |a| < |b| { assert Padding(sha) == Padded(sha, a)[|a|] == Padded(sha, b)[|a|] == b[|a|]; }
  }

  /** Rounds of pairing until at most `width` values are left. */
  function Reduced(sha: Sha, level: seq<string>, width: nat): seq<string>
    requires width > 0
    decreases |level|
  {
    if |level| <= width then level else Reduced(sha, Pairs(sha, level), width)
  }

  lemma {:induction false} PowersAreApart(w: nat, n: nat)
    requires IsPowerOfTwo(w) && IsPowerOfTwo(n) && w < n
    ensures w <= n / 2
  {
    if w > 1 { PowersAreApart(w / 2, n / 2); }
  }

  lemma PairsAreWide(sha: Sha, level: seq<string>)
    ensures AllDigests(Pairs(sha, level))
  {
  }

  lemma {:induction false} ReducingKeepsTree(sha: Sha, level: seq<string>, width: nat)
    requires IsPowerOfTwo(|level|) && IsPowerOfTwo(width) && width <= |level| && AllDigests(level)
    ensures |Reduced(sha, level, width)| == width && AllDigests(Reduced(sha, level, width))
    ensures Tree(sha, Reduced(sha, level, width)) == Tree(sha, level)
    decreases |level|
  {
    if width < |level| {
      RoundKeepsTree(sha, level);
      PowersAreApart(width, |level|);
      PairsAreWide(sha, level);
      ReducingKeepsTree(sha, Pairs(sha, level), width);
    }
  }

  /**
   Across widths the root binds a level of the wider tree: two roots are equal if the wider padded leaves reduce by
   rounds of pairing to the narrower ones, and only then, unless walking down both yields a collision.
   */
  lemma RootBindsAcrossWidths(sha: Sha, wide: seq<string>, narrow: seq<string>)
    requires wide != [] && narrow != [] && AllDigests(wide) && AllDigests(narrow)
    requires NextPowerOfTwo(|narrow|) <= NextPowerOfTwo(|wide|)
    ensures var reduced := Reduced(sha, Padded(sha, wide), NextPowerOfTwo(|narrow|));
            && |reduced| == |Padded(sha, narrow)|
            && (reduced == Padded(sha, narrow) ==> Root(sha, wide) == Root(sha, narrow))
            && (Root(sha, wide) == Root(sha, narrow) ==>
                  var found := Collision(sha, reduced, Padded(sha, narrow));
                  && (found.None? <==> reduced == Padded(sha, narrow))
                  && (found.Some? ==> found.value.0 != found.value.1 && sha(found.value.0) == sha(found.value.1)))
  {
    var width := NextPowerOfTwo(|narrow|);
    ReducingKeepsTree(sha, Padded(sha, wide), width);
    if Root(sha, wide) == Root(sha, narrow) {
      EqualTrees(sha, Reduced(sha, Padded(sha, wide), width), Padded(sha, narrow));
    }
  }

  /** So the leaves themselves are not bound: a list and the list of its own root have the same root. */
  lemma WidthIsNotBound(sha: Sha, a: seq<string>)
    ensures Root(sha, [Root(sha, a)]) == Root(sha, a)
    ensures |a| != 1 ==> [Root(sha, a)] != a
  {
    assert Padded(sha, [Root(sha, a)]) == [Root(sha, a)];
  }

  // ------------------------------------------------------------------------------------------- stored trees

  /** A stored tree; old ones list all nodes, root first, and leave the leaf list empty. */
  datatype MerkleTree = MerkleTree(leaves: seq<string>, nodes: seq<string>, leafCount: nat)

  function LeafHashes(t: MerkleTree): seq<string>
  {
    if t.leaves != [] || t.leafCount == 0 then t.leaves
    else
      var paddedCount := (|t.nodes| + 1) / 2;
      var first := if paddedCount == 0 then 0 else paddedCount - 1;
      var rest := if first <= |t.nodes| then t.nodes[first..] else [];
      if t.leafCount <= |rest| then rest[..t.leafCount] else rest
  }

  function RootHash(sha: Sha, t: MerkleTree): string
  {
    if t.nodes != [] then t.nodes[0] else Root(sha, LeafHashes(t))
  }

  function Built(leaves: seq<string>): MerkleTree
  {
    MerkleTree(leaves, [], |leaves|)
  }

  /** All nodes, level by level from the root down. */
  function Nodes(sha: Sha, level: seq<string>): seq<string>
    requires IsPowerOfTwo(|level|)
    decreases |level|
  {
    if |level| == 1 then level else Nodes(sha, Pairs(sha, level)) + level
  }

  lemma {:induction false} NodesHoldTheTree(sha: Sha, level: seq<string>)
    requires IsPowerOfTwo(|level|)
    ensures |Nodes(sha, level)| == 2 * |level| - 1
    ensures Nodes(sha, level)[0] == Tree(sha, level) && Nodes(sha, level)[|level| - 1..] == level
    decreases |level|
  {
    if |level| > 1 {
      RoundKeepsTree(sha, level);
      NodesHoldTheTree(sha, Pairs(sha, level));
    }
  }

  /** An old tree with all its nodes and a new one with only its leaves have the same leaves and the same root. */
  lemma OldTreesAgree(sha: Sha, leaves: seq<string>)
    requires leaves != []
    ensures var t := MerkleTree([], Nodes(sha, Padded(sha, leaves)), |leaves|);
            && LeafHashes(t) == leaves == LeafHashes(Built(leaves))
            && RootHash(sha, t) == Root(sha, leaves) == RootHash(sha, Built(leaves))
  {
    NodesHoldTheTree(sha, Padded(sha, leaves));
  }
}
