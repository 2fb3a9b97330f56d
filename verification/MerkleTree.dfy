/** The audit crate's Merkle tree: the mutable object and the laws of its roots and proofs. */
module MerkleTree {
  import opened Prelude
  import opened Crypto
  import opened HashTree
  import opened MerkleProof
  import opened MerkleLevels
  import opened Rfc6962

  function LeafLevel(sha: Sha256, leaves: seq<Str>): (nodes: seq<Str>)
    ensures |nodes| == |leaves| && forall i :: 0 <= i < |leaves| ==> nodes[i] == HashLeaf(sha, leaves[i])
  {
    seq(|leaves|, i requires 0 <= i < |leaves| => HashLeaf(sha, leaves[i]))
  }

  /** The root text of a non-empty leaf list, by the levels of `rebuild`. */
  function Root(sha: Sha256, leaves: seq<Str>): (root: Str)
    requires leaves != []
  {
    Climb(NodeHasher(sha), LeafLevel(sha, leaves))
  }

  /** The full list of leaves that the root commits to. */
  function Expansion(leaves: seq<Str>): (D: seq<Str>)
    requires leaves != []
    ensures |D| == Pow2(Height(|leaves|))
    ensures forall i :: 0 <= i < |D| ==> D[i] == leaves[Source(|leaves|, i)]
  {
    seq(Pow2(Height(|leaves|)), i requires 0 <= i < Pow2(Height(|leaves|)) => leaves[Source(|leaves|, i)])
  }

  /** Everything hashed by the tree over `leaves`. */
  function RootInputs(sha: Sha256, leaves: seq<Str>): (xs: set<Bytes>)
    requires leaves != []
  {
    TreeInputs(sha, BuiltTree(leaves))
  }

  // ---------- the root ----------

  lemma LeafLevelTexts(sha: Sha256, leaves: seq<Str>)
    ensures LeafLevel(sha, leaves) == Texts(sha, LeafTrees(leaves))
  {
    forall i | 0 <= i < |leaves|
      ensures LeafLevel(sha, leaves)[i] == Texts(sha, LeafTrees(leaves))[i]
    {
      assert TopInput(sha, Leaf(leaves[i])) == LeafInput(leaves[i]);
    }
  }

  lemma RootIsTreeText(sha: Sha256, leaves: seq<Str>)
    requires leaves != []
    ensures Root(sha, leaves) == TreeText(sha, BuiltTree(leaves))
  {
    LeafLevelTexts(sha, leaves);
    ClimbTexts(sha, LeafTrees(leaves));
  }

  lemma BuiltTreeShape(leaves: seq<Str>)
    requires leaves != []
    ensures var k := Height(|leaves|);
            && Full(BuiltTree(leaves), k)
            && forall i :: 0 <= i < Pow2(k) ==> Sub(BuiltTree(leaves), k, i) == Leaf(Expansion(leaves)[i])
  {
    ClimbFull(LeafTrees(leaves), 0);
    forall i | 0 <= i < Pow2(Height(|leaves|))
      ensures Sub(BuiltTree(leaves), Height(|leaves|), i) == Leaf(Expansion(leaves)[i])
    {
      BuiltTreeLeaf(leaves, i);
    }
  }

  lemma BuiltTreeLeaf(leaves: seq<Str>, i: nat)
    requires leaves != [] && i < Pow2(Height(|leaves|))
    ensures Sub(BuiltTree(leaves), Height(|leaves|), i) == Leaf(Expansion(leaves)[i])
  {
    SubClimb(LeafTrees(leaves), i);
  }

  lemma BuiltTreeIsRfcTree(leaves: seq<Str>)
    requires leaves != []
    ensures BuiltTree(leaves) == RfcTree(Expansion(leaves))
  {
    var k, D := Height(|leaves|), Expansion(leaves);
    BuiltTreeShape(leaves);
    RfcTreeFull(k, D);
    LeavesOfFull(RfcTree(D), k);
    LeavesOfRfcTree(D);
    FullTreeByLeaves(BuiltTree(leaves), RfcTree(D), k);
  }

  /** The expansion starts with the leaves, adds no new value, and adds nothing at all exactly
      when the number of leaves is a power of two. */
  lemma ExpansionExtends(leaves: seq<Str>)
    requires leaves != []
    ensures Expansion(leaves)[..|leaves|] == leaves
    ensures forall v :: v in Expansion(leaves) ==> v in leaves
    ensures |leaves| == Pow2(Height(|leaves|)) <==> Expansion(leaves) == leaves
  {
    forall i | 0 <= i < |leaves|
      ensures Expansion(leaves)[i] == leaves[i]
    {
      SourceOfLeaf(|leaves|, i);
    }
  }

  /** The root is the RFC 6962 tree hash of the expansion, for every list of leaves. */
  lemma RootIsRfcHash(sha: Sha256, leaves: seq<Str>)
    requires leaves != []
    ensures Root(sha, leaves) == HexEncode(Mth(sha, Expansion(leaves)))
  {
    RootIsTreeText(sha, leaves);
    BuiltTreeIsRfcTree(leaves);
    MthIsTreeHash(sha, Expansion(leaves));
  }

  /** The root is the RFC 6962 tree hash of the leaves themselves exactly for power-of-two
      lengths, apart from collisions between the two computations. */
  lemma RfcAgreement(sha: Sha256, leaves: seq<Str>)
    requires leaves != []
    ensures |leaves| == Pow2(Height(|leaves|)) ==> Root(sha, leaves) == HexEncode(Mth(sha, leaves))
    ensures Root(sha, leaves) == HexEncode(Mth(sha, leaves)) ==>
              || |leaves| == Pow2(Height(|leaves|))
              || Collision(sha, RootInputs(sha, leaves), TreeInputs(sha, RfcTree(leaves)))
  {
    var D := Expansion(leaves);
    RootIsRfcHash(sha, leaves);
    ExpansionExtends(leaves);
    if Root(sha, leaves) == HexEncode(Mth(sha, leaves)) {
      HexInjective(Mth(sha, D), Mth(sha, leaves));
      MthIsTreeHash(sha, D);
      MthIsTreeHash(sha, leaves);
      BuiltTreeIsRfcTree(leaves);
      TreeBinding(sha, RfcTree(D), RfcTree(leaves));
      LeavesOfRfcTree(D);
      LeavesOfRfcTree(leaves);
    }
  }

  /** Two lists share a root exactly when they share their expansion, apart from collisions. */
  lemma RootBinding(sha: Sha256, a: seq<Str>, b: seq<Str>)
    requires a != [] && b != []
    ensures Expansion(a) == Expansion(b) ==> Root(sha, a) == Root(sha, b)
    ensures Root(sha, a) == Root(sha, b) ==>
              Expansion(a) == Expansion(b) || Collision(sha, RootInputs(sha, a), RootInputs(sha, b))
  {
    RootIsTreeText(sha, a);
    RootIsTreeText(sha, b);
    BuiltTreeIsRfcTree(a);
    BuiltTreeIsRfcTree(b);
    if Root(sha, a) == Root(sha, b) {
      HexInjective(TreeHash(sha, BuiltTree(a)), TreeHash(sha, BuiltTree(b)));
      TreeBinding(sha, BuiltTree(a), BuiltTree(b));
      LeavesOfRfcTree(Expansion(a));
      LeavesOfRfcTree(Expansion(b));
    }
  }

  /** A root together with a leaf count determines the list. */
  lemma RootBindsEqualLengths(sha: Sha256, a: seq<Str>, b: seq<Str>)
    requires a != [] && |a| == |b| && Root(sha, a) == Root(sha, b)
    ensures a == b || Collision(sha, RootInputs(sha, a), RootInputs(sha, b))
  {
    RootBinding(sha, a, b);
    ExpansionExtends(a);
    ExpansionExtends(b);
  }

  /** Without the count it does not: repeating the last of three leaves keeps the root. */
  lemma RootSharedAcrossLengths(sha: Sha256, a: Str, b: Str, c: Str)
    ensures Root(sha, [a, b, c]) == Root(sha, [a, b, c, c])
  {
    var xs, ys := [a, b, c], [a, b, c, c];
    assert Height(3) == 2 && Height(4) == 2 && Pow2(2) == 4;
    forall i | 0 <= i < 4
      ensures Expansion(xs)[i] == Expansion(ys)[i]
    {
      SourceOfLeaf(4, i);
      if i < 3 {
        SourceOfLeaf(3, i);
      } else {
        SourceOfMate(3, 2);
      }
    }
    assert Expansion(xs) == Expansion(ys);
    RootBinding(sha, xs, ys);
  }

  // ---------- proofs ----------

  /** The siblings are `path` in hexadecimal, the marks the binary digits of `i`. */
  ghost predicate SpellsPath(elements: seq<ProofElement>, path: seq<Digest>, i: nat) {
    && |elements| == |path|
    && forall j :: 0 <= j < |path| ==>
         HexDecode(elements[j].sibling) == Some(path[j]) && (elements[j].isLeft <==> Bit(i, j))
  }

  /** `proof` is the RFC 6962 audit path of position `i` of the expansion. */
  ghost predicate IsAuditPath(sha: Sha256, leaves: seq<Str>, i: nat, proof: Proof)
    requires leaves != []
  {
    var D := Expansion(leaves);
    && i < |D|
    && proof.leafHash == D[i]
    && |proof.elements| == Height(|leaves|)
    && SpellsPath(proof.elements, Path(sha, i, D), i)
  }

  lemma SpellsPathUp(sha: Sha256, elements: seq<ProofElement>, t: Tree, k: nat, i: nat)
    ensures SpellsPath(elements, Siblings(sha, PathUp(t, k, i)), i) <==> Carries(sha, elements, PathUp(t, k, i))
  {
    forall j: nat | j < k
      ensures PathUp(t, k, i)[j].isLeft <==> Bit(i, j)
    {
      PathMarks(t, k, i, j);
    }
  }

  lemma AuditPathCarries(sha: Sha256, leaves: seq<Str>, i: nat, proof: Proof)
    requires leaves != [] && i < Pow2(Height(|leaves|))
    ensures var k, t := Height(|leaves|), BuiltTree(leaves);
            IsAuditPath(sha, leaves, i, proof)
            <==> Sub(t, k, i) == Leaf(proof.leafHash) && Carries(sha, proof.elements, PathUp(t, k, i))
  {
    var k, t, D := Height(|leaves|), BuiltTree(leaves), Expansion(leaves);
    assert Sub(t, k, i) == Leaf(D[i]) && Full(t, k) by { BuiltTreeShape(leaves); }
    assert Path(sha, i, D) == Siblings(sha, PathUp(t, k, i)) by {
      BuiltTreeIsRfcTree(leaves);
      PathIsTreePath(sha, i, D);
      TreePathIsPathUp(sha, k, t, i);
    }
    SpellsPathUp(sha, proof.elements, t, k, i);
  }

  /** Soundness: an accepted proof is the audit path of a position of the expansion, so its
      leaf is one of the leaves, unless refolding it and building the tree hashed a colliding
      pair. Any sibling text and any path length may be presented. */
  lemma ProofSound(sha: Sha256, leaves: seq<Str>, proof: Proof)
    requires leaves != [] && Refold(sha, proof.leafHash, proof.elements) == Root(sha, leaves)
    ensures || (proof.leafHash in leaves && exists i: nat :: IsAuditPath(sha, leaves, i, proof))
            || Collision(sha, ProofInputs(sha, proof.leafHash, proof.elements), RootInputs(sha, leaves))
  {
    var t := BuiltTree(leaves);
    RootIsTreeText(sha, leaves);
    PathSound(sha, proof.leafHash, proof.elements, t);
    if Attests(sha, proof.leafHash, proof.elements, t) {
      BuiltTreeShape(leaves);
      var i := AttestsFull(sha, proof.leafHash, proof.elements, t, Height(|leaves|));
      AuditPathCarries(sha, leaves, i, proof);
      assert proof.leafHash == Expansion(leaves)[i];
    }
  }

  /** Completeness: the audit path of every position is accepted. */
  lemma ProofComplete(sha: Sha256, leaves: seq<Str>, i: nat, proof: Proof)
    requires leaves != [] && IsAuditPath(sha, leaves, i, proof)
    ensures Refold(sha, proof.leafHash, proof.elements) == Root(sha, leaves)
  {
    var k, t := Height(|leaves|), BuiltTree(leaves);
    AuditPathCarries(sha, leaves, i, proof);
    BuiltTreeShape(leaves);
    CarriesAttests(sha, proof.leafHash, proof.elements, t, k, i);
    PathComplete(sha, proof.leafHash, proof.elements, t);
    RootIsTreeText(sha, leaves);
  }

  /** The steps recorded by `generate_proof` for leaf `i` are its audit path. */
  lemma GeneratedIsAuditPath(sha: Sha256, leaves: seq<Str>, i: nat)
    requires i < |leaves|
    ensures IsAuditPath(sha, leaves, i, Proof(leaves[i], ClimbPath(NodeHasher(sha), LeafLevel(sha, leaves), i)))
  {
    var ts, k := LeafTrees(leaves), Height(|leaves|);
    var elements := ClimbPath(NodeHasher(sha), LeafLevel(sha, leaves), i);
    assert elements == StepTexts(sha, PathUp(BuiltTree(leaves), k, i)) by {
      LeafLevelTexts(sha, leaves);
      ClimbPathTexts(sha, ts, i);
      ClimbPathIsPathUp(ts, i);
    }
    StepTextsCarry(sha, PathUp(BuiltTree(leaves), k, i));
    assert Sub(BuiltTree(leaves), k, i) == Leaf(leaves[i]) by {
      SubClimb(ts, i);
      SourceOfLeaf(|leaves|, i);
    }
    AuditPathCarries(sha, leaves, i, Proof(leaves[i], elements));
  }

  lemma StepTextsCarry(sha: Sha256, path: seq<Step<Tree>>)
    ensures Carries(sha, StepTexts(sha, path), path)
  {
    forall j | 0 <= j < |path|
      ensures HexDecode(StepTexts(sha, path)[j].sibling) == Some(TreeHash(sha, path[j].sibling))
    {
      HexRoundTrip(TreeHash(sha, path[j].sibling));
    }
  }

  // ---------- the object ----------

  datatype MerkleError = EmptyTree | HashNotFound

  /** The proof generated for leaf `i` is its audit path, folds to the root and has the height of the tree. */
  lemma GeneratedProof(sha: Sha256, leaves: seq<Str>, i: nat)
    requires i < |leaves|
    ensures var proof := Proof(leaves[i], ClimbPath(NodeHasher(sha), LeafLevel(sha, leaves), i));
            && IsAuditPath(sha, leaves, i, proof)
            && Refold(sha, leaves[i], proof.elements) == Root(sha, leaves)
            && AtHeight(|proof.elements|, |leaves|)
  {
    GeneratedIsAuditPath(sha, leaves, i);
    ProofComplete(sha, leaves, i, Proof(leaves[i], ClimbPath(NodeHasher(sha), LeafLevel(sha, leaves), i)));
  }

  /** `k` is the base-two logarithm of `n` rounded up. */
  predicate AtHeight(k: nat, n: nat) {
    n <= Pow2(k) && (n >= 2 ==> k >= 1 && Pow2(k - 1) < n)
  }

  class MerkleTree {
    const sha: Sha256
    var root: Option<Str>
    var leaves: seq<Str>
    var leafIndices: map<Str, nat>

    /** The index holds the last position of every leaf and nothing else. */
    ghost predicate Indexed()
      reads this
    {
      && (forall v :: v in leaves ==> v in leafIndices)
      && (forall v :: v in leafIndices ==>
            && leafIndices[v] < |leaves| && leaves[leafIndices[v]] == v
            && forall j :: leafIndices[v] < j < |leaves| ==> leaves[j] != v)
    }

    ghost predicate Valid()
      reads this
    {
      Indexed() && root == if leaves == [] then None else Some(Root(sha, leaves))
    }

    constructor (sha: Sha256)
      ensures Valid() && this.sha == sha && leaves == []
    {
      this.sha, root, leaves, leafIndices := sha, None, [], map[];
    }

    constructor FromHashes(sha: Sha256, hashes: seq<Str>)
      ensures Valid() && this.sha == sha && leaves == hashes
    {
      this.sha, root, leaves, leafIndices := sha, None, [], map[];
      new;
      for idx := 0 to |hashes|
        invariant Indexed() && leaves == hashes[..idx] && this.sha == sha
      {
        leafIndices := leafIndices[hashes[idx] := idx];
        leaves := leaves + [hashes[idx]];
      }
      Rebuild();
    }

    method Update(hash: Str)
      requires Valid()
      modifies this
      ensures Valid() && leaves == old(leaves) + [hash]
    {
      leafIndices := leafIndices[hash := |leaves|];
      leaves := leaves + [hash];
      Rebuild();
    }

    method Rebuild()
      requires Indexed()
      modifies this`root
      ensures Valid()
    {
      if leaves == [] {
        root := None;
        return;
      }
      var nodes := LeafLevel(sha, leaves);
      while |nodes| > 1
        invariant nodes != [] && Climb(NodeHasher(sha), nodes) == Root(sha, leaves)
        decreases |nodes|
      {
        nodes := PairUp(nodes);
      }
      root := Some(nodes[0]);
    }

    /** The inner loop over `chunks(2)` that `rebuild` and `generate_proof` share. */
    method PairUp(nodes: seq<Str>) returns (next: seq<Str>)
      ensures next == NextLevel(NodeHasher(sha), nodes)
    {
      next := [];
      var i := 0;
      while i < |nodes|
        invariant 0 <= i <= |nodes| + 1 && i % 2 == 0 && |next| == i / 2 <= (|nodes| + 1) / 2
        invariant forall j :: 0 <= j < |next| ==> next[j] == NextLevel(NodeHasher(sha), nodes)[j]
      {
        if i + 1 < |nodes| {
          next := next + [HashNode(sha, nodes[i], nodes[i + 1])];
        } else {
          next := next + [HashNode(sha, nodes[i], nodes[i])];
        }
        i := i + 2;
      }
    }

    method GetRoot() returns (r: Result<Str, MerkleError>)
      requires Valid()
      ensures r == if leaves == [] then Err(EmptyTree) else Ok(Root(sha, leaves))
    {
      match root
      case Some(hash) => return Ok(hash);
      case None => return Err(EmptyTree);
    }

    method VerifyInclusion(hash: Str) returns (found: bool)
      requires Valid()
      ensures found <==> hash in leaves
    {
      return hash in leafIndices;
    }

    /** The walk from a leaf to the root, rebuilding every level. */
    method WalkUp(index: nat) returns (elements: seq<ProofElement>)
      requires index < |leaves|
      ensures elements == ClimbPath(NodeHasher(sha), LeafLevel(sha, leaves), index)
    {
      var level := LeafLevel(sha, leaves);
      var currentIndex: nat := index;
      elements := [];
      ghost var whole := ClimbPath(NodeHasher(sha), level, currentIndex);
      while |level| > 1
        invariant currentIndex < |level|
        invariant elements + ClimbPath(NodeHasher(sha), level, currentIndex) == whole
        decreases |level|
      {
        ghost var step, rest := Step(SiblingOf(level, currentIndex), currentIndex % 2 == 1),
                                ClimbPath(NodeHasher(sha), NextLevel(NodeHasher(sha), level), currentIndex / 2);
        assert elements + ([step] + rest) == (elements + [step]) + rest;
        var siblingIndex := if currentIndex % 2 == 0 then currentIndex + 1 else currentIndex - 1;
        var sibling := if siblingIndex < |level| then level[siblingIndex] else level[currentIndex];
        elements := elements + [Step(sibling, currentIndex % 2 != 0)];
        level := PairUp(level);
        currentIndex := currentIndex / 2;
      }
    }

    /** A proof exists for exactly the leaves; it is the audit path of the last occurrence, is
        accepted against the root, and has logarithmic length. */
    method GenerateProof(hash: Str) returns (r: Result<Proof, MerkleError>)
      requires Valid()
      ensures r.Ok? <==> hash in leaves
      ensures r.Err? ==> r.error == HashNotFound
      ensures r.Ok? ==>
        && r.value.leafHash == hash
        && IsAuditPath(sha, leaves, leafIndices[hash], r.value)
        && Refold(sha, hash, r.value.elements) == Root(sha, leaves)
        && AtHeight(|r.value.elements|, |leaves|)
    {
      if hash !in leafIndices {
        return Err(HashNotFound);
      }
      var index := leafIndices[hash];
      var elements := WalkUp(index);
      GeneratedProof(sha, leaves, index);
      return Ok(Proof(hash, elements));
    }

    method VerifyProof(proof: Proof) returns (r: Result<bool, MerkleError>)
      requires Valid()
      ensures r == if leaves == [] then Err(EmptyTree)
                   else Ok(Refold(sha, proof.leafHash, proof.elements) == Root(sha, leaves))
    {
      var rootHash := GetRoot();
      if rootHash.Err? {
        return Err(EmptyTree);
      }
      var ok := Verify(sha, proof, rootHash.value);
      return Ok(ok);
    }
  }
}
