/** Merkle inclusion proofs: refolding a path, and what an accepted proof guarantees. */
module MerkleProof {
  import opened Prelude
  import opened Crypto
  import opened HashTree

  /** A sibling hash as text, and whether it stands on the left. */
  type ProofElement = Step<Str>

  datatype Proof = Proof(leafHash: Str, elements: seq<ProofElement>)

  function HashLeaf(sha: Sha256, value: Str): (s: Str) { HexEncode(sha(LeafInput(value))) }

  /** What `hash_node` feeds to the hash: the decoded digests, or the raw text of both when
      either is not hexadecimal. */
  function NodeTextInput(left: Str, right: Str): (x: Bytes) {
    match (HexDecode(left), HexDecode(right))
    case (Some(l), Some(r)) => NodeInput(l, r)
    case (_, _) => NodeInput(left, right)
  }

  function HashNode(sha: Sha256, left: Str, right: Str): (s: Str) { HexEncode(sha(NodeTextInput(left, right))) }

  /** The text under which the tree stores the digest of `t`. */
  function TreeText(sha: Sha256, t: Tree): (s: Str) { HexEncode(TreeHash(sha, t)) }

  lemma HashNodeOfTrees(sha: Sha256, l: Tree, r: Tree)
    ensures HashNode(sha, TreeText(sha, l), TreeText(sha, r)) == TreeText(sha, Node(l, r))
  {
    HexRoundTrip(TreeHash(sha, l));
    HexRoundTrip(TreeHash(sha, r));
    assert TopInput(sha, Node(l, r)) == NodeInput(TreeHash(sha, l), TreeHash(sha, r));
  }

  function ElementInput(e: ProofElement, current: Str): (x: Bytes) {
    if e.isLeft then NodeTextInput(e.sibling, current) else NodeTextInput(current, e.sibling)
  }

  /** The input whose digest ends the refolding of a path. */
  function LastInput(sha: Sha256, leaf: Str, elements: seq<ProofElement>): (x: Bytes)
    decreases |elements|, 0
  {
    if elements == [] then LeafInput(leaf)
    else
      var n := |elements| - 1;
      ElementInput(elements[n], Refold(sha, leaf, elements[..n]))
  }

  function Refold(sha: Sha256, leaf: Str, elements: seq<ProofElement>): (s: Str)
    decreases |elements|, 1
  {
    HexEncode(sha(LastInput(sha, leaf, elements)))
  }

  /** Everything hashed while refolding. */
  function ProofInputs(sha: Sha256, leaf: Str, elements: seq<ProofElement>): (xs: set<Bytes>)
    ensures LastInput(sha, leaf, elements) in xs
    decreases |elements|
  {
    if elements == [] then {LeafInput(leaf)}
    else ProofInputs(sha, leaf, elements[..|elements| - 1]) + {LastInput(sha, leaf, elements)}
  }

  /** `MerkleProof::verify`. */
  method Verify(sha: Sha256, proof: Proof, root: Str) returns (ok: bool)
    ensures ok <==> Refold(sha, proof.leafHash, proof.elements) == root
  {
    var current := HashLeaf(sha, proof.leafHash);
    var es := proof.elements;
    for i := 0 to |es|
      invariant current == Refold(sha, proof.leafHash, es[..i])
    {
      assert es[..i + 1][..i] == es[..i];
      current := if es[i].isLeft then HashNode(sha, es[i].sibling, current) else HashNode(sha, current, es[i].sibling);
    }
    assert es[..|es|] == es;
    return current == root;
  }

  // ---------- what an accepted proof means ----------

  /** `elements`, read from the top, walk down `t` to a leaf holding `leaf`, each carrying the
      digest of the sibling passed on the way in hexadecimal of either letter case. */
  predicate Attests(sha: Sha256, leaf: Str, elements: seq<ProofElement>, t: Tree) {
    match t
    case Leaf(v) => elements == [] && leaf == v
    case Node(l, r) =>
      && elements != []
      && var n := |elements| - 1;
         var e := elements[n];
         && HexDecode(e.sibling) == Some(TreeHash(sha, if e.isLeft then l else r))
         && Attests(sha, leaf, elements[..n], if e.isLeft then r else l)
  }

  /** A step that hashes to an honest node's input carries that node's two children: a sibling
      that is not hexadecimal, or is not 32 bytes long, gives an input of another length. */
  lemma ElementInputSplits(e: ProofElement, current: Digest, l: Digest, r: Digest)
    requires ElementInput(e, HexEncode(current)) == NodeInput(l, r)
    ensures HexDecode(e.sibling) == Some(if e.isLeft then l else r)
    ensures current == if e.isLeft then r else l
  {
    HexRoundTrip(current);
    match HexDecode(e.sibling)
    case Some(s) =>
      if e.isLeft {
        assert |NodeInput(s, current)| == 1 + |s| + 32;
        NodeInputInjective(s, current, l, r);
      } else {
        NodeInputInjective(current, s, l, r);
      }
    case None =>
      assert false;
  }

  /** Soundness for every tree and every path: arbitrary sibling text, paths that are too short
      or too long, and repeated nodes included. */
  lemma {:induction false} PathSound(sha: Sha256, leaf: Str, elements: seq<ProofElement>, t: Tree)
    requires Refold(sha, leaf, elements) == TreeText(sha, t)
    ensures Attests(sha, leaf, elements, t)
         || Collision(sha, ProofInputs(sha, leaf, elements), TreeInputs(sha, t))
    decreases |elements|
  {
    var x, y := LastInput(sha, leaf, elements), TopInput(sha, t);
    HexInjective(sha(x), sha(y));
    if x == y {
      assert y[0] == if t.Leaf? then LEAF_PREFIX else NODE_PREFIX;
      assert x[0] == if elements == [] then LEAF_PREFIX else NODE_PREFIX;
      if elements == [] {
        assert leaf == x[1..] && t.value == y[1..];
      } else {
        var n := |elements| - 1;
        var e, front := elements[n], elements[..n];
        assert x == ElementInput(e, Refold(sha, leaf, front)) && y == NodeInput(TreeHash(sha, t.left), TreeHash(sha, t.right));
        ElementInputSplits(e, sha(LastInput(sha, leaf, front)), TreeHash(sha, t.left), TreeHash(sha, t.right));
        var below := if e.isLeft then t.right else t.left;
        PathSound(sha, leaf, front, below);
        if !Attests(sha, leaf, front, below) {
          CollisionMonotone(sha, ProofInputs(sha, leaf, front), TreeInputs(sha, below),
                            ProofInputs(sha, leaf, elements), TreeInputs(sha, t));
        }
      }
    }
  }

  /** `elements` carry the steps of `path` in hexadecimal of either letter case. */
  ghost predicate Carries(sha: Sha256, elements: seq<ProofElement>, path: seq<Step<Tree>>) {
    && |elements| == |path|
    && forall j :: 0 <= j < |path| ==>
         elements[j].isLeft == path[j].isLeft && HexDecode(elements[j].sibling) == Some(TreeHash(sha, path[j].sibling))
  }

  lemma CarriesAppend(sha: Sha256, elements: seq<ProofElement>, path: seq<Step<Tree>>, e: ProofElement, s: Step<Tree>)
    requires Carries(sha, elements, path)
    requires e.isLeft == s.isLeft && HexDecode(e.sibling) == Some(TreeHash(sha, s.sibling))
    ensures Carries(sha, elements + [e], path + [s])
  {
  }

  /** The last step of a path down a full tree: the half it leads to and the half it passes. */
  lemma LastStep(t: Tree, k: nat, right: bool, j: nat)
    requires k >= 1 && Full(t, k) && j < Pow2(k - 1)
    ensures var i := if right then Pow2(k - 1) + j else j;
            && i < Pow2(k) && Sub(t, k, i) == Sub(if right then t.right else t.left, k - 1, j)
            && PathUp(t, k, i) == PathUp(if right then t.right else t.left, k - 1, j)
                                  + [if right then Step(t.left, true) else Step(t.right, false)]
  {
    var i := if right then Pow2(k - 1) + j else j;
    SubTop(t, k, i);
    PathTop(t, k, i);
  }

  /** In a full tree of height `k` an attesting proof is the path of exactly one leaf. */
  lemma {:induction false} AttestsFull(sha: Sha256, leaf: Str, elements: seq<ProofElement>, t: Tree, k: nat) returns (i: nat)
    requires Full(t, k) && Attests(sha, leaf, elements, t)
    ensures i < Pow2(k) && Sub(t, k, i) == Leaf(leaf) && Carries(sha, elements, PathUp(t, k, i))
    decreases k
  {
    if k == 0 {
      i := 0;
    } else {
      var n := |elements| - 1;
      var e, front := elements[n], elements[..n];
      var below := if e.isLeft then t.right else t.left;
      var j := AttestsFull(sha, leaf, front, below, k - 1);
      i := if e.isLeft then Pow2(k - 1) + j else j;
      LastStep(t, k, e.isLeft, j);
      CarriesAppend(sha, front, PathUp(below, k - 1, j), e, if e.isLeft then Step(t.left, true) else Step(t.right, false));
      assert elements == front + [e];
    }
  }

  lemma CarriesSplit(sha: Sha256, elements: seq<ProofElement>, path: seq<Step<Tree>>, s: Step<Tree>)
    requires Carries(sha, elements, path + [s])
    ensures |elements| == |path| + 1 && Carries(sha, elements[..|path|], path)
    ensures var e := elements[|path|]; e.isLeft == s.isLeft && HexDecode(e.sibling) == Some(TreeHash(sha, s.sibling))
  {
    assert (path + [s])[|path|] == s;
    assert forall j :: 0 <= j < |path| ==> (path + [s])[j] == path[j];
  }

  /** The converse: the path of a leaf attests that leaf. */
  lemma {:induction false} CarriesAttests(sha: Sha256, leaf: Str, elements: seq<ProofElement>, t: Tree, k: nat, i: nat)
    requires Full(t, k) && i < Pow2(k) && Sub(t, k, i) == Leaf(leaf) && Carries(sha, elements, PathUp(t, k, i))
    ensures Attests(sha, leaf, elements, t)
    decreases k
  {
    if k > 0 {
      var right := i >= Pow2(k - 1);
      var j := if right then i - Pow2(k - 1) else i;
      CarriesBelow(sha, leaf, elements, t, k, right, j);
      CarriesAttests(sha, leaf, elements[..k - 1], if right then t.right else t.left, k - 1, j);
      AttestsNode(sha, leaf, elements, t, right);
    }
  }

  /** The path of a leaf is the path below the top and one element for the half it passes. */
  lemma CarriesBelow(sha: Sha256, leaf: Str, elements: seq<ProofElement>, t: Tree, k: nat, right: bool, j: nat)
    requires k >= 1 && Full(t, k) && j < Pow2(k - 1)
    requires var i := if right then Pow2(k - 1) + j else j;
             Sub(t, k, i) == Leaf(leaf) && Carries(sha, elements, PathUp(t, k, i))
    ensures |elements| == k && elements[k - 1].isLeft == right
    ensures HexDecode(elements[k - 1].sibling) == Some(TreeHash(sha, if right then t.left else t.right))
    ensures var below := if right then t.right else t.left;
            Sub(below, k - 1, j) == Leaf(leaf) && Carries(sha, elements[..k - 1], PathUp(below, k - 1, j))
  {
    LastStep(t, k, right, j);
    CarriesSplit(sha, elements, PathUp(if right then t.right else t.left, k - 1, j),
                 if right then Step(t.left, true) else Step(t.right, false));
  }

  lemma AttestsNode(sha: Sha256, leaf: Str, elements: seq<ProofElement>, t: Tree, right: bool)
    requires t.Node? && elements != [] && elements[|elements| - 1].isLeft == right
    requires HexDecode(elements[|elements| - 1].sibling) == Some(TreeHash(sha, if right then t.left else t.right))
    requires Attests(sha, leaf, elements[..|elements| - 1], if right then t.right else t.left)
    ensures Attests(sha, leaf, elements, t)
  {
  }

  /** An attesting proof is accepted: with `PathSound`, acceptance means attestation up to
      collisions. */
  lemma {:induction false} PathComplete(sha: Sha256, leaf: Str, elements: seq<ProofElement>, t: Tree)
    requires Attests(sha, leaf, elements, t)
    ensures Refold(sha, leaf, elements) == TreeText(sha, t)
    decreases t
  {
    if t.Node? {
      var n := |elements| - 1;
      var e, front := elements[n], elements[..n];
      PathComplete(sha, leaf, front, if e.isLeft then t.right else t.left);
      HexRoundTrip(TreeHash(sha, t.left));
      HexRoundTrip(TreeHash(sha, t.right));
      assert LastInput(sha, leaf, elements) == ElementInput(e, Refold(sha, leaf, front));
      assert TopInput(sha, t) == NodeInput(TreeHash(sha, t.left), TreeHash(sha, t.right));
    } else {
      assert TopInput(sha, t) == LeafInput(leaf);
    }
  }
}
