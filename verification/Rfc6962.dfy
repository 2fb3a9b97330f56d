/** The Merkle Tree Hash and audit paths of sections 2.1 and 2.1.1 of RFC 6962, written top-down
    as the standard does, as an independent reference for the bottom-up construction. */
module Rfc6962 {
  import opened Prelude
  import opened Crypto
  import opened HashTree
  import opened MerkleLevels

  /** The largest power of two smaller than `n`. */
  function Split(n: nat): (k: nat)
    requires n >= 2
    ensures 1 <= k < n <= 2 * k
  {
    Pow2(Height(n) - 1)
  }

  function Mth(sha: Sha256, D: seq<Bytes>): (d: Digest)
    requires D != []
    decreases |D|
  {
    if |D| == 1 then sha([0] + D[0])
    else
      var k := Split(|D|);
      sha([1] + Mth(sha, D[..k]) + Mth(sha, D[k..]))
  }

  /** Audit path of leaf `m`, from the leaf upwards. */
  function Path(sha: Sha256, m: nat, D: seq<Bytes>): (p: seq<Digest>)
    requires m < |D|
    decreases |D|
  {
    if |D| == 1 then []
    else
      var k := Split(|D|);
      if m < k then Path(sha, m, D[..k]) + [Mth(sha, D[k..])]
      else Path(sha, m - k, D[k..]) + [Mth(sha, D[..k])]
  }

  // ---------- the standard's tree as a value ----------

  function RfcTree(D: seq<Bytes>): (t: Tree)
    requires D != []
    decreases |D|
  {
    if |D| == 1 then Leaf(D[0]) else Node(RfcTree(D[..Split(|D|)]), RfcTree(D[Split(|D|)..]))
  }

  function Leaves(t: Tree): (D: seq<Bytes>) {
    match t
    case Leaf(v) => [v]
    case Node(l, r) => Leaves(l) + Leaves(r)
  }

  lemma {:induction false} LeavesOfRfcTree(D: seq<Bytes>)
    requires D != []
    ensures Leaves(RfcTree(D)) == D
    decreases |D|
  {
    if |D| > 1 {
      var k := Split(|D|);
      LeavesOfRfcTree(D[..k]);
      LeavesOfRfcTree(D[k..]);
      LeavesOfHalves(D, k);
    }
  }

  lemma LeavesOfHalves(D: seq<Bytes>, k: nat)
    requires |D| > 1 && k == Split(|D|)
    requires Leaves(RfcTree(D[..k])) == D[..k] && Leaves(RfcTree(D[k..])) == D[k..]
    ensures Leaves(RfcTree(D)) == D
  {
    assert Leaves(RfcTree(D)) == D[..k] + D[k..];
  }

  lemma {:induction false} MthIsTreeHash(sha: Sha256, D: seq<Bytes>)
    requires D != []
    ensures Mth(sha, D) == TreeHash(sha, RfcTree(D))
    decreases |D|
  {
    if |D| > 1 {
      var k := Split(|D|);
      MthIsTreeHash(sha, D[..k]);
      MthIsTreeHash(sha, D[k..]);
      assert RfcTree(D) == Node(RfcTree(D[..k]), RfcTree(D[k..]));
    }
  }

  lemma {:induction false} HeightOfPow2(k: nat)
    ensures Height(Pow2(k)) == k
  {
    if k > 0 {
      HeightOfPow2(k - 1);
      assert (Pow2(k) + 1) / 2 == Pow2(k - 1);
    }
  }

  lemma {:induction false} RfcTreeFull(k: nat, D: seq<Bytes>)
    requires |D| == Pow2(k)
    ensures Full(RfcTree(D), k)
  {
    if k > 0 {
      HeightOfPow2(k);
      RfcTreeFull(k - 1, D[..Pow2(k - 1)]);
      RfcTreeFull(k - 1, D[Pow2(k - 1)..]);
    }
  }

  lemma {:induction false} LeavesOfFull(t: Tree, k: nat)
    requires Full(t, k)
    ensures |Leaves(t)| == Pow2(k)
    ensures forall i :: 0 <= i < Pow2(k) ==> Sub(t, k, i) == Leaf(Leaves(t)[i])
  {
    if k > 0 {
      LeavesOfFull(t.left, k - 1);
      LeavesOfFull(t.right, k - 1);
      forall i | 0 <= i < Pow2(k)
        ensures Sub(t, k, i) == Leaf(Leaves(t)[i])
      {
        SubTop(t, k, i);
      }
    }
  }

  /** Audit paths read off the tree. */
  function TreePath(sha: Sha256, m: nat, t: Tree): (p: seq<Digest>) {
    if t.Leaf? then []
    else
      var n := |Leaves(t.left)|;
      if m < n then TreePath(sha, m, t.left) + [TreeHash(sha, t.right)]
      else TreePath(sha, m - n, t.right) + [TreeHash(sha, t.left)]
  }

  lemma {:induction false} PathIsTreePath(sha: Sha256, m: nat, D: seq<Bytes>)
    requires m < |D|
    ensures Path(sha, m, D) == TreePath(sha, m, RfcTree(D))
    decreases |D|
  {
    if |D| > 1 {
      var k := Split(|D|);
      var l, r := D[..k], D[k..];
      if m < k {
        PathIsTreePath(sha, m, l);
      } else {
        PathIsTreePath(sha, m - k, r);
      }
      MthIsTreeHash(sha, l);
      MthIsTreeHash(sha, r);
      LeavesOfRfcTree(l);
      assert RfcTree(D) == Node(RfcTree(l), RfcTree(r));
    }
  }

  /** In a full tree the audit path lists the digests of the siblings passed on the way up. */
  lemma {:induction false} TreePathIsPathUp(sha: Sha256, k: nat, t: Tree, m: nat)
    requires Full(t, k) && m < Pow2(k)
    ensures TreePath(sha, m, t) == Siblings(sha, PathUp(t, k, m))
    decreases k
  {
    if k > 0 {
      var p := Pow2(k - 1);
      LeavesOfFull(t.left, k - 1);
      PathTop(t, k, m);
      if m < p {
        TreePathIsPathUp(sha, k - 1, t.left, m);
        SiblingsAppend(sha, PathUp(t.left, k - 1, m), Step(t.right, false));
      } else {
        TreePathIsPathUp(sha, k - 1, t.right, m - p);
        SiblingsAppend(sha, PathUp(t.right, k - 1, m - p), Step(t.left, true));
      }
    }
  }

  function Siblings(sha: Sha256, path: seq<Step<Tree>>): (ds: seq<Digest>)
    ensures |ds| == |path| && forall j :: 0 <= j < |path| ==> ds[j] == TreeHash(sha, path[j].sibling)
  {
    seq(|path|, j requires 0 <= j < |path| => TreeHash(sha, path[j].sibling))
  }

  lemma SiblingsAppend(sha: Sha256, path: seq<Step<Tree>>, step: Step<Tree>)
    ensures Siblings(sha, path + [step]) == Siblings(sha, path) + [TreeHash(sha, step.sibling)]
  {
  }
}
