/** Hash trees as values: the digest of a tree, the inputs hashed on the way, subtrees by
    address, and the fact that a digest binds its whole tree. */
module HashTree {
  import opened Prelude
  import opened Crypto

  const LEAF_PREFIX: byte := 0
  const NODE_PREFIX: byte := 1

  datatype Tree = Leaf(value: Bytes) | Node(left: Tree, right: Tree)

  function LeafInput(d: Bytes): (x: Bytes) { [LEAF_PREFIX] + d }

  function NodeInput(l: Bytes, r: Bytes): (x: Bytes) { [NODE_PREFIX] + l + r }

  /** The input whose digest is the digest of the tree. */
  function TopInput(sha: Sha256, t: Tree): (x: Bytes)
    decreases t, 0
  {
    match t
    case Leaf(v) => LeafInput(v)
    case Node(l, r) => NodeInput(TreeHash(sha, l), TreeHash(sha, r))
  }

  function TreeHash(sha: Sha256, t: Tree): (d: Digest)
    decreases t, 1
  {
    sha(TopInput(sha, t))
  }

  /** Everything hashed while computing the digest of a tree. */
  function TreeInputs(sha: Sha256, t: Tree): (xs: set<Bytes>)
    ensures TopInput(sha, t) in xs
  {
    {TopInput(sha, t)} + (if t.Leaf? then {} else TreeInputs(sha, t.left) + TreeInputs(sha, t.right))
  }

  lemma NodeInputInjective(l: Bytes, r: Bytes, l': Bytes, r': Bytes)
    requires |l| == |l'| && NodeInput(l, r) == NodeInput(l', r')
    ensures l == l' && r == r'
  {
    var x, x' := NodeInput(l, r), NodeInput(l', r');
    assert l == x[1..1 + |l|] && l' == x'[1..1 + |l|];
    assert r == x[1 + |l|..] && r' == x'[1 + |l|..];
  }

  lemma TopInputInjective(sha: Sha256, t: Tree, u: Tree)
    requires TopInput(sha, t) == TopInput(sha, u)
    ensures t.Leaf? <==> u.Leaf?
    ensures t.Leaf? ==> t == u
    ensures t.Node? ==> TreeHash(sha, t.left) == TreeHash(sha, u.left) && TreeHash(sha, t.right) == TreeHash(sha, u.right)
  {
    var x, y := TopInput(sha, t), TopInput(sha, u);
    assert x[0] == if t.Leaf? then LEAF_PREFIX else NODE_PREFIX;
    assert y[0] == if u.Leaf? then LEAF_PREFIX else NODE_PREFIX;
    if t.Leaf? {
      assert t.value == x[1..] && u.value == y[1..];
    } else {
      NodeInputInjective(TreeHash(sha, t.left), TreeHash(sha, t.right), TreeHash(sha, u.left), TreeHash(sha, u.right));
    }
  }

  /** A digest binds the whole tree, shape included: equal digests come from equal trees unless
      the two computations hashed a colliding pair. */
  lemma {:induction false} TreeBinding(sha: Sha256, t: Tree, u: Tree)
    requires TreeHash(sha, t) == TreeHash(sha, u)
    ensures t == u || Collision(sha, TreeInputs(sha, t), TreeInputs(sha, u))
  {
    if TopInput(sha, t) == TopInput(sha, u) {
      TopInputInjective(sha, t, u);
      if t.Node? {
        TreeBinding(sha, t.left, u.left);
        TreeBinding(sha, t.right, u.right);
        if t.left != u.left {
          CollisionMonotone(sha, TreeInputs(sha, t.left), TreeInputs(sha, u.left), TreeInputs(sha, t), TreeInputs(sha, u));
        } else if t.right != u.right {
          CollisionMonotone(sha, TreeInputs(sha, t.right), TreeInputs(sha, u.right), TreeInputs(sha, t), TreeInputs(sha, u));
        }
      }
    }
  }

  // ---------- full trees and addresses ----------

  /** All leaves lie at depth `k`. */
  predicate Full(t: Tree, k: nat) {
    if k == 0 then t.Leaf? else t.Node? && Full(t.left, k - 1) && Full(t.right, k - 1)
  }

  function Child(t: Tree, right: bool): (c: Tree) {
    if t.Leaf? then t else if right then t.right else t.left
  }

  /** The subtree at depth `k` whose index from the left is `i`. */
  function Sub(t: Tree, k: nat, i: nat): (s: Tree) {
    if k == 0 then t else Child(Sub(t, k - 1, i / 2), i % 2 == 1)
  }

  function Mate(i: nat): (j: nat) {
    if i % 2 == 1 then i - 1 else i + 1
  }

  /** One step of a path: the sibling, and whether it stands on the left. */
  datatype Step<+T> = Step(sibling: T, isLeft: bool)

  /** The steps from address `i` at depth `k` up to the root. */
  function PathUp(t: Tree, k: nat, i: nat): (path: seq<Step<Tree>>)
    ensures |path| == k
  {
    if k == 0 then [] else [Step(Sub(t, k, Mate(i)), i % 2 == 1)] + PathUp(t, k - 1, i / 2)
  }

  /** Binary digit `j` of `i`. */
  predicate Bit(i: nat, j: nat) {
    if j == 0 then i % 2 == 1 else Bit(i / 2, j - 1)
  }

  /** The marks of a path are the binary digits of its address. */
  lemma {:induction false} PathMarks(t: Tree, k: nat, i: nat, j: nat)
    requires j < k
    ensures PathUp(t, k, i)[j].isLeft <==> Bit(i, j)
  {
    if j > 0 {
      PathMarks(t, k - 1, i / 2, j - 1);
      assert PathUp(t, k, i)[j] == PathUp(t, k - 1, i / 2)[j - 1];
    }
  }

  /** Addresses read from the top. */
  lemma {:induction false} SubTop(t: Tree, k: nat, i: nat)
    requires k >= 1 && i < Pow2(k) && t.Node?
    ensures Sub(t, k, i) == if i < Pow2(k - 1) then Sub(t.left, k - 1, i) else Sub(t.right, k - 1, i - Pow2(k - 1))
  {
    if k == 1 {
      assert Sub(t, 0, i / 2) == t;
    } else {
      SubTop(t, k - 1, i / 2);
    }
  }

  lemma {:induction false} PathTop(t: Tree, k: nat, i: nat)
    requires k >= 1 && i < Pow2(k) && t.Node?
    ensures PathUp(t, k, i)
         == if i < Pow2(k - 1) then PathUp(t.left, k - 1, i) + [Step(t.right, false)]
            else PathUp(t.right, k - 1, i - Pow2(k - 1)) + [Step(t.left, true)]
  {
    if k == 1 {
      PathTopOne(t, i);
    } else {
      PathTop(t, k - 1, i / 2);
      SubTop(t, k, Mate(i));
      if i < Pow2(k - 1) {
        PathTopStep(t, k, i, t.left, i, Step(t.right, false));
      } else {
        var j := i - Pow2(k - 1);
        assert j / 2 == i / 2 - Pow2(k - 2) && j % 2 == i % 2;
        PathTopStep(t, k, i, t.right, j, Step(t.left, true));
      }
    }
  }

  lemma PathTopOne(t: Tree, i: nat)
    requires t.Node? && i < 2
    ensures PathUp(t, 1, i) == [if i == 0 then Step(t.right, false) else Step(t.left, true)]
  {
    assert Sub(t, 0, Mate(i) / 2) == t && PathUp(t, 0, i / 2) == [];
  }

  lemma PathTopStep(t: Tree, k: nat, i: nat, side: Tree, j: nat, top: Step<Tree>)
    requires k >= 2 && j % 2 == i % 2 && Sub(side, k - 1, Mate(j)) == Sub(t, k, Mate(i))
    requires PathUp(t, k - 1, i / 2) == PathUp(side, k - 2, j / 2) + [top]
    ensures PathUp(t, k, i) == PathUp(side, k - 1, j) + [top]
  {
    var first, rest := [Step(Sub(t, k, Mate(i)), i % 2 == 1)], PathUp(side, k - 2, j / 2);
    assert first + (rest + [top]) == (first + rest) + [top];
  }

  /** A full tree is determined by its leaves. */
  lemma {:induction false} FullTreeByLeaves(t: Tree, u: Tree, k: nat)
    requires Full(t, k) && Full(u, k)
    requires forall i :: 0 <= i < Pow2(k) ==> Sub(t, k, i) == Sub(u, k, i)
    ensures t == u
  {
    if k == 0 {
      assert Sub(t, 0, 0) == Sub(u, 0, 0);
    } else {
      var m, p := k - 1, Pow2(k - 1);
      var (tl, tr, ul, ur) := (t.left, t.right, u.left, u.right);
      forall i | 0 <= i < p
        ensures Sub(tl, m, i) == Sub(ul, m, i)
        ensures Sub(tr, m, i) == Sub(ur, m, i)
      {
        SubTop(t, k, i);
        SubTop(u, k, i);
        SubTop(t, k, p + i);
        SubTop(u, k, p + i);
      }
      FullTreeByLeaves(tl, ul, m);
      FullTreeByLeaves(tr, ur, m);
    }
  }
}
