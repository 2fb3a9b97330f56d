/** The bottom-up construction of the audit crate's Merkle tree: neighbours are combined level
    by level, an odd last node with itself. `Source` names the leaf list this commits to. */
module MerkleLevels {
  import opened Prelude
  import opened Crypto
  import opened HashTree
  import opened MerkleProof

  /** Number of levels above the leaves. */
  function Height(n: nat): (h: nat)
    requires n >= 1
    ensures n <= Pow2(h)
    ensures n >= 2 ==> h >= 1 && Pow2(h - 1) < n
  {
    if n == 1 then 0 else 1 + Height((n + 1) / 2)
  }

  /** The node paired with node `i`; an odd last node is paired with itself. */
  function SiblingOf<T>(nodes: seq<T>, i: nat): (s: T)
    requires i < |nodes|
  {
    if Mate(i) < |nodes| then nodes[Mate(i)] else nodes[i]
  }

  /** One pass over `chunks(2)`. */
  function NextLevel<T>(f: (T, T) -> T, nodes: seq<T>): (next: seq<T>)
    ensures |next| == (|nodes| + 1) / 2
    ensures forall i :: 0 <= i < |next| ==> next[i] == f(nodes[2 * i], SiblingOf(nodes, 2 * i))
  {
    seq((|nodes| + 1) / 2, i requires 0 <= i < (|nodes| + 1) / 2 => f(nodes[2 * i], SiblingOf(nodes, 2 * i)))
  }

  function Climb<T>(f: (T, T) -> T, nodes: seq<T>): (root: T)
    requires nodes != []
    decreases |nodes|
  {
    if |nodes| == 1 then nodes[0] else Climb(f, NextLevel(f, nodes))
  }

  /** The steps recorded by `generate_proof`, from leaf `i` upwards. */
  function ClimbPath<T>(f: (T, T) -> T, nodes: seq<T>, i: nat): (path: seq<Step<T>>)
    requires i < |nodes|
    ensures |path| == Height(|nodes|)
    decreases |nodes|
  {
    if |nodes| == 1 then []
    else [Step(SiblingOf(nodes, i), i % 2 == 1)] + ClimbPath(f, NextLevel(f, nodes), i / 2)
  }

  // ---------- the tree that is built ----------

  function Join(): (f: (Tree, Tree) -> Tree) { (l, r) => Node(l, r) }

  function NodeHasher(sha: Sha256): (f: (Str, Str) -> Str) { (l, r) => HashNode(sha, l, r) }

  function LeafTrees(leaves: seq<Str>): (ts: seq<Tree>)
    ensures |ts| == |leaves| && forall i :: 0 <= i < |ts| ==> ts[i] == Leaf(leaves[i])
  {
    seq(|leaves|, i requires 0 <= i < |leaves| => Leaf(leaves[i]))
  }

  function BuiltTree(leaves: seq<Str>): (t: Tree)
    requires leaves != []
  {
    Climb(Join(), LeafTrees(leaves))
  }

  /** Which of `n` leaves stands at address `i` of the full bottom level: past the end a level
      repeats its last node, and a repeated node repeats all leaves below it. */
  function Source(n: nat, i: nat): (j: nat)
    requires n >= 1
    ensures j < n
    decreases n
  {
    if n == 1 then 0
    else
      var j := 2 * Source((n + 1) / 2, i / 2) + i % 2;
      if j < n then j else n - 1
  }

  lemma {:induction false} SourceOfLeaf(n: nat, i: nat)
    requires i < n
    ensures Source(n, i) == i
    decreases n
  {
    if n > 1 {
      SourceOfLeaf((n + 1) / 2, i / 2);
    }
  }

  /** The mate of a leaf is its sibling, or the leaf itself at an odd end. */
  lemma SourceOfMate(n: nat, i: nat)
    requires n >= 2 && i < n
    ensures Source(n, Mate(i)) == if Mate(i) < n then Mate(i) else i
  {
    if Mate(i) < n {
      SourceOfLeaf(n, Mate(i));
    } else {
      SourceOfLeaf((n + 1) / 2, n / 2);
    }
  }

  lemma {:induction false} SubClimb(ts: seq<Tree>, i: nat)
    requires ts != [] && i < Pow2(Height(|ts|))
    ensures Sub(Climb(Join(), ts), Height(|ts|), i) == ts[Source(|ts|, i)]
    decreases |ts|
  {
    if |ts| > 1 {
      var next := NextLevel(Join(), ts);
      SubClimb(next, i / 2);
      SubBelow(Climb(Join(), next), Height(|ts|), ts, i);
    }
  }

  /** One level down: the node above address `i` was made of two nodes of the level below. */
  lemma SubBelow(t: Tree, k: nat, ts: seq<Tree>, i: nat)
    requires |ts| > 1 && k >= 1 && Sub(t, k - 1, i / 2) == NextLevel(Join(), ts)[Source((|ts| + 1) / 2, i / 2)]
    ensures Sub(t, k, i) == ts[Source(|ts|, i)]
  {
    var j := Source((|ts| + 1) / 2, i / 2);
    assert NextLevel(Join(), ts)[j] == Node(ts[2 * j], SiblingOf(ts, 2 * j));
  }

  lemma {:induction false} ClimbFull(ts: seq<Tree>, d: nat)
    requires ts != [] && forall t :: t in ts ==> Full(t, d)
    ensures Full(Climb(Join(), ts), d + Height(|ts|))
    decreases |ts|
  {
    if |ts| > 1 {
      var next := NextLevel(Join(), ts);
      forall t | t in next
        ensures Full(t, d + 1)
      {
        var i :| 0 <= i < |next| && t == next[i];
        assert t == Node(ts[2 * i], SiblingOf(ts, 2 * i));
        assert ts[2 * i] in ts && SiblingOf(ts, 2 * i) in ts;
      }
      ClimbFull(next, d + 1);
    }
  }

  lemma MateBound(k: nat, i: nat)
    requires k >= 1 && i < Pow2(k)
    ensures Mate(i) < Pow2(k)
  {
    assert Pow2(k) == 2 * Pow2(k - 1);
  }

  lemma {:induction false} ClimbPathIsPathUp(ts: seq<Tree>, i: nat)
    requires i < |ts|
    ensures ClimbPath(Join(), ts, i) == PathUp(Climb(Join(), ts), Height(|ts|), i)
    decreases |ts|
  {
    if |ts| > 1 {
      ClimbPathIsPathUp(NextLevel(Join(), ts), i / 2);
      SiblingIsSub(ts, i);
      ClimbPathStep(ts, i, Climb(Join(), ts), Height(|ts|));
    }
  }

  lemma SiblingIsSub(ts: seq<Tree>, i: nat)
    requires |ts| > 1 && i < |ts|
    ensures Sub(Climb(Join(), ts), Height(|ts|), Mate(i)) == SiblingOf(ts, i)
  {
    SourceOfMate(|ts|, i);
    MateBound(Height(|ts|), i);
    SubClimb(ts, Mate(i));
  }

  lemma ClimbPathStep(ts: seq<Tree>, i: nat, t: Tree, k: nat)
    requires |ts| > 1 && i < |ts| && k >= 1 && Sub(t, k, Mate(i)) == SiblingOf(ts, i)
    requires ClimbPath(Join(), NextLevel(Join(), ts), i / 2) == PathUp(t, k - 1, i / 2)
    ensures ClimbPath(Join(), ts, i) == PathUp(t, k, i)
  {
  }

  // ---------- text levels are the texts of tree levels ----------

  function Texts(sha: Sha256, ts: seq<Tree>): (nodes: seq<Str>)
    ensures |nodes| == |ts| && forall i :: 0 <= i < |ts| ==> nodes[i] == TreeText(sha, ts[i])
  {
    seq(|ts|, i requires 0 <= i < |ts| => TreeText(sha, ts[i]))
  }

  lemma NextLevelTexts(sha: Sha256, ts: seq<Tree>)
    ensures NextLevel(NodeHasher(sha), Texts(sha, ts)) == Texts(sha, NextLevel(Join(), ts))
  {
    forall i | 0 <= i < (|ts| + 1) / 2
      ensures NextLevel(NodeHasher(sha), Texts(sha, ts))[i] == Texts(sha, NextLevel(Join(), ts))[i]
    {
      HashNodeOfTrees(sha, ts[2 * i], SiblingOf(ts, 2 * i));
    }
  }

  lemma {:induction false} ClimbTexts(sha: Sha256, ts: seq<Tree>)
    requires ts != []
    ensures Climb(NodeHasher(sha), Texts(sha, ts)) == TreeText(sha, Climb(Join(), ts))
    decreases |ts|
  {
    if |ts| > 1 {
      NextLevelTexts(sha, ts);
      ClimbTexts(sha, NextLevel(Join(), ts));
    }
  }

  function StepTexts(sha: Sha256, path: seq<Step<Tree>>): (texts: seq<Step<Str>>)
    ensures |texts| == |path|
    ensures forall j :: 0 <= j < |path| ==> texts[j] == Step(TreeText(sha, path[j].sibling), path[j].isLeft)
  {
    seq(|path|, j requires 0 <= j < |path| => Step(TreeText(sha, path[j].sibling), path[j].isLeft))
  }

  lemma {:induction false} ClimbPathTexts(sha: Sha256, ts: seq<Tree>, i: nat)
    requires i < |ts|
    ensures ClimbPath(NodeHasher(sha), Texts(sha, ts), i) == StepTexts(sha, ClimbPath(Join(), ts, i))
    decreases |ts|
  {
    if |ts| > 1 {
      NextLevelTexts(sha, ts);
      ClimbPathTexts(sha, NextLevel(Join(), ts), i / 2);
      SiblingText(sha, ts, i);
      StepTextsCons(sha, Step(SiblingOf(ts, i), i % 2 == 1), ClimbPath(Join(), NextLevel(Join(), ts), i / 2));
    }
  }

  lemma SiblingText(sha: Sha256, ts: seq<Tree>, i: nat)
    requires i < |ts|
    ensures SiblingOf(Texts(sha, ts), i) == TreeText(sha, SiblingOf(ts, i))
  {
  }

  lemma StepTextsCons(sha: Sha256, step: Step<Tree>, rest: seq<Step<Tree>>)
    ensures StepTexts(sha, [step] + rest) == [Step(TreeText(sha, step.sibling), step.isLeft)] + StepTexts(sha, rest)
  {
  }
}
