/** Shape of a flat data-node list: pre-order, every node after its parent,
    one level below it. Both extractors' node lists are built from a node
    followed by the lists of its children; the lemmas here compose that. */
module DataNodes {
  import opened Wrappers
  import opened Model

  /** Node `p` is the parent of node `k`: it comes earlier, its path is `k`'s
      parent path, it is one level up, and every node between the two lies at
      `k`'s level or deeper (so `p` is the nearest enclosing node). */
  ghost predicate ParentOf(ns: seq<DataNode>, p: int, k: int) {
    && 0 <= p < k < |ns|
    && ns[k].parentPath == Some(ns[p].path)
    && ns[k].depth == ns[p].depth + 1
    && forall q :: p < q < k ==> ns[q].depth >= ns[k].depth
  }

  ghost predicate HasParent(ns: seq<DataNode>, k: int) {
    exists p :: ParentOf(ns, p, k)
  }

  ghost predicate AtLeastDepth(ns: seq<DataNode>, d: nat) {
    forall k :: 0 <= k < |ns| ==> ns[k].depth >= d
  }

  /** The node list of one value in pre-order: the value's own node first at
      depth `d`, every other node deeper and placed after its parent. */
  ghost predicate PreOrderTree(ns: seq<DataNode>, d: nat) {
    && |ns| > 0
    && ns[0].depth == d
    && AtLeastDepth(ns, d)
    && forall k :: 0 < k < |ns| ==> HasParent(ns, k)
  }

  /** The concatenated node lists of the children of the node at `parent`:
      each node is either a child itself (depth `d`, parent path `parent`) or
      sits under an earlier node of the list. */
  ghost predicate Forest(ns: seq<DataNode>, parent: string, d: nat) {
    && AtLeastDepth(ns, d)
    && forall k :: 0 <= k < |ns| ==> Placed(ns, parent, d, k)
  }

  /** Node `k` of a forest is a child itself or sits under an earlier node. */
  ghost predicate Placed(ns: seq<DataNode>, parent: string, d: nat, k: int)
    requires 0 <= k < |ns|
  {
    (ns[k].depth == d && ns[k].parentPath == Some(parent)) || HasParent(ns, k)
  }

  /** `m` is the largest depth occurring in the list. */
  ghost predicate IsMaxDepth(ns: seq<DataNode>, m: nat) {
    && (forall k :: 0 <= k < |ns| ==> ns[k].depth <= m)
    && (exists k :: 0 <= k < |ns| && ns[k].depth == m)
  }

  /** `m` bounds every depth in the list. */
  ghost predicate DepthsAtMost(ns: seq<DataNode>, m: nat) {
    forall k :: 0 <= k < |ns| ==> ns[k].depth <= m
  }

  /** Parents found in a suffix of a list stay parents in the whole list. */
  lemma ParentShift(a: seq<DataNode>, b: seq<DataNode>, p: int, k: int)
    requires ParentOf(b, p, k)
    ensures ParentOf(a + b, p + |a|, k + |a|)
  {
    var ab := a + b;
    forall q | p + |a| < q < k + |a|
      ensures ab[q].depth >= ab[k + |a|].depth
    {
      assert ab[q] == b[q - |a|];
    }
  }

  /** Parents found in a prefix of a list stay parents in the whole list. */
  lemma ParentKeep(a: seq<DataNode>, b: seq<DataNode>, p: int, k: int)
    requires ParentOf(a, p, k)
    ensures ParentOf(a + b, p, k)
  {
    var ab := a + b;
    forall q | p < q < k
      ensures ab[q].depth >= ab[k].depth
    {
      assert ab[q] == a[q];
    }
  }

  lemma EmptyForest(parent: string, d: nat)
    ensures Forest([], parent, d)
  {}

  /** A child's own tree, seen from its parent, is a forest of one tree. */
  lemma {:induction false} TreeIsForest(t: seq<DataNode>, parent: string, d: nat)
    requires PreOrderTree(t, d) && t[0].parentPath == Some(parent)
    ensures Forest(t, parent, d)
  {
    forall k | 0 <= k < |t|
      ensures Placed(t, parent, d, k)
    {
      if k > 0 {
        assert HasParent(t, k);
      }
    }
  }

  /** Sibling lists concatenate into one forest. */
  lemma {:induction false} ForestAppend(a: seq<DataNode>, b: seq<DataNode>, parent: string, d: nat)
    requires Forest(a, parent, d) && Forest(b, parent, d)
    ensures Forest(a + b, parent, d)
  {
    var ab := a + b;
    forall k | 0 <= k < |ab|
      ensures Placed(ab, parent, d, k)
    {
      if k < |a| {
        assert ab[k] == a[k];
        assert Placed(a, parent, d, k);
        if HasParent(a, k) {
          var p :| ParentOf(a, p, k);
          ParentKeep(a, b, p, k);
        }
      } else {
        assert ab[k] == b[k - |a|];
        assert Placed(b, parent, d, k - |a|);
        if HasParent(b, k - |a|) {
          var p :| ParentOf(b, p, k - |a|);
          ParentShift(a, b, p, k - |a|);
        }
      }
    }
  }

  /** A node followed by the forest of its children is a pre-order tree. */
  lemma {:induction false} TreeOfRoot(root: DataNode, f: seq<DataNode>, d: nat)
    requires root.depth == d && Forest(f, root.path, d + 1)
    ensures PreOrderTree([root] + f, d)
  {
    var t := [root] + f;
    forall k | 0 < k < |t|
      ensures HasParent(t, k)
    {
      assert t[k] == f[k - 1];
      assert Placed(f, root.path, d + 1, k - 1);
      if t[k].depth == d + 1 && t[k].parentPath == Some(root.path) {
        forall q | 0 < q < k
          ensures t[q].depth >= t[k].depth
        {
          assert t[q] == f[q - 1];
        }
        assert ParentOf(t, 0, k);
      } else {
        assert HasParent(f, k - 1);
        var p :| ParentOf(f, p, k - 1);
        ParentShift([root], f, p, k - 1);
      }
    }
  }

  /** Leaf entries directly under `parent` (attribute and text nodes) form a forest. */
  lemma LeavesForest(ns: seq<DataNode>, parent: string, d: nat)
    requires forall k :: 0 <= k < |ns| ==> ns[k].depth == d && ns[k].parentPath == Some(parent)
    ensures Forest(ns, parent, d)
  {
    forall k | 0 <= k < |ns|
      ensures Placed(ns, parent, d, k)
    {
    }
  }

  lemma {:induction false} MaxDepthAppend(a: seq<DataNode>, b: seq<DataNode>, ma: nat, mb: nat)
    requires IsMaxDepth(a, ma) && IsMaxDepth(b, mb)
    ensures IsMaxDepth(a + b, if ma >= mb then ma else mb)
  {
    var ab := a + b;
    forall k | 0 <= k < |ab|
      ensures ab[k].depth <= if ma >= mb then ma else mb
    {
      if k < |a| { assert ab[k] == a[k]; } else { assert ab[k] == b[k - |a|]; }
    }
    if ma >= mb {
      var k :| 0 <= k < |a| && a[k].depth == ma;
      assert ab[k] == a[k];
    } else {
      var k :| 0 <= k < |b| && b[k].depth == mb;
      assert ab[k + |a|] == b[k];
    }
  }

  lemma {:induction false} DepthsAtMostAppend(a: seq<DataNode>, b: seq<DataNode>, m: nat)
    requires DepthsAtMost(a, m) && DepthsAtMost(b, m)
    ensures DepthsAtMost(a + b, m)
  {
    var ab := a + b;
    forall k | 0 <= k < |ab|
      ensures ab[k].depth <= m
    {
      if k < |a| { assert ab[k] == a[k]; } else { assert ab[k] == b[k - |a|]; }
    }
  }
}
