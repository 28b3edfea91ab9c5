/** Pruning of empty directories below the server's root. */
module Cleanup {
  /** Everything that is not a directory counts as a file; there are no links. */
  datatype Kind = Directory | File

  type Path = seq<string>

  type Nodes = map<Path, Kind>

  /** Every node but the top lies in a directory. */
  ghost predicate IsTree(nodes: Nodes) {
    forall p | p in nodes && p != [] :: Parent(p) in nodes && nodes[Parent(p)].Directory?
  }

  function Parent(p: Path): Path
    requires p != []
  {
    p[..|p| - 1]
  }

  /** A directory with no file anywhere beneath it. */
  ghost predicate Barren(nodes: Nodes, p: Path) {
    && p in nodes && nodes[p].Directory?
    && forall q | q in nodes && p < q :: nodes[q].Directory?
  }

  ghost function Pruned(nodes: Nodes, root: Path): Nodes {
    map p | p in nodes && !(root < p && Barren(nodes, p)) :: nodes[p]
  }

  // ---------- what pruning does ----------

  /** Every file is kept; a directory below the root is kept exactly when a file lies somewhere beneath it. */
  lemma PrunesExactly(nodes: Nodes, root: Path, p: Path)
    requires p in nodes
    ensures p in Pruned(nodes, root) <==>
      !(root < p) || nodes[p].File? || exists q :: q in nodes && p < q && nodes[q].File?
    ensures p in Pruned(nodes, root) ==> Pruned(nodes, root)[p] == nodes[p]
  {}

  lemma PrunedTwice(nodes: Nodes, root: Path)
    ensures Pruned(Pruned(nodes, root), root) == Pruned(nodes, root)
  {
    var pruned := Pruned(nodes, root);
    forall p | p in pruned && root < p
      ensures !Barren(pruned, p)
    {
      if nodes[p].Directory? {
        var q :| q in nodes && p < q && nodes[q].File?;
        assert q in pruned;
      }
    }
  }

  lemma PrunedIsTree(nodes: Nodes, root: Path)
    requires IsTree(nodes)
    ensures IsTree(Pruned(nodes, root))
  {
    var pruned := Pruned(nodes, root);
    forall p | p in pruned && p != []
      ensures Parent(p) in pruned && pruned[Parent(p)].Directory?
    {
      if root < Parent(p) {
        assert Parent(p) < p;
        if nodes[p].Directory? {
          assert root < p && !Barren(nodes, p);
          var q :| q in nodes && p < q && nodes[q].File?;
          assert Parent(p) < q;
        }
        assert !Barren(nodes, Parent(p));
      }
    }
  }

  // ---------- trees ----------

  /** Every prefix of a node that extends a node is a node; the proper ones are directories. */
  lemma {:induction false} Ancestors(nodes: Nodes, a: Path, p: Path, n: nat)
    requires IsTree(nodes) && p in nodes && a <= p && |a| <= n <= |p|
    ensures p[..n] in nodes && (n < |p| ==> nodes[p[..n]].Directory?)
    decreases |p| - n
  {
    if n < |p| {
      Ancestors(nodes, a, p, n + 1);
      assert Parent(p[..n + 1]) == p[..n];
    } else {
      assert p[..n] == p;
    }
  }

  function Children(nodes: Nodes, root: Path): set<Path> {
    set p | p in nodes && |p| == |root| + 1 && root < p
  }

  /** In a tree, a directory with a descendant has a child. */
  lemma HasChild(nodes: Nodes, p: Path, q: Path)
    requires IsTree(nodes) && q in nodes && p < q
    ensures q[..|p| + 1] in Children(nodes, p)
  {
    Ancestors(nodes, p, q, |p| + 1);
    assert p == q[..|p|];
    assert q[..|p| + 1][..|p|] == p;
  }

  /** What lies below `root` through one of the children in `done` has been pruned. */
  ghost function PrunedBelow(nodes: Nodes, root: Path, done: set<Path>): Nodes {
    map p | p in nodes && !(root < p && p[..|root| + 1] in done && Barren(nodes, p)) :: nodes[p]
  }

  /** Below a child that is not done yet nothing has changed. */
  lemma SameBelow(nodes: Nodes, root: Path, done: set<Path>, child: Path, p: Path)
    requires child in Children(nodes, root) && child !in done && child <= p
    ensures p in PrunedBelow(nodes, root, done) <==> p in nodes
    ensures Barren(PrunedBelow(nodes, root, done), p) <==> Barren(nodes, p)
  {
    var current := PrunedBelow(nodes, root, done);
    forall q | child <= q
      ensures q[..|root| + 1] == child
      ensures q in current <==> q in nodes
    {}
    forall q | q in nodes && p < q
      ensures q in current
    {
      assert child <= q;
    }
  }

  /** Cleaning up one child directory, and removing it if it is then empty, gets it done. */
  lemma ChildDone(nodes: Nodes, root: Path, done: set<Path>, child: Path)
    requires IsTree(nodes) && child in Children(nodes, root) && child !in done
    ensures var current := PrunedBelow(nodes, root, done);
      var cleaned := if nodes[child].Directory? then Pruned(current, child) else current;
      PrunedBelow(nodes, root, done + {child})
        == if nodes[child].Directory? && Children(cleaned, child) == {} then cleaned - {child} else cleaned
  {
    hide Barren, PrunedBelow, Pruned, IsTree;
    ChildDoneMap(nodes, root, done, child);
    if nodes[child].Directory? {
      EmptyIffBarren(nodes, PrunedBelow(nodes, root, done), child, root, done);
    } else {
      FilesAreKept(nodes, child);
    }
  }

  lemma ChildDoneMap(nodes: Nodes, root: Path, done: set<Path>, child: Path)
    requires IsTree(nodes) && child in Children(nodes, root) && child !in done
    ensures var current := PrunedBelow(nodes, root, done);
      var cleaned := if nodes[child].Directory? then Pruned(current, child) else current;
      PrunedBelow(nodes, root, done + {child}) == if Barren(nodes, child) then cleaned - {child} else cleaned
  {
    assert child in nodes;
    hide Barren, PrunedBelow, Pruned, Children, IsTree;
    var current := PrunedBelow(nodes, root, done);
    var cleaned := if nodes[child].Directory? then Pruned(current, child) else current;
    var next := PrunedBelow(nodes, root, done + {child});
    forall p
      ensures p in next <==> p in cleaned && !(p == child && Barren(nodes, child))
      ensures p in next ==> next[p] == cleaned[p]
    {
      ChildDoneAt(nodes, root, done, child, p);
    }
    SameButFor(next, cleaned, child, Barren(nodes, child));
  }

  lemma FilesAreKept(nodes: Nodes, p: Path)
    requires p in nodes && nodes[p].File?
    ensures !Barren(nodes, p)
  {}

  lemma SameButFor(a: Nodes, b: Nodes, p: Path, gone: bool)
    requires forall q :: q in a <==> q in b && !(q == p && gone)
    requires forall q | q in a :: a[q] == b[q]
    ensures a == if gone then b - {p} else b
  {}

  lemma ChildDoneAt(nodes: Nodes, root: Path, done: set<Path>, child: Path, p: Path)
    requires IsTree(nodes) && child in Children(nodes, root) && child !in done
    ensures var current := PrunedBelow(nodes, root, done);
      var cleaned := if nodes[child].Directory? then Pruned(current, child) else current;
      var next := PrunedBelow(nodes, root, done + {child});
      && (p in next <==> p in cleaned && !(p == child && Barren(nodes, child)))
      && (p in next ==> next[p] == cleaned[p])
  {
    hide Barren;
    if child <= p {
      assert root < p && p[..|root| + 1] == child;
      SameBelow(nodes, root, done, child, p);
      if p in nodes && p != child {
        Ancestors(nodes, child, p, |child|);
        assert p[..|child|] == child;
      }
    }
  }

  lemma EmptyIffBarren(nodes: Nodes, current: Nodes, child: Path, root: Path, done: set<Path>)
    requires IsTree(nodes) && child in Children(nodes, root) && child !in done && nodes[child].Directory?
    requires current == PrunedBelow(nodes, root, done)
    ensures Children(Pruned(current, child), child) == {} <==> Barren(nodes, child)
  {
    var cleaned := Pruned(current, child);
    SameBelow(nodes, root, done, child, child);
    if Barren(nodes, child) {
      forall p | p in Children(cleaned, child)
        ensures false
      {}
    } else {
      var q :| q in nodes && child < q && nodes[q].File?;
      HasChild(nodes, child, q);
      var p := q[..|child| + 1];
      SameBelow(nodes, root, done, child, p);
      SameBelow(nodes, root, done, child, q);
      if p != q {
        assert p < q;
        assert !Barren(nodes, p);
      } else {
        assert !Barren(nodes, p);
      }
      assert p in cleaned;
      assert p in Children(cleaned, child);
    }
  }

  // ---------- the procedure ----------

  class Disk {
    var nodes: Nodes

    constructor (nodes: Nodes)
      ensures this.nodes == nodes
    {
      this.nodes := nodes;
    }

    /** `recursiveCleanup`: the entries of the directory are visited in no particular order. */
    method RecursiveCleanup(root: Path)
      requires IsTree(nodes) && root in nodes && nodes[root].Directory?
      modifies this
      ensures nodes == Pruned(old(nodes), root) && IsTree(nodes)
      decreases set p | p in nodes && root < p
    {
      ghost var before := nodes;
      var todo := Children(nodes, root);
      ghost var done: set<Path> := {};
      assert nodes == PrunedBelow(before, root, done);
      while todo != {}
        invariant todo <= Children(before, root) && done == Children(before, root) - todo
        invariant nodes == PrunedBelow(before, root, done) && IsTree(nodes)
        decreases todo
      {
        var file :| file in todo;
        SameBelow(before, root, done, file, file);
        ChildDone(before, root, done, file);
        if nodes[file].Directory? {
          FewerBelow(before, nodes, root, file);
          RecursiveCleanup(file);
          if Children(nodes, file) == {} {
            RemovalKeepsTree(nodes, file);
            nodes := nodes - {file};
          }
        }
        todo, done := todo - {file}, done + {file};
      }
      AllChildrenDone(before, root);
      PrunedIsTree(before, root);
    }
  }

  lemma FewerBelow(before: Nodes, nodes: Nodes, root: Path, child: Path)
    requires nodes.Keys <= before.Keys && child in before && root < child
    ensures (set p | p in nodes && child < p) < (set p | p in before && root < p)
  {
    var fewer, more := set p | p in nodes && child < p, set p | p in before && root < p;
    forall p | p in fewer
      ensures p in more
    {
      assert root == child[..|root|] == p[..|root|];
    }
    assert child in more && child !in fewer;
  }

  lemma RemovalKeepsTree(nodes: Nodes, p: Path)
    requires IsTree(nodes) && Children(nodes, p) == {}
    ensures IsTree(nodes - {p})
  {
    forall q | q in nodes && q != [] && Parent(q) == p
      ensures q in Children(nodes, p)
    {}
  }

  lemma AllChildrenDone(nodes: Nodes, root: Path)
    requires IsTree(nodes)
    ensures PrunedBelow(nodes, root, Children(nodes, root)) == Pruned(nodes, root)
  {
    forall p | p in nodes && root < p
      ensures p[..|root| + 1] in Children(nodes, root)
    {
      HasChild(nodes, root, p);
    }
  }
}
