/** The replacing branch of `rename` as a step of a session. */
module SessionRename {
  import opened Wrappers
  import opened Names
  import opened NodeTree
  import opened TreeOps
  import opened TreeRuns
  import opened Layers
  import opened Merge
  import opened LazyLookup
  import opened FreshMount
  import opened DiskChanges
  import opened Removal
  import opened CleanDisk
  import opened Filling
  import opened Session
  import opened SessionFrame
  import opened SessionDisk
  import opened DiskRename

  /** The move on disk that renames the child `n` of `sp` to `m` in `dp`. */
  ghost function MoveOf(t: Tree, sp: NodeId, n: Name, dp: NodeId, m: Name, cover: Cover): Move
    requires TreeOk(t) && sp in t.nodes && n in t.nodes[sp].Children() && EntryOk(t, sp, n)
  {
    Move(PathOf(t, sp) + [n], PathOf(t, dp) + [m], t.nodes[t.nodes[sp].Children()[n]].IsDir(), cover)
  }

  /** The name at the destination: a leaf, of the same kind if it is on the upper layer, or nothing. The
      engine does not compare the kinds, and where the upper layer has nothing there is nothing to refuse. */
  ghost predicate Replaceable(s: State, dp: NodeId, m: Name, isDir: bool)
    requires TreeOk(s.t) && dp in s.t.nodes
  {
    if m in s.t.nodes[dp].Children() then
      && EntryOk(s.t, dp, m)
      && var d := s.t.nodes[s.t.nodes[dp].Children()[m]];
         d.Children() == map[] && (d.layer == 0 ==> (d.IsDir() <==> isDir)) && (d.IsDir() ==> d.IsLoaded())
    else Resolved(s, dp, m)
  }

  /** `rename` without flags, after its lookups and copy-ups. A directory that reaches below the
      upper layer is refused; a file that does leaves a whiteout behind. */
  ghost predicate Renames(s: State, sp: NodeId, n: Name, dp: NodeId, m: Name, cover: Cover, out: State) {
    && TreeOk(s.t) && s.layers != [] && RenameAllowed(s.t, sp, n, dp, m)
    && var c := s.t.nodes[s.t.nodes[sp].Children()[n]];
       && c.layer == 0 && (c.IsDir() ==> c.last == 0)
       && s.t.nodes[dp].layer == 0 && Replaceable(s, dp, m, c.IsDir())
       && (cover == Nothing <==> c.last == 0)
       && out == State(RenameTree(s.t, sp, n, dp, m),
                       WithUpper(s.layers, RenamedUpper(s.layers[0], MoveOf(s.t, sp, n, dp, m, cover))))
  }

  /** The condition under which the file system is right after the rename of a file: the code
      deletes the marker of the new name only when a directory moves. */
  ghost predicate NoStaleMarker(s: State, sp: NodeId, n: Name, dp: NodeId, m: Name)
    requires TreeOk(s.t) && s.layers != [] && sp in s.t.nodes && n in s.t.nodes[sp].Children() && EntryOk(s.t, sp, n)
  {
    s.t.nodes[s.t.nodes[sp].Children()[n]].IsDir() || PathOf(s.t, dp) + [WhName(m)] !in s.layers[0]
  }

  /** If a lower layer has the new name, then it is the name of a file there, and a file comes to it that
      is known to reach below: the node keeps the last layer it has. */
  ghost predicate RenameFits(s: State, sp: NodeId, n: Name, dp: NodeId, m: Name)
    requires TreeOk(s.t) && s.layers != [] && dp in s.t.nodes && sp in s.t.nodes && n in s.t.nodes[sp].Children() && EntryOk(s.t, sp, n)
  {
    var c, dst := s.t.nodes[s.t.nodes[sp].Children()[n]], PathOf(s.t, dp) + [m];
    InLower(s.layers, dst) ==> !c.IsDir() && c.last > 0 && LowerFiles(s.layers, dst)
  }

  // ---- The move that a rename makes ----

  /** Paths below a node's path belong to nodes below it. */
  lemma {:induction false} PathsBelow(t: Tree, c: NodeId, x: NodeId)
    requires AllListed(t) && c in t.nodes && x in t.nodes && c != t.root
    ensures PathOf(t, c) <= PathOf(t, x) <==> Below(t, x, c)
    decreases if x in t.chains then |t.chains[x]| else 0
  {
    PathOfListed(t, c);
    if x == c {
      assert ChainOk(t.chains, c);
    } else if x == t.root {
    } else {
      PathOfListed(t, x);
      assert ListedByParent(t, x);
      var e := t.nodes[x].parent.value;
      PathsBelow(t, c, e);
      BelowParent(t, x, c);
      PrefixOfSnoc(PathOf(t, c), PathOf(t, e), t.nodes[x].name);
      if PathOf(t, c) == PathOf(t, x) {
        ListedDistinct(t, c, x);
      }
    }
  }

  lemma PathBelow(s: State, c: NodeId, x: NodeId)
    requires Coherent(s) && c in s.t.nodes && x in s.t.nodes && c != s.t.root
    ensures PathOf(s.t, c) <= PathOf(s.t, x) <==> Below(s.t, x, c)
  {
    CoherentListed(s);
    PathsBelow(s.t, c, x);
  }

  lemma SourceNotAboveTarget(s: State, sp: NodeId, n: Name, dp: NodeId, m: Name)
    requires Coherent(s) && RenameAllowed(s.t, sp, n, dp, m)
    ensures !(PathOf(s.t, sp) + [n] <= PathOf(s.t, dp) + [m])
  {
    var c := s.t.nodes[sp].Children()[n];
    ChildShown(s, sp, n);
    PathBelow(s, c, dp);
    PrefixOfSnoc(PathOf(s.t, sp) + [n], PathOf(s.t, dp), m);
    if PathOf(s.t, sp) + [n] == PathOf(s.t, dp) + [m] {
      SnocEqual(PathOf(s.t, sp), n, PathOf(s.t, dp), m);
      SamePathSameNode(s, sp, dp);
    }
  }

  lemma SnocEqual(p: Path, n: Name, q: Path, m: Name)
    requires p + [n] == q + [m]
    ensures p == q && n == m
  {
    assert Parent(p + [n]) == p && Parent(q + [m]) == q;
    assert Last(p + [n]) == n && Last(q + [m]) == m;
  }

  /** No node but the replaced one stands at or below the destination. */
  lemma TargetIsLeaf(s: State, dp: NodeId, m: Name, isDir: bool, x: NodeId)
    requires AllListed(s.t) && dp in s.t.nodes && Replaceable(s, dp, m, isDir) && x in s.t.nodes
    ensures PathOf(s.t, dp) + [m] <= PathOf(s.t, x) ==> x in Target(s.t, dp, m)
    ensures forall d :: d in Target(s.t, dp, m) && Below(s.t, x, d) ==> x == d
  {
    if m in s.t.nodes[dp].Children() {
      TargetLeaf(s, dp, m, isDir, s.t.nodes[dp].Children()[m], x);
    } else {
      NoneBelowName(s.t, dp, m, x);
    }
  }

  lemma TargetLeaf(s: State, dp: NodeId, m: Name, isDir: bool, d: NodeId, x: NodeId)
    requires AllListed(s.t) && dp in s.t.nodes && Replaceable(s, dp, m, isDir) && x in s.t.nodes
    requires m in s.t.nodes[dp].Children() && d == s.t.nodes[dp].Children()[m]
    ensures PathOf(s.t, dp) + [m] <= PathOf(s.t, x) ==> x == d
    ensures Below(s.t, x, d) ==> x == d
  {
    ChildPathOfEntry(s.t, dp, m);
    NoneBelowLeaf(s.t, d, x);
  }

  lemma RenameMoves(s: State, sp: NodeId, n: Name, dp: NodeId, m: Name, cover: Cover, out: State)
    requires Coherent(s) && Renames(s, sp, n, dp, m, cover, out)
    requires Ordinary(m) && RenameFits(s, sp, n, dp, m) && NoStaleMarker(s, sp, n, dp, m)
    ensures Movable(s.layers, MoveOf(s.t, sp, n, dp, m, cover))
  {
    var c, mv := s.t.nodes[sp].Children()[n], MoveOf(s.t, sp, n, dp, m, cover);
    ChildShown(s, sp, n);
    assert Last(mv.src) == n && Last(mv.dst) == m && Parent(mv.dst) == PathOf(s.t, dp);
    InMergeIsOrdinary(s.layers, PathOf(s.t, sp), n);
    SourceNotAboveTarget(s, sp, n, dp, m);
    CoherentListed(s);
    TargetIsLeaf(s, dp, m, mv.isDir, c);
    TargetApartIf(s, sp, n, dp, m);
    DirOnUpper(s, dp);
  }

  lemma TargetApartIf(s: State, sp: NodeId, n: Name, dp: NodeId, m: Name)
    requires TreeOk(s.t) && RenameAllowed(s.t, sp, n, dp, m)
    ensures s.t.nodes[sp].Children()[n] !in Target(s.t, dp, m) && sp !in Target(s.t, dp, m) && dp !in Target(s.t, dp, m)
  {
    if m in s.t.nodes[dp].Children() {
      TargetApart(s.t, sp, n, dp, m);
    }
  }

  // ---- The tree after a rename ----

  function RenamedParentNode(t: Tree, d: NodeId, sp: NodeId, n: Name, dp: NodeId, m: Name, c: NodeId): Node
    requires d in t.nodes
  {
    var unloaded := t.nodes[d].SetLoaded(false);
    var cleared := if d == dp then unloaded.RemoveChild(m) else unloaded;
    var taken := if d == sp then cleared.RemoveChild(n) else cleared;
    if d == dp then taken.InsertChild(m, c) else taken
  }

  /** The arena after a rename, node by node. */
  function RenamedNode(t: Tree, x: NodeId, sp: NodeId, n: Name, dp: NodeId, m: Name, c: NodeId): Node
    requires x in t.nodes
  {
    if x == c then t.nodes[c].(parent := Some(dp), name := m)
    else if x == sp || x == dp then RenamedParentNode(t, x, sp, n, dp, m, c)
    else t.nodes[x]
  }

  lemma RenameNodes(t: Tree, sp: NodeId, n: Name, dp: NodeId, m: Name, x: NodeId)
    requires TreeOk(t) && RenameAllowed(t, sp, n, dp, m)
    ensures var u, c := RenameTree(t, sp, n, dp, m), t.nodes[sp].Children()[n];
            && u.root == t.root && u.nodes.Keys == t.nodes.Keys - Target(t, dp, m)
            && (x in u.nodes ==> u.nodes[x] == RenamedNode(t, x, sp, n, dp, m, c))
  {
    var u, c := RenameTree(t, sp, n, dp, m), t.nodes[sp].Children()[n];
    RenameTreeOk(t, sp, n, dp, m);
    ChildNotAbove(t, sp, n);
    var v := ReplaceTarget(t, sp, dp, m);
    ReplaceTargetOk(t, sp, n, dp, m);
    ReplacedNode(t, sp, n, dp, m, x);
    MovedNodes(v, sp, n, dp, m, c, x);
    assert c != sp && c != dp by {
      assert ChainOk(t.chains, dp);
    }
  }

  /** After the first half of a rename. */
  lemma ReplacedNode(t: Tree, sp: NodeId, n: Name, dp: NodeId, m: Name, x: NodeId)
    requires TreeOk(t) && RenameAllowed(t, sp, n, dp, m)
    ensures var v := ReplaceTarget(t, sp, dp, m);
            && v.root == t.root
            && (x in v.nodes ==> x in t.nodes)
            && (x in v.nodes ==>
                  v.nodes[x] == if x == dp then t.nodes[x].SetLoaded(false).RemoveChild(m)
                                else if x == sp then t.nodes[x].SetLoaded(false) else t.nodes[x])
  {
    var v := ReplaceTarget(t, sp, dp, m);
    if x in v.nodes && x == dp && m !in t.nodes[dp].Children() && t.nodes[dp].IsDir() {
      assert t.nodes[dp].dir.children - {m} == t.nodes[dp].dir.children;
    }
  }

  /** And after the second. */
  lemma MovedNodes(v: Tree, sp: NodeId, n: Name, dp: NodeId, m: Name, c: NodeId, x: NodeId)
    requires sp in v.nodes && dp in v.nodes && dp in v.chains && n in v.nodes[sp].Children()
    requires c == v.nodes[sp].Children()[n] && c in v.nodes && c in v.chains && c != sp && c != dp
    ensures var u := MoveName(v, sp, n, dp, m);
            && u.root == v.root && u.nodes.Keys == v.nodes.Keys
            && (x in u.nodes ==>
                  u.nodes[x] == if x == c then v.nodes[c].(parent := Some(dp), name := m)
                                else
                                  var taken := if x == sp then v.nodes[x].RemoveChild(n) else v.nodes[x];
                                  if x == dp then taken.InsertChild(m, c) else taken)
  {}

  /** Names other than the two that a rename touches stay in a directory's map. */
  lemma RenameKeepsEntry(t: Tree, e: NodeId, sp: NodeId, n: Name, dp: NodeId, m: Name, c: NodeId, k: Name, x: NodeId)
    requires e in t.nodes && t.nodes[e].GetChild(k) == Some(x) && (e == sp ==> k != n) && (e == dp ==> k != m)
    ensures RenamedNode(t, e, sp, n, dp, m, c).GetChild(k) == Some(x)
  {}

  lemma RenameAddsEntry(t: Tree, dp: NodeId, sp: NodeId, n: Name, m: Name, c: NodeId)
    requires dp in t.nodes && t.nodes[dp].IsDir() && c != dp
    ensures RenamedNode(t, dp, sp, n, dp, m, c).GetChild(m) == Some(c)
  {}

  /** A replaced node lists nothing. */
  lemma ListerStays(s: State, dp: NodeId, m: Name, isDir: bool, e: NodeId, k: Name)
    requires TreeOk(s.t) && dp in s.t.nodes && Replaceable(s, dp, m, isDir) && e in s.t.nodes && s.t.nodes[e].GetChild(k).Some?
    ensures e !in Target(s.t, dp, m)
  {}

  lemma RenameListed(s: State, sp: NodeId, n: Name, dp: NodeId, m: Name, isDir: bool, u: Tree, x: NodeId)
    requires AllListed(s.t) && RenameAllowed(s.t, sp, n, dp, m) && Replaceable(s, dp, m, isDir)
    requires u == RenameTree(s.t, sp, n, dp, m) && TreeOk(u) && x in u.nodes && x != s.t.root
    ensures ListedByParent(u, x)
  {
    var c := s.t.nodes[sp].Children()[n];
    RenameNodes(s.t, sp, n, dp, m, x);
    TargetApartIf(s, sp, n, dp, m);
    ChildNotAbove(s.t, sp, n);
    if x == c {
      RenameNodes(s.t, sp, n, dp, m, dp);
      assert c != dp by { assert ChainOk(s.t.chains, dp); }
      RenameAddsEntry(s.t, dp, sp, n, m, c);
    } else {
      assert ListedByParent(s.t, x);
      var e, k := s.t.nodes[x].parent.value, s.t.nodes[x].name;
      ListerStays(s, dp, m, isDir, e, k);
      RenameNodes(s.t, sp, n, dp, m, e);
      NotTouched(s.t, sp, n, dp, m, e, k, x);
      RenameKeepsEntry(s.t, e, sp, n, dp, m, c, k, x);
      RenameKeepsLink(s.t, sp, n, dp, m, c, x);
    }
  }

  lemma NotTouched(t: Tree, sp: NodeId, n: Name, dp: NodeId, m: Name, e: NodeId, k: Name, x: NodeId)
    requires sp in t.nodes && dp in t.nodes && e in t.nodes && t.nodes[e].GetChild(k) == Some(x)
    requires n in t.nodes[sp].Children() && x != t.nodes[sp].Children()[n] && x !in Target(t, dp, m)
    ensures (e == sp ==> k != n) && (e == dp ==> k != m)
  {}

  lemma RenameKeepsLink(t: Tree, sp: NodeId, n: Name, dp: NodeId, m: Name, c: NodeId, x: NodeId)
    requires x in t.nodes && x != c
    ensures var node := RenamedNode(t, x, sp, n, dp, m, c);
            && node.parent == t.nodes[x].parent && node.name == t.nodes[x].name && node.layer == t.nodes[x].layer
            && node.last == t.nodes[x].last && node.hidden == t.nodes[x].hidden && (node.IsDir() <==> t.nodes[x].IsDir())
  {}

  // ---- The nodes agree with the disk ----

  /** Paths after a rename: below the moved node the prefix is replaced, elsewhere they stay. */
  lemma RenamedPathOf(s: State, sp: NodeId, n: Name, dp: NodeId, m: Name, cover: Cover, u: Tree, x: NodeId)
    requires AllListed(s.t) && RenameAllowed(s.t, sp, n, dp, m)
    requires Replaceable(s, dp, m, MoveOf(s.t, sp, n, dp, m, cover).isDir)
    requires u == RenameTree(s.t, sp, n, dp, m) && x in u.nodes
    ensures TreeOk(u) && x in s.t.nodes
    ensures var mv, p := MoveOf(s.t, sp, n, dp, m, cover), PathOf(s.t, x);
            && !(mv.dst <= p)
            && (mv.src <= p <==> Below(s.t, x, s.t.nodes[sp].Children()[n]))
            && PathOf(u, x) == if mv.src <= p then Shift(mv.src, mv.dst, p) else p
  {
    var c, mv := s.t.nodes[sp].Children()[n], MoveOf(s.t, sp, n, dp, m, cover);
    RenameNodes(s.t, sp, n, dp, m, x);
    ListedAttached(s.t, x);
    AttachedAncestors(s.t, x);
    TargetIsLeaf(s, dp, m, mv.isDir, x);
    RenamePath(s.t, sp, n, dp, m, x);
    ChildPathOfEntry(s.t, sp, n);
    ChildNotAbove(s.t, sp, n);
    PathsBelow(s.t, c, x);
  }

  lemma MovedFine(layers: seq<Layer>, mv: Move, node: Node, node': Node)
    requires Movable(layers, mv) && NodeOn(layers, mv.src, node) && DirOn(layers, mv.src, node)
    requires node.layer == 0 && (node.IsDir() <==> mv.isDir) && (InLower(layers, mv.dst) ==> node.last > 0)
    requires node' == node.(parent := node'.parent, name := node'.name)
    ensures var out := WithUpper(layers, RenamedUpper(layers[0], mv));
            NodeOn(out, mv.dst, node') && DirOn(out, mv.dst, node')
  {
    MovedNode(layers, mv, node);
    NodeOnReads(WithUpper(layers, RenamedUpper(layers[0], mv)), mv.dst, node, node');
    if mv.isDir {
      ShiftBack(mv.src, mv.dst, mv.src);
      ShiftedDir(layers, mv, mv.src, node);
    }
  }

  lemma ShiftedFine(layers: seq<Layer>, mv: Move, p: Path, node: Node)
    requires Movable(layers, mv) && mv.isDir && mv.src <= p && p != mv.src
    requires NodeOn(layers, p, node) && DirOn(layers, p, node)
    ensures var out, r := WithUpper(layers, RenamedUpper(layers[0], mv)), Shift(mv.src, mv.dst, p);
            NodeOn(out, r, node) && DirOn(out, r, node)
  {
    ShiftedShown(layers, mv, p);
    OnlyOnUpper(layers, p, node.layer);
    ShiftedNode(layers, mv, p, node);
    ShiftedDir(layers, mv, p, node);
  }

  /** The moved node and those below it. */
  lemma RenamedBelow(s: State, sp: NodeId, n: Name, dp: NodeId, m: Name, cover: Cover, out: State, x: NodeId)
    requires Coherent(s) && Renames(s, sp, n, dp, m, cover, out) && x in out.t.nodes && RenameFits(s, sp, n, dp, m)
    requires Movable(s.layers, MoveOf(s.t, sp, n, dp, m, cover)) && MoveOf(s.t, sp, n, dp, m, cover).src <= PathOf(s.t, x)
    requires x in s.t.nodes && Below(s.t, x, s.t.nodes[sp].Children()[n])
    ensures x != s.t.root
    ensures var mv := MoveOf(s.t, sp, n, dp, m, cover);
            NodeOn(out.layers, Shift(mv.src, mv.dst, PathOf(s.t, x)), out.t.nodes[x])
            && DirOn(out.layers, Shift(mv.src, mv.dst, PathOf(s.t, x)), out.t.nodes[x])
  {
    var c, mv := s.t.nodes[sp].Children()[n], MoveOf(s.t, sp, n, dp, m, cover);
    RenameNodes(s.t, sp, n, dp, m, x);
    ChildShown(s, sp, n);
    ChildNotAbove(s.t, sp, n);
    assert NodeFine(s, x) && NodeFine(s, c);
    if x == c {
      ShiftBack(mv.src, mv.dst, mv.src);
      MovedFine(s.layers, mv, s.t.nodes[c], out.t.nodes[c]);
    } else {
      assert x != sp && x != dp;
      if !mv.isDir {
        NoNodeBelowLeaf(s, c, x);
      }
      if PathOf(s.t, x) == mv.src {
        SamePathSameNode(s, x, c);
      }
      ShiftedFine(s.layers, mv, PathOf(s.t, x), s.t.nodes[x]);
    }
  }

  lemma RenamedMaps(t: Tree, x: NodeId, sp: NodeId, n: Name, dp: NodeId, m: Name, c: NodeId)
    requires x in t.nodes && x != c
    ensures var node, node' := t.nodes[x], RenamedNode(t, x, sp, n, dp, m, c);
            && (x != sp && x != dp ==> node' == node)
            && (node.IsDir() <==> node'.IsDir())
            && (node.IsDir() && (x == sp || x == dp) ==>
                  !node'.IsLoaded() && node'.dir.whiteouts == if x == dp then node.dir.whiteouts - {m} else node.dir.whiteouts)
  {}

  /** All other nodes. */
  lemma RenamedAway(s: State, sp: NodeId, n: Name, dp: NodeId, m: Name, cover: Cover, out: State, x: NodeId)
    requires Coherent(s) && Renames(s, sp, n, dp, m, cover, out) && x in out.t.nodes && x in s.t.nodes
    requires var mv := MoveOf(s.t, sp, n, dp, m, cover);
             Movable(s.layers, mv) && !(mv.src <= PathOf(s.t, x)) && !(mv.dst <= PathOf(s.t, x))
    ensures x != s.t.root ==> NodeOn(out.layers, PathOf(s.t, x), out.t.nodes[x])
    ensures DirOn(out.layers, PathOf(s.t, x), out.t.nodes[x])
  {
    var c, mv, p := s.t.nodes[sp].Children()[n], MoveOf(s.t, sp, n, dp, m, cover), PathOf(s.t, x);
    assert Parent(mv.src) == PathOf(s.t, sp) && Last(mv.src) == n && Parent(mv.dst) == PathOf(s.t, dp) && Last(mv.dst) == m;
    RenameNodes(s.t, sp, n, dp, m, x);
    ChildShown(s, sp, n);
    assert NodeFine(s, x);
    RenameKeepsLink(s.t, sp, n, dp, m, c, x);
    RenamedMaps(s.t, x, sp, n, dp, m, c);
    if x != s.t.root {
      UnmovedNode(s.layers, mv, p, s.t.nodes[x]);
      NodeOnReads(out.layers, p, s.t.nodes[x], out.t.nodes[x]);
    }
    RemovedParentName(s, x);
    if p == PathOf(s.t, sp) {
      SamePathSameNode(s, x, sp);
    }
    if p == PathOf(s.t, dp) {
      SamePathSameNode(s, x, dp);
    }
    UnmovedDir(s.layers, mv, p, s.t.nodes[x], out.t.nodes[x]);
  }

  /** One node after the rename. */
  lemma RenamedFine(s: State, sp: NodeId, n: Name, dp: NodeId, m: Name, cover: Cover, out: State, x: NodeId)
    requires Coherent(s) && Renames(s, sp, n, dp, m, cover, out) && x in out.t.nodes
    requires TreeOk(out.t) && Movable(s.layers, MoveOf(s.t, sp, n, dp, m, cover)) && RenameFits(s, sp, n, dp, m)
    ensures NodeFine(out, x)
  {
    var c, mv := s.t.nodes[sp].Children()[n], MoveOf(s.t, sp, n, dp, m, cover);
    CoherentListed(s);
    RenamedPathOf(s, sp, n, dp, m, cover, out.t, x);
    RenameNodes(s.t, sp, n, dp, m, x);
    if x != s.t.root {
      RenameListed(s, sp, n, dp, m, mv.isDir, out.t, x);
    } else {
      RootKept(s, sp, n, dp, m, out.t);
    }
    if mv.src <= PathOf(s.t, x) {
      RenamedBelow(s, sp, n, dp, m, cover, out, x);
    } else {
      RenamedAway(s, sp, n, dp, m, cover, out, x);
    }
  }

  lemma RootKept(s: State, sp: NodeId, n: Name, dp: NodeId, m: Name, u: Tree)
    requires Coherent(s) && RenameAllowed(s.t, sp, n, dp, m) && u == RenameTree(s.t, sp, n, dp, m)
    requires s.t.root in u.nodes
    ensures u.root == s.t.root
    ensures var node := u.nodes[u.root]; node.layer == 0 && node.last == 0 && !node.hidden
  {
    var c := s.t.nodes[sp].Children()[n];
    RenameNodes(s.t, sp, n, dp, m, s.t.root);
    ChildShown(s, sp, n);
    assert NodeFine(s, s.t.root);
    RenameKeepsLink(s.t, sp, n, dp, m, c, s.t.root);
  }

  /** A rename that fits, to an ordinary name, keeps the session coherent. */
  lemma RenameKeepsCoherence(s: State, sp: NodeId, n: Name, dp: NodeId, m: Name, cover: Cover, out: State)
    requires Coherent(s) && Renames(s, sp, n, dp, m, cover, out)
    requires Ordinary(m) && RenameFits(s, sp, n, dp, m) && NoStaleMarker(s, sp, n, dp, m)
    ensures Coherent(out)
  {
    RenameMoves(s, sp, n, dp, m, cover, out);
    RenameTreeOk(s.t, sp, n, dp, m);
    RenamedClean(s.layers, MoveOf(s.t, sp, n, dp, m, cover));
    forall x | x in out.t.nodes
      ensures NodeFine(out, x)
    {
      RenamedFine(s, sp, n, dp, m, cover, out, x);
    }
  }

  lemma StaleMarkerStays(up: Layer, mv: Move)
    requires mv.src != [] && mv.dst != []
    requires !(mv.src <= mv.dst) && !IsWh(Last(mv.src)) && !IsWh(Last(mv.dst))
    ensures !mv.isDir && MarkerOf(mv.dst) in up ==> MarkerOf(mv.dst) in RenamedUpper(up, mv)
  {
    MarkerNextTo(mv.dst, mv.src);
    MarkerNotBelow(mv.dst);
  }

  lemma CoherentLeavesNoMarker(s: State, sp: NodeId, n: Name, dp: NodeId, m: Name, cover: Cover, out: State)
    requires Coherent(s) && Renames(s, sp, n, dp, m, cover, out) && Ordinary(m) && Coherent(out)
    ensures NoStaleMarker(s, sp, n, dp, m)
  {
    var c, mv := s.t.nodes[sp].Children()[n], MoveOf(s.t, sp, n, dp, m, cover);
    ChildShown(s, sp, n);
    InMergeIsOrdinary(s.layers, PathOf(s.t, sp), n);
    SourceNotAboveTarget(s, sp, n, dp, m);
    assert Last(mv.src) == n && Last(mv.dst) == m && Parent(mv.dst) == PathOf(s.t, dp);
    assert MarkerOf(mv.dst) == PathOf(s.t, dp) + [WhName(m)];
    StaleMarkerStays(s.layers[0], mv);
    RenameNodes(s.t, sp, n, dp, m, c);
    TargetApartIf(s, sp, n, dp, m);
    CoherentListed(s);
    RenamedPathOf(s, sp, n, dp, m, cover, out.t, c);
    ShiftBack(mv.src, mv.dst, mv.src);
    assert NodeFine(out, c);
  }

  lemma CoherentRenameFits(s: State, sp: NodeId, n: Name, dp: NodeId, m: Name, out: State)
    requires Coherent(s) && Coherent(out) && RenameAllowed(s.t, sp, n, dp, m) && out.t == RenameTree(s.t, sp, n, dp, m)
    requires out.layers == WithUpper(s.layers, out.layers[0])
    requires var c := s.t.nodes[s.t.nodes[sp].Children()[n]];
             c.layer == 0 && (c.IsDir() ==> c.last == 0) && Replaceable(s, dp, m, c.IsDir())
    ensures RenameFits(s, sp, n, dp, m)
  {
    hide RenameTree;
    var c, dst := s.t.nodes[sp].Children()[n], PathOf(s.t, dp) + [m];
    RenameNodes(s.t, sp, n, dp, m, c);
    TargetApartIf(s, sp, n, dp, m);
    CoherentListed(s);
    RenamedPathOf(s, sp, n, dp, m, Nothing, out.t, c);
    ChildShown(s, sp, n);
    ShiftBack(PathOf(s.t, sp) + [n], dst, PathOf(s.t, sp) + [n]);
    LowerKept(s.layers, out.layers[0], dst);
    assert NodeFine(out, c);
    if InLower(s.layers, dst) {
      UnderAFile(out.layers, dst, out.t.nodes[c]);
      SameLowerFiles(s.layers, out.layers, dst);
    }
  }

  /** A node that reaches below with a file reaches files. */
  lemma UnderAFile(layers: seq<Layer>, q: Path, node: Node)
    requires Clean(layers) && NodeOn(layers, q, node) && node.layer == 0
    ensures !node.IsDir() ==> LowerFiles(layers, q)
  {
    if !node.IsDir() {
      forall i | 1 <= i < |layers| && q in layers[i]
        ensures layers[i][q].File?
      {
        assert NoClash(layers, 0, i, q) && CleanEntry(layers[i], q);
      }
    }
  }

  lemma SameLowerFiles(layers: seq<Layer>, out: seq<Layer>, q: Path)
    requires layers != [] && out != [] && out == WithUpper(layers, out[0])
    ensures LowerFiles(out, q) <==> LowerFiles(layers, q)
  {
    assert forall i :: 1 <= i < |layers| ==> out[i] == layers[i];
  }

  /** The exact condition: no marker of the new name is left beside a file, and the rename fits. With a
      marker left the renamed file is in the cache but is not shown; and a node that takes the place of a
      lower name without knowing of it lets that show when it is unlinked. */
  lemma RenameIsCoherentIff(s: State, sp: NodeId, n: Name, dp: NodeId, m: Name, cover: Cover, out: State)
    requires Coherent(s) && Renames(s, sp, n, dp, m, cover, out) && Ordinary(m)
    ensures Coherent(out) <==> NoStaleMarker(s, sp, n, dp, m) && RenameFits(s, sp, n, dp, m)
  {
    if NoStaleMarker(s, sp, n, dp, m) && RenameFits(s, sp, n, dp, m) {
      RenameKeepsCoherence(s, sp, n, dp, m, cover, out);
    }
    if Coherent(out) {
      CoherentLeavesNoMarker(s, sp, n, dp, m, cover, out);
      CoherentRenameFits(s, sp, n, dp, m, out);
    }
  }
}
