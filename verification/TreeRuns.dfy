/** The node tree over whole runs: the tree effect of every engine operation, the paths after
    both branches of `rename`, and well-formedness in every reachable state (src/overlay.rs). */
module TreeRuns {
  import opened Wrappers
  import opened Names
  import opened NodeTree
  import opened TreeOps

  // ---- The tree effect of the operations ----

  function Unload(t: Tree, d: NodeId): Tree
    requires d in t.nodes
  {
    SetNode(t, d, t.nodes[d].SetLoaded(false))
  }

  /** A child found by lookup, scan, create or link: `insert_child_node`. */
  function InsertChild(t: Tree, d: NodeId, node: Node): Tree
    requires d in t.nodes && d in t.chains
  {
    InsertName(AddNode(t, d, node), d, node.name, t.nextId)
  }

  /** Remove a child's name from its directory and the child from the arena. */
  function RemoveChildNode(t: Tree, d: NodeId, n: Name): Tree
    requires d in t.nodes && n in t.nodes[d].Children()
  {
    DeleteNode(RemoveName(t, d, n), t.nodes[d].Children()[n])
  }

  /** `do_rm`, after its lookups: the parent is marked for a new scan. */
  function RmTree(t: Tree, d: NodeId, n: Name): Tree
    requires d in t.nodes && n in t.nodes[d].Children()
  {
    RemoveChildNode(Unload(t, d), d, n)
  }

  /** The first half of a replacing `rename`: both parents are marked for a new scan and a
      destination that exists is dropped. */
  function ReplaceTarget(t: Tree, sp: NodeId, dp: NodeId, m: Name): Tree
    requires sp in t.nodes && dp in t.nodes
  {
    var u := Unload(Unload(t, sp), dp);
    if m in u.nodes[dp].Children() then RemoveChildNode(u, dp, m) else u
  }

  /** The second half: the child is taken out of one map, given its new name and parent, and
      put into the other map. */
  function MoveName(t: Tree, sp: NodeId, n: Name, dp: NodeId, m: Name): Tree
    requires sp in t.nodes && dp in t.nodes && dp in t.chains && n in t.nodes[sp].Children()
    requires var s := t.nodes[sp].Children()[n]; s in t.nodes && s in t.chains
  {
    var s := t.nodes[sp].Children()[n];
    InsertName(Relocate(RemoveName(t, sp, n), s, dp, m), dp, m, s)
  }

  /** The exchange branch of `rename`, up to the two nodes being listed again. */
  function SwapNodes(t: Tree, sp: NodeId, n: Name, dp: NodeId, m: Name, s: NodeId, d: NodeId): Tree
    requires {s, d} <= t.nodes.Keys && {s, d, sp, dp} <= t.chains.Keys
  {
    Relocate(Relocate(t, s, dp, m), d, sp, n)
  }

  // ---- Preservation and paths, operation by operation ----

  lemma UnloadOk(t: Tree, d: NodeId)
    requires TreeOk(t) && d in t.nodes
    ensures TreeOk(Unload(t, d)) && SameLinks(t, Unload(t, d))
    ensures forall x :: x in t.nodes ==> Unload(t, d).nodes[x].Children() == t.nodes[x].Children()
  {
    SetNodeOk(t, d, t.nodes[d].SetLoaded(false));
  }

  lemma InsertChildOk(t: Tree, d: NodeId, node: Node)
    requires TreeOk(t) && d in t.nodes && ValidName(node.name) && node.Children() == map[]
    ensures TreeOk(InsertChild(t, d, node))
    ensures PathOf(InsertChild(t, d, node), t.nextId) == PathOf(t, d) + [node.name]
    ensures forall id :: id in t.nodes ==> PathOf(InsertChild(t, d, node), id) == PathOf(t, id)
  {
    var u := AddNode(t, d, node);
    AddNodeOk(t, d, node);
    InsertNameOk(u, d, node.name, t.nextId);
    var v := InsertChild(t, d, node);
    forall id | id in u.nodes
      ensures PathOf(v, id) == PathOf(u, id)
    {
      SameLinksSamePaths(u, v, id);
    }
  }

  /** In a well-formed tree a node is listed at most once. */
  lemma RemovedIsUnlisted(t: Tree, d: NodeId, n: Name)
    requires TreeOk(t) && d in t.nodes && n in t.nodes[d].Children()
    ensures EntryOk(t, d, n)
    ensures TreeOk(RemoveName(t, d, n)) && SameLinks(t, RemoveName(t, d, n))
    ensures Unlisted(RemoveName(t, d, n), t.nodes[d].Children()[n])
  {
    var u, c := RemoveName(t, d, n), t.nodes[d].Children()[n];
    RemoveNameOk(t, d, n);
    assert EntryOk(t, d, n);
    forall e, m | e in u.nodes && m in u.nodes[e].Children()
      ensures u.nodes[e].Children()[m] != c
    {
      assert EntryOk(u, e, m);
    }
  }

  lemma RemoveChildNodeOk(t: Tree, d: NodeId, n: Name)
    requires TreeOk(t) && d in t.nodes && n in t.nodes[d].Children()
    ensures TreeOk(RemoveChildNode(t, d, n))
    ensures forall id :: id in t.nodes && !Below(t, id, t.nodes[d].Children()[n]) ==>
                           PathOf(RemoveChildNode(t, d, n), id) == PathOf(t, id)
  {
    var u, c := RemoveName(t, d, n), t.nodes[d].Children()[n];
    RemovedIsUnlisted(t, d, n);
    assert c != t.root by { assert LinkOk(t, c); }
    DeleteNodeOk(u, c);
    forall id | id in t.nodes && !Below(t, id, c)
      ensures PathOf(RemoveChildNode(t, d, n), id) == PathOf(t, id)
    {
      SameLinksSamePaths(t, u, id);
      assert !Below(u, id, c);
    }
  }

  lemma RmTreeOk(t: Tree, d: NodeId, n: Name)
    requires TreeOk(t) && d in t.nodes && n in t.nodes[d].Children()
    ensures TreeOk(RmTree(t, d, n))
    ensures forall id :: id in t.nodes && !Below(t, id, t.nodes[d].Children()[n]) ==>
                           PathOf(RmTree(t, d, n), id) == PathOf(t, id)
  {
    var u := Unload(t, d);
    UnloadOk(t, d);
    RemoveChildNodeOk(u, d, n);
    forall id | id in t.nodes && !Below(t, id, t.nodes[d].Children()[n])
      ensures PathOf(RmTree(t, d, n), id) == PathOf(t, id)
    {
      SameLinksSamePaths(t, u, id);
      assert !Below(u, id, t.nodes[d].Children()[n]);
    }
  }

  /** Emptying a directory's maps, the first half of the refresh ioctl. */
  lemma ClearOk(t: Tree, d: NodeId)
    requires TreeOk(t) && d in t.nodes
    ensures TreeOk(SetNode(t, d, t.nodes[d].ClearChildren()))
    ensures SameLinks(t, SetNode(t, d, t.nodes[d].ClearChildren()))
  {
    var u := SetNode(t, d, t.nodes[d].ClearChildren());
    forall x | x in u.nodes
      ensures LinkOk(u, x)
    {
      assert LinkOk(t, x);
    }
    forall e, m | e in u.nodes && m in u.nodes[e].Children()
      ensures EntryOk(u, e, m)
    {
      assert EntryOk(t, e, m);
    }
  }

  /** What the kernel's `renameat` guarantees of a rename that succeeded: a directory does not
      move into its own subtree, and a replaced destination was not above the source. */
  ghost predicate RenameAllowed(t: Tree, sp: NodeId, n: Name, dp: NodeId, m: Name)
    requires TreeOk(t)
  {
    && sp in t.nodes && dp in t.nodes && n in t.nodes[sp].Children() && (sp, n) != (dp, m)
    && EntryOk(t, sp, n) && ValidName(m) && t.nodes[dp].IsDir()
    && var s := t.nodes[sp].Children()[n];
       && !Below(t, dp, s)
       && (m in t.nodes[dp].Children() ==> !Below(t, s, t.nodes[dp].Children()[m]))
  }

  lemma ChildNotAbove(t: Tree, d: NodeId, n: Name)
    requires TreeOk(t) && d in t.nodes && n in t.nodes[d].Children()
    ensures EntryOk(t, d, n)
    ensures var c := t.nodes[d].Children()[n]; c != t.root && c != d && !Below(t, d, c)
  {
    assert EntryOk(t, d, n);
    var c := t.nodes[d].Children()[n];
    assert LinkOk(t, c);
    if Below(t, d, c) {
      SrcPosition(t.chains, c, d);
      assert false;
    }
    assert ChainOk(t.chains, d);
  }

  lemma UnloadBothOk(t: Tree, sp: NodeId, dp: NodeId)
    requires TreeOk(t) && sp in t.nodes && dp in t.nodes
    ensures var u := Unload(Unload(t, sp), dp);
            && TreeOk(u) && SameLinks(t, u)
            && forall x :: x in t.nodes ==> u.nodes[x].Children() == t.nodes[x].Children()
  {
    UnloadOk(t, sp);
    UnloadOk(Unload(t, sp), dp);
  }

  lemma ReplaceTargetOk(t: Tree, sp: NodeId, n: Name, dp: NodeId, m: Name)
    requires TreeOk(t) && RenameAllowed(t, sp, n, dp, m)
    ensures var v := ReplaceTarget(t, sp, dp, m);
            && TreeOk(v) && v.chains == t.chains && v.root == t.root
            && sp in v.nodes && dp in v.nodes && n in v.nodes[sp].Children()
            && v.nodes[sp].Children()[n] == t.nodes[sp].Children()[n]
            && v.nodes[sp].Children()[n] in v.nodes
            && v.nodes.Keys == t.nodes.Keys - Target(t, dp, m)
            && m !in v.nodes[dp].Children()
  {
    var u := Unload(Unload(t, sp), dp);
    UnloadBothOk(t, sp, dp);
    if m in t.nodes[dp].Children() {
      TargetApart(t, sp, n, dp, m);
      RemoveChildNodeOk(u, dp, m);
      RemoveChildNodeMaps(u, dp, m, sp, n);
    }
  }

  lemma RemoveChildNodeMaps(t: Tree, d: NodeId, m: Name, e: NodeId, n: Name)
    requires d in t.nodes && m in t.nodes[d].Children() && t.nodes[d].Children()[m] !in {d, e}
    requires e in t.nodes && n in t.nodes[e].Children() && (e, n) != (d, m)
    ensures var v := RemoveChildNode(t, d, m);
            && d in v.nodes && e in v.nodes && m !in v.nodes[d].Children()
            && n in v.nodes[e].Children() && v.nodes[e].Children()[n] == t.nodes[e].Children()[n]
            && v.nodes.Keys == t.nodes.Keys - {t.nodes[d].Children()[m]}
  {
    var v := RemoveChildNode(t, d, m);
    assert v.nodes[d].Children() == t.nodes[d].Children() - {m};
    assert e != d ==> v.nodes[e] == t.nodes[e];
  }

  /** The node that a rename to `m` under `dp` replaces, if any. */
  function Target(t: Tree, dp: NodeId, m: Name): set<NodeId>
    requires dp in t.nodes
  {
    if m in t.nodes[dp].Children() then {t.nodes[dp].Children()[m]} else {}
  }

  lemma TargetApart(t: Tree, sp: NodeId, n: Name, dp: NodeId, m: Name)
    requires TreeOk(t) && RenameAllowed(t, sp, n, dp, m) && m in t.nodes[dp].Children()
    ensures var d := t.nodes[dp].Children()[m];
            && EntryOk(t, dp, m) && d !in {sp, dp, t.nodes[sp].Children()[n]}
            && !Below(t, dp, d) && !Below(t, sp, d)
  {
    var s, d := t.nodes[sp].Children()[n], t.nodes[dp].Children()[m];
    ChildNotAbove(t, sp, n);
    ChildNotAbove(t, dp, m);
    BelowParent(t, s, d);
    assert ChainOk(t.chains, s) && ChainOk(t.chains, dp) && ChainOk(t.chains, sp);
  }

  lemma ReplaceTargetPath(t: Tree, sp: NodeId, n: Name, dp: NodeId, m: Name, x: NodeId)
    requires TreeOk(t) && RenameAllowed(t, sp, n, dp, m)
    requires x in t.nodes && forall d :: d in Target(t, dp, m) ==> !Below(t, x, d)
    ensures TreeOk(ReplaceTarget(t, sp, dp, m))
    ensures PathOf(ReplaceTarget(t, sp, dp, m), x) == PathOf(t, x)
  {
    var u1 := Unload(t, sp);
    var u := Unload(u1, dp);
    UnloadOk(t, sp);
    UnloadOk(u1, dp);
    SameLinksSamePaths(t, u1, x);
    SameLinksSamePaths(u1, u, x);
    if m in u.nodes[dp].Children() {
      assert u.nodes[dp].Children()[m] in Target(t, dp, m);
      RemoveChildNodeOk(u, dp, m);
    }
  }

  lemma MoveNameOk(t: Tree, sp: NodeId, n: Name, dp: NodeId, m: Name)
    requires TreeOk(t) && sp in t.nodes && dp in t.nodes && n in t.nodes[sp].Children()
    requires EntryOk(t, sp, n) && !Below(t, dp, t.nodes[sp].Children()[n]) && ValidName(m)
    ensures var s, w := t.nodes[sp].Children()[n], RemoveName(t, sp, n);
            && s != t.root && TreeOk(w) && SameLinks(t, w)
            && TreeOk(Relocate(w, s, dp, m))
            && TreeOk(MoveName(t, sp, n, dp, m)) && SameLinks(Relocate(w, s, dp, m), MoveName(t, sp, n, dp, m))
  {
    var s, w := t.nodes[sp].Children()[n], RemoveName(t, sp, n);
    ChildNotAbove(t, sp, n);
    RemovedIsUnlisted(t, sp, n);
    RelocateOk(w, s, dp, m);
    InsertNameOk(Relocate(w, s, dp, m), dp, m, s);
  }

  lemma MoveNamePath(t: Tree, sp: NodeId, n: Name, dp: NodeId, m: Name, x: NodeId)
    requires TreeOk(t) && sp in t.nodes && dp in t.nodes && n in t.nodes[sp].Children()
    requires EntryOk(t, sp, n) && !Below(t, dp, t.nodes[sp].Children()[n]) && ValidName(m)
    requires x in t.nodes && (Below(t, x, t.nodes[sp].Children()[n]) ==> Alive(t, x))
    ensures TreeOk(MoveName(t, sp, n, dp, m))
    ensures PathOf(MoveName(t, sp, n, dp, m), x) == Moved(t, PathOf(t, x), x, sp, n, PathOf(t, dp) + [m])
  {
    var s, w := t.nodes[sp].Children()[n], RemoveName(t, sp, n);
    var r, u := Relocate(w, s, dp, m), MoveName(t, sp, n, dp, m);
    MoveNameOk(t, sp, n, dp, m);
    SameLinksSamePaths(t, w, x);
    SameLinksSamePaths(t, w, dp);
    SameLinksSamePaths(t, w, s);
    SameLinksSamePaths(r, u, x);
    if Below(t, x, s) {
      assert Alive(w, x);
      RelocateRewritesPath(w, s, dp, m, x);
    } else {
      RelocateKeepsPath(w, s, dp, m, x);
    }
  }

  function Suffix(p: Path, k: nat): Path {
    if k <= |p| then p[k..] else []
  }

  /** The path `p` of `x` after the child `n` of `sp` moved to the path `dest`. */
  ghost function Moved(t: Tree, p: Path, x: NodeId, sp: NodeId, n: Name, dest: Path): Path
    requires TreeOk(t) && x in t.nodes && sp in t.nodes && n in t.nodes[sp].Children()
  {
    var s := t.nodes[sp].Children()[n];
    if Below(t, x, s) then dest + Suffix(p, |PathOf(t, s)|) else p
  }

  ghost function RenameTree(t: Tree, sp: NodeId, n: Name, dp: NodeId, m: Name): Tree
    requires TreeOk(t) && RenameAllowed(t, sp, n, dp, m)
  {
    ReplaceTargetOk(t, sp, n, dp, m);
    MoveName(ReplaceTarget(t, sp, dp, m), sp, n, dp, m)
  }

  /** One name and one parent are changed; in the moved subtree the old path prefix becomes the
      new one, everywhere else paths stay, and the tree stays well formed. */
  lemma RenameRewritesPaths(t: Tree, sp: NodeId, n: Name, dp: NodeId, m: Name)
    requires TreeOk(t) && RenameAllowed(t, sp, n, dp, m)
    ensures var u := RenameTree(t, sp, n, dp, m);
            && TreeOk(u)
            && u.nodes.Keys == t.nodes.Keys - Target(t, dp, m)
            && forall x :: x in u.nodes && Alive(t, x) && (forall d :: d in Target(t, dp, m) ==> !Below(t, x, d)) ==>
                 PathOf(u, x) == Moved(t, PathOf(t, x), x, sp, n, PathOf(t, dp) + [m])
  {
    var u := RenameTree(t, sp, n, dp, m);
    RenameTreeOk(t, sp, n, dp, m);
    forall x | x in u.nodes && Alive(t, x) && (forall d :: d in Target(t, dp, m) ==> !Below(t, x, d))
      ensures PathOf(u, x) == Moved(t, PathOf(t, x), x, sp, n, PathOf(t, dp) + [m])
    {
      RenamePath(t, sp, n, dp, m, x);
    }
  }

  lemma RenameTreeOk(t: Tree, sp: NodeId, n: Name, dp: NodeId, m: Name)
    requires TreeOk(t) && RenameAllowed(t, sp, n, dp, m)
    ensures TreeOk(RenameTree(t, sp, n, dp, m))
    ensures RenameTree(t, sp, n, dp, m).nodes.Keys == t.nodes.Keys - Target(t, dp, m)
  {
    var v := ReplaceTarget(t, sp, dp, m);
    ReplaceTargetOk(t, sp, n, dp, m);
    assert EntryOk(v, sp, n) && !Below(v, dp, v.nodes[sp].Children()[n]);
    MoveNameOk(v, sp, n, dp, m);
  }

  lemma RenamePath(t: Tree, sp: NodeId, n: Name, dp: NodeId, m: Name, x: NodeId)
    requires TreeOk(t) && RenameAllowed(t, sp, n, dp, m)
    requires x in t.nodes && Alive(t, x) && forall d :: d in Target(t, dp, m) ==> !Below(t, x, d)
    ensures TreeOk(RenameTree(t, sp, n, dp, m))
    ensures PathOf(RenameTree(t, sp, n, dp, m), x) == Moved(t, PathOf(t, x), x, sp, n, PathOf(t, dp) + [m])
  {
    var v, s := ReplaceTarget(t, sp, dp, m), t.nodes[sp].Children()[n];
    ReplaceTargetOk(t, sp, n, dp, m);
    ReplaceTargetPath(t, sp, n, dp, m, x);
    NotBelowTarget(t, sp, n, dp, m);
    ReplaceTargetPath(t, sp, n, dp, m, dp);
    ReplaceTargetPath(t, sp, n, dp, m, s);
    assert EntryOk(v, sp, n) && !Below(v, dp, s);
    assert x in v.nodes && Alive(v, x);
    MoveNamePath(v, sp, n, dp, m, x);
  }

  lemma NotBelowTarget(t: Tree, sp: NodeId, n: Name, dp: NodeId, m: Name)
    requires TreeOk(t) && RenameAllowed(t, sp, n, dp, m)
    ensures forall d :: d in Target(t, dp, m) ==> !Below(t, dp, d) && !Below(t, t.nodes[sp].Children()[n], d)
  {
    if m in t.nodes[dp].Children() {
      TargetApart(t, sp, n, dp, m);
    }
  }

  // ---- The exchange branch ----

  /** What `renameat2` guarantees of an exchange that succeeded: neither entry is above the other. */
  ghost predicate ExchangeAllowed(t: Tree, sp: NodeId, n: Name, dp: NodeId, m: Name)
    requires TreeOk(t)
  {
    && sp in t.nodes && dp in t.nodes && n in t.nodes[sp].Children() && m in t.nodes[dp].Children()
    && EntryOk(t, sp, n) && EntryOk(t, dp, m)
    && !Below(t, t.nodes[sp].Children()[n], t.nodes[dp].Children()[m])
    && !Below(t, t.nodes[dp].Children()[m], t.nodes[sp].Children()[n])
  }

  /** Both names removed from their directories, both directories marked for a new scan. */
  function Unlink(t: Tree, sp: NodeId, n: Name, dp: NodeId, m: Name): Tree
    requires sp in t.nodes && dp in t.nodes
  {
    RemoveName(RemoveName(Unload(Unload(t, sp), dp), sp, n), dp, m)
  }

  ghost function ExchangeTree(t: Tree, sp: NodeId, n: Name, dp: NodeId, m: Name): Tree
    requires TreeOk(t) && ExchangeAllowed(t, sp, n, dp, m)
  {
    var s, d := t.nodes[sp].Children()[n], t.nodes[dp].Children()[m];
    var w := SwapNodes(Unlink(t, sp, n, dp, m), sp, n, dp, m, s, d);
    InsertName(InsertName(Unload(Unload(w, s), d), dp, m, s), sp, n, d)
  }

  lemma UnlinkOk(t: Tree, sp: NodeId, n: Name, dp: NodeId, m: Name)
    requires TreeOk(t) && ExchangeAllowed(t, sp, n, dp, m)
    ensures var v := Unlink(t, sp, n, dp, m);
            && TreeOk(v) && SameLinks(t, v)
            && Unlisted(v, t.nodes[sp].Children()[n]) && Unlisted(v, t.nodes[dp].Children()[m])
  {
    var u := Unload(Unload(t, sp), dp);
    UnloadBothOk(t, sp, dp);
    RemovedIsUnlisted(u, sp, n);
    var u1, v := RemoveName(u, sp, n), Unlink(t, sp, n, dp, m);
    RemoveNameOk(u1, dp, m);
    StillUnlisted(u1, dp, m, t.nodes[sp].Children()[n]);
    if (sp, n) != (dp, m) {
      RemovedIsUnlisted(u1, dp, m);
    }
  }

  lemma StillUnlisted(t: Tree, d: NodeId, n: Name, c: NodeId)
    requires d in t.nodes && Unlisted(t, c)
    ensures Unlisted(RemoveName(t, d, n), c)
  {
    var u := RemoveName(t, d, n);
    forall e, m | e in u.nodes && m in u.nodes[e].Children()
      ensures u.nodes[e].Children()[m] != c
    {
      assert m in t.nodes[e].Children();
    }
  }

  /** Two nodes that are in no children map and not above one another trade places. */
  ghost predicate CanSwap(t: Tree, sp: NodeId, n: Name, dp: NodeId, m: Name, s: NodeId, d: NodeId) {
    && TreeOk(t) && {s, d, sp, dp} <= t.nodes.Keys && t.root !in {s, d}
    && Unlisted(t, s) && Unlisted(t, d) && ValidName(n) && ValidName(m)
    && t.nodes[s].parent == Some(sp) && t.nodes[d].parent == Some(dp)
    && !Below(t, s, d) && !Below(t, d, s)
  }

  lemma SwapNodesOk(t: Tree, sp: NodeId, n: Name, dp: NodeId, m: Name, s: NodeId, d: NodeId)
    requires CanSwap(t, sp, n, dp, m, s, d)
    ensures !Below(t, sp, d) && !Below(t, dp, s) && !Below(t, sp, s) && !Below(t, dp, d)
    ensures TreeOk(Relocate(t, s, dp, m)) && !Below(Relocate(t, s, dp, m), sp, d)
    ensures TreeOk(SwapNodes(t, sp, n, dp, m, s, d))
  {
    SwapApart(t, sp, n, dp, m, s, d);
    RelocateOk(t, s, dp, m);
    var w := Relocate(t, s, dp, m);
    RehangKept(t.chains, s, t.chains[dp], sp);
    assert Unlisted(w, d);
    RelocateOk(w, d, sp, n);
  }

  lemma SwapApart(t: Tree, sp: NodeId, n: Name, dp: NodeId, m: Name, s: NodeId, d: NodeId)
    requires CanSwap(t, sp, n, dp, m, s, d)
    ensures !Below(t, sp, d) && !Below(t, dp, s) && !Below(t, sp, s) && !Below(t, dp, d)
  {
    BelowParent(t, s, d);
    BelowParent(t, d, s);
    NotAboveParent(t, s);
    NotAboveParent(t, d);
  }

  lemma NotAboveParent(t: Tree, c: NodeId)
    requires TreeOk(t) && c in t.nodes && c != t.root
    ensures LinkOk(t, c) && !Below(t, t.nodes[c].parent.value, c)
  {
    assert LinkOk(t, c);
    var p := t.nodes[c].parent.value;
    if Below(t, p, c) {
      SrcPosition(t.chains, c, p);
      assert false;
    }
  }

  /** Below the one node, the path starts with the other's old path; all other paths stay. */
  ghost function Swapped(t: Tree, x: NodeId, s: NodeId, d: NodeId, sPath: Path, dPath: Path): Path
    requires TreeOk(t) && x in t.nodes
  {
    if Below(t, x, s) then dPath + Suffix(PathOf(t, x), |PathOf(t, s)|)
    else if Below(t, x, d) then sPath + Suffix(PathOf(t, x), |PathOf(t, d)|)
    else PathOf(t, x)
  }

  lemma SwapNodesPath(t: Tree, sp: NodeId, n: Name, dp: NodeId, m: Name, s: NodeId, d: NodeId, x: NodeId)
    requires CanSwap(t, sp, n, dp, m, s, d) && x in t.nodes && Alive(t, x)
    ensures TreeOk(SwapNodes(t, sp, n, dp, m, s, d))
    ensures PathOf(SwapNodes(t, sp, n, dp, m, s, d), x)
            == Swapped(t, x, s, d, PathOf(t, sp) + [n], PathOf(t, dp) + [m])
  {
    SwapNodesOk(t, sp, n, dp, m, s, d);
    var w := Relocate(t, s, dp, m);
    assert LinkOk(w, d);
    if Below(t, x, s) {
      RelocateRewritesPath(t, s, dp, m, x);
      SwapSourceNotBelow(t, sp, n, dp, m, s, d, x);
      RelocateKeepsPath(w, d, sp, n, x);
    } else {
      RelocateKeepsPath(t, s, dp, m, x);
      RehangKept(t.chains, s, t.chains[dp], x);
      if Below(t, x, d) {
        assert Alive(w, x) by { assert w.chains[x] == t.chains[x]; }
        RelocateKeepsPath(t, s, dp, m, sp);
        RelocateKeepsPath(t, s, dp, m, d);
        RelocateRewritesPath(w, d, sp, n, x);
      } else {
        RelocateKeepsPath(w, d, sp, n, x);
      }
    }
  }

  lemma SwapSourceNotBelow(t: Tree, sp: NodeId, n: Name, dp: NodeId, m: Name, s: NodeId, d: NodeId, x: NodeId)
    requires CanSwap(t, sp, n, dp, m, s, d) && x in t.nodes && Below(t, x, s)
    ensures x in Relocate(t, s, dp, m).chains && !Below(Relocate(t, s, dp, m), x, d)
  {
    SwapApart(t, sp, n, dp, m, s, d);
    var k := Depth(t.chains, s);
    SrcPosition(t.chains, s, x);
    assert d !in t.chains[x][k..] by {
      forall j | 0 <= j < |t.chains[x][k..]|
        ensures t.chains[x][k..][j] != d
      {
        assert ChainOk(t.chains, x);
        var a := t.chains[x][k + j];
        assert t.chains[a] == t.chains[x][..k + j + 1];
        assert t.chains[a][k] == s;
      }
    }
  }

  lemma ExchangeCanSwap(t: Tree, sp: NodeId, n: Name, dp: NodeId, m: Name)
    requires TreeOk(t) && ExchangeAllowed(t, sp, n, dp, m)
    ensures CanSwap(Unlink(t, sp, n, dp, m), sp, n, dp, m, t.nodes[sp].Children()[n], t.nodes[dp].Children()[m])
    ensures SameLinks(t, Unlink(t, sp, n, dp, m))
  {
    var s, d := t.nodes[sp].Children()[n], t.nodes[dp].Children()[m];
    UnlinkOk(t, sp, n, dp, m);
    assert LinkOk(t, s) && LinkOk(t, d);
  }

  lemma ExchangeTreeOk(t: Tree, sp: NodeId, n: Name, dp: NodeId, m: Name)
    requires TreeOk(t) && ExchangeAllowed(t, sp, n, dp, m)
    ensures var s, d := t.nodes[sp].Children()[n], t.nodes[dp].Children()[m];
            var w := SwapNodes(Unlink(t, sp, n, dp, m), sp, n, dp, m, s, d);
            TreeOk(w) && TreeOk(ExchangeTree(t, sp, n, dp, m)) && SameLinks(w, ExchangeTree(t, sp, n, dp, m))
  {
    var s, d := t.nodes[sp].Children()[n], t.nodes[dp].Children()[m];
    ExchangeCanSwap(t, sp, n, dp, m);
    SwapNodesOk(Unlink(t, sp, n, dp, m), sp, n, dp, m, s, d);
    var w := SwapNodes(Unlink(t, sp, n, dp, m), sp, n, dp, m, s, d);
    assert s != d by { assert ChainOk(t.chains, s); }
    UnloadBothOk(w, s, d);
    var u := Unload(Unload(w, s), d);
    InsertNameOk(u, dp, m, s);
    InsertNameOk(InsertName(u, dp, m, s), sp, n, d);
  }

  /** The exchange branch swaps the two path prefixes and nothing else. */
  lemma ExchangeSwapsPaths(t: Tree, sp: NodeId, n: Name, dp: NodeId, m: Name)
    requires TreeOk(t) && ExchangeAllowed(t, sp, n, dp, m)
    ensures var s, d := t.nodes[sp].Children()[n], t.nodes[dp].Children()[m];
            var u := ExchangeTree(t, sp, n, dp, m);
            && TreeOk(u) && u.nodes.Keys == t.nodes.Keys
            && forall x :: x in u.nodes && Alive(t, x) ==>
                 PathOf(u, x) == Swapped(t, x, s, d, PathOf(t, s), PathOf(t, d))
  {
    var s, d := t.nodes[sp].Children()[n], t.nodes[dp].Children()[m];
    var u := ExchangeTree(t, sp, n, dp, m);
    ExchangeTreeOk(t, sp, n, dp, m);
    ExchangeKeys(t, sp, n, dp, m);
    forall x | x in u.nodes && Alive(t, x)
      ensures PathOf(u, x) == Swapped(t, x, s, d, PathOf(t, s), PathOf(t, d))
    {
      ExchangePath(t, sp, n, dp, m, x);
    }
  }

  lemma ExchangeKeys(t: Tree, sp: NodeId, n: Name, dp: NodeId, m: Name)
    requires TreeOk(t) && ExchangeAllowed(t, sp, n, dp, m)
    ensures ExchangeTree(t, sp, n, dp, m).nodes.Keys == t.nodes.Keys
  {
    ExchangeCanSwap(t, sp, n, dp, m);
    ExchangeTreeOk(t, sp, n, dp, m);
    SwapKeys(Unlink(t, sp, n, dp, m), sp, n, dp, m, t.nodes[sp].Children()[n], t.nodes[dp].Children()[m]);
  }

  lemma SwapKeys(t: Tree, sp: NodeId, n: Name, dp: NodeId, m: Name, s: NodeId, d: NodeId)
    requires CanSwap(t, sp, n, dp, m, s, d)
    ensures SwapNodes(t, sp, n, dp, m, s, d).nodes.Keys == t.nodes.Keys
  {}

  lemma ExchangePath(t: Tree, sp: NodeId, n: Name, dp: NodeId, m: Name, x: NodeId)
    requires TreeOk(t) && ExchangeAllowed(t, sp, n, dp, m) && x in t.nodes && Alive(t, x)
    ensures TreeOk(ExchangeTree(t, sp, n, dp, m))
    ensures var s, d := t.nodes[sp].Children()[n], t.nodes[dp].Children()[m];
            PathOf(ExchangeTree(t, sp, n, dp, m), x) == Swapped(t, x, s, d, PathOf(t, s), PathOf(t, d))
  {
    var s, d := t.nodes[sp].Children()[n], t.nodes[dp].Children()[m];
    var v := Unlink(t, sp, n, dp, m);
    ExchangeTreeOk(t, sp, n, dp, m);
    ExchangeCanSwap(t, sp, n, dp, m);
    assert Alive(v, x);
    SwapNodesPath(v, sp, n, dp, m, s, d, x);
    SameLinksSamePaths(SwapNodes(v, sp, n, dp, m, s, d), ExchangeTree(t, sp, n, dp, m), x);
    SwappedKept(t, v, x, s, d, PathOf(v, sp) + [n], PathOf(v, dp) + [m]);
    SameLinksSamePaths(t, v, sp);
    SameLinksSamePaths(t, v, dp);
    ChildPathOfEntry(t, sp, n);
    ChildPathOfEntry(t, dp, m);
  }

  lemma SwappedKept(t: Tree, v: Tree, x: NodeId, s: NodeId, d: NodeId, sPath: Path, dPath: Path)
    requires TreeOk(t) && TreeOk(v) && SameLinks(t, v) && x in t.nodes
    ensures Swapped(v, x, s, d, sPath, dPath) == Swapped(t, x, s, d, sPath, dPath)
  {
    SameLinksSamePaths(t, v, x);
    SameLinksSamePaths(t, v, s);
    SameLinksSamePaths(t, v, d);
  }

  // ---- Runs ----

  /** The tree effect of one operation. Lookup, scan, create and link insert children; copy-up,
      lookup and scan update a node in place; refresh empties a directory before a scan. */
  datatype TreeOp =
    | OpInsert(d: NodeId, node: Node)
    | OpUpdate(id: NodeId, updated: Node)
    | OpRemove(d: NodeId, n: Name)
    | OpRename(sp: NodeId, n: Name, dp: NodeId, m: Name)
    | OpExchange(sp: NodeId, n: Name, dp: NodeId, m: Name)
    | OpRefresh(d: NodeId)

  ghost predicate Enabled(t: Tree, op: TreeOp)
    requires TreeOk(t)
  {
    match op
    case OpInsert(d, node) =>
      d in t.nodes && t.nodes[d].IsDir() && ValidName(node.name) && node.Children() == map[]
      && node.name !in t.nodes[d].Children()
    case OpUpdate(id, node) =>
      && id in t.nodes && node.parent == t.nodes[id].parent && node.name == t.nodes[id].name
      && node.Children() == t.nodes[id].Children() && (node.IsDir() <==> t.nodes[id].IsDir())
    case OpRemove(d, n) => d in t.nodes && n in t.nodes[d].Children()
    case OpRename(sp, n, dp, m) => RenameAllowed(t, sp, n, dp, m)
    case OpExchange(sp, n, dp, m) => ExchangeAllowed(t, sp, n, dp, m)
    case OpRefresh(d) => d in t.nodes
  }

  ghost function Apply(t: Tree, op: TreeOp): Tree
    requires TreeOk(t) && Enabled(t, op)
  {
    match op
    case OpInsert(d, node) => InsertChild(t, d, node)
    case OpUpdate(id, node) => SetNode(t, id, node)
    case OpRemove(d, n) => RmTree(t, d, n)
    case OpRename(sp, n, dp, m) => RenameTree(t, sp, n, dp, m)
    case OpExchange(sp, n, dp, m) => ExchangeTree(t, sp, n, dp, m)
    case OpRefresh(d) => SetNode(t, d, t.nodes[d].ClearChildren())
  }

  lemma ApplyOk(t: Tree, op: TreeOp)
    requires TreeOk(t) && Enabled(t, op)
    ensures TreeOk(Apply(t, op))
  {
    match op
    case OpInsert(d, node) => InsertChildOk(t, d, node);
    case OpUpdate(id, node) => SetNodeOk(t, id, node);
    case OpRemove(d, n) => RmTreeOk(t, d, n);
    case OpRename(sp, n, dp, m) => RenameTreeOk(t, sp, n, dp, m);
    case OpExchange(sp, n, dp, m) => ExchangeTreeOk(t, sp, n, dp, m);
    case OpRefresh(d) => ClearOk(t, d);
  }

  /** A fresh mount: the root alone, an empty directory on layer 0. */
  function MountTree(): Tree {
    Tree(map[1 := NewNode("", 0, InodeKey(0, 0), true)], 2, 1, map[1 := [1]])
  }

  /** A run of the engine, as the trees it goes through. */
  ghost predicate IsRun(run: seq<Tree>, ops: seq<TreeOp>) {
    && |run| == |ops| + 1 && run[0] == MountTree()
    && forall i :: 0 <= i < |ops| ==> IsStep(run[i], ops[i], run[i + 1])
  }

  ghost predicate IsStep(t: Tree, op: TreeOp, u: Tree) {
    TreeOk(t) ==> Enabled(t, op) && u == Apply(t, op)
  }

  /** In every state of every run the tree is well formed: children entries agree with the
      nodes they name and no parent chain is cyclic. */
  lemma {:induction false} RunKeepsTree(run: seq<Tree>, ops: seq<TreeOp>, i: nat)
    requires IsRun(run, ops) && i < |run|
    ensures TreeOk(run[i])
  {
    if i == 0 {
      assert TreeOk(MountTree());
    } else {
      RunKeepsTree(run, ops, i - 1);
      assert IsStep(run[i - 1], ops[i - 1], run[i - 1 + 1]);
      ApplyOk(run[i - 1], ops[i - 1]);
    }
  }

  /** So in every state of every run, two different nodes that are reached through children
      maps have different `compute_path` strings. */
  lemma RunKeepsPathsDistinct(run: seq<Tree>, ops: seq<TreeOp>, i: nat, x: NodeId, y: NodeId)
    requires IsRun(run, ops) && i < |run|
    ensures TreeOk(run[i])
    ensures Attached(run[i], x) && Attached(run[i], y) && x != y ==>
              Render(PathOf(run[i], x)) != Render(PathOf(run[i], y))
  {
    RunKeepsTree(run, ops, i);
    if Attached(run[i], x) && Attached(run[i], y) && x != y {
      DistinctRenderedPaths(run[i], x, y);
    }
  }
}
