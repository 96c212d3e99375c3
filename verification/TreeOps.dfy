/** The steps by which the overlay engine changes the node tree, and what each of them keeps:
    inserting and removing nodes and names (src/node.rs, src/overlay.rs), and the two branches
    of `rename`, which move a subtree by changing one name and one parent. */
module TreeOps {
  import opened Wrappers
  import opened Names
  import opened NodeTree

  // ---- Primitive steps ----

  /** A new node under a parent, not yet in its children map. */
  function AddNode(t: Tree, p: NodeId, node: Node): Tree
    requires p in t.chains
  {
    Tree(t.nodes[t.nextId := node.(parent := Some(p))], t.nextId + 1, t.root,
         t.chains[t.nextId := t.chains[p] + [t.nextId]])
  }

  function InsertName(t: Tree, d: NodeId, n: Name, c: NodeId): Tree
    requires d in t.nodes
  {
    t.(nodes := t.nodes[d := t.nodes[d].InsertChild(n, c)])
  }

  function RemoveName(t: Tree, d: NodeId, n: Name): Tree
    requires d in t.nodes
  {
    t.(nodes := t.nodes[d := t.nodes[d].RemoveChild(n)])
  }

  function DeleteNode(t: Tree, c: NodeId): Tree {
    t.(nodes := t.nodes - {c})
  }

  /** Everything about a node but its name, its parent and its children may change. */
  function SetNode(t: Tree, id: NodeId, node: Node): Tree {
    t.(nodes := t.nodes[id := node])
  }

  function Depth(ch: Chains, id: NodeId): nat
    requires id in ch
  {
    if ch[id] == [] then 0 else |ch[id]| - 1
  }

  /** The chain of a node in the subtree that hangs at depth `k` below `src`, moved under `prefix`. */
  function RehangChain(chain: seq<NodeId>, src: NodeId, k: nat, prefix: seq<NodeId>): seq<NodeId> {
    if src in chain && k <= |chain| then prefix + chain[k..] else chain
  }

  function Rehang(ch: Chains, src: NodeId, prefix: seq<NodeId>): Chains
    requires src in ch
  {
    map id | id in ch :: RehangChain(ch[id], src, Depth(ch, src), prefix)
  }

  /** Changing the name and the parent of one node moves its whole subtree. */
  function Relocate(t: Tree, c: NodeId, p: NodeId, m: Name): Tree
    requires c in t.nodes && c in t.chains && p in t.chains
  {
    Tree(t.nodes[c := t.nodes[c].(parent := Some(p), name := m)], t.nextId, t.root,
         Rehang(t.chains, c, t.chains[p]))
  }

  // ---- Each primitive step keeps the tree well formed ----

  ghost predicate SameLinks(s: Tree, t: Tree) {
    && t.root == s.root && t.chains == s.chains && t.nodes.Keys == s.nodes.Keys
    && forall id :: id in s.nodes ==> t.nodes[id].parent == s.nodes[id].parent && t.nodes[id].name == s.nodes[id].name
  }

  lemma {:induction false} SameLinksSamePaths(s: Tree, t: Tree, id: NodeId)
    requires TreeOk(s) && TreeOk(t) && SameLinks(s, t)
    ensures PathOf(t, id) == PathOf(s, id)
    decreases if id in s.chains then |s.chains[id]| else 0
  {
    if id in s.nodes && id != s.root {
      assert LinkOk(s, id);
      SameLinksSamePaths(s, t, s.nodes[id].parent.value);
    }
  }

  lemma AddNodeOk(t: Tree, p: NodeId, node: Node)
    requires TreeOk(t) && p in t.nodes && ValidName(node.name) && node.Children() == map[]
    ensures TreeOk(AddNode(t, p, node))
    ensures PathOf(AddNode(t, p, node), t.nextId) == PathOf(t, p) + [node.name]
    ensures forall id :: id in t.nodes ==> PathOf(AddNode(t, p, node), id) == PathOf(t, id)
  {
    AddedTreeOk(t, p, node);
    forall x | x in t.nodes
      ensures PathOf(AddNode(t, p, node), x) == PathOf(t, x)
    {
      AddNodePath(t, p, node, x);
    }
    assert LinkOk(AddNode(t, p, node), t.nextId);
  }

  lemma AddedTreeOk(t: Tree, p: NodeId, node: Node)
    requires TreeOk(t) && p in t.nodes && ValidName(node.name) && node.Children() == map[]
    ensures TreeOk(AddNode(t, p, node))
  {
    var u := AddNode(t, p, node);
    var id := t.nextId;
    assert id !in t.chains;
    NewChainOk(t.chains, p, id);
    forall x | x in u.nodes
      ensures LinkOk(u, x)
    {
      if x != id {
        assert LinkOk(t, x);
      }
    }
    forall d, n | d in u.nodes && n in u.nodes[d].Children()
      ensures EntryOk(u, d, n)
    {
      assert EntryOk(t, d, n);
    }
  }

  lemma NewChainOk(ch: Chains, p: NodeId, id: NodeId)
    requires ChainsOk(ch) && p in ch && id !in ch
    ensures ChainsOk(ch[id := ch[p] + [id]])
  {
    var r := ch[id := ch[p] + [id]];
    forall x | x in r
      ensures ChainOk(r, x)
    {
      if x == id {
        assert ChainOk(ch, p);
        forall j | 0 <= j < |r[id]|
          ensures r[id][j] in r && r[r[id][j]] == r[id][..j + 1]
        {
          if j < |ch[p]| {
            assert ch[p][..j + 1] == r[id][..j + 1];
          } else {
            assert r[id][..j + 1] == r[id];
          }
        }
      } else {
        assert ChainOk(ch, x);
      }
    }
  }

  lemma {:induction false} AddNodePath(t: Tree, p: NodeId, node: Node, x: NodeId)
    requires TreeOk(t) && p in t.nodes && TreeOk(AddNode(t, p, node))
    requires x != t.nextId
    ensures PathOf(AddNode(t, p, node), x) == PathOf(t, x)
    decreases if x in t.chains then |t.chains[x]| else 0
  {
    if x in t.nodes && x != t.root {
      assert LinkOk(t, x);
      AddNodePath(t, p, node, t.nodes[x].parent.value);
    }
  }

  lemma InsertNameOk(t: Tree, d: NodeId, n: Name, c: NodeId)
    requires TreeOk(t) && d in t.nodes && c in t.nodes
    requires t.nodes[c].parent == Some(d) && t.nodes[c].name == n
    ensures TreeOk(InsertName(t, d, n, c)) && SameLinks(t, InsertName(t, d, n, c))
  {
    var u := InsertName(t, d, n, c);
    forall x | x in u.nodes
      ensures LinkOk(u, x)
    {
      assert LinkOk(t, x);
    }
    forall e, m | e in u.nodes && m in u.nodes[e].Children()
      ensures EntryOk(u, e, m)
    {
      if (e, m) != (d, n) {
        assert m in t.nodes[e].Children();
        assert EntryOk(t, e, m);
      }
    }
  }

  lemma RemoveNameOk(t: Tree, d: NodeId, n: Name)
    requires TreeOk(t) && d in t.nodes
    ensures TreeOk(RemoveName(t, d, n)) && SameLinks(t, RemoveName(t, d, n))
  {
    var u := RemoveName(t, d, n);
    forall x | x in u.nodes
      ensures LinkOk(u, x)
    {
      assert LinkOk(t, x);
    }
    forall e, m | e in u.nodes && m in u.nodes[e].Children()
      ensures EntryOk(u, e, m)
    {
      assert m in t.nodes[e].Children();
      assert EntryOk(t, e, m);
    }
  }

  /** The node is in no children map. */
  ghost predicate Unlisted(t: Tree, c: NodeId) {
    forall d, n :: d in t.nodes && n in t.nodes[d].Children() ==> t.nodes[d].Children()[n] != c
  }

  lemma DeleteNodeOk(t: Tree, c: NodeId)
    requires TreeOk(t) && c != t.root && Unlisted(t, c)
    ensures TreeOk(DeleteNode(t, c))
    ensures forall id :: id in t.nodes && !Below(t, id, c) ==> PathOf(DeleteNode(t, c), id) == PathOf(t, id)
  {
    var u := DeleteNode(t, c);
    forall x | x in u.nodes
      ensures LinkOk(u, x)
    {
      assert LinkOk(t, x);
    }
    forall e, m | e in u.nodes && m in u.nodes[e].Children()
      ensures EntryOk(u, e, m)
    {
      assert EntryOk(t, e, m);
    }
    forall id | id in t.nodes && !Below(t, id, c)
      ensures PathOf(u, id) == PathOf(t, id)
    {
      DeleteNodePath(t, c, id);
    }
  }

  lemma {:induction false} DeleteNodePath(t: Tree, c: NodeId, x: NodeId)
    requires TreeOk(t) && TreeOk(DeleteNode(t, c)) && x in t.chains && !Below(t, x, c)
    ensures PathOf(DeleteNode(t, c), x) == PathOf(t, x)
    decreases |t.chains[x]|
  {
    assert ChainOk(t.chains, x);
    if x in t.nodes && x != t.root {
      assert LinkOk(t, x);
      DeleteNodePath(t, c, t.nodes[x].parent.value);
    }
  }

  /** Layer numbers, whiteouts and the loaded flag play no part in the tree. */
  lemma SetNodeOk(t: Tree, id: NodeId, node: Node)
    requires TreeOk(t) && id in t.nodes
    requires node.parent == t.nodes[id].parent && node.name == t.nodes[id].name
    requires node.Children() == t.nodes[id].Children() && (node.IsDir() <==> t.nodes[id].IsDir())
    ensures TreeOk(SetNode(t, id, node)) && SameLinks(t, SetNode(t, id, node))
  {
    var u := SetNode(t, id, node);
    forall x | x in u.nodes
      ensures LinkOk(u, x)
    {
      assert LinkOk(t, x);
    }
    forall e, m | e in u.nodes && m in u.nodes[e].Children()
      ensures EntryOk(u, e, m)
    {
      assert EntryOk(t, e, m);
    }
  }

  /** Where the moved node stands in the chain of a node below it. */
  lemma SrcPosition(ch: Chains, src: NodeId, id: NodeId)
    requires ChainsOk(ch) && id in ch && src in ch[id]
    ensures src in ch && 0 < |ch[src]| <= |ch[id]| && ch[src] == ch[id][..|ch[src]|]
    ensures ch[id][|ch[src]| - 1] == src
  {
    assert ChainOk(ch, id);
    var j :| 0 <= j < |ch[id]| && ch[id][j] == src;
    assert ch[src] == ch[id][..j + 1];
  }

  lemma RehangOk(ch: Chains, src: NodeId, p: NodeId)
    requires ChainsOk(ch) && src in ch && p in ch && src !in ch[p]
    ensures ChainsOk(Rehang(ch, src, ch[p]))
  {
    var r := Rehang(ch, src, ch[p]);
    forall id | id in r
      ensures ChainOk(r, id)
    {
      if src in ch[id] {
        RehangMoved(ch, src, p, id);
      } else {
        RehangKept(ch, src, ch[p], id);
      }
    }
  }

  lemma RehangKept(ch: Chains, src: NodeId, prefix: seq<NodeId>, id: NodeId)
    requires ChainsOk(ch) && src in ch && id in ch && src !in ch[id]
    ensures Rehang(ch, src, prefix)[id] == ch[id]
    ensures ChainOk(Rehang(ch, src, prefix), id)
  {
    assert ChainOk(ch, id);
    var r := Rehang(ch, src, prefix);
    forall j | 0 <= j < |r[id]|
      ensures r[id][j] in r && r[r[id][j]] == r[id][..j + 1]
    {
      assert ch[ch[id][j]] == ch[id][..j + 1];
      assert src !in ch[id][..j + 1];
    }
  }

  lemma RehangMoved(ch: Chains, src: NodeId, p: NodeId, id: NodeId)
    requires ChainsOk(ch) && src in ch && p in ch && src !in ch[p]
    requires id in ch && src in ch[id]
    ensures ChainOk(Rehang(ch, src, ch[p]), id)
  {
    var r, k := Rehang(ch, src, ch[p]), Depth(ch, src);
    assert ChainOk(ch, id);
    SrcPosition(ch, src, id);
    assert r[id] == ch[p] + ch[id][k..];
    forall j | 0 <= j < |r[id]|
      ensures r[id][j] in r && r[r[id][j]] == r[id][..j + 1]
    {
      if j < |ch[p]| {
        RehangKept(ch, src, ch[p], p);
        assert ChainOk(r, p) && r[p] == ch[p];
        assert r[id][..j + 1] == ch[p][..j + 1];
      } else {
        RehangMovedTail(ch, src, ch[p], id, k + (j - |ch[p]|));
        assert r[id][..j + 1] == ch[p] + ch[id][k..k + (j - |ch[p]|) + 1];
      }
    }
  }

  lemma RehangMovedTail(ch: Chains, src: NodeId, prefix: seq<NodeId>, id: NodeId, i: nat)
    requires ChainsOk(ch) && src in ch && id in ch && src in ch[id]
    requires Depth(ch, src) <= i < |ch[id]|
    ensures ch[id][i] in ch
    ensures Rehang(ch, src, prefix)[ch[id][i]] == prefix + ch[id][Depth(ch, src)..i + 1]
  {
    var k := Depth(ch, src);
    assert ChainOk(ch, id);
    SrcPosition(ch, src, id);
    var a := ch[id][i];
    assert ch[a] == ch[id][..i + 1];
    assert ch[a][k] == src;
    assert ch[a][k..] == ch[id][k..i + 1];
  }

  /** Moving a node that is in no children map, to a parent outside its own subtree. */
  lemma RelocateOk(t: Tree, c: NodeId, p: NodeId, m: Name)
    requires TreeOk(t) && c in t.nodes && c != t.root && p in t.nodes && !Below(t, p, c)
    requires Unlisted(t, c) && ValidName(m)
    ensures TreeOk(Relocate(t, c, p, m))
  {
    var u := Relocate(t, c, p, m);
    RehangOk(t.chains, c, p);
    RehangKept(t.chains, c, t.chains[p], t.root);
    forall x | x in u.nodes
      ensures LinkOk(u, x)
    {
      RelocateLink(t, c, p, m, x);
    }
    forall e, n | e in u.nodes && n in u.nodes[e].Children()
      ensures EntryOk(u, e, n)
    {
      assert n in t.nodes[e].Children();
      assert EntryOk(t, e, n);
    }
  }

  lemma RelocateLink(t: Tree, c: NodeId, p: NodeId, m: Name, x: NodeId)
    requires TreeOk(t) && c in t.nodes && c != t.root && p in t.nodes && !Below(t, p, c)
    requires ValidName(m) && x in t.nodes
    ensures LinkOk(Relocate(t, c, p, m), x)
  {
    if x == c {
      RelocatedLink(t, c, p, m);
    } else if x != t.root {
      assert LinkOk(t, x);
      RehangChild(t.chains, c, p, t.nodes[x].parent.value, x);
    }
  }

  lemma RelocatedLink(t: Tree, c: NodeId, p: NodeId, m: Name)
    requires TreeOk(t) && c in t.nodes && c != t.root && p in t.nodes && !Below(t, p, c) && ValidName(m)
    ensures LinkOk(Relocate(t, c, p, m), c)
  {
    var ch := t.chains;
    assert ChainOk(ch, c);
    RehangKept(ch, c, ch[p], p);
    assert ch[c][|ch[c]| - 1..] == [c];
  }

  /** A chain that extends another one still does. */
  lemma RehangChild(ch: Chains, c: NodeId, p: NodeId, q: NodeId, x: NodeId)
    requires ChainsOk(ch) && c in ch && p in ch && q in ch && x in ch && ch[x] == ch[q] + [x] && x != c
    ensures Rehang(ch, c, ch[p])[x] == Rehang(ch, c, ch[p])[q] + [x]
  {
    if c in ch[q] {
      SrcPosition(ch, c, q);
      assert ch[x][Depth(ch, c)..] == ch[q][Depth(ch, c)..] + [x];
    } else {
      assert c !in ch[x];
    }
  }

  lemma AliveParent(t: Tree, x: NodeId)
    requires TreeOk(t) && x in t.nodes && x != t.root && Alive(t, x)
    ensures LinkOk(t, x) && t.nodes[x].parent.value in t.nodes && Alive(t, t.nodes[x].parent.value)
  {
    assert LinkOk(t, x);
    var p := t.nodes[x].parent.value;
    assert ChainOk(t.chains, p);
    assert forall a :: a in t.chains[p] ==> a in t.chains[x];
  }

  /** The effect on paths outside the moved subtree: none. */
  lemma {:induction false} RelocateKeepsPath(t: Tree, c: NodeId, p: NodeId, m: Name, x: NodeId)
    requires TreeOk(t) && c in t.nodes && p in t.chains && TreeOk(Relocate(t, c, p, m))
    requires x in t.chains && !Below(t, x, c)
    ensures PathOf(Relocate(t, c, p, m), x) == PathOf(t, x)
    decreases |t.chains[x]|
  {
    var u := Relocate(t, c, p, m);
    assert ChainOk(t.chains, x);
    if x in t.nodes && x != t.root {
      assert LinkOk(t, x) && LinkOk(u, x);
      RelocateKeepsPath(t, c, p, m, t.nodes[x].parent.value);
    }
  }

  /** The effect on paths inside it: the old prefix is replaced by the new one. */
  lemma {:induction false} RelocateRewritesPath(t: Tree, c: NodeId, p: NodeId, m: Name, x: NodeId)
    requires TreeOk(t) && c in t.nodes && p in t.chains && c != t.root && TreeOk(Relocate(t, c, p, m))
    requires !Below(t, p, c)
    requires x in t.nodes && Alive(t, x) && Below(t, x, c)
    ensures |PathOf(t, c)| <= |PathOf(t, x)| && PathOf(t, c) == PathOf(t, x)[..|PathOf(t, c)|]
    ensures PathOf(Relocate(t, c, p, m), x) == PathOf(t, p) + [m] + PathOf(t, x)[|PathOf(t, c)|..]
    decreases |t.chains[x]|
  {
    if x == c {
      RelocatedNodePath(t, c, p, m);
    } else {
      var q := ParentBelow(t, c, x);
      RelocateRewritesPath(t, c, p, m, q);
      PathStep(Relocate(t, c, p, m), x);
      RewriteStep(PathOf(t, c), PathOf(t, q), PathOf(Relocate(t, c, p, m), q), PathOf(t, p) + [m], t.nodes[x].name);
    }
  }

  lemma RelocatedNodePath(t: Tree, c: NodeId, p: NodeId, m: Name)
    requires TreeOk(t) && c in t.nodes && p in t.chains && c != t.root && TreeOk(Relocate(t, c, p, m)) && !Below(t, p, c)
    ensures PathOf(Relocate(t, c, p, m), c) == PathOf(t, p) + [m] + PathOf(t, c)[|PathOf(t, c)|..]
  {
    PathStep(Relocate(t, c, p, m), c);
    RelocateKeepsPath(t, c, p, m, p);
    assert PathOf(t, c)[|PathOf(t, c)|..] == [];
  }

  /** The parent of a node strictly below another is below it as well. */
  lemma ParentBelow(t: Tree, c: NodeId, x: NodeId) returns (q: NodeId)
    requires TreeOk(t) && c != t.root && x in t.nodes && x != c && Alive(t, x) && Below(t, x, c)
    ensures x != t.root && t.nodes[x].parent == Some(q) && q in t.nodes && Alive(t, q) && Below(t, q, c)
    ensures |t.chains[q]| < |t.chains[x]| && PathOf(t, x) == PathOf(t, q) + [t.nodes[x].name]
  {
    RootNotBelow(t, c);
    PathStep(t, x);
    q := t.nodes[x].parent.value;
    AliveParent(t, x);
  }

  /** One more name on both sides. */
  lemma RewriteStep(c: Path, q: Path, uq: Path, dest: Path, n: Name)
    requires |c| <= |q| && c == q[..|c|] && uq == dest + q[|c|..]
    ensures |c| <= |q + [n]| && c == (q + [n])[..|c|] && uq + [n] == dest + (q + [n])[|c|..]
  {
    SuffixSnoc(dest, q, n, |c|);
  }

  lemma PathStep(t: Tree, x: NodeId)
    requires TreeOk(t) && x in t.nodes && x != t.root
    ensures LinkOk(t, x) && PathOf(t, x) == PathOf(t, t.nodes[x].parent.value) + [t.nodes[x].name]
  {
    assert LinkOk(t, x);
  }

  lemma SuffixSnoc(prefix: Path, q: Path, n: Name, k: nat)
    requires k <= |q|
    ensures (q + [n])[..k] == q[..k]
    ensures prefix + q[k..] + [n] == prefix + (q + [n])[k..]
  {}

  lemma RootNotBelow(t: Tree, c: NodeId)
    requires TreeOk(t) && c != t.root
    ensures !Below(t, t.root, c)
  {}
}
