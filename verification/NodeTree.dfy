/** The node arena (src/node.rs): nodes under opaque ids, linked by parent ids and by the
    children maps of directories, with paths recomputed by walking up.

    A tree value carries, beside the arena, the chain of every id ever issued: the ids from the
    root down to it. The chains witness that parent links have no cycle, and they define what
    "in the subtree of" means, also for nodes that a refresh has dropped from every children map. */
module NodeTree {
  import opened Wrappers
  import opened Names

  type NodeId = nat

  datatype InodeKey = InodeKey(ino: nat, dev: nat)

  datatype DirState =
    | NotADir
    | Dir(children: map<Name, NodeId>, whiteouts: set<Name>, loaded: bool)

  datatype Node = Node(parent: Option<NodeId>, name: Name, dir: DirState, layer: nat, last: nat,
                       key: InodeKey, hidden: bool)
  {
    predicate IsDir() { dir.Dir? }

    predicate IsLoaded() { dir.Dir? && dir.loaded }

    predicate IsWhiteout(n: Name) { dir.Dir? && n in dir.whiteouts }

    function GetChild(n: Name): Option<NodeId> {
      if dir.Dir? && n in dir.children then Some(dir.children[n]) else None
    }

    function Children(): map<Name, NodeId> {
      if dir.Dir? then dir.children else map[]
    }

    /** Also forgets that the name was whited out. */
    function InsertChild(n: Name, id: NodeId): Node {
      if dir.Dir? then this.(dir := dir.(children := dir.children[n := id], whiteouts := dir.whiteouts - {n}))
      else this
    }

    function RemoveChild(n: Name): Node {
      if dir.Dir? then this.(dir := dir.(children := dir.children - {n})) else this
    }

    function InsertWhiteout(n: Name): Node {
      if dir.Dir? then this.(dir := dir.(whiteouts := dir.whiteouts + {n})) else this
    }

    function SetLoaded(b: bool): Node {
      if dir.Dir? then this.(dir := dir.(loaded := b)) else this
    }

    function ClearChildren(): Node {
      if dir.Dir? then this.(dir := dir.(children := map[], whiteouts := {})) else this
    }
  }

  function NewNode(name: Name, layer: nat, key: InodeKey, isDir: bool): Node {
    Node(None, name, if isDir then Dir(map[], {}, false) else NotADir, layer, layer, key, false)
  }

  type Arena = map<NodeId, Node>

  type Chains = map<NodeId, seq<NodeId>>

  datatype Tree = Tree(nodes: Arena, nextId: NodeId, root: NodeId, chains: Chains)

  // ---- Well-formedness ----

  /** Every chain ends in its own id, and each of its prefixes is the chain of the id it ends in. */
  ghost predicate ChainOk(ch: Chains, id: NodeId)
    requires id in ch
  {
    && ch[id] != []
    && ch[id][|ch[id]| - 1] == id
    && forall j :: 0 <= j < |ch[id]| ==> ch[id][j] in ch && ch[ch[id][j]] == ch[id][..j + 1]
  }

  ghost predicate ChainsOk(ch: Chains) {
    forall id :: id in ch ==> ChainOk(ch, id)
  }

  /** The parent link of a node, against the chains. */
  ghost predicate LinkOk(t: Tree, id: NodeId)
    requires id in t.nodes
  {
    if id == t.root then t.nodes[id].parent == None
    else
      && t.nodes[id].parent.Some?
      && ValidName(t.nodes[id].name)
      && t.nodes[id].parent.value in t.chains
      && id in t.chains
      && t.chains[id] == t.chains[t.nodes[id].parent.value] + [id]
  }

  /** A children entry: it names a live node that has this directory as its parent and this
      name as its own. */
  ghost predicate EntryOk(t: Tree, d: NodeId, n: Name)
    requires d in t.nodes && n in t.nodes[d].Children()
  {
    var c := t.nodes[d].Children()[n];
    c in t.nodes && t.nodes[c].parent == Some(d) && t.nodes[c].name == n
  }

  ghost predicate TreeOk(t: Tree) {
    && ChainsOk(t.chains)
    && (forall id :: id in t.chains ==> id < t.nextId)
    && t.nodes.Keys <= t.chains.Keys
    && t.root in t.nodes && t.nodes[t.root].IsDir() && t.chains[t.root] == [t.root]
    && (forall id :: id in t.nodes ==> LinkOk(t, id))
    && (forall d, n :: d in t.nodes && n in t.nodes[d].Children() ==> EntryOk(t, d, n))
  }

  /** `id` lies in the subtree of `a` (an id lies in its own subtree). */
  ghost predicate Below(t: Tree, id: NodeId, a: NodeId)
    requires id in t.chains
  {
    a in t.chains[id]
  }

  /** Every ancestor of `id` is still in the arena. */
  ghost predicate Alive(t: Tree, id: NodeId) {
    id in t.chains && forall a :: a in t.chains[id] ==> a in t.nodes
  }

  /** The node is reached from the root through children maps. */
  ghost predicate Attached(t: Tree, id: NodeId)
    requires TreeOk(t)
    decreases if id in t.chains then |t.chains[id]| else 0
  {
    id in t.nodes &&
    (id == t.root ||
     var p := t.nodes[id].parent.value;
     LinkOk(t, id) && Attached(t, p) && t.nodes[p].GetChild(t.nodes[id].name) == Some(id))
  }

  // ---- compute_path ----

  /** The names on the way up from `id`, as far as the arena still has the nodes. */
  ghost function PathOf(t: Tree, id: NodeId): Path
    requires TreeOk(t)
    decreases if id in t.chains then |t.chains[id]| else 0
  {
    if id !in t.nodes || id == t.root then []
    else
      assert LinkOk(t, id);
      PathOf(t, t.nodes[id].parent.value) + [t.nodes[id].name]
  }

  lemma {:induction false} PathOfIsValid(t: Tree, id: NodeId)
    requires TreeOk(t)
    ensures ValidPath(PathOf(t, id))
    decreases if id in t.chains then |t.chains[id]| else 0
  {
    if id in t.nodes && id != t.root {
      assert LinkOk(t, id);
      PathOfIsValid(t, t.nodes[id].parent.value);
    }
  }

  function Reversed(s: seq<Name>): (r: seq<Name>)
    ensures |r| == |s|
  {
    if s == [] then [] else Reversed(s[1..]) + [s[0]]
  }

  lemma {:induction false} ReversedSnoc(s: seq<Name>, n: Name)
    ensures Reversed(s + [n]) == [n] + Reversed(s)
  {
    if s == [] {
      assert s + [n] == [n];
    } else {
      assert (s + [n])[1..] == s[1..] + [n];
      ReversedSnoc(s[1..], n);
    }
  }

  /** The walk of `compute_path`: collect names until a node has no parent or is gone, then
      reverse them. */
  method CollectPath(nodes: Arena, id: NodeId, ghost t: Tree) returns (path: Path)
    requires TreeOk(t) && nodes == t.nodes && id in nodes
    ensures path == PathOf(t, id)
  {
    var parts: seq<Name> := [];
    var current := id;
    assert PathOf(t, current) + Reversed(parts) == PathOf(t, id);
    while current in nodes && nodes[current].parent.Some?
      invariant PathOf(t, current) + Reversed(parts) == PathOf(t, id)
      decreases if current in t.chains then |t.chains[current]| else 0
    {
      var node := nodes[current];
      assert LinkOk(t, current);
      ReversedSnoc(parts, node.name);
      assert PathOf(t, current) == PathOf(t, node.parent.value) + [node.name];
      parts := parts + [node.name];
      current := node.parent.value;
    }
    assert current in t.nodes ==> LinkOk(t, current);
    assert PathOf(t, current) == [];
    path := Reversed(parts);
    assert path == PathOf(t, id);
  }

  /** `compute_path`: "." if nothing was collected, else the names joined with '/'. */
  method ComputePath(nodes: Arena, id: NodeId, ghost t: Tree) returns (result: string)
    requires TreeOk(t) && nodes == t.nodes && id in nodes
    ensures result == Render(PathOf(t, id))
  {
    var path := CollectPath(nodes, id, t);
    if path == [] {
      result := ".";
    } else {
      result := JoinNames(path);
    }
  }

  method JoinNames(parts: seq<Name>) returns (result: string)
    requires parts != []
    ensures result == Render(parts)
  {
    result := "";
    var i := 0;
    while i < |parts|
      invariant 0 <= i <= |parts|
      invariant i == 0 ==> result == ""
      invariant i > 0 ==> result == Render(parts[..i])
    {
      assert Parent(parts[..i + 1]) == parts[..i];
      if i > 0 {
        result := result + "/";
      }
      result := result + parts[i];
      i := i + 1;
    }
    assert parts[..i] == parts;
  }

  // ---- What the paths say ----

  lemma AttachedAncestors(t: Tree, id: NodeId)
    requires TreeOk(t) && Attached(t, id)
    ensures Alive(t, id)
    decreases if id in t.chains then |t.chains[id]| else 0
  {
    if id != t.root {
      AttachedAncestors(t, t.nodes[id].parent.value);
    }
  }

  /** Nodes that are reached through children maps are determined by their paths, and so, by
      `RenderInjective`, by the byte strings that `compute_path` returns. */
  lemma {:induction false} DistinctPaths(t: Tree, x: NodeId, y: NodeId)
    requires TreeOk(t) && Attached(t, x) && Attached(t, y)
    requires PathOf(t, x) == PathOf(t, y)
    ensures x == y
    decreases if x in t.chains then |t.chains[x]| else 0
  {
    if x != t.root && y != t.root {
      var px, py := t.nodes[x].parent.value, t.nodes[y].parent.value;
      assert Last(PathOf(t, x)) == t.nodes[x].name && Last(PathOf(t, y)) == t.nodes[y].name;
      assert Parent(PathOf(t, x)) == PathOf(t, px) && Parent(PathOf(t, y)) == PathOf(t, py);
      DistinctPaths(t, px, py);
    }
  }

  lemma DistinctRenderedPaths(t: Tree, x: NodeId, y: NodeId)
    requires TreeOk(t) && Attached(t, x) && Attached(t, y) && x != y
    ensures Render(PathOf(t, x)) != Render(PathOf(t, y))
  {
    PathOfIsValid(t, x);
    PathOfIsValid(t, y);
    if Render(PathOf(t, x)) == Render(PathOf(t, y)) {
      RenderInjective(PathOf(t, x), PathOf(t, y));
      DistinctPaths(t, x, y);
    }
  }

  /** The path of a listed child is `child_path` of its directory's path and its name. */
  lemma ChildPathOfEntry(t: Tree, d: NodeId, n: Name)
    requires TreeOk(t) && d in t.nodes && n in t.nodes[d].Children()
    ensures EntryOk(t, d, n)
    ensures PathOf(t, t.nodes[d].Children()[n]) == PathOf(t, d) + [n]
    ensures Render(PathOf(t, t.nodes[d].Children()[n])) == ChildPath(Render(PathOf(t, d)), n)
  {
    assert EntryOk(t, d, n);
    var c := t.nodes[d].Children()[n];
    assert LinkOk(t, c);
    PathOfIsValid(t, d);
    RenderOfChild(PathOf(t, d), n);
  }

  lemma BelowIsTransitive(t: Tree, x: NodeId, y: NodeId, z: NodeId)
    requires ChainsOk(t.chains) && x in t.chains
    requires Below(t, x, y)
    ensures y in t.chains && t.chains[y] <= t.chains[x]
    ensures Below(t, y, z) ==> Below(t, x, z)
  {
    assert ChainOk(t.chains, x);
    var j :| 0 <= j < |t.chains[x]| && t.chains[x][j] == y;
    assert t.chains[y] == t.chains[x][..j + 1];
  }

  lemma BelowParent(t: Tree, id: NodeId, a: NodeId)
    requires TreeOk(t) && id in t.nodes && id != t.root
    ensures LinkOk(t, id) && t.nodes[id].parent.value in t.chains
    ensures Below(t, id, a) <==> a == id || Below(t, t.nodes[id].parent.value, a)
  {
    assert LinkOk(t, id);
  }
}
