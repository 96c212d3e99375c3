/** How a scan or a lookup changes the node tree (src/overlay.rs): new children of one directory,
    new values of `last_layer_idx` for known ones, names recorded as whiteouts, and nothing else. */
module Filling {
  import opened Wrappers
  import opened Names
  import opened NodeTree
  import opened TreeOps
  import opened TreeRuns
  import opened Merge

  function SeenOf(node: Node): Seen {
    Seen(node.layer, node.last, node.IsDir())
  }

  /** The cached maps of a directory. */
  ghost function CacheOf(t: Tree, d: NodeId): Cache
    requires TreeOk(t) && d in t.nodes && t.nodes[d].IsDir()
  {
    assert forall n :: n in t.nodes[d].Children() ==> EntryOk(t, d, n);
    Cache(map n | n in t.nodes[d].Children() :: SeenOf(t.nodes[t.nodes[d].Children()[n]]), t.nodes[d].dir.whiteouts)
  }

  /** A node that a scan has made: fresh maps, nothing hidden. */
  predicate IsScanned(node: Node, d: NodeId, n: Name, seen: Seen) {
    node == NewNode(n, seen.layer, node.key, seen.isDir).(parent := Some(d), last := seen.last)
  }

  /** From `t` to `u` the directory `d` came to have the maps of `c`. */
  ghost predicate Filled(t: Tree, u: Tree, d: NodeId, c: Cache) {
    && TreeOk(t) && TreeOk(u) && d in t.nodes && t.nodes[d].IsDir()
    && u.root == t.root && t.nextId <= u.nextId && t.nodes.Keys <= u.nodes.Keys
    && (forall x :: x in t.chains ==> x in u.chains && u.chains[x] == t.chains[x])
    && u.nodes[d] == t.nodes[d].(dir := t.nodes[d].dir.(children := u.nodes[d].Children(), whiteouts := c.whiteouts))
    && CacheOf(u, d) == c
    && (forall n :: n in t.nodes[d].Children() ==>
          n in u.nodes[d].Children() && u.nodes[d].Children()[n] == t.nodes[d].Children()[n])
    && (forall x :: x in t.nodes && x != d ==> OnlyLast(t, u, d, x))
    && (forall x :: x in u.nodes && x !in t.nodes ==> IsNewChild(t, u, d, x))
  }

  ghost predicate OnlyLast(t: Tree, u: Tree, d: NodeId, x: NodeId)
    requires x in t.nodes && x in u.nodes
  {
    && u.nodes[x] == t.nodes[x].(last := u.nodes[x].last)
    && (t.nodes[x].parent != Some(d) ==> u.nodes[x] == t.nodes[x])
  }

  ghost predicate IsNewChild(t: Tree, u: Tree, d: NodeId, x: NodeId)
    requires d in u.nodes && x in u.nodes
  {
    && x !in t.chains
    && u.nodes[d].GetChild(u.nodes[x].name) == Some(x)
    && IsScanned(u.nodes[x], d, u.nodes[x].name, SeenOf(u.nodes[x]))
  }

  lemma FilledByNothing(t: Tree, d: NodeId)
    requires TreeOk(t) && d in t.nodes && t.nodes[d].IsDir()
    ensures Filled(t, t, d, CacheOf(t, d))
  {}

  lemma {:induction false} FilledKeepsPath(t: Tree, u: Tree, d: NodeId, c: Cache, x: NodeId)
    requires Filled(t, u, d, c) && x in t.nodes
    ensures PathOf(u, x) == PathOf(t, x)
    decreases if x in t.chains then |t.chains[x]| else 0
  {
    if x != t.root {
      assert LinkOk(t, x) && LinkOk(u, x);
      assert x != d ==> OnlyLast(t, u, d, x);
      var p := t.nodes[x].parent.value;
      if p in t.nodes {
        FilledKeepsPath(t, u, d, c, p);
      } else {
        assert p in u.nodes ==> IsNewChild(t, u, d, p);
      }
    }
  }

  lemma NewChildPath(t: Tree, u: Tree, d: NodeId, c: Cache, x: NodeId)
    requires Filled(t, u, d, c) && x in u.nodes && x !in t.nodes
    ensures IsNewChild(t, u, d, x) && PathOf(u, x) == PathOf(t, d) + [u.nodes[x].name]
  {
    FilledKeepsPath(t, u, d, c, d);
    assert IsNewChild(t, u, d, x);
    assert LinkOk(u, x);
  }

  // ---- One more change ----

  /** Everything that `Filled` says but for the cached maps themselves. */
  ghost predicate Grown(t: Tree, u: Tree, d: NodeId) {
    && d in t.nodes && t.nodes[d].IsDir()
    && u.root == t.root && t.nextId <= u.nextId && t.nodes.Keys <= u.nodes.Keys
    && (forall x :: x in t.chains ==> x in u.chains && u.chains[x] == t.chains[x])
    && u.nodes[d].IsDir()
    && u.nodes[d] == t.nodes[d].(dir := t.nodes[d].dir.(children := u.nodes[d].Children(), whiteouts := u.nodes[d].dir.whiteouts))
    && (forall n :: n in t.nodes[d].Children() ==>
          n in u.nodes[d].Children() && u.nodes[d].Children()[n] == t.nodes[d].Children()[n])
    && (forall x :: x in t.nodes && x != d ==> OnlyLast(t, u, d, x))
    && (forall x :: x in u.nodes && x !in t.nodes ==> IsNewChild(t, u, d, x))
  }

  lemma FilledIsGrown(t: Tree, u: Tree, d: NodeId, c: Cache)
    ensures Filled(t, u, d, c) <==> TreeOk(t) && TreeOk(u) && Grown(t, u, d) && CacheOf(u, d) == c
  {}

  lemma GrowByNode(t: Tree, u: Tree, d: NodeId, x: NodeId, node: Node)
    requires Grown(t, u, d) && x in u.nodes && u.nodes[x].parent == Some(d) && x != d
    requires node == u.nodes[x].(last := node.last)
    ensures Grown(t, SetNode(u, x, node), d)
  {
    var v := SetNode(u, x, node);
    forall y | y in t.nodes && y != d
      ensures OnlyLast(t, v, d, y)
    {
      assert OnlyLast(t, u, d, y);
    }
    forall y | y in v.nodes && y !in t.nodes
      ensures IsNewChild(t, v, d, y)
    {
      assert IsNewChild(t, u, d, y);
    }
  }

  /** A known child is listed by one more layer. */
  lemma FillLast(t: Tree, u: Tree, d: NodeId, c: Cache, n: Name, i: nat)
    requires Filled(t, u, d, c) && n in u.nodes[d].Children()
    ensures EntryOk(u, d, n)
    ensures var x := u.nodes[d].Children()[n];
            Filled(t, SetNode(u, x, u.nodes[x].(last := i)), d, c.(children := c.children[n := c.children[n].(last := i)]))
  {
    FilledIsGrown(t, u, d, c);
    assert EntryOk(u, d, n);
    var x := u.nodes[d].Children()[n];
    ChildNotAbove(u, d, n);
    var v := SetNode(u, x, u.nodes[x].(last := i));
    SetNodeOk(u, x, u.nodes[x].(last := i));
    var c' := c.(children := c.children[n := c.children[n].(last := i)]);
    CacheAfterSet(u, v, d, x, n, c, c', i);
    GrowByNode(t, u, d, x, u.nodes[x].(last := i));
    FilledIsGrown(t, v, d, c');
  }

  lemma CacheAfterSet(u: Tree, v: Tree, d: NodeId, x: NodeId, n: Name, c: Cache, c': Cache, i: nat)
    requires TreeOk(u) && TreeOk(v) && d in u.nodes && u.nodes[d].IsDir() && CacheOf(u, d) == c
    requires n in u.nodes[d].Children() && x == u.nodes[d].Children()[n] && x in u.nodes && x != d
    requires v == SetNode(u, x, u.nodes[x].(last := i))
    requires c' == c.(children := c.children[n := c.children[n].(last := i)])
    ensures CacheOf(v, d) == c'
  {
    var got := CacheOf(v, d);
    forall m | m in u.nodes[d].Children()
      ensures got.children[m] == c'.children[m]
    {
      assert EntryOk(u, d, m);
    }
    assert got.children == c'.children;
  }

  lemma GrowByWhiteout(t: Tree, u: Tree, d: NodeId, n: Name)
    requires Grown(t, u, d)
    ensures Grown(t, SetNode(u, d, u.nodes[d].InsertWhiteout(n)), d)
  {
    var v := SetNode(u, d, u.nodes[d].InsertWhiteout(n));
    forall y | y in t.nodes && y != d
      ensures OnlyLast(t, v, d, y)
    {
      assert OnlyLast(t, u, d, y);
    }
    forall y | y in v.nodes && y !in t.nodes
      ensures IsNewChild(t, v, d, y)
    {
      assert IsNewChild(t, u, d, y);
    }
  }

  lemma CacheAfterWhiteout(u: Tree, d: NodeId, c: Cache, n: Name)
    requires TreeOk(u) && d in u.nodes && u.nodes[d].IsDir() && CacheOf(u, d) == c
    requires TreeOk(SetNode(u, d, u.nodes[d].InsertWhiteout(n)))
    ensures CacheOf(SetNode(u, d, u.nodes[d].InsertWhiteout(n)), d) == c.(whiteouts := c.whiteouts + {n})
  {
    var got := CacheOf(SetNode(u, d, u.nodes[d].InsertWhiteout(n)), d);
    forall m | m in u.nodes[d].Children()
      ensures got.children[m] == c.children[m]
    {
      ChildNotAbove(u, d, m);
    }
    assert got.children == c.children;
  }

  /** A name is recorded as a whiteout. */
  lemma FillWhiteout(t: Tree, u: Tree, d: NodeId, c: Cache, n: Name)
    requires Filled(t, u, d, c)
    ensures Filled(t, SetNode(u, d, u.nodes[d].InsertWhiteout(n)), d, c.(whiteouts := c.whiteouts + {n}))
  {
    FilledIsGrown(t, u, d, c);
    var v := SetNode(u, d, u.nodes[d].InsertWhiteout(n));
    SetNodeOk(u, d, u.nodes[d].InsertWhiteout(n));
    GrowByWhiteout(t, u, d, n);
    CacheAfterWhiteout(u, d, c, n);
    FilledIsGrown(t, v, d, c.(whiteouts := c.whiteouts + {n}));
  }

  /** What inserting a child does to the arena. */
  ghost predicate Inserted(u: Tree, v: Tree, d: NodeId, x: NodeId, node: Node)
    requires d in u.nodes
  {
    && x !in u.nodes && x !in u.chains && x >= u.nextId && v.nextId > x
    && v.nodes == u.nodes[x := node.(parent := Some(d))][d := u.nodes[d].InsertChild(node.name, x)]
    && v.root == u.root && forall y :: y in u.chains ==> y in v.chains && v.chains[y] == u.chains[y]
  }

  lemma InsertChildInserts(u: Tree, d: NodeId, node: Node)
    requires TreeOk(u) && d in u.nodes
    ensures Inserted(u, InsertChild(u, d, node), d, u.nextId, node)
  {
    assert u.nextId !in u.chains && u.nextId !in u.nodes;
    assert InsertChild(u, d, node).nodes
        == u.nodes[u.nextId := node.(parent := Some(d))][d := u.nodes[d].InsertChild(node.name, u.nextId)];
  }

  lemma GrowByChild(t: Tree, u: Tree, v: Tree, d: NodeId, x: NodeId, node: Node)
    requires Grown(t, u, d) && node.name !in u.nodes[d].Children() && Inserted(u, v, d, x, node)
    requires x !in t.chains && x !in t.nodes
    requires IsScanned(node.(parent := Some(d)), d, node.name, SeenOf(node))
    ensures Grown(t, v, d)
  {
    assert v.nodes[d].Children() == u.nodes[d].Children()[node.name := x];
    forall y | y in t.nodes && y != d
      ensures OnlyLast(t, v, d, y)
    {
      assert OnlyLast(t, u, d, y);
    }
    forall y | y in v.nodes && y !in t.nodes
      ensures IsNewChild(t, v, d, y)
    {
      assert y != x ==> IsNewChild(t, u, d, y);
    }
  }

  /** A new child is found. */
  lemma FillChild(t: Tree, u: Tree, d: NodeId, c: Cache, n: Name, seen: Seen, key: InodeKey)
    requires Filled(t, u, d, c) && ValidName(n) && n !in c.children && n !in c.whiteouts
    ensures Filled(t, InsertChild(u, d, NewNode(n, seen.layer, key, seen.isDir).(last := seen.last)), d,
                   c.(children := c.children[n := seen]))
  {
    var node := NewNode(n, seen.layer, key, seen.isDir).(last := seen.last);
    var v, c' := InsertChild(u, d, node), c.(children := c.children[n := seen]);
    InsertChildOk(u, d, node);
    InsertChildInserts(u, d, node);
    FilledIsGrown(t, u, d, c);
    GrowByChild(t, u, v, d, u.nextId, node);
    InsertedCache(u, v, d, u.nextId, c, seen, node);
    FilledIsGrown(t, v, d, c');
  }

  lemma InsertedCache(u: Tree, v: Tree, d: NodeId, x: NodeId, c: Cache, seen: Seen, node: Node)
    requires TreeOk(u) && TreeOk(v) && d in u.nodes && u.nodes[d].IsDir() && CacheOf(u, d) == c
    requires Inserted(u, v, d, x, node) && SeenOf(node) == seen
    requires node.name !in c.children && node.name !in c.whiteouts
    ensures v.nodes[d].IsDir() && CacheOf(v, d) == c.(children := c.children[node.name := seen])
  {
    assert v.nodes[d] == u.nodes[d].InsertChild(node.name, x);
    assert c.whiteouts - {node.name} == c.whiteouts;
    CacheAfterInsert(u, v, d, x, node.name, c, c.(children := c.children[node.name := seen]), seen);
  }

  lemma CacheAfterInsert(u: Tree, v: Tree, d: NodeId, x: NodeId, n: Name, c: Cache, c': Cache, seen: Seen)
    requires TreeOk(u) && TreeOk(v) && d in u.nodes && u.nodes[d].IsDir() && CacheOf(u, d) == c && d in v.nodes
    requires v.nodes[d].IsDir() && v.nodes[d].Children() == u.nodes[d].Children()[n := x] && n !in c.children
    requires v.nodes[d].dir.whiteouts == c.whiteouts
    requires x in v.nodes && x !in u.nodes && SeenOf(v.nodes[x]) == seen
    requires forall y :: y in u.nodes && y != d ==> y in v.nodes && v.nodes[y] == u.nodes[y]
    requires c' == c.(children := c.children[n := seen])
    ensures CacheOf(v, d) == c'
  {
    var got := CacheOf(v, d);
    forall m | m in v.nodes[d].Children()
      ensures m in c'.children && got.children[m] == c'.children[m]
    {
      if m != n {
        assert m in u.nodes[d].Children();
        ChildNotAbove(u, d, m);
      }
    }
    assert got.children.Keys == c'.children.Keys;
    assert got.children == c'.children;
  }
}
