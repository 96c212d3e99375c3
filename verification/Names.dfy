/** Entry names, overlay paths and the `.wh.` naming convention (the "Whiteouts" and "Opaque
    Whiteout" sections of the OCI image layer format).

    A name is a string of bytes, one character a byte. A path is the list of names from the
    root of the overlay; `Render` is the byte string the source uses for it. */
module Names {
  import opened Wrappers

  type Name = string
  type Path = seq<Name>

  const WH_PREFIX := ".wh."
  const OPAQUE_WHITEOUT := ".wh..wh..opq"

  /** The marker that hides `n`. */
  function WhName(n: Name): (m: Name)
    ensures |m| == |n| + 4
  {
    WH_PREFIX + n
  }

  predicate IsWh(n: Name) {
    WH_PREFIX <= n
  }

  /** `wh_prefix_name`: the name a marker hides; the opaque sentinel is not a marker. */
  function WhPrefixName(n: Name): Option<Name> {
    if IsWh(n) && n != OPAQUE_WHITEOUT then Some(n[4..]) else None
  }

  lemma WhNameInverse(n: Name, m: Name)
    ensures IsWh(WhName(n)) && WhName(n)[4..] == n
    ensures WhName(n) == WhName(m) <==> n == m
    ensures IsWh(m) && m[4..] == n <==> m == WhName(n)
  {
    assert WhName(n)[4..] == n && WhName(m)[4..] == m;
    if IsWh(m) && m[4..] == n {
      assert m == WH_PREFIX + m[4..];
    }
  }

  /** A name a directory entry can have, other than the two dot entries. */
  predicate ValidName(n: Name) {
    n != "" && n != "." && n != ".." && '/' !in n
  }

  predicate ValidPath(p: Path) {
    forall i :: 0 <= i < |p| ==> ValidName(p[i])
  }

  function Parent(p: Path): Path
    requires p != []
  {
    p[..|p| - 1]
  }

  function Last(p: Path): Name
    requires p != []
  {
    p[|p| - 1]
  }

  /** `child_path`. */
  function ChildPath(parentPath: string, name: Name): string {
    if parentPath == "." then name else parentPath + "/" + name
  }

  /** The path as the source writes it: "." for the root, else the names joined with '/'. */
  function Render(p: Path): string {
    if p == [] then "."
    else if |p| == 1 then p[0]
    else Render(Parent(p)) + "/" + Last(p)
  }

  lemma {:induction false} RenderOfRoot(p: Path)
    requires ValidPath(p)
    ensures Render(p) == "." <==> p == []
  {
    if |p| > 1 {
      assert |Render(p)| >= 2 by { assert |Last(p)| >= 1; }
    }
  }

  /** `child_path` of a rendered path is the rendering of the longer path. */
  lemma RenderOfChild(p: Path, n: Name)
    requires ValidPath(p) && ValidName(n)
    ensures Render(p + [n]) == ChildPath(Render(p), n)
  {
    RenderOfRoot(p);
    assert Parent(p + [n]) == p;
  }

  lemma LastSlash(a: string, n: string, b: string, m: string)
    requires '/' !in n && '/' !in m
    requires a + "/" + n == b + "/" + m
    ensures a == b && n == m
  {
    var s := a + "/" + n;
    assert s[|a|] == '/' && s[|b|] == '/';
    assert s[..|a|] == a && s[..|a|] == b;
    assert s[|a| + 1..] == n && s[|a| + 1..] == m;
  }

  lemma SingleHasNoSlash(p: Path)
    requires ValidPath(p) && p != []
    ensures '/' in Render(p) <==> |p| > 1
  {
    if |p| > 1 {
      assert Render(p)[|Render(Parent(p))|] == '/';
    }
  }

  /** Different paths are different byte strings. */
  lemma {:induction false} RenderInjective(p: Path, q: Path)
    requires ValidPath(p) && ValidPath(q)
    requires Render(p) == Render(q)
    ensures p == q
    decreases |p|
  {
    RenderOfRoot(p);
    RenderOfRoot(q);
    if p != [] {
      SingleHasNoSlash(p);
      SingleHasNoSlash(q);
      if |p| > 1 {
        LastSlash(Render(Parent(p)), Last(p), Render(Parent(q)), Last(q));
        RenderInjective(Parent(p), Parent(q));
        assert p == Parent(p) + [Last(p)] && q == Parent(q) + [Last(q)];
      }
    }
  }
}
