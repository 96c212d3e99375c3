/** The disk: layers as maps from overlay paths to entries, and what one layer shows at a
    directory path. Whiteouts and opaque directories are those of the kernel's overlayfs
    documentation (section "whiteouts and opaque directories") and of the OCI layer format. */
module Layers {
  import opened Names

  datatype FileData = Regular(bytes: seq<int>) | Symlink(target: string) | Special(mode: nat, rdev: nat)

  /** `Whiteout` is a character device 0/0; a directory may carry an opaque xattr. Markers
      `.wh.n` and the sentinel `.wh..wh..opq` are ordinary files under those names. */
  datatype Entry = Dir(opq: bool) | File(data: FileData) | Whiteout

  type Layer = map<Path, Entry>

  ghost predicate LayerOk(l: Layer) {
    && [] in l && l[[]].Dir?
    && forall p {:trigger EntryPlaced(l, p)} :: p in l && p != [] ==> EntryPlaced(l, p)
  }

  ghost predicate EntryPlaced(l: Layer, p: Path)
    requires p != []
  {
    ValidName(Last(p)) && Parent(p) in l && l[Parent(p)].Dir?
  }

  /** `is_directory_opaque`: an opaque xattr, or the sentinel inside. */
  predicate IsOpaque(l: Layer, p: Path) {
    p in l && l[p].Dir? && (l[p].opq || p + [OPAQUE_WHITEOUT] in l)
  }

  /** The names that `readdir` of `p` lists, without the dot entries. */
  function Listed(l: Layer, p: Path): (r: set<Name>)
    ensures forall n :: n in r <==> p + [n] in l
  {
    var r := set q | q in l && |q| == |p| + 1 && q[..|p|] == p :: q[|p|];
    assert forall n :: n in r <==> p + [n] in l by {
      forall n
        ensures n in r <==> p + [n] in l
      {
        var q := p + [n];
        assert |q| == |p| + 1 && q[..|p|] == p && q[|p|] == n;
        if n in r {
          var q' :| q' in l && |q'| == |p| + 1 && q'[..|p|] == p && q'[|p|] == n;
          assert q' == q'[..|p|] + [q'[|p|]];
        }
      }
    }
    r
  }

  // ---- What a scan sees of one layer ----

  datatype Item = DirItem(opq: bool) | FileItem | WhiteoutItem

  /** `StatFailed`: the path cannot be examined, and `denied` says whether that is a matter of
      permission. `Unlistable`: a directory that cannot be opened for listing. */
  datatype View =
    | Absent
    | NotADir
    | StatFailed(denied: bool)
    | Unlistable(items: map<Name, Item>)
    | Listing(items: map<Name, Item>, opq: bool)

  function ItemAt(l: Layer, p: Path): Item
    requires p in l
  {
    match l[p]
    case Dir(_) => DirItem(IsOpaque(l, p))
    case File(_) => FileItem
    case Whiteout => WhiteoutItem
  }

  function ViewOf(l: Layer, p: Path): View {
    if p !in l then Absent
    else if !l[p].Dir? then NotADir
    else Listing(map n | n in Listed(l, p) :: ItemAt(l, p + [n]), IsOpaque(l, p))
  }

  function ViewsOf(layers: seq<Layer>, p: Path): (r: seq<View>)
    ensures |r| == |layers|
  {
    seq(|layers|, i requires 0 <= i < |layers| => ViewOf(layers[i], p))
  }

  /** Names a view knows of, whether or not it can be listed. */
  function Items(v: View): map<Name, Item> {
    match v
    case Unlistable(items) => items
    case Listing(items, _) => items
    case _ => map[]
  }
}
