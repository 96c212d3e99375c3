/** Creating and deleting whiteouts (src/whiteout.rs), in both their forms: a device 0/0 at the
    name, and a marker file beside it. */
module Whiteouts {
  import opened Wrappers
  import opened Names
  import opened Layers
  import opened FreshMount
  import opened Removal
  import opened SessionFrame
  import opened Disks

  /** From `up` to `up'` at most the whiteouts of `q` went. */
  ghost predicate OnlyWhiteoutsGone(up: Layer, up': Layer, q: Path)
    requires q != []
  {
    forall p ::
      && (p in up' ==> p in up && up'[p] == up[p])
      && (p in up && p !in up' ==> p == MarkerOf(q) || (p == q && up[q] == Whiteout))
  }

  lemma NoWhiteoutsNothingGone(up: Layer, up': Layer, q: Path)
    requires q != [] && OnlyWhiteoutsGone(up, up', q)
    requires MarkerOf(q) !in up && (q in up ==> up[q] != Whiteout)
    ensures up' == up
  {}

  /** Only the upper layer differs, and there only in whiteouts of `q`. */
  ghost predicate WhiteoutsGone(was: seq<Layer>, now: seq<Layer>, q: Path)
    requires was != [] && q != []
  {
    now != [] && now == WithUpper(was, now[0]) && OnlyWhiteoutsGone(was[0], now[0], q)
  }

  /** The marker of `q`, if there is one, can be unlinked. */
  predicate PlainMarker(up: Layer, q: Path)
    requires q != []
  {
    MarkerOf(q) in up ==> !up[MarkerOf(q)].Dir?
  }

  /** `delete_whiteout`. A device is looked for only while devices are known to work. */
  method DeleteWhiteout(disk: Disk, q: Path, devices: bool) returns (ok: bool)
    requires disk.Valid() && q != []
    modifies disk`layers, disk`history, disk`refusals
    ensures disk.Valid()
    ensures WhiteoutsGone(old(disk.layers), disk.layers, q)
    ensures ok ==> MarkerOf(q) !in disk.layers[0]
    ensures old(disk.refusals) <= disk.refusals
    ensures disk.refusals == old(disk.refusals) && PlainMarker(old(disk.layers[0]), q) ==> ok
    ensures disk.refusals == old(disk.refusals) && devices && q in old(disk.layers[0]) && old(disk.layers[0])[q] == Whiteout ==>
              q !in disk.layers[0]
    ensures !devices && q in old(disk.layers[0]) ==> q in disk.layers[0]
    ensures |old(disk.history)| <= |disk.history| && disk.history[..|old(disk.history)|] == old(disk.history)
    ensures forall k :: |old(disk.history)| <= k < |disk.history| ==> WhiteoutsGone(old(disk.layers), disk.history[k], q)
  {
    MarkerNotBelow(q);
    if devices {
      var there := disk.Stat(0, q);
      if there == Some(Entry.Whiteout) {
        var r := disk.Unlink(q);
        if r.Err? {
          return false;
        }
      }
    }
    var r := disk.Unlink(MarkerOf(q));
    ok := r.Ok? || r == Err(ENOENT);
  }

  /** The name is covered by a whiteout of either form. */
  ghost predicate CoveredBy(up: Layer, up': Layer, q: Path, cover: Cover)
    requires q != []
  {
    match cover
    case Device => (q !in up && up' == up[q := Whiteout]) || (q in up && up[q] == Whiteout && up' == up)
    case Marker => if MarkerOf(q) in up then up' == up else up' == up[MarkerOf(q) := File(Regular([]))]
    case Nothing => false
  }

  /** `create_whiteout`. Where an entry that is no whiteout is in the way of the device, the call
      fails; a marker is the fallback only where devices are not supported, which is then known for
      later (`unsupported`). Where there is room for either form and no call is refused, it succeeds. */
  method CreateWhiteout(disk: Disk, q: Path, canMknod: bool) returns (ok: bool, cover: Cover, unsupported: bool)
    requires disk.Valid() && q != []
    modifies disk`layers, disk`history, disk`refusals
    ensures disk.Valid()
    ensures disk.layers == WithUpper(old(disk.layers), disk.layers[0])
    ensures ok ==> CoveredBy(old(disk.layers[0]), disk.layers[0], q, cover)
    ensures !ok ==> disk.layers == old(disk.layers)
    ensures canMknod && q in old(disk.layers[0]) ==> disk.layers == old(disk.layers)
                                                     && (ok ==> old(disk.layers[0])[q] == Whiteout)
    ensures if canMknod && !unsupported then cover == Device else cover == Marker
    ensures unsupported ==> canMknod && q !in old(disk.layers[0])
    ensures old(disk.refusals) <= disk.refusals
    ensures disk.refusals == old(disk.refusals) && HasRoom(old(disk.layers[0]), q) && PlainMarker(old(disk.layers[0]), q) ==> ok
    ensures disk.refusals == old(disk.refusals) && !canMknod && HasRoom(old(disk.layers[0]), MarkerOf(q)) ==> ok
  {
    cover, unsupported := Marker, false;
    if canMknod {
      var r;
      r, unsupported := disk.Mknod(q);
      if r.Ok? {
        return true, Device, false;
      }
      if r == Err(EEXIST) {
        var there := disk.Stat(0, q);
        return there == Some(Entry.Whiteout), Device, false;
      }
      if !unsupported {
        return false, Device, false;
      }
    }
    RoomForMarker(disk.layers[0], q);
    ok := disk.Touch(MarkerOf(q));
  }

  lemma RoomForMarker(up: Layer, q: Path)
    requires q != []
    ensures HasRoom(up, q) && MarkerOf(q) !in up ==> HasRoom(up, MarkerOf(q))
  {
    assert Parent(MarkerOf(q)) == Parent(q) && Last(MarkerOf(q)) == WhName(Last(q));
    assert ValidName(Last(q)) ==> '/' !in WH_PREFIX + Last(q);
  }

  /** `set_fd_opaque` on a new directory in the workdir: an xattr, the sentinel, or both. */
  method SetOpaque(disk: Disk, w: nat) returns (ok: bool)
    requires disk.Valid() && w in disk.work && disk.work[w] == map[[] := Entry.Dir(false)]
    modifies disk`work, disk`refusals
    ensures disk.Valid() && w in disk.work && disk.work - {w} == old(disk.work) - {w}
    ensures exists xattr: bool, sentinel: bool ::
              && disk.work[w] == OpaqueWork(xattr, sentinel)
              && (ok ==> xattr || sentinel)
    ensures old(disk.refusals) <= disk.refusals && (disk.refusals == old(disk.refusals) ==> ok)
  {
    var xattr := disk.SetOpaqueXattr(w);
    var hard: bool := *;
    if !xattr && hard {
      assert disk.work[w] == OpaqueWork(false, false);
      return false;
    }
    var sentinel := disk.MakeInWork(w, OPAQUE_WHITEOUT);
    assert disk.work[w] == OpaqueWork(xattr, sentinel);
    ok := sentinel || xattr;
  }

  function OpaqueWork(xattr: bool, sentinel: bool): Layer {
    var dir: Layer := map[[] := Entry.Dir(xattr)];
    if sentinel then dir[[OPAQUE_WHITEOUT] := File(Regular([]))] else dir
  }
}
