# A verified model of fuse-overlayfs

This project models the overlay engine of fuse-overlayfs in Dafny and proves properties of it: what
a merged directory contains, when the cached node tree agrees with the layers, why copy-up cannot be
seen, what unlink and rename change, and which FUSE inode numbers and passthrough backings are safe
to use. `dafny verify dfyconfig.toml` checks all of it.

## How the model is laid out

| files | what they model |
|---|---|
| `Names`, `Layers` | names, paths and the `.wh.` convention (OCI Image Format Specification, "Image Layer Filesystem Changeset", sections "Whiteouts" and "Opaque Whiteout"); layers as maps from paths to entries, with the device 0/0 whiteouts and opaque directories of the kernel's overlayfs documentation ("whiteouts and opaque directories") |
| `NodeTree`, `TreeOps`, `TreeRuns`, `NodeArena` | the node arena, `compute_path`, and the effect of every operation on the tree |
| `Merge`, `LazyLookup`, `OpaqueLookups` | the eager scan, the lazy lookup and the declarative merge; lookups one after the other |
| `FreshMount`, `DiskChanges`, `Removal` | what a fresh mount of given layers shows at each path, and what publishing or removing an entry does to that |
| `CleanDisk`, `Filling`, `Session*`, `DiskRename`, `RenameSeen`, `Clearing`, `RenameUncovered`, `Unregistered`, `Recreation`, `DiskExchange`, `Coherence` | runs of a mounted session: cache and disk together, with the operations that fail half-way |
| `Descent` | runs over arbitrary layers: which layer a cached node is on |
| `Counterexamples`, `DirectoryRuns` | concrete runs that show where the engine does not do what users expect |
| `Disk`, `Whiteouts`, `CopyUpSteps`, `CopyUp`, `CopyData`, `Steady`, `Overlay`, `OverlayRename` | the imperative side: system calls that may fail, and the engine's methods with their loops, fallbacks and failure exits |
| `InodeTable`, `InodeNumbers`, `KernelRefs` | the inode table, the numbers it computes, and its runs against the kernel's reference counts |
| `Passthrough` | backings and handles as interleaved steps, one per lock region |
| `Options`, `Xattr` | the two codecs |

A path is a sequence of names, `Names.Render` is the byte string of the source. Files carry their
contents; a symlink carries its target. A system call is a method of `Disks.Disk` that either has
its documented effect or fails with no effect; which calls fail is arbitrary. Where a failure of the
calls that examine a directory changes what is cached, it is a parameter (`faults`). `Disk.history`
records every state the layers go through, so that a contract can speak about the middle of an
operation; `Disk.refusals` counts the calls that were refused for reasons that the layers and the workdir
do not show, so that a contract can say what happens if none is.

A tree value carries beside the arena the chain of ids from the root to every id ever issued. The
chains exist for the proofs only: they witness that parent links have no cycle.

## What is proved about whole runs

* **Cache coherence** (`Coherence`). A session starts from an empty upper layer over lower layers
  without whiteouts, opaque directories and clashes of files and directories, and goes through any
  sequence of scans, lookups, copy-ups, creations, removals, renames and exchanges in which no created
  name occurs in a lower layer of its directory, renames and exchanges fit where they go, and failed
  operations lose no whiteout that hides a lower name. For each of these conditions there is a lemma that
  it is exact. Operations that fail half-way are among the steps. In every state, for every cached
  directory, the cached children are among those of a fresh scan, the cached whiteouts are not, and
  a loaded directory has them all; every cached node has the layer and kind that a fresh mount finds
  at its path. Scans, lookups, copy-ups and failures change nothing that is seen (but for an entry that
  a creation leaves behind whose last stat fails), a creation adds one path, a removal takes exactly one
  subtree away, a rename shows exactly the moved subtree at its new place, and an exchange each subtree at
  the place of the other. Contents go with the paths.
* **The methods are the steps.** `OverlayInner.LoadDir`, `LazyLookup`, `DoRm`, `CreateEntry`,
  `CopyUp`, `Rename` and `Exchange` are written with the branches and fallbacks of the source. Their
  contracts say that on success they took steps of such a session, and exactly when the session is
  coherent afterwards; and on failure that nothing is seen to have changed, or, for the marker that a
  removal and the entry that a creation may leave behind, again when the session is coherent. If no
  call is refused, copy-up succeeds; unlink and rmdir succeed exactly if the name is shown with that kind,
  and a directory shown empty; a creation exactly if nothing is shown at its name; and a rename and an
  exchange exactly where `OverlayRename.CanRename` and `CanTrade` say so of what is shown.
* **Layers** (`Descent`). Over any layers, and as long as directories move only where no lower layer has
  the new path of a node cached below from a layer below that one, layer numbers never decrease going down the tree, and no layer above a node's has its path.
  If no directory moves, every cached node is on the topmost layer that has its path.
* **Copy-up** (`CopyUp`, `DiskChanges`). On any disk, clean or not, if the nodes from the root down
  are what a fresh mount shows, every state that the layers go through, on success and on every
  failure exit, shows the same at every path.
* **Tree** (`TreeRuns`). Children entries agree with the nodes they name, parent chains are acyclic
  and paths are distinct in every state of every run, including exchange and refresh.
* **Numbers** (`KernelRefs`). In every run the count of a live number is exactly what the kernel holds and
  what was counted beside it, so a number goes with its last reference and not before, and a held one is
  not reused.
* **Backings** (`Passthrough`). In every interleaving counts are the users, a handle is for the inode that
  was asked for, and a backing serves only the inode it was made for.

## Where the code and its documentation or a first expectation differ

The model follows the code. Each of these is a lemma with the exact condition, unless it says otherwise; a
run is a concrete sequence of steps from a mount.

* A file renamed onto a name that has a `.wh.` marker stays hidden: the marker is deleted only when
  a directory moves (`SessionRename.RenameIsCoherentIff`, run: `Counterexamples.RenamedFileIsLost`).
* Unlink leaves no whiteout when neither the node nor its parent is known to reach below the upper
  layer. With a stale `last_layer_idx` of 0, as the root and recreated names have, a lower layer's
  name shows again (`Removal.HideRemovesExactlyOne`, run: `Counterexamples.UnlinkedNameShowsAgain`).
* A rename keeps the `last_layer_idx` of the moved node. A new file that is renamed over a lower one, the
  way editors save, does not know of it, and unlinking it in the root shows the lower file. The session
  stays coherent exactly if no stale marker is left and, where a lower layer has the new name, a file that
  is known to reach below comes to a file (`SessionRename.RenameIsCoherentIff`, run:
  `Counterexamples.ReplacedNameShowsAgain`).
* An exchange carries `last_layer_idx` along and never looks at what the second entry reaches: the
  session stays coherent exactly if what comes to a name that a lower layer has is a file that is known
  to reach below, in place of a file (`SessionExchange.ExchangeIsCoherentIff`, run:
  `Counterexamples.ExchangedNameShowsAgain`).
* A creation at a name that a lower layer has never leaves the session coherent
  (`Recreation.CreationIsCoherentIff`). `mkdir` makes the new directory opaque only if the last layer of
  its parent is positive; in the root it never is, and the lower children show in a directory that was
  removed and made again. Nothing shows in it exactly if the parent reaches below or no lower layer has
  anything there (`Recreation.MkdirIsEmptyIff`, run: `DirectoryRuns.RemadeDirectoryIsNotEmpty`).
* A directory that moves to a name of a lower layer may have cached children from layers below that one,
  so that a grandchild is found above its parent. The move leaves every node with no layer above it that
  has its path exactly if none of those layers has the new path of such a child
  (`Descent.RenameIsGroundedIff`, run: `DirectoryRuns.GrandchildAbove`).
* `do_lazy_lookup` looks past opaque and non-directory parents; it agrees with the scan exactly if
  no layer below the end of the scan, but within the bound, shows the name
  (`LazyLookup.LazyAgreesExactly`, disk: `Counterexamples.LookupSeesPastOpaque`).
* A first partial `forget` of a tombstoned number releases it while the kernel still holds it
  (`KernelRefs.ForgetKeepsHeldNumber`, run: `KernelRefs.PartialForgetOfTombstoneReleases`).
* A rename does not notice that its whiteout could not be made. The old name then shows the lower file,
  if there is one; the cache stays right (`RenameUncovered.UncoveredShows`, run:
  `Counterexamples.LowerFileShowsAgain`).
* A creation whose marker cannot be deleted afterwards succeeds and is hidden
  (`Overlay.OverlayInner.CreateEntry`).
* A creation whose last stat fails leaves its entry on the disk and out of the cache. That is in order
  exactly if the directory is not loaded and has not remembered the name as a whiteout
  (`Unregistered.UnregisteredIsCoherentIff`, run: `Counterexamples.CreatedNameIsDenied`).
* If RENAME_WHITEOUT fails while devices are allowed, the fallback cannot succeed: mknod meets the
  entry that is still there and reports EEXIST (`Whiteouts.CreateWhiteout`,
  `Overlay.OverlayInner.CoverThenMove`). With markers, a rename that fails after the marker was
  written leaves the entry hidden although unlink reports an error (`Overlay.OverlayInner.DoRm`).
* `create` inserts its backing over whatever its number has. Counts stay right exactly if it has none,
  which is a hypothesis of the runs; that a new file's number could be in use is not claimed
  (`Passthrough.CreateNeedsNewNumber`).
* An empty option disappears from a split list (`Options.SplitRoundTrip`), and a lower directory
  whose path ends in a backslash is fused with the next one (`Options.LowerdirInvertsJoin`).
* `copy_data` stops after `size` bytes of a longer source where sendfile does all the work
  (`CopyData.CopyData`, `CopyData.SuccessfulCopyIsExact`).
* The scan passes over the marker of `.opq` where the sentinel hides it; the lookup does not
  (`LazyLookup.LazyAgrees`, disk: `Counterexamples.LookupRemembersOpq`).
* A directory is renamed onto a device 0/0 only while devices are known to work: otherwise the device is
  not deleted, and the rename fails (`OverlayRename.Rename`).
* Opaqueness counts only when a directory itself is looked up, and on the upper layer it does not end the
  lookups in it (`OpaqueLookups.FoundBelowOpaqueIff`, disk: `Counterexamples.LookupSeesPastLowerOpaque`).
* A `readdirplus` entry that does not fit is counted and not given to the kernel; its number and entry then
  outlast what the kernel forgets (`KernelRefs.ForgetReleasesIff`).
* Double quotes keep the commas of an option's value together, and stay in the value
  (`Options.QuotesStayInTheValue`).
* After a rename on disk the destination is looked up with both parents marked for a new scan, so
  the lookup may find the moved entry itself; the node it makes is dropped again and only its id is
  used up (`OverlayRename.DropTarget`).

## Model

| member | source | states |
|---|---|---|
| Names.WhNameInverse | src/overlay.rs:579-585 | marker names and hidden names determine each other |
| Names.RenderOfChild | src/overlay.rs:553-562 | `child_path` of a rendered path is the rendering of the longer path, also at the root |
| Names.RenderInjective | src/node.rs:478-503 | different paths of valid names are different byte strings |
| NodeTree.CollectPath | src/node.rs:478-494 | the walk up ends, and collects exactly the names from the root down |
| NodeTree.ComputePath | src/node.rs:478-503 | the string that is returned is the rendering of the node's path |
| NodeTree.DistinctRenderedPaths | src/node.rs:478-503 | two nodes reached through children maps never have the same path string |
| NodeTree.ChildPathOfEntry | src/overlay.rs:543-562 | a listed child's path is `child_path` of its directory's path and its name |
| NodeArenas.NodeArena.Insert | src/node.rs:70-76 | the id was never in use, nothing else changes, and the node statistic stays the arena size |
| NodeArenas.NodeArena.Update | src/node.rs:84-86 | writing through `get_mut` replaces one node |
| NodeArenas.NodeArena.Remove | src/node.rs:89-95 | exactly one node goes, and the statistic counts it only if it was there |
| TreeRuns.InsertChildOk | src/overlay.rs:543-550 | a new child keeps the tree well formed, has the expected path, and moves no other node |
| TreeRuns.RmTreeOk | src/overlay.rs:333-358 | removal keeps the tree well formed and every path outside the removed subtree |
| TreeRuns.RenameRewritesPaths | src/overlay.rs:2383-2481 | one name and one parent change; in the moved subtree the old prefix becomes the new one, all other paths stay |
| TreeRuns.ExchangeSwapsPaths | src/overlay.rs:2396-2454 | the exchange branch swaps the two prefixes and nothing else |
| TreeRuns.ClearOk | src/node.rs:269-280 | emptying a directory's maps keeps the tree well formed, with orphans left in the arena |
| TreeRuns.RunKeepsTree | src/overlay.rs:2217-2488 | in every state of every run entries agree with the nodes they name and parent chains are acyclic |
| TreeRuns.RunKeepsPathsDistinct | src/node.rs:478-503 | in every state of every run different listed nodes have different path strings |
| Layers.Listed | src/overlay.rs:820-827 | a name is listed exactly if the layer has an entry one step below the directory |
| Merge.ScanEntryStep | src/overlay.rs:828-918 | the maps after some entries depend on which entries were taken, not on their order |
| Merge.ScanLayerUnique | src/overlay.rs:820-918 | every order of listing one layer leaves the same maps |
| Merge.EagerScanIsMerge | src/overlay.rs:780-926 | the scan is the declarative merge: child iff some scanned layer holds it plainly and no layer at or above hides it, with the topmost layer and the lowest listing layer; whiteouts are the hidden rest |
| Merge.ScanShowsWhatIsReached | src/overlay.rs:788-926 | on any views: a name is a child iff some layer shows it that the bound allows and above which the directory is everywhere absent, unlistable or a directory that is not opaque; with the first such layer, the lowest that lists it, and the whiteouts |
| Merge.MarkersAreNeverShown | src/overlay.rs:862-880 | no name with the marker prefix becomes a child |
| Merge.TopFacts | src/overlay.rs:780-926 | no layer above the one a child comes from ends the scan, holds the name plainly or hides it |
| LazyLookup.LazyFinds | src/overlay.rs:971-1092 | an ordinary name is found iff a layer within the bound has it and none at or above blocks it; its layer is the topmost that has it |
| LazyLookup.LookupOutcome | src/overlay.rs:971-1092 | on any views, errors included, exactly what a lookup gives: the first layer that mentions the name or fails decides, an opaque directory is its own last layer, and a failure below a find loses it |
| LazyLookup.LazyLast | src/overlay.rs:1013-1019 | the last layer recorded is the lowest that has the name, and for an opaque directory the layer it is found on |
| LazyLookup.LazyAgreesExactly | src/overlay.rs:971-1092 | lookup and scan agree on a name iff the scan has it or no layer below the end of the scan and within the bound shows it |
| LazyLookup.LazyAgrees | src/overlay.rs:971-1092 | they agree whenever no non-directory or opaque parent stands above the last layer, and what the lookup records as a whiteout the scan records too, `.opq` aside |
| LazyLookup.RescanCompletes | src/overlay.rs:820-848 | a scan over maps that agree with the merge as far as they go adds exactly what is missing, with the right layers |
| OpaqueLookups.NothingBelowOpaque | src/overlay.rs:1048-1062 | over any layers: if a directory is opaque on the layer it is found on, and that is not the upper one, a lookup in it finds nothing from below that layer |
| OpaqueLookups.FoundBelowOpaqueIff | src/overlay.rs:971-1092 | for an opaque directory on any layer: a lookup finds what lies below it iff the directory was found on the upper layer and is opaque there, or is not opaque where it was found and its own lookup reached that far |
| FreshMount.FreshIsTopmost | src/overlay.rs:780-926 | a node of a fresh mount is on the topmost layer that has its path, with that entry's kind |
| FreshMount.FreshIffReached | src/overlay.rs:788-926 | a path is a node iff its directory is one and a layer shows the name above which the directory is nowhere a file or opaque, within the bound |
| FreshMount.NothingFromBelowAnObstacle | src/overlay.rs:807-926 | above the layers a node is taken from no layer has a file or an opaque directory at its directory's path |
| FreshMount.FreshElsewhere | src/overlay.rs:780-926 | a change of the upper layer at one path and its marker is seen nowhere outside that path's subtree |
| FreshMount.EntryElsewhere | src/overlay.rs:780-926 | nor does it change the contents that are shown there |
| FreshMount.MarkerIsNoNode | src/overlay.rs:862-880 | markers are never nodes of a mount |
| DiskChanges.PublishedFresh | src/copyup.rs:180-222 | after an entry is published, the node at its path is on layer 0 and every other path is as before |
| DiskChanges.PublishIsInvisible | src/copyup.rs:180-222 | publishing a copy changes nothing that is seen at any path, contents included |
| Removal.RemovalIsExactly | src/overlay.rs:1239-1294 | removing an upper entry takes exactly its subtree away, and leaves nodes and contents elsewhere, iff a device or marker covers the name or no lower layer shows it |
| Removal.HideRemovesExactlyOne | src/overlay.rs:1250-1294 | the same for the choice that `hide_node` makes; with the numbers of a fresh scan it is always right |
| CleanDisk.VisibleIsInMerge | src/overlay.rs:780-926 | on a clean disk a scan shows exactly the closed form: the upper entry if there is one, else any lower one, unless marked |
| CleanDisk.CleanScan | src/overlay.rs:780-926 | what a scan of a clean directory caches: topmost layers, last layers below which nothing is left, genuine whiteouts |
| CleanDisk.CleanLookup | src/overlay.rs:971-1092 | what a lookup in a clean directory finds, and that finding nothing means that the upper layer hides nothing there |
| Filling.FillLast | src/overlay.rs:829-841 | listing a known child again changes its last layer and nothing else |
| Filling.FillWhiteout | src/overlay.rs:853-906 | recording a whiteout changes that map and nothing else |
| Filling.FillChild | src/overlay.rs:908-918 | a new child is added to the arena and to one map, and nothing else changes |
| Session.CoherentDir | src/overlay.rs:929-968 | in a coherent session cached children are scanned, cached whiteouts are not, loaded means all |
| Session.CoherentFresh | src/overlay.rs:780-1092 | a cached node has the layer and kind that a fresh mount finds at its path |
| Session.LayersDescend | src/copyup.rs:133-152 | a parent's layer is never below its child's |
| SessionScan.ReloadIsFreshScan | src/overlay.rs:1095-1112 | a reload gives the children of a scan from empty maps, whatever part was cached |
| SessionScan.LoadKeepsCoherence | src/overlay.rs:780-926 | a scan keeps the session coherent |
| SessionScan.LookKeepsCoherence | src/overlay.rs:929-1092 | a lookup keeps it coherent and finds the name iff the disk shows it |
| SessionDisk.CopyKeepsCoherence | src/copyup.rs:180-231 | a publishing step keeps the session coherent |
| SessionDisk.CopyIsInvisible | src/copyup.rs:180-231 | and is not seen |
| SessionDisk.CreateKeepsCoherence | src/overlay.rs:1337-1369 | creating an ordinary name that no lower layer has keeps the session coherent, staged or in place, opaque or not |
| SessionDisk.CreateShowsOneMore | src/overlay.rs:1992-2108 | the new path is shown with the entry that was made, and at no other path the node or the contents change |
| SessionDisk.RemoveKeepsCoherence | src/overlay.rs:271-373 | unlink and rmdir keep the session coherent, with a device, a marker or nothing left behind |
| SessionDisk.RemoveShowsOneLess | src/overlay.rs:271-373 | exactly the one name, with what was below it, is gone; nodes and contents elsewhere are as before |
| DiskRename.RenamedClean | src/overlay.rs:2340-2486 | the disk stays clean under a move, for files and directories, and for a file also onto the name of a lower file |
| SessionRename.RenameKeepsCoherence | src/overlay.rs:2217-2488 | rename keeps the session coherent when the new name has no stale marker and, if a lower layer has it, a file that is known to reach below comes to a file |
| SessionRename.RenameIsCoherentIff | src/overlay.rs:2217-2488 | and only then |
| RenameSeen.RenameShowsMoved | src/overlay.rs:2217-2488 | the moved subtree is shown at the new place, contents included, nothing at the old one, all else as it was |
| Clearing.CleanFresh | src/overlay.rs:780-926 | on a clean disk the fresh mount is the closed form at every path, with the topmost and the lowest layer of the path |
| Clearing.ClearIsUnseenIff | src/overlay.rs:2036-2101 | a creation or rename that fails after deleting whiteouts leaves the session coherent and the view the same iff none of them hid a lower name in a directory that is shown |
| Clearing.UnusedUncoversNothing | src/overlay.rs:2036-2101 | none does if no lower layer has the new name |
| Clearing.ClearKeepsCoherence | src/overlay.rs:2036-2101 | then the session stays coherent, whichever whiteouts went |
| Clearing.ClearIsInvisible | src/overlay.rs:2036-2101 | and nothing is seen of it |
| Clearing.MarkedChildIsHidden | src/overlay.rs:850-880 | a session with a cached child whose marker stands on the upper layer is not coherent |
| RenameUncovered.UncoveredKeepsCoherence | src/overlay.rs:2484-2487 | a rename whose whiteout could not be made keeps the session coherent |
| RenameUncovered.UncoveredIsCoherentIff | src/overlay.rs:2484-2487 | and it does so exactly under the condition of any other rename |
| RenameUncovered.UncoveredShows | src/overlay.rs:2484-2487 | the old name then shows a file iff a lower layer has it, and it is the entry of the topmost lower layer that does; all else is as after a rename, contents included |
| Unregistered.UnregisteredIsCoherentIff | src/overlay.rs:467-487 | a creation whose last stat fails leaves the session coherent iff the directory is not loaded and has not remembered the name as a whiteout |
| Unregistered.UnregisteredIsShown | src/overlay.rs:467-487 | its entry is shown all the same, and nothing else changes |
| Recreation.CreationIsSeen | src/overlay.rs:1992-2108 | a creation at any ordinary name, of lower layers or not: the entry is shown, nothing changes elsewhere, and nothing is below it iff it is no directory, is opaque, or no lower layer has anything there |
| Recreation.MkdirIsEmptyIff | src/overlay.rs:2030-2063 | with the opacity that `mkdir` asks for, nothing shows in the new directory iff the parent's last layer is positive or no lower layer has anything there |
| Recreation.CreationIsCoherentIff | src/overlay.rs:1337-1369 | a creation keeps the session coherent iff no lower layer has the name |
| Recreation.NewDirectoryIsNotLookedUp | src/overlay.rs:1337-1369 | a directory that was just made is a cached child without children in which no lookup goes to the layers |
| DiskExchange.ExchangedClean | src/overlay.rs:2370-2375 | the disk stays clean under an exchange of shown entries, if both are files where a lower layer has one of the names |
| SessionExchange.ExchangedPathOf | src/overlay.rs:2396-2454 | every node's path goes where the disk's entry goes |
| SessionExchange.ExchangeIsCoherentIff | src/overlay.rs:2396-2454 | an exchange keeps the session coherent iff what comes to a name that a lower layer has is a file known to reach below, in place of a file |
| SessionExchange.ExchangeShowsSwapped | src/overlay.rs:2396-2454 | each of the two subtrees is shown at the place of the other, entries included, and all else as it was |
| Coherence.RunKeepsCoherence | src/overlay.rs:134-172 | from a fresh mount every reachable state is coherent |
| Coherence.CacheAgreesWithDisk | src/overlay.rs:780-1092 | in every state of every run: children within a fresh scan, whiteouts outside, loaded means equal |
| Coherence.CachedNodesAreShown | src/overlay.rs:780-1092 | in every state every cached node is what a fresh mount shows |
| Coherence.LayersNeverDecrease | src/copyup.rs:133-152 | in every state of a session over clean lower layers, directory moves included, a node's layer is at least its parent's |
| Descent.ScanAddsFirst | src/overlay.rs:788-918 | whatever was cached, a name that a scan adds comes from the first scanned layer that lists it |
| Descent.GroundedDescends | src/copyup.rs:133-152 | where every node is on the topmost layer with its path, layers never decrease going down |
| Descent.UnusedIsClear | src/overlay.rs:2217-2488 | a move to a name that no lower layer has is such a move |
| Descent.RenameIsGroundedIff | src/overlay.rs:2217-2488 | after a rename no layer above a node's has its path iff no lower layer has the new path of a node that is cached below from a layer further down |
| Descent.ExchangeIsGroundedIff | src/overlay.rs:2217-2488 | the same of an exchange, for both subtrees |
| Descent.LayersNeverDecrease | src/copyup.rs:133-152 | in every run over arbitrary layers in which directories move only where no layer above a node cached below has its new path, a node's layer is at least its parent's and no layer above it has its path; if no directory moves, every node is on the topmost layer with its path |
| Coherence.StepIsSeen | src/overlay.rs:929-2488 | what each kind of step changes of what users see at every path, contents included, and that scans, lookups, copy-ups and clearings change nothing |
| Counterexamples.UnlinkedNameShowsAgain | src/overlay.rs:1250-1294 | a run of unlink, create and unlink of one name of the root after which a lower file shows again |
| Counterexamples.RenamedFileIsLost | src/overlay.rs:2340-2350 | a run after which a renamed file is on the upper layer and in the cache, and is not shown |
| Counterexamples.LookupSeesPastOpaque | src/overlay.rs:971-1092 | a disk on which the lookup finds a name that the scan does not |
| Counterexamples.LookupSeesPastLowerOpaque | src/overlay.rs:1010-1019 | a disk of three layers with the opaque directory on the middle one, past which the lookup finds a name |
| Counterexamples.LookupRemembersOpq | src/overlay.rs:1000-1045 | a disk on which the lookup remembers `.opq` as a whiteout and the scan does not |
| Counterexamples.ReplacedNameShowsAgain | src/overlay.rs:2378-2481 | a run of creating a file, renaming it over a lower one and unlinking it, after which the lower file shows |
| Counterexamples.ExchangedNameShowsAgain | src/overlay.rs:2396-2454 | a run of copying up a file, exchanging it with a new one and unlinking what came to its name, after which the lower file shows |
| Counterexamples.LowerFileShowsAgain | src/overlay.rs:2484-2487 | a run with a rename whose whiteout is not made, after which both the moved file and the lower one are shown |
| Counterexamples.CreatedNameIsDenied | src/overlay.rs:467-487 | a run with a creation whose last stat fails in a listed directory, after which the file is shown by a fresh mount and denied by the listing |
| DirectoryRuns.GrandchildAbove | src/overlay.rs:971-1092 | a run with a directory moved to a name of a lower layer, after which a child is cached on a layer above its parent's |
| DirectoryRuns.RemadeDirectoryIsNotEmpty | src/overlay.rs:2030-2063 | a run of emptying, removing and making again a directory of the root, after which a lower file shows in it |
| Disks.Disk.RenameIn | src/copyup.rs:183-216 | a rename from the workdir plants the staged entry and changes nothing else, or fails without effect |
| Disks.Disk.ExchangeIn | src/copyup.rs:185-205 | the exchange swaps the staged entry with what was there |
| Disks.Disk.RenameOut | src/overlay.rs:1264-1294 | moving an entry out removes its subtree, with a device left behind if asked for |
| Disks.Disk.RenameWithin | src/overlay.rs:2353-2375 | a rename within the upper layer; refused into the own subtree and onto a directory that is not empty; unless refused it happens exactly where it can |
| Disks.Disk.ExchangeWithin | src/overlay.rs:2370-2375 | two entries of the upper layer, neither above the other, trade places with what is below them |
| Disks.Disk.Mknod | src/whiteout.rs:162-170 | a device is made only where nothing is; EEXIST exactly if something is |
| Whiteouts.DeleteWhiteout | src/whiteout.rs:89-134 | at most the two whiteouts of the name go, on success the marker is gone, and if no call is refused it succeeds |
| Whiteouts.CreateWhiteout | src/whiteout.rs:140-196 | on success the name is covered by a device or a marker, on failure nothing changed; an entry in the way of the device makes it fail; with room for both and no call refused it succeeds; it reports when devices turn out to be unsupported |
| Whiteouts.SetOpaque | src/whiteout.rs:53-83 | success means an opaque xattr or the sentinel |
| CopyData.CopyData | src/copyup.rs:80-120 | under every schedule of partial transfers, interrupts and failures a success leaves the source, or its first `size` bytes if it is longer; a clone is the source, and without one a sound sendfile leaves exactly the cut; it fails exactly if a read or a write does |
| CopyData.ReadWriteRest | src/copyup.rs:104-120 | the last stage continues at the offsets of the one before, and completes the copy |
| CopyData.SuccessfulCopyIsExact | src/copyup.rs:80-120 | every success is exact, and the cut that sendfile leaves is the source, iff the size asked for is not less than the source or the source is empty |
| CopyUpSteps.CopyStep | src/copyup.rs:219-231 | a publishing step on any disk whose way down is right is invisible and keeps the way down right |
| CopyUpSteps.AncestorsOnUpper | src/copyup.rs:133-152 | a node on layer 0 has all its ancestors there, so the early exits skip nothing |
| CopyUpSteps.PublishedHasNoMarker | src/copyup.rs:224-228 | a name that is published has no marker, so the deletion that follows removes nothing |
| CopyUpSteps.CopiedAlongKeepsTree | src/copyup.rs:219-222 | only layers of copied nodes change, to 0; identities, names and maps stay |
| CopyUp.CreateNodeDirectory | src/copyup.rs:124-232 | terminates on depth; every state of the layers shows the same; on success the node and all ancestors are on layer 0; it succeeds if no call is refused |
| CopyUp.StageFile | src/copyup.rs:352-381 | a finished copy in the workdir has the contents of the source; a partial one stays in the workdir |
| CopyUp.CopyUp | src/copyup.rs:235-400 | every state of the layers shows the same, on success and on every failure exit; the steps taken are publishing steps of ancestors; it succeeds if no call is refused |
| CopyUp.CopyUpIsInvisible | src/copyup.rs:235-400 | after a copy-up: same view, same tree but for layers that became 0, coherence kept |
| CopyUp.GetNodeUp | src/overlay.rs:1217-1236 | the same for the entry point, which does nothing for nodes on layer 0 |
| Overlay.OverlayInner.constructor | src/overlay.rs:134-172 | a mount is the root directory alone |
| Overlay.OverlayInner.InsertChildNode | src/overlay.rs:543-550 | the arena and the parent's map after inserting a child |
| Overlay.OverlayInner.ScanOne | src/overlay.rs:820-918 | one directory entry has the effect that the scan function gives it |
| Overlay.OverlayInner.ScanEntries | src/overlay.rs:820-918 | the loop over one layer, in any order, gives that layer's maps |
| Overlay.OverlayInner.ScanLayers | src/overlay.rs:788-926 | the loop over the layers, with bound, obstacle and opacity, gives the scan |
| Overlay.OverlayInner.LoadDir | src/overlay.rs:780-926 | the directory's maps become those of the scan over what was cached, and it is loaded |
| Overlay.OverlayInner.ReloadDir | src/overlay.rs:1095-1112 | nothing if loaded, else a scan bounded by the last layer |
| Overlay.OverlayInner.Refresh | src/overlay.rs:3663-3692 | without errors the maps are those of a fresh scan, whatever was cached and whoever changed the layers |
| Overlay.OverlayInner.FindLazily | src/overlay.rs:983-1066 | the loop computes the lookup function, with its early returns |
| Overlay.OverlayInner.LazyLookup | src/overlay.rs:971-1092 | what is found becomes a child, what hides the name is remembered, else nothing changes |
| Overlay.OverlayInner.LookupFile | src/overlay.rs:929-968 | cached answers change nothing, others come from the layers |
| Overlay.OverlayInner.CoverThenMove | src/overlay.rs:1278-1290 | the fallback removes the entry behind a marker, or fails, and a failure may leave the marker |
| Overlay.OverlayInner.HideOnDisk | src/overlay.rs:1239-1294 | on success the entry is removed behind the cover that was called for; the failure states are listed |
| Overlay.OverlayInner.RemoveEntry | src/overlay.rs:1239-1318 | disk and cache after hiding and dropping, and unchanged cache on failure |
| Overlay.OverlayInner.FindRemovable | src/overlay.rs:271-332 | the lookup and the checks let a name through iff it is shown with the kind asked for, and a directory shown empty |
| Overlay.OverlayInner.DoRm | src/overlay.rs:271-373 | success is a removal step: one subtree gone from view, the rest the same, coherent; failure leaves the cache, and the session coherent iff no marker was written whose rename failed; it succeeds only if the name is shown with that kind, and a directory shown empty, and then it does if no call is refused |
| Overlay.OverlayInner.PlaceStaged | src/overlay.rs:2038-2102 | the staged entry replaces a whiteout of the name and is opaque only if asked for; on failure at most whiteouts of the name are gone; if no call is refused it succeeds, no marker is left, and a directory is opaque if asked for |
| Overlay.OverlayInner.CreateEntry | src/overlay.rs:1992-2108 | success is coherent iff no marker of the name is left and no lower layer has it, and is a creation step if none is left; failure leaves the cache and loses at most whiteouts of the name, seen exactly if one is lost that covered a lower name, or leaves the entry behind, coherent under the exact condition; it succeeds only if nothing is shown at the name, and then it does if no call is refused, with no marker left and a directory opaque if its parent reaches below |
| Overlay.CreatedCoherent | src/overlay.rs:1337-1369 | after a creation the session is coherent iff the marker of the name is gone and no lower layer has the name |
| Overlay.StillResolved | src/overlay.rs:449-463 | copying the parent up does not invalidate the lookup that found nothing |
| OverlayRename.DropTarget | src/overlay.rs:2456-2472 | the destination, or a node that the lookup makes of the moved entry, is dropped, and nothing else |
| OverlayRename.MoveInCache | src/overlay.rs:2383-2481 | the updates of the cache are the rename of the tree model |
| OverlayRename.MoveOnDisk | src/overlay.rs:2312-2375 | clearing, deleting whiteouts and renaming amount to the move of the disk model, if the marker of the new name is as it should be; on failure only what hid something is gone; where the place is open it succeeds if no call is refused |
| OverlayRename.CoverOldName | src/overlay.rs:2484-2487 | the whiteout completes the move; if no call is refused, a file that reached below is covered |
| OverlayRename.MovedCoherent | src/overlay.rs:2340-2487 | after a rename the session is coherent iff no marker of the new name is on the upper layer and the rename fits |
| OverlayRename.Rename | src/overlay.rs:2217-2488 | success is a rename step, covered or not, and coherent iff no marker of the new name is left and the rename fits; if no call is refused the old name of a file that reached below is covered and a directory's new name is clear; failure leaves the cache, and is unseen iff no whiteout is lost that hid a lower name, and so if no lower layer has the new name; it succeeds only where what is shown allows it and no device is in the way of a directory while devices are known not to work, and then it does if no call is refused |
| OverlayRename.ExchangeInCache | src/overlay.rs:2396-2454 | the updates of the exchange branch are the exchange of the tree model |
| OverlayRename.Exchange | src/overlay.rs:2217-2488 | success is an exchange step, coherent iff the exchange fits; failure is not seen; it succeeds only if both names are shown, the first is no directory that reaches below, the second is on the upper layer and neither is above the other, and then it does if no call is refused |
| InodeTable.ComputeFuseIno | src/node.rs:302-312 | the number is at least 2 and within 64 bits |
| InodeNumbers.OneDeviceKeepsNumbers | src/node.rs:302-305 | with all layers on one device a new number is the file's own inode number, unless that is reserved or taken |
| InodeNumbers.HashSeparates | src/node.rs:306-310 | equal hashes have equal inodes iff they have equal devices: the hash keeps apart what differs only in one of the two |
| InodeNumbers.ComputedNumbersDiffer | src/node.rs:306-310 | so their computed numbers differ, but where a hash is a reserved number |
| InodeTable.Pigeonhole | src/node.rs:397-407 | among the first candidates of the fallback counter one is free whenever fewer numbers are taken |
| InodeTable.InodeTable.IssueNumber | src/node.rs:394-407 | the collision loop ends and returns a free number of at least 2 whenever one is left |
| InodeTable.InodeTable.Register | src/node.rs:355-420 | links to a live entry, or issues a fresh number and keeps a recycled one as a tombstone; the node is recorded, unless a directory or a node with its path stands for it |
| InodeTable.InodeTable.Forget | src/node.rs:443-473 | removes a tombstone alone, counts down a live entry, and removes it at zero |
| InodeTable.InodeTable.FuseToIno | src/node.rs:342-345 | the table's entry of the key that the number maps to, whose number it is iff it is live |
| InodeTable.RegisterKeepsTable | src/node.rs:355-420 | the invariant is kept: live keys map back from their numbers, all numbers are at least 2 |
| InodeTable.ForgetKeepsTable | src/node.rs:443-473 | the invariant is kept by every `forget` |
| InodeTable.ForgetTombstone | src/node.rs:449-457 | one `forget` of a tombstone removes it and no live entry |
| InodeTable.RegisterRecordsNode | src/node.rs:355-418 | after registering, the node is among the entry's nodes or one at its place is; those in the arena stay, no others remain, and no other entry changes |
| InodeTable.LastNodeDropped | src/node.rs:428-432 | the next registration starts a new incarnation iff the dropped node was the last one in the arena |
| InodeTable.LiveNumbersDiffer | src/node.rs:318-325 | different live keys never share a number |
| KernelRefs.RunKeepsMount | src/overlay.rs:1585-1590 | in every run every held number is in the map and its count covers what the kernel holds |
| KernelRefs.HeldNumbersAreNotReused | src/node.rs:386-419 | `register` never issues a held number for another key or a new incarnation of the same key |
| KernelRefs.CountIsExact | src/node.rs:436-473 | in every state of every run the count of a live number is what the kernel holds plus what was counted and not given to it since the incarnation began |
| KernelRefs.ForgetReleasesIff | src/node.rs:443-473 | a `forget` of a live number removes it and its inode iff it returns all that the kernel holds and nothing was counted beside; no other number or inode changes |
| KernelRefs.LastForgetReleases | src/node.rs:443-473 | without entries that are only counted, the last reference that comes back releases number and inode, and no other does |
| KernelRefs.RecordedNodeStays | src/node.rs:355-432 | a recorded node stays with its inode and number while the entry is there and the node is in the arena and not dropped |
| KernelRefs.ForgetKeepsHeldNumber | src/node.rs:443-473 | a `forget` keeps a number that is still held iff the number is live or is forgotten whole |
| KernelRefs.PartialForgetOfTombstoneReleases | src/node.rs:449-457 | a concrete partial `forget` of a tombstone that releases a held number |
| Passthrough.RunKeepsState | src/overlay.rs:200-268 | in every interleaving each count is the handles plus the opens and releases in flight |
| Passthrough.OpenHandlesShareBacking | src/overlay.rs:213-253 | open handles of one inode share one backing, also after the race of two creators |
| Passthrough.HandleIsForWhatWasAsked | src/overlay.rs:200-268 | in every interleaving a handle, from its first step to its release, is for the inode that its own open or create asked for and no other, and its backing was made for that inode |
| Passthrough.BackingServesOneInode | src/overlay.rs:213-253 | handles and entries with one backing have one inode |
| Passthrough.WaitingAskedAndSawNone | src/overlay.rs:213-236 | the opens that wait for a backing of an inode are those that asked for it and saw none, less those that were answered |
| Passthrough.EntryLivesWhileUsed | src/overlay.rs:2791-2802 | the entry of an inode is there exactly while a handle uses it |
| Passthrough.ReleaseNeverUnderflows | src/overlay.rs:2793-2799 | the decrement meets an entry with a positive count |
| Passthrough.CreateNeedsNewNumber | src/overlay.rs:3209-3215 | `create` keeps the counts iff its number has no entry |
| Options.SplitOptions | src/config.rs:219-247 | the loop computes the splitter, whose cuts `SplitCutsAtSeparators` gives |
| Options.SplitCutsAtSeparators | src/config.rs:219-247 | any string is cut exactly at the commas that are not escaped and before which an even number of double quotes is not escaped; empty pieces and a last lone backslash go |
| Options.SplitInvertsQuotedJoin | src/config.rs:219-247 | a comma-join of options, each escaped or with its value between double quotes, splits back into them, but for empty ones |
| Options.QuotesStayInTheValue | src/config.rs:211-266 | the quotes are part of the value that is parsed, and unescaping leaves them |
| Options.UnescapePath | src/config.rs:250-266 | the loop drops one backslash before each character |
| Options.UnescapeDropsEscapes | src/config.rs:250-266 | of any string, exactly the backslashes go that escape a character |
| Options.ParseLowerdir | src/config.rs:381-411 | the loop splits at colons that are not escaped |
| Options.SplitInvertsJoin | src/config.rs:219-247 | splitting a comma-join of escaped options gives them back, except that empty ones disappear |
| Options.SplitRoundTrip | src/config.rs:219-247 | the list comes back iff no option is empty |
| Options.OptionStringRoundTrip | src/config.rs:211-266 | every list of keys with escaped values is split and unescaped to what it was made of |
| Options.UnescapeInvertsEscape | src/config.rs:250-266 | unescaping inverts escaping for every value |
| Options.LowerdirInvertsJoin | src/config.rs:381-411 | what parsing gives for every colon-join: empty paths go, and a path that ends in a backslash is fused with the next |
| Options.LowerdirRoundTrip | src/config.rs:381-411 | the list of paths comes back iff none is empty and none but the last ends in a backslash |
| Xattr.ShownNameIsStoredBack | src/xattr.rs:53-83 | a shown name is stored as what it was iff it is not of the encoded form, or containers mode is on and the limit is kept |
| Xattr.DecodeInvertsEncode | src/xattr.rs:53-83 | decoding inverts encoding iff the name is not already of the encoded form |
| Xattr.EncodeIsInjective | src/xattr.rs:66-83 | two plain names are never stored under one name |
| Xattr.FilterXattrList | src/xattr.rs:86-106 | the loop passes on, in order, what decoding makes of each name |
| Xattr.FilterOfPacked | src/xattr.rs:86-106 | on a list of terminated names, empty ones among them, the result is the packed list of decoded names |
| Xattr.ShownNamesAreDecoded | src/xattr.rs:86-106 | a name is in the filtered list iff some stored name decodes to it |
| Xattr.ReservedNamesAreStoredEncoded | src/xattr.rs:22-62 | a listed name with an internal prefix was stored in the encoded form, and a name with none of the prefixes is listed as it is |
| Xattr.ReservedNamesAreNotStored | src/xattr.rs:66-83 | a name can be set iff it is not internal, or containers mode is on and its encoded form is not too long; an internal one is stored in that form and no other is changed |

## Left out

- FUSE replies, capability negotiation, statfs, read, write, seek, fallocate and copy ranges: calls passed through to the kernel.
- Ownership, modes, timestamps, ACLs, ordinary xattrs and stat overrides: their results are ignored in the source, and no invariant hangs on them. The three opaque xattrs are one flag of a directory.
- Symlink resolution below `openat2`: paths are followed entry by entry.
- Node objects are values in the arena map, which methods of `NodeArena` update; reading a node and writing it back stands for a mutable reference.
- Calls from the engine into the inode table are not made by `OverlayInner`; their order is that of the events of `KernelRefs`.
- Overflow of the 64-bit lookup counts and handle counters: counts are unbounded.
- Hard links on disk: `link` is a creation step with the linked file's contents, so the identity of the two names is not modelled there, nor is a rename between two names of one file.
- An exchange whose second name has gone since the kernel looked it up, and its EIO reply.
- Flags of rename other than exchange, and name length limits.
- External changes of layers while mounted, other than as the starting point of `Refresh`.
- The name `.opq`, whose marker looks like the inner part of the sentinel: sessions of `Coherence` neither create it nor have lower layers that hold an entry of that name.
- xino and NFS handles, `statx` fields, id mappings, plug-in data sources, command line handling and logging.
