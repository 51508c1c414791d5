# GarminTreeModel in Dafny

This project models the Qt item model `GarminTreeModel` of AnalyzeGPX_Qt. The model finds the GPX track files on the mounted Garmin devices and shows them as a two-level tree:

- the root lists one volume node per `Garmin/GPX` folder (in any letter case) that holds track files;
- each volume node lists one file node per `.gpx` file (in any letter case) of that folder.

A hierarchical view walks the tree through the item-model interface: `index`, `parent`, `rowCount`, `columnCount`, `data` and `roleNames`. The application asks for the path of a selected track file through `getPathFromTreeNodeFromIndex`.

## Structure

The modules follow the program's parts. Each module lives in its own file.

- `Wrappers`: the `Option` type. It stands for null pointers, expired weak pointers and empty `QVariant`s.
- `Seqs`: order-preserving filters, and first and last index search.
- `Text`: `toLower` (on ASCII letters), plus `QFileInfo::suffix` and `QFileInfo::baseName` on file names.
- `FileSystem`: a snapshot of the mounted volumes and their directory listings, and the listing filters the scans use (directories only, files only, no symbolic links, no hidden entries).
- `TreeNode`: the `GarminTreeNode` tree as an arena of nodes. A node has a name, a full path, child ids and an optional parent id. Node 0 is the root. The node operations are specified only as the model uses them: construct, `childCount`, `child`, `appendChild`, `row` and `resetTreeNode`.
- `Scan`: an independent statement of what a rescan must produce. It gives the sequence of volume entries below the root, each with its track files, as a function of the snapshot.
- `TreeShape`: the shape every rescan leaves the arena in, and how a caller reads the arena back as that sequence.
- `GarminTreeModel`:
  - the model itself and its role map;
  - the rescan, written as loops that follow the C++ one for one;
  - the traversal functions.
- `Scenarios`: whole rescans of small snapshots. These cover a two-track device, case-variant duplicate folders, and devices that show nothing.

The central result is the contract of `GarminTreeModel.LoadGarminDevices`. Whatever tree the model held before, the rescan leaves a well-formed arena whose read-back equals `Scan.Expected(volumes)`. The role map is untouched.

## Model

| member | source | states |
|---|---|---|
| GarminTreeModel.NewModel | ModelView/garmintreemodel.cpp:45-52 | The constructor leaves a well-formed tree with no volume entries and a role map with exactly the two keys NameRole and FullPathRole, named "name" and "fullPath". |
| GarminTreeModel.NewModelRoleNames | ModelView/garmintreemodel.h:52-55 | NameRole and FullPathRole are distinct and consecutive, and they start at Qt::UserRole + 1 = 257. roleNames of a new model is exactly {257 → "name", 258 → "fullPath"}. |
| GarminTreeModel.RoleNames | ModelView/garmintreemodel.cpp:233-236 | roleNames hands back the model's role map unchanged: the same keys, each with the same name. |
| GarminTreeModel.LoadGarminDevices | ModelView/garmintreemodel.cpp:54-94 | After a rescan the tree is well formed and reads back as exactly Expected(volumes). This holds whatever the tree held before, because the reset discards it. The root keeps its name and path, and the role map, and so roleNames, is unchanged. |
| GarminTreeModel.ScanVolume | ModelView/garmintreemodel.cpp:63-89 | Scanning one volume appends, in listing order, the entries of all its top-level garmin folders. It leaves the tree well formed. |
| GarminTreeModel.ScanTopLevel | ModelView/garmintreemodel.cpp:69-88 | A top-level folder whose name lower-cases to "garmin" contributes its gpx sub-folders' entries. Any other folder contributes nothing. |
| GarminTreeModel.ScanGarminFolder | ModelView/garmintreemodel.cpp:71-87 | Every sub-folder whose name lower-cases to "gpx" is scanned, in listing order, with no early exit. The tree grows by exactly those folders' entries. |
| GarminTreeModel.AddGpxFolder | ModelView/garmintreemodel.cpp:77-86 | A gpx folder adds one volume entry, labelled with the volume's name and the folder's path, exactly when the folder yields at least one track file. Otherwise the tree is unchanged. |
| GarminTreeModel.ReadGpxFilesInFolder | ModelView/garmintreemodel.cpp:108-126 | The volume node gains one child per listed file whose lower-cased suffix is "gpx", in listing order. Each child has the file's base name and absolute path and links back to the volume. The call returns true exactly when the node now has children, which for a fresh node means exactly when a track file was found. |
| GarminTreeModel.AddMatchingFiles | ModelView/garmintreemodel.cpp:113-121 | The loop over the file listing appends, for each file the filter accepts and in order, a node that links to the volume. No other node changes. |
| GarminTreeModel.AddFileNode | ModelView/garmintreemodel.cpp:115-119 | One track file becomes a new node at the end of the arena, with the file's base name and absolute path and a link to the volume. It is appended to the volume's children, and every other node is unchanged. |
| GarminTreeModel.GrowStep | ModelView/garmintreemodel.cpp:115-119 | Appending one more file node extends the grown tree by exactly that file. |
| GarminTreeModel.GrownCount | ModelView/garmintreemodel.cpp:122-125 | Growing by n files raises the volume's child count by exactly n. |
| GarminTreeModel.GrownIsStaged | ModelView/garmintreemodel.cpp:78-80 | A volume node built without a parent link and then grown is appended after every existing node and holds exactly its file nodes. |
| GarminTreeModel.Index | ModelView/garmintreemodel.cpp:155-177 | Index is valid exactly when column is 0, the parent's column is not positive and 0 ≤ row < the child count of the root (for an invalid parent) or of the addressed node. A valid index is (row, 0, that child). |
| GarminTreeModel.Parent | ModelView/garmintreemodel.cpp:179-195 | Parent is invalid for an invalid index, for a node without a live parent link and for a child of the root. Otherwise it addresses the linked parent node at column 0, and its row is that node's row. |
| GarminTreeModel.RowCount | ModelView/garmintreemodel.cpp:197-210 | rowCount is 0 when the parent's column is positive. Otherwise it is the child count of the root (invalid parent) or of the addressed node. |
| GarminTreeModel.ColumnCount | ModelView/garmintreemodel.cpp:212-216 | The model has one column, whatever the parent. |
| GarminTreeModel.Data | ModelView/garmintreemodel.cpp:218-230 | data yields a value exactly for a valid index with NameRole, and that value is the node's name. |
| GarminTreeModel.GetPathFromIndex | ModelView/garmintreemodel.cpp:96-104 | The full path is returned exactly when the index's parent index is valid, and the empty string otherwise. |
| GarminTreeModel.IndexIsAddressable | ModelView/garmintreemodel.cpp:155-177 | On a well-formed tree, index only hands out indexes that address nodes of the arena. |
| GarminTreeModel.VolumeThroughIndex | ModelView/garmintreemodel.h:67-73 | Row k below the root is the k-th volume entry: data shows its name and rowCount counts its files. A selected volume has an invalid parent and yields the empty path. |
| GarminTreeModel.FileThroughIndex | ModelView/garmintreemodel.cpp:179-195 | Row j below volume k is that volume's j-th track file: data shows its base name, the selected path is its full path, and it has no rows. Its parent index addresses the volume node at row 0, which equals the volume's own index only for k = 0. |
| GarminTreeModel.DepthAtMostTwo | ModelView/garmintreemodel.h:103-107 | A valid index below a valid index below the root has no rows and no valid index below it, so the tree is at most two levels deep. |
| TreeShape.AttachVolume | ModelView/garmintreemodel.cpp:83-85 | Attaching a staged volume that holds files keeps the tree well formed and appends exactly that volume's entry to the read-back. |
| TreeShape.ResetIsEmpty | ModelView/garmintreemodel.cpp:56-59 | A root without children is a well-formed tree that shows no volume entries. |
| TreeNode.ResetTreeNode | ModelView/garmintreemodel.cpp:59 | The reset keeps only the root, with no children, and keeps its name, path and parent link. |
| TreeNode.NewNode | ModelView/garmintreemodel.cpp:78-80 | A constructed node has no children and the given name, path and parent link. It is appended to the arena, and every existing node is left alone. |
| TreeNode.AppendChild | ModelView/garmintreemodel.cpp:119 | appendChild adds exactly one child, at the end. Earlier children, all other nodes and the node's name, path and parent link are unchanged. |
| TreeNode.Child | ModelView/garmintreemodel.cpp:172 | child(i) is present exactly when 0 ≤ i < childCount, and it is then the child at position i. |
| TreeNode.Row | ModelView/garmintreemodel.cpp:194 | row() of a node without a parent link is 0, the stated assumption about the node class. A linked node's row is found by RowLocatesNode. |
| TreeNode.RowLocatesNode | ModelView/garmintreemodel.cpp:194 | When a node's parent lists it, row() is in range, the parent's child at that row is the node, and no earlier child is the node. |
| TreeShape.WellFormedRow | ModelView/garmintreemodel.cpp:194 | In every tree a rescan leaves, each node with a parent link is listed by that parent at position row(), so child(row()) gives the node back. |
| TreeNode.RowAfterAppend | ModelView/garmintreemodel.cpp:194 | The row of a child just appended to its parent is the parent's former child count. |
| Scan.GpxFilesMembers | ModelView/garmintreemodel.cpp:111-114 | An entry is among a folder's track files exactly when it is a listed file (no symbolic link, not hidden) whose lower-cased suffix is "gpx". |
| Scan.ExpectedMembers | ModelView/garmintreemodel.cpp:63-87 | A volume entry appears exactly when some volume has a top-level garmin folder holding a gpx folder with at least one track file. The entry has the volume's name, the gpx folder's path and that folder's track files. |
| Scan.ExpectedAppend | ModelView/garmintreemodel.cpp:63 | Root entries come in volume order: the entries of a snapshot are those of its first part followed by those of the rest. |
| Scan.ExpectedHasNoEmptyVolume | ModelView/garmintreemodel.cpp:81-85 | No volume entry below the root is ever empty. |
| Scan.CandidatesMembers | ModelView/garmintreemodel.cpp:69-77 | A (volume, gpx folder) pair is scanned exactly when the folder is a gpx sub-folder of a top-level garmin folder of that volume. |
| Scan.GarminMatchesMembers | ModelView/garmintreemodel.cpp:69-73 | Within one volume, a gpx folder is scanned exactly when it sits in some top-level garmin folder. |
| Scan.SubMatchesMembers | ModelView/garmintreemodel.cpp:76-77 | Within one garmin folder, a sub-folder is scanned exactly when its name lower-cases to "gpx". |
| Text.ToLower | ModelView/garmintreemodel.cpp:70 | Lower-casing keeps the length and lowers each ASCII letter independently. |
| Text.LowerEqualsIff | ModelView/garmintreemodel.cpp:77 | A name lower-cases to "gpx" (or any lower-case word) exactly when it spells that word with each letter in either case. |
| Text.SuffixSpec | ModelView/garmintreemodel.cpp:114 | The suffix is the dot-free tail after the last '.', and it is empty when the name has no '.'. |
| Text.BaseNameSpec | ModelView/garmintreemodel.cpp:116 | The base name is the dot-free prefix before the first '.', or the whole name when it has none. |
| Text.SuffixOfDotted | ModelView/garmintreemodel.cpp:114 | "stem.ext" has suffix "ext" whatever dots the stem holds. |
| Text.BaseNameOfDotted | ModelView/garmintreemodel.cpp:116 | "base.rest" has base name "base" whatever dots the rest holds. |
| Scenarios.TrackFile | ModelView/garmintreemodel.cpp:114-117 | A file "stem.ext" with ext equal to "gpx" in any case is a track file shown as "stem". |
| Scenarios.TwoTrackDevice | ModelView/garmintreemodel.cpp:63-87 | A device with one garmin/gpx folder holding two track files yields one volume entry with both files, in listing order. |
| Scenarios.EdgeScenario | ModelView/garmintreemodel.cpp:113-121 | A device "Edge" whose "Garmin/GPX" folder lists "Leine.GPX" and "Weser.gpx" (name order, ignoring case) shows "Leine" and then "Weser" below one entry. |
| Scenarios.TwinCandidates | ModelView/garmintreemodel.cpp:69-87 | Two garmin folders in one volume each yield their gpx folder: the search does not stop at the first match. |
| Scenarios.TwinDevice | ModelView/garmintreemodel.cpp:69-87 | Two garmin folders, each with one track file, yield two entries with the same volume label, in listing order. |
| Scenarios.CaseVariantScenario | ModelView/garmintreemodel.cpp:69-87 | Folders "Garmin" and "GARMIN" both count, giving two entries labelled "Mixed". |
| Scenarios.OneTrackAccepted | ModelView/garmintreemodel.cpp:83-85 | A gpx folder with one track file contributes exactly one entry holding it. |
| Scenarios.NoGpxFolder | ModelView/garmintreemodel.cpp:75-77 | A garmin folder without a gpx sub-folder adds nothing. |
| Scenarios.NoTracksFiles | ModelView/garmintreemodel.cpp:111-114 | Neither a file with another extension nor a directory named "x.gpx" counts as a track file. |
| Scenarios.NoTracksInFolder | ModelView/garmintreemodel.cpp:83-85 | A gpx folder without track files adds no volume entry. |
| Scenarios.EmptyScenarios | ModelView/garmintreemodel.cpp:81-85 | "Garmin" holding only "Activities", and "Garmin/GPX" holding only the file "notes.txt" and a directory "notes.gpx", both show nothing. |

## Assumptions and where the model follows the code

- The node class `GarminTreeNode` is not part of this model. The model uses it only through the calls this file makes.
- `row()` of a node without a parent link is assumed to be 0. Volume nodes are constructed without a parent link (`garmintreemodel.cpp:78-80`). So `parent()` of a volume index leaves through the expired-link branch, and the parent index of a file below the k-th volume has row 0, not k. `GarminTreeModel.FileThroughIndex` states this as it is. No index/parent round trip is claimed for volumes after the first.
- A model index is `Invalid` or `Idx(row, column, node)` with a non-negative row and column. Qt's `QModelIndex::isValid()` holds only when both are non-negative and the index has a model, so `Idx` is exactly a valid index. Any index with a negative coordinate is `Invalid`.
- Every matching garmin/gpx pair is scanned: the loops have no early exit. Case-variant duplicate folders therefore each give their own volume entry. A "first match wins" rule would not match the code, and the model follows the code.
- A listing's order is part of the snapshot. `QDir` lists a directory sorted by name, ignoring case (its default sort); names that tie, such as "Garmin" and "GARMIN", keep the host's order. Snapshot listings are taken to be in that order, and the model keeps the order it is given. The volumes are in the order `QStorageInfo::mountedVolumes` reports them.

## Left out

- Listing order: the model does not sort a listing or check that it is in `QDir`'s name order. It relies on the snapshot giving each listing in that order.
- `main.cpp`: application start-up and QML wiring, which contain no model logic.
- `QStorageInfo`, `QDir`, `QFileInfo`: the mounted volumes and directory listings are an input snapshot (`FileSystem.Volume`, `FileSystem.Entry`). The host's hidden and symbolic-link attributes are flags on the entries.
- `beginResetModel`, `endResetModel` and the `modelChanged` signal: observer notifications that carry no state the model reads.
- `dumpTree` and `qDebug` output: diagnostics only.
- `createTestData`: debug data that wires grandchildren with the root as their parent. It breaks the tree's invariants and is not called by the rescan.
- `shared_ptr`/`weak_ptr` ownership and `internalPointer` casts: nodes are arena ids. An expired parent link is a parent id outside the arena. A handle's pointer is valid when its id is in the arena (`Addressable`).
- `tr()`, `QVariant` and `QString`: a translated root name is a plain string, and an empty `QVariant` is `None`.
- Text.ToLower: lower-cases ASCII letters only, because Unicode case mapping is not modelled.
- GarminTreeModel.RowCount: returns the exact child count and does not model the `size_t` to `int` cast. The model's sequences are unbounded. In the source, a volume node's children come from one `entryInfoList()`, a `QList` whose size is an `int`, so that count always fits. The root's count could pass 2^31 - 1 only with that many gpx folders across the mounted volumes; there the source's cast would wrap and the model's count would not.
- TreeNode.Row: a node without a parent link, or one its parent does not list, gets row 0. This is the stated assumption about the node class, not a derived fact.
