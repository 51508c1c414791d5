/** The tree model: the root arena plus the role map, the rescan that
    rebuilds the tree from a volume snapshot, and the index/parent/rowCount/
    columnCount/data contract a hierarchical view uses to walk it. */
module GarminTreeModel {

  import opened Wrappers
  import opened Seqs
  import opened FileSystem
  import opened Text
  import opened TreeNode
  import opened Scan
  import opened TreeShape

  /** The first role id free for application use in Qt, and the two display
      roles that follow it. */
  const UserRole: int := 0x0100
  const NameRole: int := UserRole + 1
  const FullPathRole: int := NameRole + 1

  datatype Model = Model(tree: Tree, roles: map<int, string>)

  /** The constructor: a root named "name" at "/" with no children, and the
      two display roles keyed "name" and "fullPath". */
  function NewModel(): (m: Model)
    ensures WellFormed(m.tree) && View(m.tree) == []
    ensures m.roles.Keys == {NameRole, FullPathRole}
    ensures m.roles[NameRole] == "name" && m.roles[FullPathRole] == "fullPath"
  {
    Model(Tree([Node("name", "/", [], None)]),
          map[NameRole := "name", FullPathRole := "fullPath"])
  }

  /** The role map a view asks for: the model's own, handed back as it is. */
  function RoleNames(m: Model): (r: map<int, string>)
    ensures r.Keys == m.roles.Keys && forall role | role in r :: r[role] == m.roles[role]
  {
    m.roles
  }

  /** The role ids are distinct, consecutive and start right after Qt's user
      role, and a freshly built model names exactly those two roles. */
  lemma NewModelRoleNames()
    ensures NameRole == UserRole + 1 && FullPathRole == NameRole + 1
    ensures NameRole != FullPathRole && NameRole == 257
    ensures RoleNames(NewModel()) == map[257 := "name", 258 := "fullPath"]
  {
  }

  // ----- Rescan -----

  /** One step of the scan of a gpx folder: a new file node for `e`, linked
      to `vol` and appended to its children. */
  function AddFileNode(t: Tree, vol: nat, e: Entry): (r: Tree)
    requires vol < |t.nodes|
    ensures |r.nodes| == |t.nodes| + 1 && r.nodes[|t.nodes|] == FileNode(e, vol)
    ensures r.nodes[vol] == t.nodes[vol].(children := t.nodes[vol].children + [|t.nodes|])
    ensures forall k | 0 <= k < |t.nodes| && k != vol :: r.nodes[k] == t.nodes[k]
  {
    var (t1, id) := NewNode(t, BaseName(e.name), e.path, Some(vol));
    AppendChild(t1, vol, id)
  }

  /** `t'` is `t` with one file node per entry of `gpx` appended to the arena
      and to the children of `vol`, in order. */
  ghost predicate Grown(t: Tree, t': Tree, vol: nat, gpx: seq<Entry>)
  {
    && vol < |t.nodes|
    && |t'.nodes| == |t.nodes| + |gpx|
    && (forall k | 0 <= k < |t.nodes| && k != vol :: t'.nodes[k] == t.nodes[k])
    && t'.nodes[vol] == t.nodes[vol].(children := t.nodes[vol].children + Range(|t.nodes|, |t'.nodes|))
    && (forall id | |t.nodes| <= id < |t'.nodes| :: t'.nodes[id] == FileNode(gpx[id - |t.nodes|], vol))
  }

  /** Adding one more file node keeps the tree grown by the extended list. */
  lemma GrowStep(t: Tree, t': Tree, vol: nat, gpx: seq<Entry>, e: Entry)
    requires Grown(t, t', vol, gpx)
    ensures Grown(t, AddFileNode(t', vol, e), vol, gpx + [e])
  {
    var n := |t'.nodes|;
    var t'' := AddFileNode(t', vol, e);
    RangeExtend(|t.nodes|, n);
    assert t''.nodes[vol].children == t'.nodes[vol].children + [n];
    assert t'.nodes[vol].children + [n] == t.nodes[vol].children + Range(|t.nodes|, n + 1);
    assert t''.nodes[n] == FileNode(e, vol);
  }

  /** Growing adds one child per entry. */
  lemma GrownCount(t: Tree, t': Tree, vol: nat, gpx: seq<Entry>)
    requires Grown(t, t', vol, gpx)
    ensures vol < |t'.nodes| && ChildCount(t', vol) == ChildCount(t, vol) + |gpx|
  {
  }

  /** Walks `files` in order and appends, below node `vol`, one file node per
      file that passes `keep`. */
  method AddMatchingFiles(t: Tree, vol: nat, files: seq<Entry>, keep: Entry -> bool) returns (t': Tree)
    requires vol < |t.nodes|
    ensures Grown(t, t', vol, Filter(files, keep))
  {
    t' := t;
    ghost var kept: seq<Entry> := [];
    var i := 0;
    assert Range(|t.nodes|, |t.nodes|) == [];
    assert t.nodes[vol].children + [] == t.nodes[vol].children;
    while i < |files|
      invariant 0 <= i <= |files|
      invariant kept == FilterUpTo(files, keep, i)
      invariant Grown(t, t', vol, kept)
    {
      FilterUpToStep(files, keep, i);
      if keep(files[i]) {
        GrowStep(t, t', vol, kept, files[i]);
        t' := AddFileNode(t', vol, files[i]);
        kept := kept + [files[i]];
      }
      i := i + 1;
    }
  }

  /** Appends, below node `vol`, one file node per track file of the folder
      listing, in listing order, and reports whether `vol` now has children. */
  method ReadGpxFilesInFolder(t: Tree, vol: nat, listing: seq<Entry>) returns (t': Tree, found: bool)
    requires vol < |t.nodes|
    ensures Grown(t, t', vol, GpxFiles(listing))
    ensures found <==> ChildCount(t, vol) > 0 || |GpxFiles(listing)| > 0
  {
    t' := AddMatchingFiles(t, vol, Files(listing), IsGpxFile);
    GrownCount(t, t', vol, GpxFiles(listing));
    found := ChildCount(t', vol) > 0;
  }

  /** A volume node grown from a fresh, childless node appended to a well
      formed arena is staged for attaching. */
  lemma GrownIsStaged(t: Tree, t1: Tree, t2: Tree, v: nat, volName: string, path: string, gpx: seq<Entry>)
    requires WellFormed(t)
    requires NewNode(t, volName, path, None) == (t1, v)
    requires Grown(t1, t2, v, gpx)
    ensures StagedVolume(t, t2, v, volName, path, gpx)
  {
    assert t2.nodes[..v] == t.nodes by {
      forall i | 0 <= i < v ensures t2.nodes[i] == t.nodes[i] {
        assert t1.nodes[..v][i] == t1.nodes[i];
      }
    }
  }

  /** One gpx folder found inside a garmin folder: a volume node labelled
      `volName` is built for it and attached to the root only when it
      received at least one track file. */
  method AddGpxFolder(t: Tree, volName: string, gpxDir: Entry) returns (t': Tree)
    requires WellFormed(t)
    ensures WellFormed(t')
    ensures View(t') == View(t) + Accept(Candidate(volName, gpxDir))
    ensures t'.nodes[Root].name == t.nodes[Root].name && t'.nodes[Root].fullPath == t.nodes[Root].fullPath
  {
    var (t1, v) := NewNode(t, volName, gpxDir.path, None);
    var t2, found := ReadGpxFilesInFolder(t1, v, Contents(gpxDir));
    if found {
      GrownIsStaged(t, t1, t2, v, volName, gpxDir.path, GpxFiles(Contents(gpxDir)));
      AttachVolume(t, t2, v, volName, gpxDir.path, GpxFiles(Contents(gpxDir)));
      t' := AppendChild(t2, Root, v);
    } else {
      t' := t;
    }
  }

  /** Scans the sub-folders of one top-level garmin folder, adding every
      gpx sub-folder in listing order. */
  method ScanGarminFolder(t: Tree, volName: string, garmin: Entry) returns (t': Tree)
    requires WellFormed(t)
    ensures WellFormed(t')
    ensures View(t') == View(t) + ExpectedOf(SubMatches(volName, Dirs(Contents(garmin))))
    ensures t'.nodes[Root].name == t.nodes[Root].name && t'.nodes[Root].fullPath == t.nodes[Root].fullPath
  {
    var subs := Dirs(Contents(garmin));
    t' := t;
    ghost var added: seq<VolumeView> := [];
    var k := 0;
    while k < |subs|
      invariant 0 <= k <= |subs|
      invariant WellFormed(t')
      invariant added == ExpectedOf(SubMatches(volName, subs[..k]))
      invariant View(t') == View(t) + added
      invariant t'.nodes[Root].name == t.nodes[Root].name && t'.nodes[Root].fullPath == t.nodes[Root].fullPath
    {
      var sub := subs[k];
      SubMatchesStep(volName, subs, k);
      if ToLower(sub.name) == GpxFolder {
        t' := AddGpxFolder(t', volName, sub);
        AppendAssoc(View(t), added, Accept(Candidate(volName, sub)));
        added := added + Accept(Candidate(volName, sub));
      }
      k := k + 1;
    }
    assert subs[..|subs|] == subs;
  }

  /** Descends into one top-level folder of a volume when it is a garmin
      folder; any other folder leaves the tree as it is. */
  method ScanTopLevel(t: Tree, volName: string, dir: Entry) returns (t': Tree)
    requires WellFormed(t)
    ensures WellFormed(t')
    ensures View(t') == View(t) + (if IsGarminDir(dir) then ExpectedOf(SubMatches(volName, Dirs(Contents(dir)))) else [])
    ensures t'.nodes[Root].name == t.nodes[Root].name && t'.nodes[Root].fullPath == t.nodes[Root].fullPath
  {
    if ToLower(dir.name) == GarminFolder {
      t' := ScanGarminFolder(t, volName, dir);
    } else {
      t' := t;
      assert View(t) + [] == View(t);
    }
  }

  /** Scans the top-level folders of one volume, descending into every
      garmin folder in listing order. */
  method ScanVolume(t: Tree, vol: Volume) returns (t': Tree)
    requires WellFormed(t)
    ensures WellFormed(t')
    ensures View(t') == View(t) + ExpectedOf(GarminMatches(vol.name, Dirs(vol.entries)))
    ensures t'.nodes[Root].name == t.nodes[Root].name && t'.nodes[Root].fullPath == t.nodes[Root].fullPath
  {
    var topLevel := Dirs(vol.entries);
    t' := t;
    ghost var added: seq<VolumeView> := [];
    var j := 0;
    while j < |topLevel|
      invariant 0 <= j <= |topLevel|
      invariant WellFormed(t')
      invariant added == ExpectedOf(GarminMatches(vol.name, topLevel[..j]))
      invariant View(t') == View(t) + added
      invariant t'.nodes[Root].name == t.nodes[Root].name && t'.nodes[Root].fullPath == t.nodes[Root].fullPath
    {
      GarminMatchesStep(vol.name, topLevel, j);
      ghost var step := if IsGarminDir(topLevel[j]) then ExpectedOf(SubMatches(vol.name, Dirs(Contents(topLevel[j])))) else [];
      t' := ScanTopLevel(t', vol.name, topLevel[j]);
      AppendAssoc(View(t), added, step);
      added := added + step;
      j := j + 1;
    }
    assert topLevel[..|topLevel|] == topLevel;
  }

  /** Rescans the mounted volumes: discards every node below the root, then
      attaches one volume node per top-level garmin folder and gpx sub-folder
      pair that holds track files, in volume order and then listing order.
      The role map is left alone. */
  method LoadGarminDevices(m: Model, volumes: seq<Volume>) returns (m': Model)
    requires |m.tree.nodes| > 0 && m.tree.nodes[Root].parent.None?
    ensures WellFormed(m'.tree)
    ensures View(m'.tree) == Expected(volumes)
    ensures m'.roles == m.roles && RoleNames(m') == RoleNames(m)
    ensures m'.tree.nodes[Root].name == m.tree.nodes[Root].name
    ensures m'.tree.nodes[Root].fullPath == m.tree.nodes[Root].fullPath
  {
    var t := ResetTreeNode(m.tree);
    ResetIsEmpty(t);
    var i := 0;
    while i < |volumes|
      invariant 0 <= i <= |volumes|
      invariant WellFormed(t)
      invariant View(t) == Expected(volumes[..i])
      invariant t.nodes[Root].name == m.tree.nodes[Root].name && t.nodes[Root].fullPath == m.tree.nodes[Root].fullPath
    {
      ExpectedExtend(volumes, i);
      t := ScanVolume(t, volumes[i]);
      i := i + 1;
    }
    assert volumes[..|volumes|] == volumes;
    m' := Model(t, m.roles);
  }

  // ----- Traversal -----

  /** A model index: invalid, or a row and a column together with the node it
      addresses (the node id stands for the index's internal pointer). Qt
      counts an index valid only when its row and column are both
      non-negative, so an index with a negative coordinate is `Invalid` here. */
  datatype ModelIndex = Invalid | Idx(row: nat, column: nat, node: nat)

  /** The column an index reports; an invalid index reports -1. */
  function Column(h: ModelIndex): int
  {
    if h.Invalid? then -1 else h.column
  }

  /** `h` is invalid or addresses a node of the arena: the handle's pointer is live. */
  predicate Addressable(t: Tree, h: ModelIndex)
  {
    |t.nodes| > 0 && (h.Idx? ==> h.node < |t.nodes|)
  }

  /** The node a parent index stands for: the root when the index is invalid. */
  function NodeOf(h: ModelIndex): nat
  {
    if h.Invalid? then Root else h.node
  }

  /** The number of rows below `parent`: none below a column other than the
      first, otherwise the child count of the root or of the addressed node. */
  function RowCount(m: Model, parent: ModelIndex): (r: int)
    requires Addressable(m.tree, parent)
    ensures r >= 0
    ensures Column(parent) > 0 ==> r == 0
    ensures Column(parent) <= 0 ==> r == ChildCount(m.tree, NodeOf(parent))
  {
    if Column(parent) > 0 then 0 else ChildCount(m.tree, NodeOf(parent))
  }

  /** The tree has a single column, whatever the parent. */
  function ColumnCount(m: Model, parent: ModelIndex): (r: int)
    ensures r == 1
  {
    1
  }

  /** The bounds check every item model offers its subclasses. */
  predicate HasIndex(m: Model, row: int, column: int, parent: ModelIndex)
    requires Addressable(m.tree, parent)
  {
    0 <= row && 0 <= column && row < RowCount(m, parent) && column < ColumnCount(m, parent)
  }

  /** The index of the child at `row` of the root (invalid parent) or of the
      addressed node, in the first column; invalid for any other column and
      for a row out of range. */
  function Index(m: Model, row: int, column: int, parent: ModelIndex): (r: ModelIndex)
    requires Addressable(m.tree, parent)
    ensures r.Idx? <==> column == 0 && Column(parent) <= 0 && 0 <= row < ChildCount(m.tree, NodeOf(parent))
    ensures r.Idx? ==> r.row == row && r.column == 0 && r.node == m.tree.nodes[NodeOf(parent)].children[row]
  {
    if column > 0 then Invalid
    else if !HasIndex(m, row, column, parent) then Invalid
    else
      match Child(m.tree, NodeOf(parent), row)
      case Some(c) => Idx(row, column, c)
      case None => Invalid
  }

  /** The index of the node `child` links to: invalid for an invalid index, for
      a node with no live parent link and for a child of the root; otherwise the
      parent's row among its own parent's children, in the first column. */
  function Parent(m: Model, child: ModelIndex): (r: ModelIndex)
    requires Addressable(m.tree, child)
    ensures r.Idx? ==> child.Idx? && m.tree.nodes[child.node].parent == Some(r.node)
    ensures r.Idx? ==> Root < r.node < |m.tree.nodes| && r.row == Row(m.tree, r.node) && r.column == 0
    ensures (child.Idx? && m.tree.nodes[child.node].parent.Some?
             && Root < m.tree.nodes[child.node].parent.value < |m.tree.nodes|) ==> r.Idx?
  {
    if child.Invalid? then Invalid
    else
      match m.tree.nodes[child.node].parent
      case None => Invalid
      case Some(p) =>
        if p >= |m.tree.nodes| then Invalid
        else if p == Root then Invalid
        else Idx(Row(m.tree, p), 0, p)
  }

  /** The display value of an index: the node's name under the name role, and
      nothing for an invalid index or any other role. */
  function Data(m: Model, index: ModelIndex, role: int): (r: Option<string>)
    requires Addressable(m.tree, index)
    ensures r.Some? <==> index.Idx? && role == NameRole
    ensures r.Some? ==> r.value == m.tree.nodes[index.node].name
  {
    if index.Invalid? then None
    else if role != NameRole then None
    else Some(m.tree.nodes[index.node].name)
  }

  /** The full path of a selected index whose parent index is valid, and the
      empty string for any other selection. */
  function GetPathFromIndex(m: Model, index: ModelIndex): (r: string)
    requires Addressable(m.tree, index)
    ensures Parent(m, index).Idx? ==> r == m.tree.nodes[index.node].fullPath
    ensures Parent(m, index).Invalid? ==> r == ""
  {
    if Parent(m, index).Idx? then m.tree.nodes[index.node].fullPath else ""
  }

  // ----- Traversal of a rescanned tree -----

  /** Every child id of a node of a well-formed arena addresses a node. */
  lemma ChildrenInArena(t: Tree, n: nat)
    requires WellFormed(t) && n < |t.nodes|
    ensures forall j | 0 <= j < ChildCount(t, n) :: t.nodes[n].children[j] < |t.nodes|
  {
    var rc := t.nodes[Root].children;
    if n == Root {
      forall j | 0 <= j < |rc| ensures rc[j] < |t.nodes| {
        assert IsVolumeNode(t, rc[j]);
      }
    } else if n in rc {
      var k :| 0 <= k < |rc| && rc[k] == n;
      assert IsVolumeNode(t, n);
    } else {
      assert HangsBelowVolume(t, n);
      var v := t.nodes[n].parent.value;
      var k :| 0 <= k < |rc| && rc[k] == v;
      assert IsVolumeNode(t, v);
      var j :| 0 <= j < |t.nodes[v].children| && t.nodes[v].children[j] == n;
      assert IsFileNode(t, n, v);
    }
  }

  /** Index hands out only indexes that address a node of a well-formed arena. */
  lemma IndexIsAddressable(m: Model, row: int, column: int, parent: ModelIndex)
    requires WellFormed(m.tree) && Addressable(m.tree, parent)
    ensures Addressable(m.tree, Index(m, row, column, parent))
  {
    ChildrenInArena(m.tree, NodeOf(parent));
  }

  /** The k-th row below the root reads back as the k-th volume of the view:
      its name, one row per track file, no parent and no path. */
  lemma VolumeThroughIndex(m: Model, k: int)
    requires WellFormed(m.tree) && 0 <= k < |View(m.tree)|
    ensures RowCount(m, Invalid) == |View(m.tree)|
    ensures var h := Index(m, k, 0, Invalid);
            && h == Idx(k, 0, m.tree.nodes[Root].children[k]) && IsVolumeNode(m.tree, h.node)
            && Data(m, h, NameRole) == Some(View(m.tree)[k].name)
            && RowCount(m, h) == |View(m.tree)[k].files|
            && Parent(m, h) == Invalid
            && GetPathFromIndex(m, h) == ""
  {
    var v := m.tree.nodes[Root].children[k];
    assert IsVolumeNode(m.tree, v);
    assert View(m.tree)[k] == VolumeViewOf(m.tree, v);
  }

  /** The j-th row below the k-th volume reads back as the j-th track file of
      that volume in the view: its base name, its full path and no rows. Its
      parent index addresses the volume node at row `Row` of that node, which is
      0 because the volume node has no parent link, so the parent index equals
      the volume's own index only for the first volume. */
  lemma FileThroughIndex(m: Model, k: int, j: int)
    requires WellFormed(m.tree) && 0 <= k < |View(m.tree)| && 0 <= j < |View(m.tree)[k].files|
    ensures var h := Index(m, k, 0, Invalid);
            var f := Index(m, j, 0, h);
            && h.Idx? && IsVolumeNode(m.tree, h.node)
            && f == Idx(j, 0, m.tree.nodes[h.node].children[j]) && IsFileNode(m.tree, f.node, h.node)
            && Data(m, f, NameRole) == Some(View(m.tree)[k].files[j].name)
            && GetPathFromIndex(m, f) == View(m.tree)[k].files[j].path
            && RowCount(m, f) == 0
            && Parent(m, f) == Idx(0, 0, h.node)
            && (Parent(m, f) == h <==> k == 0)
  {
    VolumeThroughIndex(m, k);
    var v := m.tree.nodes[Root].children[k];
    var c := m.tree.nodes[v].children;
    assert IsFileNode(m.tree, c[j], v);
    assert View(m.tree)[k].files[j] == FileViewsOf(m.tree, c)[j];
  }

  /** Below a file there is nothing: a valid index below a valid index below
      the root has no rows and no valid index below it. */
  lemma DepthAtMostTwo(m: Model, r1: int, c1: int, r2: int, c2: int, r3: int, c3: int)
    requires WellFormed(m.tree)
    ensures Addressable(m.tree, Index(m, r1, c1, Invalid))
    ensures Addressable(m.tree, Index(m, r2, c2, Index(m, r1, c1, Invalid)))
    ensures Index(m, r1, c1, Invalid).Idx? && Index(m, r2, c2, Index(m, r1, c1, Invalid)).Idx? ==>
              && RowCount(m, Index(m, r2, c2, Index(m, r1, c1, Invalid))) == 0
              && Index(m, r3, c3, Index(m, r2, c2, Index(m, r1, c1, Invalid))) == Invalid
  {
    var h1 := Index(m, r1, c1, Invalid);
    IndexIsAddressable(m, r1, c1, Invalid);
    var h2 := Index(m, r2, c2, h1);
    IndexIsAddressable(m, r2, c2, h1);
    if h1.Idx? && h2.Idx? {
      var v := m.tree.nodes[Root].children[r1];
      assert IsVolumeNode(m.tree, v);
      assert IsFileNode(m.tree, h2.node, v);
    }
  }
}
