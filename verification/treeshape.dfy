/** The shape every rescan leaves the arena in, and how a caller reads it
    back. The root lists volume nodes; a volume node has no parent link (it
    is constructed without one) and lists at least one file node; a file node
    links back to its volume and has no children. Nothing else is in the arena. */
module TreeShape {

  import opened Wrappers
  import opened Seqs
  import opened TreeNode
  import opened FileSystem
  import opened Scan
  import Text

  predicate IsFileNode(t: Tree, f: nat, v: nat)
  {
    Root < f < |t.nodes| && f != v && t.nodes[f].parent == Some(v) && t.nodes[f].children == []
  }

  predicate IsVolumeNode(t: Tree, v: nat)
  {
    && Root < v < |t.nodes|
    && t.nodes[v].parent.None?
    && |t.nodes[v].children| > 0
    && forall j | 0 <= j < |t.nodes[v].children| :: IsFileNode(t, t.nodes[v].children[j], v)
  }

  /** `i` is listed by a volume node that its own parent link names. */
  predicate HangsBelowVolume(t: Tree, i: nat)
    requires i < |t.nodes|
  {
    match t.nodes[i].parent
    case None => false
    case Some(v) => v < |t.nodes| && v in t.nodes[Root].children && i in t.nodes[v].children
  }

  predicate WellFormed(t: Tree)
  {
    && |t.nodes| > 0
    && t.nodes[Root].parent.None?
    && (forall k | 0 <= k < |t.nodes[Root].children| :: IsVolumeNode(t, t.nodes[Root].children[k]))
    && (forall i | Root < i < |t.nodes| :: i in t.nodes[Root].children || HangsBelowVolume(t, i))
  }

  function NodeFileView(n: Node): FileView
  {
    FileView(n.name, n.fullPath)
  }

  function FileViewsOf(t: Tree, ids: seq<nat>): (r: seq<FileView>)
    requires forall j | 0 <= j < |ids| :: ids[j] < |t.nodes|
    ensures |r| == |ids|
  {
    seq(|ids|, j requires 0 <= j < |ids| => NodeFileView(t.nodes[ids[j]]))
  }

  function VolumeViewOf(t: Tree, v: nat): VolumeView
    requires IsVolumeNode(t, v)
  {
    VolumeView(t.nodes[v].name, t.nodes[v].fullPath, FileViewsOf(t, t.nodes[v].children))
  }

  /** The root's volumes as a caller reads them back, in row order. */
  function View(t: Tree): (r: seq<VolumeView>)
    requires WellFormed(t)
    ensures |r| == ChildCount(t, Root)
  {
    var rc := t.nodes[Root].children;
    seq(|rc|, k requires 0 <= k < |rc| => VolumeViewOf(t, rc[k]))
  }

  /** A freshly reset arena: the root alone. */
  lemma ResetIsEmpty(t: Tree)
    requires |t.nodes| == 1 && ChildCount(t, Root) == 0 && t.nodes[Root].parent.None?
    ensures WellFormed(t) && View(t) == []
  {
  }

  /** The arena grown by a volume node `v` (appended to the arena without a
      parent link) followed by its file nodes, before `v` is attached. */
  ghost predicate StagedVolume(t0: Tree, t2: Tree, v: nat, name: string, path: string, files: seq<Entry>)
  {
    && v == |t0.nodes|
    && |t2.nodes| == v + 1 + |files|
    && t2.nodes[..v] == t0.nodes
    && t2.nodes[v] == Node(name, path, Range(v + 1, |t2.nodes|), None)
    && forall id | v < id < |t2.nodes| :: t2.nodes[id] == FileNode(files[id - v - 1], v)
  }

  /** The file node a track file becomes below volume node `v`. */
  function FileNode(e: Entry, v: nat): Node
  {
    Node(Text.BaseName(e.name), e.path, [], Some(v))
  }

  /** Nodes below `v` and the root are left alone by staging and attaching. */
  lemma AttachKeepsOld(t0: Tree, t2: Tree, v: nat, name: string, path: string, files: seq<Entry>)
    requires WellFormed(t0)
    requires StagedVolume(t0, t2, v, name, path, files)
    ensures forall i | Root < i < v :: AppendChild(t2, Root, v).nodes[i] == t0.nodes[i]
  {
    var t3 := AppendChild(t2, Root, v);
    forall i | Root < i < v ensures t3.nodes[i] == t0.nodes[i] {
      assert t2.nodes[..v][i] == t2.nodes[i];
    }
  }

  /** The volumes already below the root read back as before. */
  lemma AttachKeepsVolume(t0: Tree, t3: Tree, u: nat)
    requires WellFormed(t0) && u in t0.nodes[Root].children
    requires |t3.nodes| > |t0.nodes|
    requires forall i | Root < i < |t0.nodes| :: t3.nodes[i] == t0.nodes[i]
    ensures IsVolumeNode(t3, u) && VolumeViewOf(t3, u) == VolumeViewOf(t0, u)
  {
    assert IsVolumeNode(t0, u);
    var ch := t0.nodes[u].children;
    forall j | 0 <= j < |ch| ensures IsFileNode(t3, ch[j], u) && t3.nodes[ch[j]] == t0.nodes[ch[j]] {
      assert IsFileNode(t0, ch[j], u);
    }
    assert FileViewsOf(t3, ch) == FileViewsOf(t0, ch);
  }

  /** Attaching leaves the staged file nodes where staging put them. */
  lemma AttachKeepsFiles(t0: Tree, t2: Tree, v: nat, name: string, path: string, files: seq<Entry>)
    requires |t0.nodes| > 0
    requires StagedVolume(t0, t2, v, name, path, files)
    ensures var t3 := AppendChild(t2, Root, v);
            && t3.nodes[v] == t2.nodes[v]
            && forall j | 0 <= j < |files| :: t3.nodes[v + 1 + j] == FileNode(files[j], v)
  {
    var t3 := AppendChild(t2, Root, v);
    forall j | 0 <= j < |files| ensures t3.nodes[v + 1 + j] == FileNode(files[j], v) {
      var id := v + 1 + j;
      assert t2.nodes[id] == FileNode(files[id - v - 1], v);
    }
  }

  /** The attached volume's children are its file nodes. */
  lemma AttachedChildrenAreFiles(t3: Tree, v: nat, ch: seq<nat>, files: seq<Entry>)
    requires Root < v && |t3.nodes| == v + 1 + |files|
    requires ch == Range(v + 1, |t3.nodes|)
    requires forall j | 0 <= j < |files| :: t3.nodes[v + 1 + j] == FileNode(files[j], v)
    ensures forall j | 0 <= j < |ch| :: IsFileNode(t3, ch[j], v)
  {
    forall j | 0 <= j < |ch| ensures IsFileNode(t3, ch[j], v) {
      assert ch[j] == v + 1 + j;
      assert t3.nodes[v + 1 + j] == FileNode(files[j], v);
    }
  }

  /** The attached volume's children read back as the staged files, in order. */
  lemma AttachedChildrenShowFiles(t3: Tree, v: nat, ch: seq<nat>, files: seq<Entry>)
    requires |t3.nodes| == v + 1 + |files|
    requires ch == Range(v + 1, |t3.nodes|)
    requires forall j | 0 <= j < |files| :: t3.nodes[v + 1 + j] == FileNode(files[j], v)
    ensures FileViewsOf(t3, ch) == FileViews(files)
  {
    forall j | 0 <= j < |ch| ensures FileViewsOf(t3, ch)[j] == FileViews(files)[j] {
      assert ch[j] == v + 1 + j;
      assert t3.nodes[v + 1 + j] == FileNode(files[j], v);
    }
  }

  /** The staged volume, once attached, holds exactly the staged files. */
  lemma AttachNewVolume(t0: Tree, t2: Tree, v: nat, name: string, path: string, files: seq<Entry>)
    requires |t0.nodes| > 0
    requires StagedVolume(t0, t2, v, name, path, files)
    requires |files| > 0
    ensures IsVolumeNode(AppendChild(t2, Root, v), v)
    ensures VolumeViewOf(AppendChild(t2, Root, v), v) == VolumeView(name, path, FileViews(files))
  {
    var t3 := AppendChild(t2, Root, v);
    AttachKeepsFiles(t0, t2, v, name, path, files);
    var ch := t3.nodes[v].children;
    assert ch == Range(v + 1, |t3.nodes|);
    AttachedChildrenAreFiles(t3, v, ch, files);
    assert IsVolumeNode(t3, v);
    AttachedChildrenShowFiles(t3, v, ch, files);
  }

  /** After attaching, every node is still the root, a volume or a file of a volume. */
  lemma AttachCovers(t0: Tree, t2: Tree, v: nat, name: string, path: string, files: seq<Entry>)
    requires WellFormed(t0)
    requires StagedVolume(t0, t2, v, name, path, files)
    ensures var t3 := AppendChild(t2, Root, v);
            forall i | Root < i < |t3.nodes| :: i in t3.nodes[Root].children || HangsBelowVolume(t3, i)
  {
    var t3 := AppendChild(t2, Root, v);
    var rc0 := t0.nodes[Root].children;
    assert t2.nodes[Root] == t0.nodes[Root];
    assert t3.nodes[Root].children == rc0 + [v];
    AttachKeepsOld(t0, t2, v, name, path, files);
    forall i | Root < i < |t3.nodes| ensures i in t3.nodes[Root].children || HangsBelowVolume(t3, i) {
      if i < v {
        if i !in rc0 {
          assert HangsBelowVolume(t0, i);
          var p := t0.nodes[i].parent.value;
          assert p in rc0;
        }
      } else if i > v {
        assert t3.nodes[v].children[i - v - 1] == i;
      }
    }
  }

  /** After attaching, the root lists the old volumes followed by `v`, all well formed. */
  lemma AttachVolumes(t0: Tree, t2: Tree, v: nat, name: string, path: string, files: seq<Entry>)
    requires WellFormed(t0)
    requires StagedVolume(t0, t2, v, name, path, files)
    requires |files| > 0
    ensures var t3 := AppendChild(t2, Root, v);
            && t3.nodes[Root] == t0.nodes[Root].(children := t0.nodes[Root].children + [v])
            && (forall k | 0 <= k < |t3.nodes[Root].children| :: IsVolumeNode(t3, t3.nodes[Root].children[k]))
            && (forall k | 0 <= k < |t0.nodes[Root].children| ::
                  VolumeViewOf(t3, t0.nodes[Root].children[k]) == VolumeViewOf(t0, t0.nodes[Root].children[k]))
            && VolumeViewOf(t3, v) == VolumeView(name, path, FileViews(files))
  {
    var t3 := AppendChild(t2, Root, v);
    var rc0 := t0.nodes[Root].children;
    var rc3 := t3.nodes[Root].children;
    assert t2.nodes[Root] == t0.nodes[Root];
    assert rc3 == rc0 + [v];
    AttachKeepsOld(t0, t2, v, name, path, files);
    AttachNewVolume(t0, t2, v, name, path, files);
    forall k | 0 <= k < |rc0|
      ensures IsVolumeNode(t3, rc0[k]) && VolumeViewOf(t3, rc0[k]) == VolumeViewOf(t0, rc0[k])
    {
      AttachKeepsVolume(t0, t3, rc0[k]);
    }
    forall k | 0 <= k < |rc3| ensures IsVolumeNode(t3, rc3[k]) {
      if k < |rc0| {
        assert rc3[k] == rc0[k];
      }
    }
  }

  /** Attaching a staged, non-empty volume to the root keeps the arena well
      formed and appends exactly that volume's entry to the view. */
  lemma AttachVolume(t0: Tree, t2: Tree, v: nat, name: string, path: string, files: seq<Entry>)
    requires WellFormed(t0)
    requires StagedVolume(t0, t2, v, name, path, files)
    requires |files| > 0
    ensures WellFormed(AppendChild(t2, Root, v))
    ensures View(AppendChild(t2, Root, v)) == View(t0) + [VolumeView(name, path, FileViews(files))]
    ensures AppendChild(t2, Root, v).nodes[Root].name == t0.nodes[Root].name
    ensures AppendChild(t2, Root, v).nodes[Root].fullPath == t0.nodes[Root].fullPath
  {
    var t3 := AppendChild(t2, Root, v);
    AttachCovers(t0, t2, v, name, path, files);
    AttachVolumes(t0, t2, v, name, path, files);
    assert WellFormed(t3);
    var r0, r3 := View(t0), View(t3);
    assert |r3| == |r0| + 1;
    forall k | 0 <= k < |r3| ensures r3[k] == (r0 + [VolumeView(name, path, FileViews(files))])[k] {
      if k < |r0| {
        assert t3.nodes[Root].children[k] == t0.nodes[Root].children[k];
      }
    }
  }

  /** In a well-formed arena every node with a parent link is a file listed by
      that parent, and `Row` finds it: the parent's child at that row is the
      node itself. */
  lemma WellFormedRow(t: Tree, n: nat)
    requires WellFormed(t) && Root < n < |t.nodes| && t.nodes[n].parent.Some?
    ensures t.nodes[n].parent.value < |t.nodes|
    ensures Row(t, n) < ChildCount(t, t.nodes[n].parent.value)
    ensures Child(t, t.nodes[n].parent.value, Row(t, n)) == Some(n)
  {
    var rc := t.nodes[Root].children;
    forall k | 0 <= k < |rc| ensures rc[k] != n {
      assert IsVolumeNode(t, rc[k]);
    }
    assert HangsBelowVolume(t, n);
    RowLocatesNode(t, n);
  }
}
