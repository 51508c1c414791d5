/** What one rescan finds, stated independently of the node arena: the
    volume entries the root should end up with, in order, each with the track
    files it should hold. */
module Scan {

  import opened FileSystem
  import opened Text
  import Seqs

  /** The folder convention and the track-file extension, compared in lower case. */
  const GarminFolder: string := "garmin"
  const GpxFolder: string := "gpx"
  const GpxSuffix: string := "gpx"

  predicate IsGarminDir(e: Entry)
  {
    ToLower(e.name) == GarminFolder
  }

  predicate IsGpxDir(e: Entry)
  {
    ToLower(e.name) == GpxFolder
  }

  predicate IsGpxFile(e: Entry)
  {
    ToLower(Suffix(e.name)) == GpxSuffix
  }

  /** The track files of a folder listing, in listing order. */
  function GpxFiles(listing: seq<Entry>): seq<Entry>
  {
    Seqs.Filter(Files(listing), IsGpxFile)
  }

  /** A listed entry is a track file of the folder exactly when it is a
      listed file whose suffix lower-cases to "gpx". */
  lemma GpxFilesMembers(listing: seq<Entry>)
    ensures forall j | 0 <= j < |GpxFiles(listing)| ::
              GpxFiles(listing)[j] in listing && IsListedFile(GpxFiles(listing)[j]) && IsGpxFile(GpxFiles(listing)[j])
    ensures forall i | 0 <= i < |listing| && IsListedFile(listing[i]) && IsGpxFile(listing[i]) ::
              listing[i] in GpxFiles(listing)
  {
    Seqs.FilterMembers(listing, IsListedFile);
    Seqs.FilterMembers(Files(listing), IsGpxFile);
    forall i | 0 <= i < |listing| && IsListedFile(listing[i]) && IsGpxFile(listing[i])
      ensures listing[i] in GpxFiles(listing)
    {
      var k :| 0 <= k < |Files(listing)| && Files(listing)[k] == listing[i];
    }
  }

  /** A file node as a caller reads it back: its name and its full path. */
  datatype FileView = FileView(name: string, path: string)

  /** A volume node as a caller reads it back, with its files in row order. */
  datatype VolumeView = VolumeView(name: string, path: string, files: seq<FileView>)

  /** A track file is shown by its base name and located by its absolute path. */
  function FileViewOf(e: Entry): FileView
  {
    FileView(BaseName(e.name), e.path)
  }

  function FileViews(files: seq<Entry>): (r: seq<FileView>)
    ensures |r| == |files|
    ensures forall j | 0 <= j < |files| :: r[j] == FileViewOf(files[j])
  {
    seq(|files|, j requires 0 <= j < |files| => FileViewOf(files[j]))
  }

  /** One matching "garmin/gpx" folder of a volume: the volume's label and
      the gpx folder itself. */
  datatype Candidate = Candidate(volName: string, folder: Entry)

  /** The candidates one garmin folder yields: one per gpx sub-folder. */
  function SubMatches(volName: string, subs: seq<Entry>): seq<Candidate>
    decreases |subs|
  {
    if |subs| == 0 then []
    else
      var last := subs[|subs| - 1];
      SubMatches(volName, subs[..|subs| - 1]) + (if IsGpxDir(last) then [Candidate(volName, last)] else [])
  }

  /** The candidates of a volume's top-level folders, in listing order. */
  function GarminMatches(volName: string, dirs: seq<Entry>): seq<Candidate>
    decreases |dirs|
  {
    if |dirs| == 0 then []
    else
      var last := dirs[|dirs| - 1];
      GarminMatches(volName, dirs[..|dirs| - 1])
        + (if IsGarminDir(last) then SubMatches(volName, Dirs(Contents(last))) else [])
  }

  /** Every candidate of every volume, in volume order and then listing order. */
  function Candidates(vols: seq<Volume>): seq<Candidate>
    decreases |vols|
  {
    if |vols| == 0 then []
    else
      var last := vols[|vols| - 1];
      Candidates(vols[..|vols| - 1]) + GarminMatches(last.name, Dirs(last.entries))
  }

  /** What one candidate adds below the root: a volume entry holding its
      track files, or nothing when the folder holds none. */
  function Accept(c: Candidate): seq<VolumeView>
  {
    var files := GpxFiles(Contents(c.folder));
    if |files| == 0 then [] else [VolumeView(c.volName, c.folder.path, FileViews(files))]
  }

  function ExpectedOf(cands: seq<Candidate>): seq<VolumeView>
    decreases |cands|
  {
    if |cands| == 0 then []
    else ExpectedOf(cands[..|cands| - 1]) + Accept(cands[|cands| - 1])
  }

  /** The volume entries a rescan of `vols` leaves below the root. */
  function Expected(vols: seq<Volume>): seq<VolumeView>
  {
    ExpectedOf(Candidates(vols))
  }

  /** `d` is a top-level garmin folder of `v` and `s` a gpx folder inside it. */
  predicate IsMatch(v: Volume, d: Entry, s: Entry)
  {
    && d in Dirs(v.entries) && IsGarminDir(d)
    && s in Dirs(Contents(d)) && IsGpxDir(s)
  }

  // ----- Structure of the expected tree -----

  lemma {:induction false} ExpectedOfAppend(a: seq<Candidate>, b: seq<Candidate>)
    ensures ExpectedOf(a + b) == ExpectedOf(a) + ExpectedOf(b)
    decreases |b|
  {
    if |b| == 0 {
      assert a + b == a;
    } else {
      var ab, b' := a + b, b[..|b| - 1];
      assert ab[..|ab| - 1] == a + b';
      var last := Accept(b[|b| - 1]);
      assert ExpectedOf(ab) == ExpectedOf(a + b') + last;
      ExpectedOfAppend(a, b');
      assert ExpectedOf(b) == ExpectedOf(b') + last;
      Seqs.AppendAssoc(ExpectedOf(a), ExpectedOf(b'), last);
    }
  }

  /** Scanning one more sub-folder adds what its candidate contributes, if
      it is a gpx folder. */
  lemma SubMatchesStep(volName: string, subs: seq<Entry>, k: nat)
    requires k < |subs|
    ensures ExpectedOf(SubMatches(volName, subs[..k + 1]))
         == ExpectedOf(SubMatches(volName, subs[..k])) + (if IsGpxDir(subs[k]) then Accept(Candidate(volName, subs[k])) else [])
  {
    var cands := SubMatches(volName, subs[..k]);
    assert subs[..k + 1][..k] == subs[..k];
    if IsGpxDir(subs[k]) {
      var c := Candidate(volName, subs[k]);
      assert SubMatches(volName, subs[..k + 1]) == cands + [c];
      assert (cands + [c])[..|cands|] == cands;
    } else {
      assert SubMatches(volName, subs[..k + 1]) == cands;
    }
  }

  /** Scanning one more top-level folder adds what its gpx sub-folders
      contribute, if it is a garmin folder. */
  lemma GarminMatchesStep(volName: string, dirs: seq<Entry>, j: nat)
    requires j < |dirs|
    ensures ExpectedOf(GarminMatches(volName, dirs[..j + 1]))
         == ExpectedOf(GarminMatches(volName, dirs[..j]))
            + (if IsGarminDir(dirs[j]) then ExpectedOf(SubMatches(volName, Dirs(Contents(dirs[j])))) else [])
  {
    var prior := GarminMatches(volName, dirs[..j]);
    assert dirs[..j + 1][..j] == dirs[..j];
    if IsGarminDir(dirs[j]) {
      var subMatches := SubMatches(volName, Dirs(Contents(dirs[j])));
      assert GarminMatches(volName, dirs[..j + 1]) == prior + subMatches;
      ExpectedOfAppend(prior, subMatches);
    } else {
      assert GarminMatches(volName, dirs[..j + 1]) == prior + [];
      assert prior + [] == prior;
    }
  }

  /** Rescanning one more volume appends its entries after those of the
      volumes before it. */
  lemma ExpectedExtend(vols: seq<Volume>, i: nat)
    requires i < |vols|
    ensures Expected(vols[..i + 1])
         == Expected(vols[..i]) + ExpectedOf(GarminMatches(vols[i].name, Dirs(vols[i].entries)))
  {
    assert vols[..i + 1][..i] == vols[..i];
    ExpectedOfAppend(Candidates(vols[..i]), GarminMatches(vols[i].name, Dirs(vols[i].entries)));
  }

  lemma {:induction false} CandidatesAppend(a: seq<Volume>, b: seq<Volume>)
    ensures Candidates(a + b) == Candidates(a) + Candidates(b)
    decreases |b|
  {
    if |b| == 0 {
      assert a + b == a;
    } else {
      var ab, b', last := a + b, b[..|b| - 1], b[|b| - 1];
      assert ab[..|ab| - 1] == a + b';
      calc {
        Candidates(ab);
        Candidates(a + b') + GarminMatches(last.name, Dirs(last.entries));
        { CandidatesAppend(a, b'); }
        Candidates(a) + Candidates(b') + GarminMatches(last.name, Dirs(last.entries));
      }
    }
  }

  /** Root entries appear in volume order: the entries of a snapshot are
      those of its first part followed by those of the rest. */
  lemma ExpectedAppend(a: seq<Volume>, b: seq<Volume>)
    ensures Expected(a + b) == Expected(a) + Expected(b)
  {
    CandidatesAppend(a, b);
    ExpectedOfAppend(Candidates(a), Candidates(b));
  }

  /** No volume entry is ever empty. */
  lemma {:induction false} ExpectedHasNoEmptyVolume(cands: seq<Candidate>)
    ensures forall k | 0 <= k < |ExpectedOf(cands)| :: |ExpectedOf(cands)[k].files| > 0
    decreases |cands|
  {
    if |cands| > 0 {
      ExpectedHasNoEmptyVolume(cands[..|cands| - 1]);
    }
  }

  // ----- Membership: which volume entries a rescan produces -----

  lemma {:induction false} SubMatchesMembers(volName: string, subs: seq<Entry>, c: Candidate)
    ensures c in SubMatches(volName, subs) <==> c.volName == volName && c.folder in subs && IsGpxDir(c.folder)
    decreases |subs|
  {
    if |subs| > 0 {
      SubMatchesMembers(volName, subs[..|subs| - 1], c);
      assert subs == subs[..|subs| - 1] + [subs[|subs| - 1]];
    }
  }

  lemma {:induction false} GarminMatchesMembers(volName: string, dirs: seq<Entry>, c: Candidate)
    ensures c in GarminMatches(volName, dirs) <==>
              c.volName == volName &&
              exists d :: d in dirs && IsGarminDir(d) && c.folder in Dirs(Contents(d)) && IsGpxDir(c.folder)
    decreases |dirs|
  {
    if |dirs| > 0 {
      var init, last := dirs[..|dirs| - 1], dirs[|dirs| - 1];
      assert dirs == init + [last];
      GarminMatchesMembers(volName, init, c);
      SubMatchesMembers(volName, Dirs(Contents(last)), c);
    }
  }

  lemma {:induction false} CandidatesMembers(vols: seq<Volume>, c: Candidate)
    ensures c in Candidates(vols) <==>
              exists v, d :: v in vols && c.volName == v.name && IsMatch(v, d, c.folder)
    decreases |vols|
  {
    if |vols| > 0 {
      var init, last := vols[..|vols| - 1], vols[|vols| - 1];
      assert vols == init + [last];
      CandidatesMembers(init, c);
      GarminMatchesMembers(last.name, Dirs(last.entries), c);
      if c in Candidates(vols) {
        if c !in Candidates(init) {
          var d :| d in Dirs(last.entries) && IsGarminDir(d) && c.folder in Dirs(Contents(d)) && IsGpxDir(c.folder);
          assert IsMatch(last, d, c.folder);
        }
      }
      if exists v, d :: v in vols && c.volName == v.name && IsMatch(v, d, c.folder) {
        var v, d :| v in vols && c.volName == v.name && IsMatch(v, d, c.folder);
        if v != last {
          assert v in init;
        }
      }
    }
  }

  lemma {:induction false} ExpectedOfMembers(cands: seq<Candidate>, vv: VolumeView)
    ensures vv in ExpectedOf(cands) <==> exists c :: c in cands && vv in Accept(c)
    decreases |cands|
  {
    if |cands| > 0 {
      var init, last := cands[..|cands| - 1], cands[|cands| - 1];
      assert cands == init + [last];
      ExpectedOfMembers(init, vv);
    }
  }

  /** A volume entry appears below the root exactly when some volume has a
      top-level garmin folder holding a gpx folder with at least one track
      file; the entry carries the volume's label, the gpx folder's path and
      that folder's track files. Every matching pair counts, so case variants
      of the same folder each yield an entry. */
  lemma ExpectedMembers(vols: seq<Volume>, vv: VolumeView)
    ensures vv in Expected(vols) <==>
              exists v, d, s :: v in vols && IsMatch(v, d, s) && |GpxFiles(Contents(s))| > 0 &&
                                vv == VolumeView(v.name, s.path, FileViews(GpxFiles(Contents(s))))
  {
    ExpectedOfMembers(Candidates(vols), vv);
    if vv in Expected(vols) {
      var c :| c in Candidates(vols) && vv in Accept(c);
      CandidatesMembers(vols, c);
      var v, d :| v in vols && c.volName == v.name && IsMatch(v, d, c.folder);
      assert IsMatch(v, d, c.folder) && |GpxFiles(Contents(c.folder))| > 0;
    }
    if exists v, d, s :: v in vols && IsMatch(v, d, s) && |GpxFiles(Contents(s))| > 0 &&
                         vv == VolumeView(v.name, s.path, FileViews(GpxFiles(Contents(s)))) {
      var v, d, s :| v in vols && IsMatch(v, d, s) && |GpxFiles(Contents(s))| > 0 &&
                     vv == VolumeView(v.name, s.path, FileViews(GpxFiles(Contents(s))));
      var c := Candidate(v.name, s);
      CandidatesMembers(vols, c);
      assert vv in Accept(c);
    }
  }
}
