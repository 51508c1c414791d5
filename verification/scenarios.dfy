/** Rescans of small volume snapshots: what the root ends up listing
    for a typical device, for case-variant duplicate folders, and for
    volumes that hold no track files. */
module Scenarios {

  import opened FileSystem
  import opened Text
  import opened Scan
  import Seqs

  function PlainFile(name: string, path: string): Entry
  {
    File(name, path, false, false)
  }

  function PlainDir(name: string, path: string, entries: seq<Entry>): Entry
  {
    Dir(name, path, false, false, entries)
  }

  /** A listing of one element, filtered, is that element when it passes. */
  lemma FilterOne<T>(x: T, p: T -> bool)
    requires p(x)
    ensures Seqs.Filter([x], p) == [x]
  {
    assert Seqs.FilterUpTo([x], p, 0) == [];
  }

  /** A listing of two elements that both pass is kept whole. */
  lemma FilterBoth<T>(x: T, y: T, p: T -> bool)
    requires p(x) && p(y)
    ensures Seqs.Filter([x, y], p) == [x, y]
  {
    assert Seqs.FilterUpTo([x, y], p, 1) == [x];
  }

  /** Of a listing of two elements only the first passes. */
  lemma FilterFirst<T>(x: T, y: T, p: T -> bool)
    requires p(x) && !p(y)
    ensures Seqs.Filter([x, y], p) == [x]
  {
    assert Seqs.FilterUpTo([x, y], p, 1) == [x];
  }

  lemma FileViewsPair(a: Entry, b: Entry)
    ensures FileViews([a, b]) == [FileViewOf(a), FileViewOf(b)]
  {
  }

  lemma ExpectedOfPair(a: Candidate, b: Candidate)
    ensures ExpectedOf([a, b]) == Accept(a) + Accept(b)
  {
    assert [a, b][..1] == [a];
    assert ExpectedOf([a]) == Accept(a);
  }

  // ----- A device with two track files -----

  /** A volume whose only top-level folder is a garmin folder holding only a
      gpx folder, which holds two track files. */
  function TwoTrackVolume(volName: string, garminName: string, gpxName: string, gpxPath: string,
                          file1: string, path1: string, file2: string, path2: string): Volume
  {
    Volume(volName, "/Volumes/" + volName,
           [PlainDir(garminName, "/Volumes/" + volName + "/" + garminName,
                     [PlainDir(gpxName, gpxPath, [PlainFile(file1, path1), PlainFile(file2, path2)])])])
  }

  /** A track file, whatever the case of its extension, shows its stem. */
  lemma TrackFile(stem: string, ext: string, path: string)
    requires '.' !in stem && '.' !in ext && ToLower(ext) == GpxSuffix
    ensures IsListedFile(PlainFile(stem + "." + ext, path)) && IsGpxFile(PlainFile(stem + "." + ext, path))
    ensures FileViewOf(PlainFile(stem + "." + ext, path)) == FileView(stem, path)
  {
    SuffixOfDotted(stem, ext);
    BaseNameOfDotted(stem, ext);
  }

  /** Such a device yields exactly one volume entry, labelled with the
      volume's name, located at its gpx folder and listing the two files by
      their stems, in listing order, whatever the case of the folder names and
      of the extensions. */
  lemma TwoTrackDevice(volName: string, garminName: string, gpxName: string, gpxPath: string,
                       stem1: string, ext1: string, path1: string, stem2: string, ext2: string, path2: string)
    requires ToLower(garminName) == GarminFolder && ToLower(gpxName) == GpxFolder
    requires '.' !in stem1 && '.' !in ext1 && ToLower(ext1) == GpxSuffix
    requires '.' !in stem2 && '.' !in ext2 && ToLower(ext2) == GpxSuffix
    ensures Expected([TwoTrackVolume(volName, garminName, gpxName, gpxPath,
                                     stem1 + "." + ext1, path1, stem2 + "." + ext2, path2)])
         == [VolumeView(volName, gpxPath, [FileView(stem1, path1), FileView(stem2, path2)])]
  {
    var vol := TwoTrackVolume(volName, garminName, gpxName, gpxPath, stem1 + "." + ext1, path1, stem2 + "." + ext2, path2);
    var garmin := vol.entries[0];
    var gpx := garmin.entries[0];
    var f1, f2 := PlainFile(stem1 + "." + ext1, path1), PlainFile(stem2 + "." + ext2, path2);
    assert gpx.entries == [f1, f2];
    TrackFile(stem1, ext1, path1);
    TrackFile(stem2, ext2, path2);
    FileViewsPair(f1, f2);
    FilterBoth(f1, f2, IsListedFile);
    FilterBoth(f1, f2, IsGpxFile);
    FilterOne(garmin, IsListedDir);
    FilterOne(gpx, IsListedDir);
    assert GpxFiles(Contents(gpx)) == [f1, f2];
    assert FileViews([f1, f2]) == [FileView(stem1, path1), FileView(stem2, path2)];
    var c := Candidate(volName, gpx);
    assert Dirs(Contents(garmin)) == [gpx];
    assert SubMatches(volName, [gpx]) == [c];
    assert Dirs(vol.entries) == [garmin];
    assert GarminMatches(volName, [garmin]) == [c];
    assert Candidates([vol]) == [c];
    assert Accept(c) == [VolumeView(volName, gpxPath, [FileView(stem1, path1), FileView(stem2, path2)])];
    assert ExpectedOf([c]) == Accept(c);
  }

  /** A device "Edge" laid out like the model's debug data: "Leine.GPX" and
      "Weser.gpx" in "Garmin/GPX", listed by name ignoring case, show as
      "Leine" and "Weser" below one volume entry. */
  lemma EdgeScenario()
    ensures Expected([TwoTrackVolume("Edge", "Garmin", "GPX", "/Volumes/Edge/Garmin/GPX",
                                     "Leine.GPX", "/Volumes/Edge/Garmin/GPX/Leine.GPX",
                                     "Weser.gpx", "/Volumes/Edge/Garmin/GPX/Weser.gpx")])
         == [VolumeView("Edge", "/Volumes/Edge/Garmin/GPX",
                        [FileView("Leine", "/Volumes/Edge/Garmin/GPX/Leine.GPX"),
                         FileView("Weser", "/Volumes/Edge/Garmin/GPX/Weser.gpx")])]
  {
    assert "Leine.GPX" == "Leine" + "." + "GPX";
    assert "Weser.gpx" == "Weser" + "." + "gpx";
    TwoTrackDevice("Edge", "Garmin", "GPX", "/Volumes/Edge/Garmin/GPX",
                   "Leine", "GPX", "/Volumes/Edge/Garmin/GPX/Leine.GPX",
                   "Weser", "gpx", "/Volumes/Edge/Garmin/GPX/Weser.gpx");
  }

  // ----- Case-variant duplicates -----

  /** A gpx folder holding a single file. */
  function OneTrackFolder(gpxName: string, gpxPath: string, fileName: string, filePath: string): Entry
  {
    PlainDir(gpxName, gpxPath, [PlainFile(fileName, filePath)])
  }

  /** A volume with two top-level garmin folders, each holding one gpx folder. */
  function TwinVolume(volName: string, garmin1: string, gpx1: Entry, garmin2: string, gpx2: Entry): Volume
  {
    Volume(volName, "/Volumes/" + volName,
           [PlainDir(garmin1, "/Volumes/" + volName + "/" + garmin1, [gpx1]),
            PlainDir(garmin2, "/Volumes/" + volName + "/" + garmin2, [gpx2])])
  }

  /** A gpx folder holding one track file `stem.ext` contributes one entry,
      at the folder's path, showing the file's stem. */
  lemma OneTrackAccepted(volName: string, gpxName: string, gpxPath: string, fileName: string, filePath: string,
                         stem: string, ext: string)
    requires fileName == stem + "." + ext
    requires '.' !in stem && '.' !in ext && ToLower(ext) == GpxSuffix
    ensures Accept(Candidate(volName, OneTrackFolder(gpxName, gpxPath, fileName, filePath)))
         == [VolumeView(volName, gpxPath, [FileView(stem, filePath)])]
  {
    var f := PlainFile(fileName, filePath);
    TrackFile(stem, ext, filePath);
    FilterOne(f, IsListedFile);
    FilterOne(f, IsGpxFile);
    assert FileViews([f]) == [FileViewOf(f)];
  }

  /** The search does not stop at the first garmin folder: two top-level
      folders whose names differ only in case each yield their gpx folder as
      a candidate, in listing order. */
  lemma TwinCandidates(volName: string, garmin1: string, gpx1: Entry, garmin2: string, gpx2: Entry)
    requires ToLower(garmin1) == GarminFolder && ToLower(garmin2) == GarminFolder
    requires gpx1.Dir? && IsListedDir(gpx1) && IsGpxDir(gpx1)
    requires gpx2.Dir? && IsListedDir(gpx2) && IsGpxDir(gpx2)
    ensures Candidates([TwinVolume(volName, garmin1, gpx1, garmin2, gpx2)])
         == [Candidate(volName, gpx1), Candidate(volName, gpx2)]
  {
    var vol := TwinVolume(volName, garmin1, gpx1, garmin2, gpx2);
    var top := vol.entries;
    FilterBoth(top[0], top[1], IsListedDir);
    FilterOne(gpx1, IsListedDir);
    FilterOne(gpx2, IsListedDir);
    var a, b := Candidate(volName, gpx1), Candidate(volName, gpx2);
    assert SubMatches(volName, [gpx1]) == [a];
    assert SubMatches(volName, [gpx2]) == [b];
    assert top[..1] == [top[0]];
    assert GarminMatches(volName, top[..1]) == [a];
    assert GarminMatches(volName, top) == [a, b];
  }

  /** Two top-level folders whose names differ only in case, each holding a
      gpx folder with one track file, give two volume entries with the same
      label, in listing order. */
  lemma TwinDevice(volName: string,
                   garmin1: string, gpxName1: string, gpxPath1: string, file1: string, path1: string, stem1: string, ext1: string,
                   garmin2: string, gpxName2: string, gpxPath2: string, file2: string, path2: string, stem2: string, ext2: string)
    requires ToLower(garmin1) == GarminFolder && ToLower(gpxName1) == GpxFolder
    requires ToLower(garmin2) == GarminFolder && ToLower(gpxName2) == GpxFolder
    requires file1 == stem1 + "." + ext1 && '.' !in stem1 && '.' !in ext1 && ToLower(ext1) == GpxSuffix
    requires file2 == stem2 + "." + ext2 && '.' !in stem2 && '.' !in ext2 && ToLower(ext2) == GpxSuffix
    ensures Expected([TwinVolume(volName, garmin1, OneTrackFolder(gpxName1, gpxPath1, file1, path1),
                                          garmin2, OneTrackFolder(gpxName2, gpxPath2, file2, path2))])
         == [VolumeView(volName, gpxPath1, [FileView(stem1, path1)]),
             VolumeView(volName, gpxPath2, [FileView(stem2, path2)])]
  {
    var gpx1 := OneTrackFolder(gpxName1, gpxPath1, file1, path1);
    var gpx2 := OneTrackFolder(gpxName2, gpxPath2, file2, path2);
    assert |gpxName1| == |GpxFolder| && |gpxName2| == |GpxFolder|;
    TwinCandidates(volName, garmin1, gpx1, garmin2, gpx2);
    var a, b := Candidate(volName, gpx1), Candidate(volName, gpx2);
    OneTrackAccepted(volName, gpxName1, gpxPath1, file1, path1, stem1, ext1);
    OneTrackAccepted(volName, gpxName2, gpxPath2, file2, path2, stem2, ext2);
    ExpectedOfPair(a, b);
  }

  /** Folders "Garmin" and "GARMIN", each holding a gpx folder ("GPX", "gpx")
      with a track file "track.GPX" or "track.gpx", give two volume entries
      with the same label, each listing one file shown as "track". */
  lemma CaseVariantScenario()
    ensures Expected([TwinVolume("Mixed",
                                 "Garmin", OneTrackFolder("GPX", "/Volumes/Mixed/Garmin/GPX",
                                                          "track.GPX", "/Volumes/Mixed/Garmin/GPX/track.GPX"),
                                 "GARMIN", OneTrackFolder("gpx", "/Volumes/Mixed/GARMIN/gpx",
                                                          "track.gpx", "/Volumes/Mixed/GARMIN/gpx/track.gpx"))])
         == [VolumeView("Mixed", "/Volumes/Mixed/Garmin/GPX", [FileView("track", "/Volumes/Mixed/Garmin/GPX/track.GPX")]),
             VolumeView("Mixed", "/Volumes/Mixed/GARMIN/gpx", [FileView("track", "/Volumes/Mixed/GARMIN/gpx/track.gpx")])]
  {
    assert "track.GPX" == "track" + "." + "GPX";
    assert "track.gpx" == "track" + "." + "gpx";
    assert ToLower("GPX") == GpxFolder;
    assert ToLower("gpx") == GpxFolder;
    assert ToLower("Garmin") == GarminFolder;
    assert ToLower("GARMIN") == GarminFolder;
    TwinDevice("Mixed",
               "Garmin", "GPX", "/Volumes/Mixed/Garmin/GPX", "track.GPX", "/Volumes/Mixed/Garmin/GPX/track.GPX", "track", "GPX",
               "GARMIN", "gpx", "/Volumes/Mixed/GARMIN/gpx", "track.gpx", "/Volumes/Mixed/GARMIN/gpx/track.gpx", "track", "gpx");
  }

  // ----- Volumes that contribute nothing -----

  /** A volume whose only top-level folder holds only the folder `inner`. */
  function NestedVolume(volName: string, garminName: string, inner: Entry): Volume
  {
    Volume(volName, "/Volumes/" + volName, [PlainDir(garminName, "/Volumes/" + volName + "/" + garminName, [inner])])
  }

  /** A garmin folder without a gpx folder adds no volume entry. */
  lemma NoGpxFolder(volName: string, garminName: string, inner: Entry)
    requires ToLower(garminName) == GarminFolder && !IsGpxDir(inner)
    ensures Expected([NestedVolume(volName, garminName, inner)]) == []
  {
    var vol := NestedVolume(volName, garminName, inner);
    assert |garminName| == |GarminFolder|;
    FilterOne(vol.entries[0], IsListedDir);
    if IsListedDir(inner) {
      FilterOne(inner, IsListedDir);
    } else {
      assert Seqs.FilterUpTo([inner], IsListedDir, 0) == [];
    }
    assert SubMatches(volName, Dirs([inner])) == [];
    assert GarminMatches(volName, [vol.entries[0]]) == [];
    assert Candidates([vol]) == [];
  }

  /** A gpx folder holding a file with another extension and a directory whose
      name merely ends in ".gpx". */
  function NoTracksFolder(gpxName: string, gpxPath: string, stem: string, ext: string): Entry
  {
    PlainDir(gpxName, gpxPath, [PlainFile(stem + "." + ext, gpxPath + "/" + stem + "." + ext),
                                PlainDir(stem + ".gpx", gpxPath + "/" + stem + ".gpx", [])])
  }

  lemma NoTracksFiles(gpxName: string, gpxPath: string, stem: string, ext: string)
    requires stem != [] && '.' !in stem && '.' !in ext && ToLower(ext) != GpxSuffix
    ensures GpxFiles(Contents(NoTracksFolder(gpxName, gpxPath, stem, ext))) == []
  {
    var listing := NoTracksFolder(gpxName, gpxPath, stem, ext).entries;
    assert listing[0].name[0] == stem[0] != '.';
    FilterFirst(listing[0], listing[1], IsListedFile);
    SuffixOfDotted(stem, ext);
    assert Seqs.FilterUpTo([listing[0]], IsGpxFile, 0) == [];
  }

  /** A gpx folder holding no track file adds no volume entry. */
  lemma NoTracksInFolder(volName: string, garminName: string, gpxName: string, gpxPath: string, stem: string, ext: string)
    requires ToLower(garminName) == GarminFolder && ToLower(gpxName) == GpxFolder
    requires stem != [] && '.' !in stem && '.' !in ext && ToLower(ext) != GpxSuffix
    ensures Expected([NestedVolume(volName, garminName, NoTracksFolder(gpxName, gpxPath, stem, ext))]) == []
  {
    var gpx := NoTracksFolder(gpxName, gpxPath, stem, ext);
    var vol := NestedVolume(volName, garminName, gpx);
    assert |garminName| == |GarminFolder| && |gpxName| == |GpxFolder|;
    FilterOne(vol.entries[0], IsListedDir);
    FilterOne(gpx, IsListedDir);
    var c := Candidate(volName, gpx);
    assert SubMatches(volName, [gpx]) == [c];
    assert GarminMatches(volName, [vol.entries[0]]) == [c];
    assert Candidates([vol]) == [c];
    NoTracksFiles(gpxName, gpxPath, stem, ext);
    assert ExpectedOf([c]) == Accept(c);
  }

  /** Two devices that show nothing: "Garmin" holding only "Activities", and
      "Garmin/GPX" holding only "notes.txt" and a directory "notes.gpx". */
  lemma EmptyScenarios()
    ensures Expected([NestedVolume("NoGpx", "Garmin", PlainDir("Activities", "/Volumes/NoGpx/Garmin/Activities", []))]) == []
    ensures Expected([NestedVolume("NoTracks", "Garmin", NoTracksFolder("GPX", "/Volumes/NoTracks/Garmin/GPX", "notes", "txt"))]) == []
  {
    assert ToLower("Garmin") == GarminFolder;
    assert ToLower("GPX") == GpxFolder;
    assert ToLower("Activities") != GpxFolder;
    assert ToLower("txt")[0] != GpxSuffix[0];
    NoGpxFolder("NoGpx", "Garmin", PlainDir("Activities", "/Volumes/NoGpx/Garmin/Activities", []));
    NoTracksInFolder("NoTracks", "Garmin", "GPX", "/Volumes/NoTracks/Garmin/GPX", "notes", "txt");
  }
}
