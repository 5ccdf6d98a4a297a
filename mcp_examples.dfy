/** A worked example of the file-reference scan: "see src/app.js" names the file
    `src/app.js`, and the directory pattern also finds `src/app`, cut at the word
    boundary before the dot. */
module McpExamples {
  import opened Strings
  import opened Mcp

  const SeeApp: string := "see src/app.js"

  lemma PathRuns()
    ensures PathRun(SeeApp, 0) == 3 && PathRun(SeeApp, 3) == 0
    ensures PathRun(SeeApp, 4) == 7 && PathRun(SeeApp, 8) == 3
  {
    assert PathRun(SeeApp, 11) == 0;
    assert PathRun(SeeApp, 10) == 1;
    assert PathRun(SeeApp, 9) == 2;
    assert PathRun(SeeApp, 8) == 3;
    assert PathRun(SeeApp, 7) == 4;
    assert PathRun(SeeApp, 6) == 5;
    assert PathRun(SeeApp, 5) == 6;
    assert PathRun(SeeApp, 4) == 7;
    assert PathRun(SeeApp, 2) == 1;
    assert PathRun(SeeApp, 1) == 2;
  }

  lemma Boundaries()
    ensures BoundaryAt(SeeApp, 0) && BoundaryAt(SeeApp, 3) && BoundaryAt(SeeApp, 4)
    ensures BoundaryAt(SeeApp, 11) && BoundaryAt(SeeApp, 12) && BoundaryAt(SeeApp, 14)
    ensures !BoundaryAt(SeeApp, 1) && !BoundaryAt(SeeApp, 2) && !BoundaryAt(SeeApp, 13)
  {
  }

  lemma FileNameOnlyAtFour()
    ensures FileNameMatchAt(SeeApp, 0) == None && FileNameMatchAt(SeeApp, 1) == None
    ensures FileNameMatchAt(SeeApp, 2) == None && FileNameMatchAt(SeeApp, 3) == None
    ensures FileNameMatchAt(SeeApp, 4) == Some(14)
  {
    PathRuns();
    Boundaries();
    assert SeeApp[12..14] == ExtensionNames[0];
    assert ExtensionEnd(SeeApp, 12, 0) == Some(14);
  }

  /** A scan step at a match. */
  lemma ScanHit(s: string, p: nat, pattern: FilePattern, e: nat)
    requires p < |s| && MatchAt(s, p, pattern) == Some(e)
    ensures Scan(s, p, pattern) == [s[p..e]] + Scan(s, e, pattern)
  {
  }

  /** A scan step at a miss. */
  lemma ScanMiss(s: string, p: nat, pattern: FilePattern)
    requires p < |s| && MatchAt(s, p, pattern) == None
    ensures Scan(s, p, pattern) == Scan(s, p + 1, pattern)
  {
  }

  lemma FileNameScanFromFour()
    ensures Scan(SeeApp, 4, FileName) == ["src/app.js"]
  {
    FileNameOnlyAtFour();
    ScanHit(SeeApp, 4, FileName, 14);
    ScanAtEnd(SeeApp, FileName);
    SeeAppSlices();
  }

  lemma ScanAtEnd(s: string, pattern: FilePattern)
    ensures Scan(s, |s|, pattern) == []
  {
  }

  lemma SeeAppSlices()
    ensures |SeeApp| == 14
    ensures SeeApp[4..14] == "src/app.js" && SeeApp[4..11] == "src/app"
  {
  }

  lemma FileNames()
    ensures Matches(SeeApp, FileName) == ["src/app.js"]
  {
    FileNameOnlyAtFour();
    FileNameScanFromFour();
    ScanMiss(SeeApp, 3, FileName);
    ScanMiss(SeeApp, 2, FileName);
    ScanMiss(SeeApp, 1, FileName);
    ScanMiss(SeeApp, 0, FileName);
  }

  /** No directory name and slash start at the beginning. */
  lemma NoDirectoryAtStart()
    ensures DirectoryAlternative(SeeApp, 0, 0) == None
  {
    var s := SeeApp;
    assert s[0..4] != DirectoryNames[0] + "/" by { assert s[1] == 'e'; }
    assert s[0..7] != DirectoryNames[1] + "/" by { assert s[0] == 's'; }
    assert s[0..8] != DirectoryNames[2] + "/" by { assert s[1] == 'e'; }
    assert s[0..7] != DirectoryNames[3] + "/" by { assert s[1] == 'e'; }
    assert DirectoryAlternative(s, 0, 3) == None;
    assert DirectoryAlternative(s, 0, 2) == None;
    assert DirectoryAlternative(s, 0, 1) == None;
  }

  /** Nor at the space before `src`. */
  lemma NoDirectoryAtSpace()
    ensures DirectoryAlternative(SeeApp, 3, 0) == None
  {
    var s := SeeApp;
    assert s[3] == ' ';
    assert forall k :: 0 <= k < |DirectoryNames| ==> DirectoryNames[k][0] != ' ';
    assert forall k :: 0 <= k < |DirectoryNames| ==>
      3 + |DirectoryNames[k]| + 1 <= |s| ==> s[3..3 + |DirectoryNames[k]| + 1][0] == ' ';
    assert DirectoryAlternative(s, 3, 3) == None;
    assert DirectoryAlternative(s, 3, 2) == None;
    assert DirectoryAlternative(s, 3, 1) == None;
  }

  /** Nor in the last four characters, which are too few. */
  lemma NoDirectoryNearEnd(p: nat)
    requires 11 <= p <= 14
    ensures DirectoryAlternative(SeeApp, p, 0) == None
  {
    assert forall k :: 0 <= k < |DirectoryNames| ==> p + |DirectoryNames[k] + "/"| > |SeeApp|;
    assert DirectoryAlternative(SeeApp, p, 3) == None;
    assert DirectoryAlternative(SeeApp, p, 2) == None;
    assert DirectoryAlternative(SeeApp, p, 1) == None;
  }

  lemma DirectoryAtFour()
    ensures DirectoryMatchAt(SeeApp, 4) == Some(11)
  {
    PathRuns();
    Boundaries();
    assert SeeApp[4..8] == DirectoryNames[0] + "/";
    assert LastBoundary(SeeApp, 8, 3) == Some(11);
  }

  lemma DirectoryScanFromEleven()
    ensures Scan(SeeApp, 11, Directory) == []
  {
    Boundaries();
    NoDirectoryNearEnd(11);
    NoDirectoryNearEnd(12);
    NoDirectoryNearEnd(13);
    ScanMiss(SeeApp, 13, Directory);
    ScanMiss(SeeApp, 12, Directory);
    ScanMiss(SeeApp, 11, Directory);
  }

  lemma DirectoryScanFromFour()
    ensures Scan(SeeApp, 4, Directory) == ["src/app"]
  {
    DirectoryAtFour();
    DirectoryScanFromEleven();
    ScanHit(SeeApp, 4, Directory, 11);
    SeeAppSlices();
  }

  lemma Directories()
    ensures Matches(SeeApp, Directory) == ["src/app"]
  {
    Boundaries();
    NoDirectoryAtStart();
    NoDirectoryAtSpace();
    DirectoryScanFromFour();
    ScanMiss(SeeApp, 3, Directory);
    ScanMiss(SeeApp, 2, Directory);
    ScanMiss(SeeApp, 1, Directory);
    ScanMiss(SeeApp, 0, Directory);
  }

  /** Both patterns fire, and as the two matches differ both are kept, the file
      name first. */
  lemma SeeAppReferences()
    ensures FileReferences(SeeApp) == ["src/app.js", "src/app"]
  {
    FileNames();
    Directories();
    assert Matches(SeeApp, FileName) + Matches(SeeApp, Directory) == ["src/app.js", "src/app"];
    DistinctPair("src/app.js", "src/app");
  }

  /** Two different elements are both kept, in order. */
  lemma DistinctPair(x: string, y: string)
    requires x != y
    ensures Distinct([x, y]) == [x, y]
  {
    assert [x, y][..1] == [x];
    assert [x][..0] == [];
    assert Distinct([x]) == [x];
  }
}
