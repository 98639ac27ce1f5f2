/** What a whole call of organize_files guarantees: the folders it makes,
    why it fails, what a dry run and an apply run leave behind. */
module OrganizeTheorems {
  import opened FileTree
  import opened Classifier
  import opened Digits
  import opened Organizer
  import opened OrganizerProperties

  // ---------------------------------------------------------------------
  // Folder creation (lines 26-29)
  // ---------------------------------------------------------------------

  /** In a well-formed tree folder creation keeps the tree well formed, and
      it stops at a folder exactly because an entry that is not a directory
      already sits on that folder's path (the folder or an ancestor). */
  lemma {:induction false} CreateFoldersBlocked(t: Tree, folders: seq<Path>)
    requires WellFormed(t)
    ensures WellFormed(CreateFolders(t, folders).0)
    ensures var failed := CreateFolders(t, folders).1;
            failed.Some? ==> exists i :: 0 < i <= |failed.value| && failed.value[..i] in t && !t[failed.value[..i]].Dir?
    decreases |folders|
  {
    if folders != [] {
      MakeDirsKeepsWellFormed(t, folders[0]);
      MakeDirsSucceedsIff(t, folders[0]);
      MakeDirsAddsDirs(t, folders[0]);
      var (t1, ok) := MakeDirsIn(t, folders[0]);
      if ok {
        CreateFoldersBlocked(t1, folders[1..]);
        var failed := CreateFolders(t1, folders[1..]).1;
        if failed.Some? {
          var i :| 0 < i <= |failed.value| && failed.value[..i] in t1 && !t1[failed.value[..i]].Dir?;
          assert failed.value[..i] in t;
        }
      }
    }
  }

  /** Creating folders that all exist changes nothing. */
  lemma {:induction false} CreateFoldersExisting(t: Tree, folders: seq<Path>)
    requires WellFormed(t)
    requires forall i :: 0 <= i < |folders| ==> IsDir(t, folders[i])
    ensures CreateFolders(t, folders) == (t, None)
    decreases |folders|
  {
    if folders != [] {
      MakeDirsExisting(t, folders[0]);
      CreateFoldersExisting(t, folders[1..]);
    }
  }

  // ---------------------------------------------------------------------
  // organize_files as a whole
  // ---------------------------------------------------------------------

  /** The folders the call is asked to make. */
  ghost predicate Categories(categoryOrder: seq<string>) {
    forall c :: c in categoryOrder <==> c in CategoryMap.Values
  }

  /** Unless the call fails on a folder, the destination and every category
      folder exist afterwards, in both modes. */
  lemma OrganizeMakesFolders(t: Tree, src: Path, dest: Path, listing: seq<string>,
                             categoryOrder: seq<string>, dryRun: bool)
    requires Categories(categoryOrder)
    ensures var (t2, result) := Organize(t, src, dest, listing, categoryOrder, dryRun);
            !(result.Err? && result.error.DestinationBlocked?) ==>
              IsDir(t2, dest) && forall c :: c in AllCategories ==> IsDir(t2, dest + [c])
  {
    PreparedFolders(t, dest, categoryOrder);
    RunKeepsDirs(Prepared(t, dest, categoryOrder), src, dest, listing, dryRun);
  }

  /** The two ways the call fails: a folder it must make is blocked by an
      existing entry that is not a directory, or the source is not a
      directory. */
  lemma OrganizeErrors(t: Tree, src: Path, dest: Path, listing: seq<string>,
                       categoryOrder: seq<string>, dryRun: bool)
    requires WellFormed(t) && Categories(categoryOrder)
    ensures var result := Organize(t, src, dest, listing, categoryOrder, dryRun).1;
            && (result.Err? && result.error.DestinationBlocked? ==>
                  var f := result.error.folder;
                  f in DestFolders(dest, categoryOrder) &&
                  exists i :: 0 < i <= |f| && f[..i] in t && !t[f[..i]].Dir?)
            && (result.Err? && result.error.InvalidSource? ==>
                  result.error.folder == src && !IsDir(t, src))
            && (IsDir(t, src) ==> !(result.Err? && result.error.InvalidSource?))
  {
    var folders := DestFolders(dest, categoryOrder);
    CreateFoldersAddsDirs(t, folders);
    CreateFoldersBlocked(t, folders);
  }

  /** A dry run touches no existing entry and adds only directories: the
      category folders, the destination and the destination's missing
      ancestors. */
  lemma DryRunOnlyAddsDirs(t: Tree, src: Path, dest: Path, listing: seq<string>, categoryOrder: seq<string>)
    requires Categories(categoryOrder)
    ensures AddsOnlyDirs(t, Organize(t, src, dest, listing, categoryOrder, true).0)
    ensures forall q :: q in Organize(t, src, dest, listing, categoryOrder, true).0 && q !in t ==>
              exists c :: c in AllCategories && AncestorOrSelf(q, dest + [c])
  {
    PreparedFolders(t, dest, categoryOrder);
    PreparedOnlyDestFolders(t, dest, categoryOrder);
    DryRunKeepsTree(Prepared(t, dest, categoryOrder), src, dest, listing);
  }

  /** What a successful dry run reports: every regular file of the listing
      in listing order, each with the free path it would get now in its
      category folder. */
  lemma DryRunReport(t: Tree, src: Path, dest: Path, listing: seq<string>, categoryOrder: seq<string>)
    requires Categories(categoryOrder)
    ensures var (t2, result) := Organize(t, src, dest, listing, categoryOrder, true);
            result.Ok? ==>
              && FileNames(result.value) == FilesIn(t, src, listing)
              && forall r :: r in result.value ==>
                   RecordOf(r, src, dest, true) && IsFile(t, r.oldPath) && r.sizeBytes == |t[r.oldPath].data| &&
                   r.newPath == ResolvePath(t2.Keys, dest + [r.category], r.fileName) && r.newPath !in t2
  {
    var t1 := Prepared(t, dest, categoryOrder);
    PreparedFolders(t, dest, categoryOrder);
    DryRunKeepsTree(t1, src, dest, listing);
    RunRecordsShape(t1, src, dest, listing, true);
    FilesInSame(t1, t, src, listing);
  }

  /** Running the dry run again on what it left gives the same answer and
      the same tree, unless it failed on a folder. */
  lemma DryRunRepeatable(t: Tree, src: Path, dest: Path, listing: seq<string>, categoryOrder: seq<string>)
    requires WellFormed(t) && Categories(categoryOrder)
    ensures var (t2, result) := Organize(t, src, dest, listing, categoryOrder, true);
            !(result.Err? && result.error.DestinationBlocked?) ==>
              Organize(t2, src, dest, listing, categoryOrder, true) == (t2, result)
  {
    var folders := DestFolders(dest, categoryOrder);
    var t1 := Prepared(t, dest, categoryOrder);
    CreateFoldersAddsDirs(t, folders);
    CreateFoldersBlocked(t, folders);
    DryRunKeepsTree(t1, src, dest, listing);
    if CreateFolders(t, folders).1.None? {
      CreateFoldersExisting(t1, folders);
    }
  }

  /** What a successful apply run does, given the listing os.listdir
      returns once the folders exist: one record per regular file of the
      listing in listing order, no two files sent to the same path, and the
      tree afterwards is the prepared one with each file moved, unchanged,
      to its record's new path in its category folder. */
  lemma ApplyOrganize(t: Tree, src: Path, dest: Path, listing: seq<string>, categoryOrder: seq<string>)
    requires Categories(categoryOrder)
    requires Accurate(Prepared(t, dest, categoryOrder), src, listing)
    ensures var (t2, result) := Organize(t, src, dest, listing, categoryOrder, false);
            var t1 := Prepared(t, dest, categoryOrder);
            result.Ok? ==>
              && AddsOnlyDirs(t, t1)
              && FileNames(result.value) == FilesIn(t, src, listing)
              && (forall r :: r in result.value ==> RecordOf(r, src, dest, false))
              && Distinct(NewPaths(result.value))
              && Relocated(t1, result.value, t2)
  {
    var t1 := Prepared(t, dest, categoryOrder);
    PreparedFolders(t, dest, categoryOrder);
    ApplyRun(t1, src, dest, listing);
    RunRecordsShape(t1, src, dest, listing, false);
    FilesInSame(t1, t, src, listing);
  }

  /** The preview and the real run agree on whether the call succeeds and,
      with the listing of the prepared tree, on which files they report. */
  lemma PreviewListsSameFiles(t: Tree, src: Path, dest: Path, listing: seq<string>, categoryOrder: seq<string>)
    requires Categories(categoryOrder)
    requires Accurate(Prepared(t, dest, categoryOrder), src, listing)
    ensures var preview := Organize(t, src, dest, listing, categoryOrder, true).1;
            var applied := Organize(t, src, dest, listing, categoryOrder, false).1;
            && (preview.Ok? <==> applied.Ok?)
            && (preview.Err? ==> preview == applied)
            && (preview.Ok? ==> FileNames(preview.value) == FileNames(applied.value))
  {
    DryRunReport(t, src, dest, listing, categoryOrder);
    ApplyOrganize(t, src, dest, listing, categoryOrder);
  }

  // ---------------------------------------------------------------------
  // Examples
  // ---------------------------------------------------------------------

  lemma TxtLiterals()
    ensures Lower("txt") == "txt" && CategoryOfKey("txt") == "Documents"
  {
  }

  lemma CandidateLiterals()
    ensures CandidateName("a", ".txt", 1) == "a(1).txt" && CandidateName("a", ".txt", 2) == "a(2).txt"
  {
    assert NatToString(1) == "1" && NatToString(2) == "2";
  }

  lemma NestedCandidateLiteral()
    ensures CandidateName("a(1)", ".txt", 1) == "a(1)(1).txt"
  {
    assert NatToString(1) == "1";
  }

  /** With a.txt and a(1).txt already in the folder, a new a.txt becomes
      a(2).txt. */
  lemma CollisionExample(folder: Path)
    ensures ResolvePath({folder + ["a.txt"], folder + ["a(1).txt"]}, folder, "a.txt") == folder + ["a(2).txt"]
  {
    var taken := {folder + ["a.txt"], folder + ["a(1).txt"]};
    assert FirstFreeIndex(taken, folder, "a", ".txt", 1) == 2 by {
      SameFolderNames(folder, "a(2).txt", "a.txt");
      SameFolderNames(folder, "a(2).txt", "a(1).txt");
      CandidateLiterals();
      SecondCandidateFree(taken, folder, "a", ".txt");
    }
    assert ResolvePath(taken, folder, "a.txt") == folder + [CandidateName("a", ".txt", 2)] by {
      assert SplitExt("a.txt") == ("a", ".txt") by {
        SplitOfTxt("a", "a.txt");
      }
    }
    CandidateLiterals();
  }

  /** When the first candidate is taken and the second is free, the second
      is chosen. */
  lemma SecondCandidateFree(taken: set<Path>, folder: Path, root: string, ext: string)
    requires folder + [CandidateName(root, ext, 1)] in taken
    requires folder + [CandidateName(root, ext, 2)] !in taken
    ensures FirstFreeIndex(taken, folder, root, ext, 1) == 2
  {
  }

  lemma SameFolderNames(folder: Path, x: string, y: string)
    requires x != y
    ensures folder + [x] != folder + [y]
  {
    assert (folder + [x])[|folder|] == x;
  }

  /** Two passes of the loop. */
  lemma RunTwo(t: Tree, src: Path, dest: Path, x: string, y: string, dryRun: bool)
    ensures Run(t, src, dest, [x, y], dryRun) ==
      var (t1, r1) := Step(t, src, dest, x, dryRun);
      var (t2, r2) := Step(t1, src, dest, y, dryRun);
      (t2, r1 + r2)
  {
    assert [x, y][..1] == [x] && [x][..0] == [];
    var first := Step(t, src, dest, x, dryRun);
    assert [] + first.1 == first.1;
    assert Run(t, src, dest, [x], dryRun) == first;
  }

  /** A source folder holding a.txt and a(1).txt, and a Documents folder
      that already holds an a.txt. */
  function SharedTargetTree(): Tree {
    map[["in"] := Dir, ["out"] := Dir, ["out", "Documents"] := Dir,
        ["in", "a.txt"] := File([]), ["in", "a(1).txt"] := File([]), ["out", "Documents", "a.txt"] := File([])]
  }

  /** The example is a tree a real call could meet: every entry sits in a
      directory. */
  lemma SharedTargetWellFormed()
    ensures WellFormed(SharedTargetTree())
  {
    forall p | p in SharedTargetTree()
      ensures p != [] && IsDir(SharedTargetTree(), Parent(p))
    {
      assert ["in", "a.txt"][..1] == ["in"] && ["in", "a(1).txt"][..1] == ["in"];
      assert ["out", "Documents"][..1] == ["out"];
      assert ["out", "Documents", "a.txt"][..2] == ["out", "Documents"];
    }
  }

  lemma SharedTargetCategories()
    ensures GetCategory("a.txt") == "Documents" && GetCategory("a(1).txt") == "Documents"
  {
    TxtLiterals();
    assert "a"[0] != '.' && "a(1)"[0] != '.';
    assert "a" + "." + "txt" == "a.txt" && "a(1)" + "." + "txt" == "a(1).txt";
    LastExtensionDecides("a", "txt");
    LastExtensionDecides("a(1)", "txt");
  }

  /** A `.txt` name whose stem has no dot splits into the stem and `.txt`. */
  lemma SplitOfTxt(stem: string, name: string)
    requires '/' !in stem && '.' !in stem && stem != []
    requires name == stem + ".txt"
    ensures SplitExt(name) == (stem, ".txt")
  {
    assert !OnlyDots(stem) by {
      assert stem[0] != '.';
    }
    assert stem + "." + "txt" == stem + ".txt";
    SplitAtLastDot(stem, "txt");
  }

  /** When the plain name is taken and the first candidate is free, the
      first candidate is chosen. */
  lemma FirstCandidateFree(taken: set<Path>, folder: Path, fileName: string, root: string, ext: string)
    requires SplitExt(fileName) == (root, ext)
    requires folder + [fileName] in taken
    requires folder + [CandidateName(root, ext, 1)] !in taken
    ensures ResolvePath(taken, folder, fileName) == folder + [CandidateName(root, ext, 1)]
  {
    assert FirstFreeIndex(taken, folder, root, ext, 1) == 1;
  }

  /** a.txt is taken in Documents, so it would go to a(1).txt. */
  lemma SharedTargetFirst()
    ensures ResolvePath(SharedTargetTree().Keys, ["out", "Documents"], "a.txt") == ["out", "Documents", "a(1).txt"]
  {
    SharedTargetFirstFacts();
    FirstCandidateFree(SharedTargetTree().Keys, ["out", "Documents"], "a.txt", "a", ".txt");
  }

  lemma SharedTargetFirstFacts()
    ensures SplitExt("a.txt") == ("a", ".txt")
    ensures ["out", "Documents"] + ["a.txt"] in SharedTargetTree().Keys
    ensures ["out", "Documents"] + [CandidateName("a", ".txt", 1)] == ["out", "Documents", "a(1).txt"]
    ensures ["out", "Documents", "a(1).txt"] !in SharedTargetTree().Keys
  {
    SplitOfTxt("a", "a.txt");
    assert ["out", "Documents"] + ["a.txt"] == ["out", "Documents", "a.txt"];
    CandidateLiterals();
  }

  /** Once a.txt has been moved to Documents/a(1).txt, a(1).txt goes to
      a(1)(1).txt. */
  lemma SharedTargetSecondMoved()
    ensures var u := MovedIn(SharedTargetTree(), ["in", "a.txt"], ["out", "Documents", "a(1).txt"]);
            ResolvePath(u.Keys, ["out", "Documents"], "a(1).txt") == ["out", "Documents", "a(1)(1).txt"]
  {
    SharedTargetSecondFacts();
    var u := MovedIn(SharedTargetTree(), ["in", "a.txt"], ["out", "Documents", "a(1).txt"]);
    FirstCandidateFree(u.Keys, ["out", "Documents"], "a(1).txt", "a(1)", ".txt");
  }

  lemma SharedTargetSecondFacts()
    ensures var u := MovedIn(SharedTargetTree(), ["in", "a.txt"], ["out", "Documents", "a(1).txt"]);
            && SplitExt("a(1).txt") == ("a(1)", ".txt")
            && ["out", "Documents"] + ["a(1).txt"] in u.Keys
            && ["out", "Documents"] + [CandidateName("a(1)", ".txt", 1)] == ["out", "Documents", "a(1)(1).txt"]
            && ["out", "Documents", "a(1)(1).txt"] !in u.Keys
  {
    SplitOfTxt("a(1)", "a(1).txt");
    NestedCandidateLiteral();
    MovedTreeKeys();
  }

  lemma MovedTreeKeys()
    ensures var u := MovedIn(SharedTargetTree(), ["in", "a.txt"], ["out", "Documents", "a(1).txt"]);
            ["out", "Documents"] + ["a(1).txt"] in u.Keys && ["out", "Documents", "a(1)(1).txt"] !in u.Keys
  {
    assert ["out", "Documents"] + ["a(1).txt"] == ["out", "Documents", "a(1).txt"];
  }

  lemma SharedTargetSecondPreview()
    ensures ResolvePath(SharedTargetTree().Keys, ["out", "Documents"], "a(1).txt") == ["out", "Documents", "a(1).txt"]
  {
    assert ["out", "Documents"] + ["a(1).txt"] == ["out", "Documents", "a(1).txt"];
  }

  /** One pass over a regular file whose target is already known. */
  lemma StepOfFile(t: Tree, src: Path, dest: Path, n: string, dryRun: bool, target: Path)
    requires IsFile(t, src + [n])
    requires ResolvePath(t.Keys, dest + [GetCategory(n)], n) == target
    ensures var step := Step(t, src, dest, n, dryRun);
            |step.1| == 1 && step.1[0].newPath == target &&
            step.0 == (if dryRun then t else MovedIn(t, src + [n], target))
  {
  }

  lemma SharedTargetFirstStep(dryRun: bool)
    ensures var step := Step(SharedTargetTree(), ["in"], ["out"], "a.txt", dryRun);
            |step.1| == 1 && step.1[0].newPath == ["out", "Documents", "a(1).txt"] &&
            step.0 == (if dryRun then SharedTargetTree()
                       else MovedIn(SharedTargetTree(), ["in", "a.txt"], ["out", "Documents", "a(1).txt"]))
  {
    var t := SharedTargetTree();
    assert IsFile(t, ["in"] + ["a.txt"]) by {
      assert ["in"] + ["a.txt"] == ["in", "a.txt"];
    }
    assert ResolvePath(t.Keys, ["out"] + [GetCategory("a.txt")], "a.txt") == ["out", "Documents", "a(1).txt"] by {
      SharedTargetCategories();
      SharedTargetFirst();
      assert ["out"] + ["Documents"] == ["out", "Documents"];
    }
    StepOfFile(t, ["in"], ["out"], "a.txt", dryRun, ["out", "Documents", "a(1).txt"]);
    assert ["in"] + ["a.txt"] == ["in", "a.txt"];
  }

  lemma SharedTargetSecondStepPreview()
    ensures var step := Step(SharedTargetTree(), ["in"], ["out"], "a(1).txt", true);
            |step.1| == 1 && step.1[0].newPath == ["out", "Documents", "a(1).txt"]
  {
    SharedTargetCategories();
    SharedTargetSecondPreview();
    assert ["in"] + ["a(1).txt"] == ["in", "a(1).txt"];
    assert ["out"] + ["Documents"] == ["out", "Documents"];
    StepOfFile(SharedTargetTree(), ["in"], ["out"], "a(1).txt", true, ["out", "Documents", "a(1).txt"]);
  }

  lemma SharedTargetSecondStepMoved()
    ensures var u := MovedIn(SharedTargetTree(), ["in", "a.txt"], ["out", "Documents", "a(1).txt"]);
            var step := Step(u, ["in"], ["out"], "a(1).txt", false);
            |step.1| == 1 && step.1[0].newPath == ["out", "Documents", "a(1)(1).txt"]
  {
    var u := MovedIn(SharedTargetTree(), ["in", "a.txt"], ["out", "Documents", "a(1).txt"]);
    SharedTargetCategories();
    SharedTargetSecondMoved();
    assert ["in"] + ["a(1).txt"] == ["in", "a(1).txt"];
    assert ["out"] + ["Documents"] == ["out", "Documents"];
    assert IsFile(u, ["in", "a(1).txt"]);
    StepOfFile(u, ["in"], ["out"], "a(1).txt", false, ["out", "Documents", "a(1)(1).txt"]);
  }

  /** The preview is not what the real run does: in a dry run both files
      are shown going to Documents/a(1).txt, because nothing is moved in
      between; the real run sends the second one to Documents/a(1)(1).txt. */
  lemma DryRunSharedTarget()
    ensures var rs := Run(SharedTargetTree(), ["in"], ["out"], ["a.txt", "a(1).txt"], true).1;
            |rs| == 2 && rs[0].newPath == rs[1].newPath == ["out", "Documents", "a(1).txt"]
    ensures var rs := Run(SharedTargetTree(), ["in"], ["out"], ["a.txt", "a(1).txt"], false).1;
            |rs| == 2 && rs[0].newPath == ["out", "Documents", "a(1).txt"] &&
            rs[1].newPath == ["out", "Documents", "a(1)(1).txt"]
  {
    RunTwo(SharedTargetTree(), ["in"], ["out"], "a.txt", "a(1).txt", true);
    RunTwo(SharedTargetTree(), ["in"], ["out"], "a.txt", "a(1).txt", false);
    SharedTargetFirstStep(true);
    SharedTargetFirstStep(false);
    SharedTargetSecondStepPreview();
    SharedTargetSecondStepMoved();
  }
}
