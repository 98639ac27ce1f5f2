/** organize_files of smart_file_organizer.py: make the category folders,
    then walk the listing of the source folder, classify each regular file,
    find it a free name in its category folder and, unless this is a dry
    run, move it there; one audit record per file. */
module Organizer {
  import opened FileTree
  import opened Classifier
  import opened Digits

  /** The "Action" column. */
  datatype Action = Preview | Moved

  /** One row of the audit report. The "Size (KB)" and "Date" columns are
      not modelled; the size is kept in bytes. */
  datatype Record = Record(
    fileName: string,
    oldPath: Path,
    newPath: Path,
    category: string,
    sizeBytes: nat,
    action: Action)

  /** The exceptions organize_files lets escape: os.makedirs refusing a
      folder, and os.listdir on a source that is not a directory. */
  datatype Error = DestinationBlocked(folder: Path) | InvalidSource(folder: Path)

  datatype Result<T> = Ok(value: T) | Err(error: Error)

  datatype Option<T> = None | Some(value: T)

  // ---------------------------------------------------------------------
  // Collision resolution (lines 38-46)
  // ---------------------------------------------------------------------

  /** `f"{name}({counter}){ext}"`: longer than stem and extension
      together, so a candidate is never the plain name. */
  function CandidateName(root: string, ext: string, k: nat): (name: string)
    ensures |name| > |root| + |ext| + 2
  {
    root + "(" + NatToString(k) + ")" + ext
  }

  /** Distinct counters give distinct candidate names. */
  lemma CandidateNameInjective(root: string, ext: string, j: nat, k: nat)
    ensures CandidateName(root, ext, j) == CandidateName(root, ext, k) ==> j == k
  {
    var x, y := CandidateName(root, ext, j), CandidateName(root, ext, k);
    if x == y {
      var a, b := NatToString(j), NatToString(k);
      assert |a| == |b|;
      assert a == x[|root| + 1..|root| + 1 + |a|];
      assert b == y[|root| + 1..|root| + 1 + |b|];
      NatToStringInjective(j, k);
    }
  }

  /** The taken paths that are candidates with a counter of at least `k`;
      the collision loop runs at most this many more times. */
  ghost function TakenFrom(taken: set<Path>, folder: Path, root: string, ext: string, k: nat): set<Path> {
    set p | p in taken && exists j: nat :: k <= j && p == folder + [CandidateName(root, ext, j)]
  }

  lemma {:induction false} SubsetCardinality<T>(a: set<T>, b: set<T>)
    requires a <= b
    ensures |a| <= |b|
    decreases |a|
  {
    if a != {} {
      var x :| x in a;
      SubsetCardinality(a - {x}, b - {x});
    }
  }

  lemma TakenShrinks(taken: set<Path>, folder: Path, root: string, ext: string, k: nat)
    requires folder + [CandidateName(root, ext, k)] in taken
    ensures |TakenFrom(taken, folder, root, ext, k + 1)| < |TakenFrom(taken, folder, root, ext, k)|
  {
    var c := folder + [CandidateName(root, ext, k)];
    var small, big := TakenFrom(taken, folder, root, ext, k + 1), TakenFrom(taken, folder, root, ext, k);
    forall p | p in small
      ensures p in big - {c}
    {
      var j: nat :| k + 1 <= j && p == folder + [CandidateName(root, ext, j)];
      assert k <= j;
      CandidateNameInjective(root, ext, j, k);
      assert p[|folder|] == CandidateName(root, ext, j);
      assert c[|folder|] == CandidateName(root, ext, k);
    }
    assert c in big;
    SubsetCardinality(small, big - {c});
  }

  /** The least counter from `k` on whose candidate is free. It exists
      because only finitely many paths are taken. */
  function FirstFreeIndex(taken: set<Path>, folder: Path, root: string, ext: string, k: nat): (j: nat)
    ensures k <= j
    ensures folder + [CandidateName(root, ext, j)] !in taken
    ensures forall i :: k <= i < j ==> folder + [CandidateName(root, ext, i)] in taken
    decreases |TakenFrom(taken, folder, root, ext, k)|
  {
    if folder + [CandidateName(root, ext, k)] !in taken then k
    else
      TakenShrinks(taken, folder, root, ext, k);
      FirstFreeIndex(taken, folder, root, ext, k + 1)
  }

  /** Where a file called `fileName` lands in `folder`: the first of
      `fileName`, `name(1)ext`, `name(2)ext`, ... that is not taken. */
  function ResolvePath(taken: set<Path>, folder: Path, fileName: string): (p: Path)
    ensures p !in taken
    ensures |p| == |folder| + 1 && p[..|folder|] == folder
    ensures folder + [fileName] !in taken ==> p == folder + [fileName]
    ensures folder + [fileName] in taken ==>
      exists j: nat :: 1 <= j && p == folder + [CandidateName(SplitExt(fileName).0, SplitExt(fileName).1, j)] &&
        forall i :: 1 <= i < j ==> folder + [CandidateName(SplitExt(fileName).0, SplitExt(fileName).1, i)] in taken
  {
    var plain := folder + [fileName];
    if plain !in taken then plain
    else
      var (root, ext) := SplitExt(fileName);
      folder + [CandidateName(root, ext, FirstFreeIndex(taken, folder, root, ext, 1))]
  }

  /** Lines 39-46: the `while os.path.exists(dest_path)` loop. */
  method ResolveDestPath(fs: FileSystem, folder: Path, fileName: string) returns (destPath: Path)
    ensures destPath == ResolvePath(fs.tree.Keys, folder, fileName)
    ensures destPath !in fs.tree
  {
    ghost var taken := fs.tree.Keys;
    destPath := folder + [fileName];
    var (name, ext) := SplitExt(fileName);
    var counter: nat := 1;
    while destPath in fs.tree
      invariant counter >= 1
      invariant counter == 1 ==> destPath == folder + [fileName]
      invariant counter > 1 ==> folder + [fileName] in taken && destPath == folder + [CandidateName(name, ext, counter - 1)]
      invariant forall i :: 1 <= i < counter - 1 ==> folder + [CandidateName(name, ext, i)] in taken
      decreases if counter == 1 then |TakenFrom(taken, folder, name, ext, 1)| + 1
                else |TakenFrom(taken, folder, name, ext, counter - 1)|
    {
      if counter > 1 {
        TakenShrinks(taken, folder, name, ext, counter - 1);
      }
      destPath := folder + [CandidateName(name, ext, counter)];
      counter := counter + 1;
    }
    if counter > 1 {
      var j := FirstFreeIndex(taken, folder, name, ext, 1);
      assert !(j < counter - 1) && !(counter - 1 < j);
    }
  }

  // ---------------------------------------------------------------------
  // The whole run, as a function of the initial tree
  // ---------------------------------------------------------------------

  /** Lines 26-29: the destination, each category of the table in the
      order Python iterates the set of them, and Others. */
  function DestFolders(dest: Path, categoryOrder: seq<string>): (folders: seq<Path>)
    ensures |folders| == |categoryOrder| + 2
    ensures folders[0] == dest && folders[|folders| - 1] == dest + [Others]
    ensures forall i :: 0 <= i < |categoryOrder| ==> folders[i + 1] == dest + [categoryOrder[i]]
  {
    [dest] + seq(|categoryOrder|, i requires 0 <= i < |categoryOrder| => dest + [categoryOrder[i]]) + [dest + [Others]]
  }

  /** makedirs on each folder in turn; the first that fails stops the run. */
  function CreateFolders(t: Tree, folders: seq<Path>): (r: (Tree, Option<Path>))
    ensures r.1.Some? ==> r.1.value in folders
    decreases |folders|
  {
    if folders == [] then (t, None)
    else
      var (t1, ok) := MakeDirsIn(t, folders[0]);
      if !ok then (t1, Some(folders[0])) else CreateFolders(t1, folders[1..])
  }

  /** One pass of the loop over the listing (lines 33-65): the records it
      appends and the tree after it. */
  function Step(t: Tree, src: Path, dest: Path, fileName: string, dryRun: bool): (r: (Tree, seq<Record>))
    ensures |r.1| == (if IsFile(t, src + [fileName]) then 1 else 0)
  {
    var filePath := src + [fileName];
    if !IsFile(t, filePath) then (t, [])
    else
      var category := GetCategory(fileName);
      var destPath := ResolvePath(t.Keys, dest + [category], fileName);
      var record := Record(fileName, filePath, destPath, category, |t[filePath].data|,
                           if dryRun then Preview else Moved);
      (if dryRun then t else MovedIn(t, filePath, destPath), [record])
  }

  /** The loop over the listing: the tree and the records after its
      passes over these names, the last name processed last. */
  function Run(t: Tree, src: Path, dest: Path, listing: seq<string>, dryRun: bool): (r: (Tree, seq<Record>))
    decreases |listing|
  {
    if listing == [] then (t, [])
    else
      var (t1, rs) := Run(t, src, dest, listing[..|listing| - 1], dryRun);
      var (t2, more) := Step(t1, src, dest, listing[|listing| - 1], dryRun);
      (t2, rs + more)
  }

  /** organize_files: its result and the tree it leaves behind. */
  function Organize(t: Tree, src: Path, dest: Path, listing: seq<string>,
                    categoryOrder: seq<string>, dryRun: bool): (r: (Tree, Result<seq<Record>>))
    ensures r.1.Err? && r.1.error.InvalidSource? ==> r.1.error.folder == src
  {
    var (t1, failed) := CreateFolders(t, DestFolders(dest, categoryOrder));
    if failed.Some? then (t1, Err(DestinationBlocked(failed.value)))
    else if !IsDir(t1, src) then (t1, Err(InvalidSource(src)))
    else
      var (t2, records) := Run(t1, src, dest, listing, dryRun);
      (t2, Ok(records))
  }

  // ---------------------------------------------------------------------
  // The imperative engine
  // ---------------------------------------------------------------------

  lemma CreateFoldersUnfold(t: Tree, folders: seq<Path>, i: nat)
    requires i < |folders|
    ensures CreateFolders(t, folders[i..]) ==
      var (t1, ok) := MakeDirsIn(t, folders[i]);
      if !ok then (t1, Some(folders[i])) else CreateFolders(t1, folders[i + 1..])
  {
    assert folders[i..][0] == folders[i] && folders[i..][1..] == folders[i + 1..];
  }

  /** The passes over the first i + 1 names are those over the first i
      and one more Step. */
  lemma RunPrefix(t: Tree, src: Path, dest: Path, listing: seq<string>, i: nat, dryRun: bool)
    requires i < |listing|
    ensures Run(t, src, dest, listing[..i + 1], dryRun) ==
      var (t1, rs) := Run(t, src, dest, listing[..i], dryRun);
      var (t2, more) := Step(t1, src, dest, listing[i], dryRun);
      (t2, rs + more)
  {
    assert listing[..i + 1][..i] == listing[..i];
  }

  lemma AllFoldersMade(t: Tree, dest: Path, categoryOrder: seq<string>)
    requires forall c :: c in categoryOrder <==> c in CategoryMap.Values
    requires forall j :: 0 <= j < |categoryOrder| ==> IsDir(t, dest + [categoryOrder[j]])
    requires IsDir(t, dest + [Others])
    ensures forall c :: c in AllCategories ==> IsDir(t, dest + [c])
  {
    forall c | c in CategoryMap.Values
      ensures IsDir(t, dest + [c])
    {
      var j :| 0 <= j < |categoryOrder| && categoryOrder[j] == c;
    }
  }

  /** Folder creation only adds directories, each of them one of the
      folders or an ancestor of one; when it stops at a folder, that folder
      is one of those it was asked to make, and when it does not stop every
      folder is a directory. */
  lemma {:induction false} CreateFoldersAddsDirs(t: Tree, folders: seq<Path>)
    ensures AddsOnlyDirs(t, CreateFolders(t, folders).0)
    ensures forall q :: q in CreateFolders(t, folders).0 && q !in t ==>
              exists f :: f in folders && AncestorOrSelf(q, f)
    ensures CreateFolders(t, folders).1.Some? ==> CreateFolders(t, folders).1.value in folders
    ensures CreateFolders(t, folders).1.None? ==>
              forall i :: 0 <= i < |folders| ==> IsDir(CreateFolders(t, folders).0, folders[i])
    decreases |folders|
  {
    if folders != [] {
      MakeDirsAddsDirs(t, folders[0]);
      var (t1, ok) := MakeDirsIn(t, folders[0]);
      if ok {
        CreateFoldersAddsDirs(t1, folders[1..]);
        var u := CreateFolders(t1, folders[1..]).0;
        assert IsDir(u, folders[0]);
        forall q | q in u && q !in t
          ensures exists f :: f in folders && AncestorOrSelf(q, f)
        {
          if q in t1 {
            assert AncestorOrSelf(q, folders[0]);
          } else {
            var f :| f in folders[1..] && AncestorOrSelf(q, f);
            assert f in folders;
          }
        }
        forall i | 1 <= i < |folders|
          ensures folders[i] == folders[1..][i - 1]
        {
        }
      } else {
        assert folders[0] in folders;
      }
    }
  }

  /** The tree after the folders are made, before the listing is walked. */
  function Prepared(t: Tree, dest: Path, categoryOrder: seq<string>): Tree {
    CreateFolders(t, DestFolders(dest, categoryOrder)).0
  }

  /** After folder creation succeeds, the destination and every category
      folder are directories, and nothing but directories was added. */
  lemma PreparedFolders(t: Tree, dest: Path, categoryOrder: seq<string>)
    requires forall c :: c in categoryOrder <==> c in CategoryMap.Values
    ensures AddsOnlyDirs(t, Prepared(t, dest, categoryOrder))
    ensures CreateFolders(t, DestFolders(dest, categoryOrder)).1.None? ==>
              IsDir(Prepared(t, dest, categoryOrder), dest) &&
              forall c :: c in AllCategories ==> IsDir(Prepared(t, dest, categoryOrder), dest + [c])
  {
    var folders := DestFolders(dest, categoryOrder);
    CreateFoldersAddsDirs(t, folders);
    var t1 := Prepared(t, dest, categoryOrder);
    if CreateFolders(t, folders).1.None? {
      assert IsDir(t1, folders[0]);
      assert IsDir(t1, folders[|folders| - 1]);
      forall j | 0 <= j < |categoryOrder|
        ensures IsDir(t1, dest + [categoryOrder[j]])
      {
        assert IsDir(t1, folders[j + 1]);
      }
      AllFoldersMade(t1, dest, categoryOrder);
    }
  }

  /** Folder creation adds nothing but a category folder, the destination
      or one of the destination's ancestors. */
  lemma PreparedOnlyDestFolders(t: Tree, dest: Path, categoryOrder: seq<string>)
    requires forall c :: c in categoryOrder <==> c in CategoryMap.Values
    ensures forall q :: q in Prepared(t, dest, categoryOrder) && q !in t ==>
              exists c :: c in AllCategories && AncestorOrSelf(q, dest + [c])
  {
    var folders := DestFolders(dest, categoryOrder);
    CreateFoldersAddsDirs(t, folders);
    forall q | q in Prepared(t, dest, categoryOrder) && q !in t
      ensures exists c :: c in AllCategories && AncestorOrSelf(q, dest + [c])
    {
      var f :| f in folders && AncestorOrSelf(q, f);
      var i :| 0 <= i < |folders| && folders[i] == f;
      if i == 0 {
        assert (dest + [Others])[..|q|] == dest[..|q|];
        assert AncestorOrSelf(q, dest + [Others]);
      } else if i < |folders| - 1 {
        assert categoryOrder[i - 1] in AllCategories;
      }
    }
  }

  /** Lines 26-29: os.makedirs on the destination, on each category
      folder and on Others; `failed` is the folder where it raised. */
  method MakeFolders(fs: FileSystem, dest: Path, categoryOrder: seq<string>)
    returns (failed: Option<Path>)
    modifies fs
    ensures (fs.tree, failed) == CreateFolders(old(fs.tree), DestFolders(dest, categoryOrder))
  {
    ghost var t0 := fs.tree;
    ghost var folders := DestFolders(dest, categoryOrder);
    CreateFoldersUnfold(fs.tree, folders, 0);
    var ok := fs.MakeDirs(dest);
    if !ok {
      return Some(dest);
    }
    for i := 0 to |categoryOrder|
      invariant CreateFolders(t0, folders) == CreateFolders(fs.tree, folders[i + 1..])
    {
      var folder := dest + [categoryOrder[i]];
      CreateFoldersUnfold(fs.tree, folders, i + 1);
      ok := fs.MakeDirs(folder);
      if !ok {
        return Some(folder);
      }
    }
    CreateFoldersUnfold(fs.tree, folders, |categoryOrder| + 1);
    assert folders[|categoryOrder| + 2..] == [];
    ok := fs.MakeDirs(dest + [Others]);
    if !ok {
      return Some(dest + [Others]);
    }
    return None;
  }

  /** Lines 31-66: the loop over the listing of the source folder. */
  method MoveFiles(fs: FileSystem, src: Path, dest: Path, listing: seq<string>, dryRun: bool)
    returns (records: seq<Record>)
    requires forall c :: c in AllCategories ==> IsDir(fs.tree, dest + [c])
    modifies fs
    ensures (fs.tree, records) == Run(old(fs.tree), src, dest, listing, dryRun)
    ensures forall c :: c in AllCategories ==> IsDir(fs.tree, dest + [c])
  {
    records := [];
    ghost var t0 := fs.tree;
    assert listing[..0] == [];
    for i := 0 to |listing|
      invariant (fs.tree, records) == Run(t0, src, dest, listing[..i], dryRun)
      invariant forall c :: c in AllCategories ==> IsDir(fs.tree, dest + [c])
    {
      RunPrefix(t0, src, dest, listing, i, dryRun);
      ghost var step := Step(fs.tree, src, dest, listing[i], dryRun);
      var fileName := listing[i];
      var filePath := src + [fileName];
      if !IsFile(fs.tree, filePath) {
        assert step == (fs.tree, []) && records + [] == records;
        continue;
      }
      var category := GetCategory(fileName);
      var destCatFolder := dest + [category];
      var destPath := ResolveDestPath(fs, destCatFolder, fileName);
      var sizeBytes := |fs.tree[filePath].data|;
      ghost var before := fs.tree;
      var action;
      if !dryRun {
        assert Parent(destPath) == destCatFolder;
        fs.Move(filePath, destPath);
        action := Moved;
      } else {
        action := Preview;
      }
      var record := Record(fileName, filePath, destPath, category, sizeBytes, action);
      assert step == (if dryRun then before else MovedIn(before, filePath, destPath), [record]);
      records := records + [record];
    }
    assert listing[..|listing|] == listing;
  }

  /** organize_files(src, dest, dry_run) over the file system `fs`;
      `listing` is what os.listdir(src) returns and `categoryOrder` the
      order in which Python iterates set(CATEGORY_MAP.values()). */
  method OrganizeFiles(fs: FileSystem, src: Path, dest: Path, listing: seq<string>,
                       categoryOrder: seq<string>, dryRun: bool)
    returns (result: Result<seq<Record>>)
    requires forall c :: c in categoryOrder <==> c in CategoryMap.Values
    modifies fs
    ensures (fs.tree, result) == Organize(old(fs.tree), src, dest, listing, categoryOrder, dryRun)
    ensures result.Ok? ==> forall c :: c in AllCategories ==> IsDir(fs.tree, dest + [c])
  {
    PreparedFolders(fs.tree, dest, categoryOrder);
    var failed := MakeFolders(fs, dest, categoryOrder);
    if failed.Some? {
      return Err(DestinationBlocked(failed.value));
    }
    if !IsDir(fs.tree, src) {
      return Err(InvalidSource(src));
    }
    var records := MoveFiles(fs, src, dest, listing, dryRun);
    return Ok(records);
  }
}
