# Smart File Organizer, modelled in Dafny

This project models the engine of `smart_file_organizer.py`.

- `get_category` puts a file name into a category. It takes the extension as `os.path.splitext` does, lower-cases it and looks it up in the 21-entry `CATEGORY_MAP`. Unknown extensions go to `"Others"`.
- `organize_files` does four things:
  - it creates the destination folder and one folder per category;
  - it walks the listing of the source folder and skips anything that is not a regular file;
  - it finds each file a free name (`name(1)ext`, `name(2)ext`, …) in its category folder;
  - unless this is a dry run, it moves the file there.
  It returns one audit record per file.
- `get_summary` counts the moved files per category and renders the counts as text.

The file system is a map from paths to entries (directory, regular file with its bytes, or another kind of entry). A path is a sequence of components, so `os.path.join` is appending. The empty path is the root directory.

Files:
- `digits.dfy`: decimal numerals for the `(k)` suffix and the counts. `ParseNat` inverts `NatToString`.
- `classifier.dfy`: `CATEGORY_MAP`, `splitext`, ASCII `lower` and `get_category`, with their lemmas.
- `file_tree.dfy`: the file-system state. It has `os.makedirs` and `shutil.move` as functions, and a class `FileSystem` whose methods update the tree in place.
- `organizer.dfy`: `organize_files` in two forms:
  - specification functions (`CreateFolders`, `Step`, `Run`, `Organize`);
  - the imperative engine (`ResolveDestPath`, `MakeFolders`, `MoveFiles`, `OrganizeFiles`), with loops proved equal to those functions.
- `organizer_properties.dfy`: what one walk over the listing guarantees in dry-run and in apply mode.
- `organize_theorems.dfy`: what a whole call guarantees. It also has concrete examples.
- `summary.dfy`: `get_summary` and how it relates to a run.

Some inputs stand for nondeterminism the code does not control:
- `listing` is the order `os.listdir` returns.
- `categoryOrder` is the order Python iterates `set(CATEGORY_MAP.values())`. Its elements must be exactly the category names.

The model follows the code: every category folder is created on every run, dry runs included, and the first failing `os.makedirs`, or a source that is not a directory, ends the call.

## Model

| member | source | states |
|---|---|---|
| Digits.NatToString | smart_file_organizer.py:45 | the counter is rendered as a non-empty string of decimal digits without a leading zero |
| Digits.ParseNatToString | smart_file_organizer.py:45 | reading the rendered counter back gives the counter |
| Digits.NatToStringInjective | smart_file_organizer.py:45 | distinct counters give distinct renderings |
| Classifier.Lower | smart_file_organizer.py:22 | `str.lower` keeps the length and lowers each ASCII letter |
| Classifier.LastIndexOf | smart_file_organizer.py:21 | the last occurrence of a character, or -1 when there is none |
| Classifier.ExtensionStart | smart_file_organizer.py:21 | the extension starts at a dot strictly inside the name, or there is none |
| Classifier.SplitExt | smart_file_organizer.py:21 | `os.path.splitext` gives root and extension that concatenate to the name; the extension is empty or starts with a dot |
| Classifier.ExtensionKey | smart_file_organizer.py:22 | `ext[1:].lower()`: the lookup key holds no dot and no upper-case letter, and is shorter than the name, or empty |
| Classifier.ExtensionKeyOfSplit | smart_file_organizer.py:21-22 | the lookup key is the extension of `splitext` without its dot, lower-cased |
| Classifier.CategoryOfKey | smart_file_organizer.py:22 | `CATEGORY_MAP.get(key, "Others")` yields a value of the table or `"Others"` |
| Classifier.GetCategory | smart_file_organizer.py:20-22 | the lookup of the extension key; the category is always a value of `CATEGORY_MAP` or `"Others"` |
| Classifier.LastIndexOfSkips | smart_file_organizer.py:21 | text after the last occurrence of a character does not move it |
| Classifier.SplitAtLastDot | smart_file_organizer.py:21 | `stem.e` splits at its last dot unless the stem is made of dots only |
| Classifier.LastExtensionDecides | smart_file_organizer.py:21-22 | only the last extension, lower-cased, decides the category |
| Classifier.NoDotIsOthers | smart_file_organizer.py:21-22 | a name without a dot is `"Others"` |
| Classifier.TrailingDotIsOthers | smart_file_organizer.py:21-22 | a name ending in a dot is `"Others"` |
| Classifier.LeadingDotsOnlyIsOthers | smart_file_organizer.py:21-22 | leading dots do not start an extension (`.bashrc` is `"Others"`) |
| Classifier.EmptyKeyIsOthers | smart_file_organizer.py:10-16 | the empty key is not in the table |
| Classifier.LastIndexOfLower | smart_file_organizer.py:21-22 | lowering keeps the positions of dots and slashes |
| Classifier.LowerIdempotent | smart_file_organizer.py:22 | lowering twice is lowering once |
| Classifier.ExtensionStartLower | smart_file_organizer.py:21 | a lowered name has its extension at the same index |
| Classifier.ExtensionKeyLower | smart_file_organizer.py:21-22 | lowering a name does not change its lookup key |
| Classifier.CaseInsensitive | smart_file_organizer.py:20-22 | names equal up to case get the same category |
| Classifier.UpperCaseExample | smart_file_organizer.py:20-22 | `a.PDF` and `a.pdf` are both Documents |
| Classifier.DoubleExtensionExample | smart_file_organizer.py:20-22 | `a.tar.gz` is `"Others"` although `tar` is in the table |
| Classifier.ScenarioExample | smart_file_organizer.py:20-22 | `report.pdf` is Documents and `photo.JPG` is Images |
| Classifier.NoExtensionExamples | smart_file_organizer.py:20-22 | `notes`, `.bashrc` and `a.` are `"Others"` |
| FileTree.IsFile | smart_file_organizer.py:34 | `os.path.isfile`: a regular file, which is never a directory |
| FileTree.MkdirIn | smart_file_organizer.py:26-29 | one `os.mkdir` step of `os.makedirs` with `exist_ok=True`: it succeeds exactly when the folder is a directory afterwards, and it adds at most that one directory |
| FileTree.MakeDirsIn | smart_file_organizer.py:26-29 | `os.makedirs(p, exist_ok=True)`: on success the folder is a directory, and no existing entry disappears; which entries it may add is stated by `MakeDirsAddsDirs` |
| FileTree.MovedIn | smart_file_organizer.py:52 | `shutil.move` of one entry: the new path holds the old entry, and the old path is gone |
| FileTree.MakeDirsAddsDirs | smart_file_organizer.py:26-29 | `os.makedirs` keeps every existing entry and only adds directories, each of them the folder or one of its missing ancestors; on success the folder is a directory |
| FileTree.MakeDirsKeepsWellFormed | smart_file_organizer.py:26-29 | `os.makedirs` keeps every entry below a directory |
| FileTree.MakeDirsExisting | smart_file_organizer.py:26-29 | creating an existing directory with `exist_ok=True` is a no-op |
| FileTree.MakeDirsSucceedsIff | smart_file_organizer.py:26-29 | `os.makedirs` fails exactly when the folder or an ancestor exists and is not a directory |
| FileTree.AncestorsOfDirAreDirs | smart_file_organizer.py:26-29 | every ancestor of a directory is a directory |
| FileTree.FileSystem.constructor | smart_file_organizer.py:25 | the file system starts as the given tree |
| FileTree.FileSystem.MakeDirs | smart_file_organizer.py:26-29 | the call updates the tree as `os.makedirs` does, keeps every directory, and on success the folder exists |
| FileTree.FileSystem.Move | smart_file_organizer.py:52 | the file's content is at the new path, nothing is at the old path, and no other entry changes |
| Organizer.CandidateName | smart_file_organizer.py:45 | `f"{name}({counter}){ext}"` is longer than stem and extension together, so a candidate is never the plain name |
| Organizer.CandidateNameInjective | smart_file_organizer.py:45 | distinct counters give distinct candidate names |
| Organizer.TakenShrinks | smart_file_organizer.py:44-46 | each taken candidate shrinks the set of taken candidates still ahead, so the loop ends |
| Organizer.FirstFreeIndex | smart_file_organizer.py:42-46 | the least counter from `k` on whose candidate is free; all counters before it are taken |
| Organizer.ResolvePath | smart_file_organizer.py:39-46 | the chosen path is free and lies directly in the folder; it is the plain name when that is free, else the first free `name(j)ext` |
| Organizer.ResolveDestPath | smart_file_organizer.py:39-46 | the `while os.path.exists` loop ends and returns `ResolvePath`, a free path |
| Organizer.DestFolders | smart_file_organizer.py:26-29 | the destination, then each category in iteration order, then Others |
| Organizer.CreateFolders | smart_file_organizer.py:26-29 | the `os.makedirs` calls in order; a failure stops them and names one of the folders |
| Organizer.Step | smart_file_organizer.py:33-65 | one pass of the loop records exactly one entry for a regular file and none for anything else |
| Organizer.Run | smart_file_organizer.py:31-66 | the tree and the records after the passes over the listing, last name last; RunRecordsShape, DryRunKeepsTree and ApplyRun state what they are |
| Organizer.Organize | smart_file_organizer.py:25-66 | `organize_files`: folder creation, then the walk; an `InvalidSource` error names the source folder |
| Organizer.CreateFoldersUnfold | smart_file_organizer.py:26-29 | creating the folders from index `i` is one `makedirs`, then the rest unless it fails |
| Organizer.RunPrefix | smart_file_organizer.py:32-65 | the walk over `i + 1` names is the walk over `i` names and one more pass |
| Organizer.AllFoldersMade | smart_file_organizer.py:27-29 | when every folder of the iteration order and Others exist, every category folder exists |
| Organizer.CreateFoldersAddsDirs | smart_file_organizer.py:26-29 | folder creation adds only directories, each one of its folders or an ancestor of one; it stops only at one of its folders; without a stop every folder exists |
| Organizer.PreparedOnlyDestFolders | smart_file_organizer.py:26-29 | lines 26-29 add nothing but the destination, its missing ancestors and the category folders |
| Organizer.PreparedFolders | smart_file_organizer.py:26-29 | after successful folder creation the destination and every category folder are directories |
| Organizer.MakeFolders | smart_file_organizer.py:26-29 | the three `os.makedirs` steps leave the tree and report the failing folder as `CreateFolders` says |
| Organizer.MoveFiles | smart_file_organizer.py:31-66 | the loop leaves the tree and the records as `Run` says, and keeps every category folder |
| Organizer.OrganizeFiles | smart_file_organizer.py:25-66 | the call leaves the tree and returns the result as `Organize` says; on success every category folder exists |
| OrganizerProperties.FileNames | smart_file_organizer.py:58 | the "File Name" column, record by record |
| OrganizerProperties.OldPaths | smart_file_organizer.py:59 | the "Old Path" column, record by record |
| OrganizerProperties.NewPaths | smart_file_organizer.py:60 | the "New Path" column, record by record |
| OrganizerProperties.FilesIn | smart_file_organizer.py:32-35 | the listed names that are regular files of the source, in listing order, as the `isfile` filter keeps them |
| OrganizerProperties.FilesInPrefix | smart_file_organizer.py:32-35 | the regular files among `i + 1` names are those among `i` names plus the next name if it is one |
| OrganizerProperties.FilesInSubseq | smart_file_organizer.py:32-35 | every reported file is a name of the listing |
| OrganizerProperties.FilesInSame | smart_file_organizer.py:32-35 | trees that agree on which names are regular files select the same files |
| OrganizerProperties.RunRecordsShape | smart_file_organizer.py:33-39 | in both modes, each record has old path `src/name`, the classifier's category, a new path directly in `dest/category`, and `Moved` exactly when this is not a dry run |
| OrganizerProperties.RunKeepsDirs | smart_file_organizer.py:32-65 | the walk never removes a directory |
| OrganizerProperties.DryRunKeepsTree | smart_file_organizer.py:32-65 | a dry run leaves the tree unchanged and reports every regular file of the listing in order, with its size and the free path it would get |
| OrganizerProperties.RelocatedMove | smart_file_organizer.py:52 | one more move to a free path keeps the account of relocated files |
| OrganizerProperties.DistinctNewPath | smart_file_organizer.py:44-52 | a move to a free path gives a new path no earlier record has |
| OrganizerProperties.TargetsFreeMove | smart_file_organizer.py:44-52 | no move targets an original path that no move has vacated |
| OrganizerProperties.NextUntouched | smart_file_organizer.py:32-34 | the next listed name was neither moved nor targeted, so its entry is as it was |
| OrganizerProperties.StepApply | smart_file_organizer.py:33-65 | in apply mode one pass moves a regular file to a free path and records it, and skips anything else |
| OrganizerProperties.ApplyMove | smart_file_organizer.py:44-65 | a pass that moves a file keeps the apply-mode invariant |
| OrganizerProperties.ApplySkip | smart_file_organizer.py:34-35 | a skipped entry keeps the apply-mode invariant |
| OrganizerProperties.ApplyStep | smart_file_organizer.py:33-65 | every pass keeps the apply-mode invariant |
| OrganizerProperties.ApplyPrefixes | smart_file_organizer.py:32-65 | the apply-mode invariant holds after every prefix of the listing |
| OrganizerProperties.ApplyRun | smart_file_organizer.py:32-65 | in apply mode: one record per regular file in listing order, pairwise distinct new paths, and each file moved unchanged to its new path |
| OrganizeTheorems.CreateFoldersBlocked | smart_file_organizer.py:26-29 | folder creation stops only where an entry that is not a directory sits on the folder's path |
| OrganizeTheorems.CreateFoldersExisting | smart_file_organizer.py:26-29 | creating folders that all exist changes nothing |
| OrganizeTheorems.OrganizeMakesFolders | smart_file_organizer.py:26-29 | unless a folder is blocked, the destination and every category folder exist afterwards, in both modes |
| OrganizeTheorems.OrganizeErrors | smart_file_organizer.py:26-32 | the call fails only on a blocked folder or a source that is not a directory |
| OrganizeTheorems.DryRunOnlyAddsDirs | smart_file_organizer.py:25-66 | a dry run keeps every existing entry and adds only directories: the category folders, the destination and its missing ancestors |
| OrganizeTheorems.DryRunReport | smart_file_organizer.py:25-66 | a successful dry run reports every regular file of the listing in order, with the free path it would get now |
| OrganizeTheorems.DryRunRepeatable | smart_file_organizer.py:25-66 | a second dry run on what the first left gives the same tree and result |
| OrganizeTheorems.ApplyOrganize | smart_file_organizer.py:25-66 | a successful apply run reports every regular file in order, gives each a distinct new path, and moves each unchanged there |
| OrganizeTheorems.PreviewListsSameFiles | smart_file_organizer.py:25-66 | preview and real run agree on success and on the files they report |
| OrganizeTheorems.CollisionExample | smart_file_organizer.py:42-46 | with `a.txt` and `a(1).txt` taken, `a.txt` becomes `a(2).txt` |
| OrganizeTheorems.SecondCandidateFree | smart_file_organizer.py:42-46 | when `name(1)ext` is taken and `name(2)ext` is free, the counter stops at 2 |
| OrganizeTheorems.RunTwo | smart_file_organizer.py:32-65 | a listing of two names is two passes |
| OrganizeTheorems.StepOfFile | smart_file_organizer.py:33-65 | one pass over a regular file records its resolved path, and in apply mode moves it there |
| OrganizeTheorems.SharedTargetWellFormed | smart_file_organizer.py:32-34 | the example tree is one a real call could meet: the source folder, the destination and Documents are directories holding the files |
| OrganizeTheorems.DryRunSharedTarget | smart_file_organizer.py:42-55 | a dry run can show two files going to the same path, where the real run keeps them apart |
| Summary.MovedCategories | smart_file_organizer.py:79 | the list comprehension: a category occurs exactly when some `Moved` record has it |
| Summary.MovedPositions | smart_file_organizer.py:79 | the positions of exactly the `Moved` records, in increasing order |
| Summary.MovedCategoriesInOrder | smart_file_organizer.py:79 | the comprehension holds one category per `Moved` record, in record order |
| Summary.MovedCount | smart_file_organizer.py:79 | a category occurs in the comprehension once per `Moved` record of that category |
| Summary.Bump | smart_file_organizer.py:79 | counting one category once more: a known key gains one, a new key is appended with count 1, no key is repeated |
| Summary.TallyOf | smart_file_organizer.py:79 | the `Counter` never holds a key twice |
| Summary.FirstIndex | smart_file_organizer.py:79 | the index of the first occurrence of a category |
| Summary.FirstIndexPrefix | smart_file_organizer.py:79 | appending does not move a first occurrence |
| Summary.TallyKeys | smart_file_organizer.py:79 | the `Counter` has a key exactly for each category that occurs |
| Summary.TallyCounts | smart_file_organizer.py:79 | each count equals the number of occurrences of its category |
| Summary.TallyOrder | smart_file_organizer.py:79-80 | the categories come in the order they are first met |
| Summary.OrderKept | smart_file_organizer.py:79 | counting one more category keeps the first-met order |
| Summary.KeyKept | smart_file_organizer.py:79 | a counted key keeps its place and first index |
| Summary.NewKeyLast | smart_file_organizer.py:79 | a new key is the category just counted, first met last |
| Summary.TotalIncrement | smart_file_organizer.py:79 | counting one entry once more adds one to the sum |
| Summary.TotalSame | smart_file_organizer.py:79 | equal counts give equal sums |
| Summary.BumpTotal | smart_file_organizer.py:79 | each counted record adds one to the sum |
| Summary.TallyTotal | smart_file_organizer.py:79 | the counts add up to the number of moved records |
| Summary.SummaryLine | smart_file_organizer.py:80 | a line `cat: n files` is non-empty and ends in `s` |
| Summary.Join | smart_file_organizer.py:80 | `"\n".join` of no lines is empty, and otherwise ends with the last line |
| Summary.Lines | smart_file_organizer.py:80 | one line per `Counter` entry, in order |
| Summary.SummaryText | smart_file_organizer.py:80 | the text is `"No files moved."` exactly when no category was counted |
| Summary.GetSummary | smart_file_organizer.py:78-80 | the summary is `"No files moved."` exactly when no record is `Moved` |
| Summary.MovedCategoriesEmpty | smart_file_organizer.py:79 | no category is counted exactly when no record is `Moved` |
| Summary.SummaryNonEmpty | smart_file_organizer.py:80 | the joined lines are empty exactly when nothing moved, and otherwise never read `"No files moved."` |
| Summary.SummaryCounts | smart_file_organizer.py:78-80 | the line of each category carries the number of `Moved` records of that category; a category has a line exactly when a `Moved` record has it; the counts add up to the number of `Moved` records |
| Summary.SummaryOrder | smart_file_organizer.py:79-80 | lines come in the order of each category's first `Moved` record: an earlier line's category has a `Moved` record before any `Moved` record of a later line's category |
| Summary.PreviewIgnored | smart_file_organizer.py:79 | a `Preview` record does not change the summary |
| Summary.SummaryExample | smart_file_organizer.py:78-80 | records Moved/Documents, Preview, Moved/Images, Moved/Documents give `Documents: 2 files` then `Images: 1 files` |
| Summary.AllMovedCounted | smart_file_organizer.py:79 | when every record is `Moved`, every record is counted |
| Summary.DryRunSummary | smart_file_organizer.py:51-55 | after a successful dry run, every record being a `Preview`, the summary is `"No files moved."` |
| Summary.ApplySummary | smart_file_organizer.py:51-55 | after a successful real run, every record being `Moved`, the counts add up to the number of records and name exactly their categories |

## Left out

- The GUI class `SmartFileOrganizerApp` (lines 84-169): it is widgets, dialogs and message boxes only.
- `save_report` (lines 69-75): it writes a CSV file through pandas, which is foreign code and file I/O.
- The "Size (KB)" column: it is float division and rounding. The model keeps the size in bytes.
- The "Date" column: it reads the wall clock.
- How `shutil.move` really works (cross-volume copy, atomicity). A move is a relocation of one entry in the tree. Its preconditions are proved at the call: a regular file, a free target, and an existing target folder. So the move cannot fail in the model.
- The real order of `os.listdir`: the listing is an input.
- The default `dry_run=True` of line 25: the model has no default arguments, so every call passes `dryRun` explicitly.
- Symbolic links: a link is a `Special` entry, neither a regular file nor a directory. Python follows links where the model does not, in these places:
  - `os.listdir` (line 32) lists the folder a linked source folder points to, so the code walks it; the model ends the call with `InvalidSource`, and `OrganizeTheorems.OrganizeErrors` counts such a source as not a directory.
  - `os.path.isfile` (line 34) accepts a link to a regular file, so the code classifies and moves it; the model skips it.
  - `os.makedirs` (lines 26-29) accepts a link to a directory as an existing directory; `MkdirIn` fails on it and the model reports `DestinationBlocked`.
  - `os.path.exists` (line 44) is false for a dangling link, so the code can choose that path; the model counts it as taken.
- Devices, sockets and pipes are `Special` entries too, which `os.path.isfile` rejects as in the code.
- Operating-system errors other than the structural ones: permission denied, a read-only file system or a full disk can make `os.makedirs`, `os.listdir`, `os.path.getsize` or `shutil.move` (lines 26-52) raise and abort the call. The model's only errors are `DestinationBlocked` and `InvalidSource`, and a move cannot fail, so `OrganizeTheorems.OrganizeErrors` holds for the model's file system only.
- Case-insensitive file systems: paths are equal only when their components are equal character by character. On NTFS, or APFS as usually set up, `os.path.exists` (line 44) makes `A.txt` collide with an existing `a.txt`; in the model it does not.
- `str.lower` beyond ASCII: only `A`-`Z` are lowered.
- Concurrent changes to the file system during a run, and files that disappear between listing and move: the run is single-threaded and nothing else touches the tree.
- The iteration order of `set(CATEGORY_MAP.values())`: it is an input whose elements are exactly the category names.
- Path strings: a path is its sequence of components and the root is the empty path. Separators, `..`, and absolute versus relative paths are not modelled.
- OrganizerProperties.ApplyRun: proved for a listing of distinct names that are entries of the source folder, as `os.listdir` returns after the folders are made. It is not proved for an arbitrary listing.
- OrganizeTheorems.ApplyOrganize: the same hypothesis on the listing as ApplyRun.
- OrganizeTheorems.DryRunRepeatable: proved for a well-formed tree (every entry below a directory), and not when the first call failed on a folder.
- OrganizeTheorems.OrganizeErrors: proved for a well-formed tree.
