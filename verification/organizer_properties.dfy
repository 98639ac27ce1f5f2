/** What one run of organize_files guarantees, proved about the functions
    Organize, Run and Step that the method OrganizeFiles is proved to
    follow. */
module OrganizerProperties {
  import opened FileTree
  import opened Classifier
  import opened Digits
  import opened Organizer

  predicate Distinct<T(==)>(s: seq<T>) {
    forall i, j :: 0 <= i < j < |s| ==> s[i] != s[j]
  }

  function FileNames(rs: seq<Record>): (names: seq<string>)
    ensures |names| == |rs| && forall i :: 0 <= i < |rs| ==> names[i] == rs[i].fileName
  {
    seq(|rs|, i requires 0 <= i < |rs| => rs[i].fileName)
  }

  function OldPaths(rs: seq<Record>): (paths: seq<Path>)
    ensures |paths| == |rs| && forall i :: 0 <= i < |rs| ==> paths[i] == rs[i].oldPath
  {
    seq(|rs|, i requires 0 <= i < |rs| => rs[i].oldPath)
  }

  function NewPaths(rs: seq<Record>): (paths: seq<Path>)
    ensures |paths| == |rs| && forall i :: 0 <= i < |rs| ==> paths[i] == rs[i].newPath
  {
    seq(|rs|, i requires 0 <= i < |rs| => rs[i].newPath)
  }

  /** The names of the listing that are regular files of `src` in `t`,
      in listing order: the files organize_files must report. */
  function FilesIn(t: Tree, src: Path, listing: seq<string>): seq<string>
    decreases |listing|
  {
    if listing == [] then []
    else
      var last := listing[|listing| - 1];
      FilesIn(t, src, listing[..|listing| - 1]) + (if IsFile(t, src + [last]) then [last] else [])
  }

  lemma FilesInPrefix(t: Tree, src: Path, listing: seq<string>, i: nat)
    requires i < |listing|
    ensures FilesIn(t, src, listing[..i + 1]) ==
            FilesIn(t, src, listing[..i]) + (if IsFile(t, src + [listing[i]]) then [listing[i]] else [])
  {
    assert listing[..i + 1][..i] == listing[..i];
  }

  lemma {:induction false} FilesInSubseq(t: Tree, src: Path, listing: seq<string>)
    ensures forall n :: n in FilesIn(t, src, listing) ==> n in listing
    decreases |listing|
  {
    if listing != [] {
      FilesInSubseq(t, src, listing[..|listing| - 1]);
    }
  }

  /** Two trees that agree on which names of the listing are regular files
      of `src` select the same files. */
  lemma {:induction false} FilesInSame(t: Tree, u: Tree, src: Path, listing: seq<string>)
    requires forall n :: n in listing ==> (IsFile(t, src + [n]) <==> IsFile(u, src + [n]))
    ensures FilesIn(t, src, listing) == FilesIn(u, src, listing)
    decreases |listing|
  {
    if listing != [] {
      FilesInSame(t, u, src, listing[..|listing| - 1]);
    }
  }

  // ---------------------------------------------------------------------
  // Both modes
  // ---------------------------------------------------------------------

  /** The record of a file: its old path is `src/name`, its category is
      the classifier's, its new path lies directly in `dest/category`, and
      its action says whether this was a dry run. */
  predicate RecordOf(r: Record, src: Path, dest: Path, dryRun: bool) {
    && r.oldPath == src + [r.fileName]
    && r.category == GetCategory(r.fileName)
    && |r.newPath| == |dest| + 2
    && r.newPath[..|dest| + 1] == dest + [r.category]
    && r.action == (if dryRun then Preview else Moved)
  }

  lemma {:induction false} RunRecordsShape(t: Tree, src: Path, dest: Path, listing: seq<string>, dryRun: bool)
    ensures forall r :: r in Run(t, src, dest, listing, dryRun).1 ==>
              RecordOf(r, src, dest, dryRun) && r.fileName in listing
    decreases |listing|
  {
    if listing != [] {
      var prefix := listing[..|listing| - 1];
      RunRecordsShape(t, src, dest, prefix, dryRun);
      var step := Step(Run(t, src, dest, prefix, dryRun).0, src, dest, listing[|listing| - 1], dryRun);
      if step.1 != [] {
        var r := step.1[0];
        var folder := dest + [r.category];
        assert r.newPath[..|folder|] == folder;
        assert r.newPath[..|dest| + 1] == folder;
      }
    }
  }

  /** A run never removes or changes a directory (moves take regular files
      to free paths). */
  lemma {:induction false} RunKeepsDirs(t: Tree, src: Path, dest: Path, listing: seq<string>, dryRun: bool)
    ensures KeepsDirs(t, Run(t, src, dest, listing, dryRun).0)
    decreases |listing|
  {
    if listing != [] {
      RunKeepsDirs(t, src, dest, listing[..|listing| - 1], dryRun);
    }
  }

  // ---------------------------------------------------------------------
  // Dry run
  // ---------------------------------------------------------------------

  /** A dry run leaves the tree as it is, reports every regular file of the
      listing in order, and gives each the path it would get now. */
  lemma {:induction false} DryRunKeepsTree(t: Tree, src: Path, dest: Path, listing: seq<string>)
    ensures Run(t, src, dest, listing, true).0 == t
    ensures FileNames(Run(t, src, dest, listing, true).1) == FilesIn(t, src, listing)
    ensures forall r :: r in Run(t, src, dest, listing, true).1 ==>
              IsFile(t, r.oldPath) && r.sizeBytes == |t[r.oldPath].data| &&
              r.newPath == ResolvePath(t.Keys, dest + [r.category], r.fileName) && r.newPath !in t
    decreases |listing|
  {
    if listing != [] {
      var prefix := listing[..|listing| - 1];
      DryRunKeepsTree(t, src, dest, prefix);
      var rs := Run(t, src, dest, prefix, true).1;
      var step := Step(t, src, dest, listing[|listing| - 1], true);
      assert FileNames(rs + step.1) == FileNames(rs) + FileNames(step.1);
    }
  }

  // ---------------------------------------------------------------------
  // Apply mode
  // ---------------------------------------------------------------------

  /** `t` is `t0` after the moves recorded in `rs`: each file sits at its
      new path with its old content, each old path that no later move
      reused is empty, and every other path is as it was. */
  ghost predicate Relocated(t0: Tree, rs: seq<Record>, t: Tree) {
    && (forall i :: 0 <= i < |rs| ==>
          IsFile(t0, rs[i].oldPath) && rs[i].sizeBytes == |t0[rs[i].oldPath].data| &&
          rs[i].newPath in t && t[rs[i].newPath] == t0[rs[i].oldPath])
    && (forall p :: p in OldPaths(rs) && p !in NewPaths(rs) ==> p !in t)
    && (forall p :: p !in OldPaths(rs) && p !in NewPaths(rs) ==>
          (p in t <==> p in t0) && (p in t ==> t[p] == t0[p]))
  }

  /** Moving one more file, from a path no earlier move touched to a free
      path, keeps Relocated. */
  lemma RelocatedMove(t0: Tree, rs: seq<Record>, t: Tree, r: Record)
    requires Relocated(t0, rs, t)
    requires r.oldPath !in OldPaths(rs) && r.oldPath !in NewPaths(rs)
    requires IsFile(t0, r.oldPath) && r.oldPath in t && t[r.oldPath] == t0[r.oldPath]
    requires r.newPath !in t
    requires r.sizeBytes == |t0[r.oldPath].data|
    ensures Relocated(t0, rs + [r], MovedIn(t, r.oldPath, r.newPath))
  {
    var rs' := rs + [r];
    var u := MovedIn(t, r.oldPath, r.newPath);
    assert OldPaths(rs') == OldPaths(rs) + [r.oldPath];
    assert NewPaths(rs') == NewPaths(rs) + [r.newPath];
    forall i | 0 <= i < |rs|
      ensures rs[i].newPath != r.oldPath && rs[i].newPath != r.newPath
    {
      assert NewPaths(rs)[i] == rs[i].newPath;
    }
    forall i | 0 <= i < |rs'|
      ensures IsFile(t0, rs'[i].oldPath) && rs'[i].sizeBytes == |t0[rs'[i].oldPath].data|
      ensures rs'[i].newPath in u && u[rs'[i].newPath] == t0[rs'[i].oldPath]
    {
      if i < |rs| {
        assert rs'[i] == rs[i];
      }
    }
  }

  /** A move to a free path gives a new path no earlier record has. */
  lemma DistinctNewPath(rs: seq<Record>, t: Tree, r: Record)
    requires Distinct(NewPaths(rs))
    requires forall i :: 0 <= i < |rs| ==> rs[i].newPath in t
    requires r.newPath !in t
    ensures Distinct(NewPaths(rs + [r]))
  {
    assert NewPaths(rs + [r]) == NewPaths(rs) + [r.newPath];
  }

  /** No move ever targets a path of the original tree that no move has
      vacated: such a path is still taken when the target is chosen. */
  ghost predicate TargetsFree(t0: Tree, rs: seq<Record>) {
    forall p :: p in t0 && p !in OldPaths(rs) ==> p !in NewPaths(rs)
  }

  lemma TargetsFreeMove(t0: Tree, rs: seq<Record>, t: Tree, r: Record)
    requires Relocated(t0, rs, t) && TargetsFree(t0, rs)
    requires r.newPath !in t
    ensures TargetsFree(t0, rs + [r])
  {
    assert OldPaths(rs + [r]) == OldPaths(rs) + [r.oldPath];
    assert NewPaths(rs + [r]) == NewPaths(rs) + [r.newPath];
  }

  /** A listing as os.listdir gives it for `src`: distinct names, each an
      entry of `src`. */
  predicate Accurate(t0: Tree, src: Path, listing: seq<string>) {
    Distinct(listing) && forall n :: n in listing ==> src + [n] in t0
  }

  /** The state of an apply run after the first `i` names of the listing. */
  ghost predicate ApplyState(t0: Tree, src: Path, listing: seq<string>, i: nat, t: Tree, rs: seq<Record>)
    requires i <= |listing|
  {
    && FileNames(rs) == FilesIn(t0, src, listing[..i])
    && (forall k :: 0 <= k < |rs| ==> rs[k].oldPath == src + [rs[k].fileName])
    && Distinct(NewPaths(rs))
    && Relocated(t0, rs, t)
    && TargetsFree(t0, rs)
  }

  /** The next name of the listing is no record's old or new path, so it
      still has its original entry. */
  lemma NextUntouched(t0: Tree, src: Path, listing: seq<string>, i: nat, t: Tree, rs: seq<Record>)
    requires Accurate(t0, src, listing) && i < |listing|
    requires ApplyState(t0, src, listing, i, t, rs)
    ensures src + [listing[i]] !in OldPaths(rs) && src + [listing[i]] !in NewPaths(rs)
    ensures src + [listing[i]] in t && t[src + [listing[i]]] == t0[src + [listing[i]]]
  {
    var n := listing[i];
    FilesInSubseq(t0, src, listing[..i]);
    forall k | 0 <= k < |rs|
      ensures src + [n] != rs[k].oldPath
    {
      assert rs[k].fileName == FileNames(rs)[k];
      assert rs[k].fileName in listing[..i];
      assert (src + [n])[|src|] == n;
    }
  }

  /** What one apply-mode step does: a regular file gets one record and is
      moved to a free path, anything else is skipped. */
  lemma StepApply(t: Tree, src: Path, dest: Path, n: string)
    ensures var step := Step(t, src, dest, n, false);
            if IsFile(t, src + [n]) then
              |step.1| == 1 && step.1[0].fileName == n && step.1[0].oldPath == src + [n] &&
              step.1[0].newPath !in t && step.1[0].sizeBytes == |t[src + [n]].data| &&
              step.0 == MovedIn(t, src + [n], step.1[0].newPath)
            else step == (t, [])
  {
  }

  /** One more name of the listing, a regular file, keeps ApplyState. */
  lemma ApplyMove(t0: Tree, src: Path, listing: seq<string>, i: nat, t: Tree, rs: seq<Record>, r: Record)
    requires Accurate(t0, src, listing) && i < |listing|
    requires ApplyState(t0, src, listing, i, t, rs)
    requires IsFile(t, src + [listing[i]])
    requires r.fileName == listing[i] && r.oldPath == src + [listing[i]]
    requires r.newPath !in t && r.sizeBytes == |t[r.oldPath].data|
    ensures ApplyState(t0, src, listing, i + 1, MovedIn(t, r.oldPath, r.newPath), rs + [r])
  {
    NextUntouched(t0, src, listing, i, t, rs);
    RelocatedMove(t0, rs, t, r);
    DistinctNewPath(rs, t, r);
    TargetsFreeMove(t0, rs, t, r);
    FilesInPrefix(t0, src, listing, i);
    assert FileNames(rs + [r]) == FileNames(rs) + [listing[i]];
  }

  /** One more name of the listing that is not a regular file keeps
      ApplyState. */
  lemma ApplySkip(t0: Tree, src: Path, listing: seq<string>, i: nat, t: Tree, rs: seq<Record>)
    requires Accurate(t0, src, listing) && i < |listing|
    requires ApplyState(t0, src, listing, i, t, rs)
    requires !IsFile(t, src + [listing[i]])
    ensures ApplyState(t0, src, listing, i + 1, t, rs)
  {
    NextUntouched(t0, src, listing, i, t, rs);
    FilesInPrefix(t0, src, listing, i);
  }

  lemma ApplyStep(t0: Tree, src: Path, dest: Path, listing: seq<string>, i: nat, t: Tree, rs: seq<Record>)
    requires Accurate(t0, src, listing) && i < |listing|
    requires ApplyState(t0, src, listing, i, t, rs)
    ensures ApplyState(t0, src, listing, i + 1, Step(t, src, dest, listing[i], false).0,
                       rs + Step(t, src, dest, listing[i], false).1)
  {
    StepApply(t, src, dest, listing[i]);
    var step := Step(t, src, dest, listing[i], false);
    if IsFile(t, src + [listing[i]]) {
      ApplyMove(t0, src, listing, i, t, rs, step.1[0]);
      assert step.1 == [step.1[0]];
    } else {
      ApplySkip(t0, src, listing, i, t, rs);
      assert rs + step.1 == rs;
    }
  }

  lemma {:induction false} ApplyPrefixes(t0: Tree, src: Path, dest: Path, listing: seq<string>, i: nat)
    requires Accurate(t0, src, listing) && i <= |listing|
    ensures ApplyState(t0, src, listing, i, Run(t0, src, dest, listing[..i], false).0,
                       Run(t0, src, dest, listing[..i], false).1)
  {
    if i == 0 {
      assert listing[..0] == [];
      assert FileNames([]) == [];
    } else {
      ApplyPrefixes(t0, src, dest, listing, i - 1);
      var run := Run(t0, src, dest, listing[..i - 1], false);
      ApplyStep(t0, src, dest, listing, i - 1, run.0, run.1);
      RunPrefix(t0, src, dest, listing, i - 1, false);
    }
  }

  /** In apply mode, with a listing as os.listdir gives it: one record per
      regular file in listing order, no two records share a new path, and
      the tree afterwards is the old one with each file relocated. */
  lemma ApplyRun(t0: Tree, src: Path, dest: Path, listing: seq<string>)
    requires Accurate(t0, src, listing)
    ensures FileNames(Run(t0, src, dest, listing, false).1) == FilesIn(t0, src, listing)
    ensures Distinct(NewPaths(Run(t0, src, dest, listing, false).1))
    ensures Relocated(t0, Run(t0, src, dest, listing, false).1, Run(t0, src, dest, listing, false).0)
  {
    ApplyPrefixes(t0, src, dest, listing, |listing|);
    assert listing[..|listing|] == listing;
  }
}
