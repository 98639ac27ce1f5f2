/** The part of a POSIX file system the organizer touches: a map from
    paths to entries. A path is its sequence of components, so joining a
    folder and a name is appending; the empty path is the root directory,
    which always exists and is not stored in the map. */
module FileTree {

  type Path = seq<string>

  newtype byte = x: int | 0 <= x < 256

  /** A directory, a regular file with its bytes, or any other kind of
      entry (symbolic link, device, socket, pipe). */
  datatype Entry = Dir | File(data: seq<byte>) | Special

  type Tree = map<Path, Entry>

  function Parent(p: Path): Path
    requires p != []
  {
    p[..|p| - 1]
  }

  /** os.path.isdir */
  predicate IsDir(t: Tree, p: Path) {
    p == [] || (p in t && t[p].Dir?)
  }

  /** os.path.isfile: a regular file, which is never a directory too. */
  predicate IsFile(t: Tree, p: Path)
    ensures IsFile(t, p) ==> !IsDir(t, p)
  {
    p != [] && p in t && t[p].File?
  }

  /** Every entry hangs below a directory, as in a real file system. */
  predicate WellFormed(t: Tree) {
    forall p :: p in t ==> p != [] && IsDir(t, Parent(p))
  }

  /** `t` grows into `u` by new directories only. */
  predicate AddsOnlyDirs(t: Tree, u: Tree) {
    (forall p :: p in t ==> p in u && u[p] == t[p]) &&
    (forall p :: p in u && p !in t ==> u[p] == Dir)
  }

  /** `q` is a non-empty leading part of `p`: `p` itself or one of its
      ancestors other than the root. */
  predicate AncestorOrSelf(q: Path, p: Path) {
    0 < |q| <= |p| && q == p[..|q|]
  }

  /** Every directory of `t` is still one in `u`. */
  ghost predicate KeepsDirs(t: Tree, u: Tree) {
    forall p :: IsDir(t, p) ==> IsDir(u, p)
  }

  /** os.mkdir inside os.makedirs(p, exist_ok=True): an existing directory
      is accepted, an existing entry of another kind is an error, and a new
      directory needs its parent to be a directory. The flag says whether
      the call returned normally. */
  function MkdirIn(t: Tree, p: Path): (r: (Tree, bool))
    requires p != []
    ensures r.1 <==> IsDir(r.0, p)
    ensures r.0 == t || (p !in t && r.0 == t[p := Dir])
  {
    if p in t then (t, t[p].Dir?)
    else if IsDir(t, Parent(p)) then (t[p := Dir], true)
    else (t, false)
  }

  /** os.makedirs(p, exist_ok=True): when the parent does not exist it is
      made first (recursively), then `p` itself. A failure keeps whatever
      was created before it. */
  function MakeDirsIn(t: Tree, p: Path): (r: (Tree, bool))
    ensures r.1 ==> IsDir(r.0, p)
    ensures forall q :: q in t ==> q in r.0
    decreases |p|
  {
    if p == [] then (t, true)
    else
      var head := Parent(p);
      var up := if head != [] && head !in t then MakeDirsIn(t, head) else (t, true);
      if !up.1 then up else MkdirIn(up.0, p)
  }

  /** shutil.move of a regular file to a path that does not exist. */
  function MovedIn(t: Tree, from: Path, to: Path): (u: Tree)
    requires from in t
    ensures to in u && u[to] == t[from]
    ensures from != to ==> from !in u
  {
    (t - {from})[to := t[from]]
  }

  /** makedirs only ever adds directories, each of them `p` or one of its
      ancestors, and on success `p` is one. */
  lemma {:induction false} MakeDirsAddsDirs(t: Tree, p: Path)
    ensures AddsOnlyDirs(t, MakeDirsIn(t, p).0)
    ensures forall q :: q in MakeDirsIn(t, p).0 && q !in t ==> AncestorOrSelf(q, p)
    ensures MakeDirsIn(t, p).1 ==> IsDir(MakeDirsIn(t, p).0, p)
    decreases |p|
  {
    if p != [] {
      var head := Parent(p);
      assert p[..|p|] == p;
      if head != [] && head !in t {
        MakeDirsAddsDirs(t, head);
        forall q | AncestorOrSelf(q, head)
          ensures AncestorOrSelf(q, p)
        {
          assert head[..|q|] == p[..|q|];
        }
      }
    }
  }

  lemma {:induction false} MakeDirsKeepsWellFormed(t: Tree, p: Path)
    requires WellFormed(t)
    ensures WellFormed(MakeDirsIn(t, p).0)
    decreases |p|
  {
    if p != [] {
      var head := Parent(p);
      if head != [] && head !in t {
        MakeDirsKeepsWellFormed(t, head);
        MakeDirsAddsDirs(t, head);
      }
    }
  }

  /** Creating a folder that already exists is a no-op. */
  lemma MakeDirsExisting(t: Tree, p: Path)
    requires WellFormed(t) && IsDir(t, p)
    ensures MakeDirsIn(t, p) == (t, true)
  {
  }

  /** In a well-formed tree makedirs fails exactly when `p` or one of its
      ancestors exists and is not a directory. */
  lemma {:induction false} MakeDirsSucceedsIff(t: Tree, p: Path)
    requires WellFormed(t)
    ensures MakeDirsIn(t, p).1 <==> forall i :: 0 < i <= |p| && p[..i] in t ==> t[p[..i]].Dir?
    decreases |p|
  {
    if p != [] {
      var head := Parent(p);
      assert forall i :: 0 < i < |p| ==> p[..i] == head[..i];
      assert p[..|p|] == p;
      if head != [] && head !in t {
        MakeDirsSucceedsIff(t, head);
        MakeDirsAddsDirs(t, head);
      } else if p in t {
        if t[p].Dir? {
          AncestorsOfDirAreDirs(t, p);
        }
      } else if IsDir(t, head) {
        AncestorsOfDirAreDirs(t, head);
      } else {
        assert p[..|p| - 1] == head;
      }
    }
  }

  /** In a well-formed tree every ancestor of a directory is a directory. */
  lemma {:induction false} AncestorsOfDirAreDirs(t: Tree, p: Path)
    requires WellFormed(t) && IsDir(t, p)
    ensures forall i :: 0 < i <= |p| ==> IsDir(t, p[..i])
    decreases |p|
  {
    if p != [] {
      var head := Parent(p);
      AncestorsOfDirAreDirs(t, head);
      assert forall i :: 0 < i < |p| ==> p[..i] == head[..i];
      assert p[..|p|] == p;
    }
  }

  /** The mutable file system the organizer works on. */
  class FileSystem {
    var tree: Tree

    constructor (initial: Tree)
      ensures tree == initial
    {
      tree := initial;
    }

    /** os.makedirs(p, exist_ok=True); `ok` is false where it raises. */
    method MakeDirs(p: Path) returns (ok: bool)
      modifies this
      ensures (tree, ok) == MakeDirsIn(old(tree), p)
      ensures KeepsDirs(old(tree), tree)
      ensures ok ==> IsDir(tree, p)
    {
      MakeDirsAddsDirs(tree, p);
      var r := MakeDirsIn(tree, p);
      tree, ok := r.0, r.1;
    }

    /** shutil.move(from, to) for a regular file and a free target whose
        folder exists: a rename, so it cannot fail. */
    method Move(from: Path, to: Path)
      requires IsFile(tree, from) && to !in tree
      requires to != [] && IsDir(tree, Parent(to))
      modifies this
      ensures tree == MovedIn(old(tree), from, to)
      ensures to in tree && tree[to] == old(tree)[from] && from !in tree
      ensures forall p :: p != from && p != to ==> (p in tree <==> p in old(tree))
      ensures forall p :: p != to && p in tree ==> tree[p] == old(tree)[p]
    {
      tree := MovedIn(tree, from, to);
    }
  }
}
