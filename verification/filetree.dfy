/**
  An abstract file system: a map from paths to nodes. A path is a sequence of
  components relative to the working directory; the empty path is the working
  directory itself, which always exists. The two operations the crawler uses
  are `create_dir` (helper/utils.py) and opening a file for writing.
 */
module FileTree {

  type Path = seq<string>

  datatype Node = Dir | File(contents: string)

  type Tree = map<Path, Node>

  /** The OS errors the modelled operations can raise. */
  datatype FsError =
    | FileNotFound(path: Path)
    | NotADirectory(path: Path)
    | IsADirectory(path: Path)

  datatype Result<T> = Ok(value: T) | Err(error: FsError)

  predicate IsPrefix(q: Path, p: Path) {
    |q| <= |p| && q == p[..|q|]
  }

  function Parent(p: Path): Path
    requires |p| > 0
  {
    p[..|p| - 1]
  }

  /** `os.path.exists`: a file or a directory is there. */
  predicate Exists(t: Tree, p: Path) {
    |p| == 0 || p in t
  }

  predicate IsDir(t: Tree, p: Path) {
    |p| == 0 || (p in t && t[p].Dir?)
  }

  /** Every entry sits inside an existing directory: the trees a real file system can hold. */
  ghost predicate WellFormed(t: Tree) {
    forall p :: p in t ==> |p| > 0 && IsDir(t, Parent(p))
  }

  /** `t'` keeps every entry of `t` as it was and adds only directories on the way to `p`. */
  ghost predicate GrowsTowards(t: Tree, t': Tree, p: Path) {
    && (forall q :: q in t ==> q in t' && t'[q] == t[q])
    && (forall q :: q in t' && q !in t ==> IsPrefix(q, p) && t'[q] == Dir)
  }

  /** Some proper ancestor of `p` is a regular file, so nothing can be created below it. */
  ghost predicate BlockedByFile(t: Tree, p: Path) {
    exists i :: 0 < i < |p| && p[..i] in t && t[p[..i]].File?
  }

  /** In a well-formed tree every ancestor of a directory is a directory. */
  lemma {:induction false} AncestorsOfDirAreDirs(t: Tree, p: Path, i: nat)
    requires WellFormed(t) && IsDir(t, p) && i <= |p|
    ensures IsDir(t, p[..i])
    decreases |p| - i
  {
    if i < |p| {
      assert Parent(p)[..i] == p[..i];
      AncestorsOfDirAreDirs(t, Parent(p), i);
    } else {
      assert p[..i] == p;
    }
  }

  /**
    `os.makedirs(p)` for a path that does not exist: missing ancestors are
    created first, then `p`; an ancestor that is a file makes it fail.
   */
  function MakeDirs(t: Tree, p: Path): (r: Result<Tree>)
    requires |p| > 0 && p !in t
    ensures r.Ok? ==> p in r.value && r.value[p] == Dir && GrowsTowards(t, r.value, p)
    decreases |p|
  {
    var parent := Parent(p);
    if Exists(t, parent) then
      if IsDir(t, parent) then Ok(t[p := Dir]) else Err(NotADirectory(parent))
    else
      match MakeDirs(t, parent)
      case Err(e) => Err(e)
      case Ok(t1) => Ok(t1[p := Dir])
  }

  /** In a well-formed tree `os.makedirs` fails exactly when an ancestor is a file, and keeps the tree well formed. */
  lemma {:induction false} MakeDirsFailsIffBlocked(t: Tree, p: Path)
    requires |p| > 0 && p !in t && WellFormed(t)
    ensures MakeDirs(t, p).Err? <==> BlockedByFile(t, p)
    ensures MakeDirs(t, p).Ok? ==> WellFormed(MakeDirs(t, p).value)
    decreases |p|
  {
    var parent := Parent(p);
    if Exists(t, parent) {
      if IsDir(t, parent) {
        MadeDirNotBlocked(t, p);
      } else {
        assert p[..|p| - 1] == parent;
      }
    } else {
      MakeDirsFailsIffBlocked(t, parent);
      BlockedIffParentBlocked(t, p);
    }
  }

  /** Helper for `MakeDirs`: when the parent is a directory no ancestor is a file. */
  lemma MadeDirNotBlocked(t: Tree, p: Path)
    requires |p| > 0 && IsDir(t, Parent(p))
    ensures WellFormed(t) ==> !BlockedByFile(t, p)
  {
    if WellFormed(t) && BlockedByFile(t, p) {
      var i :| 0 < i < |p| && p[..i] in t && t[p[..i]].File?;
      assert Parent(p)[..i] == p[..i];
      AncestorsOfDirAreDirs(t, Parent(p), i);
    }
  }

  /** Helper for `MakeDirs`: a missing parent blocks `p` exactly when it is itself blocked. */
  lemma BlockedIffParentBlocked(t: Tree, p: Path)
    requires |p| > 1 && Parent(p) !in t
    ensures BlockedByFile(t, p) <==> BlockedByFile(t, Parent(p))
  {
    if BlockedByFile(t, p) {
      var i :| 0 < i < |p| && p[..i] in t && t[p[..i]].File?;
      assert i < |p| - 1;
      assert Parent(p)[..i] == p[..i];
    }
    if BlockedByFile(t, Parent(p)) {
      var i :| 0 < i < |Parent(p)| && Parent(p)[..i] in t && t[Parent(p)[..i]].File?;
      assert Parent(p)[..i] == p[..i];
    }
  }

  /**
    `create_dir(p)`: when `p` does not exist, `os.makedirs(p)`; either way it
    returns `p`. An existing regular file at `p` also counts as existing.
   */
  function CreateDir(t: Tree, p: Path): (r: Result<(Tree, Path)>)
    ensures r.Ok? ==> r.value.1 == p && Exists(r.value.0, p) && GrowsTowards(t, r.value.0, p)
    ensures Exists(t, p) ==> r == Ok((t, p))
    ensures !Exists(t, p) && r.Ok? ==> IsDir(r.value.0, p)
  {
    if Exists(t, p) then Ok((t, p))
    else
      match MakeDirs(t, p)
      case Ok(t') => Ok((t', p))
      case Err(e) => Err(e)
  }

  /** In a well-formed tree `create_dir` fails exactly when `p` is missing and an ancestor is a file. */
  lemma CreateDirFailsIffBlocked(t: Tree, p: Path)
    requires WellFormed(t)
    ensures CreateDir(t, p).Err? <==> !Exists(t, p) && BlockedByFile(t, p)
    ensures CreateDir(t, p).Ok? ==> WellFormed(CreateDir(t, p).value.0)
  {
    if !Exists(t, p) {
      MakeDirsFailsIffBlocked(t, p);
    }
  }

  /** A second `create_dir` of the same path changes nothing. */
  lemma CreateDirIdempotent(t: Tree, p: Path)
    requires CreateDir(t, p).Ok?
    ensures CreateDir(CreateDir(t, p).value.0, p) == Ok(CreateDir(t, p).value)
  {
  }

  /**
    `open(p, 'w')` followed by writing `c`: the file at `p` is created or
    truncated. It fails when the parent is missing or is a file, or when `p`
    is a directory.
   */
  function WriteFile(t: Tree, p: Path, c: string): (r: Result<Tree>)
    ensures r.Ok? <==> |p| > 0 && IsDir(t, Parent(p)) && !(p in t && t[p].Dir?)
    ensures r.Ok? ==> p in r.value && r.value[p] == File(c)
    ensures r.Ok? ==> forall q :: q != p ==> (q in r.value <==> q in t)
    ensures r.Ok? ==> forall q :: q != p && q in t ==> r.value[q] == t[q]
    ensures WellFormed(t) && r.Ok? ==> WellFormed(r.value)
  {
    if |p| == 0 || !Exists(t, Parent(p)) then Err(FileNotFound(p))
    else if !IsDir(t, Parent(p)) then Err(NotADirectory(p))
    else if p in t && t[p].Dir? then Err(IsADirectory(p))
    else Ok(t[p := File(c)])
  }
}
