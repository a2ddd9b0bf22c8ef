/** An abstract file system and the `java.nio.file.Files` operations the packager performs on it.
    A file system maps paths (name elements, relative to the working directory) to entries; the
    empty path is the working directory itself, which always exists. Byte contents are not
    modelled: a regular file records where its contents came from. */
module FileSystem {
  import opened Results
  import opened Paths

  /** What a regular file holds, by provenance. */
  datatype Content =
    | ClassBytes(resource: string)  // a class file read from the bootstrap module
    | JarBytes(location: Path)      // a copy of the archive found at `location`
    | Text(lines: seq<string>)      // a text file, line by line

  datatype Entry = Directory | RegularFile(content: Content)

  type FileSystem = map<Path, Entry>

  /** Path.getParent() as a path; the parent of a one-element path is the working directory. */
  function ParentOf(q: Path): Path {
    if q == [] then [] else q[..|q| - 1]
  }

  predicate IsDirectory(fs: FileSystem, q: Path) {
    q == [] || (q in fs && fs[q].Directory?)
  }

  predicate Exists(fs: FileSystem, q: Path) {
    q == [] || q in fs
  }

  /** Tree shape: every entry hangs below a directory. */
  predicate Consistent(fs: FileSystem) {
    forall q :: q in fs ==> q != [] && IsDirectory(fs, ParentOf(q))
  }

  /** No element on the way to `p`, `p` included, is a regular file. */
  predicate NoFileOnPath(fs: FileSystem, p: Path) {
    forall k :: 0 < k <= |p| ==> !(p[..k] in fs && fs[p[..k]].RegularFile?)
  }

  /** FileHelper.deleteAllFiles(dir, false): every entry strictly below `dir` is removed and
      nothing else changes (a missing `dir` is no error). */
  function DeleteContents(fs: FileSystem, dir: Path): (r: FileSystem)
    ensures forall q :: q in r <==> q in fs && !(dir < q)
    ensures forall q :: q in r ==> r[q] == fs[q]
  {
    map q | q in fs && !(dir < q) :: fs[q]
  }

  /** Deleting a subtree keeps the tree shape: a parent is never below `dir` when its child is not. */
  lemma DeleteContentsKeepsTree(fs: FileSystem, dir: Path)
    requires Consistent(fs)
    ensures Consistent(DeleteContents(fs, dir))
  {
    var r := DeleteContents(fs, dir);
    forall q | q in r ensures q != [] && IsDirectory(r, ParentOf(q)) {
      var up := ParentOf(q);
      assert up <= q;
      assert !(dir < up);
    }
  }

  /** The non-empty prefixes of `p`, `p` included: the elements on the way to `p`. */
  function Ancestry(p: Path): (r: set<Path>)
    ensures forall q :: q in r <==> q != [] && q <= p
  {
    var r := set k | 0 < k <= |p| :: p[..k];
    assert forall q :: q != [] && q <= p ==> q == p[..|q|] && q in r;
    r
  }

  /** Files.createDirectories(dir): every element on the way to `dir` becomes a directory,
      creating the missing ones; it fails, changing nothing, when one of them is a regular file. */
  function CreateDirectories(fs: FileSystem, dir: Path): (r: Result<FileSystem>)
    ensures r.Ok? <==> NoFileOnPath(fs, dir)
    ensures r.Err? ==> r.failure == IOFailure(dir)
    ensures r.Ok? ==> forall q :: q in fs ==> q in r.value && r.value[q] == fs[q]
    ensures r.Ok? ==> forall q :: q in r.value && q !in fs ==> q != [] && q <= dir
    ensures r.Ok? ==> forall k :: 0 < k <= |dir| ==> IsDirectory(r.value, dir[..k])
  {
    if !NoFileOnPath(fs, dir) then Err(IOFailure(dir))
    else
      var added := Ancestry(dir);
      assert forall k :: 0 < k <= |dir| ==> dir[..k] in added;
      Ok(map q | q in fs.Keys + added :: if q in fs then fs[q] else Directory)
  }

  /** Creating directories keeps the tree shape: each new directory's parent is the working
      directory or another element on the way to `dir`. */
  lemma CreateDirectoriesKeepsTree(fs: FileSystem, dir: Path)
    requires Consistent(fs) && CreateDirectories(fs, dir).Ok?
    ensures Consistent(CreateDirectories(fs, dir).value)
  {
    var r := CreateDirectories(fs, dir).value;
    forall q | q in r ensures q != [] && IsDirectory(r, ParentOf(q)) {
      if q !in fs {
        var up := ParentOf(q);
        if up != [] {
          assert up == dir[..|up|];
        }
      }
    }
  }

  /** What `CreateDirectories` leaves, by element: every element on the way to `dir` is a
      directory, and each new entry is such an element. */
  lemma CreatedDirectories(fs: FileSystem, dir: Path)
    requires CreateDirectories(fs, dir).Ok?
    ensures var r := CreateDirectories(fs, dir).value;
            (forall q :: q in Ancestry(dir) ==> q in r && r[q] == Directory)
            && forall q :: q in r && q !in fs ==> q in Ancestry(dir)
  {
    var r := CreateDirectories(fs, dir).value;
    forall q | q in Ancestry(dir) ensures q in r && r[q] == Directory {
      assert q == dir[..|q|];
      assert IsDirectory(r, dir[..|q|]);
    }
  }

  /** Files.copy(source, target) without REPLACE_EXISTING: fails if `target` exists or its
      parent is not a directory; otherwise `target` becomes a regular file holding `content`. */
  function CopyFile(fs: FileSystem, target: Path, content: Content): (r: Result<FileSystem>)
    ensures r.Ok? <==> !Exists(fs, target) && IsDirectory(fs, ParentOf(target))
    ensures r.Err? ==> r.failure == IOFailure(target)
    ensures r.Ok? ==> r.value == fs[target := RegularFile(content)]
  {
    if Exists(fs, target) || !IsDirectory(fs, ParentOf(target)) then Err(IOFailure(target))
    else Ok(fs[target := RegularFile(content)])
  }

  /** Files.newBufferedWriter(target): creates `target` or truncates it when it is a regular file;
      fails when `target` is a directory or its parent is not one. */
  function NewTextFile(fs: FileSystem, target: Path): (r: Result<FileSystem>)
    ensures r.Ok? <==> !IsDirectory(fs, target) && IsDirectory(fs, ParentOf(target))
    ensures r.Err? ==> r.failure == IOFailure(target)
    ensures r.Ok? ==> r.value == fs[target := RegularFile(Text([]))]
  {
    if IsDirectory(fs, target) || !IsDirectory(fs, ParentOf(target)) then Err(IOFailure(target))
    else Ok(fs[target := RegularFile(Text([]))])
  }

  /** Closing the writer: the regular file `target` holds exactly the lines written. */
  function StoreText(fs: FileSystem, target: Path, lines: seq<string>): (r: FileSystem)
    requires target in fs && fs[target].RegularFile?
    ensures r.Keys == fs.Keys
    ensures r[target] == RegularFile(Text(lines))
    ensures forall q :: q in fs && q != target ==> r[q] == fs[q]
  {
    fs[target := RegularFile(Text(lines))]
  }

  /** A regular file stored in an existing directory, over no directory, keeps the tree shape. */
  lemma NewFileKeepsTree(fs: FileSystem, target: Path, content: Content)
    requires Consistent(fs) && target != [] && IsDirectory(fs, ParentOf(target))
    requires !IsDirectory(fs, target)
    ensures Consistent(fs[target := RegularFile(content)])
  {
    var r := fs[target := RegularFile(content)];
    forall q | q in r ensures q != [] && IsDirectory(r, ParentOf(q)) {
      assert |ParentOf(q)| < |q|;
    }
  }
}
