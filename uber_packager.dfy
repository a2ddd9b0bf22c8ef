/** The uber-jar packager's `execute`: it resets the staging ("exploded") directory, copies the
    bootstrap classes and the bootstrap archive into it, writes `modules.txt`, and runs the `jar`
    tool once to create the uber archive and once per module path to update it.

    The world the run acts on is a `World` object: the file system, the manifest writer's lines,
    and the log of side effects in the order they happen. `Packaging` is the specification: it
    threads a `State` through the steps of the run and says where it fails. `Execute`, the
    imperative run, is proved to end in exactly the state `Packaging` describes. */
module UberPackager {
  import opened Results
  import opened Paths
  import opened FileSystem
  import Manifest
  import JarCommands

  /** The packager's configuration: inputs and outputs as the convention plugin sets them. */
  datatype PackagerConf = PackagerConf(
    moduleArtifactSourcePath: Path,
    moduleDependencyPath: seq<Path>,
    moduleUberPath: Path,
    moduleUberExplodedPath: Path)

  /** What the packager learns about its own bootstrap module by reflection: the binary name
      of the bootstrap main class and the location of the archive that holds the module. */
  datatype Bootstrap = Bootstrap(mainClass: string, jarLocation: Path)

  /** A side effect of the run on the world, as it is logged. */
  datatype Effect =
    | Cleared(dir: Path)                      // every entry below `dir` deleted
    | MadeDirectories(dir: Path)              // `dir` and its ancestors made directories
    | Copied(target: Path, content: Content)  // a new regular file at `target`
    | Opened(file: Path)                      // `file` created or truncated by the writer
    | Closed(file: Path)                      // the writer's lines stored into `file`
    | RanJar(args: seq<string>)               // the jar tool run on this argument vector

  /** Where a run stands: the world, and the failure that stopped it, if any. */
  datatype State = State(fs: FileSystem, writer: seq<string>, log: seq<Effect>, failure: Option<Failure>)

  /** The module paths, in order: the artifact source path, then the dependency paths. */
  function ModulePaths(conf: PackagerConf): (r: seq<Path>)
    ensures |r| == 1 + |conf.moduleDependencyPath|
    ensures r[0] == conf.moduleArtifactSourcePath
    ensures r[1..] == conf.moduleDependencyPath
  {
    [conf.moduleArtifactSourcePath] + conf.moduleDependencyPath
  }

  /** The two bootstrap class files: the main class and its first anonymous class. */
  function ClassFiles(mainClass: string): seq<string> {
    [ClassFileName(mainClass, ".class"), ClassFileName(mainClass, "$1.class")]
  }

  /** The bare file name of the bootstrap archive. */
  function JarName(boot: Bootstrap): string
    requires boot.jarLocation != []
  {
    boot.jarLocation[|boot.jarLocation| - 1]
  }

  function UberJar(conf: PackagerConf): Path {
    conf.moduleUberPath + [JarCommands.UberJarName]
  }

  function ManifestPath(conf: PackagerConf): Path {
    conf.moduleUberExplodedPath + [Manifest.FileName]
  }

  /** The log entries of the given jar runs, in order. */
  function JarRuns(cmds: seq<seq<string>>): (r: seq<Effect>)
    ensures |r| == |cmds|
    ensures forall i :: 0 <= i < |cmds| ==> r[i] == RanJar(cmds[i])
    decreases |cmds|
  {
    if cmds == [] then [] else JarRuns(cmds[..|cmds| - 1]) + [RanJar(cmds[|cmds| - 1])]
  }

  // ---------------------------------------------------------------------------------------
  // The steps of a run. Each leaves a failed state as it is.

  /** Delete everything below the staging directory, then create it. */
  function ResetStaging(s: State, dir: Path): State {
    if s.failure.Some? then s
    else
      var fs0 := DeleteContents(s.fs, dir);
      var log0 := s.log + [Cleared(dir)];
      match CreateDirectories(fs0, dir)
      case Err(e) => State(fs0, s.writer, log0, Some(e))
      case Ok(fs1) => State(fs1, s.writer, log0 + [MadeDirectories(dir)], None)
  }

  /** Copy one bootstrap class file below the staging directory, creating its parent first. */
  function CopyClassFile(s: State, dir: Path, name: string): State {
    if s.failure.Some? then s
    else
      var target := Resolve(dir, name);
      if |target| <= 1 then s.(failure := Some(NullPointer))
      else
        var up := ParentOf(target);
        match CreateDirectories(s.fs, up)
        case Err(e) => s.(failure := Some(e))
        case Ok(fs1) =>
          var log1 := s.log + [MadeDirectories(up)];
          match CopyFile(fs1, target, ClassBytes(name))
          case Err(e) => State(fs1, s.writer, log1, Some(e))
          case Ok(fs2) => State(fs2, s.writer, log1 + [Copied(target, ClassBytes(name))], None)
  }

  function CopyClassFiles(s: State, dir: Path, names: seq<string>): State
    decreases |names|
  {
    if names == [] then s
    else CopyClassFile(CopyClassFiles(s, dir, names[..|names| - 1]), dir, names[|names| - 1])
  }

  /** Copy the bootstrap archive to the staging root under its bare file name. */
  function CopyBootstrapJar(s: State, dir: Path, location: Path): State
    requires location != []
  {
    if s.failure.Some? then s
    else
      var target := dir + [location[|location| - 1]];
      match CopyFile(s.fs, target, JarBytes(location))
      case Err(e) => s.(failure := Some(e))
      case Ok(fs1) => State(fs1, s.writer, s.log + [Copied(target, JarBytes(location))], None)
  }

  /** Open the manifest, write its lines while listing the module paths, and close it; the
      writer is closed, with what it holds, also when a module path cannot be listed. */
  function WriteManifest(s: State, file: Path, jarName: string, dirs: seq<Path>,
                         listings: map<Path, seq<string>>): State
  {
    if s.failure.Some? then s
    else
      match NewTextFile(s.fs, file)
      case Err(e) => s.(failure := Some(e))
      case Ok(fs1) =>
        var listing := Manifest.ListAll(dirs, listings);
        var lines := Manifest.Lines(jarName, listing.names);
        State(StoreText(fs1, file, lines), lines, s.log + [Opened(file), Closed(file)],
              if listing.unlisted.Some? then Some(IOFailure(listing.unlisted.value)) else None)
  }

  /** Run the jar tool on each argument vector in order. */
  function RunJars(s: State, cmds: seq<seq<string>>): State {
    if s.failure.Some? then s else s.(log := s.log + JarRuns(cmds))
  }

  /** The run up to the jar tool: reset the staging directory, copy the bootstrap class
      files and archive into it, write the manifest. */
  function Staging(s: State, listings: map<Path, seq<string>>, conf: PackagerConf, boot: Bootstrap): State
    requires boot.jarLocation != []
  {
    var dir := conf.moduleUberExplodedPath;
    var s1 := ResetStaging(s, dir);
    var s2 := CopyClassFiles(s1, dir, ClassFiles(boot.mainClass));
    var s3 := CopyBootstrapJar(s2, dir, boot.jarLocation);
    WriteManifest(s3, ManifestPath(conf), JarName(boot), ModulePaths(conf), listings)
  }

  /** A whole run of `execute` from the given world. */
  function Packaging(fs: FileSystem, writer: seq<string>, log: seq<Effect>, jarFound: bool,
                     listings: map<Path, seq<string>>, conf: PackagerConf, boot: Bootstrap): State
    requires boot.jarLocation != []
  {
    var s := State(fs, writer, log, None);
    if !jarFound then s.(failure := Some(ToolMissing))
    else
      RunJars(Staging(s, listings, conf, boot),
              JarCommands.CommandLines(UberJar(conf), boot.mainClass, conf.moduleUberExplodedPath, ModulePaths(conf)))
  }

  /** A failed run attempts no further class file copy. */
  lemma {:induction false} CopyClassFilesFailed(s: State, dir: Path, names: seq<string>)
    requires s.failure.Some?
    ensures CopyClassFiles(s, dir, names) == s
    decreases |names|
  {
    if names != [] {
      CopyClassFilesFailed(s, dir, names[..|names| - 1]);
    }
  }

  /** Once a class file copy fails, the remaining ones are not attempted. */
  lemma {:induction false} CopyClassFilesStops(s: State, dir: Path, names: seq<string>, k: nat)
    requires k <= |names|
    requires CopyClassFiles(s, dir, names[..k]).failure.Some?
    ensures CopyClassFiles(s, dir, names) == CopyClassFiles(s, dir, names[..k])
    decreases |names| - k
  {
    if k < |names| {
      assert names[..k + 1][..k] == names[..k];
      CopyClassFilesStops(s, dir, names, k + 1);
    } else {
      assert names[..k] == names;
    }
  }

  // ---------------------------------------------------------------------------------------
  // The world and the run

  class World {
    /** ToolProvider.findFirst("jar") finds a tool. */
    const jarFound: bool
    /** Files.list: the entry names of each listable directory, in enumeration order. */
    const listings: map<Path, seq<string>>
    /** The exit code the jar tool returns for an argument vector. */
    const jarExitCode: seq<string> -> int

    var fs: FileSystem
    var writer: seq<string>
    var log: seq<Effect>

    ghost predicate Valid()
      reads this
    {
      Consistent(fs)
    }

    /** The world as a run state, with the given failure. */
    function Snapshot(failure: Option<Failure>): State
      reads this
    {
      State(fs, writer, log, failure)
    }

    constructor (jarFound: bool, listings: map<Path, seq<string>>, jarExitCode: seq<string> -> int,
                 fs: FileSystem)
      requires Consistent(fs)
      ensures Valid()
      ensures this.jarFound == jarFound && this.listings == listings && this.jarExitCode == jarExitCode
      ensures this.fs == fs && writer == [] && log == []
    {
      this.jarFound := jarFound;
      this.listings := listings;
      this.jarExitCode := jarExitCode;
      this.fs := fs;
      writer := [];
      log := [];
    }

    /** FileHelper.deleteAllFiles(dir, false). */
    method DeleteAllFiles(dir: Path)
      requires Valid()
      modifies this
      ensures Valid()
      ensures fs == DeleteContents(old(fs), dir)
      ensures log == old(log) + [Cleared(dir)] && writer == old(writer)
    {
      DeleteContentsKeepsTree(fs, dir);
      fs := DeleteContents(fs, dir);
      log := log + [Cleared(dir)];
    }

    /** Files.createDirectories(dir); a failure is returned, as the exception it throws. */
    method MakeDirectories(dir: Path) returns (failure: Option<Failure>)
      requires Valid()
      modifies this
      ensures Valid() && writer == old(writer)
      ensures CreateDirectories(old(fs), dir).Ok? ==>
                failure.None? && fs == CreateDirectories(old(fs), dir).value
                && log == old(log) + [MadeDirectories(dir)]
      ensures CreateDirectories(old(fs), dir).Err? ==>
                failure == Some(CreateDirectories(old(fs), dir).failure) && fs == old(fs) && log == old(log)
    {
      match CreateDirectories(fs, dir)
      case Err(e) =>
        failure := Some(e);
      case Ok(fs1) =>
        CreateDirectoriesKeepsTree(fs, dir);
        fs := fs1;
        log := log + [MadeDirectories(dir)];
        failure := None;
    }

    /** Files.copy(source, target), the source holding `content`. */
    method Copy(target: Path, content: Content) returns (failure: Option<Failure>)
      requires Valid()
      modifies this
      ensures Valid() && writer == old(writer)
      ensures CopyFile(old(fs), target, content).Ok? ==>
                failure.None? && fs == CopyFile(old(fs), target, content).value
                && log == old(log) + [Copied(target, content)]
      ensures CopyFile(old(fs), target, content).Err? ==>
                failure == Some(CopyFile(old(fs), target, content).failure) && fs == old(fs) && log == old(log)
    {
      match CopyFile(fs, target, content)
      case Err(e) =>
        failure := Some(e);
      case Ok(fs1) =>
        NewFileKeepsTree(fs, target, content);
        fs := fs1;
        log := log + [Copied(target, content)];
        failure := None;
    }

    /** Files.newBufferedWriter(file): the writer starts empty. */
    method OpenWriter(file: Path) returns (failure: Option<Failure>)
      requires Valid()
      modifies this
      ensures Valid()
      ensures NewTextFile(old(fs), file).Ok? ==>
                failure.None? && fs == NewTextFile(old(fs), file).value
                && writer == [] && log == old(log) + [Opened(file)]
      ensures NewTextFile(old(fs), file).Err? ==>
                failure == Some(NewTextFile(old(fs), file).failure)
                && fs == old(fs) && writer == old(writer) && log == old(log)
    {
      match NewTextFile(fs, file)
      case Err(e) =>
        failure := Some(e);
      case Ok(fs1) =>
        NewFileKeepsTree(fs, file, Text([]));
        fs := fs1;
        writer := [];
        log := log + [Opened(file)];
        failure := None;
    }

    /** writer.write(line); writer.newLine(). */
    method WriteLine(line: string)
      modifies this`writer
      ensures writer == old(writer) + [line]
    {
      writer := writer + [line];
    }

    /** Closing the writer stores its lines into the file it was opened on. */
    method CloseWriter(file: Path)
      requires Valid()
      requires file in fs && fs[file].RegularFile?
      modifies this
      ensures Valid()
      ensures fs == StoreText(old(fs), file, old(writer))
      ensures writer == old(writer) && log == old(log) + [Closed(file)]
    {
      NewFileKeepsTree(fs, file, Text(writer));
      fs := StoreText(fs, file, writer);
      log := log + [Closed(file)];
    }

    /** Files.list(dir): the entry names, or nothing when `dir` cannot be listed. */
    method List(dir: Path) returns (names: Option<seq<string>>)
      ensures names.Some? <==> dir in listings
      ensures names.Some? ==> names.value == listings[dir]
    {
      names := if dir in listings then Some(listings[dir]) else None;
    }

    /** jarTool.run(out, err, args). */
    method RunJar(args: seq<string>) returns (exitCode: int)
      modifies this`log
      ensures log == old(log) + [RanJar(args)]
      ensures exitCode == jarExitCode(args)
    {
      log := log + [RanJar(args)];
      exitCode := jarExitCode(args);
    }
  }

  /** `FileHelper.deleteAllFiles(dir, false)`, then `Files.createDirectories(dir)`: delete everything
      below the staging directory and create it. */
  method ResetStagingDirectory(w: World, dir: Path) returns (failure: Option<Failure>)
    requires w.Valid()
    modifies w
    ensures w.Valid()
    ensures w.Snapshot(failure) == ResetStaging(old(w.Snapshot(None)), dir)
  {
    w.DeleteAllFiles(dir);
    failure := w.MakeDirectories(dir);
  }

  /** `resolve`, `Files.createDirectories(path.getParent())`, then `Files.copy`: copy one class file
      below the staging directory, its parent created first. */
  method CopyClass(w: World, dir: Path, name: string) returns (failure: Option<Failure>)
    requires w.Valid()
    modifies w
    ensures w.Valid()
    ensures w.Snapshot(failure) == CopyClassFile(old(w.Snapshot(None)), dir, name)
  {
    var target := Resolve(dir, name);
    if |target| <= 1 {
      return Some(NullPointer);
    }
    failure := w.MakeDirectories(ParentOf(target));
    if failure.None? {
      failure := w.Copy(target, ClassBytes(name));
    }
  }

  /** The loop over `List.of(name + ".class", name + "$1.class")`: copy each class file in turn,
      stopping at the first failure. */
  method CopyClasses(w: World, dir: Path, names: seq<string>) returns (failure: Option<Failure>)
    requires w.Valid()
    modifies w
    ensures w.Valid()
    ensures w.Snapshot(failure) == CopyClassFiles(old(w.Snapshot(None)), dir, names)
  {
    ghost var start := w.Snapshot(None);
    var i := 0;
    while i < |names|
      invariant 0 <= i <= |names|
      invariant w.Valid()
      invariant CopyClassFiles(start, dir, names[..i]) == w.Snapshot(None)
    {
      assert names[..i + 1][..i] == names[..i];
      failure := CopyClass(w, dir, names[i]);
      if failure.Some? {
        CopyClassFilesStops(start, dir, names, i + 1);
        return;
      }
      i := i + 1;
    }
    assert names[..i] == names;
    failure := None;
  }

  /** `Files.copy(archive, dir.resolve(archive.getFileName()))`: copy the bootstrap archive to the staging root under its bare name. */
  method CopyJar(w: World, dir: Path, location: Path) returns (failure: Option<Failure>)
    requires w.Valid()
    requires location != []
    modifies w
    ensures w.Valid()
    ensures w.Snapshot(failure) == CopyBootstrapJar(old(w.Snapshot(None)), dir, location)
  {
    failure := w.Copy(dir + [location[|location| - 1]], JarBytes(location));
  }

  /** The loop over the `Files.list` stream: one line per listed entry, in listing order. */
  method WriteNames(w: World, names: seq<string>)
    modifies w
    ensures w.fs == old(w.fs) && w.log == old(w.log)
    ensures w.writer == old(w.writer) + names
  {
    var j := 0;
    while j < |names|
      invariant 0 <= j <= |names|
      invariant w.fs == old(w.fs) && w.log == old(w.log)
      invariant w.writer == old(w.writer) + names[..j]
    {
      w.WriteLine(names[j]);
      assert names[..j + 1] == names[..j] + [names[j]];
      j := j + 1;
    }
    assert names[..j] == names;
  }

  /** The loop over the module paths: list each module path in order and write its entries' names; stops at the
      first module path that cannot be listed and returns it. */
  method WriteEntries(w: World, dirs: seq<Path>) returns (unlisted: Option<Path>)
    modifies w
    ensures w.fs == old(w.fs) && w.log == old(w.log)
    ensures w.writer == old(w.writer) + Manifest.ListAll(dirs, w.listings).names
    ensures unlisted == Manifest.ListAll(dirs, w.listings).unlisted
  {
    var k := 0;
    while k < |dirs|
      invariant 0 <= k <= |dirs|
      invariant w.fs == old(w.fs) && w.log == old(w.log)
      invariant Manifest.ListAll(dirs[..k], w.listings).unlisted.None?
      invariant w.writer == old(w.writer) + Manifest.ListAll(dirs[..k], w.listings).names
    {
      var entries := w.List(dirs[k]);
      if entries.None? {
        Manifest.ListAllAppend(dirs[..k], dirs[k..], w.listings);
        assert dirs[..k] + dirs[k..] == dirs;
        return Some(dirs[k]);
      }
      WriteNames(w, entries.value);
      Manifest.ListAllAppend(dirs[..k], [dirs[k]], w.listings);
      assert dirs[..k + 1] == dirs[..k] + [dirs[k]];
      assert Manifest.ListAll([dirs[k]], w.listings).names == entries.value + Manifest.ListAll([], w.listings).names;
      k := k + 1;
    }
    assert dirs[..k] == dirs;
    unlisted := None;
  }

  /** `Files.newBufferedWriter` in a try-with-resources block: write the manifest; the writer is closed also when listing fails. */
  method WriteModulesFile(w: World, file: Path, jarName: string, dirs: seq<Path>)
      returns (failure: Option<Failure>)
    requires w.Valid()
    modifies w
    ensures w.Valid()
    ensures w.Snapshot(failure) == WriteManifest(old(w.Snapshot(None)), file, jarName, dirs, w.listings)
  {
    failure := w.OpenWriter(file);
    if failure.Some? {
      return;
    }
    w.WriteLine(Manifest.Descriptor);
    w.WriteLine(jarName);
    var unlisted := WriteEntries(w, dirs);
    assert w.writer == Manifest.Lines(jarName, Manifest.ListAll(dirs, w.listings).names);
    w.CloseWriter(file);
    failure := if unlisted.Some? then Some(IOFailure(unlisted.value)) else None;
  }

  /** The `--create` run, then the `--update` runs: create the uber archive from the staging directory, then update it with
      each module path in order; the exit codes are not looked at. */
  method RunJarTool(w: World, uberJar: Path, mainClass: string, dir: Path, dirs: seq<Path>)
    modifies w
    ensures w.fs == old(w.fs) && w.writer == old(w.writer)
    ensures w.log == old(w.log) + JarRuns(JarCommands.CommandLines(uberJar, mainClass, dir, dirs))
  {
    var create := JarCommands.CreateCommand(uberJar, mainClass, dir);
    var exitCode := w.RunJar(create);
    UpdateRunsStep(create, uberJar, dirs, 0);
    var m := 0;
    while m < |dirs|
      invariant 0 <= m <= |dirs|
      invariant w.fs == old(w.fs) && w.writer == old(w.writer)
      invariant w.log == old(w.log) + JarRuns([create] + JarCommands.UpdateCommands(uberJar, dirs[..m]))
    {
      exitCode := w.RunJar(JarCommands.UpdateCommand(uberJar, dirs[m]));
      UpdateRunsStep(create, uberJar, dirs, m + 1);
      m := m + 1;
    }
    assert dirs[..m] == dirs;
  }

  /** The jar runs up to the update with module path k - 1: one more than those before it. */
  lemma UpdateRunsStep(create: seq<string>, uberJar: Path, dirs: seq<Path>, k: nat)
    requires k <= |dirs|
    ensures k == 0 ==> JarRuns([create] + JarCommands.UpdateCommands(uberJar, dirs[..k])) == [RanJar(create)]
    ensures k > 0 ==>
              JarRuns([create] + JarCommands.UpdateCommands(uberJar, dirs[..k]))
              == JarRuns([create] + JarCommands.UpdateCommands(uberJar, dirs[..k - 1]))
                 + [RanJar(JarCommands.UpdateCommand(uberJar, dirs[k - 1]))]
  {
    if k == 0 {
      assert [create] + JarCommands.UpdateCommands(uberJar, dirs[..0]) == [create];
      assert JarRuns([create]) == JarRuns([]) + [RanJar(create)];
    } else {
      var before := [create] + JarCommands.UpdateCommands(uberJar, dirs[..k - 1]);
      var u := JarCommands.UpdateCommand(uberJar, dirs[k - 1]);
      assert dirs[..k][..k - 1] == dirs[..k - 1];
      assert JarCommands.UpdateCommands(uberJar, dirs[..k]) == JarCommands.UpdateCommands(uberJar, dirs[..k - 1]) + [u];
      assert [create] + JarCommands.UpdateCommands(uberJar, dirs[..k]) == before + [u];
      assert (before + [u])[..|before|] == before;
    }
  }

  /** UberPackagerPlugin.execute: the run ends in the state `Packaging` describes, and returns 0
      when nothing failed, whatever the jar runs returned, or the failure otherwise. */
  method Execute(w: World, conf: PackagerConf, boot: Bootstrap) returns (r: Result<int>)
    requires w.Valid()
    requires boot.jarLocation != []
    modifies w
    ensures w.Valid()
    ensures r.Ok? ==> r.value == 0
    ensures var s := Packaging(old(w.fs), old(w.writer), old(w.log), w.jarFound, w.listings, conf, boot);
            w.Snapshot(if r.Ok? then None else Some(r.failure)) == s
  {
    if !w.jarFound {
      return Err(ToolMissing);
    }
    var dir := conf.moduleUberExplodedPath;
    var dirs := ModulePaths(conf);
    var names := ClassFiles(boot.mainClass);
    var cmds := JarCommands.CommandLines(UberJar(conf), boot.mainClass, dir, dirs);
    var failure := ResetStagingDirectory(w, dir);
    if failure.Some? {
      CopyClassFilesFailed(w.Snapshot(failure), dir, names);
      return Err(failure.value);
    }
    failure := CopyClasses(w, dir, names);
    if failure.Some? {
      return Err(failure.value);
    }
    failure := CopyJar(w, dir, boot.jarLocation);
    if failure.Some? {
      return Err(failure.value);
    }
    failure := WriteModulesFile(w, ManifestPath(conf), JarName(boot), dirs);
    if failure.Some? {
      return Err(failure.value);
    }
    RunJarTool(w, UberJar(conf), boot.mainClass, dir, dirs);
    return Ok(0);
  }
}
