/** What a packaging run guarantees, proved about the specification `Packaging` (which the
    imperative `Execute` is proved to follow). */
module PackagingProperties {
  import opened Results
  import opened Paths
  import opened FileSystem
  import Manifest
  import JarCommands
  import opened UberPackager

  // ---------------------------------------------------------------------------------------
  // The places a run writes to

  function StagingDir(conf: PackagerConf): Path {
    conf.moduleUberExplodedPath
  }

  /** Where bootstrap class file `k` (0: the main class, 1: its anonymous class) is copied. */
  function ClassTarget(conf: PackagerConf, boot: Bootstrap, k: nat): Path
    requires k < 2
  {
    Resolve(StagingDir(conf), ClassFiles(boot.mainClass)[k])
  }

  function JarTarget(conf: PackagerConf, boot: Bootstrap): Path
    requires boot.jarLocation != []
  {
    StagingDir(conf) + [JarName(boot)]
  }

  function JarCommandsOf(conf: PackagerConf, boot: Bootstrap): seq<seq<string>> {
    JarCommands.CommandLines(UberJar(conf), boot.mainClass, StagingDir(conf), ModulePaths(conf))
  }

  /** The side effects of copying one class file: its parent created, then the copy. */
  function ClassCopy(dir: Path, name: string): seq<Effect> {
    var c := Resolve(dir, name);
    [MadeDirectories(ParentOf(c)), Copied(c, ClassBytes(name))]
  }

  /** The side effects of copying the two bootstrap class files. */
  function ClassCopies(dir: Path, names: seq<string>): seq<Effect>
    requires |names| == 2
  {
    ClassCopy(dir, names[0]) + ClassCopy(dir, names[1])
  }

  /** The side effects of a successful run before the jar tool is started: the reset, the
      class file copies, the archive copy, and opening and closing the manifest. */
  function StagingTrace(conf: PackagerConf, boot: Bootstrap): seq<Effect>
    requires boot.jarLocation != []
  {
    var dir := StagingDir(conf);
    [Cleared(dir), MadeDirectories(dir)]
    + (ClassCopies(dir, ClassFiles(boot.mainClass))
       + ([Copied(JarTarget(conf, boot), JarBytes(boot.jarLocation))]
          + [Opened(ManifestPath(conf)), Closed(ManifestPath(conf))]))
  }

  /** Every side effect of a successful run, in order. */
  function Trace(conf: PackagerConf, boot: Bootstrap): seq<Effect>
    requires boot.jarLocation != []
  {
    StagingTrace(conf, boot) + JarRuns(JarCommandsOf(conf, boot))
  }

  /** The effect writes something: a file copied, the manifest opened or closed, or a jar run. */
  predicate IsWrite(e: Effect) {
    e.Copied? || e.Opened? || e.Closed? || e.RanJar?
  }

  // ---------------------------------------------------------------------------------------
  // The order of the side effects

  /** `t` extends the log of `s` by a prefix of `seg`, by all of it when `t` has not failed. */
  ghost predicate Extends(s: State, t: State, seg: seq<Effect>) {
    |s.log| <= |t.log| <= |s.log| + |seg|
    && t.log == s.log + seg[..|t.log| - |s.log|]
    && (t.failure.None? ==> t.log == s.log + seg)
  }

  lemma ExtendsThen(s: State, t: State, u: State, a: seq<Effect>, b: seq<Effect>)
    requires Extends(s, t, a)
    requires t.failure.Some? ==> u == t
    requires t.failure.None? ==> Extends(t, u, b)
    ensures Extends(s, u, a + b)
  {
    if t.failure.Some? {
      assert (a + b)[..|t.log| - |s.log|] == a[..|t.log| - |s.log|];
    } else {
      var k := |u.log| - |t.log|;
      assert (a + b)[..|a| + k] == a + b[..k];
    }
  }

  lemma ResetStagingExtends(s: State, dir: Path)
    requires s.failure.None?
    ensures Extends(s, ResetStaging(s, dir), [Cleared(dir), MadeDirectories(dir)])
    ensures |ResetStaging(s, dir).log| > |s.log|
  {
    var seg := [Cleared(dir), MadeDirectories(dir)];
    assert seg[..1] == [Cleared(dir)];
  }

  lemma CopyClassFileExtends(s: State, dir: Path, name: string)
    requires s.failure.None?
    ensures Extends(s, CopyClassFile(s, dir, name), ClassCopy(dir, name))
  {
    var c := Resolve(dir, name);
    var seg := [MadeDirectories(ParentOf(c)), Copied(c, ClassBytes(name))];
    assert seg[..0] == [] && seg[..1] == [MadeDirectories(ParentOf(c))];
  }

  /** Copying the two bootstrap class files is one copy after the other. */
  lemma CopyTwoClassFiles(s: State, dir: Path, names: seq<string>)
    requires |names| == 2
    ensures CopyClassFiles(s, dir, names) == CopyClassFile(CopyClassFile(s, dir, names[0]), dir, names[1])
  {
    assert names[..1] == [names[0]] && names[..1][..0] == [];
    assert CopyClassFiles(s, dir, names[..1][..0]) == s;
    assert CopyClassFiles(s, dir, names[..1]) == CopyClassFile(s, dir, names[0]);
    assert names[..|names| - 1] == names[..1];
  }

  lemma CopyClassFilesExtends(s: State, dir: Path, names: seq<string>)
    requires s.failure.None? && |names| == 2
    ensures Extends(s, CopyClassFiles(s, dir, names), ClassCopies(dir, names))
  {
    CopyTwoClassFiles(s, dir, names);
    var t := CopyClassFile(s, dir, names[0]);
    CopyClassFileExtends(s, dir, names[0]);
    var u := CopyClassFile(t, dir, names[1]);
    if t.failure.None? {
      CopyClassFileExtends(t, dir, names[1]);
    }
    ExtendsThen(s, t, u, ClassCopy(dir, names[0]), ClassCopy(dir, names[1]));
  }

  lemma CopyBootstrapJarExtends(s: State, dir: Path, location: Path)
    requires s.failure.None? && location != []
    ensures var target := dir + [location[|location| - 1]];
            Extends(s, CopyBootstrapJar(s, dir, location), [Copied(target, JarBytes(location))])
  {
    var target := dir + [location[|location| - 1]];
    assert [Copied(target, JarBytes(location))][..0] == [];
  }

  lemma WriteManifestExtends(s: State, file: Path, jarName: string, dirs: seq<Path>,
                             listings: map<Path, seq<string>>)
    requires s.failure.None?
    ensures Extends(s, WriteManifest(s, file, jarName, dirs, listings), [Opened(file), Closed(file)])
  {
    assert [Opened(file), Closed(file)][..0] == [];
  }

  /** The archive copy, then the manifest. */
  lemma ProvisionExtends(s2: State, dir: Path, location: Path, file: Path, dirs: seq<Path>,
                         listings: map<Path, seq<string>>)
    requires s2.failure.None? && location != []
    ensures var target := dir + [location[|location| - 1]];
            var s3 := CopyBootstrapJar(s2, dir, location);
            Extends(s2, WriteManifest(s3, file, location[|location| - 1], dirs, listings),
                    [Copied(target, JarBytes(location))] + [Opened(file), Closed(file)])
  {
    var target := dir + [location[|location| - 1]];
    var s3 := CopyBootstrapJar(s2, dir, location);
    var s4 := WriteManifest(s3, file, location[|location| - 1], dirs, listings);
    CopyBootstrapJarExtends(s2, dir, location);
    if s3.failure.None? {
      WriteManifestExtends(s3, file, location[|location| - 1], dirs, listings);
    }
    ExtendsThen(s2, s3, s4, [Copied(target, JarBytes(location))], [Opened(file), Closed(file)]);
  }

  /** The class file copies, the archive copy, then the manifest. */
  lemma AfterResetExtends(s1: State, dir: Path, names: seq<string>, location: Path, file: Path,
                          dirs: seq<Path>, listings: map<Path, seq<string>>)
    requires s1.failure.None? && |names| == 2 && location != []
    ensures var s2 := CopyClassFiles(s1, dir, names);
            var s3 := CopyBootstrapJar(s2, dir, location);
            Extends(s1, WriteManifest(s3, file, location[|location| - 1], dirs, listings),
                    ClassCopies(dir, names)
                    + ([Copied(dir + [location[|location| - 1]], JarBytes(location))] + [Opened(file), Closed(file)]))
  {
    var s2 := CopyClassFiles(s1, dir, names);
    var s3 := CopyBootstrapJar(s2, dir, location);
    var s4 := WriteManifest(s3, file, location[|location| - 1], dirs, listings);
    var rest := [Copied(dir + [location[|location| - 1]], JarBytes(location))] + [Opened(file), Closed(file)];
    CopyClassFilesExtends(s1, dir, names);
    if s2.failure.None? {
      ProvisionExtends(s2, dir, location, file, dirs, listings);
    } else {
      CopyBootstrapJarFailed(s2, dir, location);
    }
    ExtendsThen(s1, s2, s4, ClassCopies(dir, names), rest);
  }

  lemma CopyBootstrapJarFailed(s: State, dir: Path, location: Path)
    requires s.failure.Some? && location != []
    ensures CopyBootstrapJar(s, dir, location) == s
  {
  }

  /** The steps before the jar tool extend the log by a prefix of `StagingTrace`, by all of it
      when they succeed. */
  lemma StagingExtends(s: State, listings: map<Path, seq<string>>, conf: PackagerConf, boot: Bootstrap)
    requires s.failure.None? && boot.jarLocation != []
    ensures var u := Staging(s, listings, conf, boot);
            Extends(s, u, StagingTrace(conf, boot)) && |u.log| > |s.log|
  {
    assert JarTarget(conf, boot) == StagingDir(conf) + [JarName(boot)];
    StagingStepsExtend(s, StagingDir(conf), ClassFiles(boot.mainClass), boot.jarLocation, ManifestPath(conf),
                       ModulePaths(conf), listings);
  }

  lemma StagingStepsExtend(s: State, dir: Path, names: seq<string>, location: Path, file: Path,
                           dirs: seq<Path>, listings: map<Path, seq<string>>)
    requires s.failure.None? && |names| == 2 && location != []
    ensures var s1 := ResetStaging(s, dir);
            var s3 := CopyBootstrapJar(CopyClassFiles(s1, dir, names), dir, location);
            var u := WriteManifest(s3, file, location[|location| - 1], dirs, listings);
            Extends(s, u, [Cleared(dir), MadeDirectories(dir)]
                          + (ClassCopies(dir, names)
                             + ([Copied(dir + [location[|location| - 1]], JarBytes(location))]
                                + [Opened(file), Closed(file)])))
            && |u.log| > |s.log|
  {
    var s1 := ResetStaging(s, dir);
    var s3 := CopyBootstrapJar(CopyClassFiles(s1, dir, names), dir, location);
    var u := WriteManifest(s3, file, location[|location| - 1], dirs, listings);
    var rest := ClassCopies(dir, names)
                + ([Copied(dir + [location[|location| - 1]], JarBytes(location))] + [Opened(file), Closed(file)]);
    ResetStagingExtends(s, dir);
    if s1.failure.Some? {
      CopyClassFilesFailed(s1, dir, names);
      CopyBootstrapJarFailed(s1, dir, location);
      assert u == s1;
    } else {
      AfterResetExtends(s1, dir, names, location, file, dirs, listings);
    }
    ExtendsThen(s, s1, u, [Cleared(dir), MadeDirectories(dir)], rest);
  }

  /** The run's log grows by a prefix of `Trace`: all of it when the run succeeds, and no more
      than the staging part (so no jar run) when it fails. */
  lemma RunLog(fs: FileSystem, writer: seq<string>, log: seq<Effect>,
               listings: map<Path, seq<string>>, conf: PackagerConf, boot: Bootstrap)
    requires boot.jarLocation != []
    ensures var s := Packaging(fs, writer, log, true, listings, conf, boot);
            Extends(State(fs, writer, log, None), s, Trace(conf, boot))
            && |s.log| > |log|
            && (s.failure.Some? ==> |s.log| <= |log| + |StagingTrace(conf, boot)|)
  {
    var s0 := State(fs, writer, log, None);
    var s4 := Staging(s0, listings, conf, boot);
    var cmds := JarCommandsOf(conf, boot);
    StagingExtends(s0, listings, conf, boot);
    RunJarsExtends(s4, cmds);
    LogThen(s0, s4, RunJars(s4, cmds), StagingTrace(conf, boot), JarRuns(cmds));
  }

  /** Running the jar tool leaves a failed state as it is and otherwise logs every run. */
  lemma RunJarsExtends(s: State, cmds: seq<seq<string>>)
    ensures s.failure.Some? ==> RunJars(s, cmds) == s
    ensures s.failure.None? ==> RunJars(s, cmds).failure.None? && Extends(s, RunJars(s, cmds), JarRuns(cmds))
  {
  }

  /** A step that never fails, after a prefix that logs something. */
  lemma LogThen(s: State, t: State, u: State, a: seq<Effect>, b: seq<Effect>)
    requires Extends(s, t, a) && |t.log| > |s.log|
    requires t.failure.Some? ==> u == t
    requires t.failure.None? ==> u.failure.None? && Extends(t, u, b)
    ensures Extends(s, u, a + b) && |u.log| > |s.log|
    ensures u.failure.Some? ==> |u.log| <= |s.log| + |a|
  {
    ExtendsThen(s, t, u, a, b);
  }

  /** Without a `jar` tool the run fails with `ToolMissing` and changes nothing. */
  lemma MissingToolChangesNothing(fs: FileSystem, writer: seq<string>, log: seq<Effect>,
                                  listings: map<Path, seq<string>>, conf: PackagerConf, boot: Bootstrap)
    requires boot.jarLocation != []
    ensures Packaging(fs, writer, log, false, listings, conf, boot) == State(fs, writer, log, Some(ToolMissing))
  {
  }

  /** Reading the log of `u` position by position against `seg`. */
  lemma ExtendsAt(s: State, u: State, seg: seq<Effect>)
    requires Extends(s, u, seg)
    ensures forall i :: 0 <= i < |s.log| ==> u.log[i] == s.log[i]
    ensures forall i :: |s.log| <= i < |u.log| ==> u.log[i] == seg[i - |s.log|]
  {
  }

  /** Where the reset, the manifest and the jar runs sit in `Trace`. */
  lemma TraceShape(conf: PackagerConf, boot: Bootstrap)
    requires boot.jarLocation != []
    ensures var t, cmds := Trace(conf, boot), JarCommandsOf(conf, boot);
            |StagingTrace(conf, boot)| == 9 && |t| == 9 + |cmds|
            && t[0] == Cleared(StagingDir(conf)) && t[1] == MadeDirectories(StagingDir(conf))
            && t[8] == Closed(ManifestPath(conf))
            && (forall i :: 0 <= i < 9 ==> !t[i].RanJar?)
            && (forall i :: 0 <= i < 2 ==> !IsWrite(t[i]))
            && forall i :: 9 <= i < |t| ==> t[i] == RanJar(cmds[i - 9])
  {
    var t := Trace(conf, boot);
    var st := StagingTrace(conf, boot);
    assert forall i :: 0 <= i < 9 ==> t[i] == st[i];
  }

  /** The order `ResetComesFirst` states, for any log that follows `Trace`. */
  lemma TraceOrder(s0: State, s: State, conf: PackagerConf, boot: Bootstrap)
    requires boot.jarLocation != []
    requires Extends(s0, s, Trace(conf, boot)) && |s.log| > |s0.log|
    requires s.failure.Some? ==> |s.log| <= |s0.log| + |StagingTrace(conf, boot)|
    ensures s.log[|s0.log|] == Cleared(StagingDir(conf))
    ensures forall i :: |s0.log| <= i < |s.log| && IsWrite(s.log[i]) ==>
              i >= |s0.log| + 2 && s.log[|s0.log| + 1] == MadeDirectories(StagingDir(conf))
    ensures forall i :: |s0.log| <= i < |s.log| && s.log[i].RanJar? ==>
              s.failure.None? && i > |s0.log| + 8 && s.log[|s0.log| + 8] == Closed(ManifestPath(conf))
  {
    var t := Trace(conf, boot);
    ExtendsAt(s0, s, t);
    TraceShape(conf, boot);
    forall i | |s0.log| <= i < |s.log| && IsWrite(s.log[i])
      ensures i >= |s0.log| + 2 && s.log[|s0.log| + 1] == MadeDirectories(StagingDir(conf))
    {
      assert s.log[i] == t[i - |s0.log|];
    }
    forall i | |s0.log| <= i < |s.log| && s.log[i].RanJar?
      ensures s.failure.None? && i > |s0.log| + 8 && s.log[|s0.log| + 8] == Closed(ManifestPath(conf))
    {
      assert s.log[i] == t[i - |s0.log|];
    }
  }

  /** Every run that finds the tool starts by clearing and recreating the staging directory,
      and writes nothing before both are done; the jar tool runs only after the manifest is
      closed, and only in a run that succeeds. */
  lemma ResetComesFirst(fs: FileSystem, writer: seq<string>, log: seq<Effect>,
                        listings: map<Path, seq<string>>, conf: PackagerConf, boot: Bootstrap)
    requires boot.jarLocation != []
    ensures var s := Packaging(fs, writer, log, true, listings, conf, boot);
            |s.log| > |log| && s.log[|log|] == Cleared(StagingDir(conf))
            && (forall i :: |log| <= i < |s.log| && IsWrite(s.log[i]) ==>
                  i >= |log| + 2 && s.log[|log| + 1] == MadeDirectories(StagingDir(conf)))
            && (forall i :: |log| <= i < |s.log| && s.log[i].RanJar? ==>
                  s.failure.None? && i > |log| + 8 && s.log[|log| + 8] == Closed(ManifestPath(conf)))
  {
    RunLog(fs, writer, log, listings, conf, boot);
    TraceOrder(State(fs, writer, log, None), Packaging(fs, writer, log, true, listings, conf, boot), conf, boot);
  }

  /** A successful run runs the jar tool exactly on `JarCommandsOf`, after the staging part:
      once to create the archive over the staging directory, then once per module path. */
  lemma SuccessfulJarRuns(fs: FileSystem, writer: seq<string>, log: seq<Effect>,
                          listings: map<Path, seq<string>>, conf: PackagerConf, boot: Bootstrap)
    requires boot.jarLocation != []
    requires Packaging(fs, writer, log, true, listings, conf, boot).failure.None?
    ensures var s := Packaging(fs, writer, log, true, listings, conf, boot);
            var cmds := JarCommandsOf(conf, boot);
            var base := |log| + |StagingTrace(conf, boot)|;
            |s.log| == base + 1 + |ModulePaths(conf)|
            && (forall i :: 0 <= i < |cmds| ==> s.log[base + i] == RanJar(cmds[i]))
            && s.log[base] == RanJar(JarCommands.CreateCommand(UberJar(conf), boot.mainClass, StagingDir(conf)))
            && forall i :: 0 <= i < |ModulePaths(conf)| ==>
                 s.log[base + 1 + i] == RanJar(JarCommands.UpdateCommand(UberJar(conf), ModulePaths(conf)[i]))
  {
    RunLog(fs, writer, log, listings, conf, boot);
    var cmds := JarCommandsOf(conf, boot);
    var s := Packaging(fs, writer, log, true, listings, conf, boot);
    JarRunsAt(s.log, log, StagingTrace(conf, boot), cmds);
    JarCommands.CommandLinesAt(UberJar(conf), boot.mainClass, StagingDir(conf), ModulePaths(conf));
  }

  /** A log made of `pre`, then `st`, then the jar runs of `cmds` ends with those runs. */
  lemma JarRunsAt(log: seq<Effect>, pre: seq<Effect>, st: seq<Effect>, cmds: seq<seq<string>>)
    requires log == pre + (st + JarRuns(cmds))
    ensures |log| == |pre| + |st| + |cmds|
    ensures forall i :: 0 <= i < |cmds| ==> log[|pre| + |st| + i] == RanJar(cmds[i])
  {
    var runs := JarRuns(cmds);
    forall i | 0 <= i < |cmds| ensures log[|pre| + |st| + i] == RanJar(cmds[i]) {
      assert log[|pre| + |st| + i] == (st + runs)[|st| + i] == runs[i];
    }
  }

  // ---------------------------------------------------------------------------------------
  // What a run does to the file system outside the staging directory

  /** Outside the subtree strictly below `dir`, `fs` keeps every entry of `fs0` as it was and
      adds nothing but directories on the way to `dir`. */
  ghost predicate KeepsOutside(fs0: FileSystem, fs: FileSystem, dir: Path) {
    (forall q :: q in fs0 && !(dir < q) ==> q in fs && fs[q] == fs0[q])
    && (forall q :: q in fs && q !in fs0 && !(dir < q) ==> q <= dir && fs[q] == Directory)
  }

  lemma KeepsOutsideThen(a: FileSystem, b: FileSystem, c: FileSystem, dir: Path)
    requires KeepsOutside(a, b, dir) && KeepsOutside(b, c, dir)
    ensures KeepsOutside(a, c, dir)
  {
  }

  /** Two prefixes of one path are prefixes of one another. */
  lemma PrefixesComparable(a: Path, b: Path, c: Path)
    requires a <= c && b <= c
    ensures a <= b || b < a
  {
    assert a == c[..|a|] && b == c[..|b|];
    if |a| <= |b| {
      assert a == b[..|a|];
    }
  }

  lemma ResetStagingKeeps(s: State, dir: Path)
    ensures var t := ResetStaging(s, dir);
            KeepsOutside(s.fs, t.fs, dir) && (t.failure.None? ==> Exists(t.fs, dir))
  {
    if s.failure.None? {
      var fs0 := DeleteContents(s.fs, dir);
      if CreateDirectories(fs0, dir).Ok? {
        CreatedDirectories(fs0, dir);
        var fs1 := CreateDirectories(fs0, dir).value;
        assert dir == [] || dir in Ancestry(dir);
        assert KeepsOutside(fs0, fs1, dir);
      }
    }
  }

  /** Directories created on the way to `up`, inside the path `target` that runs through `dir`. */
  lemma NewDirectoriesKeepOutside(fs0: FileSystem, fs1: FileSystem, dir: Path, up: Path, target: Path)
    requires dir <= target && up <= target
    requires forall q :: q in fs0 ==> q in fs1 && fs1[q] == fs0[q]
    requires forall q :: q in fs1 && q !in fs0 ==> q in Ancestry(up) && fs1[q] == Directory
    ensures KeepsOutside(fs0, fs1, dir)
  {
    forall q | q in fs1 && q !in fs0 && !(dir < q) ensures q <= dir {
      PrefixesComparable(q, dir, target);
    }
  }

  lemma NewEntryKeepsOutside(fs: FileSystem, dir: Path, target: Path, e: Entry)
    requires dir < target
    ensures KeepsOutside(fs, fs[target := e], dir)
  {
  }

  /** Creating the parent of `target` below `dir`, then a regular file at `target`. */
  lemma CopyIntoKeeps(fs: FileSystem, dir: Path, target: Path, c: Content)
    requires Exists(fs, dir) && dir <= target && target != []
    requires CreateDirectories(fs, ParentOf(target)).Ok?
    ensures var fs1 := CreateDirectories(fs, ParentOf(target)).value;
            KeepsOutside(fs, fs1, dir) && Exists(fs1, dir)
            && (CopyFile(fs1, target, c).Ok? ==>
                  KeepsOutside(fs, CopyFile(fs1, target, c).value, dir) && Exists(CopyFile(fs1, target, c).value, dir))
  {
    var up := ParentOf(target);
    assert up <= target;
    CreatedDirectories(fs, up);
    var fs1 := CreateDirectories(fs, up).value;
    NewDirectoriesKeepOutside(fs, fs1, dir, up, target);
    if CopyFile(fs1, target, c).Ok? {
      assert target != dir;
      NewEntryKeepsOutside(fs1, dir, target, RegularFile(c));
      KeepsOutsideThen(fs, fs1, fs1[target := RegularFile(c)], dir);
    }
  }

  lemma CopyClassFileKeeps(s: State, dir: Path, name: string)
    requires s.failure.None? ==> Exists(s.fs, dir)
    ensures var t := CopyClassFile(s, dir, name);
            KeepsOutside(s.fs, t.fs, dir) && (t.failure.None? ==> Exists(t.fs, dir))
  {
    var target := Resolve(dir, name);
    if s.failure.None? && |target| > 1 && CreateDirectories(s.fs, ParentOf(target)).Ok? {
      CopyIntoKeeps(s.fs, dir, target, ClassBytes(name));
    }
  }

  lemma CopyClassFilesKeeps(s: State, dir: Path, mainClass: string)
    requires s.failure.None? ==> Exists(s.fs, dir)
    ensures var t := CopyClassFiles(s, dir, ClassFiles(mainClass));
            KeepsOutside(s.fs, t.fs, dir) && (t.failure.None? ==> Exists(t.fs, dir))
  {
    var names := ClassFiles(mainClass);
    CopyTwoClassFiles(s, dir, names);
    CopyClassFileKeeps(s, dir, names[0]);
    var t := CopyClassFile(s, dir, names[0]);
    CopyClassFileKeeps(t, dir, names[1]);
    KeepsOutsideThen(s.fs, t.fs, CopyClassFile(t, dir, names[1]).fs, dir);
  }

  lemma CopyBootstrapJarKeeps(s: State, dir: Path, location: Path)
    requires location != []
    ensures KeepsOutside(s.fs, CopyBootstrapJar(s, dir, location).fs, dir)
  {
    assert dir < dir + [location[|location| - 1]];
  }

  lemma WriteManifestKeeps(s: State, conf: PackagerConf, jarName: string, dirs: seq<Path>,
                           listings: map<Path, seq<string>>)
    ensures KeepsOutside(s.fs, WriteManifest(s, ManifestPath(conf), jarName, dirs, listings).fs, StagingDir(conf))
  {
    assert StagingDir(conf) < ManifestPath(conf);
  }

  lemma StagingKeeps(s: State, listings: map<Path, seq<string>>, conf: PackagerConf, boot: Bootstrap)
    requires boot.jarLocation != []
    ensures KeepsOutside(s.fs, Staging(s, listings, conf, boot).fs, StagingDir(conf))
  {
    var dir := StagingDir(conf);
    var s1 := ResetStaging(s, dir);
    var s2 := CopyClassFiles(s1, dir, ClassFiles(boot.mainClass));
    var s3 := CopyBootstrapJar(s2, dir, boot.jarLocation);
    var s4 := WriteManifest(s3, ManifestPath(conf), JarName(boot), ModulePaths(conf), listings);
    assert Staging(s, listings, conf, boot) == s4;
    ResetStagingKeeps(s, dir);
    CopyClassFilesKeeps(s1, dir, boot.mainClass);
    CopyBootstrapJarKeeps(s2, dir, boot.jarLocation);
    WriteManifestKeeps(s3, conf, JarName(boot), ModulePaths(conf), listings);
    KeepsOutsideThen(s.fs, s1.fs, s2.fs, dir);
    KeepsOutsideThen(s.fs, s2.fs, s3.fs, dir);
    KeepsOutsideThen(s.fs, s3.fs, s4.fs, dir);
  }

  /** Whether it succeeds or not, a run leaves every entry outside the staging directory's
      contents as it was; the only entries it adds there are directories on the way to the
      staging directory. This is apart from the archive the jar tool writes, which the model
      leaves out. */
  lemma OutsideStagingUntouched(fs: FileSystem, writer: seq<string>, log: seq<Effect>, jarFound: bool,
                                listings: map<Path, seq<string>>, conf: PackagerConf, boot: Bootstrap)
    requires boot.jarLocation != []
    ensures KeepsOutside(fs, Packaging(fs, writer, log, jarFound, listings, conf, boot).fs, StagingDir(conf))
  {
    if jarFound {
      StagingKeeps(State(fs, writer, log, None), listings, conf, boot);
    }
  }

  // ---------------------------------------------------------------------------------------
  // What a successful run leaves in the staging directory

  /** The manifest a run writes, given the listings of the module paths. */
  function ManifestLines(conf: PackagerConf, boot: Bootstrap, listings: map<Path, seq<string>>): seq<string>
    requires boot.jarLocation != []
  {
    Manifest.Lines(JarName(boot), Manifest.ListAll(ModulePaths(conf), listings).names)
  }

  /** The directories below the staging directory that hold the bootstrap class files. */
  function StagedDirectories(conf: PackagerConf, boot: Bootstrap): set<Path> {
    var up0, up1 := ParentOf(ClassTarget(conf, boot, 0)), ParentOf(ClassTarget(conf, boot, 1));
    set q | q in Ancestry(up0) + Ancestry(up1) && StagingDir(conf) < q
  }

  /** Everything a run places below the staging directory. */
  function Staged(conf: PackagerConf, boot: Bootstrap): set<Path>
    requires boot.jarLocation != []
  {
    {ClassTarget(conf, boot, 0), ClassTarget(conf, boot, 1), JarTarget(conf, boot), ManifestPath(conf)}
    + StagedDirectories(conf, boot)
  }

  lemma StagedMembers(conf: PackagerConf, boot: Bootstrap)
    requires boot.jarLocation != []
    ensures var c0, c1 := ClassTarget(conf, boot, 0), ClassTarget(conf, boot, 1);
            forall q :: StagingDir(conf) < q ==>
              (q in Staged(conf, boot) <==>
                 q == c0 || q == c1 || q == JarTarget(conf, boot) || q == ManifestPath(conf)
                 || q in Ancestry(ParentOf(c0)) || q in Ancestry(ParentOf(c1)))
    ensures forall q :: q in StagedDirectories(conf, boot) ==>
              q in Ancestry(ParentOf(ClassTarget(conf, boot, 0))) || q in Ancestry(ParentOf(ClassTarget(conf, boot, 1)))
  {
  }

  /** Below the staging directory `r` holds exactly the staged entries: the manifest with the
      run's lines; the bootstrap archive and the two class files with their contents, unless
      the manifest was written over them; and the class files' package directories. */
  ghost predicate StagedAs(r: FileSystem, listings: map<Path, seq<string>>, conf: PackagerConf, boot: Bootstrap)
    requires boot.jarLocation != []
  {
    var names := ClassFiles(boot.mainClass);
    (forall q :: StagingDir(conf) < q ==> (q in r <==> q in Staged(conf, boot)))
    && ManifestPath(conf) in r && r[ManifestPath(conf)] == RegularFile(Text(ManifestLines(conf, boot, listings)))
    && (JarTarget(conf, boot) != ManifestPath(conf) ==>
          JarTarget(conf, boot) in r && r[JarTarget(conf, boot)] == RegularFile(JarBytes(boot.jarLocation)))
    && (ClassTarget(conf, boot, 0) != ManifestPath(conf) ==>
          ClassTarget(conf, boot, 0) in r && r[ClassTarget(conf, boot, 0)] == RegularFile(ClassBytes(names[0])))
    && (ClassTarget(conf, boot, 1) != ManifestPath(conf) ==>
          ClassTarget(conf, boot, 1) in r && r[ClassTarget(conf, boot, 1)] == RegularFile(ClassBytes(names[1])))
    && forall q :: q in StagedDirectories(conf, boot) ==> q in r && r[q] == Directory
  }

  /** `fs` is `fs0` with the new entry `target` holding `e`, and every element on the way to
      `up` a directory. */
  ghost predicate Placed(fs0: FileSystem, fs: FileSystem, target: Path, up: Path, e: Entry) {
    target !in fs0 && target in fs && fs[target] == e
    && (forall q :: q in fs0 ==> q in fs && fs[q] == fs0[q])
    && (forall q :: q in fs ==> q in fs0 || q == target || q in Ancestry(up))
    && (forall q :: q in Ancestry(up) ==> q in fs && fs[q] == Directory)
  }

  lemma ResetStagingEmpties(s: State, dir: Path)
    requires s.failure.None? && ResetStaging(s, dir).failure.None?
    ensures var t := ResetStaging(s, dir);
            Exists(t.fs, dir) && forall q :: dir < q ==> q !in t.fs
  {
    var fs0 := DeleteContents(s.fs, dir);
    CreatedDirectories(fs0, dir);
    assert dir == [] || dir in Ancestry(dir);
  }

  lemma CopyClassFilePlaces(s: State, dir: Path, name: string)
    requires s.failure.None? && CopyClassFile(s, dir, name).failure.None? && Exists(s.fs, dir)
    ensures var c := Resolve(dir, name);
            dir < c && Placed(s.fs, CopyClassFile(s, dir, name).fs, c, ParentOf(c), RegularFile(ClassBytes(name)))
  {
    var c := Resolve(dir, name);
    var up := ParentOf(c);
    assert dir <= c;
    CreatedDirectories(s.fs, up);
    var fs1 := CreateDirectories(s.fs, up).value;
    assert Exists(fs1, dir) && !Exists(fs1, c);
    assert c != dir && c !in Ancestry(up);
  }

  lemma CopyBootstrapJarPlaces(s: State, dir: Path, location: Path)
    requires location != [] && s.failure.None? && CopyBootstrapJar(s, dir, location).failure.None?
    ensures var target := dir + [location[|location| - 1]];
            target !in s.fs && CopyBootstrapJar(s, dir, location).fs == s.fs[target := RegularFile(JarBytes(location))]
  {
  }

  lemma WriteManifestWrites(s: State, file: Path, jarName: string, dirs: seq<Path>,
                            listings: map<Path, seq<string>>)
    requires s.failure.None? && WriteManifest(s, file, jarName, dirs, listings).failure.None?
    ensures var t := WriteManifest(s, file, jarName, dirs, listings);
            var lines := Manifest.Lines(jarName, Manifest.ListAll(dirs, listings).names);
            !IsDirectory(s.fs, file) && t.fs == s.fs[file := RegularFile(Text(lines))] && t.writer == lines
            && forall i :: 0 <= i < |dirs| ==> dirs[i] in listings
  {
  }

  /** Below `p`, emptied by the reset, the two class file copies, the archive copy and the
      manifest leave exactly those four files and the class files' package directories, each
      holding what was stored last. */
  lemma StagedTree(fs1: FileSystem, fs2: FileSystem, fs3: FileSystem, fs4: FileSystem, fs5: FileSystem,
                   p: Path, c0: Path, c1: Path, jt: Path, m: Path,
                   e0: Entry, e1: Entry, ej: Entry, em: Entry)
    requires forall q :: p < q ==> q !in fs1
    requires Placed(fs1, fs2, c0, ParentOf(c0), e0)
    requires Placed(fs2, fs3, c1, ParentOf(c1), e1)
    requires jt !in fs3 && fs4 == fs3[jt := ej]
    requires !IsDirectory(fs4, m) && fs5 == fs4[m := em]
    ensures forall q :: p < q ==>
              (q in fs5 <==> q == c0 || q == c1 || q == jt || q == m
                             || q in Ancestry(ParentOf(c0)) || q in Ancestry(ParentOf(c1)))
    ensures m in fs5 && fs5[m] == em
    ensures jt != m ==> jt in fs5 && fs5[jt] == ej
    ensures c0 != m ==> c0 in fs5 && fs5[c0] == e0
    ensures c1 != m ==> c1 in fs5 && fs5[c1] == e1
    ensures forall q :: q in Ancestry(ParentOf(c0)) || q in Ancestry(ParentOf(c1)) ==> q in fs5 && fs5[q] == Directory
  {
    StagedEntries(fs2, fs3, fs4, fs5, c0, c1, jt, m, e0, e1, ej, em);
  }

  /** Each staged entry holds what was stored last, and the package directories stay directories. */
  lemma StagedEntries(fs2: FileSystem, fs3: FileSystem, fs4: FileSystem, fs5: FileSystem,
                      c0: Path, c1: Path, jt: Path, m: Path,
                      e0: Entry, e1: Entry, ej: Entry, em: Entry)
    requires c0 in fs2 && fs2[c0] == e0
    requires forall q :: q in Ancestry(ParentOf(c0)) ==> q in fs2 && fs2[q] == Directory
    requires Placed(fs2, fs3, c1, ParentOf(c1), e1)
    requires jt !in fs3 && fs4 == fs3[jt := ej]
    requires !IsDirectory(fs4, m) && fs5 == fs4[m := em]
    ensures m in fs5 && fs5[m] == em
    ensures jt != m ==> jt in fs5 && fs5[jt] == ej
    ensures c0 != m ==> c0 in fs5 && fs5[c0] == e0
    ensures c1 != m ==> c1 in fs5 && fs5[c1] == e1
    ensures forall q :: q in Ancestry(ParentOf(c0)) || q in Ancestry(ParentOf(c1)) ==> q in fs5 && fs5[q] == Directory
  {
    forall q | q in Ancestry(ParentOf(c0)) || q in Ancestry(ParentOf(c1)) ensures q in fs5 && fs5[q] == Directory {
      assert fs4[q] == Directory;
      assert q != m;
    }
  }

  /** When the archive copy and the manifest succeed, the archive is a new entry of `fs3` and the
      manifest, written over no directory, holds the manifest lines; returns `fs3`, the file
      system between the two steps. */
  lemma ProvisionSteps(s2: State, listings: map<Path, seq<string>>, conf: PackagerConf, boot: Bootstrap)
      returns (fs3: FileSystem)
    requires boot.jarLocation != [] && s2.failure.None?
    requires WriteManifest(CopyBootstrapJar(s2, StagingDir(conf), boot.jarLocation),
                           ManifestPath(conf), JarName(boot), ModulePaths(conf), listings).failure.None?
    ensures var s4 := WriteManifest(CopyBootstrapJar(s2, StagingDir(conf), boot.jarLocation),
                                    ManifestPath(conf), JarName(boot), ModulePaths(conf), listings);
            JarTarget(conf, boot) !in s2.fs
            && fs3 == s2.fs[JarTarget(conf, boot) := RegularFile(JarBytes(boot.jarLocation))]
            && !IsDirectory(fs3, ManifestPath(conf))
            && s4.fs == fs3[ManifestPath(conf) := RegularFile(Text(ManifestLines(conf, boot, listings)))]
            && s4.writer == ManifestLines(conf, boot, listings)
            && forall i :: 0 <= i < |ModulePaths(conf)| ==> ModulePaths(conf)[i] in listings
  {
    var s3 := CopyBootstrapJar(s2, StagingDir(conf), boot.jarLocation);
    assert s3.failure.None?;
    CopyBootstrapJarPlaces(s2, StagingDir(conf), boot.jarLocation);
    WriteManifestWrites(s3, ManifestPath(conf), JarName(boot), ModulePaths(conf), listings);
    fs3 := s3.fs;
  }

  /** When everything after the reset succeeds, each class file copy places its file and
      package directories, then the archive and the manifest are stored as in `ProvisionSteps`;
      returns the file systems between the steps. */
  lemma AfterResetSteps(s1: State, listings: map<Path, seq<string>>, conf: PackagerConf, boot: Bootstrap)
      returns (fs2a: FileSystem, fs2: FileSystem, fs3: FileSystem)
    requires boot.jarLocation != [] && s1.failure.None? && Exists(s1.fs, StagingDir(conf))
    requires var dir := StagingDir(conf);
             WriteManifest(CopyBootstrapJar(CopyClassFiles(s1, dir, ClassFiles(boot.mainClass)), dir, boot.jarLocation),
                           ManifestPath(conf), JarName(boot), ModulePaths(conf), listings).failure.None?
    ensures var dir, names := StagingDir(conf), ClassFiles(boot.mainClass);
            var c0, c1 := ClassTarget(conf, boot, 0), ClassTarget(conf, boot, 1);
            var s4 := WriteManifest(CopyBootstrapJar(CopyClassFiles(s1, dir, names), dir, boot.jarLocation),
                                    ManifestPath(conf), JarName(boot), ModulePaths(conf), listings);
            Placed(s1.fs, fs2a, c0, ParentOf(c0), RegularFile(ClassBytes(names[0])))
            && Placed(fs2a, fs2, c1, ParentOf(c1), RegularFile(ClassBytes(names[1])))
            && JarTarget(conf, boot) !in fs2
            && fs3 == fs2[JarTarget(conf, boot) := RegularFile(JarBytes(boot.jarLocation))]
            && !IsDirectory(fs3, ManifestPath(conf))
            && s4.fs == fs3[ManifestPath(conf) := RegularFile(Text(ManifestLines(conf, boot, listings)))]
            && s4.writer == ManifestLines(conf, boot, listings)
            && forall i :: 0 <= i < |ModulePaths(conf)| ==> ModulePaths(conf)[i] in listings
  {
    var dir, names := StagingDir(conf), ClassFiles(boot.mainClass);
    CopyTwoClassFiles(s1, dir, names);
    var s2a := CopyClassFile(s1, dir, names[0]);
    var s2 := CopyClassFile(s2a, dir, names[1]);
    assert s2a.failure.None? && s2.failure.None?;
    CopyClassFilePlaces(s1, dir, names[0]);
    CopyClassFilePlaces(s2a, dir, names[1]);
    fs2a, fs2 := s2a.fs, s2.fs;
    fs3 := ProvisionSteps(s2, listings, conf, boot);
  }

  /** A successful staging empties the staging directory, then performs the steps of
      `AfterResetSteps`; returns the file systems between the steps. */
  lemma StagingSteps(s: State, listings: map<Path, seq<string>>, conf: PackagerConf, boot: Bootstrap)
      returns (fs1: FileSystem, fs2a: FileSystem, fs2: FileSystem, fs3: FileSystem)
    requires boot.jarLocation != []
    requires s.failure.None? && Staging(s, listings, conf, boot).failure.None?
    ensures var names := ClassFiles(boot.mainClass);
            var c0, c1 := ClassTarget(conf, boot, 0), ClassTarget(conf, boot, 1);
            var s4 := Staging(s, listings, conf, boot);
            (forall q :: StagingDir(conf) < q ==> q !in fs1)
            && Placed(fs1, fs2a, c0, ParentOf(c0), RegularFile(ClassBytes(names[0])))
            && Placed(fs2a, fs2, c1, ParentOf(c1), RegularFile(ClassBytes(names[1])))
            && JarTarget(conf, boot) !in fs2
            && fs3 == fs2[JarTarget(conf, boot) := RegularFile(JarBytes(boot.jarLocation))]
            && !IsDirectory(fs3, ManifestPath(conf))
            && s4.fs == fs3[ManifestPath(conf) := RegularFile(Text(ManifestLines(conf, boot, listings)))]
            && s4.writer == ManifestLines(conf, boot, listings)
            && forall i :: 0 <= i < |ModulePaths(conf)| ==> ModulePaths(conf)[i] in listings
  {
    var dir := StagingDir(conf);
    var s1 := ResetStaging(s, dir);
    if s1.failure.Some? {
      CopyClassFilesFailed(s1, dir, ClassFiles(boot.mainClass));
    }
    assert s1.failure.None?;
    ResetStagingEmpties(s, dir);
    fs1 := s1.fs;
    fs2a, fs2, fs3 := AfterResetSteps(s1, listings, conf, boot);
  }

  /** A successful staging leaves the staging subtree that `StagedAs` describes. */
  lemma StagingTree(s: State, listings: map<Path, seq<string>>, conf: PackagerConf, boot: Bootstrap)
    requires boot.jarLocation != []
    requires s.failure.None? && Staging(s, listings, conf, boot).failure.None?
    ensures StagedAs(Staging(s, listings, conf, boot).fs, listings, conf, boot)
  {
    var names := ClassFiles(boot.mainClass);
    var fs1, fs2, fs3, fs4 := StagingSteps(s, listings, conf, boot);
    StagedTree(fs1, fs2, fs3, fs4, Staging(s, listings, conf, boot).fs, StagingDir(conf),
               ClassTarget(conf, boot, 0), ClassTarget(conf, boot, 1), JarTarget(conf, boot), ManifestPath(conf),
               RegularFile(ClassBytes(names[0])), RegularFile(ClassBytes(names[1])),
               RegularFile(JarBytes(boot.jarLocation)), RegularFile(Text(ManifestLines(conf, boot, listings))));
    StagedMembers(conf, boot);
  }

  /** After a successful run the staging directory holds exactly what the run placed there: the
      two bootstrap class files with the directories of their package, the bootstrap archive,
      and the manifest; the manifest has the run's lines, and each of the others its content. */
  lemma SuccessfulStaging(fs: FileSystem, writer: seq<string>, log: seq<Effect>,
                          listings: map<Path, seq<string>>, conf: PackagerConf, boot: Bootstrap)
    requires boot.jarLocation != []
    requires Packaging(fs, writer, log, true, listings, conf, boot).failure.None?
    ensures StagedAs(Packaging(fs, writer, log, true, listings, conf, boot).fs, listings, conf, boot)
  {
    var s0 := State(fs, writer, log, None);
    assert Packaging(fs, writer, log, true, listings, conf, boot).fs == Staging(s0, listings, conf, boot).fs;
    StagingTree(s0, listings, conf, boot);
  }

  /** `StagedAs` determines the staging subtree. */
  lemma StagedAsUnique(a: FileSystem, b: FileSystem, listings: map<Path, seq<string>>,
                       conf: PackagerConf, boot: Bootstrap)
    requires boot.jarLocation != []
    requires StagedAs(a, listings, conf, boot) && StagedAs(b, listings, conf, boot)
    ensures forall q :: StagingDir(conf) < q ==> (q in a <==> q in b) && (q in a ==> a[q] == b[q])
  {
    forall q | StagingDir(conf) < q && q in a ensures q in b && a[q] == b[q] {
      if q != ManifestPath(conf) && q != JarTarget(conf, boot)
         && q != ClassTarget(conf, boot, 0) && q != ClassTarget(conf, boot, 1) {
        assert q in StagedDirectories(conf, boot);
      }
    }
  }

  /** Running twice gives the same staging directory: two successful runs with the same
      configuration, bootstrap module and listings leave the same entries below the staging
      directory, whatever either file system held there before. */
  lemma StagingReproducible(fsA: FileSystem, writerA: seq<string>, logA: seq<Effect>,
                            fsB: FileSystem, writerB: seq<string>, logB: seq<Effect>,
                            listings: map<Path, seq<string>>, conf: PackagerConf, boot: Bootstrap)
    requires boot.jarLocation != []
    requires Packaging(fsA, writerA, logA, true, listings, conf, boot).failure.None?
    requires Packaging(fsB, writerB, logB, true, listings, conf, boot).failure.None?
    ensures var a := Packaging(fsA, writerA, logA, true, listings, conf, boot).fs;
            var b := Packaging(fsB, writerB, logB, true, listings, conf, boot).fs;
            forall q :: StagingDir(conf) < q ==> (q in a <==> q in b) && (q in a ==> a[q] == b[q])
  {
    SuccessfulStaging(fsA, writerA, logA, listings, conf, boot);
    SuccessfulStaging(fsB, writerB, logB, listings, conf, boot);
    StagedAsUnique(Packaging(fsA, writerA, logA, true, listings, conf, boot).fs,
                   Packaging(fsB, writerB, logB, true, listings, conf, boot).fs, listings, conf, boot);
  }

  /** For a well-formed main class name the class files lie in its package directories below
      the staging directory, and neither can be the manifest: their names end in ".class". */
  lemma ClassFilesAvoidManifest(conf: PackagerConf, boot: Bootstrap, k: nat)
    requires k < 2 && ValidBinaryName(boot.mainClass)
    ensures var suffix := if k == 0 then ".class" else "$1.class";
            ClassTarget(conf, boot, k)
            == StagingDir(conf) + PackageNames(boot.mainClass) + [SimpleName(boot.mainClass) + suffix]
    ensures ClassTarget(conf, boot, k) != ManifestPath(conf)
  {
    var mc := boot.mainClass;
    var suffix := if k == 0 then ".class" else "$1.class";
    ClassFilePath(mc, suffix);
    assert ClassFiles(mc)[k] == ClassFileName(mc, suffix);
    var c := ClassTarget(conf, boot, k);
    var last := SimpleName(mc) + suffix;
    assert c == StagingDir(conf) + PackageNames(mc) + [last];
    if |PackageNames(mc)| == 0 {
      assert c[|c| - 1] == last;
      assert last[|last| - 1] == 's';
      assert Manifest.FileName[|Manifest.FileName| - 1] == 't';
    }
  }

  // ---------------------------------------------------------------------------------------
  // The manifest

  /** After a successful run every module path was listable, and the manifest (both in the
      file and as written) is the descriptor, the bootstrap archive's name and one line per
      entry, module path by module path: module path j's entries, in listing order, follow
      those of the module paths before it. */
  lemma SuccessfulManifest(fs: FileSystem, writer: seq<string>, log: seq<Effect>,
                           listings: map<Path, seq<string>>, conf: PackagerConf, boot: Bootstrap)
    requires boot.jarLocation != []
    requires Packaging(fs, writer, log, true, listings, conf, boot).failure.None?
    ensures var s := Packaging(fs, writer, log, true, listings, conf, boot);
            var dirs, lines := ModulePaths(conf), ManifestLines(conf, boot, listings);
            s.writer == lines
            && (forall i :: 0 <= i < |dirs| ==> dirs[i] in listings)
            && |lines| == 2 + Manifest.EntryCount(dirs, listings)
            && lines[0] == Manifest.Descriptor && lines[1] == JarName(boot)
            && forall j :: 0 <= j < |dirs| ==>
                 lines == Manifest.Lines(JarName(boot), Manifest.ListAll(dirs[..j], listings).names)
                          + listings[dirs[j]] + Manifest.ListAll(dirs[j + 1..], listings).names
                 && |Manifest.ListAll(dirs[..j], listings).names| == Manifest.EntryCount(dirs[..j], listings)
  {
    StagingManifest(State(fs, writer, log, None), listings, conf, boot);
    Manifest.LinesLayout(JarName(boot), ModulePaths(conf), listings);
  }

  /** A successful staging writes the manifest lines, and so every module path was listable. */
  lemma StagingManifest(s: State, listings: map<Path, seq<string>>, conf: PackagerConf, boot: Bootstrap)
    requires boot.jarLocation != []
    requires s.failure.None? && Staging(s, listings, conf, boot).failure.None?
    ensures Staging(s, listings, conf, boot).writer == ManifestLines(conf, boot, listings)
    ensures forall i :: 0 <= i < |ModulePaths(conf)| ==> ModulePaths(conf)[i] in listings
  {
    var fs1, fs2a, fs2, fs3 := StagingSteps(s, listings, conf, boot);
  }

  /** A module path that cannot be listed ends the manifest: the writer is still closed, the
      file holding the lines written up to that module path, and the step fails with an I/O
      failure naming it. */
  lemma ManifestStopsAtUnlisted(s: State, file: Path, jarName: string, dirs: seq<Path>,
                                listings: map<Path, seq<string>>, k: nat)
    requires s.failure.None? && NewTextFile(s.fs, file).Ok?
    requires k < |dirs| && dirs[k] !in listings
    requires forall i :: 0 <= i < k ==> dirs[i] in listings
    ensures var t := WriteManifest(s, file, jarName, dirs, listings);
            t.failure == Some(IOFailure(dirs[k]))
            && t.writer == Manifest.Lines(jarName, Manifest.ListAll(dirs[..k], listings).names)
            && file in t.fs && t.fs[file] == RegularFile(Text(t.writer))
            && t.log == s.log + [Opened(file), Closed(file)]
  {
    assert dirs[..k] + dirs[k..] == dirs;
    assert forall i :: 0 <= i < |dirs[..k]| ==> dirs[..k][i] in listings;
    Manifest.ListAllAppend(dirs[..k], dirs[k..], listings);
    assert dirs[k..][0] == dirs[k];
  }
}
