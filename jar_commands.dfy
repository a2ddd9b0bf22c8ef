/** The argument vectors handed to the `jar` tool: one `--create` over the staging directory,
    then one `--update` per module path, all on the same output archive. */
module JarCommands {
  import opened Paths

  /** The output archive's file name inside the configured uber directory. */
  const UberJarName := "uber.jar"

  /** `jar --create --file <archive> --main-class <class> -C <staging> .` */
  function CreateCommand(uberJar: Path, mainClass: string, exploded: Path): seq<string> {
    ["--create", "--file", PathString(uberJar), "--main-class", mainClass, "-C", PathString(exploded), "."]
  }

  /** `jar --update --file <archive> -C <module path> .` */
  function UpdateCommand(uberJar: Path, dir: Path): seq<string> {
    ["--update", "--file", PathString(uberJar), "-C", PathString(dir), "."]
  }

  /** One update per module path, in order. */
  function UpdateCommands(uberJar: Path, dirs: seq<Path>): (r: seq<seq<string>>)
    ensures |r| == |dirs|
    ensures forall i :: 0 <= i < |dirs| ==> r[i] == UpdateCommand(uberJar, dirs[i])
    decreases |dirs|
  {
    if dirs == [] then []
    else UpdateCommands(uberJar, dirs[..|dirs| - 1]) + [UpdateCommand(uberJar, dirs[|dirs| - 1])]
  }

  /** Every jar run of a packaging run, in order. */
  function CommandLines(uberJar: Path, mainClass: string, exploded: Path, dirs: seq<Path>): seq<seq<string>> {
    [CreateCommand(uberJar, mainClass, exploded)] + UpdateCommands(uberJar, dirs)
  }

  /** For paths made of valid name elements, the `--file` and `-C` arguments of both commands
      parse back to the archive, the staging directory and the module path they were made from. */
  lemma ArgumentsNamePaths(uberJar: Path, mainClass: string, exploded: Path, dir: Path)
    requires ValidPath(uberJar) && ValidPath(exploded) && ValidPath(dir)
    ensures var c := CreateCommand(uberJar, mainClass, exploded);
            SplitPath(c[2]) == uberJar && SplitPath(c[6]) == exploded
    ensures var u := UpdateCommand(uberJar, dir);
            SplitPath(u[2]) == uberJar && SplitPath(u[4]) == dir
  {
    PathStringRoundTrip(uberJar);
    PathStringRoundTrip(exploded);
    PathStringRoundTrip(dir);
  }

  /** The create command comes first, then the update of each module path in order. */
  lemma CommandLinesAt(uberJar: Path, mainClass: string, exploded: Path, dirs: seq<Path>)
    ensures var cmds := CommandLines(uberJar, mainClass, exploded, dirs);
            |cmds| == 1 + |dirs| && cmds[0] == CreateCommand(uberJar, mainClass, exploded)
            && forall i :: 0 <= i < |dirs| ==> cmds[i + 1] == UpdateCommand(uberJar, dirs[i])
  {
    var cmds := CommandLines(uberJar, mainClass, exploded, dirs);
    forall i | 0 <= i < |dirs| ensures cmds[i + 1] == UpdateCommand(uberJar, dirs[i]) {
      assert cmds[i + 1] == UpdateCommands(uberJar, dirs)[i];
    }
  }

  /** The create command's options, by position. */
  lemma CreateCommandShape(uberJar: Path, mainClass: string, exploded: Path)
    ensures var c := CreateCommand(uberJar, mainClass, exploded);
            |c| >= 6 && c[1..3] == ["--file", PathString(uberJar)]
            && c[0] == "--create" && c[3..5] == ["--main-class", mainClass]
            && c[5..] == ["-C", PathString(exploded), "."]
  {
  }

  /** An update command's options, by position. */
  lemma UpdateCommandShape(uberJar: Path, dir: Path)
    ensures var c := UpdateCommand(uberJar, dir);
            |c| >= 6 && c[1..3] == ["--file", PathString(uberJar)]
            && c[0] == "--update" && c[3..] == ["-C", PathString(dir), "."]
  {
  }

  /** The jar tool runs once more than there are module paths, all on the same archive: first a
      create whose root is the staging directory, then an update rooted at each module path in
      order. */
  lemma CommandLinesShape(uberJar: Path, mainClass: string, exploded: Path, dirs: seq<Path>)
    ensures var cmds := CommandLines(uberJar, mainClass, exploded, dirs);
            |cmds| == 1 + |dirs|
            && (forall i :: 0 <= i < |cmds| ==> |cmds[i]| >= 6 && cmds[i][1..3] == ["--file", PathString(uberJar)])
            && cmds[0][0] == "--create" && cmds[0][3..5] == ["--main-class", mainClass]
            && cmds[0][5..] == ["-C", PathString(exploded), "."]
            && forall i :: 0 <= i < |dirs| ==>
                 cmds[i + 1][0] == "--update" && cmds[i + 1][3..] == ["-C", PathString(dirs[i]), "."]
  {
    var cmds := CommandLines(uberJar, mainClass, exploded, dirs);
    CommandLinesAt(uberJar, mainClass, exploded, dirs);
    CreateCommandShape(uberJar, mainClass, exploded);
    forall i | 0 <= i < |dirs|
      ensures |cmds[i + 1]| >= 6 && cmds[i + 1][1..3] == ["--file", PathString(uberJar)]
      ensures cmds[i + 1][0] == "--update" && cmds[i + 1][3..] == ["-C", PathString(dirs[i]), "."]
    {
      UpdateCommandShape(uberJar, dirs[i]);
    }
    forall i | 0 <= i < |cmds| ensures |cmds[i]| >= 6 && cmds[i][1..3] == ["--file", PathString(uberJar)] {
      if i > 0 {
        assert i == (i - 1) + 1;
      }
    }
  }
}
