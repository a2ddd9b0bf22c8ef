# Uber-jar packager, modelled in Dafny

This project models the `execute` operation of the `uberpackager` plugin of the `pro` build tool. `execute` assembles a single executable "uber" jar in six steps:

1. It looks up the `jar` tool.
2. It empties the staging ("exploded") directory and recreates it.
3. It copies the two bootstrap class files of `com.github.forax.pro.ubermain.Main` into the staging directory, each below its package directories, and copies the archive holding the bootstrap module into the staging root.
4. It writes `modules.txt`: the launcher descriptor, the bootstrap archive's bare name, then the name of every entry of every module path, module path by module path.
5. It runs `jar --create` over the staging directory.
6. It runs `jar --update` once per module path, in order, and returns 0.

Modules:

- `Results`: `Option`, `Result` and the run's failures.
  - `ToolMissing`: the `jar` tool is not found.
  - `IOFailure(path)`: a file-system call throws an `IOException`.
  - `NullPointer`: `getParent()` returns `null`.
- `Paths`: relative paths as sequences of name elements.
  - `toString`, `resolve` and `String.replace`.
  - The class-file names derived from a binary class name.
- `FileSystem`: the file system as a map from paths to entries, and the `Files` calls the run makes.
  - The calls are `FileHelper.deleteAllFiles`, `createDirectories`, `copy` and `newBufferedWriter`, plus closing the writer.
  - Each is a pure function that returns the new file system or the failure.
- `Manifest`: the lines of `modules.txt`, and what listing the module paths one after the other gives.
- `JarCommands`: the argument vectors given to the `jar` tool.
- `UberPackager`: the run itself.
  - A `World` class holds the file system, the writer's lines and a log of side effects. Its methods update them.
  - `Packaging` is a function that describes a whole run.
  - The imperative `Execute` and its step methods are proved to end in exactly the state `Packaging` and its steps describe.
- `PackagingProperties`: what a run guarantees, proved about `Packaging`.
  - the order of the side effects;
  - what ends up in the staging directory;
  - the manifest's lines;
  - the jar runs;
  - that outside the staging directory every entry is kept, and the only new entries are the directories on the way to it (the jar tool's own write of `uber.jar` is not modelled).

Three facts about the code shape the model:

- **Module paths.** The module-path list always starts with the artifact source path, so it is never empty (`ModulePaths`).
- **The staging directory.** Only the entries below the staging directory are deleted (`deleteAllFiles(dir, false)`), then the directory is created.
- **Two constants are kept as written.** The manifest's first line names `com.github.forax.pro.main/com.github.forax.pro.main.Main`. The `--main-class` given to the tool is the bootstrap class `com.github.forax.pro.ubermain.Main`. The model does not reconcile them.

## Model

Every row cites `UberPackagerPlugin.java`, the plugin's only core file.

| member | source | states |
|---|---|---|
| UberPackager.Execute | src/main/java/com.github.forax.pro.plugin.uberpackager/com/github/forax/pro/plugin/uberpackager/UberPackagerPlugin.java:59-133 | Execute leaves the world (file system, writer, log) in exactly the state `Packaging` gives for the starting world. It fails with exactly the failure `Packaging` reports. When it succeeds it returns 0, whatever exit codes the jar runs returned. The file system stays tree-shaped. |
| UberPackager.ResetStagingDirectory | src/main/java/com.github.forax.pro.plugin.uberpackager/com/github/forax/pro/plugin/uberpackager/UberPackagerPlugin.java:67-69 | The new state is the one `ResetStaging` describes. Every entry strictly below the staging directory is deleted, and then the staging directory and its ancestors are created. If a regular file is on the way, the call fails after the deletion. |
| UberPackager.CopyClasses | src/main/java/com.github.forax.pro.plugin.uberpackager/com/github/forax/pro/plugin/uberpackager/UberPackagerPlugin.java:76-81 | The loop ends in the state `CopyClassFiles` describes. Each class file's parent directories are created before the copy. The loop stops at the first failure: `NullPointer` when the resolved path has no parent, or the failing `createDirectories` or `copy`. |
| UberPackager.CopyJar | src/main/java/com.github.forax.pro.plugin.uberpackager/com/github/forax/pro/plugin/uberpackager/UberPackagerPlugin.java:83-85 | The new state is the one `CopyBootstrapJar` describes. The bootstrap archive is copied to the staging root under its bare file name. The copy fails if that name already exists there. |
| UberPackager.ModulePaths | src/main/java/com.github.forax.pro.plugin.uberpackager/com/github/forax/pro/plugin/uberpackager/UberPackagerPlugin.java:88-90 | The module paths are the artifact source path followed by the dependency paths in order. There is always at least one. |
| UberPackager.WriteNames | src/main/java/com.github.forax.pro.plugin.uberpackager/com/github/forax/pro/plugin/uberpackager/UberPackagerPlugin.java:99-103 | One line per listed entry, in listing order, and nothing else changes. |
| UberPackager.WriteEntries | src/main/java/com.github.forax.pro.plugin.uberpackager/com/github/forax/pro/plugin/uberpackager/UberPackagerPlugin.java:97-105 | The writer gains the names `Manifest.ListAll` lists. The loop returns the first module path that cannot be listed, if there is one. The file system and the log do not change. |
| UberPackager.WriteModulesFile | src/main/java/com.github.forax.pro.plugin.uberpackager/com/github/forax/pro/plugin/uberpackager/UberPackagerPlugin.java:92-106 | The new state is the one `WriteManifest` describes. The manifest is created or truncated and gets the descriptor, the jar name and the entries. The writer is closed, storing what it holds, also when listing fails. If the file cannot be opened, nothing changes. |
| UberPackager.RunJarTool | src/main/java/com.github.forax.pro.plugin.uberpackager/com/github/forax/pro/plugin/uberpackager/UberPackagerPlugin.java:108-130 | The log gains `JarRuns` of `JarCommands.CommandLines`, the step `RunJars` describes: the jar tool runs on the create command, then on one update command per module path, in order. Apart from the archive the jar tool writes, which the model leaves out, the file system and the writer do not change. |
| UberPackager.World.DeleteAllFiles | src/main/java/com.github.forax.pro.plugin.uberpackager/com/github/forax/pro/plugin/uberpackager/UberPackagerPlugin.java:68 | The file system becomes `DeleteContents` of the old one, and the log records the clearing. |
| UberPackager.World.MakeDirectories | src/main/java/com.github.forax.pro.plugin.uberpackager/com/github/forax/pro/plugin/uberpackager/UberPackagerPlugin.java:69-79 | Either the file system becomes `CreateDirectories` of the old one and the log records it, or the failure is returned and nothing changes. |
| UberPackager.World.Copy | src/main/java/com.github.forax.pro.plugin.uberpackager/com/github/forax/pro/plugin/uberpackager/UberPackagerPlugin.java:80-85 | Either the file system becomes `CopyFile` of the old one and the log records it, or the failure is returned and nothing changes. |
| UberPackager.World.OpenWriter | src/main/java/com.github.forax.pro.plugin.uberpackager/com/github/forax/pro/plugin/uberpackager/UberPackagerPlugin.java:92 | Either the file is created or truncated and the writer starts empty, or the failure is returned and nothing changes. |
| UberPackager.World.WriteLine | src/main/java/com.github.forax.pro.plugin.uberpackager/com/github/forax/pro/plugin/uberpackager/UberPackagerPlugin.java:93-96 | `write` followed by `newLine` appends one line to the writer. |
| UberPackager.World.CloseWriter | src/main/java/com.github.forax.pro.plugin.uberpackager/com/github/forax/pro/plugin/uberpackager/UberPackagerPlugin.java:106 | Closing stores the writer's lines in the manifest file, and the log records it. |
| UberPackager.World.List | src/main/java/com.github.forax.pro.plugin.uberpackager/com/github/forax/pro/plugin/uberpackager/UberPackagerPlugin.java:98 | `Files.list` gives a directory's entry names exactly when the directory is listable. |
| UberPackager.World.RunJar | src/main/java/com.github.forax.pro.plugin.uberpackager/com/github/forax/pro/plugin/uberpackager/UberPackagerPlugin.java:118-129 | A jar run is logged with its argument vector and returns the tool's exit code. |
| UberPackager.CopyClass | src/main/java/com.github.forax.pro.plugin.uberpackager/com/github/forax/pro/plugin/uberpackager/UberPackagerPlugin.java:78-80 | Copying one class file ends in the state `CopyClassFile` describes. A resolved path without a parent fails with `NullPointer` and changes nothing. Otherwise the parent directories are created, then the file is copied, and the first failing call ends the step. |
| UberPackager.CopyClassFilesStops | src/main/java/com.github.forax.pro.plugin.uberpackager/com/github/forax/pro/plugin/uberpackager/UberPackagerPlugin.java:77-81 | Once copying a class file fails, the remaining class files are not attempted: the state after the prefix is the final state. |
| FileSystem.DeleteContents | src/main/java/com.github.forax.pro.plugin.uberpackager/com/github/forax/pro/plugin/uberpackager/UberPackagerPlugin.java:68 | An entry survives exactly when it is not strictly below the directory, and it survives unchanged. A missing directory is no error. |
| FileSystem.CreateDirectories | src/main/java/com.github.forax.pro.plugin.uberpackager/com/github/forax/pro/plugin/uberpackager/UberPackagerPlugin.java:69-79 | The call succeeds exactly when no element on the way is a regular file. Every element becomes a directory, existing entries are kept, and nothing else is added. On failure it reports the path. |
| FileSystem.CopyFile | src/main/java/com.github.forax.pro.plugin.uberpackager/com/github/forax/pro/plugin/uberpackager/UberPackagerPlugin.java:80-85 | The copy succeeds exactly when the target does not exist and its parent is a directory. The target then holds the content and nothing else changes. |
| FileSystem.NewTextFile | src/main/java/com.github.forax.pro.plugin.uberpackager/com/github/forax/pro/plugin/uberpackager/UberPackagerPlugin.java:92 | The call succeeds exactly when the target is not a directory and its parent is one. The target becomes an empty text file, whether it was new or truncated. |
| FileSystem.DeleteContentsKeepsTree | src/main/java/com.github.forax.pro.plugin.uberpackager/com/github/forax/pro/plugin/uberpackager/UberPackagerPlugin.java:68 | Deleting what lies below a directory keeps the file system tree-shaped: every remaining entry still hangs below a directory. |
| FileSystem.CreateDirectoriesKeepsTree | src/main/java/com.github.forax.pro.plugin.uberpackager/com/github/forax/pro/plugin/uberpackager/UberPackagerPlugin.java:69-79 | A successful `createDirectories` keeps the file system tree-shaped. |
| FileSystem.NewFileKeepsTree | src/main/java/com.github.forax.pro.plugin.uberpackager/com/github/forax/pro/plugin/uberpackager/UberPackagerPlugin.java:80-106 | Storing a regular file in an existing directory, over anything but a directory, keeps the file system tree-shaped. |
| FileSystem.CreatedDirectories | src/main/java/com.github.forax.pro.plugin.uberpackager/com/github/forax/pro/plugin/uberpackager/UberPackagerPlugin.java:69-79 | After `createDirectories`, every element on the way is a directory, and every new entry is such an element. |
| Paths.ReplaceAt | src/main/java/com.github.forax.pro.plugin.uberpackager/com/github/forax/pro/plugin/uberpackager/UberPackagerPlugin.java:76 | `replace` changes exactly the characters equal to the old one, each into the new one, and keeps every other character. |
| Paths.SplitPathValid | src/main/java/com.github.forax.pro.plugin.uberpackager/com/github/forax/pro/plugin/uberpackager/UberPackagerPlugin.java:78 | Resolving a string adds only non-empty name elements without a separator. |
| Paths.SplitAppend | src/main/java/com.github.forax.pro.plugin.uberpackager/com/github/forax/pro/plugin/uberpackager/UberPackagerPlugin.java:76-78 | Appending a separator-free suffix to a string extends the last piece of its split and nothing else. |
| Paths.ClassFilePath | src/main/java/com.github.forax.pro.plugin.uberpackager/com/github/forax/pro/plugin/uberpackager/UberPackagerPlugin.java:76-78 | Replacing '.' by '/' in a binary class name, appending a suffix and resolving gives the package's directories followed by the simple name with the suffix. |
| Paths.PathStringRoundTrip | src/main/java/com.github.forax.pro.plugin.uberpackager/com/github/forax/pro/plugin/uberpackager/UberPackagerPlugin.java:110-124 | For any path made of valid name elements, parsing its `toString()` form gives back the same path. |
| Paths.JoinSplit | src/main/java/com.github.forax.pro.plugin.uberpackager/com/github/forax/pro/plugin/uberpackager/UberPackagerPlugin.java:110-124 | Joining the pieces of a split string gives the string back. |
| Paths.SplitJoin | src/main/java/com.github.forax.pro.plugin.uberpackager/com/github/forax/pro/plugin/uberpackager/UberPackagerPlugin.java:110-124 | Splitting a join of separator-free pieces gives the pieces back. |
| Manifest.ListAll | src/main/java/com.github.forax.pro.plugin.uberpackager/com/github/forax/pro/plugin/uberpackager/UberPackagerPlugin.java:97-105 | Listing stops at a module path exactly when one is not listable, and the path it names is such a module path. |
| Manifest.ListAllAppend | src/main/java/com.github.forax.pro.plugin.uberpackager/com/github/forax/pro/plugin/uberpackager/UberPackagerPlugin.java:97-105 | Listing two runs of module paths one after the other: the names of the first run come before those of the second. |
| Manifest.ListAllCount | src/main/java/com.github.forax.pro.plugin.uberpackager/com/github/forax/pro/plugin/uberpackager/UberPackagerPlugin.java:97-105 | When the module paths are all listable, one name is listed per entry. |
| Manifest.ListAllBlock | src/main/java/com.github.forax.pro.plugin.uberpackager/com/github/forax/pro/plugin/uberpackager/UberPackagerPlugin.java:97-105 | Module path j's entries, in listing order, come right after those of the module paths before it, and before those after it. |
| Manifest.LinesLayout | src/main/java/com.github.forax.pro.plugin.uberpackager/com/github/forax/pro/plugin/uberpackager/UberPackagerPlugin.java:92-105 | For fully listable module paths the manifest has the descriptor, then the archive name, then each module path's entries as one block after those before it. It has 2 + (entry count) lines. |
| JarCommands.UpdateCommands | src/main/java/com.github.forax.pro.plugin.uberpackager/com/github/forax/pro/plugin/uberpackager/UberPackagerPlugin.java:120-130 | There is one update command per module path, the i-th for the i-th module path. |
| JarCommands.ArgumentsNamePaths | src/main/java/com.github.forax.pro.plugin.uberpackager/com/github/forax/pro/plugin/uberpackager/UberPackagerPlugin.java:110-124 | When the archive path, the staging directory and a module path are made of valid name elements, the `--file` and `-C` arguments of the create and update commands parse back to exactly those paths. |
| JarCommands.CommandLinesAt | src/main/java/com.github.forax.pro.plugin.uberpackager/com/github/forax/pro/plugin/uberpackager/UberPackagerPlugin.java:108-130 | The jar runs are the create command followed by the update command of module path i at position i + 1, one per module path. |
| JarCommands.CommandLinesShape | src/main/java/com.github.forax.pro.plugin.uberpackager/com/github/forax/pro/plugin/uberpackager/UberPackagerPlugin.java:108-130 | There are 1 + (number of module paths) jar runs, all on `--file <uber.jar>`. The first is `--create` with `--main-class <class>` and `-C <staging> .`. Each later one is `--update` with `-C <module path i> .`, in order. |
| PackagingProperties.MissingToolChangesNothing | src/main/java/com.github.forax.pro.plugin.uberpackager/com/github/forax/pro/plugin/uberpackager/UberPackagerPlugin.java:63-64 | Without a jar tool the run fails with `ToolMissing` before anything is deleted, leaving the file system, the writer and the log as they were. |
| PackagingProperties.RunLog | src/main/java/com.github.forax.pro.plugin.uberpackager/com/github/forax/pro/plugin/uberpackager/UberPackagerPlugin.java:59-133 | The log of a run is the old log followed by a prefix of `Trace`, and by all of it if the run succeeds. A run that fails stops before the jar tool runs. |
| PackagingProperties.ResetComesFirst | src/main/java/com.github.forax.pro.plugin.uberpackager/com/github/forax/pro/plugin/uberpackager/UberPackagerPlugin.java:67-118 | The first effect of a run is clearing the staging directory, and every write comes after it is recreated. The jar tool runs only in a successful run, after the manifest is closed. |
| PackagingProperties.SuccessfulJarRuns | src/main/java/com.github.forax.pro.plugin.uberpackager/com/github/forax/pro/plugin/uberpackager/UberPackagerPlugin.java:108-130 | A successful run ends with 1 + (number of module paths) jar runs: the create command over the staging directory, then the update for module path i at position i + 1. |
| PackagingProperties.OutsideStagingUntouched | src/main/java/com.github.forax.pro.plugin.uberpackager/com/github/forax/pro/plugin/uberpackager/UberPackagerPlugin.java:67-106 | Outside the staging subtree every entry is kept as it was. The only new entries there are directories on the way to the staging directory. This holds whether the run fails or succeeds, apart from the archive the jar tool writes, which the model leaves out. |
| PackagingProperties.SuccessfulStaging | src/main/java/com.github.forax.pro.plugin.uberpackager/com/github/forax/pro/plugin/uberpackager/UberPackagerPlugin.java:67-106 | After a successful run the staging directory holds exactly the two class files with their package directories, the bootstrap archive under its bare name, and `modules.txt`. The manifest holds the run's lines, and each of the others holds its content. |
| PackagingProperties.StagedAsUnique | src/main/java/com.github.forax.pro.plugin.uberpackager/com/github/forax/pro/plugin/uberpackager/UberPackagerPlugin.java:67-106 | What a successful run leaves in the staging directory is determined entry by entry. |
| PackagingProperties.StagingReproducible | src/main/java/com.github.forax.pro.plugin.uberpackager/com/github/forax/pro/plugin/uberpackager/UberPackagerPlugin.java:67-106 | Two successful runs with the same configuration and listings leave the same staging subtree, whatever was there before. |
| PackagingProperties.ClassFilesAvoidManifest | src/main/java/com.github.forax.pro.plugin.uberpackager/com/github/forax/pro/plugin/uberpackager/UberPackagerPlugin.java:76-78 | For a well-formed class name, class file k sits in the staging directory at its package directories plus the simple name with `.class` or `$1.class`. It is never `modules.txt`. |
| PackagingProperties.SuccessfulManifest | src/main/java/com.github.forax.pro.plugin.uberpackager/com/github/forax/pro/plugin/uberpackager/UberPackagerPlugin.java:92-105 | After a successful run every module path was listable, and the manifest is laid out as follows. Line 0 is the descriptor and line 1 the bootstrap archive's bare name. Then comes one line per entry, so there are 2 + (entry count) lines in all. Module path j's entries come right after those of the module paths before it. |
| PackagingProperties.ManifestStopsAtUnlisted | src/main/java/com.github.forax.pro.plugin.uberpackager/com/github/forax/pro/plugin/uberpackager/UberPackagerPlugin.java:92-106 | Suppose the manifest can be opened and module path k is the first that cannot be listed. The manifest step then fails with an I/O failure naming it. The manifest is still closed, holding the lines written before module path k. |

## Left out

- Logging (lines 61, 117, 128) and the `out`/`err` streams passed to the jar tool: output only.
- Reading the `pro` configuration for the log level at line 60: `config.getOrThrow("pro", ProConf.class)` can throw before the tool lookup; the configuration is not modelled.
- Reflection (lines 71-75, 83): the bootstrap main class name and the archive location are the inputs `Bootstrap(mainClass, jarLocation)`.
  - `moduleReader.open(filename).get()` at line 80 and `location().get()` are assumed to find their resource.
  - The location is assumed to have a file name (`jarLocation != []`).
  - The class name is `com.github.forax.pro.ubermain.Main` in the code; the model keeps it a parameter.
- Closing the `ModuleReader` and the `Stream` from `Files.list`: they hold no modelled state.
- The jar tool's archive semantics: the model records each run's argument vector. It does not model the archive's contents or layering, or any change the tool makes to the file system. The exit codes are returned by `World.RunJar` and, as in the code, not looked at.
- Byte contents: a regular file records where its content came from (`ClassBytes`, `JarBytes`, `Text`).
- Absolute paths and file-system roots: paths are relative to the working directory, which always exists.
- `IOException`s from deleting, from `write` and from closing the writer, and failures other than those named in `FileSystem`: those calls are modelled as always succeeding.
- `FileHelper.deleteAllFiles`, `StableList` and `CmdLine`: their sources are not part of this model.
  - `deleteAllFiles` is modelled as removing every entry strictly below the directory.
  - The list is modelled as a sequence in append order.
  - The command line is modelled as its argument vector.
- The plugin's `name`, `init`, `configure` and `watch` methods and the convention configuration: configuration glue; `PackagerConf` holds the four values `execute` reads.
- `Files.list` order: each directory's entry order is an input (`World.listings`).
- PackagingProperties.OutsideStagingUntouched: speaks only of the packager's own file operations. The archive `uber.jar` that the jar tool creates or overwrites below the uber directory, normally outside the staging directory, is not modelled.
- UberPackager.RunJarTool: the file system is unchanged only because the jar tool's writes are not modelled.
- PackagingProperties.SuccessfulStaging: states the archive's and the class files' contents only when they are not the manifest path. A bootstrap archive named `modules.txt` is overwritten by the manifest, as in the code.
- PackagingProperties.ClassFilesAvoidManifest: assumes a well-formed binary class name (`ValidBinaryName`), which any Java class name is.
