# vscode-meson core, modelled in Dafny

This project models the data-transformation core of the vscode-meson extension, a Visual
Studio Code front end for the Meson build system. It also proves properties of that model.
The extension reads Meson's introspection output: targets, tests, benchmarks, build-system
files and the project info. It then:

- attributes these records to a tree of project models, one node per (sub)project;
- groups files and targets into directory nodes for the tree view;
- picks the children of the top-level tree nodes;
- post-processes the introspection records;
- tracks the progress of a ninja build from its output lines.

The model works at the level of values and in-place state:

- `Paths` (paths.dfy) models Node's `path.dirname`, `basename`, `join` and `relative`
  over segment sequences.
- `MesonTypes` (meson_types.dfy) holds the introspection records of `src/meson/types.ts`.
- `ProjectRules` (project_rules.dfy) states the attribution rules of `resolveBuildFile`
  and `resolve`. The target rule is a parameter: src/project.ts compares directories, and
  src/codemodel.ts compares the declaring file with the build file.
- `ProjectWalk` (project_walk.dfy) is the pre-order `walkProject`.
- `ProjectModels` (project_models.dfy) holds the classes `ProjectModel`,
  `ProjectStructure` and `CodeModel`. Their methods assign the node's fields in place,
  and they create and resolve one fresh child per declared subproject.
- `FileTrees` (file_tree.dfy) models `buildFileTree` as a method with the source's `for`
  and `while` loops over an insertion-ordered map (kept as a key sequence plus a map). It
  also models `getChildren` and `FileNode.create`.
- `TargetNodes` (target_nodes.dfy) and `TopLevelNodes` (toplevel_nodes.dfy) model the tree
  nodes.
- `Introspection` (introspection.dfy) models the cache-first `introspect`,
  `getMesonVersion`, `getMesonTargets` and `getMesonExecutables`.
- `Runners` (runners.dfy) models the build-progress tracker of `runMesonBuild` as a class
  whose `OnLine` method updates `oldPercentage`. It also models target-name and
  target-path resolution, and the command choice of `runMesonTests` and `runMesonTarget`.

Some inputs are parameters of the model rather than modelled code:

- `resolveSymlinkPath`, `getTargetName` and `hash` (src/utils, which is not part of this
  model) are uninterpreted function parameters.
- Reading the cache file and running Meson are function parameters too.
- The workspace root, the active target, and the results of `getMesonTargets` and
  `getMesonTests` are passed in as values.

## Model

| member | source | states |
|---|---|---|
| `ProjectRules.BuildFileOf` | src/project.ts:74-84 | A resolved build file lies directly in the node's source directory: `dirname(buildFile) == sourceDir`. |
| `ProjectRules.BuildFileIsFirstMatch` | src/project.ts:76-83 | Resolution fails exactly when no build-system file resolves into the source directory. Otherwise the build file is the resolved form of the first file, in snapshot order, that does. |
| `ProjectRules.ResolveOwnFails` | src/project.ts:80-82 | A node's own resolution fails exactly when no build-system file matches, and the error is "Failed to resolve build file for project <name>". |
| `ProjectRules.ResolveOwnLists` | src/project.ts:88-99 | After a successful resolution, `targets`, `tests` and `benchmarks` are exactly the snapshot entries that pass the rule's filter, in snapshot order. For tests and benchmarks the filter is the node's name being among the suites. |
| `ProjectRules.ResolveOwnCounts` | src/project.ts:88-99 | Each of the three lists holds every accepted entry as many times as the snapshot has it, and no rejected entry. |
| `Seqs.FilterCounts` | src/project.ts:88-99 | `Array.prototype.filter`, as used throughout the extension, keeps every copy of an accepted element and no copy of a rejected one. |
| `ProjectRules.SameDirectoryMeansSourceDir` | src/project.ts:90-92 | Under the src/project.ts rule, a target belongs to the node iff its `defined_in` lies in the source directory or its subproject is the node's name. |
| `ProjectRules.SameFileWithinSameDirectory` | src/codemodel.ts:92-94 | Under the src/codemodel.ts rule (whole-file equality), a node's targets are a subsequence of those the src/project.ts rule gives. |
| `ProjectRules.ChildDirShape` | src/project.ts:116-117 | `join(parentDir, subproject_dir, name)` is the parent directory, then the subproject directory, then the name. Its dirname is `join(parentDir, subproject_dir)` and its basename is the name. |
| `ProjectModels.FallbackName` | src/project.ts:123-125 | The name is the copied name when that is not empty, and otherwise the descriptive name. It is empty only if both are. |
| `ProjectModels.NewModels` | src/project.ts:102-106 | One fresh, unresolved model per declared subproject, in order, each carrying the descriptor's name, version and descriptive name. |
| `ProjectModels.ProjectModel.CopyInfo` | src/project.ts:12-19 | `ifCpy(info, this)` overwrites exactly the keys the project info carries (name only when present) and leaves every other field unchanged. |
| `ProjectModels.ProjectModel.Resolve` | src/project.ts:86-112 | On a failed build-file resolution: the error, `buildFile` undefined, and nothing else changed. On success: the node holds its own lists, and declared subprojects are replaced by fresh models, each resolved as a child. The error reported is the first failing child's. |
| `ProjectModels.ProjectModel.ResolveSubprojects` | src/project.ts:101-111 | The declared subprojects are replaced by fresh models, one per descriptor and in order, each updated as a child. The node's own fields are unchanged, and the result is the first child error. |
| `ProjectModels.ProjectModel.SubUpdateChild` | src/project.ts:108-110 | Updating one child changes that child only. The child ends up done, and the step reports that child's resolution error, if any. |
| `ProjectModels.ProjectModel.SubUpdateAll` | src/project.ts:108-110 | Every child is updated from this node (parent, both directories, its own resolution), and the result is the first child error in order. |
| `ProjectModels.ProjectModel.SubUpdate` | src/project.ts:114-119 | A child's parent is set, and its source and build directories are `join(parentDir, subproject_dir, name)`. It then holds its own resolution or reports that resolution's error. |
| `ProjectModels.ProjectModel.Update` | src/project.ts:121-129 | Copies the project info, falls back to the descriptive name, sets both directories to the arguments, then resolves. The whole new state is stated for both outcomes (`UpdatedBy`). On failure, the declared subprojects and the old lists stay. On success, the node holds its lists and one fresh resolved model per subproject, with the first child error. |
| `ProjectModels.ProjectModel.AllTargets` | src/project.ts:143-147 | `allTargets` is defined exactly when every node of the pre-order walk has its list. It is then the concatenation of the nodes' lists in pre-order, and it begins with the node's own targets. |
| `ProjectModels.ProjectModel.AllTests` | src/project.ts:149-153 | The same for `allTests`. |
| `ProjectModels.ProjectModel.AllBenchmarks` | src/project.ts:155-159 | The same for `allBenchmarks`. |
| `ProjectModels.ProjectModel.UpdatedTreeWalks` | src/project.ts:131-159 | After a successful update, the three aggregates exist exactly when no subproject failed to resolve. |
| `ProjectModels.ProjectModel.ChildListsIffOk` | src/project.ts:108-118 | A resolved child holds its lists exactly when its own resolution succeeded. |
| `ProjectModels.Attribution` | src/project.ts:74-99 | The resolution a snapshot defines fails for a directory exactly when no build-system file resolves into it. |
| `ProjectModels.ProjectStructure.Update` | src/project.ts:179-182 | Stores the snapshot. The root ends in the same full state as after `ProjectModel.Update` with the src/project.ts rule: copied info, name fallback, `subprojectDir` from the snapshot, parent kept; old lists and declared subprojects on failure; fresh resolved children on success. |
| `ProjectModels.ProjectStructure.Targets` | src/project.ts:167-169 | The structure's targets are the root's pre-order aggregate. |
| `ProjectModels.ProjectStructure.Tests` | src/project.ts:171-173 | The structure's tests are the root's pre-order aggregate. |
| `ProjectModels.ProjectStructure.Benchmarks` | src/project.ts:175-177 | The structure's benchmarks are the root's pre-order aggregate. |
| `ProjectModels.CodeModel.Update` | src/codemodel.ts:139-142 | Stores the snapshot. The root ends in the same full state as after `ProjectModel.Update` with the src/codemodel.ts rule (whole-file equality), in both outcomes. |
| `ProjectWalk.WalkIsPreorder` | src/project.ts:131-141 | `walkProject` succeeds exactly when every node in pre-order has its list and no descriptor is left unresolved. It then returns the flattening of the nodes' lists in pre-order. |
| `ProjectWalk.WalkLength` | src/project.ts:131-141 | The aggregate's length is the sum of the nodes' list lengths, and the aggregate starts with the node's own list. |
| `FileTrees.BuildFileTree` | src/treeview/nodes/base.ts:66-86 | The map's keys, in insertion order, are "." followed by each new bucket key at its first item. Each bucket holds exactly the items filed under its key, in input order. |
| `FileTrees.FileItem` | src/treeview/nodes/base.ts:69-83 | One loop step: the item is appended to the bucket of its key, and the key is added at the end if it was new. |
| `FileTrees.TopFolder` | src/treeview/nodes/base.ts:75-76 | The inner `while` loop stops at the first segment of the relative path. |
| `FileTrees.KeyOrderDistinct` | src/treeview/nodes/base.ts:67-68 | The keys are distinct and "." is the first, even for an empty input. |
| `FileTrees.KeyOrderCovers` | src/treeview/nodes/base.ts:69-83 | The key of every item is a key of the map. |
| `FileTrees.KeySource` | src/treeview/nodes/base.ts:77-82 | Every key other than "." is the key of an earlier item. |
| `FileTrees.EveryItemInOneBucket` | src/treeview/nodes/base.ts:69-83 | Bucket sizes sum to the number of items, and every item lies in the bucket of its key. |
| `FileTrees.BucketsPartition` | src/treeview/nodes/base.ts:69-83 | Over distinct keys that cover every item, the bucket sizes sum to the number of items. |
| `FileTrees.KeyIsTopFolder` | src/treeview/nodes/base.ts:70-82 | A path directly in the folder goes to ".". A deeper path goes to `join(folder, first segment)`. |
| `FileTrees.ChildrenShape` | src/treeview/nodes/base.ts:56-64 | The children are the "." bucket's items as leaves, in order, then one directory node per other key, in key order. |
| `FileTrees.DirectoryNode.constructor` | src/treeview/nodes/base.ts:33-41 | The node keeps its folder and items, and its grouping is the one `buildFileTree` computes. |
| `FileTrees.DirectoryNode.GetChildren` | src/treeview/nodes/targets.ts:26-33 | For a well-formed grouping, the children are the direct items as leaves, then the sub-folders as directory nodes. |
| `FileTrees.CreatedNodeOpensPath` | src/treeview/nodes/base.ts:13-19 | The file leaf `FileNode.create(p)` opens `join(dirname(p), basename(p))`, which is `p` itself. |
| `TargetNodes.TargetDirectoryItem` | src/treeview/nodes/targets.ts:12-24 | The item is collapsed. The "." folder is labelled "Targets" with the Meson icon; any other folder keeps its base name. |
| `TargetNodes.NeverOpenFolderIcon` | src/treeview/nodes/targets.ts:18-21 | The base item is collapsed when the icon is chosen, so a sub-folder always gets the closed-folder icon. |
| `TargetNodes.TargetChildren` | src/treeview/nodes/targets.ts:68-85 | No children without `target_sources`. Otherwise: the defining file relative to the project root, the collected sources under the defining file's directory, and `undefined` in third place. |
| `TargetNodes.SourceListMembership` | src/treeview/nodes/targets.ts:73-76 | A path is among the collected sources exactly when some group lists it as a source or as a generated source. |
| `TargetNodes.SourceListLength` | src/treeview/nodes/targets.ts:73-76 | The collected list is as long as all groups' sources and generated sources together. |
| `TargetNodes.DefinitionFileOpensDefinedIn` | src/treeview/nodes/targets.ts:78 | `join(root, relative(root, defined_in))` is `defined_in`, for normal paths of the root's kind. |
| `TargetNodes.IconPathClasses` | src/treeview/nodes/targets.ts:101-115 | Each icon stands for exactly its kinds: executable/run, jar, the three library kinds, and custom. |
| `TargetNodes.ContextValueRunFlag` | src/treeview/nodes/targets.ts:91-97 | Two context values are equal iff both or neither target is an executable. `canRun=true` occurs exactly for executables, and run targets show the executable icon without the run flag. |
| `MesonTypes.TypeName` | src/meson/types.ts:4-11 | Only the executable kind is written "executable". |
| `TopLevelNodes.ProjectName` | src/treeview/nodes/toplevel.ts:10-16 | The label begins with the descriptive name. |
| `TopLevelNodes.ProjectNameShowsVersion` | src/treeview/nodes/toplevel.ts:10-16 | An "undefined" version gives the descriptive name alone. Any two real versions give equal labels iff they are equal. |
| `TopLevelNodes.ProjectChildren` | src/treeview/nodes/toplevel.ts:34-43 | Exactly three children, in order: the subprojects root, the "." target directory, and the tests root. |
| `TopLevelNodes.RootDirectoryTargets` | src/treeview/nodes/toplevel.ts:39 | The "." directory holds exactly the targets with a falsy `subproject`, every copy of them, in their order. |
| `TopLevelNodes.SubprojectChildren` | src/treeview/nodes/toplevel.ts:122-126 | One target node per target recorded under the subproject's name, in order. |
| `TopLevelNodes.SubprojectTargets` | src/treeview/nodes/toplevel.ts:122-126 | A target is shown under a subproject iff its `subproject` is that name. A subproject with a non-empty name shows no root target. |
| `TopLevelNodes.SubprojectsRootChildren` | src/treeview/nodes/toplevel.ts:65-67 | One subproject node per subproject, in order. |
| `TopLevelNodes.TargetsRootChildren` | src/treeview/nodes/toplevel.ts:83-85 | One target node per target, in order. |
| `TopLevelNodes.TestRootChildren` | src/treeview/nodes/toplevel.ts:102-104 | One test node per test, in order. |
| `TopLevelNodes.RootIdsSeeOnlyKeys` | src/treeview/nodes/toplevel.ts:51-53 | Lists whose elements have the same keys, in order, give the same root id. |
| `TopLevelNodes.TargetKeyOfNullSubproject` | src/treeview/nodes/toplevel.ts:72 | A root target and a target of a subproject named "null" have the same key, so the id does not tell them apart. |
| `Introspection.Introspect` | src/meson/introspection.ts:16-26 | A present cache file `meson-info/intro-<kind>.json` is returned. Only otherwise is `<mesonPath> introspect --<kind>` run in the build directory. |
| `Introspection.CachePathShape` | src/meson/introspection.ts:17-19 | The cache file lies in `<build>/meson-info` and is named `intro-<kind>.json`. |
| `Introspection.TrimSurrounding` | src/meson/introspection.ts:86 | `trim` removes exactly the surrounding white space. |
| `Introspection.MatchVersionOf` | src/meson/introspection.ts:14 | The pattern matches every text that starts with three dot-separated numerals not followed by a digit, and takes exactly those numerals. |
| `Introspection.MatchVersionShape` | src/meson/introspection.ts:14 | Whatever the pattern matches is a version at the start of the text: three numerals joined by dots, with no digit after the last. |
| `Introspection.MatchVersionIff` | src/meson/introspection.ts:14 | The pattern matches a text exactly when it starts with three numerals joined by dots and not followed by a digit. |
| `Introspection.VersionAcceptance` | src/meson/introspection.ts:86-96 | Both readings of `getMesonVersion` fail exactly when the trimmed output does not start with three numerals joined by dots and not followed by a digit. In both readings the error message ends with the trimmed output. |
| `Introspection.VersionIgnoresWhitespace` | src/meson/introspection.ts:86 | Surrounding white space does not change the outcome, as written or corrected. |
| `Introspection.ParseMesonVersionRoundTrip` | src/meson/introspection.ts:84-92 | Corrected reading: printing a version as `major.minor.patch`, followed by any text that does not start with a digit, parses back to that version. |
| `Introspection.VersionAsWrittenIsEmpty` | src/meson/introspection.ts:87-92 | As written, every accepted version is the empty list. |
| `Introspection.VersionSliceCounterexample` | src/meson/introspection.ts:86-92 | For output "0.55.3\n", the code as written returns `[]`; the corrected reading returns 0.55.3. |
| `Introspection.OldFormatCounterexample` | src/meson/introspection.ts:31 | As written, the old-format check never holds, while Meson 0.49.0 is of the old format. Meson 1.2.0 is not of the old format. |
| `Introspection.NormalizeOld` | src/meson/introspection.ts:32-35 | A string `filename` becomes a one-element list. A list is left unchanged, and nothing else changes. |
| `Introspection.AdaptKeepsBasename` | src/meson/introspection.ts:38-42 | `adapt` keeps the basename and moves the file to its symlink-resolved directory. |
| `Introspection.AdaptTargetChanges` | src/meson/introspection.ts:43-52 | Rewriting fails exactly when `extra_files` or `target_sources` is missing or `filename` is a string. Otherwise only `defined_in` and the `filename` entries change, each keeping its basename, and `extra_files`/`target_sources` are unchanged. |
| `Introspection.RewriteTargets` | src/meson/introspection.ts:43-53 | The rewrite fails with the first target's error. Otherwise it keeps the number and order of targets, each rewritten. |
| `Introspection.GetMesonTargets` | src/meson/introspection.ts:28-54 | Old-format records are normalised one by one. Newer ones are rewritten, with the first error reported. |
| `Introspection.Executables` | src/meson/introspection.ts:56-58 | Exactly the targets of type "executable", every copy of them, in their order. |
| `Runners.ProgressPartsShape` | src/meson/runners.ts:114 | A recognised line is `[<digits>/<digits>] ` followed by the rest of the line. |
| `Runners.ProgressLineOf` | src/meson/runners.ts:114-116 | Every line of that form is recognised, with the two numbers and the text up to the first line terminator. |
| `Runners.PlainLineIsNotProgress` | src/meson/runners.ts:114 | A line that does not start with "[" is not a progress line. |
| `Runners.LineText` | src/meson/runners.ts:114 | `(.*)` takes the longest prefix without a line terminator. |
| `Runners.StepReport` | src/meson/runners.ts:115-119 | At most one report per line. It is made exactly for a recognised line whose percentage exceeds the previous one, and its increment is the positive difference. |
| `Runners.ProgressTracker.OnLine` | src/meson/runners.ts:113-123 | After a recognised line the remembered percentage is `100*done/total`, even when nothing is reported; otherwise it is unchanged. The step's report is appended, the line is forwarded to the output, and the output is shown on an error line. |
| `Runners.ProgressTracker.constructor` | src/meson/runners.ts:112 | The remembered percentage starts at 0, with no reports and no output. |
| `Runners.ReportsArePositive` | src/meson/runners.ts:117-119 | Over any sequence of lines, every reported increment is strictly positive, and there are at most as many reports as lines. |
| `Runners.RisingReportsSum` | src/meson/runners.ts:116-119 | When the percentage never falls, the reported increments add up to the last percentage. |
| `Runners.BuildOutcome` | src/meson/runners.ts:125-130 | The build is an error exactly when the exit code is not 0. |
| `Runners.ResolveTargetNameCases` | src/meson/runners.ts:81-95 | `null` exactly with no target, no active target and "all" not accepted. `undefined` exactly for a plain target record. Otherwise the name of the node's target, of the active target, or "all". |
| `Runners.BuildCommandCases` | src/meson/runners.ts:99-101 | With "all" accepted the name is never `null`: no target builds "all", while a plain target record builds "undefined". |
| `Runners.RunMesonTargetRuns` | src/meson/runners.ts:164-193 | A program runs exactly when the chosen target has an output file. It is then that target's first file, run in the build directory, and nothing runs without a target. |
| `Runners.RunMesonTestsChoice` | src/meson/runners.ts:139-156 | All tests run through `<ninja> test` exactly without an argument or for the tests root. Otherwise `<meson> test <name>` runs, unwrapping a test node first. |

## Left out

- `runMesonConfigure`, `runMesonReconfigure` and `debugMesonTarget` (src/meson/runners.ts) only prompt, run processes and start a debug session. That is I/O and user interface, so only the target-path choice they share with `runMesonTarget` is modelled.
- The `catch` handlers of `runMesonTests` and `runMesonTarget` only show error messages, so they are not modelled.
- The final "Build finished." report, the five-second delay, cancellation, and the `withProgress` notification are not modelled.
- Process execution, JSON parsing, the file system and the VS Code API are not modelled. Their results are parameters: the cache reader and the tool runner of `Introspect`, the records given to `GetMesonTargets`, and the resolver, namer and hash functions.
- `MetaData.create` and the subproject updates run concurrently under `Promise.all`. The model runs them in order and reports the first error in that order. A concurrent run could report another child's error first.
- The ids built from `randomString` are deliberately non-deterministic and are not modelled.
- `Runners.ProgressTracker.OnLine` requires a positive total. In JavaScript a total of 0 divides by zero (Infinity or NaN), which the model does not capture. Percentages are real numbers, not floating point.
- `Runners.ProgressTracker.OnLine` models `getOutputChannel().show(true)` as a `shown` flag.
- `Introspection.IsSpace` recognises the common white-space characters that `trim` removes. Other Unicode space separators are not modelled.
- `Introspection.DigitsValue` is exact. `Number.parseInt` loses precision beyond 2^53, which the model does not capture.
- `Runners.ResolveTargetPath` requires `filename` to be a list, as introspection delivers it after `getMesonTargets`. A string `filename` would be indexed character by character in JavaScript.
- Paths are segment sequences. The empty string, which JavaScript treats as a false path (`!buildFile`, `!targetPath`), and paths that are not normalised are outside the model.
- `Paths.Relative` resolves a mix of absolute and relative paths against "/", because the process working directory is not modelled.
- `ifCpy` copies every key present in the JSON record. The model copies the keys `ProjectInfo` declares (`name`, `version`, `descriptive_name`, `subproject_dir`, `subprojects`).
- A resolved subproject model is created from a descriptor, which has no `subprojects` key, so the model's project tree has at most two levels. This follows the source.
- src/treeview/nodes/sources.ts, tests.ts, src/extension.ts, src/status.ts and src/prompts.ts are user-interface code and are not part of this model.

## Findings

| source | as written | input that shows it | evidently intended | confidence | as-written member | corrected member |
|---|---|---|---|---|---|---|
| src/meson/introspection.ts:14, 86-92 | The regular expression carries the `/g` flag, so `match` returns the whole matches, not the groups. `match.slice(1, 3)` is therefore `[]`. | `meson --version` prints "0.55.3\n" | The three numbers 0, 55 and 3 | high (not executed) | `Introspection.VersionSliceCounterexample` | `Introspection.ParseMesonVersionRoundTrip` |
| src/meson/introspection.ts:31 | `getMesonVersion()` is not awaited, so `[1]` indexes a Promise and gives `undefined`. `undefined < 50` is false, so the old-format branch never runs. | Meson 0.49.0, whose targets carry a string `filename` | Take the old-format branch for versions before 0.50. The index `[1]` reads only the minor number, so the corrected check also requires major 0: otherwise Meson 1.0 to 1.49 would count as old. | high (not executed) | `Introspection.OldFormatCounterexample` | `Introspection.GetMesonTargets` |
