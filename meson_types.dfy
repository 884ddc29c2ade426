/** The records of Meson's introspection output that the extension consumes
    (`src/meson/types.ts`). Absent optional keys are `None`. */
module MesonTypes {
  import opened Seqs
  import opened Paths

  /** The closed set of target kinds. */
  datatype TargetType = Executable | StaticLibrary | SharedLibrary | SharedModule | Custom | Run | Jar

  /** The string Meson writes for each kind; only executables are written "executable". */
  function TypeName(t: TargetType): (r: string)
    ensures r == "executable" <==> t == Executable
  {
    match t
    case Executable => "executable"
    case StaticLibrary => "static library"
    case SharedLibrary => "shared library"
    case SharedModule => "shared module"
    case Custom => "custom"
    case Run => "run"
    case Jar => "jar"
  }

  /** One source group of a target. */
  datatype TargetSource = TargetSource(
    language: string,
    compiler: seq<string>,
    parameters: seq<string>,
    sources: seq<Path>,
    generatedSources: seq<Path>)

  /** A target's `filename` key: a plain string in the old introspection format, a list of
      paths otherwise. */
  datatype FileNames = OneFile(path: Path) | FileList(paths: seq<Path>)

  datatype Target = Target(
    name: string,
    id: string,
    targetType: TargetType,
    definedIn: Path,
    extraFiles: Option<seq<Path>>,
    subproject: Option<string>,      // None is JSON null: the target belongs to the root
    filename: FileNames,
    buildByDefault: bool,
    targetSources: Option<seq<TargetSource>>,
    installed: bool,
    installFilename: Option<Path>)

  datatype Test = Test(
    name: string,
    workdir: Option<Path>,
    timeout: string,
    suite: seq<string>,
    isParallel: bool,
    cmd: seq<string>,
    env: map<string, string>,
    priority: Option<int>,
    depends: Option<seq<string>>)

  /** `Subproject`: an entry of the project info's subproject list. */
  datatype Subproject = Subproject(name: string, version: string, descriptiveName: string)

  /** `ProjectInfo`. `name` is `None` when the key is absent. */
  datatype ProjectInfo = ProjectInfo(
    name: Option<string>,
    version: string,
    descriptiveName: string,
    subprojectDir: Path,
    subprojects: seq<Subproject>)
}
