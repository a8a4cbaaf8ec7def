/**
  Read-only snapshot of the build graph that the dependency-information
  writers consume, and the section values they produce.

  Every collaborator whose result the writers only pass along (object file
  paths, link implementation, link information, include directories) is a
  field of the snapshot; every string transformation they apply but do not
  define (path conversion, escaping, upper-casing) is a field of `Tools`.
 */
module BuildGraph {

  datatype Option<+T> = None | Some(value: T)

  /** The kinds a cmTarget can have; only the first six are buildable. */
  datatype TargetKind =
    | Executable
    | StaticLibrary
    | SharedLibrary
    | ModuleLibrary
    | ObjectLibrary
    | Utility
    | OtherKind

  predicate IsBuildable(k: TargetKind) {
    !k.OtherKind?
  }

  /** Name of the per-target record written into each target directory. */
  const DependInfoFile: string := "DependInfo.cmake"

  /**
    One source file of a target, together with what the generator target
    says about it: the full path, the language (None when the source has no
    language association), the object file path (empty when there is none)
    and the already-expanded OBJECT_OUTPUTS property (None when unset).
   */
  datatype SourceFile = SourceFile(
    fullPath: string,
    language: Option<string>,
    objectPath: string,
    objectOutputs: Option<seq<string>>)

  /** Identity of a target: the writer dedups linked targets by it. */
  type TargetId = string

  /** What the writer reads of a target referenced by a link item. */
  datatype TargetRef = TargetRef(
    id: TargetId,
    imported: bool,
    startOutputDirectory: string,
    targetDirectory: string)

  /** One item of the computed link information; `target` is None for a
      plain library item that does not name a target. */
  datatype LinkItem = LinkItem(target: Option<TargetRef>)

  /** The link implementation of a target for the active configuration. */
  datatype LinkImplementation = LinkImplementation(languages: seq<string>)

  /**
    A target and the results of the build-graph lookups made for it in the
    active configuration.
    - relativeTargetDirectory: the owning generator's relative path of the
      target directory, as used by the project manifest;
    - linkImplementation: None when the configuration has none;
    - linkItems: None when the target has no link information;
    - properties: target-scope properties, lists already expanded;
    - includeDirectories: the include directories computed for language C.
   */
  datatype Target = Target(
    id: TargetId,
    kind: TargetKind,
    relativeTargetDirectory: string,
    sources: seq<SourceFile>,
    linkImplementation: Option<LinkImplementation>,
    linkItems: Option<seq<LinkItem>>,
    properties: map<string, seq<string>>,
    includeDirectories: seq<string>)

  /** Directory-scope state: variable definitions and (expanded) properties. */
  datatype Makefile = Makefile(
    definitions: map<string, string>,
    properties: map<string, seq<string>>)

  /** One local generator: its makefile and its targets in container order. */
  datatype LocalGenerator = LocalGenerator(makefile: Makefile, targets: seq<Target>)

  /** A generator target: the target together with its directory's makefile. */
  datatype GeneratorTarget = GeneratorTarget(target: Target, makefile: Makefile)

  /**
    String transformations used by the writers but defined elsewhere:
    - objectDirectory: LocalGenerator::Convert(HOME_OUTPUT, objectPath);
    - includeDirectory: LocalGenerator::Convert(dir, HOME_OUTPUT);
    - escape: LocalGenerator::EscapeForCMake;
    - upperCase: SystemTools::UpperCase.
   */
  datatype Tools = Tools(
    objectDirectory: string -> string,
    includeDirectory: string -> string,
    escape: string -> string,
    upperCase: string -> string)

  /** A (source, output) line of a CMAKE_DEPENDS_CHECK_<L> block. */
  datatype FilePair = FilePair(source: string, output: string)

  /** One SET(...) block of a per-target record. */
  datatype Section =
    | DependsLanguages(languages: seq<string>)
    | DependsCheck(language: string, pairs: seq<FilePair>)
    | CompilerId(language: string, id: string)
    | TargetDefinitions(definitions: seq<string>)
    | IncludeTransforms(rules: seq<string>)
    | LinkedInfoFiles(files: seq<string>)
    | TargetIncludePath(language: string, directories: seq<string>)
    | IncludePathAlias(language: string, aliasOf: string)

  /** Value of a property, as a list; an unset property reads as None. */
  function Property(props: map<string, seq<string>>, name: string): Option<seq<string>> {
    if name in props then Some(props[name]) else None
  }

  /** The tokens a property lookup contributes to a merged list. */
  function Tokens(v: Option<seq<string>>): seq<string> {
    match v
    case None => []
    case Some(xs) => xs
  }

  /** Apply `f` to every element, keeping order. */
  function MapSeq<A, B>(f: A -> B, xs: seq<A>): (r: seq<B>)
    ensures |r| == |xs|
    ensures forall i :: 0 <= i < |xs| ==> r[i] == f(xs[i])
  {
    if xs == [] then [] else [f(xs[0])] + MapSeq(f, xs[1..])
  }

  predicate EndsWith(s: string, suffix: string) {
    |suffix| <= |s| && s[|s| - |suffix|..] == suffix
  }
}
