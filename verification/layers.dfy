/**
  Merging of layered list properties: the preprocessor definitions (four
  layers) and the include-transform rules (two layers) of a target.
  Each layer that is set appends its tokens; nothing overrides anything.
 */
module PropertyLayers {
  import opened BuildGraph

  datatype Scope = ProjectScope | TargetScope

  /** One property lookup: a property name at the directory (project) or
      at the target scope. */
  datatype Layer = Layer(scope: Scope, name: string)

  const CompileDefinitions: string := "COMPILE_DEFINITIONS"
  const IncludeTransform: string := "IMPLICIT_DEPENDS_INCLUDE_TRANSFORM"

  /** COMPILE_DEFINITIONS_<CONFIG> for configuration `config`. */
  function ConfigDefinitionsName(tools: Tools, config: string): string {
    CompileDefinitions + "_" + tools.upperCase(config)
  }

  /** The tokens a layer contributes; an unset property contributes none. */
  function LayerTokens(gt: GeneratorTarget, layer: Layer): seq<string> {
    match layer.scope
    case ProjectScope => Tokens(Property(gt.makefile.properties, layer.name))
    case TargetScope => Tokens(Property(gt.target.properties, layer.name))
  }

  /** Reference merge: the layers folded left to right into one list. */
  function FoldLayers(acc: seq<string>, gt: GeneratorTarget, layers: seq<Layer>): seq<string>
    decreases |layers|
  {
    if layers == [] then acc
    else FoldLayers(acc + LayerTokens(gt, layers[0]), gt, layers[1..])
  }

  /** The four definition layers, in the order the writer reads them. */
  function DefinitionLayers(tools: Tools, config: string): seq<Layer> {
    [ Layer(ProjectScope, CompileDefinitions),
      Layer(TargetScope, CompileDefinitions),
      Layer(ProjectScope, ConfigDefinitionsName(tools, config)),
      Layer(TargetScope, ConfigDefinitionsName(tools, config)) ]
  }

  /** The two transform-rule layers, in the order the writer reads them. */
  function TransformLayers(): seq<Layer> {
    [ Layer(ProjectScope, IncludeTransform), Layer(TargetScope, IncludeTransform) ]
  }

  /**
    The `defines` list of the writer: each of the four lookups that is set
    is expanded and appended. The list is empty exactly when every layer is
    unset or empty.
   */
  function MergedDefinitions(gt: GeneratorTarget, tools: Tools, config: string): (r: seq<string>)
    ensures var ls := DefinitionLayers(tools, config);
            r == [] <==> LayerTokens(gt, ls[0]) == [] && LayerTokens(gt, ls[1]) == []
                         && LayerTokens(gt, ls[2]) == [] && LayerTokens(gt, ls[3]) == []
  {
    var name := ConfigDefinitionsName(tools, config);
    var globalDefs := Tokens(Property(gt.makefile.properties, CompileDefinitions));
    var targetDefs := Tokens(Property(gt.target.properties, CompileDefinitions));
    var globalBuildTypeDefs := Tokens(Property(gt.makefile.properties, name));
    var targetBuildTypeDefs := Tokens(Property(gt.target.properties, name));
    var ls := DefinitionLayers(tools, config);
    assert LayerTokens(gt, ls[0]) == globalDefs && LayerTokens(gt, ls[1]) == targetDefs;
    assert LayerTokens(gt, ls[2]) == globalBuildTypeDefs && LayerTokens(gt, ls[3]) == targetBuildTypeDefs;
    var defines := globalDefs + targetDefs + globalBuildTypeDefs + targetBuildTypeDefs;
    assert |defines| == |globalDefs| + |targetDefs| + |globalBuildTypeDefs| + |targetBuildTypeDefs|;
    defines
  }

  /** Duplicates are kept: every token occurs in the merged definitions as
      often as in the four layers together. */
  lemma DefinitionsKeepDuplicates(gt: GeneratorTarget, tools: Tools, config: string)
    ensures var ls := DefinitionLayers(tools, config);
            multiset(MergedDefinitions(gt, tools, config))
            == multiset(LayerTokens(gt, ls[0])) + multiset(LayerTokens(gt, ls[1]))
               + multiset(LayerTokens(gt, ls[2])) + multiset(LayerTokens(gt, ls[3]))
  {
    var ls := DefinitionLayers(tools, config);
    var t0, t1, t2, t3 := LayerTokens(gt, ls[0]), LayerTokens(gt, ls[1]),
                          LayerTokens(gt, ls[2]), LayerTokens(gt, ls[3]);
    assert MergedDefinitions(gt, tools, config) == t0 + t1 + t2 + t3;
  }

  /** The `transformRules` list of the writer: project rules, then target
      rules; empty exactly when both layers are unset or empty. */
  function MergedTransforms(gt: GeneratorTarget): (r: seq<string>)
    ensures var ls := TransformLayers();
            r == [] <==> LayerTokens(gt, ls[0]) == [] && LayerTokens(gt, ls[1]) == []
  {
    var projectRules := Tokens(Property(gt.makefile.properties, IncludeTransform));
    var targetRules := Tokens(Property(gt.target.properties, IncludeTransform));
    assert |projectRules + targetRules| == |projectRules| + |targetRules|;
    projectRules + targetRules
  }

  /** Duplicates are kept in the transform rules too. */
  lemma TransformsKeepDuplicates(gt: GeneratorTarget)
    ensures var ls := TransformLayers();
            multiset(MergedTransforms(gt))
            == multiset(LayerTokens(gt, ls[0])) + multiset(LayerTokens(gt, ls[1]))
  {
    var ls := TransformLayers();
    assert MergedTransforms(gt) == LayerTokens(gt, ls[0]) + LayerTokens(gt, ls[1]);
  }

  /** The definitions are the four layers folded in their fixed order:
      project, target, project per-configuration, target per-configuration. */
  lemma DefinitionsAreLayerFold(gt: GeneratorTarget, tools: Tools, config: string)
    ensures MergedDefinitions(gt, tools, config)
         == FoldLayers([], gt, DefinitionLayers(tools, config))
  {
    var ls := DefinitionLayers(tools, config);
    var t0, t1, t2, t3 := LayerTokens(gt, ls[0]), LayerTokens(gt, ls[1]),
                          LayerTokens(gt, ls[2]), LayerTokens(gt, ls[3]);
    assert [] + t0 == t0;
    assert FoldLayers([], gt, ls) == FoldLayers(t0, gt, ls[1..]);
    assert ls[1..][0] == ls[1] && ls[1..][1..] == ls[2..];
    assert FoldLayers(t0, gt, ls[1..]) == FoldLayers(t0 + t1, gt, ls[2..]);
    assert ls[2..][0] == ls[2] && ls[2..][1..] == ls[3..];
    assert FoldLayers(t0 + t1, gt, ls[2..]) == FoldLayers(t0 + t1 + t2, gt, ls[3..]);
    assert ls[3..][0] == ls[3] && ls[3..][1..] == [];
    assert FoldLayers(t0 + t1 + t2, gt, ls[3..]) == FoldLayers(t0 + t1 + t2 + t3, gt, []);
  }

  /** The transform rules are the two layers folded: project, then target. */
  lemma TransformsAreLayerFold(gt: GeneratorTarget)
    ensures MergedTransforms(gt) == FoldLayers([], gt, TransformLayers())
  {
    var ls := TransformLayers();
    assert ls[1..][1..] == [];
    assert [] + LayerTokens(gt, ls[0]) == LayerTokens(gt, ls[0]);
  }
}
