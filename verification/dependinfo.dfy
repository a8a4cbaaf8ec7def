/**
  The per-target dependency record (DependInfo.cmake): the sections written
  for one generator target, in their fixed order.
 */
module DependInfo {
  import opened BuildGraph
  import opened SourceClassifier
  import opened PropertyLayers
  import opened LinkClosure

  /** The variable holding the active configuration name. */
  const BuildTypeVariable: string := "CMAKE_BUILD_TYPE"

  /** What the writer needs before it starts: a link implementation for the
      active configuration, and a configuration name to upper-case. */
  predicate Writable(gt: GeneratorTarget) {
    gt.target.linkImplementation.Some? && BuildTypeVariable in gt.makefile.definitions
  }

  /**
    The pairs written for one source: the (source, object) pair when the
    object path is not empty, then one (source, output) pair per
    OBJECT_OUTPUTS entry whether or not the primary pair was written.
   */
  function SourcePairs(tools: Tools, s: SourceFile): (r: seq<FilePair>)
    ensures |r| == (if s.objectPath != "" then 1 else 0) + |Tokens(s.objectOutputs)|
    ensures forall k :: 0 <= k < |r| ==> r[k].source == s.fullPath
    ensures forall k :: 0 <= k < |Tokens(s.objectOutputs)| ==>
              r[|r| - |Tokens(s.objectOutputs)| + k].output == Tokens(s.objectOutputs)[k]
    ensures s.objectPath != "" ==>
              r[0].output == tools.objectDirectory(s.objectPath) + "/" + s.objectPath
  {
    var primary :=
      if s.objectPath != "" then
        [FilePair(s.fullPath, tools.objectDirectory(s.objectPath) + "/" + s.objectPath)]
      else [];
    var extras := MapSeq((o: string) => FilePair(s.fullPath, o), Tokens(s.objectOutputs));
    primary + extras
  }

  /** A source with no object path but with OBJECT_OUTPUTS still yields one
      pair per output, and no primary pair. */
  lemma ExtraOutputsWithoutObject(tools: Tools, s: SourceFile)
    requires s.objectPath == ""
    ensures SourcePairs(tools, s) == MapSeq((o: string) => FilePair(s.fullPath, o), Tokens(s.objectOutputs))
  {
    var r := SourcePairs(tools, s);
    var outs := Tokens(s.objectOutputs);
    assert |r| == |outs|;
    forall k | 0 <= k < |r| ensures r[k] == FilePair(s.fullPath, outs[k]) {
      assert r[|r| - |outs| + k].output == outs[k];
    }
  }

  /** The pairs of one CMAKE_DEPENDS_CHECK_<L> block, source by source. */
  function BucketPairs(tools: Tools, bucket: seq<SourceFile>): seq<FilePair> {
    if bucket == [] then []
    else SourcePairs(tools, bucket[0]) + BucketPairs(tools, bucket[1..])
  }

  /** Every pair of a block comes from a source of the bucket, and every
      pair of every source of the bucket is written. */
  lemma {:induction false} BucketPairsExactly(tools: Tools, bucket: seq<SourceFile>)
    ensures forall p :: p in BucketPairs(tools, bucket) ==>
              exists s :: s in bucket && p.source == s.fullPath
    ensures forall s, p :: s in bucket && p in SourcePairs(tools, s) ==> p in BucketPairs(tools, bucket)
  {
    if bucket != [] {
      var first, rest := SourcePairs(tools, bucket[0]), BucketPairs(tools, bucket[1..]);
      var r := BucketPairs(tools, bucket);
      assert r == first + rest;
      BucketPairsExactly(tools, bucket[1..]);
      forall p | p in r ensures exists s :: s in bucket && p.source == s.fullPath {
        if p in first {
          assert bucket[0] in bucket;
        } else {
          var s :| s in bucket[1..] && p.source == s.fullPath;
          assert s in bucket;
        }
      }
      forall s, p | s in bucket && p in SourcePairs(tools, s) ensures p in r {
        if s != bucket[0] {
          assert s in bucket[1..];
        }
      }
    }
  }

  /** The block of a concatenation of buckets is the concatenation of their
      blocks: pairs are written source by source, in bucket order. */
  lemma {:induction false} BucketPairsAppend(tools: Tools, a: seq<SourceFile>, b: seq<SourceFile>)
    ensures BucketPairs(tools, a + b) == BucketPairs(tools, a) + BucketPairs(tools, b)
  {
    if a == [] {
      assert a + b == b;
    } else {
      var first := SourcePairs(tools, a[0]);
      assert (a + b)[0] == a[0];
      assert (a + b)[1..] == a[1..] + b;
      assert BucketPairs(tools, a + b) == first + BucketPairs(tools, a[1..] + b);
      BucketPairsAppend(tools, a[1..], b);
      assert first + (BucketPairs(tools, a[1..]) + BucketPairs(tools, b))
          == (first + BucketPairs(tools, a[1..])) + BucketPairs(tools, b);
    }
  }

  /** A one-source bucket writes exactly that source's pairs. */
  lemma BucketPairsSingle(tools: Tools, s: SourceFile)
    ensures BucketPairs(tools, [s]) == SourcePairs(tools, s)
  {
    assert [s][1..] == [];
  }

  /** CMAKE_<L>_COMPILER_ID when it is defined and not empty. */
  function CompilerIdValue(mf: Makefile, lang: string): Option<string> {
    var name := "CMAKE_" + lang + "_COMPILER_ID";
    if name in mf.definitions && mf.definitions[name] != "" then Some(mf.definitions[name])
    else None
  }

  /** The compiler id line written right after a language's block. */
  function CompilerIdSection(mf: Makefile, lang: string): seq<Section> {
    match CompilerIdValue(mf, lang)
    case None => []
    case Some(id) => [CompilerId(lang, id)]
  }

  /** For each declared language in order: its block, then its compiler id. */
  function LanguageSections(tools: Tools, mf: Makefile, buckets: map<string, seq<SourceFile>>,
                            langs: seq<string>): seq<Section>
  {
    if langs == [] then []
    else
      [DependsCheck(langs[0], BucketPairs(tools, Bucket(buckets, langs[0])))]
      + CompilerIdSection(mf, langs[0])
      + LanguageSections(tools, mf, buckets, langs[1..])
  }

  /** A list block that is left out when its list is empty. */
  function DefinitionsSection(tools: Tools, defines: seq<string>): seq<Section> {
    if defines == [] then [] else [TargetDefinitions(MapSeq(tools.escape, defines))]
  }

  function TransformsSection(tools: Tools, rules: seq<string>): seq<Section> {
    if rules == [] then [] else [IncludeTransforms(MapSeq(tools.escape, rules))]
  }

  /** The include path computed for C and the aliases of the other languages. */
  function IncludeSections(tools: Tools, t: Target): seq<Section> {
    [ TargetIncludePath("C", MapSeq(tools.includeDirectory, t.includeDirectories)),
      IncludePathAlias("CXX", "C"),
      IncludePathAlias("Fortran", "C"),
      IncludePathAlias("ASM", "C") ]
  }

  /** The configuration name the writer reads. */
  function ConfigurationName(gt: GeneratorTarget): string
    requires BuildTypeVariable in gt.makefile.definitions
  {
    gt.makefile.definitions[BuildTypeVariable]
  }

  /** SET(CMAKE_DEPENDS_LANGUAGES ...): the declared languages. */
  function LanguagesPart(gt: GeneratorTarget): seq<Section>
    requires Writable(gt)
  {
    [DependsLanguages(gt.target.linkImplementation.value.languages)]
  }

  /** The per-language blocks and compiler ids. */
  function BlocksPart(gt: GeneratorTarget, tools: Tools): seq<Section>
    requires Writable(gt)
  {
    LanguageSections(tools, gt.makefile, Classify(gt.target.sources),
                     gt.target.linkImplementation.value.languages)
  }

  /** SET(CMAKE_TARGET_DEFINITIONS ...), unless there are none. */
  function DefinitionsPart(gt: GeneratorTarget, tools: Tools): seq<Section>
    requires Writable(gt)
  {
    DefinitionsSection(tools, MergedDefinitions(gt, tools, ConfigurationName(gt)))
  }

  /** SET(CMAKE_INCLUDE_TRANSFORMS ...), unless there are none. */
  function TransformsPart(gt: GeneratorTarget, tools: Tools): seq<Section> {
    TransformsSection(tools, MergedTransforms(gt))
  }

  /** SET(CMAKE_TARGET_LINKED_INFO_FILES ...), always. */
  function LinkedPart(gt: GeneratorTarget): seq<Section> {
    [LinkedInfoFiles(LinkedInfoFileList(gt.target.linkItems))]
  }

  /** Everything after the language blocks. */
  function TrailerPart(gt: GeneratorTarget, tools: Tools): seq<Section>
    requires Writable(gt)
  {
    DefinitionsPart(gt, tools) + TransformsPart(gt, tools) + LinkedPart(gt)
    + IncludeSections(tools, gt.target)
  }

  /** cmDependInfo::Write: every section of the record, in order. */
  function Write(gt: GeneratorTarget, tools: Tools): (r: seq<Section>)
    requires Writable(gt)
    ensures |r| >= 6
    ensures r[0] == DependsLanguages(gt.target.linkImplementation.value.languages)
  {
    LanguagesPart(gt) + BlocksPart(gt, tools) + TrailerPart(gt, tools)
  }
}
