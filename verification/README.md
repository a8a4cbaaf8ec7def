# CMake dependency-information writers, modelled in Dafny

This project models the two writers in `Source/cmDependInfo.cxx`. They
produce the files that the implicit-dependency scanner of CMake's Makefile
generator reads later.

- `cmDependInfoManifest::Write` writes the project-wide
  `CMAKE_DEPEND_INFO_FILES` list. It has one `<target dir>/DependInfo.cmake`
  entry for each buildable target of each local generator.
- `cmDependInfo::Write` writes one target's `DependInfo.cmake`. Its sections
  come in a fixed order:
  1. the declared languages;
  2. one `CMAKE_DEPENDS_CHECK_<L>` block of (source, object) pairs per language,
     each followed by `CMAKE_<L>_COMPILER_ID` when that is set;
  3. the merged preprocessor definitions;
  4. the merged include-transform rules;
  5. the linked targets' record files;
  6. the include path computed for C, with aliases for CXX, Fortran and ASM.

Both writers are modelled as pure functions over an immutable snapshot of the
build graph. The project manifest is also modelled as a method with the
source's nested loops. Each stream write becomes one `Section` value, or one
string entry in the manifest. Every collaborator is either a snapshot field
(`buildgraph.dfy`) or a function field of `Tools`:

- snapshot fields: object paths, link implementation, link information,
  include directories and expanded property lists;
- `Tools` fields: `Convert`, `EscapeForCMake` and `UpperCase`.

Modules:

| file | module | models |
|---|---|---|
| buildgraph.dfy | BuildGraph | targets, sources, link items, makefiles, sections |
| manifest.dfy | DependInfoManifest | `cmDependInfoManifest::Write` |
| classifier.dfy | SourceClassifier | the `sourcesByLanguage` map |
| layers.dfy | PropertyLayers | the definitions and include-transform merges |
| linkclosure.dfy | LinkClosure | the `emitted`-set loop over link items |
| dependinfo.dfy | DependInfo | `cmDependInfo::Write` |
| record.dfy | RecordProperties | properties of the whole per-target record |

Each operation has a partner and a lemma that links the two:

- the manifest loop is proved equal to a filter over all targets;
- the language map is proved equal to a per-language filter;
- the link fold with its visited set is proved equal to a first-seen
  reference list;
- a language block is proved to distribute over concatenation of its
  bucket, one source's pairs at a time;
- the four explicit definition lookups are proved equal to a left fold over
  the ordered list of property layers.

## Model

| member | source | states |
|---|---|---|
| DependInfoManifest.ToUnixSlashes | Source/cmDependInfo.cxx:67 | The conversion keeps the length and turns each backslash into a forward slash, leaving every other character in place. |
| DependInfoManifest.WriteManifest | Source/cmDependInfo.cxx:42-73 | The nested loops list exactly the record paths of the buildable targets. The order is generator order, then target order. The result equals the reference filter over all targets. |
| DependInfoManifest.BuildableExactly | Source/cmDependInfo.cxx:57-62 | A target is kept iff it belongs to the walked targets and has one of the six buildable kinds. OTHER kinds never appear. |
| DependInfoManifest.BuildableCount | Source/cmDependInfo.cxx:54-70 | The number of kept targets equals the number of buildable targets. |
| DependInfoManifest.ManifestConcat | Source/cmDependInfo.cxx:49-71 | The manifest of two generator lists written in sequence is the concatenation of their manifests. |
| DependInfoManifest.ManifestEntryShape | Source/cmDependInfo.cxx:64-67 | Each entry ends in `/DependInfo.cmake` and, under the modelled conversion, contains no backslash. |
| DependInfoManifest.ManifestShape | Source/cmDependInfo.cxx:49-71 | The manifest has one entry per buildable target, and every entry ends in `/DependInfo.cmake` and, under the modelled conversion, has no backslash. |
| SourceClassifier.SourcesInLanguageExactly | Source/cmDependInfo.cxx:134-141 | A source is in the bucket of L iff it is one of the target's sources and its language is L. |
| SourceClassifier.ClassifyIntoBucket | Source/cmDependInfo.cxx:129-142 | Starting from any map, classification appends to the bucket of L exactly the sources of language L, in encounter order. |
| SourceClassifier.ClassifyBucket | Source/cmDependInfo.cxx:127-142 | Each bucket of `sourcesByLanguage` equals the in-order filter of the sources by language. |
| SourceClassifier.ClassifyKeys | Source/cmDependInfo.cxx:135-140 | The map has an entry for L iff some source has language L. |
| SourceClassifier.UnsetLanguageDropped | Source/cmDependInfo.cxx:134-135 | A source with no language is in no bucket. |
| SourceClassifier.SourcesInLanguageAppend | Source/cmDependInfo.cxx:129-141 | Bucketing is stable: for concatenated source lists, the first list's sources come first in each bucket. |
| DependInfo.SourcePairs | Source/cmDependInfo.cxx:164-194 | There is one primary pair iff the object path is not empty, plus one pair per OBJECT_OUTPUTS entry. Every pair names the source's full path. The primary output is the converted object directory, a slash and the object path. The extra outputs fill the last positions, in order. |
| DependInfo.ExtraOutputsWithoutObject | Source/cmDependInfo.cxx:166-194 | With an empty object path, the pairs are exactly the (source, output) pairs of OBJECT_OUTPUTS. |
| DependInfo.BucketPairsExactly | Source/cmDependInfo.cxx:155-196 | Every pair of a block names a source of that block's bucket, and every pair of every source of the bucket is in the block. |
| DependInfo.BucketPairsAppend | Source/cmDependInfo.cxx:156-196 | The block of two buckets written one after the other is the concatenation of their blocks, so pairs appear source by source in bucket order. |
| DependInfo.BucketPairsSingle | Source/cmDependInfo.cxx:161-195 | A bucket of one source yields exactly that source's pairs. |
| DependInfo.Write | Source/cmDependInfo.cxx:89-114 | The record starts with the declared-language list and has at least the six sections that are always written. |
| PropertyLayers.MergedDefinitions | Source/cmDependInfo.cxx:222-244 | The merged definitions are empty iff all four layers are unset or empty. |
| PropertyLayers.DefinitionsAreLayerFold | Source/cmDependInfo.cxx:224-242 | The definitions are the left fold of the layers in this order: project, target, project `_<CONFIG>`, target `_<CONFIG>`. |
| PropertyLayers.DefinitionsKeepDuplicates | Source/cmDependInfo.cxx:227-242 | Duplicates are kept: each token occurs as often as in the four layers together. |
| PropertyLayers.MergedTransforms | Source/cmDependInfo.cxx:270-283 | The merged transform rules are empty iff both layers are unset or empty. |
| PropertyLayers.TransformsAreLayerFold | Source/cmDependInfo.cxx:272-281 | The transform rules are the project layer followed by the target layer. |
| PropertyLayers.TransformsKeepDuplicates | Source/cmDependInfo.cxx:272-281 | Transform rules keep duplicates across the two layers. |
| LinkClosure.CollectLinkedFacts | Source/cmDependInfo.cxx:315-330 | The fold emits distinct targets. Each one is non-imported, named by some item, and not visited before. Every eligible target is either visited before or emitted. |
| LinkClosure.CollectLinkedExtends | Source/cmDependInfo.cxx:315-330 | Running the fold over a suffix, with the prefix's targets already visited, extends the prefix's first-seen list to the whole list. |
| LinkClosure.LinkedTargetsFirstSeen | Source/cmDependInfo.cxx:305-330 | The fold with the `emitted` set equals the first-seen reference list. |
| LinkClosure.FirstSeenIds | Source/cmDependInfo.cxx:318-319 | The first-seen list names exactly the ids of the non-null, non-imported link items. |
| LinkClosure.LinkedTargetsExactly | Source/cmDependInfo.cxx:318-319 | A target id is listed iff some non-null, non-imported item names it. Ids are pairwise distinct and no listed target is imported. |
| LinkClosure.LinkedTargetsPrefix | Source/cmDependInfo.cxx:315-330 | The list for a prefix of the items is a prefix of the list for all items, so later items only append. |
| LinkClosure.LinkedInfoPath | Source/cmDependInfo.cxx:323-327 | A linked target's record path is its output directory, a slash, its target directory, and `/DependInfo.cmake`: the prefix, the suffix and the target directory between them are each stated. |
| LinkClosure.LinkedInfoFileCount | Source/cmDependInfo.cxx:312-331 | Without link information there are no entries. Otherwise there is one entry per distinct eligible target. |
| LinkClosure.DiamondListedOnce | Source/cmDependInfo.cxx:315-330 | The items [A, B, C, C] give [A, B, C]. |
| RecordProperties.WriteSectionOrder | Source/cmDependInfo.cxx:103-381 | Sections never interleave. The order is: languages, then blocks with compiler ids, definitions, transforms, linked files, include path. |
| RecordProperties.WriteLanguagesOnce | Source/cmDependInfo.cxx:103-114 | The declared-language list is written exactly once in the record. |
| RecordProperties.WriteDeclaredLanguageBlocks | Source/cmDependInfo.cxx:147-155 | The block languages are exactly the link-implementation languages, in order. This holds even when a bucket is empty. |
| RecordProperties.WriteCompilerIdsFollowBlocks | Source/cmDependInfo.cxx:203-211 | A compiler id line directly follows its own language's block and carries a defined, non-empty value. Every such value is written. |
| RecordProperties.WriteBlocksFromClassification | Source/cmDependInfo.cxx:147-198 | The block of L is for a declared language. It holds the pairs of exactly the sources of language L, in encounter order. |
| RecordProperties.WriteForeignSourceInNoBlock | Source/cmDependInfo.cxx:129-198 | A path whose sources all have an unset or undeclared language appears in no block. |
| RecordProperties.WriteDefinitionsElided | Source/cmDependInfo.cxx:244-259 | The definitions section is written once if the merged list is non-empty and not at all otherwise. When present, it holds the escaped tokens in merge order. |
| RecordProperties.WriteTransformsElided | Source/cmDependInfo.cxx:283-294 | The transform section is written once if the merged list is non-empty and not at all otherwise. When present, it holds the escaped rules in merge order. |
| RecordProperties.WriteLinkedAlwaysOnce | Source/cmDependInfo.cxx:305-332 | Exactly one linked-files section is written, even with no link information, and it holds the deduplicated list. |
| RecordProperties.WriteIncludePathLast | Source/cmDependInfo.cxx:343-381 | The record ends with the C include path (converted directories), then the CXX, Fortran and ASM aliases of it. |
| RecordProperties.WriteIncludePathOnce | Source/cmDependInfo.cxx:343-381 | The record holds exactly one computed include path and exactly three aliases, so none is written before the last four sections. |

## Left out

- Stream mechanics: `cmGeneratedFileStream`, comment lines, `SET(` syntax and quoting are not modelled. Each block is one `Section` value.
- `Convert` (both overloads), `EscapeForCMake`, `UpperCase`, `GetRelativePath` and `GetTargetDirectory` are not part of this model. They are opaque functions or precomputed snapshot fields. No round-trip property of escaping is claimed, because the code shows none.
- `cmSystemTools::ConvertToUnixSlashes` is not part of this model. `ToUnixSlashes` stands in for it and turns every backslash into a slash. The library function also keeps a backslash that precedes a space and collapses doubled slashes, among other rewrites; none of that is modelled.
- DependInfoManifest.ToUnixSlashes: keeps the length and converts every backslash. The library function keeps a backslash followed by a space and collapses `//` to `/`, which can shorten the path; neither rewrite is modelled.
- DependInfoManifest.ManifestEntryShape: the no-backslash clause holds of the stand-in conversion only. With the library function, an entry whose target directory holds a backslash followed by a space keeps that backslash. The `/DependInfo.cmake` suffix clause does not depend on the stand-in.
- DependInfoManifest.ManifestShape: the same limit applies to its no-backslash clause.
- `ExpandListArgument` is not modelled. Property values and OBJECT_OUTPUTS are already-expanded lists, and an unset property is absent from the map.
- The `GetObjectFilePath`, `GetLinkImplementation`, `GetLinkInformation`, `GetIncludeDirectories` and `GetSourceFiles` lookups are not modelled. Their results for the active configuration are snapshot fields.
- The link implementation is dereferenced without a check (line 107), so `Writable` requires it.
- `CMAKE_BUILD_TYPE` is passed to `UpperCase` without a null check (line 225), so `Writable` also requires that definition. An empty configuration name is allowed: it only changes the per-configuration property name.
- The `if (*source)` test at line 161 is not modelled. Sources are non-null values, because line 135 already dereferences every source.
- Targets are visited in the iteration order of the makefile's target container, given as a sequence. That container is defined outside the files modelled here.
- The "multiple output pairs" and "Fortran module dir" TODO stubs (lines 296-300 and 334-338) have no behaviour and are not modelled.
- The code has no error propagation and no atomic replacement of the output file, so neither is modelled. Every modelled operation is a pure function, so the output is determined by the snapshot.
- Linked-target record paths (lines 323-327) are joined without slash conversion; the model keeps them as built.
- Linked targets are deduplicated by target identity, not by path (line 319). Two distinct targets with the same path are both listed.
