/**
  Properties of the per-target record: the fixed section order, one block
  per declared language, compiler ids next to their block, the contents of
  each block, the elidable sections and the always-present link section.
 */
module RecordProperties {
  import opened BuildGraph
  import opened SourceClassifier
  import opened PropertyLayers
  import opened LinkClosure
  import opened DependInfo

  /** Position of a section kind in the record's fixed order. */
  function Rank(s: Section): nat {
    match s
    case DependsLanguages(_) => 0
    case DependsCheck(_, _) => 1
    case CompilerId(_, _) => 1
    case TargetDefinitions(_) => 2
    case IncludeTransforms(_) => 3
    case LinkedInfoFiles(_) => 4
    case TargetIncludePath(_, _) => 5
    case IncludePathAlias(_, _) => 5
  }

  predicate SortedByRank(r: seq<Section>) {
    forall i, j :: 0 <= i < j < |r| ==> Rank(r[i]) <= Rank(r[j])
  }

  predicate RanksWithin(r: seq<Section>, lo: nat, hi: nat) {
    forall x :: x in r ==> lo <= Rank(x) <= hi
  }

  /** The languages of the CMAKE_DEPENDS_CHECK_<L> blocks, in order. */
  function CheckedLanguages(r: seq<Section>): seq<string> {
    if r == [] then []
    else (if r[0].DependsCheck? then [r[0].language] else []) + CheckedLanguages(r[1..])
  }

  predicate IsLanguages(x: Section) { x.DependsLanguages? }
  predicate IsDefinitions(x: Section) { x.TargetDefinitions? }
  predicate IsTransforms(x: Section) { x.IncludeTransforms? }
  predicate IsLinkedFiles(x: Section) { x.LinkedInfoFiles? }
  predicate IsIncludePath(x: Section) { x.TargetIncludePath? }
  predicate IsIncludeAlias(x: Section) { x.IncludePathAlias? }

  /** Number of sections of `r` of the kind `p` selects. */
  function Count(r: seq<Section>, p: Section -> bool): nat {
    if r == [] then 0
    else (if p(r[0]) then 1 else 0) + Count(r[1..], p)
  }

  /**
    Every compiler id line directly follows the block of its language and
    carries that language's non-empty definition; every block whose
    language has such a definition is directly followed by it.
   */
  predicate WellPaired(r: seq<Section>, mf: Makefile) {
    && (forall i :: 0 <= i < |r| && r[i].CompilerId? ==>
          && i > 0 && r[i - 1].DependsCheck? && r[i - 1].language == r[i].language
          && CompilerIdValue(mf, r[i].language) == Some(r[i].id))
    && (forall i :: 0 <= i < |r| && r[i].DependsCheck? && CompilerIdValue(mf, r[i].language).Some? ==>
          i + 1 < |r| && r[i + 1] == CompilerId(r[i].language, CompilerIdValue(mf, r[i].language).value))
  }

  // ---------------------------------------------------------------------
  // Concatenation facts

  /** Appending a block of uniform rank k to a sorted list whose ranks are
      at most k keeps it sorted. */
  lemma SortedSnocBlock(a: seq<Section>, b: seq<Section>, ka: nat, k: nat)
    requires SortedByRank(a) && RanksWithin(a, 0, ka) && ka <= k
    requires RanksWithin(b, k, k)
    ensures SortedByRank(a + b) && RanksWithin(a + b, 0, k)
  {
    var r := a + b;
    forall i, j | 0 <= i < j < |r| ensures Rank(r[i]) <= Rank(r[j]) {
      if j < |a| {
        assert r[i] == a[i] && r[j] == a[j];
      } else if i >= |a| {
        assert r[i] == b[i - |a|] && r[j] == b[j - |a|];
        assert r[i] in b && r[j] in b;
      } else {
        assert r[i] == a[i] && r[j] == b[j - |a|];
        assert a[i] in a && b[j - |a|] in b;
      }
    }
  }

  lemma {:induction false} CheckedLanguagesAppend(a: seq<Section>, b: seq<Section>)
    ensures CheckedLanguages(a + b) == CheckedLanguages(a) + CheckedLanguages(b)
  {
    if a == [] {
      assert a + b == b;
    } else {
      assert (a + b)[0] == a[0];
      assert (a + b)[1..] == a[1..] + b;
      CheckedLanguagesAppend(a[1..], b);
    }
  }

  lemma {:induction false} NoChecks(r: seq<Section>)
    requires forall x :: x in r ==> !x.DependsCheck?
    ensures CheckedLanguages(r) == []
  {
    if r != [] {
      assert r[0] in r;
      assert forall x :: x in r[1..] ==> x in r;
      NoChecks(r[1..]);
    }
  }

  lemma {:induction false} CountAppend(a: seq<Section>, b: seq<Section>, p: Section -> bool)
    ensures Count(a + b, p) == Count(a, p) + Count(b, p)
  {
    if a == [] {
      assert a + b == b;
    } else {
      assert (a + b)[0] == a[0];
      assert (a + b)[1..] == a[1..] + b;
      CountAppend(a[1..], b, p);
    }
  }

  lemma {:induction false} NoneCounted(r: seq<Section>, p: Section -> bool)
    requires forall x :: x in r ==> !p(x)
    ensures Count(r, p) == 0
  {
    if r != [] {
      assert r[0] in r;
      assert forall x :: x in r[1..] ==> x in r;
      NoneCounted(r[1..], p);
    }
  }

  lemma WellPairedAppend(a: seq<Section>, b: seq<Section>, mf: Makefile)
    requires WellPaired(a, mf) && WellPaired(b, mf)
    requires |b| > 0 ==> !b[0].CompilerId?
    ensures WellPaired(a + b, mf)
  {
    var r := a + b;
    forall i | 0 <= i < |r| && r[i].CompilerId?
      ensures i > 0 && r[i - 1].DependsCheck? && r[i - 1].language == r[i].language
      ensures CompilerIdValue(mf, r[i].language) == Some(r[i].id)
    {
      if i < |a| {
        assert r[i] == a[i] && r[i - 1] == a[i - 1];
      } else {
        assert r[i] == b[i - |a|];
        assert i - |a| > 0;
        assert r[i - 1] == b[i - 1 - |a|];
      }
    }
    forall i | 0 <= i < |r| && r[i].DependsCheck? && CompilerIdValue(mf, r[i].language).Some?
      ensures i + 1 < |r|
      ensures r[i + 1] == CompilerId(r[i].language, CompilerIdValue(mf, r[i].language).value)
    {
      if i < |a| {
        assert r[i] == a[i] && r[i + 1] == a[i + 1];
      } else {
        assert r[i] == b[i - |a|] && r[i + 1] == b[i + 1 - |a|];
      }
    }
  }

  /** A section list with no block and no compiler id is trivially paired. */
  lemma PlainWellPaired(r: seq<Section>, mf: Makefile)
    requires RanksWithin(r, 2, 5) || RanksWithin(r, 0, 0)
    ensures WellPaired(r, mf)
  {
    assert forall i :: 0 <= i < |r| ==> r[i] in r;
  }

  // ---------------------------------------------------------------------
  // The language blocks

  lemma {:induction false} LanguageSectionsRanks(
    tools: Tools, mf: Makefile, buckets: map<string, seq<SourceFile>>, langs: seq<string>)
    ensures RanksWithin(LanguageSections(tools, mf, buckets, langs), 1, 1)
  {
    if langs != [] {
      LanguageSectionsRanks(tools, mf, buckets, langs[1..]);
    }
  }

  lemma {:induction false} LanguageSectionsChecked(
    tools: Tools, mf: Makefile, buckets: map<string, seq<SourceFile>>, langs: seq<string>)
    ensures CheckedLanguages(LanguageSections(tools, mf, buckets, langs)) == langs
  {
    if langs != [] {
      var l := langs[0];
      var block := [DependsCheck(l, BucketPairs(tools, Bucket(buckets, l)))];
      var id := CompilerIdSection(mf, l);
      var rest := LanguageSections(tools, mf, buckets, langs[1..]);
      LanguageSectionsChecked(tools, mf, buckets, langs[1..]);
      CheckedLanguagesAppend(block + id, rest);
      CheckedLanguagesAppend(block, id);
      NoChecks(id);
      assert CheckedLanguages(block) == [l] by {
        assert block[1..] == [];
      }
      assert langs == [l] + langs[1..];
    }
  }

  lemma {:induction false} LanguageSectionsPaired(
    tools: Tools, mf: Makefile, buckets: map<string, seq<SourceFile>>, langs: seq<string>)
    ensures WellPaired(LanguageSections(tools, mf, buckets, langs), mf)
    ensures LanguageSections(tools, mf, buckets, langs) != [] ==>
              LanguageSections(tools, mf, buckets, langs)[0].DependsCheck?
  {
    if langs != [] {
      var l := langs[0];
      var block := [DependsCheck(l, BucketPairs(tools, Bucket(buckets, l)))];
      var id := CompilerIdSection(mf, l);
      var rest := LanguageSections(tools, mf, buckets, langs[1..]);
      LanguageSectionsPaired(tools, mf, buckets, langs[1..]);
      assert WellPaired(block + id, mf) by {
        var bi := block + id;
        if id != [] {
          assert bi == [block[0], id[0]];
        } else {
          assert bi == block;
        }
      }
      WellPairedAppend(block + id, rest, mf);
    }
  }

  lemma {:induction false} LanguageSectionsContents(
    tools: Tools, mf: Makefile, buckets: map<string, seq<SourceFile>>, langs: seq<string>)
    ensures forall x :: x in LanguageSections(tools, mf, buckets, langs) && x.DependsCheck? ==>
              x.language in langs && x.pairs == BucketPairs(tools, Bucket(buckets, x.language))
  {
    if langs != [] {
      LanguageSectionsContents(tools, mf, buckets, langs[1..]);
      assert forall x :: x in langs[1..] ==> x in langs;
    }
  }

  // ---------------------------------------------------------------------
  // The whole record

  lemma IncludeSectionsRanks(tools: Tools, t: Target)
    ensures RanksWithin(IncludeSections(tools, t), 5, 5)
    ensures |IncludeSections(tools, t)| == 4
  {
  }

  /** Every group of the record has its own rank. */
  lemma PartRanks(gt: GeneratorTarget, tools: Tools)
    requires Writable(gt)
    ensures RanksWithin(LanguagesPart(gt), 0, 0)
    ensures RanksWithin(BlocksPart(gt, tools), 1, 1)
    ensures RanksWithin(DefinitionsPart(gt, tools), 2, 2)
    ensures RanksWithin(TransformsPart(gt, tools), 3, 3)
    ensures RanksWithin(LinkedPart(gt), 4, 4)
    ensures RanksWithin(IncludeSections(tools, gt.target), 5, 5)
  {
    LanguageSectionsRanks(tools, gt.makefile, Classify(gt.target.sources),
                          gt.target.linkImplementation.value.languages);
    IncludeSectionsRanks(tools, gt.target);
    DefinitionsSectionRank(tools, MergedDefinitions(gt, tools, ConfigurationName(gt)));
    TransformsSectionRank(tools, MergedTransforms(gt));
  }

  lemma DefinitionsSectionRank(tools: Tools, defines: seq<string>)
    ensures RanksWithin(DefinitionsSection(tools, defines), 2, 2)
  {
  }

  lemma TransformsSectionRank(tools: Tools, rules: seq<string>)
    ensures RanksWithin(TransformsSection(tools, rules), 3, 3)
  {
  }

  /** A sorted prefix of ranks at most 1 followed by a sorted trailer of
      ranks at least 2 is sorted. */
  lemma SortedSnocTrailer(a: seq<Section>, b: seq<Section>)
    requires SortedByRank(a) && RanksWithin(a, 0, 1)
    requires SortedByRank(b) && RanksWithin(b, 2, 5)
    ensures SortedByRank(a + b)
  {
    var r := a + b;
    forall i, j | 0 <= i < j < |r| ensures Rank(r[i]) <= Rank(r[j]) {
      if j < |a| {
        assert r[i] == a[i] && r[j] == a[j];
      } else if i >= |a| {
        assert r[i] == b[i - |a|] && r[j] == b[j - |a|];
      } else {
        assert r[i] == a[i] && r[j] == b[j - |a|];
        assert a[i] in a && b[j - |a|] in b;
      }
    }
  }

  /**
    Fixed section order: languages, then the per-language blocks with their
    compiler ids, then definitions, transform rules, linked targets and the
    include path, never interleaved.
   */
  lemma WriteSectionOrder(gt: GeneratorTarget, tools: Tools)
    requires Writable(gt)
    ensures SortedByRank(Write(gt, tools))
  {
    PartRanks(gt, tools);
    var p0, p1, p2 := LanguagesPart(gt), BlocksPart(gt, tools), DefinitionsPart(gt, tools);
    var p3, p4, p5 := TransformsPart(gt, tools), LinkedPart(gt), IncludeSections(tools, gt.target);
    assert SortedByRank(p0);
    SortedSnocBlock(p0, p1, 0, 1);
    SortedSnocBlock(p2, p3, 2, 3);
    SortedSnocBlock(p2 + p3, p4, 3, 4);
    SortedSnocBlock(p2 + p3 + p4, p5, 4, 5);
    SortedSnocTrailer(p0 + p1, p2 + p3 + p4 + p5);
  }

  /** A section of the record belongs to one of its six groups. */
  lemma WriteMember(gt: GeneratorTarget, tools: Tools, x: Section)
    requires Writable(gt)
    ensures x in Write(gt, tools) <==>
              || x in LanguagesPart(gt) || x in BlocksPart(gt, tools)
              || x in DefinitionsPart(gt, tools) || x in TransformsPart(gt, tools)
              || x in LinkedPart(gt) || x in IncludeSections(tools, gt.target)
  {
  }

  lemma TailRanks(gt: GeneratorTarget, tools: Tools)
    requires Writable(gt)
    ensures RanksWithin(TrailerPart(gt, tools), 2, 5)
  {
    PartRanks(gt, tools);
  }

  /**
    One CMAKE_DEPENDS_CHECK_<L> block per declared language, in declaration
    order (a block is written even when no source has that language).
   */
  lemma WriteDeclaredLanguageBlocks(gt: GeneratorTarget, tools: Tools)
    requires Writable(gt)
    ensures CheckedLanguages(Write(gt, tools)) == gt.target.linkImplementation.value.languages
  {
    TailRanks(gt, tools);
    var head, blocks, tail := LanguagesPart(gt), BlocksPart(gt, tools), TrailerPart(gt, tools);
    LanguageSectionsChecked(tools, gt.makefile, Classify(gt.target.sources),
                            gt.target.linkImplementation.value.languages);
    CheckedLanguagesAppend(head + blocks, tail);
    CheckedLanguagesAppend(head, blocks);
    NoChecks(head);
    NoChecks(tail);
  }

  /** Each compiler id line sits right after its language's block, and only
      a defined, non-empty compiler id is written. */
  lemma WriteCompilerIdsFollowBlocks(gt: GeneratorTarget, tools: Tools)
    requires Writable(gt)
    ensures WellPaired(Write(gt, tools), gt.makefile)
  {
    var head, tail := LanguagesPart(gt) + BlocksPart(gt, tools), TrailerPart(gt, tools);
    HeadWellPaired(gt, tools);
    assert WellPaired(tail, gt.makefile) && (|tail| > 0 ==> !tail[0].CompilerId?) by {
      TailRanks(gt, tools);
      PlainWellPaired(tail, gt.makefile);
      assert |tail| > 0 ==> tail[0] in tail;
    }
    WellPairedAppend(head, tail, gt.makefile);
  }

  lemma HeadWellPaired(gt: GeneratorTarget, tools: Tools)
    requires Writable(gt)
    ensures WellPaired(LanguagesPart(gt) + BlocksPart(gt, tools), gt.makefile)
  {
    var head, blocks := LanguagesPart(gt), BlocksPart(gt, tools);
    LanguageSectionsPaired(tools, gt.makefile, Classify(gt.target.sources),
                           gt.target.linkImplementation.value.languages);
    assert RanksWithin(head, 0, 0);
    PlainWellPaired(head, gt.makefile);
    WellPairedAppend(head, blocks, gt.makefile);
  }

  /**
    The block of language L holds the pairs of exactly the sources whose
    language is L, in encounter order, and L is a declared language.
   */
  lemma WriteBlocksFromClassification(gt: GeneratorTarget, tools: Tools)
    requires Writable(gt)
    ensures forall x :: x in Write(gt, tools) && x.DependsCheck? ==>
              && x.language in gt.target.linkImplementation.value.languages
              && x.pairs == BucketPairs(tools, SourcesInLanguage(gt.target.sources, x.language))
  {
    TailRanks(gt, tools);
    var langs := gt.target.linkImplementation.value.languages;
    var buckets := Classify(gt.target.sources);
    LanguageSectionsContents(tools, gt.makefile, buckets, langs);
    forall x | x in Write(gt, tools) && x.DependsCheck?
      ensures x.language in langs
      ensures x.pairs == BucketPairs(tools, SourcesInLanguage(gt.target.sources, x.language))
    {
      assert x !in TrailerPart(gt, tools) && x !in LanguagesPart(gt);
      assert x in BlocksPart(gt, tools);
      ClassifyBucket(gt.target.sources, x.language);
    }
  }

  /**
    A source whose language is unset or not declared appears in no block:
    no pair of any block names its path, as long as no source of a
    declared language shares that path.
   */
  lemma WriteForeignSourceInNoBlock(gt: GeneratorTarget, tools: Tools, path: string)
    requires Writable(gt)
    requires forall s :: s in gt.target.sources && s.fullPath == path ==>
               s.language.None? || s.language.value !in gt.target.linkImplementation.value.languages
    ensures forall x, p :: x in Write(gt, tools) && x.DependsCheck? && p in x.pairs ==>
              p.source != path
  {
    WriteBlocksFromClassification(gt, tools);
    forall x, p | x in Write(gt, tools) && x.DependsCheck? && p in x.pairs
      ensures p.source != path
    {
      var bucket := SourcesInLanguage(gt.target.sources, x.language);
      BucketPairsExactly(tools, bucket);
      var s :| s in bucket && p.source == s.fullPath;
      SourcesInLanguageExactly(gt.target.sources, x.language, s);
    }
  }

  /** The count of any section kind over the record is the sum over its
      six groups. */
  lemma WriteCountSplit(gt: GeneratorTarget, tools: Tools, p: Section -> bool)
    requires Writable(gt)
    ensures Count(Write(gt, tools), p)
         == Count(LanguagesPart(gt), p) + Count(BlocksPart(gt, tools), p)
            + Count(DefinitionsPart(gt, tools), p) + Count(TransformsPart(gt, tools), p)
            + Count(LinkedPart(gt), p) + Count(IncludeSections(tools, gt.target), p)
  {
    var p0, p1, p2 := LanguagesPart(gt), BlocksPart(gt, tools), DefinitionsPart(gt, tools);
    var p3, p4, p5 := TransformsPart(gt, tools), LinkedPart(gt), IncludeSections(tools, gt.target);
    CountAppend(p0, p1, p);
    CountAppend(p2, p3, p);
    CountAppend(p2 + p3, p4, p);
    CountAppend(p2 + p3 + p4, p5, p);
    CountAppend(p0 + p1, p2 + p3 + p4 + p5, p);
  }

  /** No group other than the one of rank k holds a section that `p`
      selects, when `p` only selects sections of rank k. */
  lemma OtherPartsCountNothing(gt: GeneratorTarget, tools: Tools, p: Section -> bool, k: nat)
    requires Writable(gt)
    requires forall x :: p(x) ==> Rank(x) == k
    ensures k != 0 ==> Count(LanguagesPart(gt), p) == 0
    ensures k != 1 ==> Count(BlocksPart(gt, tools), p) == 0
    ensures k != 2 ==> Count(DefinitionsPart(gt, tools), p) == 0
    ensures k != 3 ==> Count(TransformsPart(gt, tools), p) == 0
    ensures k != 4 ==> Count(LinkedPart(gt), p) == 0
    ensures k != 5 ==> Count(IncludeSections(tools, gt.target), p) == 0
  {
    PartRanks(gt, tools);
    if k != 0 { NoneCounted(LanguagesPart(gt), p); }
    if k != 1 { NoneCounted(BlocksPart(gt, tools), p); }
    if k != 2 { NoneCounted(DefinitionsPart(gt, tools), p); }
    if k != 3 { NoneCounted(TransformsPart(gt, tools), p); }
    if k != 4 { NoneCounted(LinkedPart(gt), p); }
    if k != 5 { NoneCounted(IncludeSections(tools, gt.target), p); }
  }

  /** A section kind of rank k occurs in the record as often as in its own
      group. */
  lemma CountInOwnPart(gt: GeneratorTarget, tools: Tools, p: Section -> bool, k: nat)
    requires Writable(gt)
    requires forall x :: p(x) ==> Rank(x) == k
    ensures k == 0 ==> Count(Write(gt, tools), p) == Count(LanguagesPart(gt), p)
    ensures k == 2 ==> Count(Write(gt, tools), p) == Count(DefinitionsPart(gt, tools), p)
    ensures k == 3 ==> Count(Write(gt, tools), p) == Count(TransformsPart(gt, tools), p)
    ensures k == 4 ==> Count(Write(gt, tools), p) == Count(LinkedPart(gt), p)
    ensures k == 5 ==> Count(Write(gt, tools), p) == Count(IncludeSections(tools, gt.target), p)
  {
    WriteCountSplit(gt, tools, p);
    OtherPartsCountNothing(gt, tools, p, k);
  }

  /** A list block that is left out when empty is written at most once. */
  lemma ElidableCount(r: seq<Section>, p: Section -> bool)
    requires |r| <= 1
    ensures Count(r, p) == (if r != [] && p(r[0]) then 1 else 0)
  {
    if r != [] {
      assert r[1..] == [];
    }
  }

  /** The declared-language list is written exactly once, at the head of
      the record. */
  lemma WriteLanguagesOnce(gt: GeneratorTarget, tools: Tools)
    requires Writable(gt)
    ensures Count(Write(gt, tools), IsLanguages) == 1
  {
    CountInOwnPart(gt, tools, IsLanguages, 0);
    ElidableCount(LanguagesPart(gt), IsLanguages);
  }

  /**
    The definitions section is written once when the merged list is not
    empty and not at all otherwise, and then lists the escaped definitions
    in merge order.
   */
  lemma WriteDefinitionsElided(gt: GeneratorTarget, tools: Tools)
    requires Writable(gt)
    ensures var defines := MergedDefinitions(gt, tools, ConfigurationName(gt));
            Count(Write(gt, tools), IsDefinitions) == (if defines == [] then 0 else 1)
    ensures var defines := MergedDefinitions(gt, tools, ConfigurationName(gt));
            && ((exists x :: x in Write(gt, tools) && x.TargetDefinitions?) <==> defines != [])
            && (forall x :: x in Write(gt, tools) && x.TargetDefinitions? ==>
                  x.definitions == MapSeq(tools.escape, defines))
  {
    CountInOwnPart(gt, tools, IsDefinitions, 2);
    ElidableCount(DefinitionsPart(gt, tools), IsDefinitions);
    OnlyDefinitionsPartHasDefinitions(gt, tools);
    if MergedDefinitions(gt, tools, ConfigurationName(gt)) != [] {
      WriteMember(gt, tools, DefinitionsPart(gt, tools)[0]);
    }
  }

  lemma OnlyDefinitionsPartHasDefinitions(gt: GeneratorTarget, tools: Tools)
    requires Writable(gt)
    ensures forall x :: x in Write(gt, tools) && x.TargetDefinitions? ==> x in DefinitionsPart(gt, tools)
  {
    PartRanks(gt, tools);
    forall x | x in Write(gt, tools) && x.TargetDefinitions?
      ensures x in DefinitionsPart(gt, tools)
    {
      WriteMember(gt, tools, x);
    }
  }

  /**
    The transform-rules section is written once when the merged list is
    not empty and not at all otherwise, and then lists the escaped rules in
    merge order.
   */
  lemma WriteTransformsElided(gt: GeneratorTarget, tools: Tools)
    requires Writable(gt)
    ensures Count(Write(gt, tools), IsTransforms) == (if MergedTransforms(gt) == [] then 0 else 1)
    ensures var rules := MergedTransforms(gt);
            && ((exists x :: x in Write(gt, tools) && x.IncludeTransforms?) <==> rules != [])
            && (forall x :: x in Write(gt, tools) && x.IncludeTransforms? ==>
                  x.rules == MapSeq(tools.escape, rules))
  {
    CountInOwnPart(gt, tools, IsTransforms, 3);
    ElidableCount(TransformsPart(gt, tools), IsTransforms);
    OnlyTransformsPartHasRules(gt, tools);
    if MergedTransforms(gt) != [] {
      WriteMember(gt, tools, TransformsPart(gt, tools)[0]);
    }
  }

  lemma OnlyTransformsPartHasRules(gt: GeneratorTarget, tools: Tools)
    requires Writable(gt)
    ensures forall x :: x in Write(gt, tools) && x.IncludeTransforms? ==> x in TransformsPart(gt, tools)
  {
    PartRanks(gt, tools);
    forall x | x in Write(gt, tools) && x.IncludeTransforms?
      ensures x in TransformsPart(gt, tools)
    {
      WriteMember(gt, tools, x);
    }
  }

  /**
    Exactly one linked-targets section is written, even with no link
    information, and it lists the first-seen non-imported linked targets.
   */
  lemma WriteLinkedAlwaysOnce(gt: GeneratorTarget, tools: Tools)
    requires Writable(gt)
    ensures Count(Write(gt, tools), IsLinkedFiles) == 1
    ensures forall x :: x in Write(gt, tools) && x.LinkedInfoFiles? ==>
              x.files == LinkedInfoFileList(gt.target.linkItems)
  {
    CountInOwnPart(gt, tools, IsLinkedFiles, 4);
    ElidableCount(LinkedPart(gt), IsLinkedFiles);
    OnlyLinkedPartHasFiles(gt, tools);
  }

  lemma OnlyLinkedPartHasFiles(gt: GeneratorTarget, tools: Tools)
    requires Writable(gt)
    ensures forall x :: x in Write(gt, tools) && x.LinkedInfoFiles? ==> x in LinkedPart(gt)
  {
    PartRanks(gt, tools);
    forall x | x in Write(gt, tools) && x.LinkedInfoFiles?
      ensures x in LinkedPart(gt)
    {
      WriteMember(gt, tools, x);
    }
  }

  lemma CountFour(a: Section, b: Section, c: Section, d: Section, p: Section -> bool)
    ensures Count([a, b, c, d], p)
         == (if p(a) then 1 else 0) + (if p(b) then 1 else 0)
            + (if p(c) then 1 else 0) + (if p(d) then 1 else 0)
  {
    assert [a, b, c, d] == [a] + [b] + [c] + [d];
    ElidableCount([a], p);
    ElidableCount([b], p);
    ElidableCount([c], p);
    ElidableCount([d], p);
    CountAppend([a], [b], p);
    CountAppend([a] + [b], [c], p);
    CountAppend([a] + [b] + [c], [d], p);
  }

  /** The include-path group holds one computed path and three aliases. */
  lemma IncludeSectionsCounts(tools: Tools, t: Target)
    ensures Count(IncludeSections(tools, t), IsIncludePath) == 1
    ensures Count(IncludeSections(tools, t), IsIncludeAlias) == 3
  {
    var incl := IncludeSections(tools, t);
    CountFour(incl[0], incl[1], incl[2], incl[3], IsIncludePath);
    CountFour(incl[0], incl[1], incl[2], incl[3], IsIncludeAlias);
  }

  /** The record ends with the include path computed once for C, then the
      aliases binding CXX, Fortran and ASM to it. */
  lemma WriteIncludePathLast(gt: GeneratorTarget, tools: Tools)
    requires Writable(gt)
    ensures var r := Write(gt, tools);
            && r[|r| - 4] == TargetIncludePath("C", MapSeq(tools.includeDirectory, gt.target.includeDirectories))
            && r[|r| - 3] == IncludePathAlias("CXX", "C")
            && r[|r| - 2] == IncludePathAlias("Fortran", "C")
            && r[|r| - 1] == IncludePathAlias("ASM", "C")
  {
    var r := Write(gt, tools);
    var incl := IncludeSections(tools, gt.target);
    IncludeSectionsRanks(tools, gt.target);
    assert r[|r| - 4..] == incl;
  }

  /** No include-path section is written anywhere else: the record holds
      exactly one computed path and three aliases. */
  lemma WriteIncludePathOnce(gt: GeneratorTarget, tools: Tools)
    requires Writable(gt)
    ensures Count(Write(gt, tools), IsIncludePath) == 1
    ensures Count(Write(gt, tools), IsIncludeAlias) == 3
  {
    var incl := IncludeSections(tools, gt.target);
    assert Count(Write(gt, tools), IsIncludePath) == Count(incl, IsIncludePath) by {
      CountInOwnPart(gt, tools, IsIncludePath, 5);
    }
    assert Count(Write(gt, tools), IsIncludeAlias) == Count(incl, IsIncludeAlias) by {
      CountInOwnPart(gt, tools, IsIncludeAlias, 5);
    }
    IncludeSectionsCounts(tools, gt.target);
  }
}
