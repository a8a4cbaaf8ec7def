/**
  Classification of a target's sources by language: a map from language to
  the sources of that language, in encounter order.
 */
module SourceClassifier {
  import opened BuildGraph

  /** Reference definition: the sources of language `lang`, in order. */
  function SourcesInLanguage(sources: seq<SourceFile>, lang: string): seq<SourceFile> {
    if sources == [] then []
    else (if sources[0].language == Some(lang) then [sources[0]] else [])
         + SourcesInLanguage(sources[1..], lang)
  }

  /** The filter keeps exactly the sources of language `lang`. */
  lemma {:induction false} SourcesInLanguageExactly(sources: seq<SourceFile>, lang: string, s: SourceFile)
    ensures s in SourcesInLanguage(sources, lang) <==> s in sources && s.language == Some(lang)
  {
    if sources != [] {
      SourcesInLanguageExactly(sources[1..], lang, s);
      assert sources == [sources[0]] + sources[1..];
    }
  }

  /** The bucket of `lang`; a language with no entry has an empty bucket,
      as std::map::operator[] creates one. */
  function Bucket(buckets: map<string, seq<SourceFile>>, lang: string): seq<SourceFile> {
    if lang in buckets then buckets[lang] else []
  }

  /** Append each source with a language to the end of its bucket. */
  function ClassifyInto(acc: map<string, seq<SourceFile>>, sources: seq<SourceFile>)
    : map<string, seq<SourceFile>>
    decreases |sources|
  {
    if sources == [] then acc
    else
      var s := sources[0];
      match s.language
      case None => ClassifyInto(acc, sources[1..])
      case Some(lang) => ClassifyInto(acc[lang := Bucket(acc, lang) + [s]], sources[1..])
  }

  /** The sourcesByLanguage map of cmDependInfo::Write. */
  function Classify(sources: seq<SourceFile>): map<string, seq<SourceFile>> {
    ClassifyInto(map[], sources)
  }

  /** One step of the classification, stated on the bucket of `lang`. */
  lemma ClassifyIntoStep(acc: map<string, seq<SourceFile>>, sources: seq<SourceFile>, lang: string)
    requires sources != []
    ensures var s := sources[0];
            var acc' := if s.language.Some? then acc[s.language.value := Bucket(acc, s.language.value) + [s]]
                        else acc;
            && ClassifyInto(acc, sources) == ClassifyInto(acc', sources[1..])
            && Bucket(acc', lang) == Bucket(acc, lang) + (if s.language == Some(lang) then [s] else [])
  {
  }

  lemma {:induction false} ClassifyIntoBucket(
    acc: map<string, seq<SourceFile>>, sources: seq<SourceFile>, lang: string)
    ensures Bucket(ClassifyInto(acc, sources), lang)
         == Bucket(acc, lang) + SourcesInLanguage(sources, lang)
    decreases |sources|
  {
    if sources == [] {
      assert Bucket(acc, lang) + [] == Bucket(acc, lang);
    } else {
      var s := sources[0];
      var acc' := if s.language.Some? then acc[s.language.value := Bucket(acc, s.language.value) + [s]]
                  else acc;
      var head := if s.language == Some(lang) then [s] else [];
      ClassifyIntoStep(acc, sources, lang);
      ClassifyIntoBucket(acc', sources[1..], lang);
      assert SourcesInLanguage(sources, lang) == head + SourcesInLanguage(sources[1..], lang);
      assert (Bucket(acc, lang) + head) + SourcesInLanguage(sources[1..], lang)
          == Bucket(acc, lang) + (head + SourcesInLanguage(sources[1..], lang));
    }
  }

  /** Each bucket of the classification is exactly the reference filter:
      same sources, same (encounter) order. */
  lemma ClassifyBucket(sources: seq<SourceFile>, lang: string)
    ensures Bucket(Classify(sources), lang) == SourcesInLanguage(sources, lang)
  {
    ClassifyIntoBucket(map[], sources, lang);
    assert Bucket(map[], lang) == [];
  }

  /** A source without a language is in no bucket. */
  lemma UnsetLanguageDropped(sources: seq<SourceFile>, s: SourceFile, lang: string)
    requires s.language.None?
    ensures s !in Bucket(Classify(sources), lang)
  {
    ClassifyBucket(sources, lang);
    SourcesInLanguageExactly(sources, lang, s);
  }

  lemma {:induction false} ClassifyIntoKeys(
    acc: map<string, seq<SourceFile>>, sources: seq<SourceFile>, lang: string)
    ensures lang in ClassifyInto(acc, sources)
        <==> lang in acc || exists s :: s in sources && s.language == Some(lang)
    decreases |sources|
  {
    if sources != [] {
      var s := sources[0];
      assert sources == [s] + sources[1..];
      match s.language
      case None =>
        ClassifyIntoKeys(acc, sources[1..], lang);
      case Some(l) =>
        ClassifyIntoKeys(acc[l := Bucket(acc, l) + [s]], sources[1..], lang);
    }
  }

  /** The classification has a bucket for exactly the languages that occur. */
  lemma ClassifyKeys(sources: seq<SourceFile>, lang: string)
    ensures lang in Classify(sources)
        <==> exists s :: s in sources && s.language == Some(lang)
  {
    ClassifyIntoKeys(map[], sources, lang);
  }

  /** Bucketing is stable: classifying two source lists one after the other
      keeps the first list's sources ahead of the second's in every bucket. */
  lemma {:induction false} SourcesInLanguageAppend(a: seq<SourceFile>, b: seq<SourceFile>, lang: string)
    ensures SourcesInLanguage(a + b, lang) == SourcesInLanguage(a, lang) + SourcesInLanguage(b, lang)
  {
    if a == [] {
      assert a + b == b;
    } else {
      var head := if a[0].language == Some(lang) then [a[0]] else [];
      assert (a + b)[0] == a[0];
      assert (a + b)[1..] == a[1..] + b;
      SourcesInLanguageAppend(a[1..], b, lang);
      var fa, fb := SourcesInLanguage(a[1..], lang), SourcesInLanguage(b, lang);
      assert SourcesInLanguage(a + b, lang) == head + (fa + fb);
      assert SourcesInLanguage(a, lang) == head + fa;
      assert head + (fa + fb) == (head + fa) + fb;
    }
  }
}
