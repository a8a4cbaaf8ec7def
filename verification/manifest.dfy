/**
  The project-wide manifest: the CMAKE_DEPEND_INFO_FILES list that names the
  per-target record of every buildable target of every local generator.
 */
module DependInfoManifest {
  import opened BuildGraph

  /** Stand-in for ConvertToUnixSlashes: every backslash becomes a forward
      slash. The library function's other rewrites are not modelled. */
  function ToUnixSlashes(s: string): (r: string)
    ensures |r| == |s|
    ensures forall i :: 0 <= i < |s| ==> r[i] == (if s[i] == '\\' then '/' else s[i])
  {
    if s == [] then []
    else [if s[0] == '\\' then '/' else s[0]] + ToUnixSlashes(s[1..])
  }

  /** The manifest entry naming the record of target `t`. */
  function ManifestEntry(t: Target): string {
    ToUnixSlashes(t.relativeTargetDirectory + "/" + DependInfoFile)
  }

  /** Every target of every generator, generator by generator. */
  function AllTargets(gens: seq<LocalGenerator>): seq<Target> {
    if gens == [] then []
    else AllTargets(gens[..|gens| - 1]) + gens[|gens| - 1].targets
  }

  /** The buildable targets of `ts`, in order. */
  function Buildable(ts: seq<Target>): seq<Target> {
    if ts == [] then []
    else Buildable(ts[..|ts| - 1])
         + (if IsBuildable(ts[|ts| - 1].kind) then [ts[|ts| - 1]] else [])
  }

  /** Number of buildable targets in `ts`. */
  function CountBuildable(ts: seq<Target>): nat {
    if ts == [] then 0
    else CountBuildable(ts[1..]) + (if IsBuildable(ts[0].kind) then 1 else 0)
  }

  /**
    cmDependInfoManifest::Write: walk the generators, then their targets,
    and list the record path of every buildable target.
   */
  method WriteManifest(gens: seq<LocalGenerator>) returns (entries: seq<string>)
    ensures entries == MapSeq(ManifestEntry, Buildable(AllTargets(gens)))
  {
    entries := [];
    var i := 0;
    while i < |gens|
      invariant 0 <= i <= |gens|
      invariant entries == MapSeq(ManifestEntry, Buildable(AllTargets(gens[..i])))
    {
      var targets := gens[i].targets;
      var local := [];
      var j := 0;
      while j < |targets|
        invariant 0 <= j <= |targets|
        invariant local == MapSeq(ManifestEntry, Buildable(targets[..j]))
      {
        BuildablePrefixStep(targets, j);
        if IsBuildable(targets[j].kind) {
          MapSeqAppend(ManifestEntry, Buildable(targets[..j]), [targets[j]]);
          local := local + [ManifestEntry(targets[j])];
        }
        j := j + 1;
      }
      assert targets[..j] == targets;
      AllTargetsPrefixStep(gens, i);
      BuildableAppend(AllTargets(gens[..i]), targets);
      MapSeqAppend(ManifestEntry, Buildable(AllTargets(gens[..i])), Buildable(targets));
      entries := entries + local;
      i := i + 1;
    }
    assert gens[..i] == gens;
  }

  lemma BuildablePrefixStep(ts: seq<Target>, j: nat)
    requires j < |ts|
    ensures Buildable(ts[..j + 1])
         == Buildable(ts[..j]) + (if IsBuildable(ts[j].kind) then [ts[j]] else [])
  {
    assert ts[..j + 1][..j] == ts[..j];
  }

  lemma AllTargetsPrefixStep(gens: seq<LocalGenerator>, i: nat)
    requires i < |gens|
    ensures AllTargets(gens[..i + 1]) == AllTargets(gens[..i]) + gens[i].targets
  {
    assert gens[..i + 1][..i] == gens[..i];
  }

  lemma MapSeqAppend<A, B>(f: A -> B, xs: seq<A>, ys: seq<A>)
    ensures MapSeq(f, xs + ys) == MapSeq(f, xs) + MapSeq(f, ys)
  {
    var l, r := MapSeq(f, xs + ys), MapSeq(f, xs) + MapSeq(f, ys);
    assert |l| == |r|;
    forall i | 0 <= i < |l| ensures l[i] == r[i] {
      if i < |xs| {
        assert (xs + ys)[i] == xs[i];
      } else {
        assert (xs + ys)[i] == ys[i - |xs|];
      }
    }
  }

  /** Filtering distributes over concatenation. */
  lemma {:induction false} BuildableAppend(xs: seq<Target>, ys: seq<Target>)
    ensures Buildable(xs + ys) == Buildable(xs) + Buildable(ys)
    decreases |ys|
  {
    if ys == [] {
      assert xs + ys == xs;
    } else {
      var ys' := ys[..|ys| - 1];
      assert (xs + ys)[..|xs + ys| - 1] == xs + ys';
      BuildableAppend(xs, ys');
    }
  }

  /** Every target listed is buildable and every listed target comes from
      some generator; conversely every buildable target of a generator is
      listed. */
  lemma {:induction false} BuildableExactly(ts: seq<Target>, t: Target)
    ensures t in Buildable(ts) <==> t in ts && IsBuildable(t.kind)
  {
    if ts != [] {
      var ts' := ts[..|ts| - 1];
      BuildableExactly(ts', t);
      assert ts == ts' + [ts[|ts| - 1]];
    }
  }

  lemma {:induction false} BuildableCount(ts: seq<Target>)
    ensures |Buildable(ts)| == CountBuildable(ts)
  {
    if ts != [] {
      BuildableCount(ts[1..]);
      assert ts == [ts[0]] + ts[1..];
      BuildableAppend([ts[0]], ts[1..]);
      assert [ts[0]][..0] == [];
    }
  }

  /** Generator order is kept: the manifest of two generator lists written
      one after the other is the concatenation of their manifests. */
  lemma {:induction false} ManifestConcat(g1: seq<LocalGenerator>, g2: seq<LocalGenerator>)
    ensures MapSeq(ManifestEntry, Buildable(AllTargets(g1 + g2)))
         == MapSeq(ManifestEntry, Buildable(AllTargets(g1)))
            + MapSeq(ManifestEntry, Buildable(AllTargets(g2)))
  {
    AllTargetsAppend(g1, g2);
    BuildableAppend(AllTargets(g1), AllTargets(g2));
    MapSeqAppend(ManifestEntry, Buildable(AllTargets(g1)), Buildable(AllTargets(g2)));
  }

  lemma {:induction false} AllTargetsAppend(g1: seq<LocalGenerator>, g2: seq<LocalGenerator>)
    ensures AllTargets(g1 + g2) == AllTargets(g1) + AllTargets(g2)
    decreases |g2|
  {
    if g2 == [] {
      assert g1 + g2 == g1;
    } else {
      var g2' := g2[..|g2| - 1];
      assert (g1 + g2)[..|g1 + g2| - 1] == g1 + g2';
      AllTargetsAppend(g1, g2');
    }
  }

  /** Each entry names a DependInfo.cmake file; under the stand-in
      conversion it holds no backslash. */
  lemma ManifestEntryShape(t: Target)
    ensures EndsWith(ManifestEntry(t), "/" + DependInfoFile)
    ensures '\\' !in ManifestEntry(t)
  {
    var raw := t.relativeTargetDirectory + "/" + DependInfoFile;
    var e := ManifestEntry(t);
    var suffix := "/" + DependInfoFile;
    assert raw[|raw| - |suffix|..] == suffix;
    forall k | 0 <= k < |suffix|
      ensures e[|e| - |suffix| + k] == suffix[k]
    {
      assert raw[|raw| - |suffix| + k] == suffix[k];
    }
    assert e[|e| - |suffix|..] == suffix;
  }

  /** The whole manifest: one entry per buildable target, of the right shape. */
  lemma ManifestShape(gens: seq<LocalGenerator>)
    ensures var entries := MapSeq(ManifestEntry, Buildable(AllTargets(gens)));
            && |entries| == CountBuildable(AllTargets(gens))
            && forall k :: 0 <= k < |entries| ==>
                 EndsWith(entries[k], "/" + DependInfoFile) && '\\' !in entries[k]
  {
    var kept := Buildable(AllTargets(gens));
    BuildableCount(AllTargets(gens));
    forall k | 0 <= k < |kept|
      ensures EndsWith(ManifestEntry(kept[k]), "/" + DependInfoFile)
      ensures '\\' !in ManifestEntry(kept[k])
    {
      ManifestEntryShape(kept[k]);
    }
  }
}
