/**
  The CMAKE_TARGET_LINKED_INFO_FILES list: the records of the targets a
  target links to, directly or transitively. The link information already
  holds the flattened transitive item list; the writer only drops items that
  name no target or an imported one and keeps the first item of each target.
 */
module LinkClosure {
  import opened BuildGraph

  /** An item that names a target that is not imported. */
  predicate Eligible(item: LinkItem) {
    item.target.Some? && !item.target.value.imported
  }

  /** Identities of the targets in `ts`. */
  function Ids(ts: seq<TargetRef>): set<TargetId> {
    set i | 0 <= i < |ts| :: ts[i].id
  }

  /** Identities of the eligible targets named by `items`. */
  function EligibleIds(items: seq<LinkItem>): set<TargetId> {
    set k | 0 <= k < |items| && Eligible(items[k]) :: items[k].target.value.id
  }

  predicate DistinctIds(ts: seq<TargetRef>) {
    forall i, j :: 0 <= i < j < |ts| ==> ts[i].id != ts[j].id
  }

  /** The eligible targets named by `items`. */
  function Named(items: seq<LinkItem>): set<TargetRef> {
    set k | 0 <= k < |items| && Eligible(items[k]) :: items[k].target.value
  }

  /**
    The loop over the link items with the `emitted` set: an eligible item
    whose target has not been emitted yet is emitted and remembered.
   */
  function CollectLinked(visited: set<TargetId>, items: seq<LinkItem>): seq<TargetRef>
    decreases |items|
  {
    if items == [] then []
    else
      var item := items[0];
      if Eligible(item) && item.target.value.id !in visited then
        var t := item.target.value;
        [t] + CollectLinked(visited + {t.id}, items[1..])
      else
        CollectLinked(visited, items[1..])
  }

  /**
    What the fold emits, given the targets already visited: distinct
    targets, each eligible, named by some item and not visited before; and
    every eligible target of the items is either visited before or emitted.
   */
  lemma {:induction false} CollectLinkedFacts(visited: set<TargetId>, items: seq<LinkItem>)
    ensures var r := CollectLinked(visited, items);
            && DistinctIds(r)
            && (forall i :: 0 <= i < |r| ==> r[i] in Named(items) && r[i].id !in visited)
            && EligibleIds(items) <= visited + Ids(r)
    decreases |items|
  {
    if items != [] {
      var item := items[0];
      SplitFirst(items);
      if Eligible(item) && item.target.value.id !in visited {
        var t := item.target.value;
        CollectLinkedFacts(visited + {t.id}, items[1..]);
        var rest := CollectLinked(visited + {t.id}, items[1..]);
        IdsCons(t, rest);
        var r := [t] + rest;
        assert forall i :: 1 <= i < |r| ==> r[i] == rest[i - 1];
      } else {
        CollectLinkedFacts(visited, items[1..]);
      }
    }
  }

  lemma SplitFirst(items: seq<LinkItem>)
    requires items != []
    ensures Named(items) == Named(items[..1]) + Named(items[1..])
    ensures EligibleIds(items) == EligibleIds(items[..1]) + EligibleIds(items[1..])
    ensures Eligible(items[0]) ==>
              (Named(items[..1]) == {items[0].target.value}
               && EligibleIds(items[..1]) == {items[0].target.value.id})
    ensures !Eligible(items[0]) ==> Named(items[..1]) == {} && EligibleIds(items[..1]) == {}
  {
    assert items == items[..1] + items[1..];
    IdsSplit(items[..1], items[1..]);
  }

  lemma IdsSplit(a: seq<LinkItem>, b: seq<LinkItem>)
    ensures Named(a + b) == Named(a) + Named(b)
    ensures EligibleIds(a + b) == EligibleIds(a) + EligibleIds(b)
  {
    var l := a + b;
    assert forall k :: 0 <= k < |a| ==> l[k] == a[k];
    assert forall k :: 0 <= k < |b| ==> l[|a| + k] == b[k];
    assert forall k :: |a| <= k < |l| ==> l[k] == b[k - |a|];
  }

  lemma IdsCons(t: TargetRef, rest: seq<TargetRef>)
    ensures Ids([t] + rest) == {t.id} + Ids(rest)
  {
    IdsAppend([t], rest);
    assert [t][0] == t;
  }

  lemma IdsAppend(a: seq<TargetRef>, b: seq<TargetRef>)
    ensures Ids(a + b) == Ids(a) + Ids(b)
  {
    var l := a + b;
    assert forall i :: 0 <= i < |a| ==> l[i] == a[i];
    assert forall i :: 0 <= i < |b| ==> l[|a| + i] == b[i];
    assert forall i :: |a| <= i < |l| ==> l[i] == b[i - |a|];
  }

  /** The linked targets of a link-item list, in emission order. */
  function LinkedTargets(items: seq<LinkItem>): seq<TargetRef> {
    CollectLinked({}, items)
  }

  /**
    Reference definition of first-seen order: the targets of a list are
    those of its prefix, followed by the last item's target if it is
    eligible and was not seen in the prefix.
   */
  function FirstSeen(items: seq<LinkItem>): seq<TargetRef> {
    if items == [] then []
    else
      var prefix := items[..|items| - 1];
      var last := items[|items| - 1];
      FirstSeen(prefix)
      + (if Eligible(last) && last.target.value.id !in EligibleIds(prefix)
         then [last.target.value] else [])
  }

  lemma EligibleIdsSnoc(items: seq<LinkItem>, x: LinkItem)
    ensures EligibleIds(items + [x])
         == EligibleIds(items) + (if Eligible(x) then {x.target.value.id} else {})
  {
    IdsSplit(items, [x]);
    assert EligibleIds([x]) == (if Eligible(x) then {x.target.value.id} else {}) by {
      SplitFirst([x]);
      assert [x][..1] == [x];
    }
  }

  lemma {:induction false} FirstSeenIds(items: seq<LinkItem>)
    ensures Ids(FirstSeen(items)) == EligibleIds(items)
  {
    if items != [] {
      var prefix := items[..|items| - 1];
      var last := items[|items| - 1];
      assert items == prefix + [last];
      FirstSeenIds(prefix);
      EligibleIdsSnoc(prefix, last);
      var tail := if Eligible(last) && last.target.value.id !in EligibleIds(prefix)
                  then [last.target.value] else [];
      IdsAppend(FirstSeen(prefix), tail);
      assert tail != [] ==> Ids(tail) == {last.target.value.id} by {
        if tail != [] {
          assert tail + [] == tail;
          IdsCons(last.target.value, []);
        }
      }
    }
  }

  /** One step of the fold. */
  lemma CollectLinkedStep(visited: set<TargetId>, items: seq<LinkItem>)
    requires items != []
    ensures var x := items[0];
            CollectLinked(visited, items)
            == if Eligible(x) && x.target.value.id !in visited
               then [x.target.value] + CollectLinked(visited + {x.target.value.id}, items[1..])
               else CollectLinked(visited, items[1..])
  {
  }

  /** One step of the reference definition. */
  lemma FirstSeenSnoc(p: seq<LinkItem>, x: LinkItem)
    ensures FirstSeen(p + [x])
         == FirstSeen(p) + (if Eligible(x) && x.target.value.id !in EligibleIds(p)
                            then [x.target.value] else [])
  {
    var p' := p + [x];
    assert p'[..|p'| - 1] == p;
    assert p'[|p'| - 1] == x;
  }

  /** Generalised equivalence: running the fold over `s` with the targets of
      `p` already visited extends the reference result for `p` to `p + s`. */
  lemma {:induction false} CollectLinkedExtends(p: seq<LinkItem>, s: seq<LinkItem>)
    ensures FirstSeen(p) + CollectLinked(EligibleIds(p), s) == FirstSeen(p + s)
    decreases |s|
  {
    if s == [] {
      assert p + s == p;
    } else {
      var x := s[0];
      var p' := p + [x];
      assert p + s == p' + s[1..];
      EligibleIdsSnoc(p, x);
      FirstSeenSnoc(p, x);
      CollectLinkedStep(EligibleIds(p), s);
      CollectLinkedExtends(p', s[1..]);
      var rest := CollectLinked(EligibleIds(p'), s[1..]);
      if Eligible(x) && x.target.value.id !in EligibleIds(p) {
        assert FirstSeen(p) + ([x.target.value] + rest)
            == (FirstSeen(p) + [x.target.value]) + rest;
      } else {
        assert EligibleIds(p') == EligibleIds(p);
        assert FirstSeen(p') == FirstSeen(p) + [];
        assert CollectLinked(EligibleIds(p), s) == rest;
      }
    }
  }

  /** The fold of the writer computes exactly the first-seen reference list. */
  lemma LinkedTargetsFirstSeen(items: seq<LinkItem>)
    ensures LinkedTargets(items) == FirstSeen(items)
  {
    CollectLinkedExtends([], items);
    assert [] + items == items;
    assert EligibleIds([]) == {};
  }

  /**
    Exactly the eligible targets, each once: a target is listed iff some
    item names it and is not imported; items naming no target or an
    imported one never contribute.
   */
  lemma LinkedTargetsExactly(items: seq<LinkItem>, id: TargetId)
    ensures id in Ids(LinkedTargets(items)) <==> id in EligibleIds(items)
    ensures DistinctIds(LinkedTargets(items))
    ensures forall i :: 0 <= i < |LinkedTargets(items)| ==> !LinkedTargets(items)[i].imported
  {
    LinkedTargetsFirstSeen(items);
    FirstSeenIds(items);
    CollectLinkedFacts({}, items);
  }

  /** First-seen order: the list for a prefix of the items is a prefix of
      the list for all of them, so later items only ever append. */
  lemma LinkedTargetsPrefix(p: seq<LinkItem>, s: seq<LinkItem>)
    ensures LinkedTargets(p + s) == LinkedTargets(p) + CollectLinked(EligibleIds(p), s)
  {
    CollectLinkedExtends(p, s);
    LinkedTargetsFirstSeen(p);
    LinkedTargetsFirstSeen(p + s);
  }

  /** Path of a linked target's record: inside the linked target's own
      output directory, naming its DependInfo.cmake. */
  function LinkedInfoPath(t: TargetRef): (r: string)
    ensures |r| > |t.startOutputDirectory| && r[..|t.startOutputDirectory| + 1] == t.startOutputDirectory + "/"
    ensures EndsWith(r, "/" + DependInfoFile)
    ensures |t.startOutputDirectory| + 1 <= |r| - |"/" + DependInfoFile|
    ensures r[|t.startOutputDirectory| + 1 .. |r| - |"/" + DependInfoFile|] == t.targetDirectory
  {
    var dir := t.startOutputDirectory + "/" + t.targetDirectory;
    var r := dir + "/" + DependInfoFile;
    assert r[|r| - |"/" + DependInfoFile|..] == "/" + DependInfoFile;
    assert r[..|t.startOutputDirectory| + 1] == dir[..|t.startOutputDirectory| + 1];
    assert r[|t.startOutputDirectory| + 1 .. |dir|] == dir[|t.startOutputDirectory| + 1..];
    r
  }

  /** The entries of CMAKE_TARGET_LINKED_INFO_FILES; no link information
      yields no entries. */
  function LinkedInfoFileList(linkItems: Option<seq<LinkItem>>): seq<string> {
    match linkItems
    case None => []
    case Some(items) => MapSeq(LinkedInfoPath, LinkedTargets(items))
  }

  /** One entry per distinct eligible linked target; none without link
      information. */
  lemma LinkedInfoFileCount(linkItems: Option<seq<LinkItem>>)
    ensures linkItems.None? ==> LinkedInfoFileList(linkItems) == []
    ensures linkItems.Some? ==>
              |LinkedInfoFileList(linkItems)| == |EligibleIds(linkItems.value)|
  {
    if linkItems.Some? {
      var ts := LinkedTargets(linkItems.value);
      LinkedTargetsExactly(linkItems.value, "");
      DistinctIdsCard(ts);
      assert Ids(ts) == EligibleIds(linkItems.value) by {
        forall id ensures id in Ids(ts) <==> id in EligibleIds(linkItems.value) {
          LinkedTargetsExactly(linkItems.value, id);
        }
      }
    }
  }

  lemma {:induction false} DistinctIdsCard(ts: seq<TargetRef>)
    requires DistinctIds(ts)
    ensures |Ids(ts)| == |ts|
  {
    if ts != [] {
      var ts' := ts[1..];
      assert DistinctIds(ts');
      DistinctIdsCard(ts');
      assert Ids(ts) == {ts[0].id} + Ids(ts') by {
        assert forall i :: 0 <= i < |ts'| ==> ts'[i] == ts[i + 1];
      }
      assert ts[0].id !in Ids(ts');
    }
  }

  /** The diamond: T links A and B, both link C; the flattened list holds C
      twice and C is listed once, after A and B. */
  lemma DiamondListedOnce(a: TargetRef, b: TargetRef, c: TargetRef)
    requires !a.imported && !b.imported && !c.imported
    requires a.id != b.id && a.id != c.id && b.id != c.id
    ensures LinkedTargets([LinkItem(Some(a)), LinkItem(Some(b)), LinkItem(Some(c)), LinkItem(Some(c))])
         == [a, b, c]
  {
    var ia, ib, ic := LinkItem(Some(a)), LinkItem(Some(b)), LinkItem(Some(c));
    var items := [ia, ib, ic, ic];
    assert items[1..] == [ib, ic, ic];
    assert items[1..][1..] == [ic, ic];
    assert items[1..][1..][1..] == [ic];
    assert items[1..][1..][1..][1..] == [];
    assert [ic, ic][1..] == [ic];
    assert [ib, ic, ic][1..] == [ic, ic];
    assert {a.id, b.id} + {c.id} == {a.id, b.id, c.id};
    assert {a.id} + {b.id} == {a.id, b.id};
    assert {} + {a.id} == {a.id};
    assert CollectLinked({a.id, b.id, c.id}, [ic]) == [];
    assert CollectLinked({a.id, b.id}, [ic, ic]) == [c] + CollectLinked({a.id, b.id, c.id}, [ic]);
    assert CollectLinked({a.id}, [ib, ic, ic]) == [b] + CollectLinked({a.id, b.id}, [ic, ic]);
    assert CollectLinked({}, items) == [a] + CollectLinked({a.id}, [ib, ic, ic]);
  }
}
