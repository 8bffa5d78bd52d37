/** Whether a compaction leaves the tabs listed in key order, as the next one needs. */
module IndexOrder {
  import opened Basics
  import opened IndexTabs
  import opened IndexLevels
  import opened Compaction

  // every key of a is below every key of b
  ghost predicate KeysBelow(a: Tab, b: Tab) {
    forall x, y :: HasKey(a, x) && HasKey(b, y) ==> Less(x, y)
  }

  lemma OrderedConcat(a: Tab, b: Tab)
    ensures Ordered(a + b) <==> Ordered(a) && Ordered(b) && KeysBelow(a, b)
  {
    if Ordered(a + b) {
      OrderedApart(a, b);
    }
    if Ordered(a) && Ordered(b) && KeysBelow(a, b) {
      var both := a + b;
      forall i, j | 0 <= i < j < |both| ensures Less(both[i].id, both[j].id) {
        if i < |a| <= j {
          assert HasKey(a, a[i].id) && HasKey(b, b[j - |a|].id);
        }
      }
    }
  }

  lemma {:induction false} FlatHasKey(lvl: Level, k: Eid)
    ensures HasKey(Flatten(lvl), k) <==> exists t :: t in lvl && HasKey(t, k)
    decreases |lvl|
  {
    hide HasKey;
    if lvl == [] {
      NoKeys(k);
    } else {
      FlatHasKey(lvl[1..], k);
      KeyConcat(lvl[0], Flatten(lvl[1..]), k);
      assert lvl == [lvl[0]] + lvl[1..];
    }
  }

  lemma NoKeys(k: Eid)
    ensures !HasKey([], k)
  {
  }

  lemma KeyConcat(a: Tab, b: Tab, k: Eid)
    ensures HasKey(a + b, k) <==> HasKey(a, k) || HasKey(b, k)
  {
    if HasKey(a, k) {
      var i :| 0 <= i < |a| && a[i].id == k;
      assert (a + b)[i].id == k;
    }
    if HasKey(b, k) {
      var i :| 0 <= i < |b| && b[i].id == k;
      assert (a + b)[|a| + i].id == k;
    }
  }

  /** Listed in key order, tab after tab. */
  ghost predicate Listed(lvl: Level) {
    forall i, j :: 0 <= i < j < |lvl| ==> KeysBelow(lvl[i], lvl[j])
  }

  lemma {:induction false} FlatListed(lvl: Level)
    requires TabsOk(lvl)
    ensures Ordered(Flatten(lvl)) <==> Listed(lvl)
    decreases |lvl|
  {
    hide HasKey, Ordered;
    if lvl == [] {
      NoItems();
    } else {
      var rest := lvl[1..];
      FlatListed(rest);
      OrderedConcat(lvl[0], Flatten(rest));
      forall k { FlatHasKey(rest, k); }
      if Listed(lvl) {
        forall x, y | HasKey(lvl[0], x) && HasKey(Flatten(rest), y) ensures Less(x, y) {
          var t :| t in rest && HasKey(t, y);
          var j :| 0 <= j < |rest| && rest[j] == t;
          assert KeysBelow(lvl[0], lvl[j + 1]);
        }
      }
      if KeysBelow(lvl[0], Flatten(rest)) && Listed(rest) {
        ListedCons(lvl[0], rest);
        assert [lvl[0]] + rest == lvl;
      }
    }
  }

  lemma ListedCons(head: Tab, rest: Level)
    requires KeysBelow(head, Flatten(rest)) && Listed(rest)
    ensures Listed([head] + rest)
  {
    hide HasKey;
    var lvl := [head] + rest;
    forall i, j | 0 <= i < j < |lvl| ensures KeysBelow(lvl[i], lvl[j]) {
      if i == 0 {
        assert lvl[j] in rest;
        forall y { FlatHasKey(rest, y); }
      }
    }
  }

  lemma {:induction false} HalvesListed(lvl: Level, begin: Eid, end: Eid)
    requires Listed(lvl)
    ensures Listed(Overlapping(lvl, begin, end)) && Listed(Kept(lvl, begin, end))
  {
    hide KeysBelow, Overlaps;
    if lvl != [] {
      var n := |lvl| - 1;
      HalvesListed(lvl[..n], begin, end);
      FromLevel(lvl[..n], begin, end);
      forall t | t in lvl[..n] ensures KeysBelow(t, lvl[n]) {
        var i :| 0 <= i < n && lvl[..n][i] == t;
        assert t == lvl[i];
      }
    }
  }

  // two tabs of a listed level, one of which holds a smaller key
  lemma ListedSides(lvl: Level, s: Tab, t: Tab, x: Eid, y: Eid)
    requires Listed(lvl) && s in lvl && t in lvl && HasKey(s, x) && HasKey(t, y) && Less(x, y) && Disjoint(s, t)
    ensures KeysBelow(s, t)
  {
    hide HasKey;
    var i :| 0 <= i < |lvl| && lvl[i] == s;
    var j :| 0 <= j < |lvl| && lvl[j] == t;
    assert i != j && !KeysBelow(t, s);
  }

  lemma EndKeys(tab: Tab)
    requires tab != []
    ensures HasKey(tab, First(tab)) && HasKey(tab, Last(tab))
    ensures Ordered(tab) ==> forall k :: HasKey(tab, k) ==> !Less(k, First(tab)) && !Less(Last(tab), k)
  {
    if Ordered(tab) {
      forall k | HasKey(tab, k) ensures !Less(k, First(tab)) && !Less(Last(tab), k) {
        TabGetNone(tab, k);
        KeyInside(tab, k);
      }
    }
  }

  lemma MemberOk(lvl: Level, t: Tab)
    requires LevelOk(lvl) && t in lvl
    ensures t != [] && Ordered(t)
  {
  }

  lemma TwoDisjoint(lvl: Level, s: Tab, t: Tab, begin: Eid, end: Eid)
    requires LevelOk(lvl) && s in lvl && t in lvl && Overlaps(s, begin, end) && !Overlaps(t, begin, end)
    ensures Disjoint(s, t)
  {
    hide Disjoint, Overlaps, Ordered;
    var i :| 0 <= i < |lvl| && lvl[i] == s;
    var j :| 0 <= j < |lvl| && lvl[j] == t;
    if i < j {
      assert Disjoint(lvl[i], lvl[j]);
    } else {
      assert j < i;
      assert Disjoint(lvl[j], lvl[i]);
      DisjointSym(t, s);
    }
  }

  lemma DisjointSym(s: Tab, t: Tab)
    requires Disjoint(s, t)
    ensures Disjoint(t, s)
  {
  }

  lemma OrderedOverlap(tab: Tab, next: Level)
    requires tab != [] && Ordered(tab) && LevelOk(next) && Ordered(Flatten(next))
    ensures Mergeable(tab, next) && Listed(next)
    ensures Ordered(Flatten(Kept(next, First(tab), Last(tab))))
  {
    hide Ordered, Listed, Overlapping, Kept, Disjoint;
    FlatListed(next);
    HalvesListed(next, First(tab), Last(tab));
    HalvesOk(next, First(tab), Last(tab));
    FlatListed(Overlapping(next, First(tab), Last(tab)));
    FlatListed(Kept(next, First(tab), Last(tab)));
  }

  lemma MergedKey(tab: Tab, ov: Level, k: Eid)
    requires Ordered(tab) && Ordered(Flatten(ov)) && HasKey(Merged(tab, Flatten(ov)), k)
    ensures HasKey(tab, k) || exists t :: t in ov && HasKey(t, k)
  {
    hide Ordered, HasKey, TabGet;
    MergedGet(tab, Flatten(ov), k);
    TabGetNone(Merged(tab, Flatten(ov)), k);
    TabGetNone(tab, k);
    TabGetNone(Flatten(ov), k);
    FlatHasKey(ov, k);
  }

  // a kept tab lies wholly on one side of the merged keys
  lemma KeptSide(tab: Tab, next: Level, t: Tab, k: Eid)
    requires tab != [] && Ordered(tab) && LevelOk(next) && Ordered(Flatten(next))
    requires t in Kept(next, First(tab), Last(tab))
    requires HasKey(Merged(tab, Flatten(Overlapping(next, First(tab), Last(tab)))), k)
    ensures t != []
    ensures Less(Last(tab), First(t)) ==> forall x :: HasKey(t, x) ==> Less(k, x)
    ensures !Less(Last(tab), First(t)) ==> forall x :: HasKey(t, x) ==> Less(x, k)
  {
    hide Ordered, HasKey, Disjoint, Listed, Merged, Overlapping, Kept;
    var begin, end := First(tab), Last(tab);
    OrderedOverlap(tab, next);
    FromLevel(next, begin, end);
    MemberOk(next, t);
    EndKeys(t);
    EndKeys(tab);
    MergedKey(tab, Overlapping(next, begin, end), k);
    if !HasKey(tab, k) {
      var o :| o in Overlapping(next, begin, end) && HasKey(o, k);
      OverlapSide(next, begin, end, o, t);
    }
  }

  lemma OverlapSide(next: Level, begin: Eid, end: Eid, o: Tab, t: Tab)
    requires LevelOk(next) && Listed(next) && !Less(end, begin)
    requires o in next && t in next && Overlaps(o, begin, end) && !Overlaps(t, begin, end)
    ensures t != [] && if Less(end, First(t)) then KeysBelow(o, t) else KeysBelow(t, o)
  {
    hide Ordered, HasKey, Disjoint, Listed, KeysBelow;
    MemberOk(next, t);
    MemberOk(next, o);
    EndKeys(t);
    EndKeys(o);
    TwoDisjoint(next, o, t, begin, end);
    DisjointSym(o, t);
    if Less(end, First(t)) {
      ListedSides(next, o, t, First(o), First(t));
    } else {
      ListedSides(next, t, o, Last(t), Last(o));
    }
  }

  // some tab of the next level lies wholly above the compacted keys
  ghost predicate TabAbove(next: Level, end: Eid) {
    exists t :: t in next && t != [] && Less(end, First(t))
  }

  lemma {:induction false} KeptTab(lvl: Level, begin: Eid, end: Eid, t: Tab)
    requires t in lvl && !Overlaps(t, begin, end)
    ensures t in Kept(lvl, begin, end)
  {
    if lvl[|lvl| - 1] != t {
      KeptTab(lvl[..|lvl| - 1], begin, end, t);
    }
  }

  /** Starting from tabs in key order, a compaction leaves them in key order if and
      only if nothing is left to add or no tab lies above the compacted keys: the
      merged tabs always go last. */
  lemma NextLevelListed(tab: Tab, next: Level, size: nat)
    requires tab != [] && Ordered(tab) && LevelOk(next) && Ordered(Flatten(next)) && size > 0
    ensures Ordered(Flatten(NextLevel(tab, next, size))) <==>
      Merged(tab, Flatten(Overlapping(next, First(tab), Last(tab)))) == [] || !TabAbove(next, Last(tab))
  {
    hide Ordered, Disjoint, Listed, Merged, Overlapping, Kept, Divided, HasKey, LevelOk;
    var begin, end := First(tab), Last(tab);
    var kept, merged := Kept(next, begin, end), Merged(tab, Flatten(Overlapping(next, begin, end)));
    OrderedOverlap(tab, next);
    MergedOrdered(tab, Flatten(Overlapping(next, begin, end)));
    FlattenAppend(kept, Divided(merged, size));
    DividedParts(merged, size);
    OrderedConcat(Flatten(kept), merged);
    FromLevel(next, begin, end);
    if merged == [] {
      forall k { NoKeys(k); }
    } else if TabAbove(next, end) {
      var t :| t in next && t != [] && Less(end, First(t));
      KeptTab(next, begin, end, t);
      EndKeys(t);
      EndKeys(merged);
      KeptSide(tab, next, t, First(merged));
      FlatHasKey(kept, First(t));
      assert !KeysBelow(Flatten(kept), merged);
    } else {
      forall x, y | HasKey(Flatten(kept), x) && HasKey(merged, y) ensures Less(x, y) {
        FlatHasKey(kept, x);
        var t :| t in kept && HasKey(t, x);
        KeptSide(tab, next, t, y);
      }
    }
  }
}
