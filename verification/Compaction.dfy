/** Compaction of a level into the next one. */
module Compaction {
  import opened Basics
  import opened IndexTabs
  import opened IndexLevels

  const ITEM_CAP_BASE: nat := 4096
  const TAB_CNT_BASE: nat := 4

  function TenTo(n: nat): (r: nat)
    ensures r > n
  {
    if n == 0 then 1 else 10 * TenTo(n - 1)
  }

  function ItemCap(num: nat): (r: nat)
    ensures r > 0
  {
    ITEM_CAP_BASE * TenTo(num)
  }

  // how large the tabs of a level get
  function TabSize(num: nat): (r: nat)
    ensures r > 0
  {
    assert ItemCap(num) >= TAB_CNT_BASE * (num + 1);
    DivPositive(ItemCap(num), TAB_CNT_BASE * (num + 1));
    ItemCap(num) / (TAB_CNT_BASE * (num + 1))
  }

  lemma DivPositive(a: nat, b: nat)
    requires 0 < b <= a
    ensures a / b > 0
  {
    assert a / b * b + a % b == a;
  }

  // all items of a level, in key order: the code sorts those of level 0 only
  function Combined(lvls: Levels, curr: nat): Tab
    requires curr < |lvls|
  {
    if curr == 0 then SortItems(Flatten(lvls[0])) else Flatten(lvls[curr])
  }

  function Overlapping(lvl: Level, begin: Eid, end: Eid): Level {
    if lvl == [] then []
    else
      var n := |lvl| - 1;
      Overlapping(lvl[..n], begin, end) + if Overlaps(lvl[n], begin, end) then [lvl[n]] else []
  }

  function Kept(lvl: Level, begin: Eid, end: Eid): Level {
    if lvl == [] then []
    else
      var n := |lvl| - 1;
      Kept(lvl[..n], begin, end) + if Overlaps(lvl[n], begin, end) then [] else [lvl[n]]
  }

  function First(tab: Tab): Eid requires tab != [] { tab[0].id }

  function Last(tab: Tab): Eid requires tab != [] { tab[|tab| - 1].id }

  /** The next level after a compaction: the tabs the new keys do not reach, then
      the merged ones. */
  function NextLevel(tab: Tab, next: Level, size: nat): Level
    requires tab != [] && size > 0
  {
    Kept(next, First(tab), Last(tab)) + Divided(Merged(tab, Flatten(Overlapping(next, First(tab), Last(tab)))), size)
  }

  function Compacted(lvls: Levels, curr: nat): (r: Levels)
    requires curr < |lvls| && Combined(lvls, curr) != []
    ensures |r| == Max(|lvls|, curr + 2)
  {
    if curr + 1 == |lvls| then lvls[curr := []] + [[Combined(lvls, curr)]]
    else lvls[curr := []][curr + 1 := NextLevel(Combined(lvls, curr), lvls[curr + 1], TabSize(curr + 1))]
  }

  // ---- the two halves of the next level ----

  lemma {:induction false} LevelConcat(a: Level, b: Level, k: Eid)
    ensures LevelGet(a + b, k) == if LevelGet(b, k).Some? then LevelGet(b, k) else LevelGet(a, k)
    decreases |b|
  {
    if b == [] {
      assert a + b == a;
    } else {
      var n := |b| - 1;
      assert (a + b)[..|a + b| - 1] == a + b[..n];
      LevelConcat(a, b[..n], k);
    }
  }

  lemma {:induction false} FromLevel(lvl: Level, begin: Eid, end: Eid)
    ensures forall t :: t in Overlapping(lvl, begin, end) ==> t in lvl && Overlaps(t, begin, end)
    ensures forall t :: t in Kept(lvl, begin, end) ==> t in lvl && !Overlaps(t, begin, end)
  {
    if lvl != [] {
      var n := |lvl| - 1;
      FromLevel(lvl[..n], begin, end);
    }
  }

  // a tab disjoint from every tab of a level
  ghost predicate Apart(lvl: Level, tab: Tab) {
    forall t :: t in lvl ==> Disjoint(t, tab)
  }

  lemma LevelInit(lvl: Level)
    requires LevelOk(lvl) && lvl != []
    ensures var n := |lvl| - 1; LevelOk(lvl[..n]) && Apart(lvl[..n], lvl[n]) && lvl[n] != [] && Ordered(lvl[n])
  {
    hide Disjoint, Ordered;
  }

  lemma LevelSnoc(lvl: Level, tab: Tab)
    requires LevelOk(lvl) && Apart(lvl, tab) && tab != [] && Ordered(tab)
    ensures LevelOk(lvl + [tab])
  {
    hide Disjoint, Ordered;
    forall i, j | 0 <= i < j < |lvl| + 1 ensures Disjoint((lvl + [tab])[i], (lvl + [tab])[j]) {
      assert (lvl + [tab])[i] in lvl;
    }
  }

  lemma ApartSub(lvl: Level, sub: Level, tab: Tab)
    requires Apart(lvl, tab) && forall t :: t in sub ==> t in lvl
    ensures Apart(sub, tab)
  {
  }

  lemma {:induction false} HalvesOk(lvl: Level, begin: Eid, end: Eid)
    requires LevelOk(lvl)
    ensures LevelOk(Overlapping(lvl, begin, end)) && LevelOk(Kept(lvl, begin, end))
  {
    hide LevelOk, Apart, Overlaps, Ordered;
    if lvl == [] {
      EmptyLevel();
    } else {
      var n := |lvl| - 1;
      LevelInit(lvl);
      HalvesOk(lvl[..n], begin, end);
      FromLevel(lvl[..n], begin, end);
      var o, k := Overlapping(lvl[..n], begin, end), Kept(lvl[..n], begin, end);
      ApartSub(lvl[..n], o, lvl[n]);
      ApartSub(lvl[..n], k, lvl[n]);
      LevelSnoc(o, lvl[n]);
      LevelSnoc(k, lvl[n]);
      assert o + [] == o && k + [] == k;
    }
  }

  lemma EmptyLevel()
    ensures LevelOk([])
  {
  }

  lemma ApartMisses(lvl: Level, tab: Tab, k: Eid)
    requires Apart(lvl, tab) && TabGet(tab, k).Some?
    ensures LevelGet(lvl, k).None?
  {
    forall i | 0 <= i < |lvl| ensures TabGet(lvl[i], k).None? {
      assert lvl[i] in lvl;
      TabGetNone(tab, k);
      TabGetNone(lvl[i], k);
    }
    LevelMisses(lvl, k);
  }

  /** A lookup in the level is one in the overlapping tabs, then in the others. */
  lemma {:induction false} HalvesGet(lvl: Level, begin: Eid, end: Eid, k: Eid)
    requires LevelOk(lvl)
    ensures var o := LevelGet(Overlapping(lvl, begin, end), k);
      LevelGet(lvl, k) == if o.Some? then o else LevelGet(Kept(lvl, begin, end), k)
  {
    hide LevelOk, Apart, Overlaps, Ordered, TabGet;
    if lvl != [] {
      var n := |lvl| - 1;
      LevelInit(lvl);
      HalvesGet(lvl[..n], begin, end, k);
      FromLevel(lvl[..n], begin, end);
      var o, kept := Overlapping(lvl[..n], begin, end), Kept(lvl[..n], begin, end);
      assert lvl == lvl[..n] + [lvl[n]];
      LevelStep(lvl[..n], lvl[n], k);
      LevelStep(o, lvl[n], k);
      LevelStep(kept, lvl[n], k);
      assert o + [] == o && kept + [] == kept;
      if TabGet(lvl[n], k).Some? {
        ApartSub(lvl[..n], o, lvl[n]);
        ApartMisses(o, lvl[n], k);
      }
    }
  }

  // the keys of a tab are between its first and last
  lemma KeyInside(tab: Tab, k: Eid)
    requires Ordered(tab) && TabGet(tab, k).Some?
    ensures tab != [] && !Less(k, First(tab)) && !Less(Last(tab), k)
  {
    ContainsKey(tab, k);
  }

  lemma KeptMisses(lvl: Level, begin: Eid, end: Eid, k: Eid)
    requires LevelOk(lvl) && !Less(k, begin) && !Less(end, k)
    ensures LevelGet(Kept(lvl, begin, end), k).None?
  {
    hide TabGet, Ordered;
    HalvesOk(lvl, begin, end);
    FromLevel(lvl, begin, end);
    var kept := Kept(lvl, begin, end);
    forall i | 0 <= i < |kept| ensures TabGet(kept[i], k).None? {
      assert kept[i] in kept;
      if TabGet(kept[i], k).Some? {
        ContainsKey(kept[i], k);
      }
    }
    LevelMisses(kept, k);
  }

  lemma DividedLevel(tab: Tab, size: nat)
    requires Ordered(tab) && size > 0
    ensures LevelOk(Divided(tab, size))
    decreases |tab|
  {
    if |tab| > size {
      DividedLevel(tab[size..], size);
      DividedParts(tab[size..], size);
      LevelCons(tab[..size], Divided(tab[size..], size), tab[size..]);
    }
  }

  lemma OrderedApart(head: Tab, all: Tab)
    requires Ordered(head + all)
    ensures Ordered(head) && Ordered(all) && Disjoint(head, all)
    ensures forall a, b :: 0 <= a < |head| && 0 <= b < |all| ==> Less(head[a].id, all[b].id)
  {
    var both := head + all;
    forall a, b | 0 <= a < |head| && 0 <= b < |all| ensures Less(head[a].id, all[b].id) {
      assert Less(both[a].id, both[|head| + b].id);
    }
    forall a, b | 0 <= a < b < |head| ensures Less(head[a].id, head[b].id) {
      assert Less(both[a].id, both[b].id);
    }
    forall a, b | 0 <= a < b < |all| ensures Less(all[a].id, all[b].id) {
      assert Less(both[|head| + a].id, both[|head| + b].id);
    }
  }

  lemma KeyInFlat(lvl: Level, i: nat, k: Eid)
    requires LevelOk(lvl) && i < |lvl| && HasKey(lvl[i], k)
    ensures HasKey(Flatten(lvl), k)
  {
    TabGetNone(lvl[i], k);
    FlatFinds(lvl, i, k);
    TabGetNone(Flatten(lvl), k);
  }

  lemma LevelCons(head: Tab, rest: Level, all: Tab)
    requires LevelOk(rest) && head != [] && Ordered(head + all) && Flatten(rest) == all
    ensures LevelOk([head] + rest)
  {
    hide Ordered, HasKey;
    OrderedApart(head, all);
    forall i | 0 <= i < |rest| ensures Disjoint(head, rest[i]) {
      forall k | HasKey(rest[i], k) ensures !HasKey(head, k) {
        KeyInFlat(rest, i, k);
      }
    }
  }

  /** When the code's merge is meant to work: keys once each and in order. */
  ghost predicate Mergeable(tab: Tab, next: Level) {
    tab != [] && Ordered(tab) && LevelOk(next) && Ordered(Flatten(Overlapping(next, First(tab), Last(tab))))
  }

  lemma MergedPart(tab: Tab, next: Level, size: nat, k: Eid)
    requires Mergeable(tab, next) && size > 0
    ensures var ov := Overlapping(next, First(tab), Last(tab)); var parts := Divided(Merged(tab, Flatten(ov)), size);
      && LevelOk(parts) && LevelGet(parts, k) == MergeGet(TabGet(tab, k), LevelGet(ov, k))
      && Flatten(parts) == Merged(tab, Flatten(ov))
  {
    hide TabGet, LevelGet, Merged, Divided, Overlapping;
    var ov := Overlapping(next, First(tab), Last(tab));
    var merged := Merged(tab, Flatten(ov));
    HalvesOk(next, First(tab), Last(tab));
    MergedOrdered(tab, Flatten(ov));
    MergedGet(tab, Flatten(ov), k);
    DividedLevel(merged, size);
    DividedParts(merged, size);
    LevelIsFlat(Divided(merged, size), k);
    LevelIsFlat(ov, k);
  }

  /** After a compaction the next level answers as the two levels did together,
      except that a deletion mark and what it deleted are both gone. */
  lemma NextLevelGet(tab: Tab, next: Level, size: nat, k: Eid)
    requires Mergeable(tab, next) && size > 0
    ensures LevelGet(NextLevel(tab, next, size), k) == MergeGet(TabGet(tab, k), LevelGet(next, k))
  {
    hide TabGet, LevelGet, Merged, Divided, Overlapping, Kept, Ordered;
    var begin, end := First(tab), Last(tab);
    var kept, ov := Kept(next, begin, end), Overlapping(next, begin, end);
    MergedPart(tab, next, size, k);
    LevelConcat(kept, Divided(Merged(tab, Flatten(ov)), size), k);
    HalvesGet(next, begin, end, k);
    if TabGet(tab, k).Some? {
      KeyInside(tab, k);
      KeptMisses(next, begin, end, k);
    }
  }

  // no key is both in a kept tab and in a merged one
  lemma KeptApart(tab: Tab, next: Level, size: nat, i: nat, j: nat)
    requires Mergeable(tab, next) && size > 0
    requires i < |Kept(next, First(tab), Last(tab))|
    requires j < |Divided(Merged(tab, Flatten(Overlapping(next, First(tab), Last(tab)))), size)|
    ensures Disjoint(Kept(next, First(tab), Last(tab))[i],
                     Divided(Merged(tab, Flatten(Overlapping(next, First(tab), Last(tab)))), size)[j])
  {
    hide TabGet, LevelGet, Merged, Divided, Overlapping, Kept, Ordered, HasKey, LevelOk;
    var begin, end := First(tab), Last(tab);
    var kept, ov := Kept(next, begin, end), Overlapping(next, begin, end);
    var parts := Divided(Merged(tab, Flatten(ov)), size);
    HalvesOk(next, begin, end);
    forall k | HasKey(kept[i], k) ensures !HasKey(parts[j], k) {
      MergedPart(tab, next, size, k);
      TabGetNone(kept[i], k);
      TabGetNone(parts[j], k);
      LevelFinds(kept, i, k);
      if TabGet(parts[j], k).Some? {
        LevelFinds(parts, j, k);
        if TabGet(tab, k).Some? {
          KeyInside(tab, k);
          KeptMisses(next, begin, end, k);
        } else {
          HalvesApart(next, begin, end, k);
        }
      }
    }
  }

  lemma {:induction false} HalvesApart(lvl: Level, begin: Eid, end: Eid, k: Eid)
    requires LevelOk(lvl)
    ensures LevelGet(Overlapping(lvl, begin, end), k).None? || LevelGet(Kept(lvl, begin, end), k).None?
  {
    hide LevelOk, Apart, Overlaps, Ordered, TabGet;
    if lvl != [] {
      var n := |lvl| - 1;
      LevelInit(lvl);
      HalvesApart(lvl[..n], begin, end, k);
      FromLevel(lvl[..n], begin, end);
      var o, kept := Overlapping(lvl[..n], begin, end), Kept(lvl[..n], begin, end);
      LevelStep(o, lvl[n], k);
      LevelStep(kept, lvl[n], k);
      assert o + [] == o && kept + [] == kept;
      if TabGet(lvl[n], k).Some? {
        ApartSub(lvl[..n], o, lvl[n]);
        ApartSub(lvl[..n], kept, lvl[n]);
        ApartMisses(o, lvl[n], k);
        ApartMisses(kept, lvl[n], k);
      }
    }
  }

  /** The next level stays well formed. */
  lemma NextLevelOk(tab: Tab, next: Level, size: nat)
    requires Mergeable(tab, next) && size > 0
    ensures LevelOk(NextLevel(tab, next, size))
  {
    hide Merged, Divided, Overlapping, Kept, Ordered, Disjoint;
    var begin, end := First(tab), Last(tab);
    HalvesOk(next, begin, end);
    MergedPart(tab, next, size, begin);
    forall i: nat, j: nat | i < |Kept(next, begin, end)| && j < |Divided(Merged(tab, Flatten(Overlapping(next, begin, end))), size)|
      ensures Disjoint(Kept(next, begin, end)[i], Divided(Merged(tab, Flatten(Overlapping(next, begin, end))), size)[j])
    {
      KeptApart(tab, next, size, i, j);
    }
  }

  // ---- all levels ----

  lemma {:induction false} LevelsConcat(a: Levels, b: Levels, k: Eid)
    ensures LevelsGet(a + b, k) == if LevelsGet(a, k).Some? then LevelsGet(a, k) else LevelsGet(b, k)
    decreases |a|
  {
    if a == [] {
      assert a + b == b;
    } else {
      assert (a + b)[1..] == a[1..] + b;
      LevelsConcat(a[1..], b, k);
    }
  }

  lemma Split(lvls: Levels, curr: nat, k: Eid)
    requires curr < |lvls|
    ensures LevelsGet(lvls, k) ==
      if LevelsGet(lvls[..curr], k).Some? then LevelsGet(lvls[..curr], k)
      else if LevelGet(lvls[curr], k).Some? then LevelGet(lvls[curr], k)
      else LevelsGet(lvls[curr + 1..], k)
  {
    assert lvls == lvls[..curr] + lvls[curr..];
    LevelsConcat(lvls[..curr], lvls[curr..], k);
    assert lvls[curr..][1..] == lvls[curr + 1..];
  }

  /** What the code relies on when it compacts a level: keys once each, and in
      order where it does not sort. */
  ghost predicate CanCompact(lvls: Levels, curr: nat) {
    && curr < |lvls| && lvls[curr] != [] && LevelOk(lvls[curr])
    && (curr > 0 ==> Ordered(Flatten(lvls[curr])))
    && Combined(lvls, curr) != []
    && (curr + 1 < |lvls| ==> Mergeable(Combined(lvls, curr), lvls[curr + 1]))
  }

  lemma {:induction false} LevelDistinct(lvl: Level)
    requires LevelOk(lvl)
    ensures DistinctKeys(Flatten(lvl))
    decreases |lvl|
  {
    if lvl != [] {
      var head, rest := lvl[0], Flatten(lvl[1..]);
      LevelDistinct(lvl[1..]);
      forall j | 0 <= j < |rest| ensures !HasKey(head, rest[j].id) {
        HeadApart(lvl, rest[j].id);
        assert HasKey(rest, rest[j].id);
      }
      OrderedDistinct(head);
      DistinctConcat(head, rest);
    }
  }

  lemma HeadApart(lvl: Level, k: Eid)
    requires LevelOk(lvl) && lvl != []
    ensures !(HasKey(lvl[0], k) && HasKey(Flatten(lvl[1..]), k))
  {
    hide TabGet, Ordered, HasKey;
    TabGetNone(lvl[0], k);
    TabGetNone(Flatten(lvl[1..]), k);
    if TabGet(lvl[0], k).Some? {
      forall i | 0 <= i < |lvl[1..]| ensures TabGet(lvl[1..][i], k).None? {
        DisjointGet(lvl[0], lvl[i + 1], k);
      }
      FlatMisses(lvl[1..], k);
    }
  }

  lemma OrderedDistinct(tab: Tab)
    requires Ordered(tab)
    ensures DistinctKeys(tab)
  {
    forall i, j | 0 <= i < j < |tab| ensures tab[i].id != tab[j].id {
      assert Less(tab[i].id, tab[j].id);
    }
  }

  lemma DistinctConcat(a: Tab, b: Tab)
    requires DistinctKeys(a) && DistinctKeys(b) && forall j :: 0 <= j < |b| ==> !HasKey(a, b[j].id)
    ensures DistinctKeys(a + b)
  {
  }

  lemma CombinedGet(lvls: Levels, curr: nat, k: Eid)
    requires CanCompact(lvls, curr)
    ensures Ordered(Combined(lvls, curr)) && TabGet(Combined(lvls, curr), k) == LevelGet(lvls[curr], k)
  {
    hide LevelOk, Ordered, TabGet, Flatten, Mergeable;
    LevelIsFlat(lvls[curr], k);
    if curr == 0 {
      LevelDistinct(lvls[0]);
      SortKeeps(Flatten(lvls[0]));
    }
  }

  /** A key whose deletion is forgotten while an older item of it lies deeper. */
  ghost predicate Resurrects(lvls: Levels, curr: nat, k: Eid)
    requires curr < |lvls|
  {
    && curr + 1 < |lvls| && LevelsGet(lvls[..curr], k).None?
    && LevelGet(lvls[curr], k) == Some([]) && LevelGet(lvls[curr + 1], k).Some?
    && Live(LevelsGet(lvls[curr + 2..], k)).Some?
  }

  // the levels after a compaction, as far as key k is concerned
  ghost predicate AnswersMerged(lvls: Levels, curr: nat, after: Levels, k: Eid)
    requires curr < |lvls|
  {
    && LevelsGet(after[..Min(curr, |after|)], k) == LevelsGet(lvls[..curr], k)
    && curr + 1 < |after| && LevelGet(after[curr], k).None?
    && LevelGet(after[curr + 1], k) ==
         MergeGet(LevelGet(lvls[curr], k), if curr + 1 < |lvls| then LevelGet(lvls[curr + 1], k) else None)
    && (curr + 1 < |lvls| ==> |after| == |lvls| && after[curr + 2..] == lvls[curr + 2..])
    && (curr + 1 == |lvls| ==> after[curr + 2..] == [])
  }

  lemma CompactedTail(lvls: Levels, curr: nat, k: Eid)
    requires CanCompact(lvls, curr)
    ensures AnswersMerged(lvls, curr, Compacted(lvls, curr), k)
  {
    hide TabGet, Ordered, Merged, Divided, LevelOk, Combined, NextLevel, Mergeable;
    CombinedGet(lvls, curr, k);
    var after := Compacted(lvls, curr);
    var tab := Combined(lvls, curr);
    assert after[..curr] == lvls[..curr];
    if curr + 1 < |lvls| {
      NextLevelGet(tab, lvls[curr + 1], TabSize(curr + 1), k);
      assert after[curr + 2..] == lvls[curr + 2..];
    } else {
      LevelStep([], tab, k);
      assert [] + [tab] == [tab];
    }
  }

  /** Compaction changes the answer for a key exactly if it resurrects it. */
  lemma CompactedGet(lvls: Levels, curr: nat, k: Eid)
    requires CanCompact(lvls, curr)
    ensures Live(LevelsGet(Compacted(lvls, curr), k)) == Live(LevelsGet(lvls, k)) <==> !Resurrects(lvls, curr, k)
  {
    hide AnswersMerged, Live, LevelsGet, Compacted, Resurrects, Combined, LevelOk, Ordered, Mergeable;
    CompactedTail(lvls, curr, k);
    MergedAnswer(lvls, curr, Compacted(lvls, curr), k);
  }

  lemma MergedAnswer(lvls: Levels, curr: nat, after: Levels, k: Eid)
    requires curr < |lvls| && AnswersMerged(lvls, curr, after, k)
    ensures Live(LevelsGet(after, k)) == Live(LevelsGet(lvls, k)) <==> !Resurrects(lvls, curr, k)
  {
    hide LevelGet, LevelsGet;
    Split(lvls, curr, k);
    Split(after, curr, k);
    assert after[curr + 1..][0] == after[curr + 1];
    Split(after[curr + 1..], 0, k);
    assert after[curr + 1..][1..] == after[curr + 2..];
    NoLevels(k);
    assert after[curr + 1..][..0] == [];
    if curr + 1 < |lvls| {
      Split(lvls[curr + 1..], 0, k);
      assert lvls[curr + 1..][1..] == lvls[curr + 2..] && lvls[curr + 1..][..0] == [];
    } else {
      assert lvls[curr + 1..] == [];
    }
  }

  lemma NoLevels(k: Eid)
    ensures LevelsGet([], k) == None
  {
  }

  /** Compaction changes no lookup if and only if no key marked deleted in the level
      and held in the next one is live deeper. */
  lemma CompactionKeepsLookups(lvls: Levels, curr: nat)
    requires CanCompact(lvls, curr)
    ensures (forall k :: Live(LevelsGet(Compacted(lvls, curr), k)) == Live(LevelsGet(lvls, k)))
      <==> (forall k :: !Resurrects(lvls, curr, k))
  {
    hide Live, LevelsGet, Compacted, Resurrects, LevelOk, Ordered, Combined, Mergeable;
    forall k ensures Live(LevelsGet(Compacted(lvls, curr), k)) == Live(LevelsGet(lvls, k)) <==> !Resurrects(lvls, curr, k) {
      CompactedGet(lvls, curr, k);
    }
    if k :| Resurrects(lvls, curr, k) {
      assert Live(LevelsGet(Compacted(lvls, curr), k)) != Live(LevelsGet(lvls, k));
    }
  }

  /** No tab a compaction adds is larger than its level has them. */
  lemma NextLevelSizes(tab: Tab, next: Level, size: nat)
    requires tab != [] && size > 0
    ensures forall t :: t in NextLevel(tab, next, size) ==> (t in next && !Overlaps(t, First(tab), Last(tab))) || 0 < |t| <= size
  {
    hide Overlaps;
    FromLevel(next, First(tab), Last(tab));
    DividedParts(Merged(tab, Flatten(Overlapping(next, First(tab), Last(tab)))), size);
  }
}
