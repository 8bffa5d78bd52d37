/** Compaction key by key, when other keys, or this one, occur several times.

    Young tabs may hold a key each, so a full level 0 can hold it several times, and
    after its compaction so can the level below. What becomes of a key then depends on
    its own items only: a merge spends the items of the two levels on each other one
    by one. A key that occurs once is answered as if all keys did; for one that occurs
    several times a search may hit any of its items. */
module DoubleKeys {
  import opened Basics
  import opened IndexTabs
  import opened IndexLevels
  import opened Compaction

  /** The addresses of the items with key k. */
  function Run(tab: Tab, k: Eid): (r: seq<Bytes>)
    ensures |r| <= |tab|
  {
    if tab == [] then [] else (if tab[0].id == k then [tab[0].addr] else []) + Run(tab[1..], k)
  }

  function LevelRun(lvl: Level, k: Eid): seq<Bytes> { Run(Flatten(lvl), k) }

  /** Ascending keys, with repetitions. */
  ghost predicate Sorted(tab: Tab) {
    forall i, j :: 0 <= i < j < |tab| ==> !Less(tab[j].id, tab[i].id)
  }

  ghost predicate TabsSorted(lvl: Level) {
    forall i :: 0 <= i < |lvl| ==> lvl[i] != [] && Sorted(lvl[i])
  }

  lemma {:induction false} RunConcat(a: Tab, b: Tab, k: Eid)
    ensures Run(a + b, k) == Run(a, k) + Run(b, k)
    decreases |a|
  {
    if a == [] {
      assert a + b == b;
    } else {
      assert (a + b)[1..] == a[1..] + b;
      RunConcat(a[1..], b, k);
    }
  }

  /** A search of a tab finds the key exactly if it has items, and then one of them. */
  lemma {:induction false} RunGet(tab: Tab, k: Eid)
    ensures TabGet(tab, k) == if Run(tab, k) == [] then None else Some(Run(tab, k)[0])
  {
    if tab != [] {
      RunGet(tab[1..], k);
    }
  }

  lemma SortedTail(tab: Tab)
    requires Sorted(tab) && tab != []
    ensures Sorted(tab[1..])
  {
  }

  // no item has a key below the first one
  lemma {:induction false} RunBelow(tab: Tab, k: Eid)
    requires forall i :: 0 <= i < |tab| ==> Less(k, tab[i].id)
    ensures Run(tab, k) == []
  {
    if tab != [] {
      RunBelow(tab[1..], k);
    }
  }

  lemma RunFromHead(tab: Tab, k: Eid)
    requires Sorted(tab) && tab != [] && Less(k, tab[0].id)
    ensures Run(tab, k) == []
  {
    forall i | 0 <= i < |tab| ensures Less(k, tab[i].id) {
      assert i > 0 ==> !Less(tab[i].id, tab[0].id);
    }
    RunBelow(tab, k);
  }

  // ---- merge ----

  /** What a merge leaves of the items of one key: item by item the newer one wins, and
      a deletion takes the older one with it. */
  function MergeRun(a: seq<Bytes>, b: seq<Bytes>): seq<Bytes> {
    if a == [] then b
    else if b == [] then a
    else (if a[0] == [] then [] else [a[0]]) + MergeRun(a[1..], b[1..])
  }

  lemma RunHead(tab: Tab, k: Eid)
    requires tab != []
    ensures if tab[0].id == k then Run(tab, k) == [tab[0].addr] + Run(tab[1..], k) && Run(tab, k)[1..] == Run(tab[1..], k)
            else Run(tab, k) == Run(tab[1..], k)
  {
  }

  lemma RunCons(x: Item, tab: Tab, k: Eid)
    ensures Run([x] + tab, k) == if x.id == k then [x.addr] + Run(tab, k) else Run(tab, k)
  {
    assert ([x] + tab)[1..] == tab;
  }

  /** A merge works key by key, whatever occurs several times. */
  lemma {:induction false} RunMerged(a: Tab, b: Tab, k: Eid)
    requires Sorted(a) && Sorted(b)
    ensures Run(Merged(a, b), k) == MergeRun(Run(a, k), Run(b, k))
    decreases |a| + |b|
  {
    hide Sorted, Run;
    if a == [] || b == [] {
      NoRun(k);
    } else {
      SortedTail(a);
      SortedTail(b);
      RunHead(a, k);
      RunHead(b, k);
      if Less(a[0].id, b[0].id) {
        RunMerged(a[1..], b, k);
        RunCons(a[0], Merged(a[1..], b), k);
        NoRun(k);
        if k == a[0].id {
          RunFromHead(b, k);
        }
      } else if a[0].id == b[0].id {
        RunMerged(a[1..], b[1..], k);
        RunCons(a[0], Merged(a[1..], b[1..]), k);
        assert [] + Merged(a[1..], b[1..]) == Merged(a[1..], b[1..]);
      } else {
        RunMerged(a, b[1..], k);
        RunCons(b[0], Merged(a, b[1..]), k);
        if k == b[0].id {
          RunFromHead(a, k);
        }
      }
    }
  }

  lemma NoRun(k: Eid)
    ensures Run([], k) == [] && forall r: seq<Bytes> :: MergeRun([], r) == r && MergeRun(r, []) == r
  {
  }

  lemma {:induction false} MergedLower(a: Tab, b: Tab, low: Eid)
    requires forall i :: 0 <= i < |a| ==> !Less(a[i].id, low)
    requires forall i :: 0 <= i < |b| ==> !Less(b[i].id, low)
    ensures forall i :: 0 <= i < |Merged(a, b)| ==> !Less(Merged(a, b)[i].id, low)
    decreases |a| + |b|
  {
    if a != [] && b != [] {
      if Less(a[0].id, b[0].id) {
        MergedLower(a[1..], b, low);
      } else if a[0].id == b[0].id {
        MergedLower(a[1..], b[1..], low);
      } else {
        MergedLower(a, b[1..], low);
      }
    }
  }

  lemma SortedCons(x: Item, tab: Tab)
    requires Sorted(tab) && forall i :: 0 <= i < |tab| ==> !Less(tab[i].id, x.id)
    ensures Sorted([x] + tab)
  {
  }

  lemma {:induction false} MergedSorted(a: Tab, b: Tab)
    requires Sorted(a) && Sorted(b)
    ensures Sorted(Merged(a, b))
    decreases |a| + |b|
  {
    if a != [] && b != [] {
      SortedTail(a);
      SortedTail(b);
      if Less(a[0].id, b[0].id) {
        MergedSorted(a[1..], b);
        MergedLower(a[1..], b, a[0].id);
        SortedCons(a[0], Merged(a[1..], b));
      } else if a[0].id == b[0].id {
        MergedSorted(a[1..], b[1..]);
        MergedLower(a[1..], b[1..], a[0].id);
        SortedCons(a[0], Merged(a[1..], b[1..]));
        assert [] + Merged(a[1..], b[1..]) == Merged(a[1..], b[1..]);
      } else {
        MergedSorted(a, b[1..]);
        MergedLower(a, b[1..], b[0].id);
        SortedCons(b[0], Merged(a, b[1..]));
      }
    }
  }

  // ---- sorting ----

  function InsertAddr(x: Bytes, run: seq<Bytes>): seq<Bytes> {
    if run == [] || LexLeq(x, run[0]) then [x] + run else [run[0]] + InsertAddr(x, run[1..])
  }

  // in ascending order, so that deletions come first
  function SortAddrs(run: seq<Bytes>): seq<Bytes> {
    if run == [] then [] else InsertAddr(run[0], SortAddrs(run[1..]))
  }

  lemma {:induction false} InsertSorted(x: Item, tab: Tab, k: Eid)
    requires Sorted(tab)
    ensures Sorted(InsertItem(x, tab))
    ensures Run(InsertItem(x, tab), k) == if x.id == k then InsertAddr(x.addr, Run(tab, k)) else Run(tab, k)
    ensures forall y :: y in InsertItem(x, tab) ==> y == x || y in tab
  {
    hide Sorted, Run;
    RunCons(x, tab, k);
    if tab == [] {
      NoRun(k);
      SortedOne(x);
      assert [x] + tab == [x];
    } else {
      SortedTail(tab);
      RunHead(tab, k);
      HeadLow(tab);
      if Before(x, tab[0]) {
        SortedCons(x, tab);
        if k == x.id && tab[0].id != k {
          RunFromHead(tab, k);
        }
      } else {
        InsertSorted(x, tab[1..], k);
        var rest := InsertItem(x, tab[1..]);
        RunCons(tab[0], rest, k);
        forall i | 0 <= i < |rest| ensures !Less(rest[i].id, tab[0].id) {
          assert rest[i] in rest;
        }
        SortedCons(tab[0], rest);
      }
    }
  }

  lemma SortedOne(x: Item)
    ensures Sorted([x])
  {
  }

  lemma HeadLow(tab: Tab)
    requires Sorted(tab) && tab != []
    ensures forall y :: y in tab ==> !Less(y.id, tab[0].id)
  {
  }

  lemma {:induction false} RunSort(tab: Tab, k: Eid)
    ensures Sorted(SortItems(tab)) && Run(SortItems(tab), k) == SortAddrs(Run(tab, k))
  {
    hide Sorted;
    if tab == [] {
      NothingSorted();
    } else {
      RunSort(tab[1..], k);
      RunHead(tab, k);
      InsertSorted(tab[0], SortItems(tab[1..]), k);
    }
  }

  lemma NothingSorted()
    ensures Sorted([])
  {
  }

  /** Sorting loses no item and adds none. */
  lemma {:induction false} SortAddrsSame(run: seq<Bytes>)
    ensures |SortAddrs(run)| == |run| && forall v :: v in SortAddrs(run) <==> v in run
  {
    if run != [] {
      SortAddrsSame(run[1..]);
      InsertAddrSame(run[0], SortAddrs(run[1..]));
      assert run == [run[0]] + run[1..];
    }
  }

  lemma {:induction false} InsertAddrSame(x: Bytes, run: seq<Bytes>)
    ensures |InsertAddr(x, run)| == |run| + 1 && forall v :: v in InsertAddr(x, run) <==> v == x || v in run
  {
    if run != [] && !LexLeq(x, run[0]) {
      InsertAddrSame(x, run[1..]);
      assert run == [run[0]] + run[1..];
    }
  }

  // ---- levels ----

  lemma LevelRunStep(lvl: Level, tab: Tab, k: Eid)
    ensures LevelRun(lvl + [tab], k) == LevelRun(lvl, k) + Run(tab, k)
  {
    FlattenOne(lvl, tab);
    RunConcat(Flatten(lvl), tab, k);
  }

  // the keys of a sorted tab are between its first and last
  lemma RunInside(tab: Tab, k: Eid)
    requires Sorted(tab) && Run(tab, k) != []
    ensures tab != [] && !Less(k, First(tab)) && !Less(Last(tab), k)
  {
    RunGet(tab, k);
    TabGetNone(tab, k);
    var i :| 0 <= i < |tab| && tab[i].id == k;
    assert i > 0 ==> !Less(tab[i].id, tab[0].id);
    assert i < |tab| - 1 ==> !Less(tab[|tab| - 1].id, tab[i].id);
  }

  /** A lookup in a level finds a key exactly if it has items there, and then one of them. */
  lemma {:induction false} LevelReads(lvl: Level, k: Eid)
    requires TabsSorted(lvl)
    ensures LevelGet(lvl, k).None? <==> LevelRun(lvl, k) == []
    ensures LevelGet(lvl, k).Some? ==> LevelGet(lvl, k).value in LevelRun(lvl, k)
  {
    hide Sorted, Run, TabGet, Flatten;
    if lvl == [] {
      NoLevel(k);
    } else {
      var n := |lvl| - 1;
      assert lvl == lvl[..n] + [lvl[n]];
      LevelReads(lvl[..n], k);
      LevelRunStep(lvl[..n], lvl[n], k);
      RunGet(lvl[n], k);
      if Run(lvl[n], k) != [] {
        RunInside(lvl[n], k);
      }
    }
  }

  /** A key within the range is only in the tabs that overlap it. */
  lemma {:induction false} HalvesRun(lvl: Level, begin: Eid, end: Eid, k: Eid)
    requires TabsSorted(lvl) && !Less(k, begin) && !Less(end, k)
    ensures LevelRun(Overlapping(lvl, begin, end), k) == LevelRun(lvl, k)
    ensures LevelRun(Kept(lvl, begin, end), k) == []
  {
    hide Sorted, Run, Flatten;
    if lvl == [] {
      NoLevel(k);
    } else {
      var n := |lvl| - 1;
      assert lvl == lvl[..n] + [lvl[n]];
      HalvesRun(lvl[..n], begin, end, k);
      var o, kept := Overlapping(lvl[..n], begin, end), Kept(lvl[..n], begin, end);
      LevelRunStep(lvl[..n], lvl[n], k);
      LevelRunStep(o, lvl[n], k);
      LevelRunStep(kept, lvl[n], k);
      assert o + [] == o && kept + [] == kept;
      if Run(lvl[n], k) != [] {
        RunInside(lvl[n], k);
      }
    }
  }

  lemma NoLevel(k: Eid)
    ensures LevelRun([], k) == []
  {
  }

  // the two halves share the items
  lemma {:induction false} HalvesShare(lvl: Level, begin: Eid, end: Eid, k: Eid)
    ensures var (o, kept) := (LevelRun(Overlapping(lvl, begin, end), k), LevelRun(Kept(lvl, begin, end), k));
      |o| + |kept| == |LevelRun(lvl, k)| && forall v :: v in LevelRun(lvl, k) <==> v in o || v in kept
  {
    hide Run, Flatten, Overlaps;
    if lvl == [] {
      NoLevel(k);
    } else {
      var n := |lvl| - 1;
      assert lvl == lvl[..n] + [lvl[n]];
      HalvesShare(lvl[..n], begin, end, k);
      var o, kept := Overlapping(lvl[..n], begin, end), Kept(lvl[..n], begin, end);
      LevelRunStep(lvl[..n], lvl[n], k);
      LevelRunStep(o, lvl[n], k);
      LevelRunStep(kept, lvl[n], k);
      assert o + [] == o && kept + [] == kept;
    }
  }

  lemma {:induction false} DividedSorted(tab: Tab, size: nat)
    requires Sorted(tab) && size > 0
    ensures TabsSorted(Divided(tab, size))
    decreases |tab|
  {
    if |tab| > size {
      DividedSorted(tab[size..], size);
    }
  }

  lemma FlattenBoth(a: Level, b: Level, k: Eid)
    ensures LevelRun(a + b, k) == LevelRun(a, k) + LevelRun(b, k)
  {
    FlattenAppend(a, b);
    RunConcat(Flatten(a), Flatten(b), k);
  }

  lemma SortedHalves(lvl: Level, begin: Eid, end: Eid)
    requires TabsSorted(lvl)
    ensures TabsSorted(Kept(lvl, begin, end))
  {
    FromLevel(lvl, begin, end);
    var kept := Kept(lvl, begin, end);
    forall i | 0 <= i < |kept| ensures kept[i] != [] && Sorted(kept[i]) {
      assert kept[i] in kept;
    }
  }

  /** The items of a key in the next level after a compaction. */
  lemma NextRun(tab: Tab, next: Level, size: nat, k: Eid)
    requires tab != [] && Sorted(tab) && TabsSorted(next) && size > 0
    requires Sorted(Flatten(Overlapping(next, First(tab), Last(tab))))
    ensures TabsSorted(NextLevel(tab, next, size))
    ensures Run(tab, k) != [] ==> LevelRun(NextLevel(tab, next, size), k) == MergeRun(Run(tab, k), LevelRun(next, k))
    ensures Run(tab, k) == [] ==> forall v :: v in LevelRun(NextLevel(tab, next, size), k) <==> v in LevelRun(next, k)
    ensures Run(tab, k) == [] ==> |LevelRun(NextLevel(tab, next, size), k)| == |LevelRun(next, k)|
  {
    hide Sorted, Run, Merged, Divided, Overlapping, Kept, Flatten;
    var begin, end := First(tab), Last(tab);
    var kept, ov := Kept(next, begin, end), Overlapping(next, begin, end);
    var merged := Merged(tab, Flatten(ov));
    MergedSorted(tab, Flatten(ov));
    RunMerged(tab, Flatten(ov), k);
    DividedSorted(merged, size);
    DividedParts(merged, size);
    SortedHalves(next, begin, end);
    FlattenBoth(kept, Divided(merged, size), k);
    if Run(tab, k) != [] {
      RunInside(tab, k);
      HalvesRun(next, begin, end, k);
    } else {
      NoRun(k);
      HalvesShare(next, begin, end, k);
    }
  }

  /** What a compaction relies on when keys may occur several times: order, where the
      code does not sort. */
  ghost predicate CanMerge(lvls: Levels, curr: nat) {
    && curr < |lvls| && TabsSorted(lvls[curr]) && Combined(lvls, curr) != []
    && (curr > 0 ==> Sorted(Flatten(lvls[curr])))
    && (curr + 1 < |lvls| ==>
          && TabsSorted(lvls[curr + 1])
          && var tab := Combined(lvls, curr);
             Sorted(Flatten(Overlapping(lvls[curr + 1], First(tab), Last(tab)))))
  }

  // the items of a key that take part in the merge
  function MergedItems(lvls: Levels, curr: nat, k: Eid): seq<Bytes>
    requires curr < |lvls|
  {
    if curr == 0 then SortAddrs(LevelRun(lvls[0], k)) else LevelRun(lvls[curr], k)
  }

  function NextItems(lvls: Levels, curr: nat, k: Eid): seq<Bytes> {
    if curr + 1 < |lvls| then LevelRun(lvls[curr + 1], k) else []
  }

  lemma CombinedRun(lvls: Levels, curr: nat, k: Eid)
    requires CanMerge(lvls, curr)
    ensures Sorted(Combined(lvls, curr)) && Run(Combined(lvls, curr), k) == MergedItems(lvls, curr, k)
  {
    RunSort(Flatten(lvls[0]), k);
  }

  /** What a compaction leaves of a key's items. */
  lemma CompactedRun(lvls: Levels, curr: nat, k: Eid)
    requires CanMerge(lvls, curr)
    ensures var (after, items, older) := (Compacted(lvls, curr), MergedItems(lvls, curr, k), NextItems(lvls, curr, k));
      && curr + 1 < |after| && TabsSorted(after[curr + 1]) && after[curr] == []
      && var left := LevelRun(after[curr + 1], k);
      && (items != [] ==> left == MergeRun(items, older))
      && (items == [] ==> |left| == |older| && forall v :: v in left <==> v in older)
  {
    hide Sorted, Run, Flatten, NextLevel, Combined, SortAddrs;
    CombinedRun(lvls, curr, k);
    var tab := Combined(lvls, curr);
    if curr + 1 < |lvls| {
      NextRun(tab, lvls[curr + 1], TabSize(curr + 1), k);
    } else {
      LevelRunStep([], tab, k);
      NoLevel(k);
      NoRun(k);
      assert [] + [tab] == [tab] && [] + Run(tab, k) == Run(tab, k);
    }
  }

  lemma AtMostOne(a: seq<Bytes>, b: seq<Bytes>)
    requires |a| <= 1 && |b| <= 1
    ensures var m := MergeRun(a, b);
      |m| <= 1 && (if m == [] then None else Some(m[0])) ==
        MergeGet(if a == [] then None else Some(a[0]), if b == [] then None else Some(b[0]))
  {
  }

  lemma OneRead(lvl: Level, k: Eid)
    requires TabsSorted(lvl) && |LevelRun(lvl, k)| <= 1
    ensures LevelGet(lvl, k) == if LevelRun(lvl, k) == [] then None else Some(LevelRun(lvl, k)[0])
  {
    LevelReads(lvl, k);
  }

  lemma {:induction false} SortOne(run: seq<Bytes>)
    requires |run| <= 1
    ensures SortAddrs(run) == run
  {
    SortAddrsSame(run);
    if run != [] {
      assert SortAddrs(run)[0] in run;
    }
  }

  /** Compaction changes the answer for a key that occurs once in a level exactly if it
      resurrects it, however often other keys occur. */
  lemma SingleGet(lvls: Levels, curr: nat, k: Eid)
    requires CanMerge(lvls, curr)
    requires |LevelRun(lvls[curr], k)| <= 1 && |NextItems(lvls, curr, k)| <= 1
    ensures Live(LevelsGet(Compacted(lvls, curr), k)) == Live(LevelsGet(lvls, k)) <==> !Resurrects(lvls, curr, k)
  {
    hide Sorted, Run, Flatten, TabsSorted, LevelGet, LevelsGet, Live, Resurrects, Combined, NextLevel, SortAddrs;
    var after := Compacted(lvls, curr);
    CompactedRun(lvls, curr, k);
    SortOne(LevelRun(lvls[curr], k));
    AtMostOne(LevelRun(lvls[curr], k), NextItems(lvls, curr, k));
    OneRead(lvls[curr], k);
    if curr + 1 < |lvls| {
      OneRead(lvls[curr + 1], k);
    }
    SameOne(LevelRun(after[curr + 1], k), NextItems(lvls, curr, k));
    OneRead(after[curr + 1], k);
    NoGet(k);
    assert after[..curr] == lvls[..curr];
    if curr + 1 < |lvls| {
      assert after[curr + 2..] == lvls[curr + 2..];
    }
    MergedAnswer(lvls, curr, after, k);
  }

  lemma SameOne(a: seq<Bytes>, b: seq<Bytes>)
    ensures |a| == |b| <= 1 && (forall v :: v in a <==> v in b) ==> a == b
  {
    if |a| == |b| == 1 && forall v :: v in a <==> v in b {
      assert a[0] in b;
    }
  }

  lemma NoGet(k: Eid)
    ensures LevelGet([], k) == None
  {
  }

  // ---- a key that occurs several times in level 0 ----

  /** What a lookup may read: any item of the key, in the first level that has one. */
  ghost predicate MayRead(lvls: Levels, k: Eid, r: Option<Bytes>) {
    if lvls == [] then r.None?
    else if LevelRun(lvls[0], k) != [] then r.Some? && r.value in LevelRun(lvls[0], k)
    else MayRead(lvls[1..], k, r)
  }

  // at most one item of the key in every level
  ghost predicate OneEach(lvls: Levels, k: Eid) {
    forall i :: 0 <= i < |lvls| ==> TabsSorted(lvls[i]) && |LevelRun(lvls[i], k)| <= 1
  }

  /** The search of the model is one of those. */
  lemma {:induction false} ReadsMay(lvls: Levels, k: Eid)
    requires forall i :: 0 <= i < |lvls| ==> TabsSorted(lvls[i])
    ensures MayRead(lvls, k, LevelsGet(lvls, k))
  {
    hide TabsSorted, LevelRun, LevelGet;
    if lvls != [] {
      LevelReads(lvls[0], k);
      ReadsMay(lvls[1..], k);
    }
  }

  /** And the only one, for a key that occurs once in a level. */
  lemma {:induction false} ReadsOne(lvls: Levels, k: Eid, r: Option<Bytes>)
    requires OneEach(lvls, k)
    ensures MayRead(lvls, k, r) <==> r == LevelsGet(lvls, k)
  {
    hide TabsSorted, LevelRun, LevelGet;
    if lvls != [] {
      OneRead(lvls[0], k);
      ReadsOne(lvls[1..], k, r);
    }
  }

  /** The items of the key in level 0, sorted, less a leading deletion that the merge
      spends on the next level, all say what the newest one does; if none is left, so
      do the levels below. */
  ghost predicate Settled(lvls: Levels, k: Eid)
    requires lvls != []
  {
    var items, older, newest := SortAddrs(LevelRun(lvls[0], k)), NextItems(lvls, 0, k), LevelGet(lvls[0], k);
    items != [] ==>
      var left := if items[0] == [] && older != [] then items[1..] else items;
      if left == [] then Live(LevelsGet(lvls[2..], k)) == Live(newest)
      else forall v :: v in left ==> Live(Some(v)) == Live(newest)
  }

  lemma LeftIs(items: seq<Bytes>, older: seq<Bytes>)
    requires items != [] && |older| <= 1
    ensures MergeRun(items, older) == if items[0] == [] && older != [] then items[1..] else items
  {
  }

  lemma ReadsStep(lvl: Level, lvls: Levels, k: Eid, r: Option<Bytes>)
    ensures MayRead([lvl] + lvls, k, r) <==>
      if LevelRun(lvl, k) != [] then r.Some? && r.value in LevelRun(lvl, k) else MayRead(lvls, k, r)
    ensures LevelsGet([lvl] + lvls, k) == if LevelGet(lvl, k).Some? then LevelGet(lvl, k) else LevelsGet(lvls, k)
  {
    assert ([lvl] + lvls)[1..] == lvls;
  }

  // the levels below the one compacted into
  function Rest(lvls: Levels): Levels { if |lvls| < 2 then [] else lvls[2..] }

  lemma AfterParts(lvls: Levels)
    requires lvls != [] && Combined(lvls, 0) != []
    ensures var after := Compacted(lvls, 0); |after| >= 2 && after == [[]] + ([after[1]] + Rest(lvls))
  {
    hide Combined, NextLevel;
  }

  /** What a lookup may read once level 0 is compacted. */
  lemma AfterReads(lvls: Levels, k: Eid, r: Option<Bytes>)
    requires CanMerge(lvls, 0) && OneEach(lvls[1..], k)
    ensures var (items, older) := (MergedItems(lvls, 0, k), NextItems(lvls, 0, k));
      var left := MergeRun(items, older);
      |older| <= 1 && Combined(lvls, 0) != [] && lvls != [] &&
      (MayRead(Compacted(lvls, 0), k, r) <==>
        if left != [] then r.Some? && r.value in left else r == LevelsGet(Rest(lvls), k))
  {
    hide Sorted, Run, LevelRun, TabsSorted, LevelGet, Combined, NextLevel, SortAddrs, MayRead;
    var after := Compacted(lvls, 0);
    CompactedRun(lvls, 0, k);
    AfterParts(lvls);
    ReadsStep([], [after[1]] + Rest(lvls), k, r);
    ReadsStep(after[1], Rest(lvls), k, r);
    NoLevel(k);
    if |lvls| > 1 {
      assert lvls[1..][0] == lvls[1];
    }
    SameOne(LevelRun(after[1], k), NextItems(lvls, 0, k));
    assert OneEach(Rest(lvls), k) by {
      forall i | 0 <= i < |Rest(lvls)| ensures TabsSorted(Rest(lvls)[i]) && |LevelRun(Rest(lvls)[i], k)| <= 1 {
        assert Rest(lvls)[i] == lvls[1..][i + 1];
      }
    }
    ReadsOne(Rest(lvls), k, r);
  }

  /** What a lookup reads before. */
  lemma BeforeReads(lvls: Levels, k: Eid)
    requires CanMerge(lvls, 0) && OneEach(lvls[1..], k)
    ensures lvls != [] && var (items, older) := (MergedItems(lvls, 0, k), NextItems(lvls, 0, k));
      if items != [] then LevelGet(lvls[0], k).Some? && LevelsGet(lvls, k) == LevelGet(lvls[0], k)
      else LevelsGet(lvls, k) == if older != [] then Some(older[0]) else LevelsGet(Rest(lvls), k)
  {
    hide Sorted, Run, LevelRun, TabsSorted, LevelGet, Combined, NextLevel, SortAddrs;
    SortAddrsSame(LevelRun(lvls[0], k));
    LevelReads(lvls[0], k);
    if |lvls| > 1 {
      assert lvls[1..][0] == lvls[1] && lvls[1..][1..] == lvls[2..];
      OneRead(lvls[1], k);
    }
  }

  /** A compaction of level 0 keeps the answer for a key, whichever of its items a
      search hits afterwards, exactly if the key is settled. */
  lemma DoubledGet(lvls: Levels, k: Eid)
    requires CanMerge(lvls, 0) && OneEach(lvls[1..], k)
    ensures Combined(lvls, 0) != [] && lvls != []
    ensures (forall r :: MayRead(Compacted(lvls, 0), k, r) ==> Live(r) == Live(LevelsGet(lvls, k))) <==> Settled(lvls, k)
  {
    hide Sorted, Run, LevelRun, TabsSorted, LevelGet, LevelsGet, Live, Combined, Compacted, SortAddrs, OneEach, MayRead;
    var items, older := MergedItems(lvls, 0, k), NextItems(lvls, 0, k);
    var left := MergeRun(items, older);
    BeforeReads(lvls, k);
    forall r
      ensures |older| <= 1
      ensures MayRead(Compacted(lvls, 0), k, r) <==>
        if left != [] then r.Some? && r.value in left else r == LevelsGet(Rest(lvls), k)
    {
      AfterReads(lvls, k, r);
    }
    NoRun(k);
    if items != [] {
      LeftIs(items, older);
    }
    if left != [] {
      assert forall v :: v in left ==> MayRead(Compacted(lvls, 0), k, Some(v));
    } else {
      assert MayRead(Compacted(lvls, 0), k, LevelsGet(Rest(lvls), k));
    }
  }
}
