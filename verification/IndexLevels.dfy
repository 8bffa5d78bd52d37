/** Levels of the index and their compaction. */
module IndexLevels {
  import opened Basics
  import opened IndexTabs

  // tabs in the order they were added; a lookup starts with the last
  type Level = seq<Tab>

  type Levels = seq<Level>

  // within the range between a tab's first and last key
  predicate Contains(tab: Tab, k: Eid) {
    tab != [] && !Less(k, tab[0].id) && !Less(tab[|tab| - 1].id, k)
  }

  predicate Overlaps(tab: Tab, begin: Eid, end: Eid) {
    tab != [] && !(Less(end, tab[0].id) || Less(tab[|tab| - 1].id, begin))
  }

  function LevelGet(lvl: Level, k: Eid): Option<Bytes> {
    if lvl == [] then None
    else
      var n := |lvl| - 1;
      if Contains(lvl[n], k) && TabGet(lvl[n], k).Some? then TabGet(lvl[n], k) else LevelGet(lvl[..n], k)
  }

  // from the youngest level on
  function LevelsGet(lvls: Levels, k: Eid): Option<Bytes> {
    if lvls == [] then None
    else if LevelGet(lvls[0], k).Some? then LevelGet(lvls[0], k)
    else LevelsGet(lvls[1..], k)
  }

  /** What the caller gets: a deletion mark reads as not found. */
  function Live(r: Option<Bytes>): Option<Bytes> {
    if r == Some([]) then None else r
  }

  ghost predicate Disjoint(s: Tab, t: Tab) {
    forall k :: !(HasKey(s, k) && HasKey(t, k))
  }

  ghost predicate TabsOk(lvl: Level) {
    forall i :: 0 <= i < |lvl| ==> lvl[i] != [] && Ordered(lvl[i])
  }

  /** Tabs in key order, no key in two of them. */
  ghost predicate LevelOk(lvl: Level) {
    TabsOk(lvl) && forall i, j :: 0 <= i < j < |lvl| ==> Disjoint(lvl[i], lvl[j])
  }

  lemma ContainsKey(tab: Tab, k: Eid)
    requires Ordered(tab) && TabGet(tab, k).Some?
    ensures Contains(tab, k)
  {
    TabGetNone(tab, k);
    var i :| 0 <= i < |tab| && tab[i].id == k;
    assert i > 0 ==> Less(tab[0].id, tab[i].id);
    assert i < |tab| - 1 ==> Less(tab[i].id, tab[|tab| - 1].id);
  }

  lemma LevelStep(lvl: Level, tab: Tab, k: Eid)
    requires Ordered(tab)
    ensures LevelGet(lvl + [tab], k) == if TabGet(tab, k).Some? then TabGet(tab, k) else LevelGet(lvl, k)
  {
    assert (lvl + [tab])[..|lvl|] == lvl;
    if TabGet(tab, k).Some? {
      ContainsKey(tab, k);
    }
  }

  /** A lookup in a well-formed level finds the key in whichever tab has it. */
  lemma {:induction false} LevelFinds(lvl: Level, i: nat, k: Eid)
    requires LevelOk(lvl) && i < |lvl| && TabGet(lvl[i], k).Some?
    ensures LevelGet(lvl, k) == TabGet(lvl[i], k)
  {
    hide TabGet, Ordered, Disjoint;
    var n := |lvl| - 1;
    assert lvl == lvl[..n] + [lvl[n]];
    LevelStep(lvl[..n], lvl[n], k);
    if i < n {
      LevelFinds(lvl[..n], i, k);
      DisjointGet(lvl[i], lvl[n], k);
    }
  }

  lemma DisjointGet(s: Tab, t: Tab, k: Eid)
    requires Disjoint(s, t) && TabGet(s, k).Some?
    ensures TabGet(t, k).None?
  {
    TabGetNone(s, k);
    TabGetNone(t, k);
  }

  lemma {:induction false} LevelMisses(lvl: Level, k: Eid)
    requires forall i :: 0 <= i < |lvl| ==> TabGet(lvl[i], k).None?
    ensures LevelGet(lvl, k).None?
  {
    if lvl != [] {
      LevelMisses(lvl[..|lvl| - 1], k);
    }
  }

  lemma {:induction false} FlatMisses(lvl: Level, k: Eid)
    requires forall i :: 0 <= i < |lvl| ==> TabGet(lvl[i], k).None?
    ensures TabGet(Flatten(lvl), k).None?
    decreases |lvl|
  {
    if lvl != [] {
      FlatMisses(lvl[1..], k);
      TabGetConcat(lvl[0], Flatten(lvl[1..]), k);
    }
  }

  lemma {:induction false} FlatFinds(lvl: Level, i: nat, k: Eid)
    requires LevelOk(lvl) && i < |lvl| && TabGet(lvl[i], k).Some?
    ensures TabGet(Flatten(lvl), k) == TabGet(lvl[i], k)
    decreases |lvl|
  {
    hide TabGet, Ordered, Disjoint;
    TabGetConcat(lvl[0], Flatten(lvl[1..]), k);
    if i > 0 {
      FlatFinds(lvl[1..], i - 1, k);
      if TabGet(lvl[0], k).Some? {
        DisjointGet(lvl[0], lvl[i], k);
      }
    }
  }

  /** In a well-formed level, lookups see the tabs' items all together. */
  lemma LevelIsFlat(lvl: Level, k: Eid)
    requires LevelOk(lvl)
    ensures LevelGet(lvl, k) == TabGet(Flatten(lvl), k)
  {
    hide TabGet, LevelOk, Flatten;
    if i :| 0 <= i < |lvl| && TabGet(lvl[i], k).Some? {
      LevelFinds(lvl, i, k);
      FlatFinds(lvl, i, k);
    } else {
      LevelMisses(lvl, k);
      FlatMisses(lvl, k);
    }
  }

  // ---- sorting level 0 ----

  predicate LexLeq(a: Bytes, b: Bytes) {
    a == [] || (b != [] && (a[0] < b[0] || (a[0] == b[0] && LexLeq(a[1..], b[1..]))))
  }

  // by key, then by address
  predicate Before(x: Item, y: Item) {
    Less(x.id, y.id) || (x.id == y.id && LexLeq(x.addr, y.addr))
  }

  function InsertItem(x: Item, tab: Tab): Tab {
    if tab == [] || Before(x, tab[0]) then [x] + tab else [tab[0]] + InsertItem(x, tab[1..])
  }

  function SortItems(tab: Tab): Tab {
    if tab == [] then [] else InsertItem(tab[0], SortItems(tab[1..]))
  }

  lemma {:induction false} InsertAbove(x: Item, tab: Tab, low: Eid)
    requires Above(tab, low) && Less(low, x.id)
    ensures Above(InsertItem(x, tab), low)
  {
    if tab != [] && !Before(x, tab[0]) {
      InsertAbove(x, tab[1..], low);
    }
  }

  lemma {:induction false} InsertOrdered(x: Item, tab: Tab)
    requires Ordered(tab) && TabGet(tab, x.id).None?
    ensures Ordered(InsertItem(x, tab))
    ensures forall k :: TabGet(InsertItem(x, tab), k) == if k == x.id then Some(x.addr) else TabGet(tab, k)
  {
    hide Ordered, Above;
    if tab == [] {
      One(x);
      assert [x] + tab == [x];
      forall k { GetCons(x, [], k); }
    } else {
      OrderedTail(tab);
      if Before(x, tab[0]) {
        AboveLower(tab, x.id);
        OrderedCons(x, tab);
        forall k { GetCons(x, tab, k); }
      } else {
        InsertOrdered(x, tab[1..]);
        InsertAbove(x, tab[1..], tab[0].id);
        OrderedCons(tab[0], InsertItem(x, tab[1..]));
        forall k { GetCons(tab[0], InsertItem(x, tab[1..]), k); }
      }
    }
  }

  lemma One(x: Item)
    ensures Ordered([x])
  {
  }

  ghost predicate DistinctKeys(tab: Tab) {
    forall i, j :: 0 <= i < j < |tab| ==> tab[i].id != tab[j].id
  }

  /** Sorting items with distinct keys changes no lookup. */
  lemma {:induction false} SortKeeps(tab: Tab)
    requires DistinctKeys(tab)
    ensures Ordered(SortItems(tab))
    ensures forall k :: TabGet(SortItems(tab), k) == TabGet(tab, k)
  {
    hide Ordered;
    if tab == [] {
      NoItems();
    } else {
      assert DistinctKeys(tab[1..]);
      SortKeeps(tab[1..]);
      TabGetNone(tab[1..], tab[0].id);
      InsertOrdered(tab[0], SortItems(tab[1..]));
    }
  }

  lemma NoItems()
    ensures Ordered([])
  {
  }

  lemma {:induction false} SortLength(tab: Tab)
    ensures |SortItems(tab)| == |tab|
  {
    if tab != [] {
      SortLength(tab[1..]);
      InsertLength(tab[0], SortItems(tab[1..]));
    }
  }

  lemma {:induction false} InsertLength(x: Item, tab: Tab)
    ensures |InsertItem(x, tab)| == |tab| + 1
  {
    if tab != [] {
      InsertLength(x, tab[1..]);
    }
  }
}
