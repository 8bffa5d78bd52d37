/** Compactions of a full level 0 after which the index answers wrongly. */
module FailingCompactions {
  import opened Basics
  import opened IndexTabs
  import opened IndexLevels
  import opened Compaction
  import opened IndexMgr

  const YOUNG: nat := CAPACITY - RESIDENCE_CAP

  function It(id: nat, v: Bytes): Item { Item(Eid(id), v) }

  // n items with the keys from `from` on
  function Fill(from: nat, n: nat): (r: Tab)
    ensures |r| == n && forall i :: 0 <= i < n ==> r[i] == It(from + i, [1])
  {
    seq(n, i requires 0 <= i => It(from + i, [1]))
  }

  // young tabs pushed one after the other
  function Pushed(lvls: Levels, youngs: seq<Tab>): (r: Levels)
    requires lvls != []
    ensures |r| >= |lvls|
    decreases |youngs|
  {
    if youngs == [] then lvls else Pushed(PushYoung(lvls, youngs[0]), youngs[1..])
  }

  // the levels from 1 on are far from full
  ghost predicate Roomy(lvls: Levels) {
    forall i :: 1 <= i < |lvls| ==> ItemCount(lvls[i]) < 10 * ITEM_CAP_BASE
  }

  lemma Caps(i: nat)
    ensures ItemCap(0) == ITEM_CAP_BASE && (i >= 1 ==> ItemCap(i) >= 10 * ITEM_CAP_BASE)
    ensures TabSize(1) == 5120
  {
    assert TenTo(0) == 1 && TenTo(1) == 10;
    if i >= 1 {
      TenMono(i);
    }
  }

  lemma {:induction false} TenMono(i: nat)
    requires i >= 1
    ensures TenTo(i) >= 10
  {
    if i > 1 {
      TenMono(i - 1);
    }
  }

  lemma {:induction false} NoneFull(lvls: Levels, curr: nat, cnt: nat)
    requires curr <= cnt <= |lvls| && Roomy(lvls) && (curr == 0 < cnt ==> ItemCount(lvls[0]) < ITEM_CAP_BASE)
    ensures CompactFull(lvls, curr, cnt) == lvls
    decreases cnt - curr
  {
    hide ItemCap;
    if curr < cnt {
      Caps(curr);
      NoneFull(lvls, curr + 1, cnt);
    }
  }

  /** A young tab that leaves level 0 below its capacity is just added. */
  lemma PushQuiet(lvls: Levels, young: Tab)
    requires lvls != [] && Roomy(lvls) && ItemCount(lvls[0] + [young]) < ITEM_CAP_BASE
    ensures PushYoung(lvls, young) == lvls[0 := lvls[0] + [young]]
  {
    NoneFull(lvls[0 := lvls[0] + [young]], 0, |lvls|);
  }

  /** One that fills level 0 sets off its compaction. */
  lemma PushFull(lvls: Levels, young: Tab)
    requires lvls != [] && ItemCount(lvls[0] + [young]) >= ITEM_CAP_BASE
    ensures var full := lvls[0 := lvls[0] + [young]];
      && IsFull(full, 0) && Combined(full, 0) != []
      && (Roomy(Compacted(full, 0)) ==> PushYoung(lvls, young) == Compacted(full, 0))
  {
    hide ItemCap, Compacted;
    Caps(0);
    var full := lvls[0 := lvls[0] + [young]];
    FullCombines(full, 0);
    if Roomy(Compacted(full, 0)) {
      NoneFull(Compacted(full, 0), 1, |lvls|);
    }
  }

  lemma {:induction false} SortSorted(tab: Tab)
    requires Ordered(tab)
    ensures SortItems(tab) == tab
  {
    if tab != [] {
      SortSorted(tab[1..]);
      assert tab == [tab[0]] + tab[1..];
      if |tab| > 1 {
        assert Less(tab[0].id, tab[1].id);
      }
    }
  }

  // four young tabs make up one ordered tab
  function Four(tab: Tab): seq<Tab>
    requires |tab| == 4 * YOUNG
  {
    [tab[..YOUNG], tab[YOUNG..2 * YOUNG], tab[2 * YOUNG..3 * YOUNG], tab[3 * YOUNG..]]
  }

  lemma FourDivided(tab: Tab)
    requires |tab| == 4 * YOUNG
    ensures Divided(tab, YOUNG) == Four(tab)
  {
    var a, b, c := tab[YOUNG..], tab[2 * YOUNG..], tab[3 * YOUNG..];
    assert a[..YOUNG] == tab[YOUNG..2 * YOUNG] && a[YOUNG..] == b;
    assert b[..YOUNG] == tab[2 * YOUNG..3 * YOUNG] && b[YOUNG..] == c;
    assert Divided(c, YOUNG) == [c];
    assert Divided(b, YOUNG) == [tab[2 * YOUNG..3 * YOUNG]] + [c];
    assert Divided(a, YOUNG) == [tab[YOUNG..2 * YOUNG]] + ([tab[2 * YOUNG..3 * YOUNG]] + [c]);
  }

  lemma FlatFour(a: Tab, b: Tab, c: Tab, d: Tab)
    ensures Flatten([a]) == a && Flatten([a, b]) == a + b
    ensures Flatten([a, b, c]) == a + b + c && Flatten([a, b, c, d]) == a + b + c + d
  {
    FlattenOne([], a);
    FlattenOne([a], b);
    FlattenOne([a, b], c);
    FlattenOne([a, b, c], d);
    assert [] + [a] == [a] && [a] + [b] == [a, b] && [a, b] + [c] == [a, b, c] && [a, b, c] + [d] == [a, b, c, d];
    assert Flatten<Item>([]) == [] && [] + a == a;
  }

  /** Pushing four young tabs onto an empty level 0: three are added, the fourth sets
      off the compaction. */
  lemma PushFour(lvls: Levels, y: seq<Tab>)
    requires lvls != [] && lvls[0] == [] && Roomy(lvls) && |y| == 4 && forall i :: 0 <= i < 4 ==> |y[i]| == YOUNG
    ensures var l := Pushed(lvls, y[..3]); var full := lvls[0 := y];
      && l == lvls[0 := y[..3]] && IsFull(full, 0) && Combined(full, 0) != [] && l[0 := l[0] + [y[3]]] == full
      && (Roomy(Compacted(full, 0)) ==> PushYoung(l, y[3]) == Compacted(full, 0) && Pushed(lvls, y) == Compacted(full, 0))
  {
    hide Compacted, PushYoung, Combined;
    FlatFour(y[0], y[1], y[2], y[3]);
    var l1, l2, l3 := lvls[0 := [y[0]]], lvls[0 := [y[0], y[1]]], lvls[0 := [y[0], y[1], y[2]]];
    assert [] + [y[0]] == [y[0]] && [y[0]] + [y[1]] == [y[0], y[1]] && [y[0], y[1]] + [y[2]] == [y[0], y[1], y[2]];
    PushQuiet(lvls, y[0]);
    PushQuiet(l1, y[1]);
    PushQuiet(l2, y[2]);
    assert l1[0 := [y[0], y[1]]] == l2 && l2[0 := [y[0], y[1], y[2]]] == l3;
    assert y[..3] == [y[0], y[1], y[2]] && y[..3] + [y[3]] == y == [y[0], y[1], y[2], y[3]];
    assert y[..3][1..] == [y[1], y[2]] && [y[1], y[2]][1..] == [y[2]] && [y[2]][1..] == [];
    assert Pushed(l2, [y[2]]) == Pushed(l3, []) == l3;
    assert Pushed(l1, [y[1], y[2]]) == Pushed(l2, [y[2]]);
    assert Pushed(lvls, y[..3]) == l3;
    PushFull(l3, y[3]);
    assert l3[0 := l3[0] + [y[3]]] == lvls[0 := y];
    if Roomy(Compacted(lvls[0 := y], 0)) {
      var l4 := PushYoung(l3, y[3]);
      assert y[1..] == [y[1], y[2], y[3]] && y[1..][1..] == [y[2], y[3]] && [y[2], y[3]][1..] == [y[3]] && [y[3]][1..] == [];
      assert Pushed(l3, [y[3]]) == Pushed(l4, []) == l4;
      assert Pushed(l2, [y[2], y[3]]) == l4 && Pushed(l1, y[1..]) == l4;
    }
  }

  lemma FillOrdered(from: nat, n: nat)
    ensures Ordered(Fill(from, n))
  {
    var f := Fill(from, n);
    forall i, j | 0 <= i < j < n ensures Less(f[i].id, f[j].id) {
      assert f[i].id == Eid(from + i) && f[j].id == Eid(from + j);
    }
  }

  lemma OrderedJoin(a: Tab, b: Tab)
    requires Ordered(a) && Ordered(b) && (a != [] && b != [] ==> Less(a[|a| - 1].id, b[0].id))
    ensures Ordered(a + b)
  {
    var both := a + b;
    forall i, j | 0 <= i < j < |both| ensures Less(both[i].id, both[j].id) {
      if i < |a| <= j {
        assert i < |a| - 1 ==> Less(a[i].id, a[|a| - 1].id);
        assert j > |a| ==> Less(b[0].id, b[j - |a|].id);
      }
    }
  }

  lemma OneTab(a: Item)
    ensures LevelOk([[a]]) && Flatten([[a]]) == [a] && LevelGet([[a]], a.id) == Some(a.addr)
  {
    FlatFour([a], [], [], []);
    LevelIsFlat([[a]], a.id);
  }

  // a level of four young tabs in order
  lemma FourLevel(tab: Tab)
    requires |tab| == 4 * YOUNG && Ordered(tab)
    ensures LevelOk(Four(tab)) && Flatten(Four(tab)) == tab
  {
    FourDivided(tab);
    DividedLevel(tab, YOUNG);
    DividedParts(tab, YOUNG);
  }

  lemma FourCombined(lvls: Levels, tab: Tab)
    requires lvls != [] && |tab| == 4 * YOUNG && Ordered(tab) && lvls[0] == Four(tab)
    ensures Combined(lvls, 0) == tab
  {
    FourLevel(tab);
    SortSorted(tab);
  }

  lemma OverlapOne(a: Tab, begin: Eid, end: Eid)
    ensures Overlapping([a], begin, end) == (if Overlaps(a, begin, end) then [a] else [])
    ensures Kept([a], begin, end) == (if Overlaps(a, begin, end) then [] else [a])
  {
    assert [a][..0] == [];
  }

  lemma OverlapTwo(s: Tab, t: Tab, begin: Eid, end: Eid)
    ensures Overlapping([s, t], begin, end) ==
      (if Overlaps(s, begin, end) then [s] else []) + (if Overlaps(t, begin, end) then [t] else [])
    ensures Kept([s, t], begin, end) ==
      (if Overlaps(s, begin, end) then [] else [s]) + (if Overlaps(t, begin, end) then [] else [t])
  {
    OverlapOne(s, begin, end);
    assert [s, t][..1] == [s];
  }

  // ---- a deleted key comes back ----

  // a deletion mark for key 0 and enough other items to fill level 0
  function Deleting(): (r: Tab)
    ensures |r| == 4 * YOUNG
  {
    [It(0, [])] + Fill(1, 4 * YOUNG - 1)
  }

  lemma DeletingOk()
    ensures |Deleting()| == 4 * YOUNG && Ordered(Deleting()) && TabGet(Deleting(), Eid(0)) == Some([])
    ensures First(Deleting()) == Eid(0) && Last(Deleting()) == Eid(4 * YOUNG - 1)
  {
    FillOrdered(1, 4 * YOUNG - 1);
    OrderedJoin([It(0, [])], Fill(1, 4 * YOUNG - 1));
  }

  function Below(u: Bytes, v: Bytes): Levels { [[], [[It(0, u)]], [[It(0, v)]]] }

  lemma DeletingCan(u: Bytes, v: Bytes)
    ensures CanCompact(Below(u, v)[0 := Four(Deleting())], 0)
  {
    var full, tab := Below(u, v)[0 := Four(Deleting())], Deleting();
    DeletingOk();
    FourCombined(full, tab);
    FourLevel(tab);
    OneTab(It(0, u));
    hide Fill, Divided, SortItems, Merged, Four, Flatten, Deleting, Combined, LevelOk;
    OverlapOne([It(0, u)], First(tab), Last(tab));
    assert Ordered([It(0, u)]);
  }

  lemma DeletingResurrects(u: Bytes, v: Bytes)
    requires v != []
    ensures var full := Below(u, v)[0 := Four(Deleting())];
      CanCompact(full, 0) && Resurrects(full, 0, Eid(0)) && Live(LevelsGet(full, Eid(0))) == None
  {
    DeletingCan(u, v);
    DeletingOk();
    hide Fill, Divided, Four, Deleting, CanCompact;
    var full, tab, k := Below(u, v)[0 := Four(Deleting())], Deleting(), Eid(0);
    FourLevel(tab);
    OneTab(It(0, u));
    OneTab(It(0, v));
    LevelIsFlat(Four(tab), k);
    hide LevelGet, TabGet;
    NoLevels(k);
    assert full[2..] == [[[It(0, v)]]] && [[[It(0, v)]]][1..] == [] && full[..0] == [];
    assert LevelsGet(full[2..], k) == Some(v);
  }

  lemma {:induction false} MergedLength(a: Tab, b: Tab)
    ensures |Merged(a, b)| <= |a| + |b|
    decreases |a| + |b|
  {
    if a != [] && b != [] {
      if Less(a[0].id, b[0].id) {
        MergedLength(a[1..], b);
      } else if a[0].id == b[0].id {
        MergedLength(a[1..], b[1..]);
      } else {
        MergedLength(a, b[1..]);
      }
    }
  }

  // the merged part of the next level has at most the items of the two tabs
  lemma NextCount(tab: Tab, next: Level, size: nat)
    requires tab != [] && size > 0
    ensures ItemCount(NextLevel(tab, next, size)) <=
      |tab| + |Flatten(Kept(next, First(tab), Last(tab)))| + |Flatten(Overlapping(next, First(tab), Last(tab)))|
  {
    hide Merged, Divided, Kept, Overlapping;
    var kept, ov := Kept(next, First(tab), Last(tab)), Overlapping(next, First(tab), Last(tab));
    var merged := Merged(tab, Flatten(ov));
    FlattenAppend(kept, Divided(merged, size));
    DividedParts(merged, size);
    MergedLength(tab, Flatten(ov));
  }

  /** Four young tabs are pushed, the first with a deletion of key 0, which level 1 holds
      and level 2 holds an older item of. The last push, of a tab without the key,
      brings the key back. */
  lemma CompactionResurrects(u: Bytes, v: Bytes)
    requires v != []
    ensures var l := Pushed(Below(u, v), Four(Deleting())[..3]); var young := Deleting()[3 * YOUNG..];
      && l != [] && IsFull(l[0 := l[0] + [young]], 0) && TabGet(young, Eid(0)) == None
      && Live(LevelsGet(l[0 := l[0] + [young]], Eid(0))) == None && Live(LevelsGet(PushYoung(l, young), Eid(0))) == Some(v)
  {
    hide Fill, Divided, SortItems, CanCompact, Resurrects, LevelsGet, Compacted, Combined, Deleting, PushYoung;
    var lvls, tab, k := Below(u, v), Deleting(), Eid(0);
    DeletingOk();
    var full := lvls[0 := Four(tab)];
    OneTab(It(0, u));
    OneTab(It(0, v));
    PushFour(lvls, Four(tab));
    DeletingResurrects(u, v);
    DeletingRoomy(u, v);
    CompactedGet(full, 0, k);
    ResurrectedValue(full, k, v);
    AbsentLater(tab, 3 * YOUNG, k);
  }

  lemma AbsentLater(tab: Tab, n: nat, k: Eid)
    requires Ordered(tab) && 0 < n <= |tab| && tab[0].id == k
    ensures TabGet(tab[n..], k) == None
  {
    var rest := tab[n..];
    forall i | 0 <= i < |rest| ensures rest[i].id != k {
      assert Less(tab[0].id, tab[n + i].id);
    }
    TabGetNone(rest, k);
  }

  // after a compaction of level 0 into level 1
  lemma ThreeRoomy(full: Levels, tab: Tab)
    requires |full| == 3 && Combined(full, 0) == tab != []
    requires ItemCount(NextLevel(tab, full[1], TabSize(1))) < 10 * ITEM_CAP_BASE && ItemCount(full[2]) < 10 * ITEM_CAP_BASE
    ensures Roomy(Compacted(full, 0))
  {
    hide ItemCount, NextLevel, Combined, TabSize;
    var after := Compacted(full, 0);
    assert after[1] == NextLevel(tab, full[1], TabSize(1)) && after[2] == full[2] && |after| == 3;
  }

  lemma DeletingRoomy(u: Bytes, v: Bytes)
    ensures var full := Below(u, v)[0 := Four(Deleting())];
      Combined(full, 0) != [] && Roomy(Compacted(full, 0))
  {
    hide Fill, Divided, SortItems, Deleting, NextLevel, Merged, Compacted, TabSize, Four;
    var full, tab := Below(u, v)[0 := Four(Deleting())], Deleting();
    DeletingOk();
    FourCombined(full, tab);
    OverlapOne([It(0, u)], First(tab), Last(tab));
    FlatFour([It(0, u)], [], [], []);
    FlatFour([It(0, v)], [], [], []);
    assert Flatten<Item>([]) == [];
    NextCount(tab, full[1], TabSize(1));
    ThreeRoomy(full, tab);
  }

  lemma ResurrectedValue(full: Levels, k: Eid, v: Bytes)
    requires |full| == 3 && CanCompact(full, 0) && Resurrects(full, 0, k) && v != [] && full[2] == [[Item(k, v)]]
    ensures Live(LevelsGet(Compacted(full, 0), k)) == Some(v)
  {
    hide Compacted, LevelGet;
    CompactedTail(full, 0, k);
    OneTab(Item(k, v));
    NoLevels(k);
    var after := Compacted(full, 0);
    assert after[2..] == full[2..] == [[[Item(k, v)]]] && [[[Item(k, v)]]][1..] == [];
    assert after[1..][1..] == after[2..] && after[1..][0] == after[1] && after[..0] == [] && full[..0] == [];
    assert LevelsGet(after, k) == LevelsGet(after[1..], k);
    assert LevelsGet(after[1..], k) == LevelsGet(after[2..], k);
  }

  // ---- a live key is lost ----

  // level 1 in key order, with a tab above the key 5000
  function InOrder(v: Bytes): Levels { [[], [[It(5000, v)], [It(9000, v), It(10000, v)]]] }

  function First5000(v: Bytes): (r: Tab)
    ensures |r| == 4 * YOUNG
  {
    Fill(0, 4 * YOUNG - 1) + [It(5000, v)]
  }

  function Then9000(v: Bytes): (r: Tab)
    ensures |r| == 4 * YOUNG
  {
    Fill(0, 4 * YOUNG - 2) + [It(5000, v), It(9000, v)]
  }

  // level 1 after a compaction of First5000
  function OutOfOrder(v: Bytes): Levels { [[], [[It(9000, v), It(10000, v)], First5000(v)]] }

  lemma FillLast(from: nat, n: nat)
    requires n > 0
    ensures Fill(from, n)[0].id == Eid(from) && Fill(from, n)[n - 1].id == Eid(from + n - 1)
  {
  }

  lemma TabsOrdered(v: Bytes)
    ensures Ordered(First5000(v)) && First(First5000(v)) == Eid(0) && Last(First5000(v)) == Eid(5000)
    ensures Ordered(Then9000(v)) && First(Then9000(v)) == Eid(0) && Last(Then9000(v)) == Eid(9000)
  {
    FillOrdered(0, 4 * YOUNG - 1);
    FillOrdered(0, 4 * YOUNG - 2);
    FillLast(0, 4 * YOUNG - 1);
    FillLast(0, 4 * YOUNG - 2);
    hide Fill;
    OrderedJoin(Fill(0, 4 * YOUNG - 1), [It(5000, v)]);
    OrderedJoin(Fill(0, 4 * YOUNG - 2), [It(5000, v), It(9000, v)]);
  }

  // keys below all of the other tab are merged first
  lemma {:induction false} MergedBelow(a: Tab, c: Tab, b: Tab)
    requires b != [] && forall i :: 0 <= i < |a| ==> Less(a[i].id, b[0].id)
    ensures Merged(a + c, b) == a + Merged(c, b)
    decreases |a|
  {
    if a == [] {
      assert a + c == c;
    } else {
      assert (a + c)[1..] == a[1..] + c;
      MergedBelow(a[1..], c, b);
    }
  }

  lemma MergedSame(x: Item, rest: Tab)
    requires x.addr != []
    ensures Merged([x], [x] + rest) == [x] + rest
  {
    assert ([x] + rest)[1..] == rest && [x][1..] == [];
  }

  lemma FillBelow(n: nat, x: Item)
    requires n <= x.id.id
    ensures forall i :: 0 <= i < n ==> Less(Fill(0, n)[i].id, x.id)
  {
  }

  lemma FirstMerge(v: Bytes)
    requires v != []
    ensures Merged(First5000(v), [It(5000, v)]) == First5000(v)
  {
    var x := It(5000, v);
    FillBelow(4 * YOUNG - 1, x);
    MergedBelow(Fill(0, 4 * YOUNG - 1), [x], [x]);
    MergedSame(x, []);
    assert [x] + [] == [x];
  }

  lemma OneDivided(tab: Tab, size: nat)
    requires 0 < |tab| <= size
    ensures Divided(tab, size) == [tab]
  {
  }

  lemma FirstNext(v: Bytes)
    requires v != []
    ensures NextLevel(First5000(v), InOrder(v)[1], 5120) == OutOfOrder(v)[1]
  {
    var tab, low, high := First5000(v), [It(5000, v)], [It(9000, v), It(10000, v)];
    TabsOrdered(v);
    OverlapTwo(low, high, First(tab), Last(tab));
    FlatFour(low, [], [], []);
    FirstMerge(v);
    OneDivided(tab, 5120);
    assert [low] + [] == [low] && [] + [high] == [high] && [high] + [tab] == [high, tab];
  }

  // the second merge, of tabs out of order
  function Jumbled(v: Bytes): Tab {
    Fill(0, 4 * YOUNG - 2) + [It(5000, v), It(9000, v), It(10000, v)] + First5000(v)
  }

  lemma SecondMerge(v: Bytes)
    requires v != []
    ensures Merged(Then9000(v), [It(9000, v), It(10000, v)] + First5000(v)) == Jumbled(v)
  {
    var a, x, rest := Fill(0, 4 * YOUNG - 2) + [It(5000, v)], It(9000, v), [It(10000, v)] + First5000(v);
    assert Then9000(v) == a + [x] && [It(9000, v), It(10000, v)] + First5000(v) == [x] + rest;
    FillBelow(4 * YOUNG - 2, It(5000, v));
    MergedBelow(a, [x], [x] + rest);
    MergedSame(x, rest);
    assert Jumbled(v) == a + ([x] + rest);
  }

  lemma JumbledParts(v: Bytes)
    ensures |Jumbled(v)| == 8193
    ensures Divided(Jumbled(v), 5120) == [Jumbled(v)[..5120], Jumbled(v)[5120..]]
    ensures !Contains(Jumbled(v)[..5120], Eid(10000)) && !Contains(Jumbled(v)[5120..], Eid(10000))
  {
    var m := Jumbled(v);
    OneDivided(m[5120..], 5120);
    assert Divided(m, 5120) == [m[..5120]] + [m[5120..]];
    assert m[5119] == First5000(v)[1022] && m[8192] == First5000(v)[4 * YOUNG - 1];
    assert First5000(v)[1022] == It(1022, [1]);
  }

  lemma SecondNext(v: Bytes)
    requires v != []
    ensures NextLevel(Then9000(v), OutOfOrder(v)[1], 5120) == [Jumbled(v)[..5120], Jumbled(v)[5120..]]
  {
    hide Fill, Divided, Jumbled;
    var tab, high, low := Then9000(v), [It(9000, v), It(10000, v)], First5000(v);
    TabsOrdered(v);
    OverlapTwo(high, low, First(tab), Last(tab));
    FlatFour(high, low, [], []);
    SecondMerge(v);
    JumbledParts(v);
    assert [high] + [low] == [high, low];
  }

  lemma TwoCount(a: Tab, b: Tab)
    ensures ItemCount([a, b]) == |a| + |b|
  {
    FlatFour(a, b, [], []);
  }

  lemma SlicesMiss(tab: Tab, k: Eid)
    requires |tab| == 4 * YOUNG && Ordered(tab) && TabGet(tab, k) == None
    ensures LevelGet(Four(tab)[..3], k) == None && LevelGet(Four(tab), k) == None
  {
    FourLevel(tab);
    LevelIsFlat(Four(tab), k);
    var y := Four(tab);
    assert y == y[..3] + [y[3]];
    LevelConcat(y[..3], [y[3]], k);
  }

  lemma HighGet(v: Bytes)
    ensures LevelGet(OutOfOrder(v)[1], Eid(10000)) == Some(v)
    ensures TabGet(Then9000(v), Eid(10000)) == None
  {
    hide Fill;
    var high: Tab, low: Tab, k := [It(9000, v), It(10000, v)], First5000(v), Eid(10000);
    TabsOrdered(v);
    LevelConcat([high], [low], k);
    LevelStep([], high, k);
    assert [high] + [low] == [high, low] && [] + [high] == [high];
    assert !Contains(low, k) && Contains(high, k);
    assert high[1..] == [It(10000, v)];
    assert TabGet(high, k) == Some(v);
    if TabGet(Then9000(v), k).Some? {
      KeyInside(Then9000(v), k);
    }
  }

  /** Eight young tabs are pushed. The first four are compacted into a level 1 whose tabs
      are in key order, and leave them out of order; the compaction the last push
      sets off then merges them as if they were sorted, and a live key of level 1,
      in none of the eight, is no longer found. */
  lemma CompactionLosesKey(v: Bytes)
    requires v != []
    ensures LevelOk(InOrder(v)[1]) && Ordered(Flatten(InOrder(v)[1]))
    ensures var l1 := Pushed(InOrder(v), Four(First5000(v))); l1 == OutOfOrder(v)
    ensures var l := Pushed(OutOfOrder(v), Four(Then9000(v))[..3]); var young := Four(Then9000(v))[3];
      && l != [] && IsFull(l[0 := l[0] + [young]], 0)
      && Live(LevelsGet(l, Eid(10000))) == Some(v) && Live(LevelsGet(l[0 := l[0] + [young]], Eid(10000))) == Some(v)
      && Live(LevelsGet(PushYoung(l, young), Eid(10000))) == None
  {
    hide Fill, Divided, SortItems, CanCompact, LevelsGet, Compacted, Combined, PushYoung, First5000, Then9000, NextLevel, Pushed, Four;
    InOrderOk(v);
    FirstPushes(v);
    SecondPushes(v);
    LostBefore(v);
    LostAfter(v);
  }

  lemma InOrderOk(v: Bytes)
    ensures LevelOk(InOrder(v)[1]) && Ordered(Flatten(InOrder(v)[1])) && Roomy(InOrder(v))
  {
    var low, high := [It(5000, v)], [It(9000, v), It(10000, v)];
    FlatFour(low, high, [], []);
    assert low + high == [It(5000, v), It(9000, v), It(10000, v)];
    forall k ensures !(HasKey(low, k) && HasKey(high, k)) {
    }
  }

  lemma OutOfOrderOk(v: Bytes)
    ensures Roomy(OutOfOrder(v))
  {
    TwoCount([It(9000, v), It(10000, v)], First5000(v));
  }

  lemma FourSizes(tab: Tab)
    requires |tab| == 4 * YOUNG
    ensures |Four(tab)| == 4 && forall i :: 0 <= i < 4 ==> |Four(tab)[i]| == YOUNG
  {
  }

  lemma FirstPushes(v: Bytes)
    requires v != []
    ensures Pushed(InOrder(v), Four(First5000(v))) == OutOfOrder(v)
  {
    hide Fill, Divided, SortItems, First5000, NextLevel, Pushed;
    var tab, lvls := First5000(v), InOrder(v);
    var full := lvls[0 := Four(tab)];
    InOrderOk(v);
    OutOfOrderOk(v);
    TabsOrdered(v);
    FourSizes(tab);
    FourCombined(full, tab);
    Caps(1);
    FirstNext(v);
    assert Compacted(full, 0) == OutOfOrder(v);
    PushFour(lvls, Four(tab));
  }

  function Lost(v: Bytes): Levels { [[], [Jumbled(v)[..Min(5120, |Jumbled(v)|)], Jumbled(v)[Min(5120, |Jumbled(v)|)..]]] }

  lemma SecondPushes(v: Bytes)
    requires v != []
    ensures var y := Four(Then9000(v)); var l := Pushed(OutOfOrder(v), y[..3]);
      && l == OutOfOrder(v)[0 := y[..3]] && l[0 := l[0] + [y[3]]] == OutOfOrder(v)[0 := y]
      && IsFull(OutOfOrder(v)[0 := y], 0) && PushYoung(l, y[3]) == Lost(v)
  {
    hide Fill, Divided, SortItems, Then9000, First5000, NextLevel, Pushed, Jumbled;
    var tab, lvls := Then9000(v), OutOfOrder(v);
    var full := lvls[0 := Four(tab)];
    OutOfOrderOk(v);
    TabsOrdered(v);
    FourSizes(tab);
    FourCombined(full, tab);
    Caps(1);
    SecondNext(v);
    JumbledParts(v);
    TwoCount(Jumbled(v)[..5120], Jumbled(v)[5120..]);
    assert Compacted(full, 0) == Lost(v);
    PushFour(lvls, Four(tab));
  }

  lemma LostBefore(v: Bytes)
    ensures var y := Four(Then9000(v));
      && LevelsGet(OutOfOrder(v)[0 := y[..3]], Eid(10000)) == Some(v) && LevelsGet(OutOfOrder(v)[0 := y], Eid(10000)) == Some(v)
  {
    hide Fill, Divided, SortItems, Then9000, First5000, LevelGet, Four;
    HighGet(v);
    TabsOrdered(v);
    SlicesMiss(Then9000(v), Eid(10000));
    TwoLevels(Four(Then9000(v)), OutOfOrder(v)[1], Eid(10000));
    FourSizes(Then9000(v));
    TwoLevels(Four(Then9000(v))[..3], OutOfOrder(v)[1], Eid(10000));
  }

  lemma TwoLevels(a: Level, b: Level, k: Eid)
    ensures LevelsGet([a, b], k) == if LevelGet(a, k).Some? then LevelGet(a, k) else LevelGet(b, k)
  {
    assert [a, b][1..] == [b] && [b][1..] == [];
    NoLevels(k);
  }

  lemma LostAfter(v: Bytes)
    ensures LevelsGet(Lost(v), Eid(10000)) == None
  {
    hide Fill, Divided, Jumbled;
    JumbledParts(v);
    var a, b, k := Jumbled(v)[..5120], Jumbled(v)[5120..], Eid(10000);
    LevelConcat([a], [b], k);
    assert [a] + [b] == [a, b] && [a][..0] == [] && [b][..0] == [];
    assert LevelGet([a], k) == None && LevelGet([b], k) == None;
    TwoLevels([], [a, b], k);
  }

  // ---- a key twice in level 0 ----

  // key 0 is inserted in the first young tab and deleted in the last one
  function Twice(v: Bytes): seq<Tab> {
    [[It(0, v)] + Fill(1, YOUNG - 1), Fill(YOUNG, YOUNG), Fill(2 * YOUNG, YOUNG), [It(0, [])] + Fill(3 * YOUNG, YOUNG - 1)]
  }

  function Rest(): Tab { Fill(1, 4 * YOUNG - 2) }

  function LevelOne(u: Bytes): Levels { [[], [[It(0, u)]]] }

  // an item before all others is moved to the front
  lemma {:induction false} SortFront(a: Tab, x: Item, b: Tab)
    requires Ordered(a + b) && Above(a + b, x.id)
    ensures SortItems(a + [x] + b) == [x] + (a + b)
    decreases |a|
  {
    if a == [] {
      assert a + [x] + b == [x] + b && a + b == b;
      OrderedCons(x, b);
      SortSorted([x] + b);
    } else {
      var all := a + [x] + b;
      assert all[1..] == a[1..] + [x] + b && all[0] == a[0];
      assert (a + b)[1..] == a[1..] + b;
      SortFront(a[1..], x, b);
      var rest := a[1..] + b;
      assert ([x] + rest)[1..] == rest;
      assert Less(x.id, (a + b)[0].id);
      InsertFirst(a[0], rest);
      assert [a[0]] + rest == a + b;
    }
  }

  lemma InsertFirst(x: Item, rest: Tab)
    requires Ordered([x] + rest)
    ensures InsertItem(x, rest) == [x] + rest
  {
    if rest != [] {
      assert Less(([x] + rest)[0].id, ([x] + rest)[1].id);
    }
  }

  lemma TwiceFlat(v: Bytes)
    ensures Flatten(Twice(v)) == [It(0, v)] + (Fill(1, 3 * YOUNG - 1) + [It(0, [])] + Fill(3 * YOUNG, YOUNG - 1))
    ensures Fill(1, 3 * YOUNG - 1) + Fill(3 * YOUNG, YOUNG - 1) == Rest()
  {
    var y := Twice(v);
    FlatFour(y[0], y[1], y[2], y[3]);
    assert y == [y[0], y[1], y[2], y[3]];
    var a := Fill(1, YOUNG - 1) + Fill(YOUNG, YOUNG) + Fill(2 * YOUNG, YOUNG);
    assert a == Fill(1, 3 * YOUNG - 1);
  }

  lemma TwiceSorted(v: Bytes)
    requires v != []
    ensures SortItems(Flatten(Twice(v))) == [It(0, []), It(0, v)] + Rest()
  {
    var a, b, x := Fill(1, 3 * YOUNG - 1), Fill(3 * YOUNG, YOUNG - 1), It(0, []);
    TwiceFlat(v);
    FillOrdered(1, 4 * YOUNG - 2);
    hide Fill, Twice, LexLeq;
    assert Above(a + b, x.id);
    SortFront(a, x, b);
    var flat := [It(0, v)] + (a + [x] + b);
    assert flat[1..] == a + [x] + b;
    assert ([x] + Rest())[1..] == Rest();
    assert Less(It(0, v).id, Rest()[0].id);
    assert InsertItem(It(0, v), Rest()) == [It(0, v)] + Rest();
    assert InsertItem(It(0, v), [x] + Rest()) == [x] + ([It(0, v)] + Rest());
    assert [x] + ([It(0, v)] + Rest()) == [x, It(0, v)] + Rest();
    assert SortItems(flat) == InsertItem(flat[0], SortItems(flat[1..]));
  }

  /** Four young tabs are pushed onto a level 1 that holds key 0: the first inserts it
      anew, the last deletes it. Sorting puts the deletion first, where the merge
      spends it on the item of level 1, and the inserted item comes back. */
  lemma DoubleKeyReturns(u: Bytes, v: Bytes)
    requires v != []
    ensures var y := Twice(v); var l := Pushed(LevelOne(u), y[..3]);
      && l != [] && IsFull(l[0 := l[0] + [y[3]]], 0) && TabGet(y[3], Eid(0)) == Some([])
      && Live(LevelsGet(l[0 := l[0] + [y[3]]], Eid(0))) == None && Live(LevelsGet(PushYoung(l, y[3]), Eid(0))) == Some(v)
  {
    hide Fill, SortItems, Compacted, Combined, PushYoung, LevelsGet, Pushed;
    var lvls, y, k := LevelOne(u), Twice(v), Eid(0);
    FlatFour([It(0, u)], [], [], []);
    assert Flatten<Item>([]) == [];
    PushFour(lvls, y);
    TwiceCompacted(u, v);
    TwiceBefore(u, v);
    TwiceAfter(v);
  }

  function Marked(v: Bytes): Tab { [It(0, []), It(0, v)] + Rest() }

  lemma TwiceMerged(u: Bytes, v: Bytes)
    ensures Merged(Marked(v), [It(0, u)]) == [It(0, v)] + Rest()
  {
    hide Fill;
    var tab := Marked(v);
    assert tab[1..] == [It(0, v)] + Rest() && [It(0, u)][1..] == [];
    assert Merged(tab, [It(0, u)]) == [] + Merged([It(0, v)] + Rest(), []);
  }

  lemma TwiceNext(u: Bytes, v: Bytes)
    ensures NextLevel(Marked(v), [[It(0, u)]], 5120) == [[It(0, v)] + Rest()]
  {
    hide Fill, Merged;
    var tab := Marked(v);
    assert First(tab) == Eid(0) && Last(tab) == Rest()[|Rest()| - 1].id;
    OverlapOne([It(0, u)], First(tab), Last(tab));
    FlatFour([It(0, u)], [], [], []);
    TwiceMerged(u, v);
    OneDivided([It(0, v)] + Rest(), 5120);
    hide Divided, Overlapping, Kept;
    assert [] + [[It(0, v)] + Rest()] == [[It(0, v)] + Rest()];
  }

  lemma TwiceCompacted(u: Bytes, v: Bytes)
    requires v != []
    ensures var full := LevelOne(u)[0 := Twice(v)];
      && Combined(full, 0) != [] && Roomy(Compacted(full, 0)) && Compacted(full, 0) == [[], [[It(0, v)] + Rest()]]
  {
    hide Fill, SortItems, NextLevel, Twice, Rest;
    var full := LevelOne(u)[0 := Twice(v)];
    TwiceSorted(v);
    Caps(1);
    assert Combined(full, 0) == Marked(v);
    TwiceNext(u, v);
    FlatFour([It(0, v)] + Rest(), [], [], []);
    RestSize();
  }

  lemma RestSize()
    ensures |Rest()| == 4 * YOUNG - 2
  {
  }

  lemma TwiceBefore(u: Bytes, v: Bytes)
    ensures LevelsGet(LevelOne(u)[0 := Twice(v)], Eid(0)) == Some([])
  {
    var y := Twice(v);
    FillOrdered(3 * YOUNG, YOUNG - 1);
    hide Fill;
    OrderedJoin([It(0, [])], Fill(3 * YOUNG, YOUNG - 1));
    LevelStep(y[..3], y[3], Eid(0));
    assert y[..3] + [y[3]] == y;
    TwoLevels(y, LevelOne(u)[1], Eid(0));
  }

  lemma TwiceAfter(v: Bytes)
    ensures LevelsGet([[], [[It(0, v)] + Rest()]], Eid(0)) == Some(v)
  {
    FillOrdered(1, 4 * YOUNG - 2);
    hide Fill;
    OrderedJoin([It(0, v)], Rest());
    var tab := [It(0, v)] + Rest();
    LevelStep([], tab, Eid(0));
    assert [] + [tab] == [tab];
    TwoLevels([], [tab], Eid(0));
  }
}
