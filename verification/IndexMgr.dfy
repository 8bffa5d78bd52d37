/** The index: a memory table over the levels. */
module IndexMgr {
  import opened Basics
  import opened IndexTabs
  import opened IndexLevels
  import opened Compaction

  const CAPACITY: nat := 4096
  const RESIDENCE_CAP: nat := 3072

  // the memory table keeps its items in the order they were last used
  datatype Index = Index(mem: Tab, lvls: Levels)

  function Without(mem: Tab, k: Eid): Tab {
    if mem == [] then [] else (if mem[0].id == k then [] else [mem[0]]) + Without(mem[1..], k)
  }

  function Put(mem: Tab, item: Item): Tab { Without(mem, item.id) + [item] }

  // the items used least recently, sorted
  function Young(mem: Tab): Tab
    requires |mem| >= CAPACITY
  {
    SortItems(mem[..|mem| - RESIDENCE_CAP])
  }

  function ItemCount(lvl: Level): nat { |Flatten(lvl)| }

  predicate IsFull(lvls: Levels, curr: nat)
    requires curr < |lvls|
  {
    ItemCount(lvls[curr]) >= ItemCap(curr)
  }

  lemma FullCombines(lvls: Levels, curr: nat)
    requires curr < |lvls| && IsFull(lvls, curr)
    ensures Combined(lvls, curr) != []
  {
    SortLength(Flatten(lvls[curr]));
  }

  // compact whichever of the levels from `curr` to `cnt` is full, in turn
  function CompactFull(lvls: Levels, curr: nat, cnt: nat): (r: Levels)
    requires curr <= cnt <= |lvls|
    ensures |r| >= |lvls|
    decreases cnt - curr
  {
    if curr == cnt then lvls
    else if IsFull(lvls, curr) then FullCombines(lvls, curr); CompactFull(Compacted(lvls, curr), curr + 1, cnt)
    else CompactFull(lvls, curr + 1, cnt)
  }

  function PushYoung(lvls: Levels, young: Tab): Levels
    requires lvls != []
  {
    CompactFull(lvls[0 := lvls[0] + [young]], 0, |lvls|)
  }

  // drop the items that went to the levels
  function Evict(mem: Tab, young: Tab): Tab
    decreases |young|
  {
    if young == [] then mem else Evict(Without(mem, young[0].id), young[1..])
  }

  function Insert(ix: Index, item: Item): (r: Index)
    requires ix.lvls != []
    ensures r.lvls != []
  {
    var mem := Put(ix.mem, item);
    if |mem| < CAPACITY then Index(mem, ix.lvls)
    else Index(Evict(mem, Young(mem)), PushYoung(ix.lvls, Young(mem)))
  }

  function Get(ix: Index, k: Eid): Option<Bytes> {
    Live(if TabGet(ix.mem, k).Some? then TabGet(ix.mem, k) else LevelsGet(ix.lvls, k))
  }

  /** Each compaction on the way changes no lookup. */
  ghost predicate SoundFrom(lvls: Levels, curr: nat, cnt: nat)
    requires curr <= cnt <= |lvls|
    decreases cnt - curr
  {
    curr == cnt ||
    if IsFull(lvls, curr) then
      FullCombines(lvls, curr);
      CanCompact(lvls, curr) && (forall k :: !Resurrects(lvls, curr, k)) && SoundFrom(Compacted(lvls, curr), curr + 1, cnt)
    else SoundFrom(lvls, curr + 1, cnt)
  }

  ghost predicate SoundInsert(ix: Index, item: Item)
    requires ix.lvls != []
  {
    var mem := Put(ix.mem, item);
    |mem| >= CAPACITY ==> SoundFrom(ix.lvls[0 := ix.lvls[0] + [Young(mem)]], 0, |ix.lvls|)
  }

  // ---- the memory table ----

  lemma {:induction false} WithoutGet(mem: Tab, x: Eid, k: Eid)
    ensures TabGet(Without(mem, x), k) == if k == x then None else TabGet(mem, k)
  {
    if mem != [] {
      WithoutGet(mem[1..], x, k);
      GetCons(mem[0], Without(mem[1..], x), k);
      assert [] + Without(mem[1..], x) == Without(mem[1..], x);
    }
  }

  lemma WithoutKey(mem: Tab, x: Eid, k: Eid)
    ensures HasKey(Without(mem, x), k) <==> HasKey(mem, k) && k != x
  {
    hide TabGet, HasKey;
    TabGetNone(mem, k);
    TabGetNone(Without(mem, x), k);
    WithoutGet(mem, x, k);
  }

  lemma {:induction false} WithoutDistinct(mem: Tab, x: Eid)
    requires DistinctKeys(mem)
    ensures DistinctKeys(Without(mem, x))
  {
    hide HasKey;
    if mem != [] {
      var rest := Without(mem[1..], x);
      WithoutDistinct(mem[1..], x);
      assert [] + rest == rest;
      TailKey(mem);
      WithoutKey(mem[1..], x, mem[0].id);
      if mem[0].id != x {
        DistinctCons(mem[0], rest);
      }
    }
  }

  lemma TailKey(mem: Tab)
    requires DistinctKeys(mem) && mem != []
    ensures !HasKey(mem[1..], mem[0].id)
  {
  }

  lemma DistinctCons(x: Item, rest: Tab)
    requires DistinctKeys(rest) && !HasKey(rest, x.id)
    ensures DistinctKeys([x] + rest)
  {
    var all := [x] + rest;
    forall i, j | 0 <= i < j < |all| ensures all[i].id != all[j].id {
      assert HasKey(rest, rest[j - 1].id);
    }
  }

  lemma DistinctSnoc(mem: Tab, x: Item)
    requires DistinctKeys(mem) && !HasKey(mem, x.id)
    ensures DistinctKeys(mem + [x])
  {
    var all := mem + [x];
    forall i, j | 0 <= i < j < |all| ensures all[i].id != all[j].id {
      assert HasKey(mem, mem[i].id);
    }
  }

  lemma PutGet(mem: Tab, item: Item, k: Eid)
    ensures TabGet(Put(mem, item), k) == if k == item.id then Some(item.addr) else TabGet(mem, k)
  {
    WithoutGet(mem, item.id, k);
    TabGetConcat(Without(mem, item.id), [item], k);
    GetCons(item, [], k);
    assert [item] + [] == [item];
  }

  lemma PutDistinct(mem: Tab, item: Item)
    requires DistinctKeys(mem)
    ensures DistinctKeys(Put(mem, item))
  {
    WithoutDistinct(mem, item.id);
    WithoutKey(mem, item.id, item.id);
    DistinctSnoc(Without(mem, item.id), item);
  }

  lemma {:induction false} EvictGet(mem: Tab, young: Tab, k: Eid)
    ensures TabGet(Evict(mem, young), k) == if TabGet(young, k).Some? then None else TabGet(mem, k)
    decreases |young|
  {
    if young != [] {
      EvictGet(Without(mem, young[0].id), young[1..], k);
      WithoutGet(mem, young[0].id, k);
    }
  }

  lemma {:induction false} EvictDistinct(mem: Tab, young: Tab)
    requires DistinctKeys(mem)
    ensures DistinctKeys(Evict(mem, young))
    decreases |young|
  {
    if young != [] {
      WithoutDistinct(mem, young[0].id);
      EvictDistinct(Without(mem, young[0].id), young[1..]);
    }
  }

  lemma PrefixGet(mem: Tab, n: nat, k: Eid)
    requires DistinctKeys(mem) && n <= |mem| && TabGet(mem[..n], k).Some?
    ensures TabGet(mem, k) == TabGet(mem[..n], k)
  {
    assert mem == mem[..n] + mem[n..];
    TabGetConcat(mem[..n], mem[n..], k);
  }

  lemma YoungGet(mem: Tab, k: Eid)
    requires DistinctKeys(mem) && |mem| >= CAPACITY
    ensures Ordered(Young(mem)) && Young(mem) != []
    ensures TabGet(Young(mem), k).Some? ==> TabGet(Young(mem), k) == TabGet(mem, k)
  {
    hide Ordered, TabGet;
    var n := |mem| - RESIDENCE_CAP;
    SortKeeps(mem[..n]);
    SortLength(mem[..n]);
    if TabGet(mem[..n], k).Some? {
      PrefixGet(mem, n, k);
    }
  }

  // ---- how much stays in memory ----

  lemma {:induction false} WithoutLength(mem: Tab, k: Eid)
    requires DistinctKeys(mem)
    ensures |Without(mem, k)| == |mem| - if HasKey(mem, k) then 1 else 0
  {
    if mem != [] {
      TailKey(mem);
      WithoutLength(mem[1..], k);
      KeyHere(mem, k);
    }
  }

  lemma KeyHere(mem: Tab, k: Eid)
    requires mem != []
    ensures HasKey(mem, k) <==> mem[0].id == k || HasKey(mem[1..], k)
  {
    if HasKey(mem[1..], k) {
      var i :| 0 <= i < |mem[1..]| && mem[1..][i].id == k;
      assert mem[i + 1].id == k;
    }
    if HasKey(mem, k) && mem[0].id != k {
      var i :| 0 <= i < |mem| && mem[i].id == k;
      assert mem[1..][i - 1].id == k;
    }
  }

  lemma {:induction false} EvictLength(mem: Tab, young: Tab)
    requires DistinctKeys(mem) && DistinctKeys(young) && forall i :: 0 <= i < |young| ==> HasKey(mem, young[i].id)
    ensures |Evict(mem, young)| == |mem| - |young|
    decreases |young|
  {
    hide HasKey;
    if young != [] {
      var k, rest := young[0].id, young[1..];
      WithoutLength(mem, k);
      WithoutDistinct(mem, k);
      TailKey(young);
      forall i | 0 <= i < |rest| ensures HasKey(Without(mem, k), rest[i].id) {
        assert rest[i] == young[i + 1];
        WithoutKey(mem, k, rest[i].id);
      }
      EvictLength(Without(mem, k), rest);
    }
  }

  lemma YoungKeys(mem: Tab)
    requires DistinctKeys(mem) && |mem| >= CAPACITY
    ensures DistinctKeys(Young(mem)) && |Young(mem)| == |mem| - RESIDENCE_CAP
    ensures forall i :: 0 <= i < |Young(mem)| ==> HasKey(mem, Young(mem)[i].id)
  {
    hide TabGet;
    var n := |mem| - RESIDENCE_CAP;
    SortKeeps(mem[..n]);
    SortLength(mem[..n]);
    OrderedDistinct(Young(mem));
    forall i | 0 <= i < |Young(mem)| ensures HasKey(mem, Young(mem)[i].id) {
      TabGetAt(Young(mem), i);
      YoungGet(mem, Young(mem)[i].id);
      TabGetNone(mem, Young(mem)[i].id);
    }
  }

  /** The memory table never fills up: when it would, exactly the residents stay. */
  lemma InsertSize(ix: Index, item: Item)
    requires Ok(ix) && |ix.mem| < CAPACITY
    ensures |Insert(ix, item).mem| < CAPACITY
    ensures |Put(ix.mem, item)| >= CAPACITY ==> |Insert(ix, item).mem| == RESIDENCE_CAP
  {
    hide HasKey, Evict, Young;
    var mem := Put(ix.mem, item);
    PutDistinct(ix.mem, item);
    if |mem| >= CAPACITY {
      YoungKeys(mem);
      EvictLength(mem, Young(mem));
    }
  }

  // what is left of a table without some keys
  function Outside(mem: Tab, keys: set<Eid>): Tab {
    if mem == [] then [] else (if mem[0].id in keys then [] else [mem[0]]) + Outside(mem[1..], keys)
  }

  lemma {:induction false} WithoutOutside(mem: Tab, k: Eid, keys: set<Eid>)
    ensures Outside(Without(mem, k), keys) == Outside(mem, keys + {k})
  {
    if mem != [] {
      var rest := Without(mem[1..], k);
      WithoutOutside(mem[1..], k, keys);
      assert [] + rest == rest && ([mem[0]] + rest)[1..] == rest;
    }
  }

  lemma {:induction false} OutsideNone(mem: Tab)
    ensures Outside(mem, {}) == mem
  {
    if mem != [] {
      OutsideNone(mem[1..]);
    }
  }

  function Keys(tab: Tab): set<Eid> { set i | 0 <= i < |tab| :: tab[i].id }

  lemma {:induction false} EvictOutside(mem: Tab, young: Tab)
    ensures Evict(mem, young) == Outside(mem, Keys(young))
    decreases |young|
  {
    if young == [] {
      OutsideNone(mem);
      assert Keys(young) == {};
    } else {
      EvictOutside(Without(mem, young[0].id), young[1..]);
      WithoutOutside(mem, young[0].id, Keys(young[1..]));
      assert Keys(young) == Keys(young[1..]) + {young[0].id} by {
        forall i | 0 < i < |young| ensures young[i].id in Keys(young[1..]) {
          assert young[1..][i - 1] == young[i];
        }
      }
    }
  }

  lemma {:induction false} OutsidePrefix(mem: Tab, n: nat, keys: set<Eid>)
    requires n <= |mem| && (forall i :: 0 <= i < n ==> mem[i].id in keys)
    requires forall i :: n <= i < |mem| ==> mem[i].id !in keys
    ensures Outside(mem, keys) == mem[n..]
    decreases |mem|
  {
    if mem != [] {
      if n > 0 {
        OutsidePrefix(mem[1..], n - 1, keys);
      } else {
        OutsidePrefix(mem[1..], 0, keys);
        assert mem == [mem[0]] + mem[1..];
      }
    }
  }

  lemma {:induction false} InsertedKeys(x: Item, tab: Tab)
    ensures Keys(InsertItem(x, tab)) == Keys(tab) + {x.id}
  {
    if tab == [] || Before(x, tab[0]) {
      KeysCons(x, tab);
    } else {
      InsertedKeys(x, tab[1..]);
      KeysCons(tab[0], InsertItem(x, tab[1..]));
      KeysCons(tab[0], tab[1..]);
      assert [tab[0]] + tab[1..] == tab;
    }
  }

  lemma KeysCons(x: Item, tab: Tab)
    ensures Keys([x] + tab) == Keys(tab) + {x.id}
  {
    var all := [x] + tab;
    forall i | 0 <= i < |tab| ensures tab[i].id in Keys(all) {
      assert all[i + 1] == tab[i];
    }
    assert all[0] == x;
  }

  lemma {:induction false} SortedKeys(tab: Tab)
    ensures Keys(SortItems(tab)) == Keys(tab)
  {
    if tab != [] {
      SortedKeys(tab[1..]);
      InsertedKeys(tab[0], SortItems(tab[1..]));
      KeysCons(tab[0], tab[1..]);
      assert [tab[0]] + tab[1..] == tab;
    }
  }

  /** What goes to the levels when the memory table would fill up are the items used least
      recently; the others stay, in their order. */
  lemma InsertResidents(ix: Index, item: Item)
    requires Ok(ix)
    ensures var mem := Put(ix.mem, item);
      Insert(ix, item).mem == if |mem| < CAPACITY then mem else mem[|mem| - RESIDENCE_CAP..]
  {
    hide Outside;
    var mem := Put(ix.mem, item);
    PutDistinct(ix.mem, item);
    if |mem| >= CAPACITY {
      var n := |mem| - RESIDENCE_CAP;
      EvictOutside(mem, Young(mem));
      SortedKeys(mem[..n]);
      forall i | 0 <= i < n ensures mem[i].id in Keys(mem[..n]) {
        assert mem[..n][i] == mem[i];
      }
      OutsidePrefix(mem, n, Keys(mem[..n]));
    }
  }

  // ---- how full the levels get ----

  lemma CompactedEmpties(lvls: Levels, curr: nat)
    requires curr < |lvls| && Combined(lvls, curr) != []
    ensures Compacted(lvls, curr)[curr] == []
    ensures forall i :: 0 <= i < curr ==> Compacted(lvls, curr)[i] == lvls[i]
  {
    hide NextLevel, Combined;
  }

  /** After its turn no level is full; those before it have not been touched. */
  lemma {:induction false} CompactFullEmpties(lvls: Levels, curr: nat, cnt: nat)
    requires curr <= cnt <= |lvls|
    ensures forall i :: curr <= i < cnt ==> !IsFull(CompactFull(lvls, curr, cnt), i)
    ensures forall i :: 0 <= i < curr ==> CompactFull(lvls, curr, cnt)[i] == lvls[i]
    decreases cnt - curr
  {
    hide Compacted;
    if curr < cnt {
      if IsFull(lvls, curr) {
        FullCombines(lvls, curr);
        CompactedEmpties(lvls, curr);
        CompactFullEmpties(Compacted(lvls, curr), curr + 1, cnt);
      } else {
        CompactFullEmpties(lvls, curr + 1, cnt);
      }
    }
  }

  /** A young tab pushed leaves no level full, except one it has just created; and levels
      with room for it stay as they are otherwise. */
  lemma PushLeavesRoom(lvls: Levels, young: Tab)
    requires lvls != []
    ensures forall i :: 0 <= i < |lvls| ==> i < |PushYoung(lvls, young)| && !IsFull(PushYoung(lvls, young), i)
    ensures var pushed := lvls[0 := lvls[0] + [young]];
      (forall i :: 0 <= i < |lvls| ==> !IsFull(pushed, i)) ==> PushYoung(lvls, young) == pushed
  {
    hide CompactFull, IsFull;
    var pushed := lvls[0 := lvls[0] + [young]];
    assert PushYoung(lvls, young) == CompactFull(pushed, 0, |lvls|);
    CompactFullEmpties(pushed, 0, |lvls|);
    if forall i :: 0 <= i < |lvls| ==> !IsFull(pushed, i) {
      assert forall i :: 0 <= i < |pushed| ==> !IsFull(pushed, i);
      NoneFull(pushed, 0, |lvls|);
    }
  }

  lemma {:induction false} NoneFull(lvls: Levels, curr: nat, cnt: nat)
    requires curr <= cnt <= |lvls| && forall i :: curr <= i < cnt ==> !IsFull(lvls, i)
    ensures CompactFull(lvls, curr, cnt) == lvls
    decreases cnt - curr
  {
    if curr < cnt {
      NoneFull(lvls, curr + 1, cnt);
    }
  }

  // ---- lookups ----

  lemma {:induction false} CompactFullGet(lvls: Levels, curr: nat, cnt: nat, k: Eid)
    requires curr <= cnt <= |lvls| && SoundFrom(lvls, curr, cnt)
    ensures Live(LevelsGet(CompactFull(lvls, curr, cnt), k)) == Live(LevelsGet(lvls, k))
    decreases cnt - curr
  {
    hide Live, LevelsGet, Resurrects, CanCompact, Compacted, IsFull;
    if curr < cnt {
      if IsFull(lvls, curr) {
        FullCombines(lvls, curr);
        CompactedGet(lvls, curr, k);
        CompactFullGet(Compacted(lvls, curr), curr + 1, cnt, k);
      } else {
        CompactFullGet(lvls, curr + 1, cnt, k);
      }
    }
  }

  /** Moving young items to level 0 changes no lookup. */
  lemma YoungLevelGet(lvls: Levels, young: Tab, k: Eid)
    requires lvls != [] && Ordered(young)
    ensures LevelsGet(lvls[0 := lvls[0] + [young]], k) ==
      if TabGet(young, k).Some? then TabGet(young, k) else LevelsGet(lvls, k)
  {
    LevelStep(lvls[0], young, k);
    assert lvls[0 := lvls[0] + [young]][1..] == lvls[1..];
  }

  /** An insertion, with everything it sets off, is a map update. */
  lemma InsertGet(ix: Index, item: Item, k: Eid)
    requires DistinctKeys(ix.mem) && ix.lvls != [] && SoundInsert(ix, item)
    ensures Get(Insert(ix, item), k) == if k == item.id then Live(Some(item.addr)) else Get(ix, k)
  {
    hide TabGet, LevelsGet, DistinctKeys, Ordered, SoundFrom, CompactFull, Young, Put, Evict;
    var mem := Put(ix.mem, item);
    PutGet(ix.mem, item, k);
    PutDistinct(ix.mem, item);
    if |mem| >= CAPACITY {
      YoungGet(mem, k);
      EvictGet(mem, Young(mem), k);
      YoungLevelGet(ix.lvls, Young(mem), k);
      CompactFullGet(ix.lvls[0 := ix.lvls[0] + [Young(mem)]], 0, |ix.lvls|, k);
    }
  }

  ghost predicate Ok(ix: Index) {
    DistinctKeys(ix.mem) && ix.lvls != []
  }

  lemma InsertOk(ix: Index, item: Item)
    requires Ok(ix)
    ensures Ok(Insert(ix, item))
  {
    hide DistinctKeys, CompactFull, Evict, Young, Put;
    var mem := Put(ix.mem, item);
    PutDistinct(ix.mem, item);
    if |mem| >= CAPACITY {
      EvictDistinct(mem, Young(mem));
    }
  }

  // ---- runs ----

  function Run(ix: Index, items: seq<Item>): Index
    requires ix.lvls != []
    decreases |items|
  {
    if items == [] then ix else Run(Insert(ix, items[0]), items[1..])
  }

  ghost predicate SoundRun(ix: Index, items: seq<Item>)
    requires ix.lvls != []
    decreases |items|
  {
    items == [] || (SoundInsert(ix, items[0]) && SoundRun(Insert(ix, items[0]), items[1..]))
  }

  // the last insertion of a key decides
  function LastPut(items: seq<Item>, k: Eid, base: Option<Bytes>): Option<Bytes>
    decreases |items|
  {
    if items == [] then base
    else LastPut(items[1..], k, if items[0].id == k then Live(Some(items[0].addr)) else base)
  }

  /** Over any run of insertions and deletions whose compactions resurrect nothing,
      a lookup gives what was put last. */
  lemma {:induction false} RunGet(ix: Index, items: seq<Item>, k: Eid)
    requires Ok(ix) && SoundRun(ix, items)
    ensures Get(Run(ix, items), k) == LastPut(items, k, Get(ix, k))
    decreases |items|
  {
    hide Get, Insert, SoundInsert, DistinctKeys;
    if items != [] {
      InsertGet(ix, items[0], k);
      InsertOk(ix, items[0]);
      RunGet(Insert(ix, items[0]), items[1..], k);
    }
  }

  class Manager {
    var mem: Tab
    var lvls: Levels

    function Value(): Index
      reads this
    {
      Index(mem, lvls)
    }

    ghost predicate Valid()
      reads this
    {
      Ok(Value())
    }

    constructor ()
      ensures Valid() && mem == [] && lvls == [[]] && forall k :: Get(Value(), k) == None
    {
      mem, lvls := [], [[]];
      new;
      forall k ensures Get(Value(), k) == None {
        NoLevels(k);
        assert LevelGet([], k) == None && lvls[1..] == [];
      }
    }

    /** Look up a key and make it the most recently used one. */
    method Lookup(id: Eid) returns (r: Option<Bytes>)
      requires Valid()
      modifies this`mem
      ensures Valid() && r == Get(old(Value()), id)
      ensures forall k :: Get(Value(), k) == Get(old(Value()), k)
      ensures var hit := TabGet(old(mem), id);
        mem == if hit.Some? then Without(old(mem), id) + [Item(id, hit.value)] else old(mem)
    {
      var hit := TabGet(mem, id);
      if hit.Some? {
        forall k { PutGet(mem, Item(id, hit.value), k); }
        PutDistinct(mem, Item(id, hit.value));
        mem := Put(mem, Item(id, hit.value));
        r := if hit.value == [] then None else hit;
      } else {
        r := Live(LevelsGet(lvls, id));
      }
    }

    method Compact(curr: nat)
      requires curr < |lvls| && Combined(lvls, curr) != []
      modifies this`lvls
      ensures lvls == Compacted(old(lvls), curr)
    {
      hide Combined, Kept, Overlapping, Flatten, Merged, Divided, TabSize, First, Last;
      var tab := Combined(lvls, curr);
      var next := curr + 1;
      if next >= |lvls| {
        lvls := lvls[curr := []] + [[tab]];
        return;
      }
      var overlap := Overlapping(lvls[next], First(tab), Last(tab));
      var merged := Merge(tab, Flatten(overlap));
      var kept := Kept(lvls[next], First(tab), Last(tab));
      lvls := lvls[next := kept];
      var parts := Divide(merged, TabSize(next));
      for i := 0 to |parts|
        invariant |lvls| == old(|lvls|) && lvls[next] == kept + parts[..i]
        invariant forall j :: 0 <= j < |lvls| && j != next ==> lvls[j] == old(lvls)[j]
      {
        lvls := lvls[next := lvls[next] + [parts[i]]];
        assert parts[..i + 1] == parts[..i] + [parts[i]];
      }
      assert parts[..|parts|] == parts;
      lvls := lvls[curr := []];
    }

    method Add(young: Tab)
      requires lvls != []
      modifies this`lvls
      ensures lvls == PushYoung(old(lvls), young)
    {
      lvls := lvls[0 := lvls[0] + [young]];
      var cnt := |lvls|;
      for curr := 0 to cnt
        invariant cnt <= |lvls| && CompactFull(lvls, curr, cnt) == PushYoung(old(lvls), young)
      {
        if IsFull(lvls, curr) {
          FullCombines(lvls, curr);
          Compact(curr);
        }
      }
    }

    /** Insert an address; an empty one deletes the key. */
    method Save(id: Eid, addr: Bytes)
      requires Valid()
      modifies this
      ensures Valid() && Value() == Insert(old(Value()), Item(id, addr))
      ensures SoundInsert(old(Value()), Item(id, addr)) ==>
        forall k :: Get(Value(), k) == if k == id then Live(Some(addr)) else Get(old(Value()), k)
    {
      ghost var before, item := Value(), Item(id, addr);
      InsertOk(before, item);
      if SoundInsert(before, item) {
        forall k { InsertGet(before, item, k); }
      }
      mem := Put(mem, Item(id, addr));
      if |mem| >= CAPACITY {
        var young := Young(mem);
        Add(young);
        mem := Evict(mem, young);
      }
    }
  }
}
