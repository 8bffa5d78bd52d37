/** Tabs of the index: search, merge and division. An empty address marks a deletion. */
module IndexTabs {
  import opened Basics

  datatype Item = Item(id: Eid, addr: Bytes)

  type Tab = seq<Item>

  predicate Less(a: Eid, b: Eid) { a.id < b.id }

  /** Strictly ascending keys. */
  ghost predicate Ordered(tab: Tab) {
    forall i, j :: 0 <= i < j < |tab| ==> Less(tab[i].id, tab[j].id)
  }

  /** The address a search finds; on a tab in key order a binary search finds it. */
  function TabGet(tab: Tab, k: Eid): Option<Bytes> {
    if tab == [] then None else if tab[0].id == k then Some(tab[0].addr) else TabGet(tab[1..], k)
  }

  ghost predicate HasKey(tab: Tab, k: Eid) {
    exists i :: 0 <= i < |tab| && tab[i].id == k
  }

  lemma {:induction false} TabGetNone(tab: Tab, k: Eid)
    ensures TabGet(tab, k).None? <==> !HasKey(tab, k)
  {
    if tab != [] {
      TabGetNone(tab[1..], k);
      if HasKey(tab[1..], k) {
        var i :| 0 <= i < |tab[1..]| && tab[1..][i].id == k;
        assert tab[i + 1].id == k;
      }
      if HasKey(tab, k) && tab[0].id != k {
        var i :| 0 <= i < |tab| && tab[i].id == k;
        assert tab[1..][i - 1].id == k;
      }
    }
  }

  lemma {:induction false} TabGetAt(tab: Tab, i: nat)
    requires Ordered(tab) && i < |tab|
    ensures TabGet(tab, tab[i].id) == Some(tab[i].addr)
  {
    if i > 0 {
      TabGetAt(tab[1..], i - 1);
    }
  }

  lemma {:induction false} TabGetConcat(a: Tab, b: Tab, k: Eid)
    ensures TabGet(a + b, k) == if TabGet(a, k).Some? then TabGet(a, k) else TabGet(b, k)
    decreases |a|
  {
    if a == [] {
      assert a + b == b;
    } else {
      assert (a + b)[1..] == a[1..] + b;
      TabGetConcat(a[1..], b, k);
    }
  }

  // ---- merge ----

  /** Merge with an older tab: the newer item of a key wins, and a deletion takes
      the older item with it. */
  function Merged(a: Tab, b: Tab): Tab
    decreases |a| + |b|
  {
    if a == [] then b
    else if b == [] then a
    else if Less(a[0].id, b[0].id) then [a[0]] + Merged(a[1..], b)
    else if a[0].id == b[0].id then (if a[0].addr == [] then [] else [a[0]]) + Merged(a[1..], b[1..])
    else [b[0]] + Merged(a, b[1..])
  }

  lemma MergedAt(a: Tab, i: nat, b: Tab, j: nat)
    requires i < |a| && j < |b|
    ensures var m := Merged(a[i..], b[j..]); var a1, b1 := a[i + 1..], b[j + 1..];
      if Less(a[i].id, b[j].id) then m == [a[i]] + Merged(a1, b[j..])
      else if a[i].id == b[j].id then
        m == if a[i].addr == [] then Merged(a1, b1) else [a[i]] + Merged(a1, b1)
      else m == [b[j]] + Merged(a[i..], b1)
  {
    assert a[i..][1..] == a[i + 1..] && b[j..][1..] == b[j + 1..];
    assert [] + Merged(a[i + 1..], b[j + 1..]) == Merged(a[i + 1..], b[j + 1..]);
  }

  lemma MergedEnd(a: Tab, b: Tab)
    requires a == [] || b == []
    ensures Merged(a, b) == a + b
  {
  }

  method Merge(a: Tab, b: Tab) returns (m: Tab)
    ensures m == Merged(a, b)
  {
    hide Merged;
    m := [];
    var i, j := 0, 0;
    while i < |a| && j < |b|
      invariant i <= |a| && j <= |b| && m + Merged(a[i..], b[j..]) == Merged(a, b)
    {
      MergedAt(a, i, b, j);
      if Less(a[i].id, b[j].id) {
        m := m + [a[i]];
        i := i + 1;
      } else if a[i].id == b[j].id {
        if a[i].addr != [] {
          m := m + [a[i]];
        }
        i, j := i + 1, j + 1;
      } else {
        m := m + [b[j]];
        j := j + 1;
      }
    }
    MergedEnd(a[i..], b[j..]);
    if i < |a| {
      m := m + a[i..];
    }
    if j < |b| {
      m := m + b[j..];
    }
  }

  // what a merge leaves of one key
  function MergeGet(a: Option<Bytes>, b: Option<Bytes>): Option<Bytes> {
    if a.None? then b else if b.Some? && a.value == [] then None else a
  }

  // every key is above k
  ghost predicate Above(tab: Tab, k: Eid) {
    forall i :: 0 <= i < |tab| ==> Less(k, tab[i].id)
  }

  lemma {:induction false} MergedAbove(a: Tab, b: Tab, k: Eid)
    requires Above(a, k) && Above(b, k)
    ensures Above(Merged(a, b), k)
    decreases |a| + |b|
  {
    if a != [] && b != [] {
      if Less(a[0].id, b[0].id) {
        MergedAbove(a[1..], b, k);
      } else if a[0].id == b[0].id {
        MergedAbove(a[1..], b[1..], k);
      } else {
        MergedAbove(a, b[1..], k);
      }
    }
  }

  lemma OrderedTail(tab: Tab)
    requires Ordered(tab) && tab != []
    ensures Ordered(tab[1..]) && Above(tab[1..], tab[0].id)
  {
  }

  lemma OrderedCons(x: Item, tab: Tab)
    requires Ordered(tab) && Above(tab, x.id)
    ensures Ordered([x] + tab)
  {
  }

  lemma AboveLower(tab: Tab, low: Eid)
    requires tab != [] && Ordered(tab) && Less(low, tab[0].id)
    ensures Above(tab, low)
  {
  }

  lemma {:induction false} MergedOrdered(a: Tab, b: Tab)
    requires Ordered(a) && Ordered(b)
    ensures Ordered(Merged(a, b))
    decreases |a| + |b|
  {
    hide Ordered, Above;
    if a != [] && b != [] {
      OrderedTail(a);
      OrderedTail(b);
      if Less(a[0].id, b[0].id) {
        MergedOrdered(a[1..], b);
        AboveLower(b, a[0].id);
        MergedAbove(a[1..], b, a[0].id);
        OrderedCons(a[0], Merged(a[1..], b));
      } else if a[0].id == b[0].id {
        MergedOrdered(a[1..], b[1..]);
        MergedAbove(a[1..], b[1..], a[0].id);
        OrderedCons(a[0], Merged(a[1..], b[1..]));
        assert [] + Merged(a[1..], b[1..]) == Merged(a[1..], b[1..]);
      } else {
        MergedOrdered(a, b[1..]);
        AboveLower(a, b[0].id);
        MergedAbove(a, b[1..], b[0].id);
        OrderedCons(b[0], Merged(a, b[1..]));
      }
    }
  }

  lemma {:induction false} AboveNone(tab: Tab, low: Eid, k: Eid)
    requires Above(tab, low) && !Less(low, k)
    ensures TabGet(tab, k).None?
  {
    TabGetNone(tab, k);
  }

  lemma GetCons(x: Item, tab: Tab, k: Eid)
    ensures TabGet([x] + tab, k) == if x.id == k then Some(x.addr) else TabGet(tab, k)
  {
    assert ([x] + tab)[1..] == tab;
  }

  lemma GetHead(tab: Tab, k: Eid)
    requires tab != []
    ensures TabGet(tab, k) == if tab[0].id == k then Some(tab[0].addr) else TabGet(tab[1..], k)
  {
  }

  /** A merge holds exactly what the two tabs say together. */
  lemma {:induction false} MergedGet(a: Tab, b: Tab, k: Eid)
    requires Ordered(a) && Ordered(b)
    ensures TabGet(Merged(a, b), k) == MergeGet(TabGet(a, k), TabGet(b, k))
    decreases |a| + |b|
  {
    hide Ordered, Above, TabGet;
    if a == [] || b == [] {
      EmptyGet(k);
    } else {
      OrderedTail(a);
      OrderedTail(b);
      GetHead(a, k);
      GetHead(b, k);
      if Less(a[0].id, b[0].id) {
        MergedGet(a[1..], b, k);
        GetCons(a[0], Merged(a[1..], b), k);
        if k == a[0].id {
          AboveLower(b, k);
          AboveNone(b, k, k);
        }
      } else if a[0].id == b[0].id {
        MergedGet(a[1..], b[1..], k);
        GetCons(a[0], Merged(a[1..], b[1..]), k);
        assert [] + Merged(a[1..], b[1..]) == Merged(a[1..], b[1..]);
        if k == a[0].id {
          AboveNone(a[1..], k, k);
          AboveNone(b[1..], k, k);
        }
      } else {
        MergedGet(a, b[1..], k);
        GetCons(b[0], Merged(a, b[1..]), k);
        if k == b[0].id {
          AboveLower(a, k);
          AboveNone(a, k, k);
        }
      }
    }
  }

  lemma EmptyGet(k: Eid)
    ensures TabGet([], k) == None
  {
  }

  // ---- division ----

  function Divided(tab: Tab, size: nat): seq<Tab>
    requires size > 0
    decreases |tab|
  {
    if tab == [] then [] else if |tab| <= size then [tab] else [tab[..size]] + Divided(tab[size..], size)
  }

  lemma DividedStep(tab: Tab, at: nat, size: nat)
    requires size > 0 && at < |tab|
    ensures var next := Min(at + size, |tab|);
      Divided(tab[at..], size) == [tab[at..next]] + Divided(tab[next..], size)
  {
    var rest := tab[at..];
    if |rest| > size {
      assert rest[..size] == tab[at..at + size] && rest[size..] == tab[at + size..];
    } else {
      assert tab[at..|tab|] == rest && tab[|tab|..] == [];
      assert Divided([], size) == [] && Divided(rest, size) == [rest] == [rest] + [];
    }
  }

  method Divide(tab: Tab, size: nat) returns (r: seq<Tab>)
    requires size > 0
    ensures r == Divided(tab, size)
  {
    assert Divided([], size) == [];
    hide Divided;
    r := [];
    var at := 0;
    while at < |tab|
      invariant at <= |tab| && r + Divided(tab[at..], size) == Divided(tab, size)
      decreases |tab| - at
    {
      var next := Min(at + size, |tab|);
      DividedStep(tab, at, size);
      r := r + [tab[at..next]];
      at := next;
    }
  }

  lemma {:induction false} DividedParts(tab: Tab, size: nat)
    requires size > 0
    ensures Flatten(Divided(tab, size)) == tab
    ensures forall t :: t in Divided(tab, size) ==> 0 < |t| <= size
    ensures forall i :: 0 <= i < |Divided(tab, size)| - 1 ==> |Divided(tab, size)[i]| == size
    decreases |tab|
  {
    if |tab| > size {
      DividedParts(tab[size..], size);
      assert tab == tab[..size] + tab[size..];
    } else if tab != [] {
      assert Flatten([tab]) == tab + Flatten<Item>([]);
    }
  }
}
