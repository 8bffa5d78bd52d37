/** The chunk map of a file: where recently used chunks are, by hash. */
module ChunkMaps {
  import opened Basics

  datatype ChunkLoc = ChunkLoc(segId: Eid, idx: nat)

  // segIdx is a position in the list of segment ids
  datatype Slot = Slot(hash: Hash, segIdx: nat, chkIdx: nat)

  const INDEX_MAP_CAPACITY: nat := 256

  predicate Distinct(slots: seq<Slot>) {
    forall i, j :: 0 <= i < j < |slots| ==> slots[i].hash != slots[j].hash
  }

  function Retained(slots: seq<Slot>, keep: Slot -> bool): (r: seq<Slot>)
    ensures |r| <= |slots|
    ensures forall s :: s in r <==> s in slots && keep(s)
  {
    if slots == [] then []
    else
      var n := |slots| - 1;
      Retained(slots[..n], keep) + if keep(slots[n]) then [slots[n]] else []
  }

  lemma {:induction false} RetainedDistinct(slots: seq<Slot>, keep: Slot -> bool)
    requires Distinct(slots)
    ensures Distinct(Retained(slots, keep))
  {
    if slots != [] {
      var n := |slots| - 1;
      RetainedDistinct(slots[..n], keep);
      forall t | t in slots[..n] ensures t.hash != slots[n].hash {
      }
      var r := Retained(slots[..n], keep);
      forall i | 0 <= i < |r| ensures r[i].hash != slots[n].hash {
        assert r[i] in slots[..n];
      }
    }
  }

  // the slots of other hashes, in their order
  function Others(slots: seq<Slot>, hash: Hash): seq<Slot> {
    Retained(slots, (s: Slot) => s.hash != hash)
  }

  lemma {:induction false} OthersSame(slots: seq<Slot>, hash: Hash)
    requires forall i :: 0 <= i < |slots| ==> slots[i].hash != hash
    ensures Others(slots, hash) == slots
  {
    if slots != [] {
      OthersSame(slots[..|slots| - 1], hash);
    }
  }

  lemma {:induction false} OthersAt(slots: seq<Slot>, pos: nat)
    requires Distinct(slots) && pos < |slots|
    ensures Others(slots, slots[pos].hash) == slots[..pos] + slots[pos + 1..]
    decreases |slots|
  {
    var n, hash := |slots| - 1, slots[pos].hash;
    if pos < n {
      OthersAt(slots[..n], pos);
      assert Others(slots, hash) == Others(slots[..n], hash) + [slots[n]];
      assert slots[..n][..pos] + slots[..n][pos + 1..] + [slots[n]] == slots[..pos] + slots[pos + 1..];
    } else {
      OthersSame(slots[..n], hash);
    }
  }

  /** Where the slots say chunks are. */
  ghost function Found(segIds: seq<Eid>, slots: seq<Slot>): set<(Hash, ChunkLoc)>
    requires forall i :: 0 <= i < |slots| ==> slots[i].segIdx < |segIds|
  {
    set s | s in slots :: (s.hash, ChunkLoc(segIds[s.segIdx], s.chkIdx))
  }

  // some chunk with the hash is found
  ghost predicate Known(locs: set<(Hash, ChunkLoc)>, hash: Hash) {
    exists loc :: (hash, loc) in locs
  }

  class ChunkMap {
    const enabled: bool
    var segIds: seq<Eid>
    var slots: seq<Slot>    // least recently used first

    ghost predicate Valid()
      reads this
    {
      && (forall i, j :: 0 <= i < j < |segIds| ==> segIds[i] != segIds[j])
      && (forall i :: 0 <= i < |slots| ==> slots[i].segIdx < |segIds|)
      && Distinct(slots) && |slots| < INDEX_MAP_CAPACITY
      && (!enabled ==> slots == [])
    }

    ghost function Locs(): set<(Hash, ChunkLoc)>
      requires Valid()
      reads this
    {
      Found(segIds, slots)
    }

    ghost predicate Newest(hash: Hash)
      reads this
    {
      slots != [] && slots[|slots| - 1].hash == hash
    }

    ghost predicate Has(hash: Hash)
      reads this
    {
      exists i :: 0 <= i < |slots| && slots[i].hash == hash
    }

    constructor (enabled: bool)
      ensures Valid() && Locs() == {} && this.enabled == enabled
    {
      this.enabled, segIds, slots := enabled, [], [];
    }

    constructor Clone(that: ChunkMap)
      requires that.Valid()
      ensures Valid() && Locs() == that.Locs() && enabled == that.enabled
      ensures segIds == that.segIds && slots == that.slots
    {
      enabled, segIds, slots := that.enabled, that.segIds, that.slots;
    }

    method Position(segId: Eid) returns (pos: nat)
      ensures pos <= |segIds|
      ensures pos < |segIds| ==> segIds[pos] == segId
      ensures pos == |segIds| ==> segId !in segIds
    {
      pos := 0;
      while pos < |segIds| && segIds[pos] != segId
        invariant pos <= |segIds|
        invariant segId !in segIds[..pos]
      {
        pos := pos + 1;
      }
    }

    method SlotOf(hash: Hash) returns (pos: nat)
      ensures pos <= |slots|
      ensures pos < |slots| ==> slots[pos].hash == hash
      ensures pos == |slots| ==> forall i :: 0 <= i < |slots| ==> slots[i].hash != hash
    {
      pos := 0;
      while pos < |slots| && slots[pos].hash != hash
        invariant pos <= |slots|
        invariant forall i :: 0 <= i < pos ==> slots[i].hash != hash
      {
        pos := pos + 1;
      }
    }

    /** Look a hash up, making it the most recently used. */
    method GetRefresh(hash: Hash) returns (r: Option<ChunkLoc>)
      requires Valid()
      modifies this`slots
      ensures Valid() && Locs() == old(Locs())
      ensures r.Some? ==> enabled && (hash, r.value) in Locs() && Newest(hash)
      ensures r.None? ==> !Known(Locs(), hash) && slots == old(slots)
      ensures r.Some? ==> slots[..|slots| - 1] == Others(old(slots), hash)
    {
      if !enabled {
        return None;
      }
      var pos := SlotOf(hash);
      if pos == |slots| {
        return None;
      }
      var s := slots[pos];
      OthersAt(slots, pos);
      slots := slots[..pos] + slots[pos + 1..] + [s];
      return Some(ChunkLoc(segIds[s.segIdx], s.chkIdx));
    }

    // the slot becomes the newest one, and the oldest goes if there are too many
    method PutSlot(s: Slot) returns (ghost evicted: Option<Hash>)
      requires Distinct(slots) && |slots| < INDEX_MAP_CAPACITY
      modifies this`slots
      ensures Distinct(slots) && |slots| < INDEX_MAP_CAPACITY && slots != [] && slots[|slots| - 1] == s
      ensures evicted.Some? <==> |old(slots)| == INDEX_MAP_CAPACITY - 1 && !old(Has(s.hash))
      ensures evicted.Some? ==> evicted.value == old(slots)[0].hash != s.hash
      ensures slots[..|slots| - 1] == if evicted.Some? then old(slots)[1..] else Others(old(slots), s.hash)
      ensures forall t :: t in slots <==> t == s || (t in old(slots) && t.hash != s.hash && Some(t.hash) != evicted)
    {
      hide Distinct, Others;
      evicted := None;
      var pos := SlotOf(s.hash);
      Replaced(slots, pos, s);
      if pos < |slots| {
        OthersAt(slots, pos);
      } else {
        OthersSame(slots, s.hash);
      }
      slots := Put(slots, pos, s);
      if |slots| >= INDEX_MAP_CAPACITY {
        evicted := Some(slots[0].hash);
        Popped(slots);
        slots := slots[1..];
      }
    }

    /** Remember a chunk; when the map is full the least recently used one goes. */
    method Insert(hash: Hash, segId: Eid, idx: nat) returns (ghost evicted: Option<Hash>)
      requires Valid()
      modifies this
      ensures Valid()
      ensures !enabled ==> Locs() == old(Locs())
      ensures enabled ==>
        var kept := set p | p in old(Locs()) && p.0 != hash && Some(p.0) != evicted;
        Locs() == kept + {(hash, ChunkLoc(segId, idx))}
      ensures enabled ==> Newest(hash)
      ensures evicted.Some? <==> enabled && |old(slots)| == INDEX_MAP_CAPACITY - 1 && !old(Has(hash))
      ensures evicted.Some? ==> evicted.value == old(slots)[0].hash
      ensures enabled ==> slots[..|slots| - 1] == if evicted.Some? then old(slots)[1..] else Others(old(slots), hash)
    {
      hide Distinct, Others, Found;
      evicted := None;
      if !enabled {
        return;
      }
      var segIdx := Position(segId);
      if segIdx == |segIds| {
        segIds := segIds + [segId];
      }
      evicted := PutSlot(Slot(hash, segIdx, idx));
      FoundPut(old(segIds), segIds, old(slots), slots, Slot(hash, segIdx, idx), evicted);
    }

    method Retain(keep: Slot -> bool)
      requires Valid()
      modifies this`slots
      ensures Valid()
      ensures slots == Retained(old(slots), keep)
    {
      hide Distinct;
      var kept: seq<Slot> := [];
      for i := 0 to |slots|
        invariant kept == Retained(slots[..i], keep)
      {
        assert slots[..i + 1][..i] == slots[..i];
        kept := kept + if keep(slots[i]) then [slots[i]] else [];
      }
      assert slots[..|slots|] == slots;
      RetainedDistinct(slots, keep);
      forall i | 0 <= i < |kept| ensures kept[i].segIdx < |segIds| {
        assert kept[i] in slots;
      }
      slots := kept;
    }

    /** Forget chunks of a segment. */
    method RemoveChunks(segId: Eid, indices: seq<nat>)
      requires Valid()
      modifies this`slots
      ensures Valid()
      ensures Locs() == set p | p in old(Locs()) && (p.1.segId != segId || p.1.idx !in indices)
    {
      if !enabled {
        return;
      }
      var segIdx := Position(segId);
      if segIdx < |segIds| {
        Retain((s: Slot) => s.segIdx != segIdx || s.chkIdx !in indices);
      }
    }

    /** Forget a segment. */
    method RemoveSegment(segId: Eid)
      requires Valid()
      modifies this`slots
      ensures Valid()
      ensures Locs() == set p | p in old(Locs()) && p.1.segId != segId
    {
      if !enabled {
        return;
      }
      var segIdx := Position(segId);
      if segIdx < |segIds| {
        Retain((s: Slot) => s.segIdx != segIdx);
      }
    }
  }

  // a slot put at the end, instead of the one at pos if there is one
  function Put(slots: seq<Slot>, pos: nat, s: Slot): seq<Slot>
    requires pos <= |slots|
  {
    slots[..pos] + (if pos < |slots| then slots[pos + 1..] else []) + [s]
  }

  lemma Replaced(slots: seq<Slot>, pos: nat, s: Slot)
    requires Distinct(slots) && pos <= |slots|
    requires pos < |slots| ==> slots[pos].hash == s.hash
    requires pos == |slots| ==> forall i :: 0 <= i < |slots| ==> slots[i].hash != s.hash
    ensures Distinct(Put(slots, pos, s))
    ensures forall t :: t in Put(slots, pos, s) <==> t == s || (t in slots && t.hash != s.hash)
  {
    var r := Put(slots, pos, s);
    forall t | t in slots && t.hash != s.hash ensures t in r {
      var i :| 0 <= i < |slots| && slots[i] == t;
      if i > pos {
        assert r[i - 1] == t;
      }
    }
  }

  lemma Popped(slots: seq<Slot>)
    requires Distinct(slots) && slots != []
    ensures Distinct(slots[1..])
    ensures forall t :: t in slots[1..] <==> t in slots && t.hash != slots[0].hash
  {
    forall t | t in slots && t.hash != slots[0].hash ensures t in slots[1..] {
      var i :| 0 <= i < |slots| && slots[i] == t;
      assert slots[1..][i - 1] == t;
    }
  }

  lemma FoundPut(ids: seq<Eid>, ids': seq<Eid>, slots: seq<Slot>, slots': seq<Slot>, s: Slot, evicted: Option<Hash>)
    requires ids <= ids' && s.segIdx < |ids'| && Some(s.hash) != evicted
    requires forall i :: 0 <= i < |slots| ==> slots[i].segIdx < |ids|
    requires forall t :: t in slots' <==> t == s || (t in slots && t.hash != s.hash && Some(t.hash) != evicted)
    ensures forall i :: 0 <= i < |slots'| ==> slots'[i].segIdx < |ids'|
    ensures Found(ids', slots') ==
      (set p | p in Found(ids, slots) && p.0 != s.hash && Some(p.0) != evicted) +
      {(s.hash, ChunkLoc(ids'[s.segIdx], s.chkIdx))}
  {
    forall i | 0 <= i < |slots'| ensures slots'[i].segIdx < |ids'| {
      assert slots'[i] in slots';
    }
    var kept := set p | p in Found(ids, slots) && p.0 != s.hash && Some(p.0) != evicted;
    forall p | p in kept ensures p in Found(ids', slots') {
      var t :| t in slots && p == (t.hash, ChunkLoc(ids[t.segIdx], t.chkIdx));
      assert t in slots';
    }
    forall p | p in Found(ids', slots') ensures p in kept + {(s.hash, ChunkLoc(ids'[s.segIdx], s.chkIdx))} {
      var t :| t in slots' && p == (t.hash, ChunkLoc(ids'[t.segIdx], t.chkIdx));
    }
    assert s in slots';
  }
}
