/** Reading an entity back frame by frame through the frame cache. */
module StorageReader {
  import opened Basics
  import opened BlockSpans
  import opened Addresses
  import opened FrameSpec
  import opened StorageSpec
  import opened Storage

  /** Coherence: a cached frame is what the blocks now stored at its key decrypt to. */
  lemma CachedIsStored(st: State, c: Cipher, k: nat) returns (e: Eid, i: nat)
    requires Ok(st, c) && k in st.cache
    ensures e in st.addrs && i * BLKS_PER_FRAME < |Blocks(st.addrs[e].list)| && Blocks(st.addrs[e].list)[i * BLKS_PER_FRAME] == k
    ensures Holds(c, st.depot, FrameBlocks(Blocks(st.addrs[e].list), i),
                  FrameLen(st.addrs[e].len, i, FramesIn(st.addrs[e])), st.cache[k])
  {
    hide Blocks, Holds, Chunk;
    assert CachedOk(st, c, k);
    e := st.owner[k].id;
    i :| IsFrame(st, c, e, i, k, st.cache[k]);
    assert EntOk(st, c, e);
    var bs := Blocks(st.addrs[e].list);
    assert i < FramesIn(st.addrs[e]);
    assert FrameHolds(c, st.depot, bs, st.addrs[e].len, st.contents[e], FramesIn(st.addrs[e]), i);
  }

  /** The frames an entity is read by. */
  lemma EntFrames(st: State, c: Cipher, e: Eid)
    requires Ok(st, c) && e in st.addrs
    ensures e in st.contents && c.overhead < FRAME_SIZE
    ensures var addr := st.addrs[e]; AllFull(addr.list) && LenFits(addr.len, |Blocks(addr.list)|)
    ensures st.contents[e] == [] <==> st.addrs[e].list == []
    ensures st.contents[e] == [] <==> Blocks(st.addrs[e].list) == []
    ensures st.contents[e] == [] <==> FramesIn(st.addrs[e]) == 0
  {
    hide Blocks, FrameHolds;
    assert EntOk(st, c, e);
  }

  // where frame i of an entity lies in its content
  lemma FrameAt(st: State, c: Cipher, e: Eid, i: nat)
    requires Ok(st, c) && e in st.addrs && i < FramesIn(st.addrs[e])
    ensures e in st.contents && c.overhead < FRAME_SIZE && i * c.Plain() < |st.contents[e]|
    ensures var addr := st.addrs[e]; FrameHolds(c, st.depot, Blocks(addr.list), addr.len, st.contents[e], FramesIn(addr), i)
    ensures i + 1 < FramesIn(st.addrs[e]) ==> (i + 1) * c.Plain() < |st.contents[e]|
    ensures i + 1 == FramesIn(st.addrs[e]) ==> |st.contents[e]| <= (i + 1) * c.Plain()
  {
    hide Blocks, Holds, Chunk;
    assert EntOk(st, c, e);
    MulMono(i, FramesIn(st.addrs[e]) - 1, c.Plain());
    if i + 1 < FramesIn(st.addrs[e]) {
      MulMono(i + 1, FramesIn(st.addrs[e]) - 1, c.Plain());
    }
  }

  // a cached frame at this key is this frame, and the entity is small
  lemma CachedFrame(st: State, c: Cipher, e: Eid, i: nat, k: nat)
    requires Ok(st, c) && e in st.addrs && i * BLKS_PER_FRAME < |Blocks(st.addrs[e].list)| && k in st.cache
    requires k == Blocks(st.addrs[e].list)[i * BLKS_PER_FRAME]
    ensures e in st.contents && c.overhead < FRAME_SIZE && st.addrs[e].len < FRAME_CACHE_THRESHOLD
    ensures i * c.Plain() <= |st.contents[e]| && st.cache[k] == Chunk(c, st.contents[e], i)
  {
    hide Blocks, EntHolds, Chunk;
    assert EntOk(st, c, e) && CachedOk(st, c, k);
    var bs := Blocks(st.addrs[e].list);
    assert k in bs && st.owner[k] == Ent(e);
    var j: nat :| IsFrame(st, c, e, j, k, st.cache[k]);
    Distinct(bs, i * BLKS_PER_FRAME, j * BLKS_PER_FRAME);
  }

  lemma Distinct(bs: seq<nat>, i: nat, j: nat)
    requires Ascending(bs) && i < |bs| && j < |bs| && bs[i] == bs[j]
    ensures i == j
  {
  }

  /** Caching a frame of an entity, whatever is evicted for it. */
  lemma CacheOk(st: State, c: Cipher, e: Eid, i: nat, k: nat, gone: set<nat>, st': State)
    requires Ok(st, c) && e in st.addrs && e in st.contents && c.overhead < FRAME_SIZE
    requires st.addrs[e].len < FRAME_CACHE_THRESHOLD && k in st'.cache && IsFrame(st, c, e, i, k, st'.cache[k])
    requires st' == st.(cache := (st.cache - gone)[k := st'.cache[k]])
    ensures Ok(st', c)
  {
    hide EntOk, WtrOk, CachedOk, CipherOk;
    forall e' ensures EntOk(st', c, e') { EntSameOk(st, st', c, e'); }
    forall w: nat ensures WtrOk(st', c, w) { WtrSame(st, st', c, w); }
    forall k': nat ensures CachedOk(st', c, k') {
      if k' == k {
        NewCached(st, c, e, i, k, st');
      } else {
        CachedSame(st, st', c, k');
      }
    }
  }

  lemma NewCached(st: State, c: Cipher, e: Eid, i: nat, k: nat, st': State)
    requires c.overhead < FRAME_SIZE && EntOk(st, c, e) && e in st.addrs && e in st.contents
    requires st.addrs[e].len < FRAME_CACHE_THRESHOLD && k in st'.cache && IsFrame(st, c, e, i, k, st'.cache[k])
    requires st' == st.(cache := st'.cache)
    ensures CachedOk(st', c, k)
  {
    hide EntHolds, Blocks, Chunk;
    assert k in Blocks(st.addrs[e].list);
    assert IsFrame(st', c, e, i, k, st'.cache[k]);
  }

  lemma GatherSplit(depot: Depot, a: seq<nat>, b: seq<nat>)
    requires forall i :: 0 <= i < |a| ==> a[i] in depot
    requires forall i :: 0 <= i < |b| ==> b[i] in depot
    ensures forall i :: 0 <= i < |a + b| ==> (a + b)[i] in depot
    ensures Flatten(Gather(depot, a + b)) == Flatten(Gather(depot, a)) + Flatten(Gather(depot, b))
  {
    assert Gather(depot, a + b) == Gather(depot, a) + Gather(depot, b);
    FlattenAppend(Gather(depot, a), Gather(depot, b));
  }

  // read the blocks of a frame, span by span
  method LoadFrame(depot: Depot, list: seq<Span>) returns (r: Option<Bytes>)
    ensures r.Some? <==> forall b :: b in Blocks(list) ==> b in depot
    ensures r.Some? ==> (forall i :: 0 <= i < |Blocks(list)| ==> Blocks(list)[i] in depot) && r.value == Flatten(Gather(depot, Blocks(list)))
  {
    hide Blocks, Gather, Flatten;
    var bytes: Bytes := [];
    NoBlocks();
    assert list[..0] == [];
    NoGather(depot);
    for s := 0 to |list|
      invariant forall i :: 0 <= i < |Blocks(list[..s])| ==> Blocks(list[..s])[i] in depot
      invariant bytes == Flatten(Gather(depot, Blocks(list[..s])))
    {
      var bs := Idx(list[s]);
      assert list[..s + 1] == list[..s] + [list[s]];
      BlocksSnoc(list[..s], list[s]);
      if i :| 0 <= i < |bs| && bs[i] !in depot {
        NextSpan(list, s);
        assert bs[i] in Blocks(list);
        return None;
      }
      GatherSplit(depot, Blocks(list[..s]), bs);
      bytes := bytes + Flatten(Gather(depot, bs));
    }
    assert list[..|list|] == list;
    return Some(bytes);
  }

  lemma NoGather(depot: Depot)
    ensures Flatten(Gather(depot, [])) == []
  {
  }

  class Reader {
    const storage: Storage
    const id: Eid
    var frames: seq<Addr>
    var entLen: nat
    var frmIdx: nat
    var frmKey: nat
    var decFrame: Bytes         // the frame last decrypted, empty when exhausted
    var read: nat

    ghost predicate Valid()
      reads this, storage
    {
      && storage.Valid() && Positioned(storage.Value(), storage.c)
    }

    ghost predicate OfEntity(st: State, c: Cipher)
      reads this
    {
      && c.overhead < FRAME_SIZE && id in st.addrs && id in st.contents && st.contents[id] != []
      && entLen == st.addrs[id].len && FramesOf(st.addrs[id], frames) && |frames| == FramesIn(st.addrs[id])
    }

    ghost predicate Positioned(st: State, c: Cipher)
      reads this
    {
      && OfEntity(st, c) && frmIdx <= |frames|
      && if frmIdx == |frames| then read == |st.contents[id]| else InFrame(st, c)
    }

    ghost predicate InFrame(st: State, c: Cipher)
      requires c.overhead < FRAME_SIZE && id in st.addrs && id in st.contents
      reads this
    {
      && Lo(c, frmIdx) <= read < Hi(c, frmIdx, |st.contents[id]|)
      && frmIdx * BLKS_PER_FRAME < |Blocks(st.addrs[id].list)| && frmKey == Blocks(st.addrs[id].list)[frmIdx * BLKS_PER_FRAME]
      && (decFrame != [] ==> decFrame == Chunk(c, st.contents[id], frmIdx))
      && (decFrame != [] && entLen < FRAME_CACHE_THRESHOLD ==> frmKey in st.cache)
    }

    constructor (storage: Storage, id: Eid)
      requires storage.Valid() && id in storage.addrs && id in storage.contents && storage.contents[id] != []
      ensures Valid() && this.storage == storage && this.id == id && read == 0
    {
      var addr := storage.addrs[id];
      EntFrames(storage.Value(), storage.c, id);
      var parts := DivideToFrames(addr);
      FirstFrame(storage.Value(), storage.c, id, parts);
      this.storage, this.id := storage, id;
      frames, entLen, frmIdx, frmKey, decFrame, read := parts, addr.len, 0, parts[0].list[0].begin, [], 0;
    }

    // the current frame decrypted, from the cache or from the depot
    method Fetch() returns (frame: Bytes)
      requires Valid() && frmIdx < |frames|
      modifies this`decFrame, storage`cache
      ensures Valid() && frmIdx * storage.c.Plain() <= |storage.contents[id]|
      ensures frame == Chunk(storage.c, storage.contents[id], frmIdx)
    {
      hide Ok, Blocks, Chunk, FramesOf, FramesIn, Holds;
      ghost var st := storage.Value();
      FrameAt(st, storage.c, id, frmIdx);
      if frmKey in storage.cache {
        CachedFrame(st, storage.c, id, frmIdx, frmKey);
      }
      if decFrame == [] && frmKey !in storage.cache {
        LoadOk(st, storage.c, id, frames, frmIdx);
        var raw := LoadFrame(storage.depot, frames[frmIdx].list);
        var plain := storage.c.dec(raw.value[..frames[frmIdx].len]);
        decFrame := plain.value;
        if entLen < FRAME_CACHE_THRESHOLD {
          var evicted: set<nat> := *;
          storage.cache := (storage.cache - evicted)[frmKey := decFrame];
          CacheOk(st, storage.c, id, frmIdx, frmKey, evicted, storage.Value());
        }
      }
      if entLen < FRAME_CACHE_THRESHOLD {
        CachedFrame(storage.Value(), storage.c, id, frmIdx, frmKey);
        frame := storage.cache[frmKey];
      } else {
        frame := decFrame;
      }
    }

    /** Read on: what comes next, at least one byte of it until the end is reached. */
    method Read(n: nat) returns (out: Bytes)
      requires Valid()
      modifies this, storage`cache
      ensures Valid() && |out| <= n && read == old(read) + |out| <= |storage.contents[id]|
      ensures out == storage.contents[id][old(read)..read]
      ensures n > 0 && old(read) < |storage.contents[id]| ==> out != []
    {
      hide Ok, Blocks, FramesOf, FramesIn, Holds, Chunk, Lo, Hi;
      if frmIdx >= |frames| || n == 0 {
        return [];
      }
      ghost var st, c := storage.Value(), storage.c;
      var frame := Fetch();
      var begin := read % storage.c.Plain();
      FrameRest(c, st.contents[id], frmIdx, read);
      var len := Min(n, |frame| - begin);
      SubRange(st.contents[id], Lo(c, frmIdx), Hi(c, frmIdx, |st.contents[id]|), read, read + len);
      out := frame[begin..begin + len];
      read := read + len;
      if begin + len >= |frame| {
        NextFrame();
      }
    }

    // the current frame is exhausted
    method NextFrame()
      requires storage.Valid() && OfEntity(storage.Value(), storage.c) && frmIdx < |frames|
      requires read == Hi(storage.c, frmIdx, |storage.contents[id]|)
      modifies this`frmIdx, this`frmKey, this`decFrame
      ensures Valid()
    {
      hide Ok, Blocks, FramesOf, FramesIn, Chunk, Lo, Hi;
      LastFrame(storage.Value(), storage.c, id, frmIdx);
      frmIdx := frmIdx + 1;
      decFrame := [];
      if frmIdx < |frames| {
        KeyOf(storage.Value(), storage.c, id, frames, frmIdx);
        LastFrame(storage.Value(), storage.c, id, frmIdx);
        frmKey := frames[frmIdx].list[0].begin;
        FrameStart(storage.c, frmIdx, |storage.contents[id]|);
        FrameEnd(storage.c, frmIdx, |storage.contents[id]|);
      }
    }
  }

  lemma FrameStart(c: Cipher, i: nat, len: nat)
    requires c.overhead < FRAME_SIZE && Lo(c, i) < len
    ensures Lo(c, i) < Hi(c, i, len)
  {
    assert (i + 1) * c.Plain() == i * c.Plain() + c.Plain();
  }

  lemma LastFrame(st: State, c: Cipher, e: Eid, i: nat)
    requires Ok(st, c) && e in st.addrs && e in st.contents && i < FramesIn(st.addrs[e])
    ensures Lo(c, i) < |st.contents[e]|
    ensures i + 1 == FramesIn(st.addrs[e]) ==> Hi(c, i, |st.contents[e]|) == |st.contents[e]|
  {
    hide Ok, FramesIn, FrameHolds;
    FrameAt(st, c, e, i);
  }

  lemma FrameEnd(c: Cipher, i: nat, len: nat)
    requires c.overhead < FRAME_SIZE && 0 < i && Lo(c, i) < len
    ensures Hi(c, i - 1, len) == Lo(c, i)
  {
  }

  // where a frame begins and ends in the content
  function Lo(c: Cipher, i: nat): int { i * c.Plain() }

  function Hi(c: Cipher, i: nat, len: nat): (r: int)
    ensures r <= len
  {
    Min((i + 1) * c.Plain(), len)
  }

  // what is left of the current frame, from `read` on
  lemma FrameRest(c: Cipher, data: Bytes, i: nat, read: nat)
    requires c.overhead < FRAME_SIZE && Lo(c, i) <= read < Hi(c, i, |data|)
    ensures 0 <= Lo(c, i) <= |data| && read % c.Plain() == read - Lo(c, i)
    ensures Hi(c, i, |data|) <= |data| && Chunk(c, data, i) == data[Lo(c, i)..Hi(c, i, |data|)]
  {
    Offset(read, i, c.Plain());
  }

  lemma Offset(read: nat, i: nat, d: nat)
    requires d > 0 && i * d <= read < (i + 1) * d
    ensures read % d == read - i * d && (i + 1) * d == i * d + d
  {
    assert (i + 1) * d == i * d + d;
    Quotient(read, i, d);
    assert read == read / d * d + read % d;
  }

  lemma KeyOf(st: State, c: Cipher, e: Eid, frames: seq<Addr>, i: nat)
    requires Ok(st, c) && e in st.addrs && FramesOf(st.addrs[e], frames) && i < |frames| == FramesIn(st.addrs[e])
    ensures frames[i].list != [] && i * BLKS_PER_FRAME < |Blocks(st.addrs[e].list)|
    ensures frames[i].list[0].begin == Blocks(st.addrs[e].list)[i * BLKS_PER_FRAME]
  {
    hide Blocks;
    assert FrameIs(Blocks(st.addrs[e].list), st.addrs[e].len, frames, i);
  }

  lemma FirstFrame(st: State, c: Cipher, e: Eid, frames: seq<Addr>)
    requires Ok(st, c) && e in st.addrs && e in st.contents && st.contents[e] != [] && FramesOf(st.addrs[e], frames)
    ensures |frames| == FramesIn(st.addrs[e]) && |frames| > 0 && c.overhead < FRAME_SIZE
    ensures frames[0].list != [] && Blocks(st.addrs[e].list) != [] && frames[0].list[0].begin == Blocks(st.addrs[e].list)[0]
  {
    EntFrames(st, c, e);
    KeyOf(st, c, e, frames, 0);
  }

  // the current frame's blocks are all there and decrypt to its content
  lemma LoadOk(st: State, c: Cipher, e: Eid, frames: seq<Addr>, i: nat)
    requires Ok(st, c) && e in st.addrs && FramesOf(st.addrs[e], frames) && i < |frames| == FramesIn(st.addrs[e])
    ensures e in st.contents && c.overhead < FRAME_SIZE && i * c.Plain() <= |st.contents[e]|
    ensures InDepot(st.depot, Blocks(frames[i].list)) && forall b :: b in Blocks(frames[i].list) ==> b in st.depot
    ensures var raw := Flatten(Gather(st.depot, Blocks(frames[i].list)));
      frames[i].len <= |raw| && c.dec(raw[..frames[i].len]) == Some(Chunk(c, st.contents[e], i))
    ensures Chunk(c, st.contents[e], i) != []
  {
    hide Blocks, Ok;
    FrameAt(st, c, e, i);
    assert FrameIs(Blocks(st.addrs[e].list), st.addrs[e].len, frames, i);
    assert (i + 1) * c.Plain() == i * c.Plain() + c.Plain();
  }

  // ---- runs ----

  datatype Op =
    | OpenWriter(w: nat, id: Eid)
    | WriteSome(w: nat, data: Bytes)        // as much of the data as one call takes
    | FinishWriter(w: nat)
    | DeleteEntity(id: Eid)
    | ReadEntity(id: Eid, sizes: nat -> nat)    // read to the end, in calls of these sizes

  /** A store without blocks, frames or a cache. */
  datatype Plain = Plain(contents: map<Eid, Bytes>, wrote: map<nat, Bytes>, ids: map<nat, Eid>)

  /** Calls the program can make: writers are opened once and finished once, reads
      are of non-empty entities in calls for at least a byte. */
  ghost predicate Callable(p: Plain, op: Op) {
    match op
    case OpenWriter(w, _) => w !in p.ids && w !in p.wrote
    case WriteSome(w, _) => w in p.ids && w in p.wrote
    case FinishWriter(w) => w in p.ids && w in p.wrote
    case DeleteEntity(_) => true
    case ReadEntity(id, sizes) => id in p.contents && p.contents[id] != [] && forall i :: sizes(i) > 0
  }

  ghost function Apply(p: Plain, op: Op, n: nat): Plain
    requires Callable(p, op)
  {
    match op
    case OpenWriter(w, id) => p.(wrote := p.wrote[w := []], ids := p.ids[w := id])
    case WriteSome(w, data) => p.(wrote := p.wrote[w := p.wrote[w] + data[..Min(n, |data|)]])
    case FinishWriter(w) => Plain(p.contents[p.ids[w] := p.wrote[w]], p.wrote - {w}, p.ids - {w})
    case DeleteEntity(id) => p.(contents := p.contents - {id})
    case ReadEntity(_, _) => p
  }

  /** The storage stands for a plain store. */
  ghost predicate Refines(s: Storage, p: Plain)
    reads s
  {
    && s.Valid() && s.contents == p.contents && s.wrote == p.wrote
    && s.writers.Keys == p.ids.Keys && forall w :: w in p.ids ==> s.writers[w].id == p.ids[w]
  }

  /** One call: `n` is how much a write took, `got` what a read returned. */
  method Perform(s: Storage, op: Op, ghost p: Plain) returns (n: nat, got: Bytes)
    requires Refines(s, p) && Callable(p, op)
    modifies s
    ensures Callable(p, op) && Refines(s, Apply(p, op, n))
    ensures op.WriteSome? ==> n <= |op.data| && (op.data != [] ==> n > 0)
    ensures op.ReadEntity? && op.id in p.contents ==> got == p.contents[op.id]
  {
    hide Ok;
    n, got := 0, [];
    match op {
      case OpenWriter(w, id) =>
        s.Open(w, id);
      case WriteSome(w, data) =>
        n := s.Write(w, data);
      case FinishWriter(w) =>
        s.Finish(w);
      case DeleteEntity(id) =>
        s.Delete(id);
      case ReadEntity(id, sizes) =>
        KnownEntity(s.Value(), s.c, id);
        got := ReadAll(s, id, sizes);
    }
  }

  lemma KnownEntity(st: State, c: Cipher, id: Eid)
    requires Ok(st, c) && id in st.contents
    ensures id in st.addrs
  {
  }

  /** Round trip: one reader, in whatever steps, gets back what was written. */
  method ReadAll(s: Storage, id: Eid, sizes: nat -> nat) returns (got: Bytes)
    requires s.Valid() && id in s.addrs && id in s.contents && s.contents[id] != [] && forall i :: sizes(i) > 0
    modifies s`cache
    ensures s.Valid() && got == s.contents[id]
  {
    hide Ok, FramesOf, FramesIn, Blocks, Chunk;
    var r := new Reader(s, id);
    got := [];
    var calls := 0;
    ghost var data := s.contents[id];
    while true
      invariant r.Valid() && r.storage == s && r.id == id && fresh(r) && s.contents[id] == data
      invariant r.read == |got| <= |data| && got == data[..|got|]
      decreases |data| - |got|
    {
      var part := r.Read(sizes(calls));
      if part == [] {
        break;
      }
      assert got + part == data[..|got| + |part|];
      got := got + part;
      calls := calls + 1;
    }
    assert data[..|data|] == data;
  }
}
