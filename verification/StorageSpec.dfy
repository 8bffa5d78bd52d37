/** The storage as a whole: who holds which blocks, and what the frame cache may
    hold. */
module StorageSpec {
  import opened Basics
  import opened BlockSpans
  import opened Addresses
  import opened FrameSpec

  const FRAME_CACHE_THRESHOLD: nat := 512 * 1024

  // a block belongs to a stored entity or to a writer not finished yet
  datatype Holder = Ent(id: Eid) | Wr(w: nat)

  datatype Wtr = Wtr(id: Eid, addr: Addr, staged: Bytes)

  datatype State = State(
    depot: Depot, wmark: nat, addrs: map<Eid, Addr>, cache: map<nat, Bytes>, writers: map<nat, Wtr>,
    contents: map<Eid, Bytes>, wrote: map<nat, Bytes>, owner: map<nat, Holder>)

  function FramesIn(addr: Addr): nat {
    var n := |Blocks(addr.list)|;
    if n == 0 then 0 else (n - 1) / BLKS_PER_FRAME + 1
  }

  ghost predicate Ascending(bs: seq<nat>) {
    forall i, j :: 0 <= i < j < |bs| ==> bs[i] < bs[j]
  }

  ghost predicate Owned(owner: map<nat, Holder>, h: Holder, bs: seq<nat>) {
    forall b :: b in bs ==> b in owner && owner[b] == h
  }

  /** An address and its blocks hold `data` for `h`, and nobody else has them. */
  ghost predicate HolderOk(st: State, c: Cipher, h: Holder, addr: Addr, data: Bytes)
    requires c.overhead < FRAME_SIZE
  {
    && EntHolds(c, st.depot, addr, data, FramesIn(addr))
    && Owned(st.owner, h, Blocks(addr.list)) && Ascending(Blocks(addr.list))
  }

  ghost predicate EntOk(st: State, c: Cipher, e: Eid)
    requires c.overhead < FRAME_SIZE
  {
    e in st.addrs ==> e in st.contents && HolderOk(st, c, Ent(e), st.addrs[e], st.contents[e])
  }

  /** A writer has stored full frames of `done`. */
  ghost predicate Writing(st: State, c: Cipher, w: nat, addr: Addr, done: Bytes)
    requires c.overhead < FRAME_SIZE
  {
    HolderOk(st, c, Wr(w), addr, done) && Full(c, addr, done, FramesIn(addr))
  }

  // what a writer has stored of what it was given
  ghost function Done(st: State, w: nat): Bytes
    requires w in st.writers && w in st.wrote && |st.writers[w].staged| <= |st.wrote[w]|
  {
    st.wrote[w][..|st.wrote[w]| - |st.writers[w].staged|]
  }

  /** Full frames are stored, and less than a frame is staged. */
  ghost predicate WtrOk(st: State, c: Cipher, w: nat)
    requires c.overhead < FRAME_SIZE
  {
    w in st.writers ==>
      && w in st.wrote && |st.writers[w].staged| <= |st.wrote[w]| && |st.writers[w].staged| < c.Plain()
      && st.wrote[w] == Done(st, w) + st.writers[w].staged
      && Writing(st, c, w, st.writers[w].addr, Done(st, w))
  }

  // `k` is the first block of frame `i` of entity `e`, and `bytes` its content
  ghost predicate IsFrame(st: State, c: Cipher, e: Eid, i: nat, k: nat, bytes: Bytes)
    requires c.overhead < FRAME_SIZE && e in st.addrs && e in st.contents
  {
    var bs := Blocks(st.addrs[e].list);
    && i * BLKS_PER_FRAME < |bs| && bs[i * BLKS_PER_FRAME] == k
    && i * c.Plain() <= |st.contents[e]| && bytes == Chunk(c, st.contents[e], i)
  }

  // a small enough entity has `bytes` in the frame that starts at `k`
  ghost predicate Shows(st: State, c: Cipher, e: Eid, k: nat, bytes: Bytes)
    requires c.overhead < FRAME_SIZE
  {
    && e in st.addrs && e in st.contents && st.addrs[e].len < FRAME_CACHE_THRESHOLD
    && exists i :: IsFrame(st, c, e, i, k, bytes)
  }

  /** A cached frame is the content of the frame now stored at its key. */
  ghost predicate CachedOk(st: State, c: Cipher, k: nat)
    requires c.overhead < FRAME_SIZE
  {
    k in st.cache ==> k in st.owner && st.owner[k].Ent? && Shows(st, c, st.owner[k].id, k, st.cache[k])
  }

  // everything but writer `but`
  ghost predicate OkBut(st: State, c: Cipher, but: nat) {
    && CipherOk(c) && (forall b :: b in st.owner ==> b < st.wmark)
    && st.contents.Keys == st.addrs.Keys && st.wrote.Keys == st.writers.Keys
    && (forall e :: EntOk(st, c, e)) && (forall w: nat :: w != but ==> WtrOk(st, c, w))
    && (forall k: nat :: CachedOk(st, c, k))
  }

  ghost predicate Ok(st: State, c: Cipher) {
    && CipherOk(c) && (forall b :: b in st.owner ==> b < st.wmark)
    && st.contents.Keys == st.addrs.Keys && st.wrote.Keys == st.writers.Keys
    && (forall e :: EntOk(st, c, e)) && (forall w: nat :: WtrOk(st, c, w)) && (forall k: nat :: CachedOk(st, c, k))
  }

  // a stored entity or an open writer has the block
  ghost predicate Held(st: State, b: nat) {
    || (exists e :: e in st.addrs && b in Blocks(st.addrs[e].list))
    || (exists w :: w in st.writers && b in Blocks(st.writers[w].addr.list))
  }

  /** No block stays in the depot that nobody has. */
  ghost predicate Tidy(st: State) {
    forall b :: b in st.depot ==> Held(st, b)
  }

  lemma HolderInDepot(st: State, c: Cipher, h: Holder, addr: Addr, data: Bytes, b: nat)
    requires c.overhead < FRAME_SIZE && HolderOk(st, c, h, addr, data) && b in Blocks(addr.list)
    ensures b in st.depot
  {
    hide Blocks, Chunk;
    var bs, n := Blocks(addr.list), FramesIn(addr);
    var j :| 0 <= j < |bs| && bs[j] == b;
    var i := j / BLKS_PER_FRAME;
    assert FrameHolds(c, st.depot, bs, addr.len, data, n, i);
    assert FrameBlocks(bs, i)[j - i * BLKS_PER_FRAME] == b;
  }

  /** The depot has exactly the blocks of stored entities and open writers. */
  lemma DepotIsHeld(st: State, c: Cipher, b: nat)
    requires Ok(st, c) && Tidy(st)
    ensures b in st.depot <==> Held(st, b)
  {
    hide HolderOk, CachedOk, Blocks, CipherOk;
    SmallOverhead(c);
    if e :| e in st.addrs && b in Blocks(st.addrs[e].list) {
      assert EntOk(st, c, e);
      HolderInDepot(st, c, Ent(e), st.addrs[e], st.contents[e], b);
    } else if w :| w in st.writers && b in Blocks(st.writers[w].addr.list) {
      assert WtrOk(st, c, w);
      HolderInDepot(st, c, Wr(w), st.writers[w].addr, Done(st, w), b);
    }
  }

  // entities and writers only get more blocks, the depot none
  lemma TidyMore(st: State, st': State)
    requires Tidy(st) && forall b :: b in st'.depot ==> b in st.depot
    requires forall e :: e in st.addrs ==> e in st'.addrs && st'.addrs[e] == st.addrs[e]
    requires forall w :: w in st.writers ==> w in st'.writers && st'.writers[w].addr == st.writers[w].addr
    ensures Tidy(st')
  {
    hide Blocks;
    forall b | b in st'.depot ensures Held(st', b) {
      assert Held(st, b);
    }
  }

  lemma TidyPut(st: State, w: nat, span: Span, bytes: Bytes, addr: Addr)
    requires Tidy(st) && w in st.writers && |bytes| == span.cnt * BLK_SIZE
    requires Blocks(addr.list) == Blocks(st.writers[w].addr.list) + Idx(span)
    ensures Tidy(AfterPut(st, w, span, bytes, addr))
  {
    hide Blocks;
    var st' := AfterPut(st, w, span, bytes, addr);
    forall b | b in st'.depot ensures Held(st', b) {
      if InSpan(b, span) {
        assert Idx(span)[b - span.begin] == b;
        assert w in st'.writers && b in Blocks(st'.writers[w].addr.list);
      } else {
        assert Held(st, b);
        if e :| e in st.addrs && b in Blocks(st.addrs[e].list) {
          assert e in st'.addrs && b in Blocks(st'.addrs[e].list);
        } else {
          var w' :| w' in st.writers && b in Blocks(st.writers[w'].addr.list);
          assert w' in st'.writers && b in Blocks(st'.writers[w'].addr.list);
        }
      }
    }
  }

  lemma TidyRemove(st: State, e: Eid)
    requires Tidy(st) && e in st.addrs
    ensures Tidy(AfterRemove(st, e))
  {
    hide Blocks, FirstKeys;
    var st' := AfterRemove(st, e);
    forall b | b in st'.depot ensures Held(st', b) {
      assert Held(st, b);
      if e' :| e' in st.addrs && b in Blocks(st.addrs[e'].list) {
        assert e' in st'.addrs && b in Blocks(st'.addrs[e'].list);
      }
    }
  }

  lemma TidyInstall(st: State, w: nat)
    requires Tidy(st) && w in st.writers && w in st.wrote && st.writers[w].id !in st.addrs
    ensures Tidy(AfterInstall(st, w))
  {
    hide Blocks, Transfer;
    var st' := AfterInstall(st, w);
    forall b | b in st'.depot ensures Held(st', b) {
      assert Held(st, b);
      if e :| e in st.addrs && b in Blocks(st.addrs[e].list) {
        assert e in st'.addrs && b in Blocks(st'.addrs[e].list);
      } else {
        var w' :| w' in st.writers && b in Blocks(st.writers[w'].addr.list);
        if w' == w {
          var e := st.writers[w].id;
          assert e in st'.addrs && b in Blocks(st'.addrs[e].list);
        } else {
          assert w' in st'.writers && b in Blocks(st'.writers[w'].addr.list);
        }
      }
    }
  }

  /** A holder whose blocks nobody touches is not affected. */
  lemma HolderSame(st: State, st': State, c: Cipher, h: Holder, addr: Addr, data: Bytes)
    requires c.overhead < FRAME_SIZE && HolderOk(st, c, h, addr, data)
    requires forall b :: b in st.owner && st.owner[b] == h ==> b in st'.owner && st'.owner[b] == h
    requires forall b :: b in st.owner && st.owner[b] == h && b in st.depot ==> b in st'.depot && st'.depot[b] == st.depot[b]
    ensures HolderOk(st', c, h, addr, data)
  {
    hide EntHolds, Ascending, Blocks;
    EntSame(c, st.depot, st'.depot, addr, data, FramesIn(addr));
  }

  lemma CachedSame(st: State, st': State, c: Cipher, k: nat)
    requires c.overhead < FRAME_SIZE && CachedOk(st, c, k)
    requires k in st'.cache ==> k in st.cache && st'.cache[k] == st.cache[k]
    requires k in st'.cache && k in st.owner ==> k in st'.owner && st'.owner[k] == st.owner[k]
    requires k in st'.cache && k in st.owner && st.owner[k].Ent? ==>
      var e := st.owner[k].id;
      && (e in st.addrs ==> e in st'.addrs && st'.addrs[e] == st.addrs[e])
      && (e in st.contents ==> e in st'.contents && st'.contents[e] == st.contents[e])
    ensures CachedOk(st', c, k)
  {
    hide Blocks, Chunk;
    if k in st'.cache {
      var e := st.owner[k].id;
      var i: nat :| IsFrame(st, c, e, i, k, st.cache[k]);
      assert IsFrame(st', c, e, i, k, st'.cache[k]);
    }
  }

  // ---- a writer stores a frame ----

  function Grant(owner: map<nat, Holder>, span: Span, h: Holder): map<nat, Holder> {
    owner + map b: nat | b < span.End() && InSpan(b, span) :: h
  }

  // the state after writer `w` put `bytes` in freshly allocated blocks
  ghost function AfterPut(st: State, w: nat, span: Span, bytes: Bytes, addr: Addr): State
    requires |bytes| == span.cnt * BLK_SIZE && w in st.writers
  {
    st.(depot := Put(st.depot, span, bytes), wmark := span.End(), owner := Grant(st.owner, span, Wr(w)),
        writers := st.writers[w := st.writers[w].(addr := addr, staged := [])])
  }

  lemma PutElsewhere(st: State, w: nat, span: Span, bytes: Bytes, addr: Addr, b: nat)
    requires |bytes| == span.cnt * BLK_SIZE && w in st.writers && span.begin == st.wmark
    requires forall b :: b in st.owner ==> b < st.wmark
    ensures var st' := AfterPut(st, w, span, bytes, addr);
      && (b in st.owner ==> b in st'.owner && st'.owner[b] == st.owner[b])
      && (b in st.owner && b in st.depot ==> b in st'.depot && st'.depot[b] == st.depot[b])
      && (b in st'.owner ==> b < st'.wmark)
      && (InSpan(b, span) ==> b in st'.owner && st'.owner[b] == Wr(w))
  {
  }

  lemma FramesInStep(addr: Addr, addr': Addr, n: nat, span: Span)
    requires |Blocks(addr.list)| == n * BLKS_PER_FRAME && Blocks(addr'.list) == Blocks(addr.list) + Idx(span)
    requires 0 < span.cnt <= BLKS_PER_FRAME
    ensures FramesIn(addr) == n && FramesIn(addr') == n + 1
  {
    hide Blocks, Idx;
  }

  lemma AscendingAppend(bs: seq<nat>, span: Span)
    requires Ascending(bs) && forall b :: b in bs ==> b < span.begin
    ensures Ascending(bs + Idx(span))
  {
    var all := bs + Idx(span);
    forall i, j | 0 <= i < j < |all| ensures all[i] < all[j] {
      if i < |bs| {
        assert bs[i] in bs;
      }
    }
  }

  lemma OwnedAppend(owner: map<nat, Holder>, h: Holder, bs: seq<nat>, span: Span)
    requires Owned(owner, h, bs) && forall b: nat :: InSpan(b, span) ==> b in owner && owner[b] == h
    ensures Owned(owner, h, bs + Idx(span))
  {
    forall b | b in bs + Idx(span) ensures b in owner && owner[b] == h {
      if b !in bs {
        assert InSpan(b, span);
      }
    }
  }

  lemma WtrSame(st: State, st': State, c: Cipher, w: nat)
    requires c.overhead < FRAME_SIZE && WtrOk(st, c, w)
    requires w in st'.writers ==> w in st.writers && st'.writers[w] == st.writers[w]
    requires w in st.wrote && w in st'.writers ==> w in st'.wrote && st'.wrote[w] == st.wrote[w]
    requires forall b :: b in st.owner && st.owner[b] == Wr(w) ==> b in st'.owner && st'.owner[b] == Wr(w)
    requires forall b :: b in st.owner && st.owner[b] == Wr(w) && b in st.depot ==> b in st'.depot && st'.depot[b] == st.depot[b]
    ensures WtrOk(st', c, w)
  {
    hide HolderOk, Full, FramesIn;
    if w in st'.writers {
      HolderSame(st, st', c, Wr(w), st.writers[w].addr, Done(st, w));
    }
  }

  lemma EntSameOk(st: State, st': State, c: Cipher, e: Eid)
    requires c.overhead < FRAME_SIZE && EntOk(st, c, e)
    requires e in st'.addrs ==> e in st.addrs && st'.addrs[e] == st.addrs[e]
    requires e in st.contents && e in st'.addrs ==> e in st'.contents && st'.contents[e] == st.contents[e]
    requires forall b :: b in st.owner && st.owner[b] == Ent(e) ==> b in st'.owner && st'.owner[b] == Ent(e)
    requires forall b :: b in st.owner && st.owner[b] == Ent(e) && b in st.depot ==> b in st'.depot && st'.depot[b] == st.depot[b]
    ensures EntOk(st', c, e)
  {
    hide HolderOk;
    if e in st'.addrs {
      HolderSame(st, st', c, Ent(e), st.addrs[e], st.contents[e]);
    }
  }

  /** Storing a frame of one writer disturbs nobody else. */
  lemma PutOthers(st: State, c: Cipher, w: nat, span: Span, bytes: Bytes, addr: Addr)
    requires OkBut(st, c, w) && w in st.writers && |bytes| == span.cnt * BLK_SIZE && span.begin == st.wmark
    ensures OkBut(AfterPut(st, w, span, bytes, addr), c, w)
  {
    hide HolderOk, EntOk, WtrOk, CachedOk, CipherOk;
    var st' := AfterPut(st, w, span, bytes, addr);
    forall b: nat ensures
      && (b in st.owner ==> b in st'.owner && st'.owner[b] == st.owner[b])
      && (b in st.owner && b in st.depot ==> b in st'.depot && st'.depot[b] == st.depot[b])
      && (b in st'.owner ==> b < st'.wmark)
    {
      PutElsewhere(st, w, span, bytes, addr, b);
    }
    assert c.overhead < FRAME_SIZE by { SmallOverhead(c); }
    forall e ensures EntOk(st', c, e) { EntSameOk(st, st', c, e); }
    forall w': nat | w' != w ensures WtrOk(st', c, w') { WtrSame(st, st', c, w'); }
    forall k: nat ensures CachedOk(st', c, k) { CachedSame(st, st', c, k); }
  }

  lemma SmallOverhead(c: Cipher)
    requires CipherOk(c)
    ensures c.overhead < FRAME_SIZE
  {
  }

  /** The writer itself has one more frame. */
  lemma PutWriter(st: State, c: Cipher, w: nat, span: Span, salt: nat, pad: Bytes, addr: Addr, done: Bytes)
    requires OkBut(st, c, w) && w in st.writers && span.begin == st.wmark
    requires c.overhead < FRAME_SIZE && Writing(st, c, w, st.writers[w].addr, done)
    requires var staged := st.writers[w].staged;
      && 0 < |staged| <= c.Plain() && |c.enc(staged, salt) + pad| == span.cnt * BLK_SIZE
      && span.cnt == Ceil(|staged| + c.overhead) && addr.len == st.writers[w].addr.len + |staged| + c.overhead
    requires Blocks(addr.list) == Blocks(st.writers[w].addr.list) + Idx(span) && AllFull(addr.list) && addr.list != []
    ensures var st' := AfterPut(st, w, span, c.enc(st.writers[w].staged, salt) + pad, addr);
      var staged := st.writers[w].staged;
      HolderOk(st', c, Wr(w), addr, done + staged)
      && (|staged| == c.Plain() ==> Full(c, addr, done + staged, FramesIn(addr)))
  {
    hide EntHolds, EntOk, WtrOk, CachedOk, Idx, Blocks, Holds, AllFull;
    var old_ := st.writers[w].addr;
    var staged := st.writers[w].staged;
    var bytes := c.enc(staged, salt) + pad;
    var st' := AfterPut(st, w, span, bytes, addr);
    forall b: nat ensures
      && (b in st.owner ==> b in st'.owner && st'.owner[b] == st.owner[b])
      && (b in st.owner && b in st.depot ==> b in st'.depot && st'.depot[b] == st.depot[b])
      && (InSpan(b, span) ==> b in st'.owner && st'.owner[b] == Wr(w))
    {
      PutElsewhere(st, w, span, bytes, addr, b);
    }
    EntSame(c, st.depot, st'.depot, old_, done, FramesIn(old_));
    PutHolds(c, st.depot, span, staged, salt, pad);
    AppendFrame(c, st'.depot, old_, addr, done, FramesIn(old_), span, staged);
    CeilBounds(|staged| + c.overhead);
    FramesInStep(old_, addr, FramesIn(old_), span);
    OwnedAppend(st'.owner, Wr(w), Blocks(old_.list), span);
    AscendingAppend(Blocks(old_.list), span);
  }

  lemma CeilBounds(len: nat)
    requires 0 < len <= FRAME_SIZE
    ensures 0 < Ceil(len) <= BLKS_PER_FRAME && len <= Ceil(len) * BLK_SIZE < len + BLK_SIZE
  {
  }

  // ---- removing an entity's blocks ----

  // the keys its frames are cached under
  ghost function FirstKeys(bs: seq<nat>): set<nat> {
    set i | 0 <= i < |bs| && i % BLKS_PER_FRAME == 0 :: bs[i]
  }

  ghost function AfterRemove(st: State, e: Eid): State
    requires e in st.addrs
  {
    var bs := Blocks(st.addrs[e].list);
    st.(depot := map b | b in st.depot && b !in bs :: st.depot[b], cache := st.cache - FirstKeys(bs),
        addrs := st.addrs - {e}, contents := st.contents - {e})
  }

  // none of the entity's frames stays cached
  lemma Uncached(st: State, c: Cipher, e: Eid, k: nat)
    requires c.overhead < FRAME_SIZE && e in st.addrs && CachedOk(st, c, k) && k in st.cache && st.owner[k] == Ent(e)
    ensures k in FirstKeys(Blocks(st.addrs[e].list))
  {
    hide Blocks, Chunk;
    var i: nat :| IsFrame(st, c, e, i, k, st.cache[k]);
    var j := i * BLKS_PER_FRAME;
    assert j % BLKS_PER_FRAME == 0;
  }

  /** Removing an entity disturbs nobody else. */
  lemma RemoveOthers(st: State, c: Cipher, e: Eid, w: nat)
    requires OkBut(st, c, w) && e in st.addrs
    ensures OkBut(AfterRemove(st, e), c, w)
    ensures w in st.writers && w in st.wrote && HolderOk(st, c, Wr(w), st.writers[w].addr, st.wrote[w]) ==>
      HolderOk(AfterRemove(st, e), c, Wr(w), st.writers[w].addr, st.wrote[w])
    ensures WtrOk(st, c, w) ==> WtrOk(AfterRemove(st, e), c, w)
  {
    hide EntOk, WtrOk, CachedOk, FirstKeys, EntHolds, Blocks, Ascending;
    var st' := AfterRemove(st, e);
    var bs := Blocks(st.addrs[e].list);
    assert Owned(st.owner, Ent(e), bs) by { EntOwned(st, c, e); }
    forall b | b in st.owner && st.owner[b] != Ent(e) && b in st.depot ensures b in st'.depot && st'.depot[b] == st.depot[b] {
    }
    hide HolderOk, Owned, CipherOk;
    assert c.overhead < FRAME_SIZE by { SmallOverhead(c); }
    forall e' ensures EntOk(st', c, e') {
      if e' == e {
        GoneOk(st', c, e);
      } else {
        EntSameOk(st, st', c, e');
      }
    }
    forall w': nat | w' != w || WtrOk(st, c, w) ensures WtrOk(st', c, w') { WtrSame(st, st', c, w'); }
    if w in st.writers && w in st.wrote && HolderOk(st, c, Wr(w), st.writers[w].addr, st.wrote[w]) {
      HolderSame(st, st', c, Wr(w), st.writers[w].addr, st.wrote[w]);
    }
    forall k: nat ensures CachedOk(st', c, k) {
      if k in st.cache && k in st.owner && st.owner[k] == Ent(e) {
        Uncached(st, c, e, k);
        NotCached(st', c, k);
      } else {
        CachedSame(st, st', c, k);
      }
    }
  }

  lemma EntOwned(st: State, c: Cipher, e: Eid)
    requires c.overhead < FRAME_SIZE && EntOk(st, c, e) && e in st.addrs
    ensures Owned(st.owner, Ent(e), Blocks(st.addrs[e].list))
  {
  }

  lemma GoneOk(st: State, c: Cipher, e: Eid)
    requires c.overhead < FRAME_SIZE && e !in st.addrs
    ensures EntOk(st, c, e)
  {
  }

  lemma NotCached(st: State, c: Cipher, k: nat)
    requires c.overhead < FRAME_SIZE && k !in st.cache
    ensures CachedOk(st, c, k)
  {
  }

  // ---- a writer becomes an entity ----

  ghost function Transfer(owner: map<nat, Holder>, from: Holder, to: Holder): map<nat, Holder> {
    map b | b in owner :: if owner[b] == from then to else owner[b]
  }

  ghost function AfterInstall(st: State, w: nat): State
    requires w in st.writers && w in st.wrote
  {
    var e := st.writers[w].id;
    st.(addrs := st.addrs[e := st.writers[w].addr], contents := st.contents[e := st.wrote[w]],
        writers := st.writers - {w}, wrote := st.wrote - {w}, owner := Transfer(st.owner, Wr(w), Ent(e)))
  }

  lemma InstallOk(st: State, c: Cipher, w: nat)
    requires OkBut(st, c, w) && w in st.writers && w in st.wrote && st.writers[w].id !in st.addrs
    requires HolderOk(st, c, Wr(w), st.writers[w].addr, st.wrote[w])
    ensures Ok(AfterInstall(st, w), c)
  {
    hide EntOk, WtrOk, CachedOk, EntHolds, Blocks, Ascending, CipherOk;
    var st' := AfterInstall(st, w);
    var e := st.writers[w].id;
    assert c.overhead < FRAME_SIZE by { SmallOverhead(c); }
    NewEntOk(st, c, w);
    hide HolderOk;
    forall e' ensures EntOk(st', c, e') {
      if e' != e {
        EntSameOk(st, st', c, e');
      }
    }
    forall w': nat ensures WtrOk(st', c, w') {
      if w' == w {
        GoneWtr(st', c, w);
      } else {
        WtrSame(st, st', c, w');
      }
    }
    forall k: nat ensures CachedOk(st', c, k) {
      CachedOwner(st, c, k);
      CachedSame(st, st', c, k);
    }
  }

  lemma CachedOwner(st: State, c: Cipher, k: nat)
    requires c.overhead < FRAME_SIZE && CachedOk(st, c, k)
    ensures k in st.cache ==> k in st.owner && st.owner[k].Ent? && st.owner[k].id in st.addrs
  {
  }

  lemma GoneWtr(st: State, c: Cipher, w: nat)
    requires c.overhead < FRAME_SIZE && w !in st.writers
    ensures WtrOk(st, c, w)
  {
  }

  lemma NewEntOk(st: State, c: Cipher, w: nat)
    requires c.overhead < FRAME_SIZE && w in st.writers && w in st.wrote
    requires HolderOk(st, c, Wr(w), st.writers[w].addr, st.wrote[w])
    ensures EntOk(AfterInstall(st, w), c, st.writers[w].id)
  {
    hide EntHolds, Blocks, Ascending;
  }
}
