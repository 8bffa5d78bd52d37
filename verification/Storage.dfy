/** The storage: interleaved writers, a frame cache, and deletion. */
module Storage {
  import opened Basics
  import opened BlockSpans
  import opened Addresses
  import opened FrameSpec
  import opened StorageSpec

  lemma KeysStep(bs: seq<nat>, n: nat, m: nat)
    requires n < m <= |bs| && forall j :: n < j < m ==> j % BLKS_PER_FRAME != 0
    ensures FirstKeys(bs[..m]) == FirstKeys(bs[..n]) + if n % BLKS_PER_FRAME == 0 then {bs[n]} else {}
  {
    var a, b := bs[..n], bs[..m];
    forall k | k in FirstKeys(b) ensures k in FirstKeys(a) || (n % BLKS_PER_FRAME == 0 && k == bs[n]) {
      var i :| 0 <= i < m && i % BLKS_PER_FRAME == 0 && b[i] == k;
      assert i < n ==> a[i] == k;
    }
    forall k | k in FirstKeys(a) ensures k in FirstKeys(b) {
      var i :| 0 <= i < n && i % BLKS_PER_FRAME == 0 && a[i] == k;
      assert b[i] == k;
    }
    if n % BLKS_PER_FRAME == 0 {
      assert b[n] == bs[n];
    }
  }

  lemma IdxAt(bs: seq<nat>, start: nat, span: Span, i: nat)
    requires start + span.cnt <= |bs| && Idx(span) == bs[start..start + span.cnt] && start <= i < start + span.cnt
    ensures bs[i] == span.begin + i - start
  {
    assert bs[i] == Idx(span)[i - start];
  }

  // no frame starts between a block and the next frame
  lemma NoFrameBetween(n: nat, m: nat)
    requires m <= n + BLKS_PER_FRAME - n % BLKS_PER_FRAME
    ensures forall j :: n < j < m ==> j % BLKS_PER_FRAME != 0
  {
    forall j | n < j < m ensures j % BLKS_PER_FRAME != 0 {
      assert j % BLKS_PER_FRAME == n % BLKS_PER_FRAME + (j - n);
    }
  }

  lemma NoKeys()
    ensures FirstKeys([]) == {}
  {
  }

  class Storage {
    const c: Cipher
    var depot: Depot
    var wmark: nat                      // blocks below are allocated
    var addrs: map<Eid, Addr>
    var cache: map<nat, Bytes>          // decrypted frames by their first block
    var writers: map<nat, Wtr>
    ghost var contents: map<Eid, Bytes>
    ghost var wrote: map<nat, Bytes>
    ghost var owner: map<nat, Holder>

    ghost function Value(): State
      reads this
    {
      State(depot, wmark, addrs, cache, writers, contents, wrote, owner)
    }

    ghost predicate Valid()
      reads this
    {
      Ok(Value(), c) && Tidy(Value())
    }

    constructor (c: Cipher)
      requires CipherOk(c)
      ensures Valid() && contents == map[] && wrote == map[] && this.c == c
    {
      this.c := c;
      depot, wmark, addrs, cache, writers := map[], 0, map[], map[], map[];
      contents, wrote, owner := map[], map[], map[];
    }

    // delete the blocks of an address and drop its frames from the cache
    method RemoveAddressBlocks(addr: Addr)
      modifies this`depot, this`cache
      ensures depot == map b | b in old(depot) && b !in Blocks(addr.list) :: old(depot)[b]
      ensures cache == old(cache) - FirstKeys(Blocks(addr.list))
    {
      hide FirstKeys, Blocks, Idx;
      ghost var bs := Blocks(addr.list);
      var inaddr: nat := 0;
      NoKeys();
      NoBlocks();
      assert addr.list[..0] == [] && bs[..0] == [];
      for s := 0 to |addr.list|
        invariant inaddr == |Blocks(addr.list[..s])| <= |bs|
        invariant depot == map b | b in old(depot) && b !in Blocks(addr.list[..s]) :: old(depot)[b]
        invariant cache == old(cache) - FirstKeys(bs[..inaddr])
      {
        var span := addr.list[s];
        NextSpan(addr.list, s);
        DropSpan(addr.list, s);
        depot := map b | b in depot && !InSpan(b, span) :: depot[b];
        inaddr := DropFrames(old(cache), bs, inaddr, span);
      }
      assert addr.list[..|addr.list|] == addr.list && bs[..|bs|] == bs;
    }

    // drop cached frames that start in this span
    method DropFrames(ghost all: map<nat, Bytes>, ghost bs: seq<nat>, start: nat, span: Span) returns (inaddr: nat)
      requires start + span.cnt <= |bs| && Idx(span) == bs[start..start + span.cnt]
      requires cache == all - FirstKeys(bs[..start])
      modifies this`cache
      ensures inaddr == start + span.cnt && cache == all - FirstKeys(bs[..inaddr])
    {
      hide FirstKeys, Idx;
      inaddr := start;
      var blkIdx := span.begin;
      var end := start + span.cnt;
      while inaddr < end
        invariant start <= inaddr <= end && blkIdx == span.begin + inaddr - start
        invariant cache == all - FirstKeys(bs[..inaddr])
      {
        var offset := inaddr % BLKS_PER_FRAME;
        if offset == 0 {
          cache := cache - {blkIdx};
        }
        var step := Min(end - inaddr, BLKS_PER_FRAME - offset);
        IdxAt(bs, start, span, inaddr);
        NoFrameBetween(inaddr, inaddr + step);
        KeysStep(bs, inaddr, inaddr + step);
        inaddr := inaddr + step;
        blkIdx := blkIdx + step;
      }
    }

    method Open(w: nat, id: Eid)
      requires Valid() && w !in writers
      modifies this`writers, this`wrote
      ensures Valid() && wrote == old(wrote)[w := []] && writers == old(writers)[w := Wtr(id, Addr(0, []), [])]
    {
      ghost var st := Value();
      writers := writers[w := Wtr(id, Addr(0, []), [])];
      wrote := wrote[w := []];
      OpenOk(st, c, w, id, Value());
      TidyMore(st, Value());
    }

    method Allocate(cnt: nat) returns (span: Span)
      modifies this`wmark
      ensures span == Span(old(wmark), cnt) && wmark == old(wmark) + cnt
    {
      span := Span(wmark, cnt);
      wmark := wmark + cnt;
    }

    // encrypt what is staged and store it in fresh blocks
    method WriteFrame(w: nat, ghost done: Bytes)
      requires w in writers && w in wrote && OkBut(Value(), c, w) && c.overhead < FRAME_SIZE
      requires Writing(Value(), c, w, writers[w].addr, done) && wrote[w] == done + writers[w].staged
      requires |writers[w].staged| <= c.Plain() && Tidy(Value())
      modifies this`depot, this`wmark, this`writers, this`owner
      ensures Tidy(Value())
      ensures w in writers && OkBut(Value(), c, w) && writers[w].id == old(writers[w].id) && writers[w].staged == []
      ensures HolderOk(Value(), c, Wr(w), writers[w].addr, wrote[w])
      ensures |old(writers[w].staged)| == c.Plain() ==> Full(c, writers[w].addr, wrote[w], FramesIn(writers[w].addr))
      ensures writers.Keys == old(writers).Keys && forall w' :: w' in writers && w' != w ==> writers[w'] == old(writers)[w']
    {
      hide OkBut, Writing, HolderOk, Full, FramesIn, Blocks, Idx, AllFull, Ceil, Tidy;
      var wtr := writers[w];
      if wtr.staged == [] {
        assert done + [] == done;
        NoFrame(Value(), c, w, done);
        return;
      }
      ghost var st := Value();
      var salt: nat := *;
      EncLen(st, c, w, wtr.staged, salt);
      var enc := c.enc(wtr.staged, salt);
      var cnt := Ceil(|enc|);
      CeilBounds(|enc|);
      var padLen: nat := cnt * BLK_SIZE - |enc|;
      assert |seq(padLen, _ => 0 as Byte)| == padLen;
      var pad: Bytes :| |pad| == padLen;
      var span := Allocate(cnt);
      depot := Put(depot, span, enc + pad);
      AddrOk(st, c, w, done);
      var addr := Append(wtr.addr, span, |enc|);
      writers := writers[w := wtr.(addr := addr, staged := [])];
      owner := Grant(owner, span, Wr(w));
      TidyPut(st, w, span, enc + pad, addr);
      PutOthers(st, c, w, span, enc + pad, addr);
      PutWriter(st, c, w, span, salt, pad, addr, done);
    }

    /** Take as much as fits the frame being staged. */
    method Write(w: nat, buf: Bytes) returns (n: nat)
      requires Valid() && w in writers
      modifies this`depot, this`wmark, this`writers, this`owner, this`wrote
      ensures Valid() && n == Min(c.Plain() - |old(writers[w].staged)|, |buf|) && (buf != [] ==> n > 0)
      ensures w in old(wrote) && wrote == old(wrote)[w := old(wrote)[w] + buf[..n]]
      ensures w in writers && writers[w].id == old(writers[w].id)
      ensures writers.Keys == old(writers).Keys && forall w' :: w' in writers && w' != w ==> writers[w'] == old(writers)[w']
    {
      hide Ok, OkBut, WtrOk, Writing, Full, HolderOk, FramesIn, Tidy;
      ghost var st := Value();
      OpenWriter(st, c, w);
      ghost var done := Done(st, w);
      n := Min(c.Plain() - |writers[w].staged|, |buf|);
      var staged := writers[w].staged + buf[..n];
      assert wrote[w] + buf[..n] == done + staged;
      writers := writers[w := writers[w].(staged := staged)];
      wrote := wrote[w := wrote[w] + buf[..n]];
      StageOk(st, c, w, done, Value());
      TidyMore(st, Value());
      if |staged| >= c.Plain() {
        WriteFrame(w, done);
        MakeWriting(Value(), c, w, wrote[w]);
        assert wrote[w] + [] == wrote[w];
        CloseWriter(Value(), c, w, wrote[w]);
      } else {
        CloseWriter(Value(), c, w, done);
      }
    }

    // the blocks of the entity about to be replaced
    method RemoveOld(id: Eid, w: nat)
      requires OkBut(Value(), c, w) && c.overhead < FRAME_SIZE && w in writers && w in wrote
      requires HolderOk(Value(), c, Wr(w), writers[w].addr, wrote[w]) && Tidy(Value())
      modifies this`depot, this`cache, this`addrs, this`contents
      ensures OkBut(Value(), c, w) && HolderOk(Value(), c, Wr(w), writers[w].addr, wrote[w]) && Tidy(Value())
      ensures id !in addrs && contents == old(contents) - {id} && addrs == old(addrs) - {id}
      ensures depot == map b | b in old(depot) && !(id in old(addrs) && b in Blocks(old(addrs)[id].list)) :: old(depot)[b]
    {
      hide OkBut, HolderOk, FirstKeys, Blocks, WtrOk, Tidy;
      if id in addrs {
        ghost var st := Value();
        RemoveOthers(st, c, id, w);
        TidyRemove(st, id);
        RemoveAddressBlocks(addrs[id]);
        addrs, contents := addrs - {id}, contents - {id};
        assert Value() == AfterRemove(st, id);
      } else {
        NoContents(Value(), c, w, id);
      }
    }

    // the writer's address becomes the entity's
    method Install(w: nat)
      requires OkBut(Value(), c, w) && c.overhead < FRAME_SIZE && w in writers && w in wrote && writers[w].id !in addrs
      requires HolderOk(Value(), c, Wr(w), writers[w].addr, wrote[w]) && Tidy(Value())
      modifies this`addrs, this`contents, this`writers, this`wrote, this`owner
      ensures Valid() && contents == old(contents)[old(writers[w].id) := old(wrote)[w]]
      ensures wrote == old(wrote) - {w} && writers == old(writers) - {w}
    {
      hide OkBut, HolderOk, Transfer, Ok, Tidy;
      ghost var st := Value();
      InstallOk(st, c, w);
      TidyInstall(st, w);
      var id := writers[w].id;
      addrs := addrs[id := writers[w].addr];
      contents := contents[id := wrote[w]];
      writers, wrote := writers - {w}, wrote - {w};
      owner := Transfer(owner, Wr(w), Ent(id));
      assert Value() == AfterInstall(st, w);
    }

    /** Store what is left, remove the entity's old blocks, install the new address. */
    method Finish(w: nat)
      requires Valid() && w in writers
      modifies this
      ensures Valid() && w in old(wrote) && contents == old(contents)[old(writers[w].id) := old(wrote)[w]]
      ensures wrote == old(wrote) - {w} && writers.Keys == old(writers).Keys - {w}
      ensures forall w' :: w' in writers ==> w' in old(writers) && writers[w'] == old(writers)[w']
      ensures var id := old(writers[w].id);
        id in old(addrs) ==> forall b :: b in Blocks(old(addrs)[id].list) ==> b !in depot
    {
      hide Ok, OkBut, WtrOk, Writing, Full, HolderOk, FramesIn, Tidy, Blocks;
      OpenWriter(Value(), c, w);
      WriteFrame(w, Done(Value(), w));
      RemoveOld(writers[w].id, w);
      Install(w);
    }

    /** Delete an entity; deleting what is not there is fine. */
    method Delete(id: Eid)
      requires Valid()
      modifies this`depot, this`cache, this`addrs, this`contents
      ensures Valid() && contents == old(contents) - {id} && addrs == old(addrs) - {id}
      ensures depot == map b | b in old(depot) && !(id in old(addrs) && b in Blocks(old(addrs)[id].list)) :: old(depot)[b]
    {
      hide Tidy, Blocks, FirstKeys;
      if id in addrs {
        ghost var st := Value();
        DeleteOk(st, c, id);
        TidyRemove(st, id);
        RemoveAddressBlocks(addrs[id]);
        addrs, contents := addrs - {id}, contents - {id};
        assert Value() == AfterRemove(st, id);
      }
    }
  }

  lemma OpenWriter(st: State, c: Cipher, w: nat)
    requires Ok(st, c) && w in st.writers
    ensures c.overhead < FRAME_SIZE && OkBut(st, c, w)
    ensures w in st.wrote && |st.writers[w].staged| <= |st.wrote[w]| && |st.writers[w].staged| < c.Plain()
    ensures st.wrote[w] == Done(st, w) + st.writers[w].staged && Writing(st, c, w, st.writers[w].addr, Done(st, w))
  {
    hide EntOk, CachedOk, Writing;
    assert WtrOk(st, c, w);
  }

  lemma MakeWriting(st: State, c: Cipher, w: nat, data: Bytes)
    requires c.overhead < FRAME_SIZE && w in st.writers && HolderOk(st, c, Wr(w), st.writers[w].addr, data)
    requires Full(c, st.writers[w].addr, data, FramesIn(st.writers[w].addr))
    ensures Writing(st, c, w, st.writers[w].addr, data)
  {
  }

  lemma CloseWriter(st: State, c: Cipher, w: nat, done: Bytes)
    requires OkBut(st, c, w) && c.overhead < FRAME_SIZE && w in st.writers && w in st.wrote
    requires Writing(st, c, w, st.writers[w].addr, done) && st.wrote[w] == done + st.writers[w].staged
    requires |st.writers[w].staged| < c.Plain()
    ensures Ok(st, c)
  {
    hide EntOk, CachedOk, Writing;
    assert Done(st, w) == done;
  }

  lemma NoContents(st: State, c: Cipher, w: nat, id: Eid)
    requires OkBut(st, c, w) && id !in st.addrs
    ensures st.contents - {id} == st.contents
  {
  }

  lemma DeleteOk(st: State, c: Cipher, e: Eid)
    requires Ok(st, c) && e in st.addrs
    ensures Ok(AfterRemove(st, e), c)
  {
    hide EntOk, CachedOk, WtrOk, CipherOk, HolderOk, FirstKeys;
    assert c.overhead < FRAME_SIZE by { SmallOverhead(c); }
    var st' := AfterRemove(st, e);
    forall w: nat ensures WtrOk(st', c, w) {
      RemoveOthers(st, c, e, w);
    }
    RemoveOthers(st, c, e, 0);
  }

  // only writer `w`'s own bookkeeping changes
  lemma StageOk(st: State, c: Cipher, w: nat, done: Bytes, st': State)
    requires Ok(st, c) && c.overhead < FRAME_SIZE && w in st.writers && Writing(st, c, w, st.writers[w].addr, done)
    requires w in st'.writers && w in st'.wrote && st'.writers[w].addr == st.writers[w].addr
    requires st' == st.(writers := st.writers[w := st'.writers[w]], wrote := st.wrote[w := st'.wrote[w]])
    ensures OkBut(st', c, w) && Writing(st', c, w, st'.writers[w].addr, done)
  {
    hide EntOk, CachedOk, WtrOk, CipherOk, HolderOk, Full;
    HolderSame(st, st', c, Wr(w), st.writers[w].addr, done);
    forall e ensures EntOk(st', c, e) { EntSameOk(st, st', c, e); }
    forall w': nat | w' != w ensures WtrOk(st', c, w') { WtrSame(st, st', c, w'); }
    forall k: nat ensures CachedOk(st', c, k) { CachedSame(st, st', c, k); }
  }

  lemma OpenOk(st: State, c: Cipher, w: nat, id: Eid, st': State)
    requires Ok(st, c) && w !in st.writers
    requires st' == st.(writers := st.writers[w := Wtr(id, Addr(0, []), [])], wrote := st.wrote[w := []])
    ensures Ok(st', c)
  {
    hide EntOk, CachedOk, CipherOk, WtrOk;
    SmallOverhead(c);
    NewWtrOk(st', c, w);
    forall e ensures EntOk(st', c, e) { EntSameOk(st, st', c, e); }
    forall w': nat ensures WtrOk(st', c, w') {
      if w' != w {
        WtrSame(st, st', c, w');
      }
    }
    forall k: nat ensures CachedOk(st', c, k) { CachedSame(st, st', c, k); }
  }

  lemma NewWtrOk(st: State, c: Cipher, w: nat)
    requires c.overhead < FRAME_SIZE && w in st.writers && w in st.wrote && st.wrote[w] == []
    requires st.writers[w].addr == Addr(0, []) && st.writers[w].staged == []
    ensures WtrOk(st, c, w)
  {
    NoBlocks();
    hide Blocks, Holds, FrameHolds, Chunk;
    assert Done(st, w) == [] && FramesIn(Addr(0, [])) == 0;
    assert EntHolds(c, st.depot, Addr(0, []), [], 0);
    assert Writing(st, c, w, Addr(0, []), []);
  }

  lemma NoFrame(st: State, c: Cipher, w: nat, done: Bytes)
    requires c.overhead < FRAME_SIZE && w in st.writers && Writing(st, c, w, st.writers[w].addr, done)
    ensures HolderOk(st, c, Wr(w), st.writers[w].addr, done)
    ensures Full(c, st.writers[w].addr, done, FramesIn(st.writers[w].addr))
  {
  }

  lemma EncLen(st: State, c: Cipher, w: nat, plain: Bytes, salt: nat)
    requires OkBut(st, c, w) && 0 < |plain| <= c.Plain()
    ensures |c.enc(plain, salt)| == |plain| + c.overhead && 0 < |c.enc(plain, salt)| <= FRAME_SIZE
  {
  }

  lemma AddrOk(st: State, c: Cipher, w: nat, done: Bytes)
    requires c.overhead < FRAME_SIZE && w in st.writers && Writing(st, c, w, st.writers[w].addr, done)
    ensures AllFull(st.writers[w].addr.list) && (st.writers[w].addr.list == [] ==> st.writers[w].addr.len == 0)
  {
    hide Blocks, Holds;
  }

  lemma DropSpan(list: seq<Span>, s: nat)
    requires s < |list|
    ensures forall b :: b in Blocks(list[..s + 1]) <==> b in Blocks(list[..s]) || InSpan(b, list[s])
  {
    assert list[..s + 1] == list[..s] + [list[s]];
    BlocksSnoc(list[..s], list[s]);
    var span := list[s];
    forall b: nat ensures b in Idx(span) <==> InSpan(b, span) {
      if InSpan(b, span) {
        assert Idx(span)[b - span.begin] == b;
      }
    }
  }
}
