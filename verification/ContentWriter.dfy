/** The writer of a content: chunks are found again or written to a segment, their
    spans are appended to a staged list, and their leaves are hashed. */
module ContentWriter {
  import opened Basics
  import opened Spans
  import opened Entries
  import opened EntryLists
  import opened Segments
  import opened ChunkMaps
  import opened References
  import opened DroppedChunks
  import opened VersionCounts
  import MerkleWriter

  /** Chunk for chunk the same hash and length. */
  ghost predicate Alike(h: Hasher, a: seq<Bytes>, b: seq<Bytes>) {
    |a| == |b| && forall i :: 0 <= i < |a| ==> h(a[i]) == h(b[i]) && |a[i]| == |b[i]|
  }

  /** What is staged is what was written exactly if every chunk found again is the
      chunk that was written. */
  lemma {:induction false} StagedIsWritten(h: Hasher, a: seq<Bytes>, b: seq<Bytes>)
    requires Alike(h, a, b)
    ensures Flatten(a) == Flatten(b) <==> a == b
  {
    if a != [] {
      StagedIsWritten(h, a[1..], b[1..]);
      assert a == [a[0]] + a[1..] && b == [b[0]] + b[1..];
      if Flatten(a) == Flatten(b) {
        assert Flatten(a)[..|a[0]|] == a[0] && Flatten(b)[..|b[0]|] == b[0];
        assert Flatten(a)[|a[0]|..] == Flatten(a[1..]) && Flatten(b)[|b[0]|..] == Flatten(b[1..]);
      }
    }
  }

  /** Ids for new segments, as many as may be needed. */
  ghost predicate NewIds(ids: nat -> Eid, segs: Segs) {
    (forall i: nat :: ids(i) !in segs) && forall i: nat, j: nat :: i < j ==> ids(i) != ids(j)
  }

  /** No other bytes have the hash of one of the chunks. */
  ghost predicate NoCollision(h: Hasher, chunks: seq<Bytes>) {
    forall i, other: Bytes :: 0 <= i < |chunks| && h(other) == h(chunks[i]) ==> other == chunks[i]
  }

  lemma AlikeIsSame(h: Hasher, a: seq<Bytes>, b: seq<Bytes>)
    requires Alike(h, a, b) && NoCollision(h, a)
    ensures a == b
  {
    forall i | 0 <= i < |a| ensures a[i] == b[i] {
      assert h(b[i]) == h(a[i]);
    }
  }

  lemma GrowsSelf(store: Store)
    ensures StoreGrows(store, store)
  {
  }

  lemma GrowsOn(a: Store, b: Store, c: Store)
    requires StoreGrows(a, b) && StoreGrows(b, c)
    ensures StoreGrows(a, c)
  {
    forall id | id in a ensures id in c && SegGrows(a[id], c[id]) {
      assert SegGrows(a[id], b[id]) && SegGrows(b[id], c[id]);
    }
  }

  // the span of one chunk
  function ChunkSpan(seg: Segment, idx: nat, at: nat): Span
    requires idx < |seg.chunks|
  {
    Span(idx, idx + 1, 0, seg.chunks[idx].len, at)
  }

  lemma ChunkSpanOk(seg: Segment, retired: set<nat>, idx: nat, at: nat)
    requires Tiled(seg, retired) && idx < |seg.chunks| && idx !in retired
    ensures var (c, span) := (seg.chunks[idx], ChunkSpan(seg, idx, at));
      && c.EndPos() <= |seg.data|
      && SpanOk(span, seg.View()) && EndsAtChunk(span, seg.View())
      && SpanBytes(span, seg.View()) == seg.data[c.pos..c.EndPos()]
      && (idx > 0 && idx - 1 !in retired ==> Adjoins(span, seg.View()))
  {
    assert Placed(seg.chunks, retired, idx);
    BeforeGrows(seg.chunks, retired, idx + 1, |seg.chunks|);
    if idx > 0 && idx - 1 !in retired {
      assert Placed(seg.chunks, retired, idx - 1);
    }
  }

  // a span that continues the last one follows a chunk that was not dropped
  lemma LastAvoids(ents: seq<Entry>, segs: Segs, retired: map<Eid, set<nat>>)
    requires EntsOk(ents, Views(segs)) && AvoidsRetired(ents, retired) && ents != []
    ensures var e := ents[|ents| - 1];
      && e.spans != [] && e.spans[|e.spans| - 1].begin < e.spans[|e.spans| - 1].end
      && (e.segId in retired ==> e.spans[|e.spans| - 1].end - 1 !in retired[e.segId])
  {
    var e := ents[|ents| - 1];
    assert InStore(e, Views(segs));
    var s := e.spans[|e.spans| - 1];
    assert SpanOk(s, segs[e.segId].View());
    CountNothing(e.spans, s.end - 1);
    assert Covers(s, s.end - 1) == 1;
  }

  lemma AppendAvoids(e: Entry, span: Span, i: nat)
    requires CountSpans(e.spans, i) == 0 && Covers(span, i) == 0
    ensures CountSpans(e.Append(span).spans, i) == 0
  {
    hide CountSpans, Covers;
    CountNothing(e.spans, i);
    var x := e.Append(span).spans;
    forall m | 0 <= m < |x| ensures Covers(x[m], i) == 0 {
      if x[m] != span && x[m] != e.spans[m] {
        MergedCovers(e.spans[m], span, i);
      }
    }
    CountNothing(x, i);
  }

  lemma MergedCovers(s: Span, up: Span, i: nat)
    requires s.end == up.begin && up.segOffset == 0 && Covers(s, i) == 0 && Covers(up, i) == 0
    ensures Covers(s.MergeUp(up), i) == 0
  {
  }

  lemma WithSpanAvoids(ents: seq<Entry>, segId: Eid, span: Span, at: nat, retired: map<Eid, set<nat>>)
    requires AvoidsRetired(ents, retired)
    requires segId in retired ==> forall i :: i in retired[segId] ==> Covers(span, i) == 0
    ensures AvoidsRetired(WithSpan(ents, segId, span, at), retired)
  {
    var x := WithSpan(ents, segId, span, at);
    forall j, i: nat | 0 <= j < |x| && x[j].segId in retired && i in retired[x[j].segId]
      ensures CountSpans(x[j].spans, i) == 0
    {
      if j < |ents| && x[j] == ents[j] {
      } else if j < |ents| {
        AppendAvoids(ents[j], span, i);
      } else {
        AppendAvoids(Entry(segId, 0, at, []), span, i);
      }
    }
  }

  lemma EndsGrow(ents: seq<Entry>, store: Store, store': Store)
    requires LastEndsAtChunk(ents, store) && StoreGrows(store, store')
    ensures LastEndsAtChunk(ents, store')
  {
  }

  lemma GrownSound(h: Hasher, segs: Segs, segs': Segs, retired: map<Eid, set<nat>>, retired': map<Eid, set<nat>>,
                   locs: set<(Hash, ChunkLoc)>)
    requires MapSound(h, segs, retired, locs) && StoreGrows(Views(segs), Views(segs'))
    requires SameDropped(segs, retired, retired')
    ensures MapSound(h, segs', retired', locs)
  {
    forall p | p in locs ensures Located(h, segs', retired', p.0, p.1) {
      assert Located(h, segs, retired, p.0, p.1);
      var (seg, seg') := (segs[p.1.segId], segs'[p.1.segId]);
      assert SegGrows(seg.View(), seg'.View());
      var c := seg.chunks[p.1.idx];
      assert seg'.data[c.pos..c.EndPos()] == seg.data[c.pos..c.EndPos()];
    }
  }

  // what was dropped of the segments there were stays dropped
  ghost predicate SameDropped(segs: Segs, retired: map<Eid, set<nat>>, retired': map<Eid, set<nat>>) {
    forall id :: id in segs ==> (id in retired <==> id in retired') && (id in retired ==> retired'[id] == retired[id])
  }

  // the bytes are those of the last chunk of the segment
  ghost predicate LastChunkIs(segs: Segs, retired: map<Eid, set<nat>>, id: Eid, bytes: Bytes) {
    && id in segs && segs[id].chunks != [] && id in retired && |segs[id].chunks| - 1 !in retired[id]
    && var (c, data) := (segs[id].chunks[|segs[id].chunks| - 1], segs[id].data);
       c.EndPos() <= |data| && data[c.pos..c.EndPos()] == bytes
  }

  lemma TiledBounds(seg: Segment, retired: set<nat>)
    requires Tiled(seg, retired)
    ensures seg.len == |seg.data| && forall i :: i in retired ==> i < |seg.chunks|
  {
  }

  /** A segment that got one more chunk. */
  lemma Written(segs: Segs, retired: map<Eid, set<nat>>, id: Eid, bytes: Bytes)
    requires AllTiled(segs, retired)
    ensures var seg := if id in segs then segs[id] else Segment(0, 0, [], []);
      var (segs', retired') := (segs[id := seg.AppendChunk(bytes)],
                                retired[id := if id in segs && id in retired then retired[id] else {}]);
      && StoreGrows(Views(segs), Views(segs')) && SameDropped(segs, retired, retired')
      && LastChunkIs(segs', retired', id, bytes)
  {
    hide Tiled;
    if id in segs {
      TiledBounds(segs[id], retired[id]);
    }
  }

  // the segments once a chunk is appended to one of them, or to a new one
  function Appended(segs: Segs, id: Eid, chunk: Bytes): Segs {
    segs[id := (if id in segs then segs[id] else Segment(0, 0, [], [])).AppendChunk(chunk)]
  }

  // the segment a chunk goes to
  function Target(cur: Option<Eid>, newId: Eid, segs: Segs): Eid {
    if cur.Some? && cur.value in segs && |segs[cur.value].chunks| < MAX_CHUNKS then cur.value else newId
  }

  lemma InsertSound(h: Hasher, segs: Segs, retired: map<Eid, set<nat>>, locs: set<(Hash, ChunkLoc)>,
                    hash: Hash, loc: ChunkLoc)
    requires MapSound(h, segs, retired, locs) && Located(h, segs, retired, hash, loc)
    ensures forall locs' :: locs' <= locs + {(hash, loc)} ==> MapSound(h, segs, retired, locs')
  {
  }

  class Writer {
    const h: Hasher
    const ctn: EntryList
    const mtree: MerkleWriter.Writer
    const segs: SegmentStore
    const chkMap: ChunkMap
    var cur: Option<Eid>           // the segment being written
    ghost var chunks: seq<Bytes>   // what was written
    ghost var staged: seq<Bytes>   // and what the list denotes instead

    ghost predicate Staging()
      reads this`cur, this`staged, ctn, segs, chkMap
    {
      && segs.Valid() && chkMap.Valid() && MapSound(h, segs.segs, segs.retired, chkMap.Locs())
      && (cur.Some? ==> cur.value in segs.segs)
      && ctn.Ok(Views(segs.segs)) && LastEndsAtChunk(ctn.ents, Views(segs.segs))
      && AvoidsRetired(ctn.ents, segs.retired) && ctn.Denotes(Views(segs.segs)) == Flatten(staged)
      && NamesAtMost(ctn.ents, |staged|)
    }

    ghost predicate Valid()
      reads this, ctn, mtree, segs, chkMap
    {
      && Staging() && mtree.Valid() && mtree.h == h && mtree.written == Flatten(chunks) && mtree.leaves.offset == ctn.offset
      && Alike(h, chunks, staged)
    }

    constructor (h: Hasher, segs: SegmentStore, chkMap: ChunkMap)
      requires segs.Valid() && chkMap.Valid() && MapSound(h, segs.segs, segs.retired, chkMap.Locs())
      ensures Valid() && fresh(ctn) && fresh(mtree) && chunks == [] && staged == [] && cur == None
      ensures this.h == h && this.segs == segs && this.chkMap == chkMap && ctn.ents == [] && ctn.len == 0 && ctn.offset == 0
    {
      this.h, this.segs, this.chkMap := h, segs, chkMap;
      cur, chunks, staged := None, [], [];
      ctn := new EntryList();
      mtree := new MerkleWriter.Writer(h);
      EmptyListOk(0, Views(segs.segs));
    }

    /** Where the content starts. */
    method Seek(pos: nat)
      requires Valid() && chunks == [] && ctn.ents == [] && ctn.len == 0 && ctn.offset == 0
      modifies ctn, mtree
      ensures Valid() && ctn.offset == pos
    {
      ctn.Seek(pos);
      mtree.Seek(pos);
      EmptyListOk(pos, Views(segs.segs));
    }

    // the list, after the segments grew
    ghost method Carry(before: Segs, dropped: map<Eid, set<nat>>)
      requires ctn.Ok(Views(before)) && LastEndsAtChunk(ctn.ents, Views(before)) && AvoidsRetired(ctn.ents, dropped)
      requires chkMap.Valid() && MapSound(h, before, dropped, chkMap.Locs())
      requires StoreGrows(Views(before), Views(segs.segs))
      requires SameDropped(before, dropped, segs.retired)
      ensures ctn.Ok(Views(segs.segs)) && LastEndsAtChunk(ctn.ents, Views(segs.segs))
      ensures AvoidsRetired(ctn.ents, segs.retired) && MapSound(h, segs.segs, segs.retired, chkMap.Locs())
      ensures ctn.Denotes(Views(segs.segs)) == ctn.Denotes(Views(before))
    {
      hide StoreGrows, LastEndsAtChunk, MapSound;
      ListGrows(ctn.offset, ctn.len, ctn.ents, Views(before), Views(segs.segs));
      EndsGrow(ctn.ents, Views(before), Views(segs.segs));
      GrownSound(h, before, segs.segs, dropped, segs.retired, chkMap.Locs());
      forall j | 0 <= j < |ctn.ents| ensures ctn.ents[j].segId in before {
        assert InStore(ctn.ents[j], Views(before));
      }
    }

    /** A chunk is found again: the list gets a span over it. The assertion that it is
        as long as the chunk written fails only if two chunks share a hash. */
    method AppendFound(chunk: Bytes, loc: ChunkLoc) returns (ok: bool, ghost found: Bytes)
      requires Staging() && (h(chunk), loc) in chkMap.Locs()
      modifies this`staged, ctn
      ensures h(found) == h(chunk) && (ok <==> |found| == |chunk|)
      ensures Staging() && staged == old(staged) + [found] && ctn.offset == old(ctn.offset)
    {
      hide ListOk, ListBytes, LastEndsAtChunk, AvoidsRetired, Tiled, SpanOk, SpanBytes;
      assert Located(h, segs.segs, segs.retired, h(chunk), loc);
      var seg := segs.segs[loc.segId];
      found := seg.data[seg.chunks[loc.idx].pos..seg.chunks[loc.idx].EndPos()];
      PutSpan(loc.segId, loc.idx, found);
      ok := |chunk| == seg.chunks[loc.idx].len;
    }

    // append the span of a chunk that was not dropped
    method PutSpan(segId: Eid, idx: nat, ghost bytes: Bytes)
      requires Staging() && segId in segs.segs && idx < |segs.segs[segId].chunks| && idx !in segs.retired[segId]
      requires var (c, data) := (segs.segs[segId].chunks[idx], segs.segs[segId].data);
        c.EndPos() <= |data| && bytes == data[c.pos..c.EndPos()]
      modifies this`staged, ctn
      ensures Staging() && staged == old(staged) + [bytes] && ctn.offset == old(ctn.offset)
    {
      hide ListOk, ListBytes, LastEndsAtChunk, AvoidsRetired, Tiled, SpanOk, SpanBytes, EndsAtChunk, MapSound;
      hide SegmentStore.Counted, AllInside, Adjoins, ChunkMap.Valid, NamesAtMost;
      var seg := segs.segs[segId];
      var span := ChunkSpan(seg, idx, ctn.EndOffset());
      ChunkSpanOk(seg, segs.retired[segId], idx, ctn.EndOffset());
      if ctn.ents != [] {
        ListOkEnts(ctn.offset, ctn.len, ctn.ents, Views(segs.segs));
        LastAvoids(ctn.ents, segs.segs, segs.retired);
      }
      WithSpanAvoids(ctn.ents, segId, span, ctn.EndOffset(), segs.retired);
      WithSpanCounts(ctn.ents, segId, span, ctn.EndOffset(), |staged|);
      FlattenOne(staged, bytes);
      ctn.Append(segId, span, Views(segs.segs));
      staged := staged + [bytes];
    }

    // write the chunk to the current segment, or to a new one if that is full
    method PutChunk(chunk: Bytes, newId: Eid)
      requires segs.Valid() && (cur.Some? ==> cur.value in segs.segs) && chunk != [] && newId !in segs.segs
      modifies this`cur, segs
      ensures segs.Valid() && cur.Some? && segs.linked == old(segs.linked)
      ensures StoreGrows(Views(old(segs.segs)), Views(segs.segs))
      ensures segs.segs.Keys <= old(segs.segs).Keys + {newId}
      ensures SameDropped(old(segs.segs), old(segs.retired), segs.retired)
      ensures LastChunkIs(segs.segs, segs.retired, cur.value, chunk)
      ensures cur.value == Target(old(cur), newId, old(segs.segs))
      ensures segs.segs == Appended(old(segs.segs), cur.value, chunk)
    {
      hide SegmentStore.Counted, AllInside, AllTiled, StoreGrows, LastChunkIs, SameDropped, ListKept, UsedOk;
      ghost var before, dropped := segs.segs, segs.retired;
      if cur.None? {
        cur := Some(newId);
      }
      var written := segs.Write(cur.value, chunk);
      if written == 0 {
        cur := Some(newId);
        written := segs.Write(newId, chunk);
      }
      Written(before, dropped, cur.value, chunk);
    }

    /** A new chunk is written, and remembered in the chunk map. */
    method AppendChunk(chunk: Bytes, newId: Eid)
      requires Staging() && chunk != [] && newId !in segs.segs
      modifies this`cur, this`staged, ctn, segs, chkMap
      ensures Staging() && staged == old(staged) + [chunk] && ctn.offset == old(ctn.offset)
      ensures segs.linked == old(segs.linked) && StoreGrows(Views(old(segs.segs)), Views(segs.segs))
      ensures segs.segs.Keys <= old(segs.segs).Keys + {newId}
      ensures cur == Some(Target(old(cur), newId, old(segs.segs)))
      ensures segs.segs == Appended(old(segs.segs), cur.value, chunk)
      ensures chkMap.enabled ==>
        chkMap.Newest(h(chunk)) && (h(chunk), ChunkLoc(cur.value, |segs.segs[cur.value].chunks| - 1)) in chkMap.Locs()
    {
      hide ListOk, ListBytes, LastEndsAtChunk, AvoidsRetired, Tiled, MapSound, StoreGrows, NamesAtMost;
      hide SegmentStore.Counted, AllInside, ChunkMap.Valid;
      ghost var before, dropped := segs.segs, segs.retired;
      PutChunk(chunk, newId);
      Carry(before, dropped);
      var begin := |segs.segs[cur.value].chunks| - 1;
      PutSpan(cur.value, begin, chunk);
      InsertSound(h, segs.segs, segs.retired, chkMap.Locs(), h(chunk), ChunkLoc(cur.value, begin));
      ghost var evicted := chkMap.Insert(h(chunk), cur.value, begin);
    }

    /** Stage one chunk. One the map knows is found again and not stored; any other is
        stored in the current segment, or in a new one if that is full, and known from
        then on. */
    method StageChunk(chunk: Bytes, newId: Eid) returns (ok: bool, ghost got: Bytes)
      requires Staging() && chunk != [] && newId !in segs.segs
      modifies this`cur, this`staged, ctn, segs, chkMap
      ensures Staging() && staged == old(staged) + [got] && ctn.offset == old(ctn.offset)
      ensures h(got) == h(chunk) && (ok <==> |got| == |chunk|)
      ensures segs.linked == old(segs.linked) && StoreGrows(Views(old(segs.segs)), Views(segs.segs))
      ensures old(Known(chkMap.Locs(), h(chunk))) ==>
        segs.segs == old(segs.segs) && chkMap.Locs() == old(chkMap.Locs()) && cur == old(cur)
      ensures !old(Known(chkMap.Locs(), h(chunk))) ==>
        && ok && cur == Some(Target(old(cur), newId, old(segs.segs)))
        && segs.segs == Appended(old(segs.segs), cur.value, chunk)
      ensures chkMap.enabled ==> chkMap.Newest(h(chunk)) && Known(chkMap.Locs(), h(chunk))
    {
      hide ListOk, ListBytes, LastEndsAtChunk, AvoidsRetired, SegmentStore.Valid, MapSound, StoreGrows, Located,
        NamesAtMost, ChunkMap.Valid, ChunkMap.Locs;
      GrowsSelf(Views(segs.segs));
      got := chunk;
      var loc := chkMap.GetRefresh(h(chunk));
      if loc.Some? {
        ok, got := AppendFound(chunk, loc.value);
      } else {
        AppendChunk(chunk, newId);
        ok := true;
      }
    }

    /** Write one chunk, as the chunker cuts them. If the assertion fails, another chunk
        has the hash of this one. */
    method Write(chunk: Bytes, newId: Eid) returns (ok: bool)
      requires Valid() && chunk != [] && newId !in segs.segs
      modifies this, ctn, mtree, segs, chkMap
      ensures ok ==> Valid() && chunks == old(chunks) + [chunk] && ctn.offset == old(ctn.offset)
      ensures !ok ==> exists other: Bytes :: h(other) == h(chunk) && |other| != |chunk|
      ensures segs.linked == old(segs.linked) && StoreGrows(Views(old(segs.segs)), Views(segs.segs))
      ensures chkMap.Valid() && segs.segs == if old(Known(chkMap.Locs(), h(chunk))) then old(segs.segs) else
        Appended(old(segs.segs), Target(old(cur), newId, old(segs.segs)), chunk)
      ensures chkMap.enabled ==> chkMap.Newest(h(chunk)) && Known(chkMap.Locs(), h(chunk))
    {
      hide Staging, StoreGrows, MerkleWriter.Staged, ChunkMap.Valid, ChunkMap.Locs, Known;
      StagingMap(this);
      mtree.Write(chunk);
      ghost var got;
      ok, got := StageChunk(chunk, newId);
      StagingMap(this);
      if ok {
        FlattenOne(chunks, chunk);
        chunks := chunks + [chunk];
      }
    }

    /** What a finished writer hands over: leaves of the bytes written, and a list of
        chunks with the same hashes, which denotes the bytes written exactly if they
        are the same chunks. */
    method Finish() returns (leaves: MerkleWriter.Leaves)
      requires Valid()
      ensures leaves == MerkleWriter.StagedLeaves(h, ctn.offset, Flatten(chunks))
      ensures ctn.Denotes(Views(segs.segs)) == Flatten(staged) && Alike(h, chunks, staged)
      ensures ctn.Denotes(Views(segs.segs)) == Flatten(chunks) <==> staged == chunks
    {
      StagedIsWritten(h, chunks, staged);
      leaves := mtree.FinishWithLeaves();
    }

    /** A stream of chunks, while no other bytes have the hash of one of them. */
    method WriteAll(more: seq<Bytes>, ids: nat -> Eid)
      requires Valid() && (forall i :: 0 <= i < |more| ==> more[i] != []) && NewIds(ids, segs.segs)
      requires NoCollision(h, more)
      modifies this, ctn, mtree, segs, chkMap
      ensures Valid() && chunks == old(chunks) + more && ctn.offset == old(ctn.offset)
      ensures segs.linked == old(segs.linked) && StoreGrows(Views(old(segs.segs)), Views(segs.segs))
      ensures more != [] && chkMap.enabled ==> chkMap.Newest(h(more[|more| - 1]))
    {
      hide StoreGrows, Writer.Valid;
      GrowsSelf(Views(segs.segs));
      for i := 0 to |more|
        invariant Valid() && chunks == old(chunks) + more[..i] && ctn.offset == old(ctn.offset)
        invariant segs.linked == old(segs.linked) && StoreGrows(Views(old(segs.segs)), Views(segs.segs))
        invariant forall j :: i <= j ==> ids(j) !in segs.segs
        invariant i > 0 && chkMap.enabled ==> chkMap.Newest(h(more[i - 1]))
      {
        ghost var before := Views(segs.segs);
        var ok := Write(more[i], ids(i));
        GrowsOn(Views(old(segs.segs)), before, Views(segs.segs));
        assert more[..i + 1] == more[..i] + [more[i]];
        assert h(more[i]) == h(more[i]);
      }
      assert more[..|more|] == more;
    }
  }

  lemma StagingMap(w: Writer)
    requires w.Staging()
    ensures w.chkMap.Valid()
  {
  }

  lemma ListOkEnts(offset: nat, len: nat, ents: seq<Entry>, store: Store)
    requires ListOk(offset, len, ents, store)
    ensures EntsOk(ents, store)
  {
  }
}
