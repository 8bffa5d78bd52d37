/** Chunks that a compaction drops, and spans that still name them.

    A compaction keeps the bytes of a span, whatever they are, exactly if all its
    chunks are referenced; so a list survives to be linked later exactly if it names
    no dropped chunk. Counting up a dropped chunk at once fails the assertion in the
    source; once other counts have gone down it succeeds, and the span denotes
    other bytes or none. */
module DroppedChunks {
  import opened Basics
  import opened Spans
  import opened Entries
  import opened EntryLists
  import opened Segments
  import opened References
  import opened ChunkSpec

  // data of the same length in which exactly the bytes of chunk i are marked
  ghost function Marked(s: Segment, i: nat): (r: Segment)
    requires i < |s.chunks|
    ensures |r.data| == |s.data|
    ensures forall k :: 0 <= k < |r.data| ==> (r.data[k] == 1 <==> s.chunks[i].pos <= k < s.chunks[i].EndPos())
    ensures forall k :: 0 <= k < |r.data| ==> r.data[k] == 0 || r.data[k] == 1
  {
    s.(data := seq(|s.data|, k => if s.chunks[i].pos <= k < s.chunks[i].EndPos() then 1 else 0))
  }

  lemma ChunksApart(s: Segment, retired: set<nat>, i: nat, j: nat)
    requires Tiled(s, retired) && i < j < |s.chunks| && i !in retired && j !in retired
    ensures s.chunks[i].EndPos() <= s.chunks[j].pos && s.chunks[j].EndPos() <= |s.data|
  {
    assert Placed(s.chunks, retired, i) && Placed(s.chunks, retired, j);
    BeforeGrows(s.chunks, retired, i + 1, j);
    BeforeGrows(s.chunks, retired, j + 1, |s.chunks|);
  }

  // the referenced chunk that byte k of the compacted data belongs to
  lemma {:induction false} UsedFind(chunks: seq<Chunk>, k: nat) returns (j: nat)
    requires k < UsedLen(chunks)
    ensures j < |chunks| && !chunks[j].IsOrphan()
    ensures UsedLen(chunks[..j]) <= k < UsedLen(chunks[..j]) + chunks[j].len
    decreases |chunks|
  {
    var n := |chunks| - 1;
    if k < UsedLen(chunks[..n]) {
      j := UsedFind(chunks[..n], k);
      assert chunks[..n][..j] == chunks[..j];
    } else {
      j := n;
    }
  }

  lemma ShrunkByte(s: Segment, r: Segment, k: nat) returns (j: nat)
    requires ShrunkTo(s, r) && k < |r.data|
    ensures j < |s.chunks| && !s.chunks[j].IsOrphan() && UsedLen(s.chunks[..j]) <= k
    ensures var at := s.chunks[j].pos + k - UsedLen(s.chunks[..j]);
      at < s.chunks[j].EndPos() <= |s.data| && r.data[k] == s.data[at]
  {
    j := UsedFind(s.chunks, k);
    assert ShrunkAt(s, r.chunks, r.data, j);
    var (c, c') := (s.chunks[j], r.chunks[j]);
    assert r.data[c'.pos..c'.EndPos()][k - c'.pos] == s.data[c.pos..c.EndPos()][k - c'.pos];
  }

  lemma MarkedTiles(s: Segment, retired: set<nat>, i: nat)
    requires Tiled(s, retired) && i < |s.chunks|
    ensures Tiled(Marked(s, i), retired)
  {
  }

  /** Nothing of a dropped chunk is left in the compacted data. */
  lemma MarkLost(s: Segment, retired: set<nat>, i: nat, r: Segment)
    requires Tiled(s, retired) && i < |s.chunks| && i !in retired && s.chunks[i].IsOrphan()
    requires ShrunkTo(Marked(s, i), r)
    ensures forall k :: 0 <= k < |r.data| ==> r.data[k] == 0
  {
    hide Tiled;
    var m := Marked(s, i);
    MarkedTiles(s, retired, i);
    forall k: nat | k < |r.data| ensures r.data[k] == 0 {
      var j := ShrunkByte(m, r, k);
      LiveInData(m, retired, j);
      if i < j {
        ChunksApart(m, retired, i, j);
      } else {
        ChunksApart(m, retired, j, i);
      }
    }
  }

  // a byte of chunk i that a span over it denotes
  lemma SpanTouches(span: Span, chunks: seq<Chunk>, i: nat) returns (at: nat)
    requires SpanShape(span, chunks) && span.begin <= i < span.end
    ensures chunks[i].pos <= at < chunks[i].EndPos()
    ensures span.OffsetInSeg(chunks) <= at < span.OffsetInSeg(chunks) + span.len
    ensures at < chunks[span.end - 1].EndPos()
  {
    if i == span.begin {
      at := span.OffsetInSeg(chunks);
    } else {
      PositionsGrow(chunks, span.begin, span.end, span.begin, i);
      at := chunks[i].pos;
    }
    if i < span.end - 1 {
      PositionsGrow(chunks, span.begin, span.end, i, span.end - 1);
    }
  }

  lemma SpanByte(span: Span, seg: SegView, k: nat)
    requires k < |SpanBytes(span, seg)|
    ensures span.begin < |seg.chunks| && span.OffsetInSeg(seg.chunks) + k < |seg.data|
    ensures SpanBytes(span, seg)[k] == seg.data[span.OffsetInSeg(seg.chunks) + k]
  {
  }

  /** The converse of `ShrinkKeeps`: no compaction keeps a span over a chunk it drops,
      for some data of the segment. */
  lemma DropLoses(s: Segment, retired: set<nat>, span: Span, i: nat, r: Segment)
    requires Tiled(s, retired) && SpanOk(span, s.View())
    requires span.begin <= i < span.end && i !in retired && s.chunks[i].IsOrphan()
    requires ShrunkTo(Marked(s, i), r)
    ensures !Keeps(span, Marked(s, i).View(), r.View())
  {
    hide Tiled, Contiguous;
    var m := Marked(s, i);
    var at := SpanTouches(span, s.chunks, i);
    MarkLost(s, retired, i, r);
    var k := at - span.OffsetInSeg(s.chunks);
    SpanByte(span, m.View(), k);
    if |SpanBytes(span, r.View())| > k {
      SpanByte(span, r.View(), k);
    }
  }

  // the compaction of a segment, after its first n chunks
  lemma {:induction false} CompactsTo(s: Segment, n: nat) returns (chunks: seq<Chunk>, buf: Bytes)
    requires Inside(s) && n <= |s.chunks|
    ensures Shrunk(s, n, chunks, buf)
    decreases n
  {
    if n == 0 {
      chunks, buf := s.chunks, [];
    } else {
      chunks, buf := CompactsTo(s, n - 1);
      ShrunkStep(s, n - 1, chunks, buf);
      var c := s.chunks[n - 1];
      if !c.IsOrphan() {
        buf := buf + s.data[c.pos..c.EndPos()];
        chunks := chunks[n - 1 := c.(pos := |buf| - c.len)];
      }
    }
  }

  lemma Compacts(s: Segment) returns (r: Segment)
    requires Inside(s) && s.used == UsedLen(s.chunks)
    ensures ShrunkTo(s, r)
  {
    var chunks, buf := CompactsTo(s, |s.chunks|);
    assert s.chunks[..|s.chunks|] == s.chunks;
    r := Segment(s.used, s.used, chunks, buf);
  }

  /** Whatever bytes the segment holds, its compaction keeps the span. */
  ghost predicate Survives(s: Segment, span: Span) {
    forall data: Bytes, r: Segment :: |data| == |s.data| && ShrunkTo(s.(data := data), r) ==>
      Keeps(span, s.(data := data).View(), r.View())
  }

  /** A compaction keeps what a span denotes exactly if it drops none of its chunks. */
  lemma SurvivesIffLive(s: Segment, retired: set<nat>, span: Span)
    requires Tiled(s, retired) && UsedOk(s) && SpanOk(span, s.View())
    requires forall i :: span.begin <= i < span.end ==> i !in retired
    ensures Survives(s, span) <==> LiveRange(s.chunks, span.begin, span.end)
  {
    hide Tiled, SpanShape, Keeps, SpanOk;
    if LiveRange(s.chunks, span.begin, span.end) {
      forall data: Bytes, r: Segment | |data| == |s.data| && ShrunkTo(s.(data := data), r)
        ensures Keeps(span, s.(data := data).View(), r.View())
      {
        ShrinkKeeps(s.(data := data), r, span);
      }
    } else {
      RangeInside(span, s.View());
      var i :| span.begin <= i < span.end && s.chunks[i].IsOrphan();
      var m := Marked(s, i);
      MarkedTiles(s, retired, i);
      TiledInside(m, retired);
      var r := Compacts(m);
      DropLoses(s, retired, span, i, r);
      assert m == s.(data := m.data);
    }
  }

  lemma RangeInside(span: Span, seg: SegView)
    requires SpanOk(span, seg)
    ensures span.begin < span.end <= |seg.chunks|
  {
  }

  /** A staged list, while segment `id` is compacted before it can be linked. */
  ghost predicate ListSurvives(ents: seq<Entry>, id: Eid, s: Segment) {
    forall j, m :: 0 <= j < |ents| && 0 <= m < |ents[j].spans| && ents[j].segId == id ==>
      Survives(s, ents[j].spans[m])
  }

  lemma {:induction false} CountNothing(spans: seq<Span>, i: nat)
    ensures CountSpans(spans, i) == 0 <==> forall m :: 0 <= m < |spans| ==> Covers(spans[m], i) == 0
  {
    if spans != [] {
      CountNothing(spans[..|spans| - 1], i);
    }
  }

  /** A list that is linked only after a compaction still denotes what was staged, for
      all data, exactly if it names no chunk the compaction drops. */
  lemma RelinkKeeps(ents: seq<Entry>, id: Eid, s: Segment, retired: set<nat>)
    requires Tiled(s, retired) && UsedOk(s) && AvoidsRetired(ents, map[id := retired])
    requires forall j, m :: 0 <= j < |ents| && 0 <= m < |ents[j].spans| && ents[j].segId == id ==>
      SpanOk(ents[j].spans[m], s.View())
    ensures ListSurvives(ents, id, s) <==> AvoidsRetired(ents, map[id := Orphans(s.chunks)])
  {
    hide Tiled, UsedOk, SpanOk, Survives;
    forall j, m | 0 <= j < |ents| && 0 <= m < |ents[j].spans| && ents[j].segId == id
      ensures Survives(s, ents[j].spans[m]) <==>
        forall i: nat :: i in Orphans(s.chunks) ==> Covers(ents[j].spans[m], i) == 0
    {
      SpanSurvives(ents, j, m, s, retired);
    }
    forall j, i: nat | 0 <= j < |ents|
      ensures CountSpans(ents[j].spans, i) == 0 <==>
        forall m :: 0 <= m < |ents[j].spans| ==> Covers(ents[j].spans[m], i) == 0
    {
      CountNothing(ents[j].spans, i);
    }
    assert AvoidsRetired(ents, map[id := Orphans(s.chunks)]) <==>
      forall j, i: nat :: 0 <= j < |ents| && ents[j].segId == id && i in Orphans(s.chunks) ==>
        CountSpans(ents[j].spans, i) == 0;
    if ListSurvives(ents, id, s) {
      forall j, i: nat | 0 <= j < |ents| && ents[j].segId == id && i in Orphans(s.chunks)
        ensures CountSpans(ents[j].spans, i) == 0
      {
        forall m | 0 <= m < |ents[j].spans| ensures Covers(ents[j].spans[m], i) == 0 {
          assert Survives(s, ents[j].spans[m]);
        }
      }
    }
  }

  lemma LiveNone(chunks: seq<Chunk>, span: Span)
    requires span.begin < span.end <= |chunks|
    ensures LiveRange(chunks, span.begin, span.end) <==> forall i: nat :: i in Orphans(chunks) ==> Covers(span, i) == 0
  {
    if !LiveRange(chunks, span.begin, span.end) {
      var i :| span.begin <= i < span.end && chunks[i].IsOrphan();
      assert i in Orphans(chunks) && Covers(span, i) == 1;
    }
  }

  lemma SpanSurvives(ents: seq<Entry>, j: nat, m: nat, s: Segment, retired: set<nat>)
    requires j < |ents| && m < |ents[j].spans| && AvoidsRetired(ents, map[ents[j].segId := retired])
    requires Tiled(s, retired) && UsedOk(s) && SpanOk(ents[j].spans[m], s.View())
    ensures Survives(s, ents[j].spans[m]) <==>
      forall i: nat :: i in Orphans(s.chunks) ==> Covers(ents[j].spans[m], i) == 0
  {
    hide Tiled, UsedOk, SpanOk, Survives;
    var span := ents[j].spans[m];
    RangeInside(span, s.View());
    forall i: nat | i in retired ensures Covers(span, i) == 0 {
      CountNothing(ents[j].spans, i);
    }
    SurvivesIffLive(s, retired, span);
    LiveNone(s.chunks, span);
  }

  lemma {:induction false} CountLinked(lists: seq<seq<Entry>>, k: nat, id: Eid, i: nat)
    requires k < |lists|
    ensures CountEnts(lists[k], id, i) <= CountLists(lists, id, i)
    decreases |lists|
  {
    if k < |lists| - 1 {
      CountLinked(lists[..|lists| - 1], k, id, i);
    }
  }

  /** A linked content names no retired chunk. */
  lemma LinkedAvoids(segs: Segs, retired: map<Eid, set<nat>>, lists: seq<seq<Entry>>, k: nat)
    requires AllTiled(segs, retired) && Conserved(segs, lists) && k < |lists| && RefsIn(lists[k], segs)
    ensures AvoidsRetired(lists[k], retired)
  {
    var ents := lists[k];
    forall j, i: nat | 0 <= j < |ents| && ents[j].segId in retired && i in retired[ents[j].segId]
      ensures CountSpans(ents[j].spans, i) == 0
    {
      var id := ents[j].segId;
      assert Placed(segs[id].chunks, retired[id], i);
      CountEntsAt(ents, j, i);
      CountLinked(lists, k, id, i);
    }
  }

  /** Right after a compaction all the data is in use, so that counting up a dropped
      chunk fails the assertion. */
  lemma FreshlyShrunk(s: Segment, r: Segment, i: nat, n: nat -> nat)
    requires Inside(s) && ShrunkTo(s, r) && i < |s.chunks| && s.chunks[i].IsOrphan() && n(i) > 0
    ensures !CanRaise(r, n)
  {
    hide Moved;
    ShrinkCounted(s, r);
    assert ChunkInside(s, i) && ShrunkAt(s, r.chunks, r.data, i);
    var one := r.chunks[i := r.chunks[i].(refcnt := n(i))];
    UsedUpdate(r.chunks, i, one[i]);
    UsedGrows(one, Lifted(r.chunks, n));
  }

  // chunks of the smallest and of the largest size the chunker cuts; the first four
  // are no longer referenced
  function Old(a: Bytes, f: Bytes, g: Bytes, e: Bytes, b: Bytes, c: Bytes): Segment {
    Segment(4 * MIN_SIZE + 2 * MAX_SIZE, 2 * MIN_SIZE,
            [Chunk(0, MIN_SIZE, 0), Chunk(MIN_SIZE, MAX_SIZE, 0), Chunk(MIN_SIZE + MAX_SIZE, MAX_SIZE, 0),
             Chunk(MIN_SIZE + 2 * MAX_SIZE, MIN_SIZE, 0), Chunk(2 * MIN_SIZE + 2 * MAX_SIZE, MIN_SIZE, 1),
             Chunk(3 * MIN_SIZE + 2 * MAX_SIZE, MIN_SIZE, 1)],
            a + f + g + e + b + c)
  }

  // the same segment compacted
  function Compacted(b: Bytes, c: Bytes): Segment {
    Segment(2 * MIN_SIZE, 2 * MIN_SIZE,
            [Chunk(0, MIN_SIZE, 0), Chunk(MIN_SIZE, MAX_SIZE, 0), Chunk(MIN_SIZE + MAX_SIZE, MAX_SIZE, 0),
             Chunk(MIN_SIZE + 2 * MAX_SIZE, MIN_SIZE, 0), Chunk(0, MIN_SIZE, 1), Chunk(MIN_SIZE, MIN_SIZE, 1)],
            b + c)
  }

  ghost predicate Sizes(a: Bytes, f: Bytes, g: Bytes, e: Bytes, b: Bytes, c: Bytes) {
    |a| == |e| == |b| == |c| == MIN_SIZE && |f| == |g| == MAX_SIZE
  }

  lemma SixUsed(cs: seq<Chunk>)
    requires |cs| == 6 && (forall i :: 0 <= i < 4 ==> cs[i].IsOrphan()) && !cs[4].IsOrphan()
    ensures UsedLen(cs[..4]) == 0 && UsedLen(cs[..5]) == cs[4].len && UsedLen(cs) == cs[4].len + LiveLenOf(cs[5])
  {
    assert cs[..1][..0] == [] && cs[..2][..1] == cs[..1] && cs[..3][..2] == cs[..2];
    assert cs[..4][..3] == cs[..3] && cs[..5][..4] == cs[..4];
    assert UsedLen(cs[..1]) == 0 && UsedLen(cs[..2]) == 0 && UsedLen(cs[..3]) == 0;
  }

  lemma OldTiles(a: Bytes, f: Bytes, g: Bytes, e: Bytes, b: Bytes, c: Bytes)
    requires Sizes(a, f, g, e, b, c)
    ensures Tiled(Old(a, f, g, e, b, c), {})
  {
    var cs := Old(a, f, g, e, b, c).chunks;
    assert Before(cs, {}, 1) == MIN_SIZE && Before(cs, {}, 2) == MIN_SIZE + MAX_SIZE;
    assert Before(cs, {}, 3) == MIN_SIZE + 2 * MAX_SIZE && Before(cs, {}, 4) == 2 * MIN_SIZE + 2 * MAX_SIZE;
    assert Before(cs, {}, 5) == 3 * MIN_SIZE + 2 * MAX_SIZE && Before(cs, {}, 6) == 4 * MIN_SIZE + 2 * MAX_SIZE;
  }

  lemma OldData(a: Bytes, f: Bytes, g: Bytes, e: Bytes, b: Bytes, c: Bytes)
    requires Sizes(a, f, g, e, b, c)
    ensures var (data, at) := (Old(a, f, g, e, b, c).data, MIN_SIZE + 2 * MAX_SIZE);
      && |data| == at + 3 * MIN_SIZE && data[..MIN_SIZE] == a && data[at..at + MIN_SIZE] == e
      && data[at + MIN_SIZE..at + 2 * MIN_SIZE] == b && data[at + 2 * MIN_SIZE..] == c
  {
  }

  lemma OldCompacts(a: Bytes, f: Bytes, g: Bytes, e: Bytes, b: Bytes, c: Bytes)
    requires Sizes(a, f, g, e, b, c)
    ensures var s := Old(a, f, g, e, b, c); UsedOk(s) && s.IsShrinkable() && ShrunkTo(s, Compacted(b, c))
  {
    var s, r := Old(a, f, g, e, b, c), Compacted(b, c);
    SixUsed(s.chunks);
    OldData(a, f, g, e, b, c);
    forall i | 0 <= i < 6 ensures ShrunkAt(s, r.chunks, r.data, i) {
    }
  }

  /** What goes wrong otherwise. A segment is compacted, and one more chunk of it given
      up. A span over a dropped chunk can then be linked again: one denotes another
      chunk's bytes, one is no longer well formed, and one fails the assertion. */
  lemma RetiredMisread(a: Bytes, f: Bytes, g: Bytes, e: Bytes, b: Bytes, c: Bytes)
    requires Sizes(a, f, g, e, b, c) && a != b
    ensures var (s, r) := (Old(a, f, g, e, b, c), Compacted(b, c));
      var (first, fourth) := (Span(0, 1, 0, MIN_SIZE, 0), Span(3, 4, 0, MIN_SIZE, 0));
      && Tiled(s, {}) && UsedOk(s) && s.IsShrinkable() && ShrunkTo(s, r)
      && UsedOk(r) && r.DerefChunk(5).Some?
      && var t := r.DerefChunk(5).value;
      && !t.IsOrphan() && !t.IsShrinkable()
      && t.RefChunk(0).Some? && t.RefChunk(1) == None && t.RefChunk(3).Some?
      && SpanOk(first, s.View()) && SpanBytes(first, s.View()) == a
      && SpanOk(fourth, s.View()) && SpanBytes(fourth, s.View()) == e
      && SpanOk(first, t.RefChunk(0).value.View()) && SpanBytes(first, t.RefChunk(0).value.View()) == b
      && !SpanOk(fourth, t.RefChunk(3).value.View())
  {
    OldTiles(a, f, g, e, b, c);
    OldCompacts(a, f, g, e, b, c);
    OldData(a, f, g, e, b, c);
    SixUsed(Compacted(b, c).chunks);
  }
}
