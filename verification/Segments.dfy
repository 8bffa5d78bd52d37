/** Segments: chunk tables with reference counts over one block of data, and
    their compaction. */
module Segments {
  import opened Basics
  import opened Spans
  import opened EntryLists

  const U32_MAX: nat := 0xffff_ffff

  datatype Segment = Segment(len: nat, used: nat, chunks: seq<Chunk>, data: Bytes) {
    predicate IsOrphan() { used == 0 }

    // used < len >> 2
    predicate IsShrinkable() { used < len / 4 }

    function View(): SegView { SegView(chunks, data) }

    function AppendChunk(bytes: Bytes): Segment {
      Segment(len + |bytes|, used, chunks + [Chunk(len, |bytes|, 0)], data + bytes)
    }

    /** None when the count would overflow, or the assertion that no more than the
        whole segment is used fails. */
    function RefChunk(idx: nat): Option<Segment>
      requires idx < |chunks|
    {
      var c := chunks[idx];
      if c.refcnt == U32_MAX || (c.refcnt == 0 && used + c.len > len) then None
      else Some(this.(chunks := chunks[idx := c.(refcnt := c.refcnt + 1)],
                      used := if c.refcnt == 0 then used + c.len else used))
    }

    /** None when the count would go below zero. */
    function DerefChunk(idx: nat): Option<Segment>
      requires idx < |chunks| && used == UsedLen(chunks)
    {
      var c := chunks[idx];
      if c.refcnt == 0 then None
      else
        UsedAt(chunks, idx);
        Some(this.(chunks := chunks[idx := c.(refcnt := c.refcnt - 1)],
                   used := if c.refcnt == 1 then used - c.len else used))
    }
  }

  function LiveLenOf(c: Chunk): nat { if c.IsOrphan() then 0 else c.len }

  /** Total length of the chunks with a positive count. */
  function UsedLen(chunks: seq<Chunk>): nat {
    if chunks == [] then 0
    else UsedLen(chunks[..|chunks| - 1]) + LiveLenOf(chunks[|chunks| - 1])
  }

  lemma {:induction false} UsedAt(chunks: seq<Chunk>, i: nat)
    requires i < |chunks|
    ensures UsedLen(chunks) >= LiveLenOf(chunks[i])
    decreases |chunks|
  {
    if i < |chunks| - 1 {
      UsedAt(chunks[..|chunks| - 1], i);
    }
  }

  lemma {:induction false} UsedUpdate(chunks: seq<Chunk>, i: nat, c: Chunk)
    requires i < |chunks|
    ensures UsedLen(chunks[i := c]) == UsedLen(chunks) - LiveLenOf(chunks[i]) + LiveLenOf(c)
    decreases |chunks|
  {
    var n := |chunks| - 1;
    if i < n {
      UsedUpdate(chunks[..n], i, c);
      assert chunks[i := c][..n] == chunks[..n][i := c];
    } else {
      assert chunks[i := c][..n] == chunks[..n];
    }
  }

  lemma {:induction false} UsedNone(chunks: seq<Chunk>)
    requires forall i :: 0 <= i < |chunks| ==> chunks[i].len > 0
    ensures UsedLen(chunks) == 0 <==> forall i :: 0 <= i < |chunks| ==> chunks[i].IsOrphan()
    decreases |chunks|
  {
    if chunks != [] {
      UsedNone(chunks[..|chunks| - 1]);
    }
  }

  lemma RefKeepsUsed(s: Segment, idx: nat)
    requires idx < |s.chunks| && s.used == UsedLen(s.chunks)
    ensures s.RefChunk(idx).Some? ==> s.RefChunk(idx).value.used == UsedLen(s.RefChunk(idx).value.chunks)
    ensures s.DerefChunk(idx).Some? ==> s.DerefChunk(idx).value.used == UsedLen(s.DerefChunk(idx).value.chunks)
  {
    var c := s.chunks[idx];
    UsedUpdate(s.chunks, idx, c.(refcnt := c.refcnt + 1));
    if c.refcnt > 0 {
      UsedUpdate(s.chunks, idx, c.(refcnt := c.refcnt - 1));
    }
  }

  // length of the first i chunks, without those in `retired`
  ghost function Before(chunks: seq<Chunk>, retired: set<nat>, i: nat): nat
    requires i <= |chunks|
  {
    if i == 0 then 0
    else Before(chunks, retired, i - 1) + if i - 1 in retired then 0 else chunks[i - 1].len
  }

  ghost predicate Placed(chunks: seq<Chunk>, retired: set<nat>, i: nat)
    requires i < |chunks|
  {
    && chunks[i].len > 0
    && (if i in retired then chunks[i].IsOrphan() else chunks[i].pos == Before(chunks, retired, i))
  }

  /** Chunks that no compaction has retired tile the data in order; retired ones
      are never referenced again, and their position is stale. */
  ghost predicate Tiled(s: Segment, retired: set<nat>) {
    && (forall i :: 0 <= i < |s.chunks| ==> Placed(s.chunks, retired, i))
    && (forall i :: i in retired ==> i < |s.chunks|)
    && s.len == |s.data| == Before(s.chunks, retired, |s.chunks|)
  }

  /** Every referenced chunk lies inside the data. This much is kept whatever is
      linked, as long as its spans lie inside the data too. */
  ghost predicate Inside(s: Segment) {
    && s.len == |s.data|
    && forall i :: 0 <= i < |s.chunks| ==> ChunkInside(s, i)
  }

  ghost predicate ChunkInside(s: Segment, i: nat)
    requires i < |s.chunks|
  {
    s.chunks[i].len > 0 && (s.chunks[i].IsOrphan() || s.chunks[i].EndPos() <= |s.data|)
  }

  lemma TiledInside(s: Segment, retired: set<nat>)
    requires Tiled(s, retired)
    ensures Inside(s)
  {
    hide Tiled;
    forall i | 0 <= i < |s.chunks| ensures ChunkInside(s, i) {
      if s.chunks[i].IsOrphan() {
        TiledAt(s, retired, i);
      } else {
        LiveInData(s, retired, i);
      }
    }
    TiledLen(s, retired);
  }

  lemma TiledAt(s: Segment, retired: set<nat>, i: nat)
    requires Tiled(s, retired) && i < |s.chunks|
    ensures s.chunks[i].len > 0
  {
    assert Placed(s.chunks, retired, i);
  }

  lemma TiledLen(s: Segment, retired: set<nat>)
    requires Tiled(s, retired)
    ensures s.len == |s.data|
  {
  }

  lemma {:induction false} BeforeGrows(chunks: seq<Chunk>, retired: set<nat>, i: nat, j: nat)
    requires i <= j <= |chunks|
    ensures Before(chunks, retired, i) <= Before(chunks, retired, j)
    decreases j
  {
    if i < j {
      BeforeGrows(chunks, retired, i, j - 1);
    }
  }

  lemma {:induction false} BeforeSame(a: seq<Chunk>, b: seq<Chunk>, retired: set<nat>, i: nat)
    requires i <= |a| && i <= |b|
    requires forall j :: 0 <= j < i ==> a[j].len == b[j].len
    ensures Before(a, retired, i) == Before(b, retired, i)
    decreases i
  {
    if i > 0 {
      BeforeSame(a, b, retired, i - 1);
    }
  }

  // what compaction does to one entry of the chunk table
  function Reposition(chunks: seq<Chunk>, i: nat): Chunk
    requires i < |chunks|
  {
    if chunks[i].IsOrphan() then chunks[i] else chunks[i].(pos := UsedLen(chunks[..i]))
  }

  /** The chunk's bytes in `data` are where the moved chunk says in `data'`. */
  ghost predicate Moved(c: Chunk, c': Chunk, data: Bytes, data': Bytes) {
    && c'.len == c.len && c.EndPos() <= |data| && c'.EndPos() <= |data'|
    && data'[c'.pos..c'.EndPos()] == data[c.pos..c.EndPos()]
  }

  lemma MovedGrows(c: Chunk, c': Chunk, data: Bytes, data': Bytes, more: Bytes)
    requires Moved(c, c', data, data')
    ensures Moved(c, c', data, data' + more)
  {
    assert (data' + more)[c'.pos..c'.EndPos()] == data'[c'.pos..c'.EndPos()];
  }

  ghost predicate ShrunkAt(s: Segment, chunks: seq<Chunk>, data: Bytes, i: nat)
    requires i < |s.chunks| == |chunks|
  {
    && chunks[i] == Reposition(s.chunks, i)
    && (s.chunks[i].IsOrphan() || Moved(s.chunks[i], chunks[i], s.data, data))
  }

  // the first n chunks have been visited by a compaction
  ghost predicate Shrunk(s: Segment, n: nat, chunks: seq<Chunk>, buf: Bytes) {
    && n <= |s.chunks| == |chunks|
    && |buf| == UsedLen(s.chunks[..n])
    && chunks[n..] == s.chunks[n..]
    && (forall i :: 0 <= i < n ==> ShrunkAt(s, chunks, buf, i))
  }

  lemma ShrunkStep(s: Segment, n: nat, chunks: seq<Chunk>, buf: Bytes)
    requires Inside(s) && n < |s.chunks| && Shrunk(s, n, chunks, buf)
    ensures chunks[n] == s.chunks[n]
    ensures s.chunks[n].IsOrphan() ==> Shrunk(s, n + 1, chunks, buf)
    ensures !s.chunks[n].IsOrphan() ==>
      && s.chunks[n].EndPos() <= |s.data|
      && var buf' := buf + s.data[s.chunks[n].pos..s.chunks[n].EndPos()];
         Shrunk(s, n + 1, chunks[n := s.chunks[n].(pos := |buf'| - s.chunks[n].len)], buf')
  {
    hide Moved;
    var c := s.chunks[n];
    assert ChunkInside(s, n);
    assert chunks[n..][0] == s.chunks[n..][0];
    assert chunks[n + 1..] == chunks[n..][1..] && s.chunks[n + 1..] == s.chunks[n..][1..];
    assert s.chunks[..n + 1][..n] == s.chunks[..n];
    if c.IsOrphan() {
      assert ShrunkAt(s, chunks, buf, n);
    } else {
      var more := s.data[c.pos..c.EndPos()];
      var chunks' := chunks[n := c.(pos := |buf|)];
      MovedHere(c, s.data, buf);
      assert chunks'[n + 1..] == chunks[n + 1..];
      forall i | 0 <= i < n + 1 ensures ShrunkAt(s, chunks', buf + more, i) {
        if i < n {
          assert ShrunkAt(s, chunks, buf, i);
          if !s.chunks[i].IsOrphan() {
            MovedGrows(s.chunks[i], chunks[i], s.data, buf, more);
          }
        }
      }
    }
  }

  lemma MovedHere(c: Chunk, data: Bytes, buf: Bytes)
    requires c.EndPos() <= |data|
    ensures Moved(c, c.(pos := |buf|), data, buf + data[c.pos..c.EndPos()])
  {
  }

  /** Rewrite the data with the referenced chunks only; returns the indices of
      the chunks that were dropped. */
  method Shrink(s: Segment) returns (r: Segment, dropped: seq<nat>)
    requires Inside(s) && s.used == UsedLen(s.chunks)
    ensures ShrunkTo(s, r)
    ensures forall i: nat :: i in dropped <==> i < |s.chunks| && s.chunks[i].IsOrphan()
  {
    hide Inside, ShrunkAt;
    var buf: Bytes := [];
    dropped := [];
    var chunks := s.chunks;
    var idx := 0;
    while idx < |s.chunks|
      invariant idx <= |s.chunks|
      invariant Shrunk(s, idx, chunks, buf)
      invariant forall i: nat :: i in dropped <==> i < idx && s.chunks[i].IsOrphan()
    {
      ShrunkStep(s, idx, chunks, buf);
      assert s.chunks[idx].IsOrphan() || s.chunks[idx].EndPos() <= |s.data|;
      var chunk := chunks[idx];
      if chunk.IsOrphan() {
        dropped := dropped + [idx];
      } else {
        buf := buf + s.data[chunk.pos..chunk.EndPos()];
        chunks := chunks[idx := chunk.(pos := |buf| - chunk.len)];
      }
      idx := idx + 1;
    }
    assert s.chunks[..idx] == s.chunks;
    r := Segment(s.used, s.used, chunks, buf);
  }

  lemma LiveInData(s: Segment, retired: set<nat>, i: nat)
    requires Tiled(s, retired) && i < |s.chunks| && !s.chunks[i].IsOrphan()
    ensures i !in retired && s.chunks[i].EndPos() <= |s.data|
    ensures s.chunks[i].pos == Before(s.chunks, retired, i) && s.chunks[i].len > 0
  {
    assert Placed(s.chunks, retired, i);
    BeforeGrows(s.chunks, retired, i + 1, |s.chunks|);
  }

  ghost function Orphans(chunks: seq<Chunk>): set<nat> {
    set i: nat | i < |chunks| && chunks[i].IsOrphan()
  }

  /** `r` is `s` after a compaction. */
  ghost predicate ShrunkTo(s: Segment, r: Segment) {
    && |r.data| == r.len == r.used == s.used == UsedLen(s.chunks)
    && |r.chunks| == |s.chunks|
    && forall i :: 0 <= i < |s.chunks| ==> ShrunkAt(s, r.chunks, r.data, i)
  }

  lemma {:induction false} BeforeIsUsed(s: Segment, r: Segment, i: nat)
    requires ShrunkTo(s, r) && i <= |s.chunks|
    ensures Before(r.chunks, Orphans(r.chunks), i) == UsedLen(s.chunks[..i])
    decreases i
  {
    if i > 0 {
      BeforeIsUsed(s, r, i - 1);
      assert ShrunkAt(s, r.chunks, r.data, i - 1);
      assert s.chunks[..i][..i - 1] == s.chunks[..i - 1];
    }
  }

  lemma {:induction false} UsedAgrees(a: seq<Chunk>, b: seq<Chunk>)
    requires |a| == |b| && forall i :: 0 <= i < |a| ==> LiveLenOf(a[i]) == LiveLenOf(b[i])
    ensures UsedLen(a) == UsedLen(b)
    decreases |a|
  {
    if a != [] {
      UsedAgrees(a[..|a| - 1], b[..|b| - 1]);
    }
  }

  /** Compaction leaves a well-formed segment, so it may be repeated at any time. */
  lemma ShrinkTiles(s: Segment, retired: set<nat>, r: Segment)
    requires Tiled(s, retired) && ShrunkTo(s, r)
    ensures Tiled(r, Orphans(r.chunks)) && r.used == UsedLen(r.chunks)
    ensures Orphans(r.chunks) == Orphans(s.chunks)
    ensures forall i :: 0 <= i < |s.chunks| ==>
      r.chunks[i].len == s.chunks[i].len && r.chunks[i].refcnt == s.chunks[i].refcnt
  {
    hide Moved;
    forall i | 0 <= i < |s.chunks|
      ensures Placed(r.chunks, Orphans(r.chunks), i)
      ensures r.chunks[i].len == s.chunks[i].len && r.chunks[i].refcnt == s.chunks[i].refcnt
    {
      assert ShrunkAt(s, r.chunks, r.data, i) && Placed(s.chunks, retired, i);
      BeforeIsUsed(s, r, i);
    }
    BeforeIsUsed(s, r, |s.chunks|);
    assert s.chunks[..|s.chunks|] == s.chunks;
    UsedAgrees(s.chunks, r.chunks);
  }

  /** A compaction loses nothing that is counted, and its result can be compacted. */
  lemma ShrinkCounted(s: Segment, r: Segment)
    requires Inside(s) && ShrunkTo(s, r)
    ensures Inside(r) && r.used == UsedLen(r.chunks) && |r.chunks| == |s.chunks|
    ensures forall i :: 0 <= i < |s.chunks| ==>
      r.chunks[i].len == s.chunks[i].len && r.chunks[i].refcnt == s.chunks[i].refcnt
  {
    forall i | 0 <= i < |s.chunks|
      ensures ChunkInside(r, i)
      ensures r.chunks[i].len == s.chunks[i].len && r.chunks[i].refcnt == s.chunks[i].refcnt
    {
      assert ChunkInside(s, i) && ShrunkAt(s, r.chunks, r.data, i);
    }
    UsedAgrees(s.chunks, r.chunks);
  }

  ghost predicate LiveRange(chunks: seq<Chunk>, begin: nat, end: nat) {
    begin <= end <= |chunks| && forall i :: begin <= i < end ==> !chunks[i].IsOrphan()
  }

  lemma LiveContiguous(s: Segment, r: Segment, begin: nat, end: nat)
    requires ShrunkTo(s, r) && LiveRange(s.chunks, begin, end) && Contiguous(s.chunks, begin, end)
    ensures Contiguous(r.chunks, begin, end)
  {
    hide Moved;
    forall i | begin <= i < end ensures r.chunks[i] == s.chunks[i].(pos := UsedLen(s.chunks[..i])) {
      assert ShrunkAt(s, r.chunks, r.data, i);
    }
    forall i, j | begin <= i < end && j == i + 1 < end ensures r.chunks[i].EndPos() == r.chunks[j].pos {
      assert s.chunks[..j][..i] == s.chunks[..i];
    }
  }

  /** Referenced chunks that lie one after the other still do, with the same bytes. */
  lemma {:induction false} RangeMoved(s: Segment, r: Segment, begin: nat, end: nat)
    requires ShrunkTo(s, r) && begin < end && LiveRange(s.chunks, begin, end)
    requires Contiguous(s.chunks, begin, end) && Contiguous(r.chunks, begin, end)
    ensures var (from, to, from', to') :=
        (s.chunks[begin].pos, s.chunks[end - 1].EndPos(), r.chunks[begin].pos, r.chunks[end - 1].EndPos());
      from <= to <= |s.data| && from' <= to' <= |r.data| && s.data[from..to] == r.data[from'..to']
    decreases end
  {
    assert ShrunkAt(s, r.chunks, r.data, end - 1);
    if begin + 1 < end {
      RangeMoved(s, r, begin, end - 1);
      var mid, mid' := s.chunks[end - 2].EndPos(), r.chunks[end - 2].EndPos();
      JoinRanges(s.data, s.chunks[begin].pos, mid, s.chunks[end - 1].EndPos());
      JoinRanges(r.data, r.chunks[begin].pos, mid', r.chunks[end - 1].EndPos());
    }
  }

  /** Compaction preserves meaning: a span whose chunks are all referenced is still
      a span and denotes the same bytes. */
  lemma ShrinkKeeps(s: Segment, r: Segment, span: Span)
    requires ShrunkTo(s, r) && LiveRange(s.chunks, span.begin, span.end)
    ensures Keeps(span, s.View(), r.View())
  {
    if SpanOk(span, s.View()) {
      LiveContiguous(s, r, span.begin, span.end);
      RangeMoved(s, r, span.begin, span.end);
      assert ShrunkAt(s, r.chunks, r.data, span.begin) && ShrunkAt(s, r.chunks, r.data, span.end - 1);
      ShrinkKeepsBytes(s, r, span);
    }
  }

  lemma ShrinkKeepsBytes(s: Segment, r: Segment, span: Span)
    requires SpanOk(span, s.View()) && |r.chunks| == |s.chunks|
    requires Contiguous(r.chunks, span.begin, span.end)
    requires r.chunks[span.begin].len == s.chunks[span.begin].len
    requires r.chunks[span.end - 1].len == s.chunks[span.end - 1].len
    requires var (from, to, from', to') :=
        (s.chunks[span.begin].pos, s.chunks[span.end - 1].EndPos(),
         r.chunks[span.begin].pos, r.chunks[span.end - 1].EndPos());
      from <= to <= |s.data| && from' <= to' <= |r.data| && s.data[from..to] == r.data[from'..to']
    ensures SpanOk(span, r.View()) && SpanBytes(span, r.View()) == SpanBytes(span, s.View())
  {
    hide Contiguous;
    var (from, to, from', to') :=
        (s.chunks[span.begin].pos, s.chunks[span.end - 1].EndPos(),
         r.chunks[span.begin].pos, r.chunks[span.end - 1].EndPos());
    assert to - from == |s.data[from..to]| == |r.data[from'..to']| == to' - from';
    SubRange(s.data, from, to, from + span.segOffset, from + span.segOffset + span.len);
    SubRange(r.data, from', to', from' + span.segOffset, from' + span.segOffset + span.len);
  }
}
