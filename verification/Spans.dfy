/** Spans: continuous areas of a segment, cut at chunk boundaries. */
module Spans {
  import opened Basics

  datatype Chunk = Chunk(pos: nat, len: nat, refcnt: nat) {
    function EndPos(): nat { pos + len }

    predicate IsOrphan() { refcnt == 0 }
  }

  /** What a span can see of a segment: its chunk table and its data. */
  datatype SegView = SegView(chunks: seq<Chunk>, data: Bytes)

  datatype Span = Span(begin: nat, end: nat, segOffset: nat, len: nat, offset: nat) {
    function EndOffset(): nat { offset + len }

    function OffsetInSeg(chunks: seq<Chunk>): nat
      requires begin < |chunks|
    {
      chunks[begin].pos + segOffset
    }

    // the chunk holding content position `at`, and that position in the segment
    function Locate(at: nat, chunks: seq<Chunk>): (r: (nat, nat))
      requires begin < end <= |chunks| && offset <= at <= EndOffset()
    {
      var segAt := OffsetInSeg(chunks) + at - offset;
      (FindChunk(chunks, begin, end, segAt), segAt)
    }

    function AlignUp(at: nat, chunks: seq<Chunk>): (r: (nat, nat))
      requires SpanShape(this, chunks) && offset <= at <= EndOffset()
    {
      LocateInside(this, at, chunks);
      var (idx, segAt) := Locate(at, chunks);
      if segAt == chunks[idx].pos then (idx, at)
      else (idx + 1, at + chunks[idx].EndPos() - segAt)
    }

    // the second component never goes below zero because a span starts at most
    // `offset` bytes into its first chunk
    function AlignDown(at: nat, chunks: seq<Chunk>): (r: (nat, nat))
      requires SpanShape(this, chunks) && offset <= at <= EndOffset()
    {
      LocateInside(this, at, chunks);
      var (idx, segAt) := Locate(at, chunks);
      if segAt == chunks[idx].EndPos() then (idx + 1, at)
      else (idx, at + chunks[idx].pos - segAt)
    }

    /** Cut everything from `at` on; returns what is kept and what is cut off. */
    function CutOff(at: nat, chunks: seq<Chunk>): (Span, Span)
      requires SpanShape(this, chunks) && offset <= at <= EndOffset()
    {
      var (alignIdx, alignAt) := AlignUp(at, chunks);
      (this.(end := alignIdx, len := at - offset),
       Span(alignIdx, end, 0, if EndOffset() > alignAt then EndOffset() - alignAt else 0, alignAt))
    }

    /** Cut everything before `at`; returns what is kept and what is cut off. */
    function CutTo(at: nat, chunks: seq<Chunk>): (Span, Span)
      requires SpanShape(this, chunks) && offset <= at <= EndOffset()
    {
      LocateInside(this, at, chunks);
      var (alignIdx, alignAt) := AlignDown(at, chunks);
      (Span(alignIdx, end, at - alignAt, len - (at - offset), at),
       this.(end := alignIdx, len := if alignAt > offset then alignAt - offset else 0))
    }

    // extend by the span that continues this one in the segment
    function MergeUp(up: Span): Span
      requires end == up.begin && up.segOffset == 0
    {
      this.(end := up.end, len := len + up.len)
    }
  }

  // first chunk of begin..end whose range, both ends included, has segAt
  function FindChunk(chunks: seq<Chunk>, begin: nat, end: nat, segAt: nat): nat
    requires begin <= end <= |chunks|
    decreases end - begin
  {
    if begin == end then end
    else if chunks[begin].pos <= segAt <= chunks[begin].EndPos() then begin
    else FindChunk(chunks, begin + 1, end, segAt)
  }

  ghost predicate Contiguous(chunks: seq<Chunk>, begin: nat, end: nat) {
    && begin <= end <= |chunks|
    && (forall i :: begin <= i < end ==> chunks[i].len > 0)
    && (forall i, j :: begin <= i < end && j == i + 1 < end ==> chunks[i].EndPos() == chunks[j].pos)
  }

  /** The span starts in its first chunk, ends in its last one, and the chunks
      between lie one after the other. */
  ghost predicate SpanShape(s: Span, chunks: seq<Chunk>) {
    && s.begin < s.end <= |chunks| && s.len > 0
    && Contiguous(chunks, s.begin, s.end)
    && s.segOffset <= s.offset && s.segOffset < chunks[s.begin].len
    && chunks[s.end - 1].pos < s.OffsetInSeg(chunks) + s.len <= chunks[s.end - 1].EndPos()
  }

  ghost predicate SpanOk(s: Span, seg: SegView) {
    SpanShape(s, seg.chunks) && seg.chunks[s.end - 1].EndPos() <= |seg.data|
  }

  /** The bytes a span denotes. */
  function SpanBytes(s: Span, seg: SegView): Bytes {
    if s.begin < |seg.chunks| && s.OffsetInSeg(seg.chunks) + s.len <= |seg.data| then
      seg.data[s.OffsetInSeg(seg.chunks)..s.OffsetInSeg(seg.chunks) + s.len]
    else []
  }

  lemma {:induction false} PositionsGrow(chunks: seq<Chunk>, begin: nat, end: nat, i: nat, j: nat)
    requires Contiguous(chunks, begin, end) && begin <= i < j < end
    ensures chunks[i].EndPos() <= chunks[j].pos
    decreases j - i
  {
    if i + 1 < j {
      PositionsGrow(chunks, begin, end, i + 1, j);
    }
  }

  lemma {:induction false} FindChunkHits(chunks: seq<Chunk>, begin: nat, end: nat, segAt: nat)
    requires begin < end && Contiguous(chunks, begin, end)
    requires chunks[begin].pos <= segAt <= chunks[end - 1].EndPos()
    ensures begin <= FindChunk(chunks, begin, end, segAt) < end
    ensures var c := chunks[FindChunk(chunks, begin, end, segAt)];
      c.pos <= segAt <= c.EndPos()
    ensures var idx := FindChunk(chunks, begin, end, segAt);
      idx > begin ==> segAt > chunks[idx].pos
    decreases end - begin
  {
    if segAt > chunks[begin].EndPos() {
      FindChunkHits(chunks, begin + 1, end, segAt);
    }
  }

  lemma LocateInside(s: Span, at: nat, chunks: seq<Chunk>)
    requires SpanShape(s, chunks) && s.offset <= at <= s.EndOffset()
    ensures var (idx, segAt) := s.Locate(at, chunks);
      && s.begin <= idx < s.end
      && chunks[idx].pos <= segAt <= chunks[idx].EndPos()
      && (idx > s.begin ==> segAt > chunks[idx].pos)
      && chunks[s.begin].pos <= chunks[idx].pos
      && segAt <= at + chunks[idx].pos
  {
    var segAt := s.OffsetInSeg(chunks) + at - s.offset;
    FindChunkHits(chunks, s.begin, s.end, segAt);
    var idx := FindChunk(chunks, s.begin, s.end, segAt);
    if s.begin < idx {
      PositionsGrow(chunks, s.begin, s.end, s.begin, idx);
    }
  }

  /** What `cut_off` keeps is a span again and denotes the bytes before the cut. */
  lemma CutOffKeeps(s: Span, at: nat, seg: SegView)
    requires SpanOk(s, seg) && s.offset <= at <= s.EndOffset()
    ensures var kept := s.CutOff(at, seg.chunks).0;
      && kept.offset == s.offset && kept.len == at - s.offset
      && SpanBytes(kept, seg) == SpanBytes(s, seg)[..at - s.offset]
      && |SpanBytes(s, seg)| == s.len
      && (at > s.offset ==> SpanOk(kept, seg))
  {
    LocateInside(s, at, seg.chunks);
    var (idx, segAt) := s.Locate(at, seg.chunks);
    if idx < s.end - 1 {
      PositionsGrow(seg.chunks, s.begin, s.end, idx, s.end - 1);
    }
    var from := s.OffsetInSeg(seg.chunks);
    SubRange(seg.data, from, from + s.len, from, from + (at - s.offset));
  }

  lemma CutToShape(s: Span, at: nat, chunks: seq<Chunk>)
    requires SpanShape(s, chunks) && s.offset <= at < s.EndOffset()
    ensures var kept := s.CutTo(at, chunks).0;
      && SpanShape(kept, chunks) && kept.end == s.end
      && kept.OffsetInSeg(chunks) == s.OffsetInSeg(chunks) + (at - s.offset)
  {
    LocateInside(s, at, chunks);
  }

  /** What `cut_to` keeps is a span again and denotes the bytes from the cut on. */
  lemma CutToKeeps(s: Span, at: nat, seg: SegView)
    requires SpanOk(s, seg) && s.offset <= at <= s.EndOffset()
    ensures var kept := s.CutTo(at, seg.chunks).0;
      && |SpanBytes(s, seg)| == s.len
      && kept.offset == at && kept.len == s.EndOffset() - at
      && (at < s.EndOffset() ==> SpanOk(kept, seg) && SpanBytes(kept, seg) == SpanBytes(s, seg)[at - s.offset..])
  {
    if at < s.EndOffset() {
      CutToShape(s, at, seg.chunks);
    }
    hide Contiguous, FindChunk;
    var from := s.OffsetInSeg(seg.chunks);
    SubRange(seg.data, from, from + s.len, from + (at - s.offset), from + s.len);
  }

  /** Merging with the next span in the segment concatenates the bytes. */
  lemma MergeUpJoins(s: Span, up: Span, seg: SegView)
    requires SpanOk(s, seg) && SpanOk(up, seg)
    requires s.end == up.begin && up.segOffset == 0
    requires s.OffsetInSeg(seg.chunks) + s.len == seg.chunks[s.end - 1].EndPos() == seg.chunks[up.begin].pos
    ensures SpanOk(s.MergeUp(up), seg)
    ensures SpanBytes(s.MergeUp(up), seg) == SpanBytes(s, seg) + SpanBytes(up, seg)
  {
  }
}
