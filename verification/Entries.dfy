/** Entry lists: a content as runs of spans, one entry per run in one segment.

    The same for an entry and its spans as `EntryLists` has for a list and its
    entries: cuts keep a well-formed entry and the bytes on one side, and
    appending a span, merged or not, appends its bytes. Both share the
    arithmetic of extents laid end to end. */
module Entries {
  import opened Basics
  import opened Extents
  import opened Spans

  type Store = map<Eid, SegView>

  datatype Entry = Entry(segId: Eid, len: nat, offset: nat, spans: seq<Span>) {
    function EndOffset(): nat { offset + len }

    predicate Continues(span: Span) {
      spans != [] && spans[|spans| - 1].end == span.begin && span.segOffset == 0
    }

    // append a span, merging it with the last one if it continues that
    function Append(span: Span): Entry {
      if Continues(span) then
        this.(spans := spans[..|spans| - 1] + [spans[|spans| - 1].MergeUp(span)], len := len + span.len)
      else
        this.(spans := spans + [span], len := len + span.len)
    }

    /** Keep what is before `at`. */
    function CutOff(at: nat, seg: SegView): Entry
      requires EntryOk(this, seg) && offset <= at <= EndOffset()
    {
      SpanLocated(this, at, seg);
      var pos := LocateSpan(spans, at, 0);
      var kept := spans[pos].CutOff(at, seg.chunks).0;
      var head := spans[..pos] + (if kept.len == 0 then [] else [kept]);
      this.(len := at - offset, spans := if at == offset then [] else head)
    }

    /** Keep what is from `at` on. */
    function CutTo(at: nat, seg: SegView): Entry
      requires EntryOk(this, seg) && offset <= at <= EndOffset()
    {
      SpanLocated(this, at, seg);
      var pos := LocateSpan(spans, at, 0);
      var kept := spans[pos].CutTo(at, seg.chunks).0;
      var tail := (if kept.len == 0 then [] else [kept]) + spans[pos + 1..];
      Entry(segId, EndOffset() - at, at, if at == EndOffset() then [] else tail)
    }
  }

  function LocateSpan(spans: seq<Span>, at: nat, from: nat): nat
    requires from <= |spans|
    decreases |spans| - from
  {
    if from == |spans| then 0
    else if spans[from].offset <= at <= spans[from].EndOffset() then from
    else LocateSpan(spans, at, from + 1)
  }

  function LocateEntry(ents: seq<Entry>, at: nat, from: nat): nat
    requires from <= |ents|
    decreases |ents| - from
  {
    if from == |ents| then 0
    else if ents[from].offset <= at <= ents[from].EndOffset() then from
    else LocateEntry(ents, at, from + 1)
  }

  function SpanExtents(spans: seq<Span>, seg: SegView): (r: seq<Extent>)
    ensures |r| == |spans|
    ensures forall i :: 0 <= i < |r| ==> r[i] == Extent(spans[i].offset, SpanBytes(spans[i], seg))
  {
    seq(|spans|, i requires 0 <= i < |spans| => Extent(spans[i].offset, SpanBytes(spans[i], seg)))
  }

  ghost predicate SpansOk(spans: seq<Span>, seg: SegView) {
    forall i :: 0 <= i < |spans| ==> SpanOk(spans[i], seg)
  }

  /** A non-empty entry whose spans are laid end to end and sum up to its length. */
  ghost predicate EntryOk(e: Entry, seg: SegView) {
    && e.spans != [] && SpansOk(e.spans, seg)
    && Chain(SpanExtents(e.spans, seg), e.offset)
    && e.len == |Cat(SpanExtents(e.spans, seg))|
  }

  /** The bytes an entry denotes. */
  function EntryBytes(e: Entry, seg: SegView): Bytes {
    Cat(SpanExtents(e.spans, seg))
  }

  lemma {:induction false} LocateSpanIs(spans: seq<Span>, seg: SegView, at: nat, from: nat)
    requires SpansOk(spans, seg) && from <= |spans|
    ensures LocateSpan(spans, at, from) == LocateFrom(SpanExtents(spans, seg), at, from)
    decreases |spans| - from
  {
    if from < |spans| {
      SpanBytesLen(spans[from], seg);
      LocateSpanIs(spans, seg, at, from + 1);
    }
  }

  lemma SpanBytesLen(s: Span, seg: SegView)
    requires SpanOk(s, seg)
    ensures |SpanBytes(s, seg)| == s.len
  {
    CutOffKeeps(s, s.offset, seg);
  }

  lemma SpanLocated(e: Entry, at: nat, seg: SegView)
    requires EntryOk(e, seg) && e.offset <= at <= e.EndOffset()
    ensures var pos := LocateSpan(e.spans, at, 0);
      && pos < |e.spans| && SpanOk(e.spans[pos], seg) && SpanShape(e.spans[pos], seg.chunks)
      && e.spans[pos].offset <= at <= e.spans[pos].EndOffset()
  {
    LocateSpanIs(e.spans, seg, at, 0);
    Located(SpanExtents(e.spans, seg), e.offset, at);
    SpanBytesLen(e.spans[LocateSpan(e.spans, at, 0)], seg);
  }

  lemma CatNone()
    ensures Cat([]) == []
  {
  }

  lemma SpanExtentsCat(a: seq<Span>, b: seq<Span>, seg: SegView)
    ensures SpanExtents(a + b, seg) == SpanExtents(a, seg) + SpanExtents(b, seg)
  {
  }

  lemma SpanExtentsCut(spans: seq<Span>, i: nat, seg: SegView)
    requires i <= |spans|
    ensures SpanExtents(spans[..i], seg) == SpanExtents(spans, seg)[..i]
    ensures SpanExtents(spans[i..], seg) == SpanExtents(spans, seg)[i..]
  {
  }

  lemma SpansCutOff(e: Entry, at: nat, seg: SegView, pos: nat, kept: Span, head: seq<Span>)
    requires EntryOk(e, seg) && e.offset <= at <= e.EndOffset()
    requires pos == LocateSpan(e.spans, at, 0) < |e.spans|
    requires SpanOk(e.spans[pos], seg) && e.spans[pos].offset <= at <= e.spans[pos].EndOffset()
    requires kept == e.spans[pos].CutOff(at, seg.chunks).0
    requires head == e.spans[..pos] + (if kept.len == 0 then [] else [kept])
    ensures SpansOk(head, seg) && Chain(SpanExtents(head, seg), e.offset)
    ensures Cat(SpanExtents(head, seg)) == EntryBytes(e, seg)[..at - e.offset]
  {
    hide Chain, Cat, SpanBytes, SpanOk, SpanShape, LocateFrom, LocateSpan;
    LocateSpanIs(e.spans, seg, at, 0);
    CutOffKeeps(e.spans[pos], at, seg);
    SplitOffBytes(SpanExtents(e.spans, seg), e.offset, at, Extent(kept.offset, SpanBytes(kept, seg)));
    SpanExtentsCut(e.spans, pos, seg);
    SpanExtentsCat(e.spans[..pos], [kept], seg);
    assert SpanExtents([kept], seg) == [Extent(kept.offset, SpanBytes(kept, seg))];
    assert e.spans[..pos] + [] == e.spans[..pos];
  }

  lemma SpansCutTo(e: Entry, at: nat, seg: SegView, pos: nat, kept: Span, tail: seq<Span>)
    requires EntryOk(e, seg) && e.offset <= at <= e.EndOffset()
    requires pos == LocateSpan(e.spans, at, 0) < |e.spans|
    requires SpanOk(e.spans[pos], seg) && e.spans[pos].offset <= at <= e.spans[pos].EndOffset()
    requires kept == e.spans[pos].CutTo(at, seg.chunks).0
    requires tail == (if kept.len == 0 then [] else [kept]) + e.spans[pos + 1..]
    ensures SpansOk(tail, seg) && Chain(SpanExtents(tail, seg), at)
    ensures Cat(SpanExtents(tail, seg)) == EntryBytes(e, seg)[at - e.offset..]
  {
    hide Chain, Cat, SpanBytes, SpanOk, SpanShape, LocateFrom, LocateSpan;
    LocateSpanIs(e.spans, seg, at, 0);
    CutToKeeps(e.spans[pos], at, seg);
    var keptBytes := if kept.len == 0 then [] else SpanBytes(kept, seg);
    SplitToBytes(SpanExtents(e.spans, seg), e.offset, at, Extent(at, keptBytes));
    SpanExtentsCut(e.spans, pos + 1, seg);
    SpanExtentsCat([kept], e.spans[pos + 1..], seg);
    assert SpanExtents([kept], seg) == [Extent(kept.offset, SpanBytes(kept, seg))];
    assert [] + e.spans[pos + 1..] == e.spans[pos + 1..];
  }

  /** Cutting an entry off keeps a well-formed entry and the bytes before the cut. */
  lemma EntryCutOffKeeps(e: Entry, at: nat, seg: SegView)
    requires EntryOk(e, seg) && e.offset <= at <= e.EndOffset()
    ensures var kept := e.CutOff(at, seg);
      && kept.offset == e.offset && kept.len == at - e.offset && kept.segId == e.segId
      && EntryBytes(kept, seg) == EntryBytes(e, seg)[..at - e.offset]
      && (at > e.offset ==> EntryOk(kept, seg))
  {
    hide Chain, Cat, SpanBytes, SpanOk, SpanShape, LocateFrom, LocateSpan;
    CatNone();
    SpanLocated(e, at, seg);
    var pos := LocateSpan(e.spans, at, 0);
    var kept := e.spans[pos].CutOff(at, seg.chunks).0;
    SpansCutOff(e, at, seg, pos, kept, e.spans[..pos] + (if kept.len == 0 then [] else [kept]));
    assert SpanExtents([], seg) == [];
  }

  /** Cutting an entry up to a position keeps a well-formed entry and the bytes
      from there on. */
  lemma EntryCutToKeeps(e: Entry, at: nat, seg: SegView)
    requires EntryOk(e, seg) && e.offset <= at <= e.EndOffset()
    ensures var kept := e.CutTo(at, seg);
      && kept.offset == at && kept.len == e.EndOffset() - at && kept.segId == e.segId
      && EntryBytes(kept, seg) == EntryBytes(e, seg)[at - e.offset..]
      && (at < e.EndOffset() ==> EntryOk(kept, seg))
  {
    hide Chain, Cat, SpanBytes, SpanOk, SpanShape, LocateFrom, LocateSpan;
    CatNone();
    SpanLocated(e, at, seg);
    var pos := LocateSpan(e.spans, at, 0);
    var kept := e.spans[pos].CutTo(at, seg.chunks).0;
    var tail := (if kept.len == 0 then [] else [kept]) + e.spans[pos + 1..];
    SpansCutTo(e, at, seg, pos, kept, tail);
    assert SpanExtents([], seg) == [];
    assert |EntryBytes(e, seg)[at - e.offset..]| == e.EndOffset() - at;
    if at < e.EndOffset() {
      assert e.CutTo(at, seg).spans == tail != [];
    }
  }

  // the span reaches the end of its last chunk
  ghost predicate EndsAtChunk(s: Span, seg: SegView) {
    s.begin < s.end <= |seg.chunks| && s.OffsetInSeg(seg.chunks) + s.len == seg.chunks[s.end - 1].EndPos()
  }

  // the span's first chunk lies right after the one before it
  ghost predicate Adjoins(s: Span, seg: SegView) {
    0 < s.begin < |seg.chunks| && seg.chunks[s.begin - 1].EndPos() == seg.chunks[s.begin].pos
  }

  /** Appending a span to an entry, merged or not, appends its bytes. */
  lemma EntryAppendJoins(e: Entry, span: Span, seg: SegView)
    requires (e.spans == [] && e.len == 0) || EntryOk(e, seg)
    requires SpanOk(span, seg) && EndsAtChunk(span, seg) && span.offset == e.EndOffset()
    requires e.spans != [] ==> EndsAtChunk(e.spans[|e.spans| - 1], seg)
    requires e.Continues(span) ==> Adjoins(span, seg)
    ensures EntryOk(e.Append(span), seg)
    ensures EntryBytes(e.Append(span), seg) == EntryBytes(e, seg) + SpanBytes(span, seg)
    ensures EndsAtChunk(e.Append(span).spans[|e.Append(span).spans| - 1], seg)
  {
    hide Chain, Cat, SpanBytes, SpanOk, EntryOk, EntryBytes;
    if e.Continues(span) {
      EntryMergeJoins(e, span, seg);
    } else {
      EntryPushJoins(e, span, seg);
    }
  }

  lemma EntryPushJoins(e: Entry, span: Span, seg: SegView)
    requires (e.spans == [] && e.len == 0) || EntryOk(e, seg)
    requires SpanOk(span, seg) && span.offset == e.EndOffset()
    ensures var r := e.(spans := e.spans + [span], len := e.len + span.len);
      EntryOk(r, seg) && EntryBytes(r, seg) == EntryBytes(e, seg) + SpanBytes(span, seg)
  {
    hide Chain, Cat, SpanBytes, SpanOk;
    CatNone();
    SpanBytesLen(span, seg);
    SpanOkLen(span, seg);
    if e.spans == [] {
      assert SpanExtents(e.spans, seg) == [];
      ChainNone(e.offset);
    }
    AppendExtent(e.spans, e.offset, span, seg);
  }

  lemma EntryMergeJoins(e: Entry, span: Span, seg: SegView)
    requires EntryOk(e, seg)
    requires SpanOk(span, seg) && EndsAtChunk(span, seg) && span.offset == e.EndOffset()
    requires EndsAtChunk(e.spans[|e.spans| - 1], seg)
    requires e.Continues(span) && Adjoins(span, seg)
    ensures var n := |e.spans|; var last := e.spans[n - 1].MergeUp(span);
      var r := e.(spans := e.spans[..n - 1] + [last], len := e.len + span.len);
      && EntryOk(r, seg) && EntryBytes(r, seg) == EntryBytes(e, seg) + SpanBytes(span, seg)
      && EndsAtChunk(last, seg)
  {
    hide Chain, Cat, SpanBytes, SpanOk, EndsAtChunk;
    var n := |e.spans|;
    var prev, front := e.spans[n - 1], e.spans[..n - 1];
    MergedSpan(prev, span, seg);
    var last := prev.MergeUp(span);
    LastExtent(e, seg);
    AppendExtent(front, e.offset, last, seg);
    var x := Cat(SpanExtents(front, seg));
    assert (x + SpanBytes(prev, seg)) + SpanBytes(span, seg) == x + (SpanBytes(prev, seg) + SpanBytes(span, seg));
    SpansOkFront(e.spans, n - 1, last, seg);
  }

  lemma SpansOkFront(spans: seq<Span>, n: nat, last: Span, seg: SegView)
    requires SpansOk(spans, seg) && n <= |spans| && SpanOk(last, seg)
    ensures SpansOk(spans[..n] + [last], seg)
  {
  }

  lemma MergedSpan(prev: Span, span: Span, seg: SegView)
    requires SpanOk(prev, seg) && SpanOk(span, seg) && EndsAtChunk(prev, seg) && EndsAtChunk(span, seg)
    requires prev.end == span.begin && span.segOffset == 0 && Adjoins(span, seg)
    ensures var last := prev.MergeUp(span);
      && SpanOk(last, seg) && EndsAtChunk(last, seg) && last.offset == prev.offset
      && SpanBytes(last, seg) == SpanBytes(prev, seg) + SpanBytes(span, seg) != []
      && |SpanBytes(span, seg)| == span.len
  {
    MergeUpJoins(prev, span, seg);
    SpanBytesLen(span, seg);
  }

  lemma SpanOkLen(s: Span, seg: SegView)
    requires SpanOk(s, seg)
    ensures s.len > 0
  {
  }

  lemma ChainNone(off: nat)
    ensures Chain([], off)
  {
  }

  lemma LastExtent(e: Entry, seg: SegView)
    requires EntryOk(e, seg)
    ensures var n := |e.spans|; var front := SpanExtents(e.spans[..n - 1], seg);
      && Chain(front, e.offset) && Cat(front) + SpanBytes(e.spans[n - 1], seg) == EntryBytes(e, seg)
      && e.spans[n - 1].offset == e.offset + |Cat(front)|
  {
    hide Chain, Cat, SpanBytes;
    CatNone();
    var xs, n := SpanExtents(e.spans, seg), |e.spans|;
    ChainAt(xs, e.offset, n - 1);
    CatAround(xs, n - 1);
    ChainAround(xs, e.offset, n - 1);
    SpanExtentsCut(e.spans, n - 1, seg);
    assert xs[n..] == [];
  }

  lemma AppendExtent(spans: seq<Span>, off: nat, span: Span, seg: SegView)
    requires SpanBytes(span, seg) != []
    requires Chain(SpanExtents(spans, seg), off) && span.offset == off + |Cat(SpanExtents(spans, seg))|
    ensures Chain(SpanExtents(spans + [span], seg), off)
    ensures Cat(SpanExtents(spans + [span], seg)) == Cat(SpanExtents(spans, seg)) + SpanBytes(span, seg)
  {
    hide Chain, Cat, SpanBytes;
    var x := Extent(span.offset, SpanBytes(span, seg));
    SpanExtentsCat(spans, [span], seg);
    assert SpanExtents([span], seg) == [x];
    ChainOne(x);
    ChainAppend(SpanExtents(spans, seg), [x], off);
  }
}
