/** Reading a content back through its entries and spans. */
module ContentReader {
  import opened Basics
  import opened Extents
  import opened Spans
  import opened Entries
  import opened EntryLists

  lemma ExtentBytes(xs: seq<Extent>, off: nat, i: nat)
    requires Chain(xs, off) && i < |xs|
    ensures off <= xs[i].offset && xs[i].End() <= off + |Cat(xs)| && xs[i].bytes != []
    ensures Cat(xs)[xs[i].offset - off..xs[i].End() - off] == xs[i].bytes
    ensures i + 1 < |xs| ==> xs[i + 1].offset == xs[i].End()
    ensures i + 1 == |xs| ==> xs[i].End() == off + |Cat(xs)|
    ensures i == 0 ==> xs[i].offset == off
  {
    hide Chain, Cat;
    ChainAt(xs, off, i);
    CatAround(xs, i);
    ChainStep(xs, off, i);
  }

  /** Where entry i of a content lies, and which bytes it holds. */
  lemma EntryInList(len: nat, ents: seq<Entry>, store: Store, i: nat)
    requires ListOk(0, len, ents, store) && i < |ents|
    ensures ents[i].segId in store && EntryOk(ents[i], store[ents[i].segId])
    ensures ents[i].offset < ents[i].EndOffset() <= len == |ListBytes(ents, store)|
    ensures ListBytes(ents, store)[ents[i].offset..ents[i].EndOffset()] == EntryBytes(ents[i], store[ents[i].segId])
    ensures i + 1 < |ents| ==> ents[i + 1].offset == ents[i].EndOffset()
    ensures i + 1 == |ents| ==> ents[i].EndOffset() == len
    ensures i == 0 ==> ents[i].offset == 0
  {
    hide Chain, Cat, EntryOk, EntryBytes;
    ListLen(0, len, ents, store);
    ExtentBytes(EntryExtents(ents, store), 0, i);
    EntryLen(ents[i], store[ents[i].segId]);
  }

  lemma SpanInEntry(e: Entry, seg: SegView, j: nat)
    requires EntryOk(e, seg) && j < |e.spans|
    ensures SpanOk(e.spans[j], seg)
    ensures e.offset <= e.spans[j].offset < e.spans[j].EndOffset() <= e.EndOffset()
    ensures |EntryBytes(e, seg)| == e.len
    ensures EntryBytes(e, seg)[e.spans[j].offset - e.offset..e.spans[j].EndOffset() - e.offset] == SpanBytes(e.spans[j], seg)
    ensures j + 1 < |e.spans| ==> e.spans[j + 1].offset == e.spans[j].EndOffset()
    ensures j + 1 == |e.spans| ==> e.spans[j].EndOffset() == e.EndOffset()
    ensures j == 0 ==> e.spans[j].offset == e.offset
  {
    hide Chain, Cat, SpanOk, SpanBytes;
    var xs, s := SpanExtents(e.spans, seg), e.spans[j];
    assert SpanOk(s, seg);
    SpanBytesLen(s, seg);
    assert xs[j].offset == s.offset && xs[j].bytes == SpanBytes(s, seg) && xs[j].End() == s.EndOffset();
    assert j + 1 < |xs| ==> xs[j + 1].offset == e.spans[j + 1].offset;
    ExtentBytes(xs, e.offset, j);
  }

  class Reader {
    const ents: seq<Entry>
    const len: nat
    const store: Store
    var pos: nat

    ghost predicate Valid() {
      ListOk(0, len, ents, store)
    }

    ghost function Content(): Bytes {
      ListBytes(ents, store)
    }

    constructor (list: EntryList, store: Store)
      requires list.Ok(store) && list.offset == 0
      ensures Valid() && pos == 0
      ensures ents == list.ents && len == list.len && this.store == store
    {
      ents, len, this.store, pos := list.ents, list.len, store, 0;
    }

    method Seek(to: nat)
      modifies this
      ensures pos == to
    {
      pos := to;
    }

    /** A read of any size returns exactly the content's bytes at the position. */
    method Read(cap: nat) returns (buf: Bytes)
      requires Valid()
      modifies this
      ensures buf == Clip(Content(), old(pos), old(pos) + cap)
      ensures pos == old(pos) + |buf|
    {
      hide ListOk, ListBytes, EntryOk, EntryBytes, Clip;
      buf := [];
      WindowEnds(Content(), pos, cap);
      if cap == 0 {
        return;
      }
      ListLen(0, len, ents, store);
      var start := pos;
      var i := 0;
      if ents != [] {
        EntryInList(len, ents, store, 0);
      }
      // skip entries that end before the position
      while i < |ents| && ents[i].EndOffset() <= start
        invariant 0 <= i <= |ents| && pos == start
        invariant i < |ents| ==> ents[i].offset <= start
        invariant i == |ents| ==> len <= start
      {
        EntryInList(len, ents, store, i);
        if i + 1 < |ents| {
          EntryInList(len, ents, store, i + 1);
        }
        i := i + 1;
      }
      if i < |ents| {
        EntryInList(len, ents, store, i);
      }
      while i < |ents|
        invariant 0 <= i <= |ents|
        invariant |buf| <= cap && pos == start + |buf|
        invariant i < |ents| ==> ents[i].offset <= pos < ents[i].EndOffset()
        invariant i < |ents| ==> pos == start || pos == ents[i].offset
        invariant i == |ents| ==> pos >= len
        invariant buf == Clip(Content(), start, pos)
      {
        EntryInList(len, ents, store, i);
        var more := ReadEntry(ents[i], store[ents[i].segId], start, cap - |buf|);
        EntryWindow(len, ents, store, i, pos - |more|, pos);
        WindowJoin(Content(), start, pos - |more|, pos);
        buf := buf + more;
        if pos < ents[i].EndOffset() {
          return;
        }
        if i + 1 < |ents| {
          EntryInList(len, ents, store, i + 1);
        }
        i := i + 1;
      }
    }

    // read what one entry has, from the position on, into a buffer of `cap` bytes
    method ReadEntry(ent: Entry, seg: SegView, start: nat, cap: nat) returns (buf: Bytes)
      requires EntryOk(ent, seg) && start <= pos
      requires ent.offset <= pos < ent.EndOffset()
      requires pos == start || pos == ent.offset
      modifies this
      ensures pos == old(pos) + |buf| == Min(old(pos) + cap, ent.EndOffset())
      ensures buf == Clip(EntryBytes(ent, seg), old(pos) - ent.offset, pos - ent.offset)
    {
      hide EntryOk, SpanOk, EntryBytes, SpanBytes, Clip;
      buf := [];
      var j := 0;
      EntryLen(ent, seg);
      EntryHasSpans(ent, seg);
      WindowEnds(EntryBytes(ent, seg), pos - ent.offset, 0);
      // skip spans that end before the position
      while j < |ent.spans| && ent.spans[j].EndOffset() <= start
        invariant 0 <= j < |ent.spans| && ent.spans[j].offset <= pos
        invariant pos == old(pos) && (pos == start || j == 0)
      {
        SpanInEntry(ent, seg, j);
        j := j + 1;
      }
      SpanInEntry(ent, seg, j);
      while j < |ent.spans|
        invariant 0 <= j <= |ent.spans|
        invariant |buf| <= cap && pos == old(pos) + |buf| <= ent.EndOffset()
        invariant j < |ent.spans| ==> ent.spans[j].offset <= pos < ent.spans[j].EndOffset()
        invariant j == |ent.spans| ==> pos == ent.EndOffset()
        invariant buf == Clip(EntryBytes(ent, seg), old(pos) - ent.offset, pos - ent.offset)
      {
        SpanInEntry(ent, seg, j);
        var more := ReadSpan(ent.spans[j], seg, cap - |buf|);
        SpanWindow(ent, seg, j, pos - |more|, pos);
        WindowJoin(EntryBytes(ent, seg), old(pos) - ent.offset, pos - |more| - ent.offset, pos - ent.offset);
        buf := buf + more;
        if pos < ent.spans[j].EndOffset() {
          return;
        }
        if j + 1 < |ent.spans| {
          SpanInEntry(ent, seg, j + 1);
        }
        j := j + 1;
      }
    }

    // copy what one span has out of the segment data
    method ReadSpan(span: Span, seg: SegView, cap: nat) returns (buf: Bytes)
      requires SpanOk(span, seg) && span.offset <= pos < span.EndOffset()
      modifies this
      ensures pos == old(pos) + |buf| == Min(old(pos) + cap, span.EndOffset())
      ensures |SpanBytes(span, seg)| == span.len
      ensures buf == SpanBytes(span, seg)[old(pos) - span.offset..pos - span.offset]
    {
      hide Contiguous;
      buf := [];
      var overSpan := pos - span.offset;
      var segOffset := span.OffsetInSeg(seg.chunks) + overSpan;
      var spanLeft := span.len - overSpan;
      while spanLeft > 0
        invariant 0 <= spanLeft && |buf| <= cap && pos == old(pos) + |buf|
        invariant pos + spanLeft == span.EndOffset()
        invariant segOffset == span.OffsetInSeg(seg.chunks) + (pos - span.offset)
        invariant buf == SpanBytes(span, seg)[old(pos) - span.offset..pos - span.offset]
      {
        // no room left
        if |buf| == cap {
          return;
        }
        var readLen := Min(spanLeft, cap - |buf|);
        ghost var from := span.OffsetInSeg(seg.chunks);
        SubRange(seg.data, from, from + span.len, segOffset, segOffset + readLen);
        JoinRanges(SpanBytes(span, seg), old(pos) - span.offset, pos - span.offset, pos + readLen - span.offset);
        buf := buf + seg.data[segOffset..segOffset + readLen];
        segOffset := segOffset + readLen;
        spanLeft := spanLeft - readLen;
        pos := pos + readLen;
      }
    }
  }

  lemma WindowEnds(data: Bytes, from: nat, cap: nat)
    ensures Clip(data, from, from) == []
    ensures forall to :: from <= to <= from + cap && to >= |data| ==> Clip(data, from, to) == Clip(data, from, from + cap)
  {
  }

  lemma WindowJoin(data: Bytes, a: nat, b: nat, c: nat)
    requires a <= b <= c
    ensures Clip(data, a, b) + Clip(data, b, c) == Clip(data, a, c)
  {
  }

  lemma EntryWindow(len: nat, ents: seq<Entry>, store: Store, i: nat, a: nat, b: nat)
    requires ListOk(0, len, ents, store) && i < |ents| && ents[i].segId in store
    requires ents[i].offset <= a <= b <= ents[i].EndOffset()
    ensures Clip(EntryBytes(ents[i], store[ents[i].segId]), a - ents[i].offset, b - ents[i].offset)
         == Clip(ListBytes(ents, store), a, b)
  {
    hide ListOk, ListBytes, EntryBytes, EntryOk;
    EntryInList(len, ents, store, i);
    EntryLen(ents[i], store[ents[i].segId]);
    SubRange(ListBytes(ents, store), ents[i].offset, ents[i].EndOffset(), a, b);
  }

  lemma SpanWindow(e: Entry, seg: SegView, j: nat, a: nat, b: nat)
    requires EntryOk(e, seg) && j < |e.spans|
    requires e.spans[j].offset <= a <= b <= e.spans[j].EndOffset()
    ensures |SpanBytes(e.spans[j], seg)| == e.spans[j].len && e.offset <= e.spans[j].offset
    ensures SpanBytes(e.spans[j], seg)[a - e.spans[j].offset..b - e.spans[j].offset]
         == Clip(EntryBytes(e, seg), a - e.offset, b - e.offset)
  {
    hide SpanBytes, EntryBytes, EntryOk, SpanOk;
    SpanInEntry(e, seg, j);
    SpanBytesLen(e.spans[j], seg);
    var s := e.spans[j];
    SubRange(EntryBytes(e, seg), s.offset - e.offset, s.EndOffset() - e.offset, a - e.offset, b - e.offset);
  }

  lemma EntryHasSpans(e: Entry, seg: SegView)
    requires EntryOk(e, seg)
    ensures e.spans != [] && e.spans[0].offset == e.offset
  {
  }
}
