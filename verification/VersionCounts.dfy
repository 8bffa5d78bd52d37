/** How often a new version of a content names a chunk: a cut never names it more often,
    an overwrite at most once more for each span around the part overwritten. While no
    count comes near its maximum, every new version can be linked. */
module VersionCounts {
  import opened Basics
  import opened Spans
  import opened Entries
  import opened Coverage
  import opened EntryLists
  import opened Segments
  import opened References

  /** No chunk is named more than `n` times. */
  ghost predicate NamesAtMost(ents: seq<Entry>, n: nat) {
    forall id, i: nat :: CountEnts(ents, id, i) <= n
  }

  /** No count comes near its maximum, `n` more spans and those of two copies included. */
  ghost predicate RoomFor(segs: Segs, n: nat) {
    n <= U32_MAX && forall id, i: nat :: id in segs && i < |segs[id].chunks| ==> 3 * segs[id].chunks[i].refcnt + n <= U32_MAX
  }

  lemma {:induction false} CountSpansCat(a: seq<Span>, b: seq<Span>, i: nat)
    ensures CountSpans(a + b, i) == CountSpans(a, i) + CountSpans(b, i)
    decreases |b|
  {
    if b == [] {
      assert a + b == a;
    } else {
      CountSpansCat(a, b[..|b| - 1], i);
      assert (a + b)[..|a + b| - 1] == a + b[..|b| - 1];
    }
  }

  lemma {:induction false} CountEntsCat(a: seq<Entry>, b: seq<Entry>, id: Eid, i: nat)
    ensures CountEnts(a + b, id, i) == CountEnts(a, id, i) + CountEnts(b, id, i)
    decreases |b|
  {
    if b == [] {
      assert a + b == a;
    } else {
      CountEntsCat(a, b[..|b| - 1], id, i);
      assert (a + b)[..|a + b| - 1] == a + b[..|b| - 1];
    }
  }

  lemma CountOneSpan(s: Span, i: nat)
    ensures CountSpans([s], i) == Covers(s, i)
  {
    assert [s][..0] == [];
  }

  lemma CountOneEnt(e: Entry, id: Eid, i: nat)
    ensures CountEnts([e], id, i) == if e.segId == id then CountSpans(e.spans, i) else 0
  {
    assert [e][..0] == [];
  }

  // a part of one element of a list, with what is on one side of it
  lemma PartSpans(spans: seq<Span>, pos: nat, kept: Span, i: nat)
    requires pos < |spans| && spans[pos].begin <= kept.begin && kept.end <= spans[pos].end
    ensures CountSpans(spans[..pos], i) + Covers(kept, i) <= CountSpans(spans, i)
    ensures Covers(kept, i) + CountSpans(spans[pos + 1..], i) <= CountSpans(spans, i)
  {
    CountSpansCat(spans[..pos], [spans[pos]], i);
    CountSpansCat(spans[..pos] + [spans[pos]], spans[pos + 1..], i);
    CountOneSpan(spans[pos], i);
    assert spans == spans[..pos] + [spans[pos]] + spans[pos + 1..];
  }

  lemma PartEnts(ents: seq<Entry>, pos: nat, kept: Entry, id: Eid, i: nat)
    requires pos < |ents| && kept.segId == ents[pos].segId && CountSpans(kept.spans, i) <= CountSpans(ents[pos].spans, i)
    ensures CountEnts(ents[..pos] + [kept], id, i) <= CountEnts(ents, id, i)
    ensures CountEnts([kept] + ents[pos + 1..], id, i) <= CountEnts(ents, id, i)
    ensures CountEnts(ents[..pos], id, i) <= CountEnts(ents, id, i)
    ensures CountEnts(ents[pos + 1..], id, i) <= CountEnts(ents, id, i)
  {
    CountEntsCat(ents[..pos], [ents[pos]], id, i);
    CountEntsCat(ents[..pos] + [ents[pos]], ents[pos + 1..], id, i);
    CountEntsCat(ents[..pos], [kept], id, i);
    CountEntsCat([kept], ents[pos + 1..], id, i);
    CountOneEnt(ents[pos], id, i);
    CountOneEnt(kept, id, i);
    assert ents == ents[..pos] + [ents[pos]] + ents[pos + 1..];
  }

  lemma CutOffCounts(e: Entry, at: nat, seg: SegView, i: nat)
    requires EntryOk(e, seg) && e.offset <= at <= e.EndOffset()
    ensures CountSpans(e.CutOff(at, seg).spans, i) <= CountSpans(e.spans, i)
  {
    hide EntryOk, SpanOk, SpanShape, LocateSpan;
    SpanLocated(e, at, seg);
    var pos := LocateSpan(e.spans, at, 0);
    var kept := e.spans[pos].CutOff(at, seg.chunks).0;
    CutOffIn(e.spans[pos], at, seg);
    PartSpans(e.spans, pos, kept, i);
    CountSpansCat(e.spans[..pos], [kept], i);
    CountOneSpan(kept, i);
    assert e.spans[..pos] + [] == e.spans[..pos];
  }

  lemma CutToCounts(e: Entry, at: nat, seg: SegView, i: nat)
    requires EntryOk(e, seg) && e.offset <= at <= e.EndOffset()
    ensures CountSpans(e.CutTo(at, seg).spans, i) <= CountSpans(e.spans, i)
  {
    hide EntryOk, SpanOk, SpanShape, LocateSpan, Covers, Span.CutTo;
    SpanLocated(e, at, seg);
    var pos := LocateSpan(e.spans, at, 0);
    var kept := e.spans[pos].CutTo(at, seg.chunks).0;
    CutToIn(e.spans[pos], at, seg);
    PartSpans(e.spans, pos, kept, i);
    CountSpansCat([kept], e.spans[pos + 1..], i);
    CountOneSpan(kept, i);
    assert [] + e.spans[pos + 1..] == e.spans[pos + 1..];
  }

  /** Neither side of a cut names a chunk more often than the list did. */
  lemma CutCounts(ents: seq<Entry>, at: nat, store: Store, id: Eid, i: nat)
    ensures CountEnts(HeadEnts(ents, at, store), id, i) <= CountEnts(ents, id, i)
    ensures CountEnts(TailEnts(ents, at, store), id, i) <= CountEnts(ents, id, i)
  {
    hide EntryOk, LocateEntry, CountEnts, CountSpans, Entry.CutOff, Entry.CutTo;
    var pos := LocateEntry(ents, at, 0);
    if pos < |ents| && InStore(ents[pos], store) && ents[pos].offset <= at <= ents[pos].EndOffset() {
      var seg := store[ents[pos].segId];
      EntryCutOffKeeps(ents[pos], at, seg);
      EntryCutToKeeps(ents[pos], at, seg);
      CutOffCounts(ents[pos], at, seg, i);
      CutToCounts(ents[pos], at, seg, i);
      PartEnts(ents, pos, ents[pos].CutOff(at, seg), id, i);
      PartEnts(ents, pos, ents[pos].CutTo(at, seg), id, i);
      assert ents[..pos] + [] == ents[..pos] && [] + ents[pos + 1..] == ents[pos + 1..];
    } else {
      NoEnts(id, i);
    }
  }

  lemma NoEnts(id: Eid, i: nat)
    ensures CountEnts([], id, i) == 0
  {
  }

  /** An overwritten list names a chunk at most twice as often as the old one, and as
      often as the new one on top of that. */
  lemma WrittenCounts(ents: seq<Entry>, end: nat, more: seq<Entry>, at: nat, endAt: nat, store: Store, id: Eid, i: nat)
    ensures CountEnts(WrittenEnts(ents, end, more, at, endAt, store), id, i) <= 2 * CountEnts(ents, id, i) + CountEnts(more, id, i)
  {
    hide HeadEnts, TailEnts;
    var head := if at < end then HeadEnts(ents, at, store) else ents;
    var tail := if endAt < end then TailEnts(ents, endAt, store) else [];
    CutCounts(ents, at, store, id, i);
    CutCounts(ents, endAt, store, id, i);
    CountEntsCat(head, more, id, i);
    CountEntsCat(head + more, tail, id, i);
  }

  lemma AppendCounts(e: Entry, span: Span, i: nat)
    requires e.spans != [] ==> e.spans[|e.spans| - 1].begin <= e.spans[|e.spans| - 1].end
    ensures CountSpans(e.Append(span).spans, i) <= CountSpans(e.spans, i) + Covers(span, i)
  {
    var n := |e.spans|;
    if e.Continues(span) {
      var last := e.spans[n - 1].MergeUp(span);
      CountSpansCat(e.spans[..n - 1], [last], i);
      CountOneSpan(last, i);
    } else {
      CountSpansCat(e.spans, [span], i);
      CountOneSpan(span, i);
    }
  }

  /** Appending the span of a chunk names that chunk once more. */
  lemma WithSpanCounts(ents: seq<Entry>, segId: Eid, span: Span, at: nat, n: nat)
    requires NamesAtMost(ents, n)
    requires ents != [] ==> var e := ents[|ents| - 1];
      e.spans != [] ==> e.spans[|e.spans| - 1].begin <= e.spans[|e.spans| - 1].end
    ensures NamesAtMost(WithSpan(ents, segId, span, at), n + 1)
  {
    var m := |ents|;
    forall id, i: nat ensures CountEnts(WithSpan(ents, segId, span, at), id, i) <= n + 1 {
      assert CountEnts(ents, id, i) <= n;
      if m > 0 && ents[m - 1].segId == segId {
        AppendCounts(ents[m - 1], span, i);
        CountEntsCat(ents[..m - 1], [ents[m - 1].Append(span)], id, i);
        CountOneEnt(ents[m - 1].Append(span), id, i);
      } else {
        AppendCounts(Entry(segId, 0, at, []), span, i);
        CountEntsCat(ents, [Entry(segId, 0, at, []).Append(span)], id, i);
        CountOneEnt(Entry(segId, 0, at, []).Append(span), id, i);
      }
    }
  }

  // a segment whose dropped chunks stay unused is long enough for all others
  lemma {:induction false} UsedWithin(chunks: seq<Chunk>, up: seq<Chunk>, retired: set<nat>, i: nat)
    requires i <= |chunks| == |up| && forall j :: 0 <= j < i ==> up[j].len == chunks[j].len
    requires forall j :: 0 <= j < i && j in retired ==> up[j].IsOrphan()
    ensures UsedLen(up[..i]) <= Before(chunks, retired, i)
    decreases i
  {
    if i > 0 {
      UsedWithin(chunks, up, retired, i - 1);
      assert up[..i][..i - 1] == up[..i - 1];
    }
  }

  lemma TiledCan(s: Segment, retired: set<nat>, n: nat -> nat)
    requires Tiled(s, retired)
    requires forall i :: 0 <= i < |s.chunks| ==> s.chunks[i].refcnt + n(i) <= U32_MAX
    requires forall i :: i in retired ==> n(i) == 0
    ensures CanRaise(s, n)
  {
    var up := Lifted(s.chunks, n);
    forall j | 0 <= j < |s.chunks| && j in retired ensures up[j].IsOrphan() {
      assert Placed(s.chunks, retired, j);
    }
    UsedWithin(s.chunks, up, retired, |s.chunks|);
    assert up[..|s.chunks|] == up;
  }

  /** Among tiled segments a list that names no dropped chunk can be linked exactly if no
      count overflows. */
  lemma CanLinkIff(segs: Segs, retired: map<Eid, set<nat>>, ents: seq<Entry>)
    requires AllTiled(segs, retired) && AvoidsRetired(ents, retired)
    ensures CanLink(segs, ents) <==> forall id, i: nat :: id in segs && i < |segs[id].chunks| ==>
      segs[id].chunks[i].refcnt + CountEnts(ents, id, i) <= U32_MAX
  {
    hide Tiled, AvoidsRetired;
    if forall id, i: nat :: id in segs && i < |segs[id].chunks| ==> segs[id].chunks[i].refcnt + CountEnts(ents, id, i) <= U32_MAX {
      forall id | id in segs ensures CanRaise(segs[id], i => CountEnts(ents, id, i)) {
        forall i: nat | i in retired[id] ensures CountEnts(ents, id, i) == 0 {
          CountRetired(ents, retired, id, i);
        }
        TiledCan(segs[id], retired[id], i => CountEnts(ents, id, i));
      }
    }
    if CanLink(segs, ents) {
      forall id, i: nat | id in segs && i < |segs[id].chunks|
        ensures segs[id].chunks[i].refcnt + CountEnts(ents, id, i) <= U32_MAX
      {
        assert CanRaise(segs[id], k => CountEnts(ents, id, k));
      }
    }
  }

  /** With room for the names of what is written, the overwritten version can be linked. */
  lemma RoomLinks(segs: Segs, retired: map<Eid, set<nat>>, lists: seq<seq<Entry>>, at: nat, next: seq<Entry>, n: nat)
    requires AllTiled(segs, retired) && Conserved(segs, lists) && at < |lists| && AvoidsRetired(next, retired)
    requires RoomFor(segs, n) && forall id, i: nat :: CountEnts(next, id, i) <= 2 * CountEnts(lists[at], id, i) + n
    ensures CanLink(segs, next)
  {
    hide AllTiled, AvoidsRetired, CanLink;
    CanLinkIff(segs, retired, next);
    forall id, i: nat | id in segs && i < |segs[id].chunks|
      ensures segs[id].chunks[i].refcnt + CountEnts(next, id, i) <= U32_MAX
    {
      CountListsAt(lists, at, id, i);
    }
  }

  /** Chunks written to segments leave the room there was. */
  lemma RoomGrows(segs: Segs, segs': Segs, lists: seq<seq<Entry>>, n: nat)
    requires RoomFor(segs, n) && StoreGrows(Views(segs), Views(segs'))
    requires Conserved(segs, lists) && Conserved(segs', lists)
    requires forall l :: 0 <= l < |lists| ==> RefsIn(lists[l], segs)
    ensures RoomFor(segs', n)
  {
    hide RefsIn;
    forall id, i: nat | id in segs' && i < |segs'[id].chunks| ensures 3 * segs'[id].chunks[i].refcnt + n <= U32_MAX {
      if id in segs && i < |segs[id].chunks| {
        assert SegGrows(segs[id].View(), segs'[id].View());
      } else {
        CountListsBeyond(lists, segs, id, i);
      }
    }
  }
}
