/** Which chunks a list names: cutting and joining lists never names new ones. */
module Coverage {
  import opened Spans
  import opened Entries

  ghost predicate SpanIn(s: Span, spans: seq<Span>) {
    exists n :: 0 <= n < |spans| && spans[n].begin <= s.begin && s.end <= spans[n].end
  }

  ghost predicate SpansIn(a: seq<Span>, b: seq<Span>) {
    forall m :: 0 <= m < |a| ==> SpanIn(a[m], b)
  }

  ghost predicate EntryIn(e: Entry, ents: seq<Entry>) {
    exists n :: 0 <= n < |ents| && ents[n].segId == e.segId && SpansIn(e.spans, ents[n].spans)
  }

  /** Every span of the one list lies within a span of the other. */
  ghost predicate EntsIn(a: seq<Entry>, b: seq<Entry>) {
    forall j :: 0 <= j < |a| ==> EntryIn(a[j], b)
  }

  /** Every span lies within a span of one of two lists. */
  ghost predicate EntsInBoth(x: seq<Entry>, a: seq<Entry>, b: seq<Entry>) { EntsIn(x, a + b) }

  lemma SpansTrans(a: seq<Span>, b: seq<Span>, c: seq<Span>)
    requires SpansIn(a, b) && SpansIn(b, c)
    ensures SpansIn(a, c)
  {
    forall m | 0 <= m < |a| ensures SpanIn(a[m], c) {
      var n :| 0 <= n < |b| && b[n].begin <= a[m].begin && a[m].end <= b[n].end;
      assert SpanIn(b[n], c);
    }
  }

  lemma EntsTrans(a: seq<Entry>, b: seq<Entry>, c: seq<Entry>)
    requires EntsIn(a, b) && EntsIn(b, c)
    ensures EntsIn(a, c)
  {
    hide SpansIn;
    forall j | 0 <= j < |a| ensures EntryIn(a[j], c) {
      assert EntryIn(a[j], b);
      var n :| 0 <= n < |b| && b[n].segId == a[j].segId && SpansIn(a[j].spans, b[n].spans);
      assert EntryIn(b[n], c);
      var k :| 0 <= k < |c| && c[k].segId == b[n].segId && SpansIn(b[n].spans, c[k].spans);
      SpansTrans(a[j].spans, b[n].spans, c[k].spans);
    }
  }

  lemma SpansSub(a: seq<Span>, b: seq<Span>)
    requires forall s :: s in a ==> s in b
    ensures SpansIn(a, b)
  {
    forall m | 0 <= m < |a| ensures SpanIn(a[m], b) {
      assert a[m] in b;
      var n :| 0 <= n < |b| && b[n] == a[m];
    }
  }

  lemma EntsSub(a: seq<Entry>, b: seq<Entry>)
    requires forall e :: e in a ==> e in b
    ensures EntsIn(a, b)
  {
    forall j | 0 <= j < |a| ensures EntryIn(a[j], b) {
      assert a[j] in b;
      var n :| 0 <= n < |b| && b[n] == a[j];
      SpansSub(a[j].spans, b[n].spans);
    }
  }

  lemma EntsJoin(a: seq<Entry>, b: seq<Entry>, c: seq<Entry>)
    requires EntsIn(a, c) && EntsIn(b, c)
    ensures EntsIn(a + b, c)
  {
    hide EntryIn;
  }

  lemma EntsUnion(x: seq<Entry>, y: seq<Entry>, a: seq<Entry>, b: seq<Entry>)
    requires EntsIn(x, a) && EntsIn(y, b)
    ensures EntsInBoth(x + y, a, b)
  {
    hide EntsIn;
    EntsSub(a, a + b);
    EntsSub(b, a + b);
    EntsTrans(x, a, a + b);
    EntsTrans(y, b, a + b);
    EntsJoin(x, y, a + b);
  }

  // what was already named by one of two lists
  lemma EntsAgain(x: seq<Entry>, y: seq<Entry>, a: seq<Entry>, b: seq<Entry>)
    requires EntsInBoth(x, y, a) && EntsInBoth(y, a, b)
    ensures EntsInBoth(x, a, b)
  {
    hide EntsIn;
    EntsSub(a, a + b);
    EntsJoin(y, a, a + b);
    EntsTrans(x, y + a, a + b);
  }

  lemma CutOffIn(s: Span, at: nat, seg: SegView)
    requires SpanOk(s, seg) && s.offset <= at <= s.EndOffset()
    ensures var kept := s.CutOff(at, seg.chunks).0; s.begin <= kept.begin && kept.end <= s.end
  {
    LocateInside(s, at, seg.chunks);
  }

  lemma CutToIn(s: Span, at: nat, seg: SegView)
    requires SpanOk(s, seg) && s.offset <= at <= s.EndOffset()
    ensures var kept := s.CutTo(at, seg.chunks).0; s.begin <= kept.begin && kept.end <= s.end
  {
    LocateInside(s, at, seg.chunks);
  }

  lemma EntryCutOffIn(e: Entry, at: nat, seg: SegView)
    requires EntryOk(e, seg) && e.offset <= at <= e.EndOffset()
    ensures SpansIn(e.CutOff(at, seg).spans, e.spans)
  {
    hide EntryOk, SpanOk, SpanShape, LocateSpan;
    SpanLocated(e, at, seg);
    var pos := LocateSpan(e.spans, at, 0);
    CutOffIn(e.spans[pos], at, seg);
    var cut := e.CutOff(at, seg).spans;
    forall m | 0 <= m < |cut| ensures SpanIn(cut[m], e.spans) {
      assert m < pos ==> cut[m] == e.spans[m];
    }
  }

  lemma EntryCutToIn(e: Entry, at: nat, seg: SegView)
    requires EntryOk(e, seg) && e.offset <= at <= e.EndOffset()
    ensures SpansIn(e.CutTo(at, seg).spans, e.spans)
  {
    hide EntryOk, SpanOk, SpanShape, LocateSpan;
    SpanLocated(e, at, seg);
    var pos := LocateSpan(e.spans, at, 0);
    CutToIn(e.spans[pos], at, seg);
    var cut := e.CutTo(at, seg).spans;
    var kept := e.spans[pos].CutTo(at, seg.chunks).0;
    var n := if kept.len == 0 then 0 else 1;
    forall m | 0 <= m < |cut| ensures SpanIn(cut[m], e.spans) {
      assert m >= n ==> cut[m] == e.spans[pos + 1 + m - n];
    }
  }

  // one entry of a list replaced by a part of it, others dropped
  lemma EntsCutIn(head: seq<Entry>, kept: Entry, tail: seq<Entry>, ents: seq<Entry>, pos: nat)
    requires pos < |ents| && kept.segId == ents[pos].segId && SpansIn(kept.spans, ents[pos].spans)
    requires (forall e :: e in head ==> e in ents) && (forall e :: e in tail ==> e in ents)
    ensures EntsIn(head + [kept] + tail, ents) && EntsIn(head + tail, ents)
  {
    hide SpansIn;
    assert EntryIn(kept, ents);
    EntsSub(head, ents);
    EntsSub(tail, ents);
    EntsJoin(head, [kept], ents);
    EntsJoin(head + [kept], tail, ents);
    EntsJoin(head, tail, ents);
  }
}
