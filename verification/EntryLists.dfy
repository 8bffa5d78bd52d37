/** The entry list of a content, cut and joined in place.

    A list is well formed if its entries resolve in the store and follow each
    other; it then denotes the bytes of its entries laid end to end. The class
    works on the nested lists; the lemmas before it say what a cut of one entry
    does to the list, those after it how appending and changes of the store
    carry over. */
module EntryLists {
  import opened Basics
  import opened Extents
  import opened Spans
  import opened Entries
  import opened Coverage

  function EntryExtents(ents: seq<Entry>, store: Store): (r: seq<Extent>)
    ensures |r| == |ents|
    ensures forall i :: 0 <= i < |r| ==> r[i] == EntryExtent(ents[i], store)
  {
    seq(|ents|, i requires 0 <= i < |ents| => EntryExtent(ents[i], store))
  }

  function EntryExtent(e: Entry, store: Store): Extent {
    Extent(e.offset, if e.segId in store then EntryBytes(e, store[e.segId]) else [])
  }

  ghost predicate InStore(e: Entry, store: Store) {
    e.segId in store && EntryOk(e, store[e.segId])
  }

  ghost predicate EntsOk(ents: seq<Entry>, store: Store) {
    forall i :: 0 <= i < |ents| ==> InStore(ents[i], store)
  }

  /** Everything `check` asserts, with every span resolved in the store. */
  ghost predicate ListOk(offset: nat, len: nat, ents: seq<Entry>, store: Store) {
    && EntsOk(ents, store)
    && Chain(EntryExtents(ents, store), offset)
    && len == |Cat(EntryExtents(ents, store))|
  }

  /** The bytes a list denotes. */
  function ListBytes(ents: seq<Entry>, store: Store): Bytes {
    Cat(EntryExtents(ents, store))
  }

  lemma {:induction false} LocateEntryIs(ents: seq<Entry>, store: Store, at: nat, from: nat)
    requires EntsOk(ents, store) && from <= |ents|
    ensures LocateEntry(ents, at, from) == LocateFrom(EntryExtents(ents, store), at, from)
    decreases |ents| - from
  {
    hide EntryOk, EntryBytes;
    if from < |ents| {
      EntryLen(ents[from], store[ents[from].segId]);
      LocateEntryIs(ents, store, at, from + 1);
    }
  }

  lemma EntryLocated(offset: nat, len: nat, ents: seq<Entry>, store: Store, at: nat)
    requires ListOk(offset, len, ents, store) && ents != [] && offset <= at <= offset + len
    ensures var pos := LocateEntry(ents, at, 0);
      && pos < |ents| && InStore(ents[pos], store)
      && EntryOk(ents[pos], store[ents[pos].segId])
      && ents[pos].offset <= at <= ents[pos].EndOffset()
  {
    LocateEntryIs(ents, store, at, 0);
    Located(EntryExtents(ents, store), offset, at);
  }

  lemma EntryExtentsCat(a: seq<Entry>, b: seq<Entry>, store: Store)
    ensures EntryExtents(a + b, store) == EntryExtents(a, store) + EntryExtents(b, store)
  {
  }

  lemma EntryExtentsCut(ents: seq<Entry>, i: nat, store: Store)
    requires i <= |ents|
    ensures EntryExtents(ents[..i], store) == EntryExtents(ents, store)[..i]
    ensures EntryExtents(ents[i..], store) == EntryExtents(ents, store)[i..]
  {
  }

  function OneUnlessEmpty(e: Entry): seq<Entry> {
    if e.len == 0 then [] else [e]
  }

  // the entries before a position
  ghost function HeadEnts(ents: seq<Entry>, at: nat, store: Store): seq<Entry> {
    var pos := LocateEntry(ents, at, 0);
    if pos < |ents| && InStore(ents[pos], store) && ents[pos].offset <= at <= ents[pos].EndOffset() then
      ents[..pos] + OneUnlessEmpty(ents[pos].CutOff(at, store[ents[pos].segId]))
    else []
  }

  // the entries from a position on
  ghost function TailEnts(ents: seq<Entry>, at: nat, store: Store): seq<Entry> {
    var pos := LocateEntry(ents, at, 0);
    if pos < |ents| && InStore(ents[pos], store) && ents[pos].offset <= at <= ents[pos].EndOffset() then
      OneUnlessEmpty(ents[pos].CutTo(at, store[ents[pos].segId])) + ents[pos + 1..]
    else []
  }

  /** The entries of a list that ends at `end`, overwritten by others from `at` to `endAt`. */
  ghost function WrittenEnts(ents: seq<Entry>, end: nat, more: seq<Entry>, at: nat, endAt: nat, store: Store): seq<Entry> {
    (if at < end then HeadEnts(ents, at, store) else ents) + more +
    (if endAt < end then TailEnts(ents, endAt, store) else [])
  }

  lemma EntsCutOff(offset: nat, len: nat, ents: seq<Entry>, store: Store, at: nat, pos: nat, kept: Entry)
    requires ListOk(offset, len, ents, store) && offset <= at <= offset + len
    requires pos == LocateEntry(ents, at, 0) < |ents| && InStore(ents[pos], store)
    requires ents[pos].offset <= at <= ents[pos].EndOffset()
    requires kept == ents[pos].CutOff(at, store[ents[pos].segId])
    ensures ListOk(offset, at - offset, ents[..pos] + OneUnlessEmpty(kept), store)
    ensures ListBytes(ents[..pos] + OneUnlessEmpty(kept), store) == ListBytes(ents, store)[..at - offset]
  {
    hide Chain, Cat, EntryOk, EntryBytes, LocateFrom, LocateEntry;
    LocateEntryIs(ents, store, at, 0);
    EntryCutOffKeeps(ents[pos], at, store[ents[pos].segId]);
    EntryLen(ents[pos], store[ents[pos].segId]);
    SplitOffBytes(EntryExtents(ents, store), offset, at, EntryExtent(kept, store));
    EntryExtentsCut(ents, pos, store);
    EntryExtentsCat(ents[..pos], [kept], store);
    assert EntryExtents([kept], store) == [EntryExtent(kept, store)];
    assert ents[..pos] + [] == ents[..pos];
  }

  lemma EntsCutTo(offset: nat, len: nat, ents: seq<Entry>, store: Store, at: nat, pos: nat, kept: Entry)
    requires ListOk(offset, len, ents, store) && offset <= at <= offset + len
    requires pos == LocateEntry(ents, at, 0) < |ents| && InStore(ents[pos], store)
    requires ents[pos].offset <= at <= ents[pos].EndOffset()
    requires kept == ents[pos].CutTo(at, store[ents[pos].segId])
    ensures ListOk(at, offset + len - at, OneUnlessEmpty(kept) + ents[pos + 1..], store)
    ensures ListBytes(OneUnlessEmpty(kept) + ents[pos + 1..], store) == ListBytes(ents, store)[at - offset..]
  {
    hide Chain, Cat, EntryOk, EntryBytes, LocateFrom, LocateEntry;
    LocateEntryIs(ents, store, at, 0);
    EntryCutToKeeps(ents[pos], at, store[ents[pos].segId]);
    EntryLen(ents[pos], store[ents[pos].segId]);
    SplitToBytes(EntryExtents(ents, store), offset, at, EntryExtent(kept, store));
    EntryExtentsCut(ents, pos + 1, store);
    EntryExtentsCat([kept], ents[pos + 1..], store);
    assert EntryExtents([kept], store) == [EntryExtent(kept, store)];
    assert [] + ents[pos + 1..] == ents[pos + 1..];
  }

  lemma EntryLen(e: Entry, seg: SegView)
    requires EntryOk(e, seg)
    ensures |EntryBytes(e, seg)| == e.len > 0
  {
    SpanBytesLen(e.spans[0], seg);
  }

  lemma ListJoin(offset: nat, len: nat, ents: seq<Entry>, len': nat, ents': seq<Entry>, store: Store)
    requires ListOk(offset, len, ents, store) && ListOk(offset + len, len', ents', store)
    ensures ListOk(offset, len + len', ents + ents', store)
    ensures ListBytes(ents + ents', store) == ListBytes(ents, store) + ListBytes(ents', store)
  {
    hide Chain, Cat, EntryOk;
    EntryExtentsCat(ents, ents', store);
    ChainAppend(EntryExtents(ents, store), EntryExtents(ents', store), offset);
  }

  lemma EmptyListOk(offset: nat, store: Store)
    ensures ListOk(offset, 0, [], store) && ListBytes([], store) == []
  {
    assert EntryExtents([], store) == [];
  }

  lemma ListEmpty(offset: nat, ents: seq<Entry>, store: Store)
    requires ListOk(offset, 0, ents, store)
    ensures ents == []
  {
    if ents != [] {
      ChainAt(EntryExtents(ents, store), offset, 0);
    }
  }

  function SpansLen(spans: seq<Span>): nat {
    if spans == [] then 0 else SpansLen(spans[..|spans| - 1]) + spans[|spans| - 1].len
  }

  function EntsLen(ents: seq<Entry>): nat {
    if ents == [] then 0 else EntsLen(ents[..|ents| - 1]) + ents[|ents| - 1].len
  }

  ghost predicate SpanChecked(e: Entry, j: nat)
    requires j < |e.spans|
  {
    e.spans[j].len > 0 && e.spans[j].offset == e.offset + SpansLen(e.spans[..j])
  }

  ghost predicate SpansChecked(e: Entry) {
    e.len == SpansLen(e.spans) && forall j :: 0 <= j < |e.spans| ==> SpanChecked(e, j)
  }

  ghost predicate EntChecked(offset: nat, ents: seq<Entry>, i: nat)
    requires i < |ents|
  {
    ents[i].len > 0 && ents[i].offset == offset + EntsLen(ents[..i]) && SpansChecked(ents[i])
  }

  /** What `check` asserts: entries and their spans follow each other without gaps, none is
      empty, and the lengths add up. */
  ghost predicate Checked(offset: nat, len: nat, ents: seq<Entry>) {
    len == EntsLen(ents) && forall i :: 0 <= i < |ents| ==> EntChecked(offset, ents, i)
  }

  lemma {:induction false} SpansAt(e: Entry, seg: SegView, j: nat)
    requires EntryOk(e, seg) && j <= |e.spans|
    ensures (if j < |e.spans| then e.spans[j].offset else e.EndOffset()) == e.offset + SpansLen(e.spans[..j])
    decreases j
  {
    hide EntryOk;
    if j > 0 {
      SpansAt(e, seg, j - 1);
      EntryStep(e, seg, j - 1);
      assert e.spans[..j][..j - 1] == e.spans[..j - 1];
    } else {
      EntryNotEmpty(e, seg);
      EntryStep(e, seg, 0);
    }
  }

  lemma EntryNotEmpty(e: Entry, seg: SegView)
    requires EntryOk(e, seg)
    ensures e.spans != []
  {
  }

  lemma {:induction false} EntsAt(offset: nat, len: nat, ents: seq<Entry>, store: Store, i: nat)
    requires ListOk(offset, len, ents, store) && i <= |ents|
    ensures (if i < |ents| then ents[i].offset else offset + len) == offset + EntsLen(ents[..i])
    decreases i
  {
    hide ListOk, EntryOk;
    if i > 0 {
      EntsAt(offset, len, ents, store, i - 1);
      ListStep(offset, len, ents, store, i - 1);
      assert ents[..i][..i - 1] == ents[..i - 1];
    } else {
      ListEnds(offset, len, ents, store);
    }
  }

  /** A well-formed list passes the check. */
  lemma WellFormedChecked(offset: nat, len: nat, ents: seq<Entry>, store: Store)
    requires ListOk(offset, len, ents, store)
    ensures Checked(offset, len, ents)
  {
    hide ListOk, EntryOk;
    EntsAt(offset, len, ents, store, |ents|);
    assert ents[..|ents|] == ents;
    forall i | 0 <= i < |ents| ensures EntChecked(offset, ents, i) {
      ListStep(offset, len, ents, store, i);
      EntsAt(offset, len, ents, store, i);
      var e, seg := ents[i], store[ents[i].segId];
      SpansAt(e, seg, |e.spans|);
      assert e.spans[..|e.spans|] == e.spans;
      forall j | 0 <= j < |e.spans| ensures SpanChecked(e, j) {
        EntryStep(e, seg, j);
        SpansAt(e, seg, j);
      }
    }
  }

  class EntryList {
    var len: nat
    var offset: nat
    var ents: seq<Entry>

    ghost predicate Ok(store: Store)
      reads this
    {
      ListOk(offset, len, ents, store)
    }

    ghost function Denotes(store: Store): Bytes
      reads this
    {
      ListBytes(ents, store)
    }

    function EndOffset(): nat
      reads this
    {
      offset + len
    }

    constructor ()
      ensures len == 0 && offset == 0 && ents == []
    {
      len, offset, ents := 0, 0, [];
    }

    constructor Of(offset: nat, len: nat, ents: seq<Entry>)
      ensures this.len == len && this.offset == offset && this.ents == ents
    {
      this.len, this.offset, this.ents := len, offset, ents;
    }

    constructor Clone(that: EntryList)
      ensures len == that.len && offset == that.offset && ents == that.ents
    {
      len, offset, ents := that.len, that.offset, that.ents;
    }

    lemma DenotesLen(store: Store)
      requires Ok(store)
      ensures |Denotes(store)| == len && (ents == [] ==> len == 0)
    {
    }

    // place an empty list at a position of the content
    method Seek(pos: nat)
      requires ents == [] && len == 0
      modifies this
      ensures offset == pos && ents == [] && len == 0
    {
      offset := pos;
    }

    function Locate(at: nat): nat
      requires offset <= at <= EndOffset()
      reads this
    {
      LocateEntry(ents, at, 0)
    }

    method SplitOff(at: nat, store: Store)
      requires Ok(store) && ents != [] && offset <= at <= EndOffset()
      modifies this
      ensures Ok(store) && offset == old(offset) && EndOffset() == at
      ensures Denotes(store) == old(Denotes(store))[..at - offset]
      ensures ents == HeadEnts(old(ents), at, store) && EntsIn(ents, old(ents))
    {
      hide ListOk, ListBytes, Cat, EntryOk, SpanOk, LocateEntry, EntsIn, SpansIn;
      EntryLocated(offset, len, ents, store, at);
      var pos := Locate(at);
      var kept := ents[pos].CutOff(at, store[ents[pos].segId]);
      EntsCutOff(offset, len, ents, store, at, pos, kept);
      EntryCutOffIn(ents[pos], at, store[ents[pos].segId]);
      EntsCutIn(ents[..pos], kept, [], ents, pos);
      assert ents[..pos] + [kept] + [] == ents[..pos] + [kept];
      ents := ents[..pos] + OneUnlessEmpty(kept);
      len := at - offset;
      if len == 0 {
        ListEmpty(offset, ents, store);
        ents := [];
        EntsSub([], old(ents));
      }
    }

    method SplitTo(at: nat, store: Store)
      requires Ok(store) && ents != [] && offset <= at <= EndOffset()
      modifies this
      ensures Ok(store) && offset == at && EndOffset() == old(EndOffset())
      ensures Denotes(store) == old(Denotes(store))[at - old(offset)..]
      ensures ents == TailEnts(old(ents), at, store) && EntsIn(ents, old(ents))
    {
      hide ListOk, ListBytes, Cat, EntryOk, SpanOk, LocateEntry, EntsIn, SpansIn;
      EntryLocated(offset, len, ents, store, at);
      var pos := Locate(at);
      var kept := ents[pos].CutTo(at, store[ents[pos].segId]);
      EntsCutTo(offset, len, ents, store, at, pos, kept);
      EntryCutToIn(ents[pos], at, store[ents[pos].segId]);
      EntsCutIn([], kept, ents[pos + 1..], ents, pos);
      assert [] + [kept] + ents[pos + 1..] == [kept] + ents[pos + 1..];
      ents := OneUnlessEmpty(kept) + ents[pos + 1..];
      len := EndOffset() - at;
      offset := at;
      if len == 0 {
        ListEmpty(offset, ents, store);
        ents := [];
        EntsSub([], old(ents));
      }
    }

    method Join(other: EntryList, ghost store: Store)
      requires Ok(store) && other.Ok(store) && EndOffset() == other.offset && other != this
      modifies this
      ensures Ok(store) && offset == old(offset) && len == old(len) + other.len
      ensures Denotes(store) == old(Denotes(store)) + other.Denotes(store)
      ensures ents == old(ents) + other.ents
    {
      hide ListOk, ListBytes;
      ListJoin(offset, len, ents, other.len, other.ents, store);
      len := len + other.len;
      ents := ents + other.ents;
    }

    /** Append the span of a freshly written or deduplicated chunk. */
    method Append(segId: Eid, span: Span, ghost store: Store)
      requires Ok(store) && LastEndsAtChunk(ents, store) && segId in store
      requires SpanOk(span, store[segId]) && EndsAtChunk(span, store[segId]) && span.offset == EndOffset()
      requires ents != [] && ents[|ents| - 1].segId == segId && ents[|ents| - 1].Continues(span) ==>
        Adjoins(span, store[segId])
      modifies this
      ensures Ok(store) && LastEndsAtChunk(ents, store)
      ensures offset == old(offset) && len == old(len) + span.len
      ensures Denotes(store) == old(Denotes(store)) + SpanBytes(span, store[segId])
      ensures ents == WithSpan(old(ents), segId, span, old(EndOffset()))
    {
      hide ListOk, ListBytes, SpanOk, SpanBytes, EndsAtChunk, LastEndsAtChunk;
      var n := |ents|;
      if n > 0 && ents[n - 1].segId == segId {
        ListAppendLast(offset, len, ents, store, span);
        ents := ents[..n - 1] + [ents[n - 1].Append(span)];
      } else {
        ListAppendNew(offset, len, ents, store, segId, span);
        ents := ents + [Entry(segId, 0, EndOffset(), []).Append(span)];
      }
      len := len + span.len;
    }

    /** The assertions of `check`, evaluated. */
    method Check() returns (ok: bool)
      ensures ok <==> Checked(offset, len, ents)
    {
      hide SpansChecked;
      var entsLen, off := 0, offset;
      for i := 0 to |ents|
        invariant entsLen == EntsLen(ents[..i]) && off == offset + entsLen
        invariant forall j :: 0 <= j < i ==> EntChecked(offset, ents, j)
      {
        assert ents[..i + 1][..i] == ents[..i];
        var spansOk := CheckSpans(ents[i]);
        if ents[i].len == 0 || ents[i].offset != off || !spansOk {
          assert !EntChecked(offset, ents, i);
          return false;
        }
        entsLen := entsLen + ents[i].len;
        off := off + ents[i].len;
      }
      assert ents[..|ents|] == ents;
      return entsLen == len;
    }

    static method CheckSpans(ent: Entry) returns (ok: bool)
      ensures ok <==> SpansChecked(ent)
    {
      var spansLen, off := 0, ent.offset;
      for j := 0 to |ent.spans|
        invariant spansLen == SpansLen(ent.spans[..j]) && off == ent.offset + spansLen
        invariant forall k :: 0 <= k < j ==> SpanChecked(ent, k)
      {
        assert ent.spans[..j + 1][..j] == ent.spans[..j];
        if ent.spans[j].len == 0 || ent.spans[j].offset != off {
          assert !SpanChecked(ent, j);
          return false;
        }
        spansLen := spansLen + ent.spans[j].len;
        off := off + ent.spans[j].len;
      }
      assert ent.spans[..|ent.spans|] == ent.spans;
      return spansLen == ent.len;
    }

    /** Overwrite this list with another one: a splice of the bytes, wherever the
        ends of `other` fall in chunks, spans and entries. */
    method WriteWith(other: EntryList, store: Store)
      requires Ok(store) && other.Ok(store) && other != this
      requires offset <= other.offset <= EndOffset()
      modifies this
      ensures Ok(store) && offset == old(offset)
      ensures EndOffset() == Max(old(EndOffset()), other.EndOffset())
      ensures Denotes(store) == Splice(old(Denotes(store)), other.offset - offset, other.Denotes(store))
      ensures ents == WrittenEnts(old(ents), old(EndOffset()), other.ents, other.offset, other.EndOffset(), store)
      ensures EntsInBoth(ents, old(ents), other.ents)
    {
      hide ListOk, ListBytes, Splice, EntsInBoth, EntryList.Denotes, HeadEnts, TailEnts;
      if other.EndOffset() < EndOffset() {
        WriteInside(other, store);
      } else {
        WriteToEnd(other, store);
      }
    }

    // the other list ends inside this one: a copy keeps what comes after it
    method WriteInside(other: EntryList, store: Store)
      requires Ok(store) && other.Ok(store) && other != this
      requires offset <= other.offset && other.EndOffset() < EndOffset()
      modifies this
      ensures Ok(store) && offset == old(offset) && EndOffset() == old(EndOffset())
      ensures Denotes(store) == Splice(old(Denotes(store)), other.offset - offset, other.Denotes(store))
      ensures ents == WrittenEnts(old(ents), old(EndOffset()), other.ents, other.offset, other.EndOffset(), store)
      ensures EntsInBoth(ents, old(ents), other.ents)
    {
      hide ListOk, ListBytes, Splice, EntsInBoth, EntryList.Denotes, HeadEnts, TailEnts;
      ghost var k, base, data := other.offset - offset, Denotes(store), other.Denotes(store);
      DenotesLen(store);
      other.DenotesLen(store);
      var endAt := other.EndOffset();
      var tail := Copy(store);
      JoinHead(other, store);
      JoinTail(tail, endAt, store, base, k, data, old(ents), other.ents);
    }

    method WriteToEnd(other: EntryList, store: Store)
      requires Ok(store) && other.Ok(store) && other != this
      requires offset <= other.offset <= EndOffset() <= other.EndOffset()
      modifies this
      ensures Ok(store) && offset == old(offset) && EndOffset() == other.EndOffset()
      ensures Denotes(store) == Splice(old(Denotes(store)), other.offset - offset, other.Denotes(store))
      ensures ents == WrittenEnts(old(ents), old(EndOffset()), other.ents, other.offset, other.EndOffset(), store)
      ensures EntsInBoth(ents, old(ents), other.ents)
    {
      hide ListOk, ListBytes, Splice, EntsInBoth, EntryList.Denotes, HeadEnts, TailEnts;
      ghost var k, base, data := other.offset - offset, Denotes(store), other.Denotes(store);
      DenotesLen(store);
      other.DenotesLen(store);
      JoinHead(other, store);
      SpliceEnd(base, k, data, Denotes(store));
    }

    method Copy(ghost store: Store) returns (that: EntryList)
      requires Ok(store)
      ensures fresh(that) && that.Ok(store) && that.Denotes(store) == Denotes(store)
      ensures that.ents == ents && that.offset == offset && that.len == len
    {
      that := new EntryList.Clone(this);
    }

    // cut this list where the other one starts, and append that
    method JoinHead(other: EntryList, store: Store)
      requires Ok(store) && other.Ok(store) && other != this
      requires offset <= other.offset <= EndOffset()
      modifies this
      ensures Ok(store) && offset == old(offset) && EndOffset() == other.EndOffset()
      ensures |old(Denotes(store))| == old(len)
      ensures Denotes(store) == old(Denotes(store))[..other.offset - offset] + other.Denotes(store)
      ensures ents == (if other.offset < old(EndOffset()) then HeadEnts(old(ents), other.offset, store) else old(ents)) + other.ents
      ensures EntsInBoth(ents, old(ents), other.ents)
    {
      hide ListOk, ListBytes, EntsIn, EntsInBoth, HeadEnts;
      DenotesLen(store);
      EntsSub(ents, ents);
      EntsSub(other.ents, other.ents);
      if other.offset < EndOffset() {
        SplitOff(other.offset, store);
      } else {
        assert Denotes(store)[..other.offset - offset] == Denotes(store);
      }
      EntsUnion(ents, other.ents, old(ents), other.ents);
      Join(other, store);
    }

    // append what a copy of the old list, which denotes `base`, has after the
    // overwritten part
    method JoinTail(tail: EntryList, endAt: nat, store: Store, ghost base: Bytes, ghost k: nat, ghost data: Bytes,
                    ghost from: seq<Entry>, ghost more: seq<Entry>)
      requires Ok(store) && tail.Ok(store) && tail != this && tail.ents == from && EntsInBoth(ents, from, more)
      requires EndOffset() == endAt && tail.offset == offset <= endAt < tail.EndOffset()
      requires tail.Denotes(store) == base && k + |data| == endAt - offset < |base| && Denotes(store) == base[..k] + data
      modifies this, tail
      ensures Ok(store) && offset == old(offset) && EndOffset() == old(tail.EndOffset())
      ensures Denotes(store) == Splice(base, k, data) && EntsInBoth(ents, from, more)
      ensures ents == old(ents) + TailEnts(from, endAt, store)
    {
      hide ListOk, ListBytes, EntsIn, EntsInBoth, Splice, HeadEnts, TailEnts;
      ghost var front, joined := Denotes(store), ents;
      tail.DenotesLen(store);
      tail.SplitTo(endAt, store);
      EntsSub(ents, ents);
      EntsUnion(ents, tail.ents, ents, from);
      Join(tail, store);
      EntsAgain(ents, joined, from, more);
      SpliceBoth(base, k, data, front, Denotes(store));
    }
  }

  // the entries once a span is appended at the end of the list
  function WithSpan(ents: seq<Entry>, segId: Eid, span: Span, at: nat): seq<Entry> {
    var n := |ents|;
    if n > 0 && ents[n - 1].segId == segId then ents[..n - 1] + [ents[n - 1].Append(span)]
    else ents + [Entry(segId, 0, at, []).Append(span)]
  }

  // the last span of the list reaches the end of its chunk
  ghost predicate LastEndsAtChunk(ents: seq<Entry>, store: Store) {
    ents != [] ==>
      var e := ents[|ents| - 1];
      e.segId in store && e.spans != [] && EndsAtChunk(e.spans[|e.spans| - 1], store[e.segId])
  }

  lemma ListAppendNew(offset: nat, len: nat, ents: seq<Entry>, store: Store, segId: Eid, span: Span)
    requires ListOk(offset, len, ents, store) && segId in store
    requires SpanOk(span, store[segId]) && EndsAtChunk(span, store[segId]) && span.offset == offset + len
    ensures var ents' := ents + [Entry(segId, 0, offset + len, []).Append(span)];
      && ListOk(offset, len + span.len, ents', store) && LastEndsAtChunk(ents', store)
      && ListBytes(ents', store) == ListBytes(ents, store) + SpanBytes(span, store[segId])
  {
    hide Chain, Cat, SpanOk, SpanBytes, ListOk, EntryOk, EndsAtChunk;
    var e := Entry(segId, 0, offset + len, []);
    EntryAppendJoins(e, span, store[segId]);
    EntryNone(e, store[segId]);
    SpanBytesLen(span, store[segId]);
    ListOne(e.Append(span), store);
    ListJoin(offset, len, ents, span.len, [e.Append(span)], store);
    assert [] + SpanBytes(span, store[segId]) == SpanBytes(span, store[segId]);
  }

  lemma EntryNone(e: Entry, seg: SegView)
    requires e.spans == []
    ensures EntryBytes(e, seg) == []
  {
    CatNone();
    assert SpanExtents(e.spans, seg) == [];
  }

  lemma ListOne(e: Entry, store: Store)
    requires InStore(e, store)
    ensures ListOk(e.offset, e.len, [e], store)
    ensures ListBytes([e], store) == EntryBytes(e, store[e.segId])
  {
    hide Chain, Cat, EntryOk, EntryBytes;
    EntryLen(e, store[e.segId]);
    var x := EntryExtent(e, store);
    ChainOne(x);
    assert EntryExtents([e], store) == [x];
  }

  lemma ListAppendLast(offset: nat, len: nat, ents: seq<Entry>, store: Store, span: Span)
    requires ListOk(offset, len, ents, store) && ents != [] && LastEndsAtChunk(ents, store)
    requires var seg := store[ents[|ents| - 1].segId];
      && SpanOk(span, seg) && EndsAtChunk(span, seg) && span.offset == offset + len
      && (ents[|ents| - 1].Continues(span) ==> Adjoins(span, seg))
    ensures var n := |ents|; var ents' := ents[..n - 1] + [ents[n - 1].Append(span)];
      && ListOk(offset, len + span.len, ents', store) && LastEndsAtChunk(ents', store)
      && ListBytes(ents', store) == ListBytes(ents, store) + SpanBytes(span, store[ents[n - 1].segId])
  {
    hide Chain, Cat, SpanOk, SpanBytes, ListOk, EntryOk, EndsAtChunk, EntryBytes, ListBytes;
    var n := |ents|;
    var e := ents[n - 1];
    ListStep(offset, len, ents, store, n - 1);
    ListLast(offset, len, ents, store);
    EntryAppendJoins(e, span, store[e.segId]);
    ListOne(e.Append(span), store);
    ListJoin(offset, e.offset - offset, ents[..n - 1], e.len + span.len, [e.Append(span)], store);
  }

  lemma ListLast(offset: nat, len: nat, ents: seq<Entry>, store: Store)
    requires ListOk(offset, len, ents, store) && ents != []
    ensures var n := |ents|; var e := ents[n - 1];
      && e.segId in store && offset <= e.offset
      && ListOk(offset, e.offset - offset, ents[..n - 1], store)
      && ListBytes(ents[..n - 1], store) + EntryBytes(e, store[e.segId]) == ListBytes(ents, store)
  {
    hide Chain, Cat, EntryOk, EntryBytes;
    CatNone();
    var xs, n := EntryExtents(ents, store), |ents|;
    ChainAt(xs, offset, n - 1);
    CatAround(xs, n - 1);
    ChainAround(xs, offset, n - 1);
    EntryExtentsCut(ents, n - 1, store);
    assert xs[n..] == [];
  }

  lemma ListStep(offset: nat, len: nat, ents: seq<Entry>, store: Store, i: nat)
    requires ListOk(offset, len, ents, store) && i < |ents|
    ensures InStore(ents[i], store) && ents[i].segId in store && EntryOk(ents[i], store[ents[i].segId])
    ensures ents[i].len > 0 && (i == 0 ==> ents[i].offset == offset)
    ensures i + 1 < |ents| ==> ents[i + 1].offset == ents[i].EndOffset()
    ensures i + 1 == |ents| ==> ents[i].EndOffset() == offset + len
  {
    hide Chain, Cat, EntryOk, EntryBytes;
    EntryLen(ents[i], store[ents[i].segId]);
    ChainStep(EntryExtents(ents, store), offset, i);
  }

  lemma ListEnds(offset: nat, len: nat, ents: seq<Entry>, store: Store)
    requires ListOk(offset, len, ents, store)
    ensures if ents == [] then len == 0 else ents[0].offset == offset
  {
    hide Chain, EntryOk, EntryBytes, EntsOk;
    if ents != [] {
      ListStep(offset, len, ents, store, 0);
    }
  }

  lemma EntryStep(e: Entry, seg: SegView, j: nat)
    requires EntryOk(e, seg) && j < |e.spans|
    ensures e.spans[j].len > 0 && (j == 0 ==> e.spans[j].offset == e.offset)
    ensures j + 1 < |e.spans| ==> e.spans[j + 1].offset == e.spans[j].EndOffset()
    ensures j + 1 == |e.spans| ==> e.spans[j].EndOffset() == e.EndOffset()
  {
    hide Chain, Cat, SpanBytes;
    SpanBytesLen(e.spans[j], seg);
    ChainStep(SpanExtents(e.spans, seg), e.offset, j);
  }

  // an overwrite that ends inside, and one that reaches the end
  lemma SpliceBoth(base: Bytes, at: nat, data: Bytes, front: Bytes, all: Bytes)
    requires at + |data| < |base| && front == base[..at] + data && all == front + base[at + |data|..]
    ensures all == Splice(base, at, data)
  {
  }

  lemma SpliceEnd(base: Bytes, at: nat, data: Bytes, all: Bytes)
    requires at <= |base| <= at + |data| && all == base[..at] + data
    ensures all == Splice(base, at, data)
  {
  }

  lemma ListLen(offset: nat, len: nat, ents: seq<Entry>, store: Store)
    requires ListOk(offset, len, ents, store)
    ensures |ListBytes(ents, store)| == len
    ensures ents == [] ==> len == 0
  {
  }

  /** A span is as good in `seg'` as it was in `seg`. */
  ghost predicate Keeps(s: Span, seg: SegView, seg': SegView) {
    SpanOk(s, seg) ==> SpanOk(s, seg') && SpanBytes(s, seg') == SpanBytes(s, seg)
  }

  ghost predicate EntryKept(e: Entry, store: Store, store': Store) {
    && e.segId in store && e.segId in store'
    && forall j :: 0 <= j < |e.spans| ==> Keeps(e.spans[j], store[e.segId], store'[e.segId])
  }

  /** When the segments change but every span of a list is kept, the list stays
      well formed and denotes the same bytes. */
  lemma ListTransfer(offset: nat, len: nat, ents: seq<Entry>, store: Store, store': Store)
    requires ListOk(offset, len, ents, store)
    requires forall i :: 0 <= i < |ents| ==> EntryKept(ents[i], store, store')
    ensures ListOk(offset, len, ents, store') && ListBytes(ents, store') == ListBytes(ents, store)
  {
    hide Chain, Cat, EntryOk;
    forall i | 0 <= i < |ents|
      ensures InStore(ents[i], store') && EntryExtent(ents[i], store') == EntryExtent(ents[i], store)
    {
      EntryTransfer(ents[i], store[ents[i].segId], store'[ents[i].segId]);
    }
    assert EntryExtents(ents, store') == EntryExtents(ents, store);
  }

  lemma EntryTransfer(e: Entry, seg: SegView, seg': SegView)
    requires EntryOk(e, seg)
    requires forall j :: 0 <= j < |e.spans| ==> Keeps(e.spans[j], seg, seg')
    ensures EntryOk(e, seg') && EntryBytes(e, seg') == EntryBytes(e, seg)
  {
    hide Chain, Cat, SpanOk, SpanBytes;
    assert SpanExtents(e.spans, seg') == SpanExtents(e.spans, seg);
  }

  /** A segment that only got more chunks and data. */
  ghost predicate SegGrows(seg: SegView, seg': SegView) {
    && |seg.chunks| <= |seg'.chunks| && seg.data <= seg'.data
    && forall i :: 0 <= i < |seg.chunks| ==>
         seg'.chunks[i].pos == seg.chunks[i].pos && seg'.chunks[i].len == seg.chunks[i].len
  }

  ghost predicate StoreGrows(store: Store, store': Store) {
    forall id :: id in store ==> id in store' && SegGrows(store[id], store'[id])
  }

  lemma GrowthKeeps(s: Span, seg: SegView, seg': SegView)
    requires SegGrows(seg, seg')
    ensures Keeps(s, seg, seg')
  {
  }

  lemma ListGrows(offset: nat, len: nat, ents: seq<Entry>, store: Store, store': Store)
    requires ListOk(offset, len, ents, store) && StoreGrows(store, store')
    ensures ListOk(offset, len, ents, store') && ListBytes(ents, store') == ListBytes(ents, store)
  {
    hide Chain, Cat, EntryOk, SegGrows, Keeps;
    forall i, j | 0 <= i < |ents| && 0 <= j < |ents[i].spans|
      ensures Keeps(ents[i].spans[j], store[ents[i].segId], store'[ents[i].segId])
    {
      assert InStore(ents[i], store);
      GrowthKeeps(ents[i].spans[j], store[ents[i].segId], store'[ents[i].segId]);
    }
    forall i | 0 <= i < |ents| ensures EntryKept(ents[i], store, store') {
      assert InStore(ents[i], store);
    }
    ListTransfer(offset, len, ents, store, store');
  }
}
