/** A file's current content and older versions, over segments that change underneath. */
module Versions {
  import opened Basics
  import opened Spans
  import opened Entries
  import opened Coverage
  import opened EntryLists
  import opened References
  import opened DroppedChunks
  import opened VersionCounts
  import opened ChunkMaps
  import opened ChunkSpec
  import opened RollingHash
  import Chunker
  import Content
  import ContentWriter
  import MerkleWriter

  lemma SpansInCount(a: seq<Span>, b: seq<Span>, i: nat)
    requires SpansIn(a, b) && CountSpans(b, i) == 0
    ensures CountSpans(a, i) == 0
  {
    CountNothing(a, i);
    CountNothing(b, i);
    forall m | 0 <= m < |a| ensures Covers(a[m], i) == 0 {
      assert SpanIn(a[m], b);
      var n :| 0 <= n < |b| && b[n].begin <= a[m].begin && a[m].end <= b[n].end;
      assert Covers(b[n], i) == 0;
    }
  }

  /** A list made of parts of lists that name no retired chunk names none. */
  lemma AvoidsIn(x: seq<Entry>, a: seq<Entry>, retired: map<Eid, set<nat>>)
    requires EntsIn(x, a) && AvoidsRetired(a, retired)
    ensures AvoidsRetired(x, retired)
  {
    hide SpansIn;
    forall j, i: nat | 0 <= j < |x| && x[j].segId in retired && i in retired[x[j].segId]
      ensures CountSpans(x[j].spans, i) == 0
    {
      assert EntryIn(x[j], a);
      var n :| 0 <= n < |a| && a[n].segId == x[j].segId && SpansIn(x[j].spans, a[n].spans);
      SpansInCount(x[j].spans, a[n].spans, i);
    }
  }

  lemma AvoidsBoth(a: seq<Entry>, b: seq<Entry>, retired: map<Eid, set<nat>>)
    requires AvoidsRetired(a, retired) && AvoidsRetired(b, retired)
    ensures AvoidsRetired(a + b, retired)
  {
  }

  lemma RefsOfList(offset: nat, len: nat, ents: seq<Entry>, segs: Segs)
    requires ListOk(offset, len, ents, Views(segs))
    ensures RefsIn(ents, segs)
  {
    forall j | 0 <= j < |ents|
      ensures ents[j].segId in segs && ents[j].spans != [] && InBounds(ents[j].spans, |segs[ents[j].segId].chunks|)
    {
      assert InStore(ents[j], Views(segs));
      BoundsOf(ents[j], segs[ents[j].segId].View());
    }
  }

  lemma BoundsOf(e: Entry, seg: SegView)
    requires EntryOk(e, seg)
    ensures e.spans != [] && InBounds(e.spans, |seg.chunks|)
  {
    forall j | 0 <= j < |e.spans| ensures e.spans[j].begin < e.spans[j].end <= |seg.chunks| {
      assert SpanOk(e.spans[j], seg);
    }
  }

  /** A list whose spans are all kept denotes the same bytes. */
  lemma KeptList(len: nat, ents: seq<Entry>, segs: Segs, segs': Segs)
    requires ListOk(0, len, ents, Views(segs)) && ListKept(ents, segs, segs')
    ensures ListOk(0, len, ents, Views(segs')) && ListBytes(ents, Views(segs')) == ListBytes(ents, Views(segs))
  {
    ListTransfer(0, len, ents, Views(segs), Views(segs'));
  }

  lemma {:induction false} CountSome(ents: seq<Entry>, id: Eid, i: nat) returns (j: nat, m: nat)
    requires CountEnts(ents, id, i) > 0
    ensures j < |ents| && ents[j].segId == id && m < |ents[j].spans|
    ensures ents[j].spans[m].begin <= i < ents[j].spans[m].end
    decreases |ents|
  {
    var n := |ents| - 1;
    if CountEnts(ents[..n], id, i) > 0 {
      j, m := CountSome(ents[..n], id, i);
    } else {
      CountNothing(ents[n].spans, i);
      j := n;
      m :| 0 <= m < |ents[j].spans| && Covers(ents[j].spans[m], i) != 0;
    }
  }

  /** The chunks a well-formed list names lie inside the data. */
  lemma NamesInsideOf(offset: nat, len: nat, ents: seq<Entry>, segs: Segs)
    requires ListOk(offset, len, ents, Views(segs))
    ensures NamesInside(ents, segs)
  {
    hide EntryOk, Extents.Chain, Extents.Cat;
    forall id, i: nat | id in segs && i < |segs[id].chunks| && CountEnts(ents, id, i) > 0
      ensures segs[id].chunks[i].EndPos() <= |segs[id].data|
    {
      var j, m := CountSome(ents, id, i);
      assert InStore(ents[j], Views(segs));
      EntrySpanInside(ents[j], segs[id].View(), m, i);
    }
  }

  lemma EntrySpanInside(e: Entry, seg: SegView, m: nat, i: nat)
    requires EntryOk(e, seg) && m < |e.spans| && e.spans[m].begin <= i < e.spans[m].end
    ensures i < |seg.chunks| && seg.chunks[i].EndPos() <= |seg.data|
  {
    var span := e.spans[m];
    assert SpanOk(span, seg);
    if i < span.end - 1 {
      PositionsGrow(seg.chunks, span.begin, span.end, i, span.end - 1);
    }
  }

  lemma GrowthKeepsList(ents: seq<Entry>, segs: Segs, segs': Segs)
    requires RefsIn(ents, segs) && StoreGrows(Views(segs), Views(segs'))
    ensures ListKept(ents, segs, segs')
  {
    hide Keeps, SegGrows;
    forall j | 0 <= j < |ents| ensures EntryKept(ents[j], Views(segs), Views(segs')) {
      var e := ents[j];
      forall m | 0 <= m < |e.spans| ensures Keeps(e.spans[m], segs[e.segId].View(), segs'[e.segId].View()) {
        GrowthKeeps(e.spans[m], segs[e.segId].View(), segs'[e.segId].View());
      }
    }
  }

  /** Whatever was located before still is. */
  ghost predicate AllLocated(h: Hasher, a: Segs, b: Segs, retired: map<Eid, set<nat>>) {
    forall hash, loc :: Located(h, a, retired, hash, loc) ==> Located(h, b, retired, hash, loc)
  }

  lemma LocatedSelf(h: Hasher, segs: Segs, retired: map<Eid, set<nat>>)
    ensures AllLocated(h, segs, segs, retired)
  {
  }

  // the contents that stay when one is evicted
  function Without(lists: seq<seq<Entry>>, evict: Option<seq<Entry>>, k: nat): seq<seq<Entry>>
    requires evict.Some? ==> k < |lists|
  {
    if evict.Some? then lists[..k] + lists[k + 1..] else lists
  }

  // the last chunk the chunker cuts
  function LastChunk(pieces: seq<Bytes>): Bytes
    requires Flatten(pieces) != []
  {
    AllChunksConserve(Flatten(pieces));
    var chunks := AllChunks(Flatten(pieces));
    chunks[|chunks| - 1]
  }

  lemma ChunksToStage(pieces: seq<Bytes>)
    ensures var chunks := AllChunks(Flatten(pieces));
      && (forall i :: 0 <= i < |chunks| ==> chunks[i] != [])
      && (Flatten(pieces) != [] ==> chunks != [] && LastChunk(pieces) == chunks[|chunks| - 1])
  {
    hide AllChunks;
    AllChunksConserve(Flatten(pieces));
  }

  // the lists linked refer to chunks there are, and are counted; so does a further one
  ghost predicate Listed(ents: seq<Entry>, linked: seq<seq<Entry>>, segs: Segs) {
    RefsIn(ents, segs) && Conserved(segs, linked) && forall l :: 0 <= l < |linked| ==> RefsIn(linked[l], segs)
  }

  class File {
    var content: Content.Content
    var chkMap: ChunkMap
    const segs: SegmentStore
    ghost var bytes: Bytes
    ghost var at: nat           // which of the linked contents is the current one

    /** The current content is linked, and denotes the bytes. */
    ghost predicate Valid()
      reads this, segs, chkMap, content, content.ents, content.mtree
    {
      && segs.Sound() && at < |segs.linked| && segs.linked[at] == content.ents.ents
      && Holds(Views(segs.segs)) && chkMap.Valid()
    }

    ghost predicate Holds(store: Store)
      reads this`content, this`bytes, content, content.ents, content.mtree
    {
      content.Valid(store) && content.Model(store) == bytes
    }

    /** What the chunk map finds is there, so that chunks may be found again. */
    ghost predicate MapOk()
      requires chkMap.Valid()
      reads this, segs, chkMap, content
    {
      segs.Valid() && MapSound(content.h, segs.segs, segs.retired, chkMap.Locs())
    }

    constructor (h: Hasher, dedup: bool)
      ensures Valid() && MapOk() && content.h == h && bytes == []
      ensures chkMap.enabled == dedup && segs.segs == map[] && segs.linked == [[]]
      ensures fresh(segs) && fresh(chkMap) && fresh(content) && fresh(content.ents) && fresh(content.mtree)
    {
      var c := new Content.Content(h);
      var s := new SegmentStore();
      var m := new ChunkMap(dedup);
      var ok := s.Link([]);
      content, segs, chkMap, bytes, at := c, s, m, [], 0;
      EmptyListOk(0, Views(s.segs));
    }

    // the current content after the segments changed
    ghost method Carry(before: Segs)
      requires Holds(Views(before)) && ListKept(content.ents.ents, before, segs.segs)
      ensures Holds(Views(segs.segs))
    {
      KeptList(content.ents.len, content.ents.ents, before, segs.segs);
    }

    /** A chunk is written to a segment. */
    method PutChunk(id: Eid, data: Bytes) returns (written: nat)
      requires Valid() && data != []
      modifies segs
      ensures Valid() && (old(segs.Valid()) ==> segs.Valid()) && segs.linked == old(segs.linked)
      ensures written == if id in old(segs.segs) && |old(segs.segs)[id].chunks| >= MAX_CHUNKS then 0 else |data|
      ensures segs.segs == if written == 0 then old(segs.segs) else ContentWriter.Appended(old(segs.segs), id, data)
    {
      hide ListKept, ListOk, ListBytes, ChunkMap.Valid, Holds, SegmentStore.Sound, SegmentStore.Valid;
      ghost var before := segs.segs;
      written := segs.Write(id, data);
      Carry(before);
    }

    // the entries of the current content overwritten by staged ones
    ghost function Overwritten(staged: EntryList): seq<Entry>
      reads this`content, content, content.ents, staged, segs
    {
      WrittenEnts(content.ents.ents, content.ents.EndOffset(), staged.ents, staged.offset, staged.EndOffset(), Views(segs.segs))
    }

    // staged content merged into a copy of the current one
    method Merged(staged: EntryList, leaves: MerkleWriter.Leaves) returns (next: Content.Content)
      requires Valid() && staged.Ok(Views(segs.segs)) && staged.Denotes(Views(segs.segs)) != []
      requires staged.offset <= |bytes|
      requires leaves == MerkleWriter.StagedLeaves(content.h, staged.offset, staged.Denotes(Views(segs.segs)))
      ensures fresh(next) && fresh(next.ents) && fresh(next.mtree) && next.h == content.h
      ensures next.Valid(Views(segs.segs))
      ensures next.Model(Views(segs.segs)) == Splice(bytes, staged.offset, staged.Denotes(Views(segs.segs)))
      ensures EntsInBoth(next.ents.ents, content.ents.ents, staged.ents)
      ensures next.ents.ents == Overwritten(staged)
    {
      hide ListOk, ListBytes, ListKept, EntsInBoth, WrittenEnts, AvoidsRetired, RefsIn, Splice, MerkleWriter.StagedLeaves;
      hide SegmentStore.Sound, ChunkMap.Valid;
      var store := Views(segs.segs);
      content.ents.DenotesLen(store);
      next := new Content.Content.Clone(content);
      next.MergeFrom(staged, leaves, store);
    }

    // an overwritten version names no chunk too often to be linked, if there is room
    lemma OverwrittenLinks(next: seq<Entry>, staged: EntryList, n: nat)
      requires Valid() && segs.Valid() && AvoidsRetired(next, segs.retired)
      requires next == Overwritten(staged) && NamesAtMost(staged.ents, n) && RoomFor(segs.segs, n)
      ensures CanLink(segs.segs, next)
    {
      hide AllTiled, AvoidsRetired, WrittenEnts, Conserved, AllInside, Holds;
      forall id, i: nat ensures CountEnts(next, id, i) <= 2 * CountEnts(segs.linked[at], id, i) + n {
        WrittenCounts(content.ents.ents, content.ents.EndOffset(), staged.ents, staged.offset, staged.EndOffset(),
                      Views(segs.segs), id, i);
      }
      RoomLinks(segs.segs, segs.retired, segs.linked, at, next, n);
    }

    // nor does a cut one
    lemma HeadLinks(next: seq<Entry>, pos: nat)
      requires Valid() && segs.Valid() && AvoidsRetired(next, segs.retired)
      requires next == HeadEnts(content.ents.ents, pos, Views(segs.segs)) && RoomFor(segs.segs, 0)
      ensures CanLink(segs.segs, next)
    {
      hide AllTiled, AvoidsRetired, HeadEnts, Conserved, AllInside, Holds;
      forall id, i: nat ensures CountEnts(next, id, i) <= 2 * CountEnts(segs.linked[at], id, i) {
        CutCounts(content.ents.ents, pos, Views(segs.segs), id, i);
      }
      RoomLinks(segs.segs, segs.retired, segs.linked, at, next, 0);
    }

    /** Staged content is merged into a copy of the current one, which becomes the new
        current version once it is linked. It is linked exactly if all counts allow it,
        as they do while none comes near its maximum. */
    method Overwrite(staged: EntryList, leaves: MerkleWriter.Leaves) returns (ok: bool)
      requires Valid() && staged.Ok(Views(segs.segs)) && staged.Denotes(Views(segs.segs)) != []
      requires staged.offset <= |bytes|
      requires leaves == MerkleWriter.StagedLeaves(content.h, staged.offset, staged.Denotes(Views(segs.segs)))
      modifies this`content, this`bytes, this`at, segs
      ensures Valid() && content.h == old(content.h) && (!ok ==> bytes == old(bytes) && content == old(content))
      ensures !ok ==> segs.segs == old(segs.segs) && segs.linked == old(segs.linked)
      ensures ok ==>
        && bytes == Splice(old(bytes), staged.offset, old(staged.Denotes(Views(segs.segs))))
        && segs.linked == old(segs.linked) + [content.ents.ents] && at == |segs.linked| - 1
      ensures ok <==> CanLink(old(segs.segs), old(Overwritten(staged)))
      ensures old(segs.Valid()) && AvoidsRetired(staged.ents, old(segs.retired)) ==>
        forall n: nat :: NamesAtMost(staged.ents, n) && RoomFor(old(segs.segs), n) ==> ok
      ensures old(segs.Valid()) && AvoidsRetired(staged.ents, old(segs.retired)) ==>
        segs.Valid() && AllLocated(content.h, old(segs.segs), segs.segs, segs.retired) && segs.retired == old(segs.retired)
    {
      hide ListOk, ListBytes, ListKept, EntsIn, AvoidsRetired, RefsIn, Splice, MerkleWriter.StagedLeaves, AllLocated;
      hide CanLink, NamesAtMost, RoomFor, WrittenEnts, AllTiled, AllInside, Conserved, AllUsedOk, Holds;
      ghost var data := staged.Denotes(Views(segs.segs));
      var next := Merged(staged, leaves);
      if segs.Valid() && AvoidsRetired(staged.ents, segs.retired) {
        LinkedAvoids(segs.segs, segs.retired, segs.linked, at);
        AvoidsBoth(content.ents.ents, staged.ents, segs.retired);
        AvoidsIn(next.ents.ents, content.ents.ents + staged.ents, segs.retired);
        forall n: nat | NamesAtMost(staged.ents, n) && RoomFor(segs.segs, n) ensures CanLink(segs.segs, next.ents.ents) {
          OverwrittenLinks(next.ents.ents, staged, n);
        }
      }
      ok := Adopt(next, Splice(bytes, staged.offset, data));
    }

    /** The content is cut, as a new version. */
    method Cut(pos: nat) returns (ok: bool)
      requires Valid() && bytes != [] && pos <= |bytes|
      modifies this`content, this`bytes, this`at, segs
      ensures Valid() && content.h == old(content.h) && (!ok ==> bytes == old(bytes) && content == old(content))
      ensures !ok ==> segs.segs == old(segs.segs) && segs.linked == old(segs.linked)
      ensures ok ==> bytes == old(bytes)[..pos] && segs.linked == old(segs.linked) + [content.ents.ents]
      ensures ok <==> CanLink(old(segs.segs), HeadEnts(old(content.ents.ents), pos, Views(old(segs.segs))))
      ensures old(segs.Valid()) && RoomFor(old(segs.segs), 0) ==> ok
      ensures old(segs.Valid()) ==> segs.Valid() && (old(MapOk()) ==> MapOk())
    {
      hide ListOk, ListBytes, ListKept, EntsIn, AvoidsRetired, RefsIn, CanLink, HeadEnts, RoomFor;
      var store := Views(segs.segs);
      content.ents.DenotesLen(store);
      NoEntries(content.ents.ents, store);
      var next := new Content.Content.Clone(content);
      next.Truncate(pos, store);
      if segs.Valid() {
        LinkedAvoids(segs.segs, segs.retired, segs.linked, at);
        AvoidsIn(next.ents.ents, content.ents.ents, segs.retired);
        if RoomFor(segs.segs, 0) {
          HeadLinks(next.ents.ents, pos);
        }
      }
      ok := Adopt(next, bytes[..pos]);
    }

    // link a new version; if that fails the current one stays
    method Adopt(next: Content.Content, ghost data: Bytes) returns (ok: bool)
      requires Valid() && next.Valid(Views(segs.segs)) && next.Model(Views(segs.segs)) == data && next.h == content.h
      modifies this`content, this`bytes, this`at, segs
      ensures Valid() && content.h == next.h && (!ok ==> bytes == old(bytes) && content == old(content))
      ensures !ok ==> segs.segs == old(segs.segs) && segs.linked == old(segs.linked)
      ensures ok ==> bytes == data && content == next
      ensures ok <==> CanLink(old(segs.segs), next.ents.ents)
      ensures ok ==> segs.linked == old(segs.linked) + [next.ents.ents] && at == |segs.linked| - 1
      ensures old(segs.Valid()) && AvoidsRetired(next.ents.ents, old(segs.retired)) ==>
        segs.Valid() && AllLocated(content.h, old(segs.segs), segs.segs, segs.retired) && segs.retired == old(segs.retired)
    {
      hide ListOk, ListBytes, ListKept, AvoidsRetired, RaisedBy, AllLocated, ChunkMap.Valid, NamesInside, CanLink;
      hide SegmentStore.Counted, AllTiled, AllInside, Content.Content.Valid;
      ghost var before := segs.segs;
      LocatedSelf(content.h, before, segs.retired);
      NextNames(next);
      ok := segs.Link(next.ents.ents);
      if ok {
        RaisedKept(before, segs.segs, next.ents.ents, next.ents.ents);
        RaisedLocated(content.h, before, segs.segs, next.ents.ents, segs.retired);
        content := next;
        bytes, at := data, |segs.linked| - 1;
        Carry(before);
      }
    }

    // a list that is well formed can be linked, and leaves the store sound
    lemma NextNames(next: Content.Content)
      requires next.Valid(Views(segs.segs))
      ensures RefsIn(next.ents.ents, segs.segs) && NamesInside(next.ents.ents, segs.segs)
    {
      hide ListOk;
      RefsOfList(0, next.ents.len, next.ents.ents, segs.segs);
      NamesInsideOf(0, next.ents.len, next.ents.ents, segs.segs);
    }

    /** An older version is dropped: segments it alone used are removed, others may be
        compacted. The file's chunk map forgets what is gone; another one, taken before,
        is right exactly for the chunks that remain. */
    method Drop(ents: seq<Entry>, ghost k: nat)
      requires Valid() && k < |segs.linked| && k != at && segs.linked[k] == ents
      modifies this`at, segs, chkMap
      ensures Valid() && segs.linked == old(segs.linked)[..k] + old(segs.linked)[k + 1..]
      ensures old(segs.Valid()) ==> segs.Valid() && (old(MapOk()) ==> MapOk())
      ensures old(segs.Valid()) ==>
        StillLocated(content.h, old(segs.segs), old(segs.retired), segs.segs, segs.retired)
      ensures old(segs.Valid() && MapOk()) ==>
        chkMap.Locs() == Remaining(old(chkMap.Locs()), segs.segs, segs.retired)
      ensures forall j :: 0 <= j < |ents| ==>
        (ents[j].segId !in segs.segs <==> Unused(segs.linked, ents[j].segId, |old(segs.segs)[ents[j].segId].chunks|))
      ensures forall j :: 0 <= j < |ents| && ents[j].segId in segs.segs ==>
        Reclaimed(old(segs.segs)[ents[j].segId], segs.segs[ents[j].segId])
      ensures forall id :: id in segs.segs && !Names(ents, id) ==> id in old(segs.segs) && segs.segs[id] == old(segs.segs)[id]
    {
      hide ListOk, ListBytes, ListKept, ChunkMap.Valid, MapSound, StillLocated, Remaining, Reclaimed, Names, Unused;
      ghost var before := segs.segs;
      segs.Unlink(ents, k, chkMap, content.h);
      at := if k < at then at - 1 else at;
      assert ListKept(segs.linked[at], before, segs.segs);
      Carry(before);
    }

    // a content writer with a copy of the chunk map
    method OpenWriter(pos: nat) returns (w: ContentWriter.Writer)
      requires chkMap.Valid() && MapOk()
      ensures fresh(w) && fresh(w.ctn) && fresh(w.mtree) && fresh(w.chkMap)
      ensures w.Valid() && w.segs == segs && w.h == content.h && w.ctn.offset == pos && w.chunks == []
      ensures w.chkMap.enabled == chkMap.enabled && w.chkMap.Locs() == chkMap.Locs()
    {
      hide ChunkMap.Valid, SegmentStore.Valid, MapSound;
      var map_ := new ChunkMap.Clone(chkMap);
      w := new ContentWriter.Writer(content.h, segs, map_);
      w.Seek(pos);
    }

    // what is written goes through the chunker to a content writer
    method Stage(pos: nat, params: Params, pieces: seq<Bytes>, ids: nat -> Eid) returns (w: ContentWriter.Writer)
      requires Valid() && MapOk() && ParamsOk(params)
      requires ContentWriter.NewIds(ids, segs.segs)
      requires ContentWriter.NoCollision(content.h, AllChunks(Flatten(pieces)))
      modifies segs
      ensures Valid() && fresh(w) && fresh(w.ctn) && fresh(w.mtree) && fresh(w.chkMap)
      ensures w.Valid() && w.segs == segs && w.h == content.h && w.ctn.offset == pos
      ensures w.chunks == AllChunks(Flatten(pieces))
      ensures w.chkMap.enabled == chkMap.enabled
      ensures Flatten(pieces) != [] && chkMap.enabled ==> w.chkMap.Newest(w.h(LastChunk(pieces)))
      ensures segs.linked == old(segs.linked)
      ensures forall n: nat :: RoomFor(old(segs.segs), n) ==> RoomFor(segs.segs, n)
    {
      hide ContentWriter.Writer.Valid, ContentWriter.NoCollision, ContentWriter.NewIds;
      hide AllChunks, LastChunk, Flatten, ChunkMap.Valid, ChunkMap.Newest, ParamsOk, Holds;
      hide SegmentStore.Sound, SegmentStore.Valid, MapSound, StoreGrows, ListKept, RoomFor, Listed;
      ghost var before := segs.segs;
      w := OpenWriter(pos);
      var chunks := Chunker.ChunkAll(params, pieces);
      ChunksToStage(pieces);
      IsListed();
      w.WriteAll(chunks, ids);
      WriterSound(w);
      Grown(before);
      Carry(before);
    }

    // segments that only grow keep the list and the room for references
    lemma Grown(before: Segs)
      requires segs.Sound() && Listed(content.ents.ents, segs.linked, before) && StoreGrows(Views(before), Views(segs.segs))
      ensures forall n: nat :: RoomFor(before, n) ==> RoomFor(segs.segs, n)
      ensures ListKept(content.ents.ents, before, segs.segs)
    {
      hide RoomFor, StoreGrows, RefsIn, ListKept;
      forall n: nat | RoomFor(before, n) ensures RoomFor(segs.segs, n) {
        RoomGrows(before, segs.segs, segs.linked, n);
      }
      GrowthKeepsList(content.ents.ents, before, segs.segs);
    }

    lemma IsListed()
      requires Valid()
      ensures Listed(content.ents.ents, segs.linked, segs.segs)
    {
    }

    /** Staged content becomes a new version, the oldest one may go, and the chunk map
        of the writer becomes the file's. That one knows nothing of what went with the
        old version: it is right exactly if all chunks it names remain. */
    method Finish(staged: EntryList, leaves: MerkleWriter.Leaves, newMap: ChunkMap,
                  evict: Option<seq<Entry>>, ghost k: nat) returns (ok: bool)
      requires Valid() && staged.Ok(Views(segs.segs)) && staged.Denotes(Views(segs.segs)) != []
      requires staged.offset <= |bytes|
      requires leaves == MerkleWriter.StagedLeaves(content.h, staged.offset, staged.Denotes(Views(segs.segs)))
      requires segs.Valid() && AvoidsRetired(staged.ents, segs.retired) && newMap.Valid() && newMap != chkMap
      requires MapSound(content.h, segs.segs, segs.retired, newMap.Locs())
      requires evict.Some? ==> k < |segs.linked| && segs.linked[k] == evict.value
      modifies this, segs, chkMap
      ensures Valid() && segs.Valid() && content.h == old(content.h)
      ensures bytes == if ok then Splice(old(bytes), staged.offset, old(staged.Denotes(Views(segs.segs)))) else old(bytes)
      ensures ok <==> CanLink(old(segs.segs), old(Overwritten(staged)))
      ensures forall n: nat :: NamesAtMost(staged.ents, n) && RoomFor(old(segs.segs), n) ==> ok
      ensures ok ==> segs.linked == Without(old(segs.linked), evict, k) + [content.ents.ents]
      ensures ok ==> chkMap == newMap && chkMap.Locs() == old(newMap.Locs())
      ensures !ok ==> content == old(content) && segs.linked == old(segs.linked) && chkMap == old(chkMap)
      ensures ok ==> (MapOk() <==> forall p :: p in chkMap.Locs() ==> Remains(segs.segs, segs.retired, p.1))
      ensures ok && evict.None? ==> MapOk()
    {
      hide Holds, SegmentStore.Sound, SegmentStore.Valid, ChunkMap.Valid, Splice, MapSound, AllLocated, StillLocated;
      hide AvoidsRetired, ListOk, MerkleWriter.StagedLeaves, CanLink, NamesAtMost, RoomFor, WrittenEnts;
      ghost var locs := newMap.Locs();
      ok := Overwrite(staged, leaves);
      if ok {
        LocatedSound(content.h, old(segs.segs), segs.segs, segs.retired, locs);
        SoundRemains(content.h, segs.segs, segs.retired, locs);
        if evict.Some? {
          ghost var before, gone := segs.segs, segs.retired;
          Drop(evict.value, k);
          StillSound(content.h, before, gone, segs.segs, segs.retired, locs);
        }
        chkMap := newMap;
      }
    }

    /** Writing to a file overwrites its bytes. It always succeeds while no count comes
        near its maximum. */
    method WriteFrom(pos: nat, params: Params, pieces: seq<Bytes>, ids: nat -> Eid,
                     evict: Option<seq<Entry>>, ghost k: nat) returns (ok: bool)
      requires Valid() && MapOk() && ParamsOk(params) && pos <= |bytes| && Flatten(pieces) != []
      requires ContentWriter.NewIds(ids, segs.segs)
      requires ContentWriter.NoCollision(content.h, AllChunks(Flatten(pieces)))
      requires evict.Some? ==> k < |segs.linked| && segs.linked[k] == evict.value
      modifies this, segs, chkMap
      ensures Valid() && segs.Valid() && content.h == old(content.h)
      ensures bytes == if ok then Splice(old(bytes), pos, Flatten(pieces)) else old(bytes)
      ensures RoomFor(old(segs.segs), |AllChunks(Flatten(pieces))|) ==> ok
      ensures ok ==> segs.linked == Without(old(segs.linked), evict, k) + [content.ents.ents]
      ensures ok ==> chkMap.enabled == old(chkMap.enabled) && (chkMap.enabled ==> chkMap.Newest(content.h(LastChunk(pieces))))
      ensures !ok ==> content == old(content) && segs.linked == old(segs.linked) && chkMap == old(chkMap)
      ensures ok ==> (MapOk() <==> forall p :: p in chkMap.Locs() ==> Remains(segs.segs, segs.retired, p.1))
      ensures ok && evict.None? ==> MapOk()
    {
      hide Holds, SegmentStore.Sound, SegmentStore.Valid, ChunkMap.Valid, Splice, MapSound, AllChunks, ParamsOk;
      hide ContentWriter.Writer.Valid, AvoidsRetired, ListOk, ListBytes, MerkleWriter.StagedLeaves, Remains,
        ContentWriter.Alike, NamesAtMost, RoomFor, CanLink;
      var w := Stage(pos, params, pieces, ids);
      WriterSame(w);
      WriterStaged(w);
      AllChunksConserve(Flatten(pieces));
      var leaves := w.Finish();
      ok := Finish(w.ctn, leaves, w.chkMap, evict, k);
    }
  }

  lemma WriterSound(w: ContentWriter.Writer)
    requires w.Valid()
    ensures w.segs.Sound()
  {
  }

  // what a writer hands over, when it staged what was written
  lemma WriterStaged(w: ContentWriter.Writer)
    requires w.Valid()
    ensures w.segs.Valid() && w.chkMap.Valid() && AvoidsRetired(w.ctn.ents, w.segs.retired)
    ensures MapSound(w.h, w.segs.segs, w.segs.retired, w.chkMap.Locs())
    ensures w.ctn.Ok(Views(w.segs.segs)) && w.ctn.Denotes(Views(w.segs.segs)) == Flatten(w.staged)
    ensures NamesAtMost(w.ctn.ents, |w.chunks|)
  {
  }

  lemma WriterSame(w: ContentWriter.Writer)
    requires w.Valid() && ContentWriter.NoCollision(w.h, w.chunks)
    ensures w.staged == w.chunks
  {
    ContentWriter.AlikeIsSame(w.h, w.chunks, w.staged);
  }

  lemma LocatedSound(h: Hasher, a: Segs, b: Segs, retired: map<Eid, set<nat>>, locs: set<(Hash, ChunkLoc)>)
    requires MapSound(h, a, retired, locs) && AllLocated(h, a, b, retired)
    ensures MapSound(h, b, retired, locs)
  {
    forall p | p in locs ensures Located(h, b, retired, p.0, p.1) {
      assert Located(h, a, retired, p.0, p.1);
    }
  }

  lemma SoundRemains(h: Hasher, segs: Segs, retired: map<Eid, set<nat>>, locs: set<(Hash, ChunkLoc)>)
    requires MapSound(h, segs, retired, locs)
    ensures forall p :: p in locs ==> Remains(segs, retired, p.1)
  {
    forall p | p in locs ensures Remains(segs, retired, p.1) {
      assert Located(h, segs, retired, p.0, p.1);
    }
  }

  /** A map that was right before, and of which only chunks are named that remain. */
  lemma StillSound(h: Hasher, a: Segs, aRetired: map<Eid, set<nat>>, b: Segs, bRetired: map<Eid, set<nat>>,
                   locs: set<(Hash, ChunkLoc)>)
    requires MapSound(h, a, aRetired, locs) && StillLocated(h, a, aRetired, b, bRetired)
    ensures MapSound(h, b, bRetired, locs) <==> forall p :: p in locs ==> Remains(b, bRetired, p.1)
  {
    forall p | p in locs
      ensures Located(h, b, bRetired, p.0, p.1) <==> Remains(b, bRetired, p.1)
    {
      assert Located(h, a, aRetired, p.0, p.1);
    }
  }

  // counts went up, nothing else changed
  lemma RaisedKept(a: Segs, b: Segs, more: seq<Entry>, ents: seq<Entry>)
    requires RaisedBy(a, b, more) && RefsIn(ents, a)
    ensures ListKept(ents, a, b)
  {
  }

  lemma RaisedLocated(h: Hasher, a: Segs, b: Segs, more: seq<Entry>, retired: map<Eid, set<nat>>)
    requires RaisedBy(a, b, more)
    ensures AllLocated(h, a, b, retired)
  {
    forall hash, loc | Located(h, a, retired, hash, loc) ensures Located(h, b, retired, hash, loc) {
      assert Raised(a[loc.segId], b[loc.segId], i => CountEnts(more, loc.segId, i));
    }
  }

  lemma NoEntries(ents: seq<Entry>, store: Store)
    ensures ListBytes(ents, store) != [] ==> ents != []
  {
  }
}
