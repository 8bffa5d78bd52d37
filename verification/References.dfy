/** Reference counting between contents and segments.

    First the counts themselves: spans over a chunk, in one list and in all linked
    lists. Then the loops that count up and down, what a chunk map finds while
    segments change, and the store that links and unlinks contents. The rest carries
    a release through its loop: what each segment is like once the first entries are
    done, whether it was left, removed or compacted. */
module References {
  import opened Basics
  import opened Spans
  import opened Entries
  import opened EntryLists
  import opened Segments
  import opened ChunkMaps

  function Covers(s: Span, i: nat): nat { if s.begin <= i < s.end then 1 else 0 }

  /** How many spans cover chunk i. */
  function CountSpans(spans: seq<Span>, i: nat): nat {
    if spans == [] then 0
    else CountSpans(spans[..|spans| - 1], i) + Covers(spans[|spans| - 1], i)
  }

  /** How many spans of an entry list cover chunk i of segment `id`. */
  function CountEnts(ents: seq<Entry>, id: Eid, i: nat): nat {
    if ents == [] then 0
    else
      CountEnts(ents[..|ents| - 1], id, i) +
      if ents[|ents| - 1].segId == id then CountSpans(ents[|ents| - 1].spans, i) else 0
  }

  function CountLists(lists: seq<seq<Entry>>, id: Eid, i: nat): nat {
    if lists == [] then 0
    else CountLists(lists[..|lists| - 1], id, i) + CountEnts(lists[|lists| - 1], id, i)
  }

  lemma {:induction false} CountSpansGrows(spans: seq<Span>, j: nat, i: nat)
    requires j <= |spans|
    ensures CountSpans(spans[..j], i) <= CountSpans(spans, i)
    decreases |spans|
  {
    if j < |spans| {
      CountSpansGrows(spans[..|spans| - 1], j, i);
      assert spans[..|spans| - 1][..j] == spans[..j];
    } else {
      assert spans[..j] == spans;
    }
  }

  lemma {:induction false} CountEntsGrows(ents: seq<Entry>, j: nat, id: Eid, i: nat)
    requires j <= |ents|
    ensures CountEnts(ents[..j], id, i) <= CountEnts(ents, id, i)
    decreases |ents|
  {
    if j < |ents| {
      CountEntsGrows(ents[..|ents| - 1], j, id, i);
      assert ents[..|ents| - 1][..j] == ents[..j];
    } else {
      assert ents[..j] == ents;
    }
  }

  lemma CountSpansStep(spans: seq<Span>, j: nat, i: nat)
    requires j < |spans|
    ensures CountSpans(spans[..j + 1], i) == CountSpans(spans[..j], i) + Covers(spans[j], i)
    ensures CountSpans(spans[..j + 1], i) <= CountSpans(spans, i)
  {
    assert spans[..j + 1][..j] == spans[..j];
    CountSpansGrows(spans, j + 1, i);
  }

  lemma CountEntsStep(ents: seq<Entry>, j: nat, id: Eid, i: nat)
    requires j < |ents|
    ensures CountEnts(ents[..j + 1], id, i) ==
      CountEnts(ents[..j], id, i) + if ents[j].segId == id then CountSpans(ents[j].spans, i) else 0
    ensures CountEnts(ents[..j + 1], id, i) <= CountEnts(ents, id, i)
  {
    assert ents[..j + 1][..j] == ents[..j];
    CountEntsGrows(ents, j + 1, id, i);
  }

  lemma {:induction false} CountListsAt(lists: seq<seq<Entry>>, k: nat, id: Eid, i: nat)
    requires k < |lists|
    ensures CountLists(lists, id, i) == CountLists(lists[..k] + lists[k + 1..], id, i) + CountEnts(lists[k], id, i)
    decreases |lists|
  {
    var n := |lists| - 1;
    if k < n {
      CountListsAt(lists[..n], k, id, i);
      var rest := lists[..k] + lists[k + 1..];
      assert rest[..|rest| - 1] == lists[..n][..k] + lists[..n][k + 1..];
      assert rest[|rest| - 1] == lists[n];
    } else {
      assert lists[..k] + lists[k + 1..] == lists[..n];
    }
  }

  /** Same segment, except that counts went up by what `n` says. */
  ghost predicate Raised(a: Segment, b: Segment, n: nat -> nat) {
    && a.len == b.len && a.data == b.data && |a.chunks| == |b.chunks|
    && forall i :: 0 <= i < |a.chunks| ==> b.chunks[i] == a.chunks[i].(refcnt := a.chunks[i].refcnt + n(i))
  }

  /** `used` is the length of the referenced chunks, no more than the segment has,
      and no count is over its maximum. */
  ghost predicate UsedOk(s: Segment) {
    && s.used == UsedLen(s.chunks) <= s.len
    && forall i :: 0 <= i < |s.chunks| ==> s.chunks[i].refcnt <= U32_MAX
  }

  ghost function Lifted(chunks: seq<Chunk>, n: nat -> nat): (r: seq<Chunk>)
    ensures |r| == |chunks|
    ensures forall i :: 0 <= i < |r| ==> r[i] == chunks[i].(refcnt := chunks[i].refcnt + n(i))
  {
    seq(|chunks|, i requires 0 <= i < |chunks| => chunks[i].(refcnt := chunks[i].refcnt + n(i)))
  }

  /** No count would overflow, and no more than the whole segment would be used. */
  ghost predicate CanRaise(s: Segment, n: nat -> nat) {
    && (forall i :: 0 <= i < |s.chunks| ==> s.chunks[i].refcnt + n(i) <= U32_MAX)
    && UsedLen(Lifted(s.chunks, n)) <= s.len
  }

  /** A list can be linked: no count overflows and no segment gets more used than it is
      long. */
  ghost predicate CanLink(segs: Segs, ents: seq<Entry>) {
    forall id :: id in segs ==> CanRaise(segs[id], i => CountEnts(ents, id, i))
  }

  lemma {:induction false} UsedGrows(a: seq<Chunk>, b: seq<Chunk>)
    requires |a| == |b| && forall i :: 0 <= i < |a| ==> LiveLenOf(a[i]) <= LiveLenOf(b[i])
    ensures UsedLen(a) <= UsedLen(b)
    decreases |a|
  {
    if a != [] {
      UsedGrows(a[..|a| - 1], b[..|b| - 1]);
    }
  }

  lemma RaisedCan(a: Segment, b: Segment, n: nat -> nat)
    requires Raised(a, b, n) && UsedOk(b)
    ensures CanRaise(a, n)
  {
    assert b.chunks == Lifted(a.chunks, n);
  }

  // what is left to raise can still be raised after a part of it
  lemma CanStill(a: Segment, b: Segment, n: nat -> nat, m: nat -> nat, k: nat -> nat)
    requires Raised(a, b, n) && CanRaise(a, k)
    requires forall i :: 0 <= i < |a.chunks| ==> n(i) + m(i) <= k(i)
    ensures CanRaise(b, m)
  {
    UsedGrows(Lifted(b.chunks, m), Lifted(a.chunks, k));
  }

  function One(at: nat): nat -> nat { i => if i == at then 1 else 0 }

  lemma RefChunkCan(s: Segment, idx: nat)
    requires UsedOk(s) && idx < |s.chunks|
    ensures s.RefChunk(idx).Some? <==> CanRaise(s, One(idx))
    ensures s.RefChunk(idx).Some? ==> UsedOk(s.RefChunk(idx).value)
  {
    var c := s.chunks[idx];
    UsedUpdate(s.chunks, idx, c.(refcnt := c.refcnt + 1));
    assert Lifted(s.chunks, One(idx)) == s.chunks[idx := c.(refcnt := c.refcnt + 1)];
  }

  ghost predicate InBounds(spans: seq<Span>, n: nat) {
    forall j :: 0 <= j < |spans| ==> spans[j].begin < spans[j].end <= n
  }

  // count up every chunk of a range, or stop where a count overflows or the
  // assertion fails
  method RefChunks(s: Segment, begin: nat, end: nat) returns (r: Option<Segment>)
    requires UsedOk(s) && begin <= end <= |s.chunks|
    ensures r.Some? <==> CanRaise(s, i => if begin <= i < end then 1 else 0)
    ensures r.Some? ==> UsedOk(r.value) && Raised(s, r.value, i => if begin <= i < end then 1 else 0)
  {
    hide UsedOk, CanRaise;
    var work := s;
    var idx := begin;
    while idx < end
      invariant begin <= idx <= end
      invariant UsedOk(work) && Raised(s, work, i => if begin <= i < idx then 1 else 0)
    {
      RefChunkCan(work, idx);
      var next := work.RefChunk(idx);
      if next.None? {
        if CanRaise(s, i => if begin <= i < end then 1 else 0) {
          CanStill(s, work, i => if begin <= i < idx then 1 else 0, One(idx), i => if begin <= i < end then 1 else 0);
        }
        return None;
      }
      work := next.value;
      idx := idx + 1;
    }
    RaisedCan(s, work, i => if begin <= i < end then 1 else 0);
    return Some(work);
  }

  lemma DerefKeepsUsed(s: Segment, idx: nat)
    requires UsedOk(s) && idx < |s.chunks|
    ensures s.DerefChunk(idx).Some? ==> UsedOk(s.DerefChunk(idx).value)
  {
    RefKeepsUsed(s, idx);
  }

  // count down every chunk of a range
  method DerefChunks(s: Segment, begin: nat, end: nat) returns (r: Option<Segment>)
    requires UsedOk(s) && begin <= end <= |s.chunks|
    ensures r.Some? ==> UsedOk(r.value) && Raised(r.value, s, i => if begin <= i < end then 1 else 0)
    ensures r.None? ==> exists i :: begin <= i < end && s.chunks[i].refcnt == 0
  {
    var work := s;
    var idx := begin;
    while idx < end
      invariant begin <= idx <= end
      invariant UsedOk(work) && Raised(work, s, i => if begin <= i < idx then 1 else 0)
    {
      DerefKeepsUsed(work, idx);
      var next := work.DerefChunk(idx);
      if next.None? {
        return None;
      }
      work := next.value;
      idx := idx + 1;
    }
    return Some(work);
  }

  method RefSpans(s: Segment, spans: seq<Span>) returns (r: Option<Segment>)
    requires UsedOk(s) && InBounds(spans, |s.chunks|)
    ensures r.Some? <==> CanRaise(s, i => CountSpans(spans, i))
    ensures r.Some? ==> UsedOk(r.value) && Raised(s, r.value, i => CountSpans(spans, i))
  {
    hide UsedOk, CanRaise;
    var work := s;
    for j := 0 to |spans|
      invariant UsedOk(work) && Raised(s, work, i => CountSpans(spans[..j], i))
    {
      var next := RefChunks(work, spans[j].begin, spans[j].end);
      forall i: nat ensures CountSpans(spans[..j + 1], i) == CountSpans(spans[..j], i) + Covers(spans[j], i)
                    ensures CountSpans(spans[..j + 1], i) <= CountSpans(spans, i) {
        CountSpansStep(spans, j, i);
      }
      if next.None? {
        if CanRaise(s, i => CountSpans(spans, i)) {
          CanStill(s, work, i => CountSpans(spans[..j], i), i => if spans[j].begin <= i < spans[j].end then 1 else 0,
                   i => CountSpans(spans, i));
        }
        return None;
      }
      work := next.value;
    }
    assert spans[..|spans|] == spans;
    RaisedCan(s, work, i => CountSpans(spans, i));
    return Some(work);
  }

  /** As long as the counts are there, giving them back never underflows. */
  method DerefSpans(s: Segment, spans: seq<Span>) returns (r: Segment)
    requires UsedOk(s) && InBounds(spans, |s.chunks|)
    requires forall i :: 0 <= i < |s.chunks| ==> CountSpans(spans, i) <= s.chunks[i].refcnt
    ensures UsedOk(r) && Raised(r, s, i => CountSpans(spans, i))
  {
    hide UsedOk;
    r := s;
    for j := 0 to |spans|
      invariant UsedOk(r) && Raised(r, s, i => CountSpans(spans[..j], i))
    {
      forall i: nat ensures CountSpans(spans[..j + 1], i) == CountSpans(spans[..j], i) + Covers(spans[j], i)
                    ensures CountSpans(spans[..j + 1], i) <= CountSpans(spans, i) {
        CountSpansStep(spans, j, i);
      }
      var next := DerefChunks(r, spans[j].begin, spans[j].end);
      r := next.value;
    }
    assert spans[..|spans|] == spans;
  }

  // a segment with this many is full
  const MAX_CHUNKS: nat := 256

  type Segs = map<Eid, Segment>

  function Views(segs: Segs): (r: Store)
    ensures r.Keys == segs.Keys
    ensures forall id :: id in segs ==> r[id] == segs[id].View()
  {
    map id | id in segs :: segs[id].View()
  }

  /** Every span of the list names an existing, non-empty range of chunks. */
  ghost predicate RefsIn(ents: seq<Entry>, segs: Segs) {
    forall j :: 0 <= j < |ents| ==>
      ents[j].segId in segs && ents[j].spans != [] && InBounds(ents[j].spans, |segs[ents[j].segId].chunks|)
  }

  /** Each count is the number of spans of linked contents that cover the chunk. */
  ghost predicate Conserved(segs: Segs, lists: seq<seq<Entry>>) {
    forall id, i: nat :: id in segs && i < |segs[id].chunks| ==>
      segs[id].chunks[i].refcnt == CountLists(lists, id, i)
  }

  ghost predicate AllUsedOk(segs: Segs) {
    forall id :: id in segs ==> UsedOk(segs[id])
  }

  ghost predicate AllInside(segs: Segs) {
    forall id :: id in segs ==> Inside(segs[id])
  }

  // every chunk the list names lies inside the data
  ghost predicate NamesInside(ents: seq<Entry>, segs: Segs) {
    forall id, i: nat :: id in segs && i < |segs[id].chunks| && CountEnts(ents, id, i) > 0 ==>
      segs[id].chunks[i].EndPos() <= |segs[id].data|
  }

  ghost predicate AllTiled(segs: Segs, retired: map<Eid, set<nat>>) {
    forall id :: id in segs ==> id in retired && Tiled(segs[id], retired[id])
  }

  // no retired chunk is named
  ghost predicate AvoidsRetired(ents: seq<Entry>, retired: map<Eid, set<nat>>) {
    forall j, i: nat :: 0 <= j < |ents| && ents[j].segId in retired && i in retired[ents[j].segId] ==>
      CountSpans(ents[j].spans, i) == 0
  }

  // counts of every segment went up by what the list holds
  ghost predicate RaisedBy(a: Segs, b: Segs, ents: seq<Entry>) {
    && a.Keys == b.Keys
    && forall id :: id in a ==> Raised(a[id], b[id], i => CountEnts(ents, id, i))
  }

  lemma {:induction false} CountRetired(ents: seq<Entry>, retired: map<Eid, set<nat>>, id: Eid, i: nat)
    requires AvoidsRetired(ents, retired) && id in retired && i in retired[id]
    ensures CountEnts(ents, id, i) == 0
    decreases |ents|
  {
    if ents != [] {
      CountRetired(ents[..|ents| - 1], retired, id, i);
    }
  }

  lemma RaisedTiles(a: Segment, b: Segment, n: nat -> nat, retired: set<nat>)
    requires Tiled(a, retired) && Raised(a, b, n) && forall i :: i in retired ==> n(i) == 0
    ensures Tiled(b, retired)
  {
    forall i | 0 <= i < |a.chunks| ensures Placed(b.chunks, retired, i) {
      assert Placed(a.chunks, retired, i);
      BeforeSame(a.chunks, b.chunks, retired, i);
    }
    BeforeSame(a.chunks, b.chunks, retired, |a.chunks|);
  }

  lemma LoweredTiles(a: Segment, b: Segment, n: nat -> nat, retired: set<nat>)
    requires Tiled(b, retired) && Raised(a, b, n)
    ensures Tiled(a, retired)
  {
    forall i | 0 <= i < |a.chunks| ensures Placed(a.chunks, retired, i) {
      assert Placed(b.chunks, retired, i);
      BeforeSame(a.chunks, b.chunks, retired, i);
    }
    BeforeSame(a.chunks, b.chunks, retired, |a.chunks|);
  }

  lemma LoweredInside(a: Segment, b: Segment, n: nat -> nat)
    requires Inside(b) && Raised(a, b, n)
    ensures Inside(a)
  {
    forall i | 0 <= i < |a.chunks| ensures ChunkInside(a, i) {
      assert ChunkInside(b, i);
    }
  }

  lemma RaisedInside(a: Segment, b: Segment, n: nat -> nat)
    requires Inside(a) && Raised(a, b, n)
    ensures Inside(b) <==> forall i :: 0 <= i < |b.chunks| && n(i) > 0 ==> b.chunks[i].EndPos() <= |b.data|
  {
    forall i | 0 <= i < |a.chunks|
      ensures ChunkInside(b, i) <==> (n(i) > 0 ==> b.chunks[i].EndPos() <= |b.data|)
    {
      assert ChunkInside(a, i);
    }
  }

  lemma AllTiledInside(segs: Segs, retired: map<Eid, set<nat>>)
    requires AllTiled(segs, retired)
    ensures AllInside(segs)
  {
    hide Inside, Tiled;
    forall id | id in segs ensures Inside(segs[id]) {
      TiledInside(segs[id], retired[id]);
    }
  }

  lemma LoweredAllTiled(segs: Segs, retired: map<Eid, set<nat>>, id: Eid, seg: Segment, n: nat -> nat)
    requires AllTiled(segs, retired) && id in segs && Raised(seg, segs[id], n)
    ensures AllTiled(segs[id := seg], retired) && id in retired && Tiled(seg, retired[id])
  {
    hide Tiled;
    LoweredTiles(seg, segs[id], n, retired[id]);
  }

  lemma RemovedAllTiled(segs: Segs, retired: map<Eid, set<nat>>, id: Eid)
    requires AllTiled(segs, retired)
    ensures AllTiled(segs - {id}, retired)
  {
  }

  lemma ShrunkAllTiled(segs: Segs, retired: map<Eid, set<nat>>, id: Eid, seg: Segment, small: Segment)
    requires AllTiled(segs, retired) && id in retired && Tiled(seg, retired[id]) && ShrunkTo(seg, small)
    ensures AllTiled(segs[id := small], retired[id := Orphans(small.chunks)])
  {
    ShrinkTiles(seg, retired[id], small);
    hide Tiled;
  }

  /** The chunk is there, was not dropped, and its bytes have the hash. */
  ghost predicate Located(h: Hasher, segs: Segs, retired: map<Eid, set<nat>>, hash: Hash, loc: ChunkLoc) {
    && loc.segId in segs && loc.idx < |segs[loc.segId].chunks|
    && (loc.segId in retired ==> loc.idx !in retired[loc.segId])
    && var (c, data) := (segs[loc.segId].chunks[loc.idx], segs[loc.segId].data);
       c.EndPos() <= |data| && h(data[c.pos..c.EndPos()]) == hash
  }

  ghost predicate MapSound(h: Hasher, segs: Segs, retired: map<Eid, set<nat>>, locs: set<(Hash, ChunkLoc)>) {
    forall p :: p in locs ==> Located(h, segs, retired, p.0, p.1)
  }

  // the chunk is still there and was not dropped
  ghost predicate Remains(segs: Segs, retired: map<Eid, set<nat>>, loc: ChunkLoc) {
    loc.segId in segs && (loc.segId in retired ==> loc.idx !in retired[loc.segId])
  }

  /** Of what was located before, exactly the chunks that remain are located now. */
  ghost predicate StillLocated(h: Hasher, a: Segs, aRetired: map<Eid, set<nat>>, b: Segs, bRetired: map<Eid, set<nat>>) {
    forall hash, loc :: Located(h, a, aRetired, hash, loc) ==>
      (Located(h, b, bRetired, hash, loc) <==> Remains(b, bRetired, loc))
  }

  // those of the locations that name a chunk that remains
  ghost function Remaining(locs: set<(Hash, ChunkLoc)>, segs: Segs, retired: map<Eid, set<nat>>): set<(Hash, ChunkLoc)> {
    set p | p in locs && Remains(segs, retired, p.1)
  }

  lemma AllRemain(h: Hasher, segs: Segs, retired: map<Eid, set<nat>>, locs: set<(Hash, ChunkLoc)>)
    requires MapSound(h, segs, retired, locs)
    ensures Remaining(locs, segs, retired) == locs
  {
    forall p | p in locs ensures Remains(segs, retired, p.1) {
      assert Located(h, segs, retired, p.0, p.1);
    }
  }

  lemma LoweredRemain(locs: set<(Hash, ChunkLoc)>, segs: Segs, retired: map<Eid, set<nat>>, id: Eid, seg: Segment)
    requires id in segs
    ensures Remaining(locs, segs[id := seg], retired) == Remaining(locs, segs, retired)
  {
  }

  lemma RemovedRemain(locs: set<(Hash, ChunkLoc)>, segs: Segs, retired: map<Eid, set<nat>>, id: Eid)
    ensures Remaining(locs, segs - {id}, retired) == set p | p in Remaining(locs, segs, retired) && p.1.segId != id
  {
  }

  lemma ShrunkRemain(locs: set<(Hash, ChunkLoc)>, segs: Segs, retired: map<Eid, set<nat>>, id: Eid,
                     seg: Segment, small: Segment, dropped: seq<nat>)
    requires id in segs && id in retired && Tiled(seg, retired[id]) && ShrunkTo(seg, small)
    requires forall i: nat :: i in dropped <==> i < |seg.chunks| && seg.chunks[i].IsOrphan()
    ensures Remaining(locs, segs[id := small], retired[id := Orphans(small.chunks)]) ==
      set p | p in Remaining(locs, segs, retired) && (p.1.segId != id || p.1.idx !in dropped)
  {
    forall i: nat ensures i in Orphans(small.chunks) <==> i in dropped {
      if i < |seg.chunks| {
        assert ShrunkAt(seg, small.chunks, small.data, i);
      }
    }
    forall i | i in retired[id] ensures i in dropped {
      assert Placed(seg.chunks, retired[id], i);
    }
  }

  // a chunk that is gone stays gone
  ghost predicate GoneStays(a: Segs, aRetired: map<Eid, set<nat>>, b: Segs, bRetired: map<Eid, set<nat>>) {
    forall loc :: Remains(b, bRetired, loc) ==> Remains(a, aRetired, loc)
  }

  lemma StillOn(h: Hasher, a: Segs, aRetired: map<Eid, set<nat>>, b: Segs, bRetired: map<Eid, set<nat>>,
                c: Segs, cRetired: map<Eid, set<nat>>)
    requires StillLocated(h, a, aRetired, b, bRetired) && StillLocated(h, b, bRetired, c, cRetired)
    requires GoneStays(b, bRetired, c, cRetired)
    ensures StillLocated(h, a, aRetired, c, cRetired)
  {
    forall hash, loc | Located(h, a, aRetired, hash, loc)
      ensures Located(h, c, cRetired, hash, loc) <==> Remains(c, cRetired, loc)
    {
      if Remains(c, cRetired, loc) {
        assert Located(h, b, bRetired, hash, loc);
      }
    }
  }

  lemma StillSelf(h: Hasher, segs: Segs, retired: map<Eid, set<nat>>)
    ensures StillLocated(h, segs, retired, segs, retired)
  {
  }

  lemma LoweredStill(h: Hasher, segs: Segs, retired: map<Eid, set<nat>>, id: Eid, seg: Segment, n: nat -> nat)
    requires id in segs && Raised(seg, segs[id], n)
    ensures StillLocated(h, segs, retired, segs[id := seg], retired)
    ensures GoneStays(segs, retired, segs[id := seg], retired)
  {
  }

  lemma RemovedStill(h: Hasher, segs: Segs, retired: map<Eid, set<nat>>, id: Eid)
    ensures StillLocated(h, segs, retired, segs - {id}, retired)
    ensures GoneStays(segs, retired, segs - {id}, retired)
  {
  }

  lemma ShrunkStill(h: Hasher, segs: Segs, retired: map<Eid, set<nat>>, id: Eid, seg: Segment, small: Segment)
    requires id in segs && segs[id] == seg && id in retired && Tiled(seg, retired[id]) && ShrunkTo(seg, small)
    ensures StillLocated(h, segs, retired, segs[id := small], retired[id := Orphans(small.chunks)])
    ensures GoneStays(segs, retired, segs[id := small], retired[id := Orphans(small.chunks)])
  {
    var segs', retired' := segs[id := small], retired[id := Orphans(small.chunks)];
    forall hash, loc | Located(h, segs, retired, hash, loc)
      ensures Located(h, segs', retired', hash, loc) <==> Remains(segs', retired', loc)
    {
      if loc.segId == id {
        assert ShrunkAt(seg, small.chunks, small.data, loc.idx);
      }
    }
    forall i | i in retired[id] ensures i in Orphans(small.chunks) {
      assert Placed(seg.chunks, retired[id], i) && ShrunkAt(seg, small.chunks, small.data, i);
    }
  }

  // counts do not matter for what a chunk map finds
  lemma LoweredSound(h: Hasher, segs: Segs, retired: map<Eid, set<nat>>, locs: set<(Hash, ChunkLoc)>,
                     id: Eid, seg: Segment, n: nat -> nat)
    requires MapSound(h, segs, retired, locs) && id in segs && Raised(seg, segs[id], n)
    ensures MapSound(h, segs[id := seg], retired, locs)
  {
    forall p | p in locs ensures Located(h, segs[id := seg], retired, p.0, p.1) {
      assert Located(h, segs, retired, p.0, p.1);
    }
  }

  lemma RemovedSound(h: Hasher, segs: Segs, retired: map<Eid, set<nat>>, locs: set<(Hash, ChunkLoc)>, id: Eid)
    requires MapSound(h, segs, retired, locs)
    ensures MapSound(h, segs - {id}, retired, set p | p in locs && p.1.segId != id)
  {
    forall p | p in locs && p.1.segId != id ensures Located(h, segs - {id}, retired, p.0, p.1) {
      assert Located(h, segs, retired, p.0, p.1);
    }
  }

  /** A compaction leaves the chunk map right once the dropped chunks are forgotten. */
  lemma ShrunkSound(h: Hasher, segs: Segs, retired: map<Eid, set<nat>>, locs: set<(Hash, ChunkLoc)>,
                    id: Eid, seg: Segment, small: Segment, dropped: seq<nat>)
    requires MapSound(h, segs[id := seg], retired, locs) && ShrunkTo(seg, small)
    requires forall i: nat :: i in dropped <==> i < |seg.chunks| && seg.chunks[i].IsOrphan()
    ensures MapSound(h, segs[id := small], retired[id := Orphans(small.chunks)],
                     set p | p in locs && (p.1.segId != id || p.1.idx !in dropped))
  {
    var segs', retired' := segs[id := small], retired[id := Orphans(small.chunks)];
    forall p | p in locs && (p.1.segId != id || p.1.idx !in dropped)
      ensures Located(h, segs', retired', p.0, p.1)
    {
      assert Located(h, segs[id := seg], retired, p.0, p.1);
      if p.1.segId == id {
        assert ShrunkAt(seg, small.chunks, small.data, p.1.idx);
      }
    }
  }

  class SegmentStore {
    var segs: Segs
    ghost var retired: map<Eid, set<nat>>
    ghost var linked: seq<seq<Entry>>

    // counts and used lengths are right, wherever the chunks lie
    ghost predicate Counted()
      reads this
    {
      && AllUsedOk(segs) && Conserved(segs, linked)
      && forall k :: 0 <= k < |linked| ==> RefsIn(linked[k], segs)
    }

    // and every chunk in use lies inside the data
    ghost predicate Sound()
      reads this
    {
      Counted() && AllInside(segs)
    }

    // and the chunks that were not dropped tile it
    ghost predicate Valid()
      reads this
    {
      Sound() && AllTiled(segs, retired)
    }

    constructor ()
      ensures Valid() && segs == map[] && linked == []
    {
      segs, retired, linked := map[], map[], [];
    }

    /** Write a chunk to a segment that is not full, creating the segment first if
        needed; nothing linked notices. */
    method Write(id: Eid, bytes: Bytes) returns (written: nat)
      requires Sound() && bytes != []
      modifies this
      ensures Sound() && linked == old(linked) && (old(Valid()) ==> Valid())
      ensures written == if id in old(segs) && |old(segs)[id].chunks| >= MAX_CHUNKS then 0 else |bytes|
      ensures written == 0 ==> segs == old(segs) && retired == old(retired)
      ensures written > 0 ==>
        && id in segs && segs.Keys == old(segs).Keys + {id}
        && segs == old(segs)[id := segs[id]]
        && retired == old(retired)[id := if id in old(segs) && id in old(retired) then old(retired)[id] else {}]
        && segs[id] == (if id in old(segs) then old(segs)[id] else Segment(0, 0, [], [])).AppendChunk(bytes)
      ensures forall l :: 0 <= l < |linked| ==> ListKept(linked[l], old(segs), segs)
    {
      hide Tiled, UsedOk, Inside, Conserved, ListKept, RefsIn;
      ghost var tiled := AllTiled(segs, retired);
      var seg := Segment(0, 0, [], []);
      if id in segs {
        seg := segs[id];
        if |seg.chunks| >= MAX_CHUNKS {
          forall l | 0 <= l < |linked| ensures ListKept(linked[l], segs, segs) {
            ListKeptSelf(linked[l], segs);
          }
          return 0;
        }
      }
      AppendKeeps(segs, linked, id, seg, bytes);
      retired := retired[id := if id in segs && id in retired then retired[id] else {}];
      if tiled {
        EmptyTiled();
        AppendTiles(seg, retired[id], bytes);
      }
      segs := segs[id := seg.AppendChunk(bytes)];
      return |bytes|;
    }

    /** Count up every chunk of a content. If a count would overflow, or the assertion
        in counting up fails, the segments stay as they were, because the staged
        copies are discarded. The counts are right whatever is linked; the chunks
        still tile the data exactly if no chunk a compaction has dropped is linked
        again, and then the assertion cannot fail. */
    method Link(ents: seq<Entry>) returns (ok: bool)
      requires Counted() && RefsIn(ents, segs)
      modifies this
      ensures Counted() && retired == old(retired)
      ensures ok ==> linked == old(linked) + [ents] && RaisedBy(old(segs), segs, ents)
      ensures !ok ==> linked == old(linked) && segs == old(segs)
      ensures ok <==> CanLink(old(segs), ents)
      ensures ok && old(Sound()) ==> (Sound() <==> NamesInside(ents, old(segs)))
      ensures ok && old(Valid()) ==> (Valid() <==> AvoidsRetired(ents, retired))
    {
      hide UsedOk, CanRaise, Inside, Raised, Tiled;
      var work := segs;
      RaisedByNone(segs, ents);
      for j := 0 to |ents|
        invariant AllUsedOk(work) && RaisedBy(segs, work, ents[..j])
        invariant segs == old(segs) && linked == old(linked) && retired == old(retired) && Counted()
      {
        var id := ents[j].segId;
        RaisedShape(segs, work, ents[..j], id);
        var next := RefSpans(work[id], ents[j].spans);
        if next.None? {
          if CanRaise(segs[id], i => CountEnts(ents, id, i)) {
            EntryCan(segs, work, ents, j);
          }
          return false;
        }
        RaisedByStep(segs, work, ents, j, next.value);
        work := work[id := next.value];
      }
      assert ents[..|ents|] == ents;
      LinkKeeps(segs, work, linked, ents);
      forall id | id in segs ensures CanRaise(segs[id], i => CountEnts(ents, id, i)) {
        RaisedCan(segs[id], work[id], i => CountEnts(ents, id, i));
      }
      if AllInside(segs) {
        LinkInside(segs, work, ents);
      }
      if AllTiled(segs, retired) {
        LinkTiles(segs, work, ents, retired);
        if AllTiled(work, retired) {
          AllTiledInside(work, retired);
        }
      }
      segs := work;
      linked := linked + [ents];
      return true;
    }

    /** Give back a linked content's counts; a segment nothing uses any more is
        removed, one that has become mostly garbage is compacted, and the chunk map
        forgets what is gone. No other linked content notices. */
    method Unlink(ents: seq<Entry>, ghost k: nat, chkMap: ChunkMap, ghost h: Hasher)
      requires Sound() && k < |linked| && linked[k] == ents && chkMap.Valid()
      modifies this, chkMap
      ensures chkMap.Valid()
      ensures old(MapSound(h, segs, retired, chkMap.Locs())) ==> MapSound(h, segs, retired, chkMap.Locs())
      ensures old(Valid()) ==> StillLocated(h, old(segs), old(retired), segs, retired)
      ensures old(Valid() && MapSound(h, segs, retired, chkMap.Locs())) ==>
        chkMap.Locs() == Remaining(old(chkMap.Locs()), segs, retired)
      ensures Sound() && (old(Valid()) ==> Valid())
      ensures linked == old(linked)[..k] + old(linked)[k + 1..]
      ensures forall l :: 0 <= l < |linked| ==> ListKept(linked[l], old(segs), segs)
      ensures forall j :: 0 <= j < |ents| ==>
        (ents[j].segId !in segs <==> Unused(linked, ents[j].segId, |old(segs)[ents[j].segId].chunks|))
      ensures forall j :: 0 <= j < |ents| && ents[j].segId in segs ==>
        Reclaimed(old(segs)[ents[j].segId], segs[ents[j].segId])
      ensures forall id :: id in segs && !Names(ents, id) ==> id in old(segs) && segs[id] == old(segs)[id]
    {
      hide Swept, Unlinking, Raised, Inside, UsedOk, Conserved, AllUsedOk, AllInside, AllTiled, ListKept, Unused;
      hide MapSound, ChunkMap.Valid, StillLocated, GoneStays, Remaining;
      ghost var locs := chkMap.Locs();
      ghost var before, gone, lists, tiled := segs, retired, linked, AllTiled(segs, retired);
      ghost var sound := MapSound(h, segs, retired, chkMap.Locs());
      ghost var rest := linked[..k] + linked[k + 1..];
      UnlinkingStarts(segs, linked, k, ents);
      StillSelf(h, segs, retired);
      SweptStarts(segs, ents);
      if sound {
        AllRemain(h, segs, retired, locs);
      }
      for j := 0 to |ents|
        invariant Unlinking(before, segs, rest, ents, j) && Swept(before, segs, ents, j)
        invariant linked == lists
        invariant tiled ==> AllTiled(segs, retired) && StillLocated(h, before, gone, segs, retired)
        invariant chkMap.Valid() && (sound ==> MapSound(h, segs, retired, chkMap.Locs()))
        invariant sound && tiled ==> chkMap.Locs() == Remaining(locs, segs, retired)
      {
        var id := ents[j].segId;
        UnlinkingEntry(before, segs, rest, ents, j);
        var seg := DerefSpans(segs[id], ents[j].spans);
        if sound {
          LoweredSound(h, segs, retired, chkMap.Locs(), id, seg, i => CountSpans(ents[j].spans, i));
        }
        if tiled {
          LoweredAllTiled(segs, retired, id, seg, i => CountSpans(ents[j].spans, i));
          LoweredStill(h, segs, retired, id, seg, i => CountSpans(ents[j].spans, i));
          StillOn(h, before, gone, segs, retired, segs[id := seg], retired);
        }
        SweptLowers(before, segs, ents, j, seg);
        if seg.IsOrphan() {
          SweptRemoves(before, segs, ents, j);
          UnlinkingRemoves(before, segs, rest, ents, j, seg);
          if tiled {
            RemovedAllTiled(segs, retired, id);
            RemovedStill(h, segs, retired, id);
            StillOn(h, before, gone, segs, retired, segs - {id}, retired);
          }
          RemovedRemain(locs, segs, retired, id);
          if sound {
            RemovedSound(h, segs, retired, chkMap.Locs(), id);
          }
          segs := segs - {id};
          chkMap.RemoveSegment(id);
        } else if seg.IsShrinkable() {
          UnlinkingInside(before, segs, rest, ents, j, seg);
          var small, dropped := Shrink(seg);
          UnlinkingShrinks(before, segs, rest, ents, j, seg, small);
          SweptShrinks(before, segs, ents, j, seg, small);
          if tiled {
            ShrunkAllTiled(segs, retired, id, seg, small);
            ShrunkStill(h, segs[id := seg], retired, id, seg, small);
            assert segs[id := seg][id := small] == segs[id := small];
            StillOn(h, before, gone, segs[id := seg], retired, segs[id := small],
                    retired[id := Orphans(small.chunks)]);
            ShrunkRemain(locs, segs, retired, id, seg, small, dropped);
          }
          if sound {
            ShrunkSound(h, segs, retired, chkMap.Locs(), id, seg, small, dropped);
          }
          segs := segs[id := small];
          chkMap.RemoveChunks(id, dropped);
          retired := retired[id := Orphans(small.chunks)];
        } else {
          UnlinkingKeeps(before, segs, rest, ents, j, seg);
          SweptPut(before, segs, ents, j, seg);
          LoweredRemain(locs, segs, retired, id, seg);
          segs := segs[id := seg];
        }
      }
      linked := rest;
      forall j | 0 <= j < |ents|
        ensures ents[j].segId !in segs <==> Unused(rest, ents[j].segId, |before[ents[j].segId].chunks|)
      {
        RemovedIffUnused(before, segs, ents, rest, j);
      }
      UnlinkingEnds(before, segs, lists, k, ents, rest);
      SweptEnds(before, segs, ents);
    }
  }

  ghost predicate Names(ents: seq<Entry>, id: Eid) {
    exists j :: 0 <= j < |ents| && ents[j].segId == id
  }

  // nothing but counts is different
  ghost predicate SameData(a: Segment, b: Segment) {
    && b.len == a.len && b.data == a.data && |b.chunks| == |a.chunks|
    && forall i :: 0 <= i < |a.chunks| ==> b.chunks[i] == a.chunks[i].(refcnt := b.chunks[i].refcnt)
  }

  /** What becomes of a segment some of whose counts are given back: its data is
      rewritten exactly if what is still used of it has fallen below a quarter of its
      length, and nothing is left to be reclaimed that way. */
  ghost predicate Reclaimed(a: Segment, b: Segment) {
    && !b.IsShrinkable()
    && if UsedLen(b.chunks) < a.len / 4 then b.len < a.len / 4 && |b.data| == b.len
       else SameData(a, b)
  }

  // a segment as it was, or after a compaction
  ghost predicate SameOrShrunk(a: Segment, b: Segment) {
    && b.used == UsedLen(b.chunks) <= b.len == |b.data|
    && (SameData(a, b) || b.len < a.len / 4)
  }

  // after the first j entries are done
  ghost predicate Swept(before: Segs, segs: Segs, ents: seq<Entry>, j: nat)
  {
    && j <= |ents|
    && (forall id :: id in segs ==> id in before && SameOrShrunk(before[id], segs[id]))
    && (forall m :: 0 <= m < j && ents[m].segId in segs ==> !segs[ents[m].segId].IsShrinkable())
    && (forall id :: id in segs && !Names(ents, id) ==> segs[id] == before[id])
  }

  lemma SweptStarts(segs: Segs, ents: seq<Entry>)
    requires AllUsedOk(segs) && AllInside(segs)
    ensures Swept(segs, segs, ents, 0)
  {
    forall id | id in segs ensures SameOrShrunk(segs[id], segs[id]) {
      assert UsedOk(segs[id]) && Inside(segs[id]);
    }
  }

  lemma LoweredSame(a: Segment, b: Segment, seg: Segment, n: nat -> nat)
    requires SameOrShrunk(a, b) && Raised(seg, b, n) && seg.used == UsedLen(seg.chunks)
    ensures SameOrShrunk(a, seg)
  {
    UsedGrows(seg.chunks, b.chunks);
  }

  // the segment of entry j with its counts given back
  lemma SweptLowers(before: Segs, segs: Segs, ents: seq<Entry>, j: nat, seg: Segment)
    requires Swept(before, segs, ents, j) && j < |ents| && ents[j].segId in segs
    requires Raised(seg, segs[ents[j].segId], i => CountSpans(ents[j].spans, i)) && UsedOk(seg)
    ensures SameOrShrunk(before[ents[j].segId], seg)
  {
    hide Raised, SameOrShrunk;
    LoweredSame(before[ents[j].segId], segs[ents[j].segId], seg, i => CountSpans(ents[j].spans, i));
  }

  lemma SweptPut(before: Segs, segs: Segs, ents: seq<Entry>, j: nat, seg: Segment)
    requires Swept(before, segs, ents, j) && j < |ents| && ents[j].segId in segs
    requires SameOrShrunk(before[ents[j].segId], seg) && !seg.IsShrinkable()
    ensures Swept(before, segs[ents[j].segId := seg], ents, j + 1)
  {
    hide SameOrShrunk;
    assert Names(ents, ents[j].segId);
  }

  lemma SweptShrinks(before: Segs, segs: Segs, ents: seq<Entry>, j: nat, seg: Segment, small: Segment)
    requires Swept(before, segs, ents, j) && j < |ents| && ents[j].segId in segs
    requires SameOrShrunk(before[ents[j].segId], seg) && seg.IsShrinkable() && Inside(seg) && ShrunkTo(seg, small)
    ensures Swept(before, segs[ents[j].segId := small], ents, j + 1)
  {
    hide Inside, Swept;
    ShrinkCounted(seg, small);
    SweptPut(before, segs, ents, j, small);
  }

  lemma SweptRemoves(before: Segs, segs: Segs, ents: seq<Entry>, j: nat)
    requires Swept(before, segs, ents, j) && j < |ents|
    ensures Swept(before, segs - {ents[j].segId}, ents, j + 1)
  {
    hide SameOrShrunk;
  }

  lemma SweptEnds(before: Segs, segs: Segs, ents: seq<Entry>)
    requires Swept(before, segs, ents, |ents|)
    ensures forall j :: 0 <= j < |ents| && ents[j].segId in segs ==>
      ents[j].segId in before && Reclaimed(before[ents[j].segId], segs[ents[j].segId])
    ensures forall id :: id in segs && !Names(ents, id) ==> id in before && segs[id] == before[id]
  {
    forall j | 0 <= j < |ents| && ents[j].segId in segs
      ensures Reclaimed(before[ents[j].segId], segs[ents[j].segId])
    {
      assert SameOrShrunk(before[ents[j].segId], segs[ents[j].segId]);
    }
  }

  ghost predicate Unused(lists: seq<seq<Entry>>, id: Eid, n: nat) {
    forall i: nat :: i < n ==> CountLists(lists, id, i) == 0
  }

  /** Every span of the list is as good in the new segments as it was before. */
  ghost predicate ListKept(ents: seq<Entry>, segs: Segs, segs': Segs) {
    forall j :: 0 <= j < |ents| ==> EntryKept(ents[j], Views(segs), Views(segs'))
  }

  // every chunk of the span is covered by a content that stays
  ghost predicate Held(rest: seq<seq<Entry>>, id: Eid, s: Span) {
    forall i: nat :: s.begin <= i < s.end ==> CountLists(rest, id, i) > 0
  }

  // what one segment of the store is like after the first j entries are done
  ghost predicate UnlinkingSeg(a: Segment, b: Segment, rest: seq<seq<Entry>>,
                               ents: seq<Entry>, j: nat, id: Eid)
    requires j <= |ents|
  {
    && UsedOk(b) && Inside(b) && |b.chunks| == |a.chunks|
    && (forall i: nat :: i < |b.chunks| ==>
          b.chunks[i].refcnt + CountEnts(ents[..j], id, i) == CountLists(rest, id, i) + CountEnts(ents, id, i))
    && forall s: Span :: Held(rest, id, s) ==> Keeps(s, a.View(), b.View())
  }

  // a segment that was removed had no user left
  ghost predicate UnlinkingGone(a: Segment, rest: seq<seq<Entry>>, ents: seq<Entry>, j: nat, id: Eid)
    requires j <= |ents|
  {
    forall i: nat :: i < |a.chunks| ==>
      CountLists(rest, id, i) == 0 && CountEnts(ents, id, i) == CountEnts(ents[..j], id, i)
  }

  ghost predicate Unlinking(before: Segs, segs: Segs, rest: seq<seq<Entry>>,
                            ents: seq<Entry>, j: nat)
  {
    && j <= |ents| && segs.Keys <= before.Keys && RefsIn(ents, before)
    && (forall m :: 0 <= m < j && ents[m].segId in segs ==> !segs[ents[m].segId].IsOrphan())
    && forall id :: id in before ==>
         if id in segs then UnlinkingSeg(before[id], segs[id], rest, ents, j, id)
         else UnlinkingGone(before[id], rest, ents, j, id)
  }

  lemma UnlinkingStarts(segs: Segs, lists: seq<seq<Entry>>, k: nat, ents: seq<Entry>)
    requires AllUsedOk(segs) && AllInside(segs) && Conserved(segs, lists)
    requires k < |lists| && lists[k] == ents && RefsIn(ents, segs)
    ensures Unlinking(segs, segs, lists[..k] + lists[k + 1..], ents, 0)
  {
    hide UsedOk, Inside, Keeps, RefsIn;
    var rest := lists[..k] + lists[k + 1..];
    forall id | id in segs ensures UnlinkingSeg(segs[id], segs[id], rest, ents, 0, id) {
      forall i: nat | i < |segs[id].chunks|
        ensures segs[id].chunks[i].refcnt + CountEnts(ents[..0], id, i) == CountLists(rest, id, i) + CountEnts(ents, id, i)
      {
        CountListsAt(lists, k, id, i);
      }
      KeepsSelf(segs[id].View());
    }
  }

  lemma KeepsSelf(seg: SegView)
    ensures forall s: Span :: Keeps(s, seg, seg)
  {
  }

  lemma {:induction false} CountCovered(spans: seq<Span>, j: nat, i: nat)
    requires j < |spans| && spans[j].begin <= i < spans[j].end
    ensures CountSpans(spans, i) > 0
    decreases |spans|
  {
    if j < |spans| - 1 {
      CountCovered(spans[..|spans| - 1], j, i);
    }
  }

  // the counts the rest still needs, as far as entry j is concerned
  lemma UnlinkingCount(ents: seq<Entry>, j: nat, i: nat)
    requires j < |ents|
    ensures CountEnts(ents[..j], ents[j].segId, i) + CountSpans(ents[j].spans, i) <= CountEnts(ents, ents[j].segId, i)
  {
    CountEntsStep(ents, j, ents[j].segId, i);
  }

  /** The entry's segment is still there, and holds the counts to give back. */
  lemma UnlinkingEntry(before: Segs, segs: Segs, rest: seq<seq<Entry>>,
                       ents: seq<Entry>, j: nat)
    requires Unlinking(before, segs, rest, ents, j) && j < |ents|
    ensures var id := ents[j].segId;
      && id in segs && UsedOk(segs[id]) && InBounds(ents[j].spans, |segs[id].chunks|)
      && forall i :: 0 <= i < |segs[id].chunks| ==> CountSpans(ents[j].spans, i) <= segs[id].chunks[i].refcnt
  {
    hide UsedOk, Inside, Keeps, Held;
    var id := ents[j].segId;
    assert id in before && ents[j].spans != [] && InBounds(ents[j].spans, |before[id].chunks|);
    var i := ents[j].spans[0].begin;
    CountCovered(ents[j].spans, 0, i);
    UnlinkingCount(ents, j, i);
    assert id in segs;
    assert UnlinkingSeg(before[id], segs[id], rest, ents, j, id);
    forall i: nat | i < |segs[id].chunks| ensures CountSpans(ents[j].spans, i) <= segs[id].chunks[i].refcnt {
      UnlinkingCount(ents, j, i);
    }
  }

  // giving back counts moves nothing
  lemma LoweredKeeps(a: Segment, b: Segment, n: nat -> nat)
    requires Raised(a, b, n)
    ensures forall s: Span :: Keeps(s, b.View(), a.View())
  {
    forall s: Span ensures Keeps(s, b.View(), a.View()) {
      GrowthKeeps(s, b.View(), a.View());
    }
  }

  lemma KeepsOn(a: SegView, b: SegView, c: SegView)
    ensures forall s: Span :: Keeps(s, a, b) && Keeps(s, b, c) ==> Keeps(s, a, c)
  {
    hide SpanOk, SpanBytes;
  }

  lemma UnlinkingSegLowered(a: Segment, b: Segment, rest: seq<seq<Entry>>,
                            ents: seq<Entry>, j: nat, seg: Segment)
    requires j < |ents| && UnlinkingSeg(a, b, rest, ents, j, ents[j].segId)
    requires UsedOk(seg) && Raised(seg, b, i => CountSpans(ents[j].spans, i))
    ensures UnlinkingSeg(a, seg, rest, ents, j + 1, ents[j].segId)
  {
    hide UsedOk, Inside, Held, Keeps;
    LoweredInside(seg, b, i => CountSpans(ents[j].spans, i));
    LoweredKeeps(seg, b, i => CountSpans(ents[j].spans, i));
    KeepsOn(a.View(), b.View(), seg.View());
    forall i: nat | i < |seg.chunks|
      ensures seg.chunks[i].refcnt + CountEnts(ents[..j + 1], ents[j].segId, i) ==
        CountLists(rest, ents[j].segId, i) + CountEnts(ents, ents[j].segId, i)
    {
      CountEntsStep(ents, j, ents[j].segId, i);
    }
  }

  // the other segments are not touched by entry j
  lemma UnlinkingOthers(before: Segs, segs: Segs, rest: seq<seq<Entry>>,
                        ents: seq<Entry>, j: nat, id: Eid)
    requires Unlinking(before, segs, rest, ents, j) && j < |ents|
    requires id in before && id != ents[j].segId
    ensures if id in segs then
              UnlinkingSeg(before[id], segs[id], rest, ents, j + 1, id)
            else UnlinkingGone(before[id], rest, ents, j + 1, id)
  {
    hide UsedOk, Inside, Keeps, Held, RefsIn;
    forall i: nat ensures CountEnts(ents[..j + 1], id, i) == CountEnts(ents[..j], id, i) {
      CountEntsStep(ents, j, id, i);
    }
  }

  // the segment of entry j is replaced by one that is still in use
  lemma UnlinkingPut(before: Segs, segs: Segs, rest: seq<seq<Entry>>, ents: seq<Entry>, j: nat, seg: Segment)
    requires Unlinking(before, segs, rest, ents, j) && j < |ents| && ents[j].segId in segs && !seg.IsOrphan()
    requires UnlinkingSeg(before[ents[j].segId], seg, rest, ents, j + 1, ents[j].segId)
    ensures Unlinking(before, segs[ents[j].segId := seg], rest, ents, j + 1)
  {
    hide UnlinkingSeg, UnlinkingGone, RefsIn;
    forall id | id in before && id != ents[j].segId { UnlinkingOthers(before, segs, rest, ents, j, id); }
  }

  lemma UnlinkingKeeps(before: Segs, segs: Segs, rest: seq<seq<Entry>>, ents: seq<Entry>, j: nat, seg: Segment)
    requires Unlinking(before, segs, rest, ents, j) && j < |ents| && ents[j].segId in segs
    requires UsedOk(seg) && Raised(seg, segs[ents[j].segId], i => CountSpans(ents[j].spans, i))
    requires !seg.IsOrphan()
    ensures Unlinking(before, segs[ents[j].segId := seg], rest, ents, j + 1)
  {
    hide UsedOk, UnlinkingSeg, UnlinkingGone, RefsIn, Raised;
    var id := ents[j].segId;
    UnlinkingSegLowered(before[id], segs[id], rest, ents, j, seg);
    UnlinkingPut(before, segs, rest, ents, j, seg);
  }

  lemma UnlinkingInside(before: Segs, segs: Segs, rest: seq<seq<Entry>>, ents: seq<Entry>, j: nat, seg: Segment)
    requires Unlinking(before, segs, rest, ents, j) && j < |ents| && ents[j].segId in segs
    requires UsedOk(seg) && Raised(seg, segs[ents[j].segId], i => CountSpans(ents[j].spans, i))
    ensures Inside(seg) && seg.used == UsedLen(seg.chunks)
  {
    hide Keeps, Held, RefsIn, Inside;
    var id := ents[j].segId;
    assert UnlinkingSeg(before[id], segs[id], rest, ents, j, id);
    LoweredInside(seg, segs[id], i => CountSpans(ents[j].spans, i));
  }

  lemma UnlinkingRemoves(before: Segs, segs: Segs, rest: seq<seq<Entry>>,
                         ents: seq<Entry>, j: nat, seg: Segment)
    requires Unlinking(before, segs, rest, ents, j) && j < |ents| && ents[j].segId in segs
    requires UsedOk(seg) && Raised(seg, segs[ents[j].segId], i => CountSpans(ents[j].spans, i))
    requires seg.IsOrphan()
    ensures Unlinking(before, segs - {ents[j].segId}, rest, ents, j + 1)
  {
    hide Keeps, Held, RefsIn;
    var id := ents[j].segId;
    UnlinkingSegLowered(before[id], segs[id], rest, ents, j, seg);
    OrphanHasNone(seg);
    forall i: nat | i < |before[id].chunks|
      ensures CountLists(rest, id, i) == 0 && CountEnts(ents, id, i) == CountEnts(ents[..j + 1], id, i)
    {
      CountEntsGrows(ents, j + 1, id, i);
    }
    hide UsedOk, UnlinkingSeg, Inside, Raised;
    assert UnlinkingGone(before[id], rest, ents, j + 1, id);
    hide UnlinkingGone;
    forall id' | id' in before && id' != id { UnlinkingOthers(before, segs, rest, ents, j, id'); }
  }

  lemma OrphanHasNone(seg: Segment)
    requires Inside(seg) && UsedOk(seg)
    ensures seg.IsOrphan() <==> forall i :: 0 <= i < |seg.chunks| ==> seg.chunks[i].refcnt == 0
  {
    forall i | 0 <= i < |seg.chunks| ensures seg.chunks[i].len > 0 {
      assert ChunkInside(seg, i);
    }
    UsedNone(seg.chunks);
    assert (forall i :: 0 <= i < |seg.chunks| ==> seg.chunks[i].IsOrphan()) <==>
           (forall i :: 0 <= i < |seg.chunks| ==> seg.chunks[i].refcnt == 0);
  }

  lemma UnlinkingShrinks(before: Segs, segs: Segs, rest: seq<seq<Entry>>, ents: seq<Entry>, j: nat,
                         seg: Segment, small: Segment)
    requires Unlinking(before, segs, rest, ents, j) && j < |ents| && ents[j].segId in segs
    requires UsedOk(seg) && Raised(seg, segs[ents[j].segId], i => CountSpans(ents[j].spans, i))
    requires !seg.IsOrphan() && ShrunkTo(seg, small)
    ensures Unlinking(before, segs[ents[j].segId := small], rest, ents, j + 1)
  {
    assert !small.IsOrphan();
    hide UsedOk, UnlinkingSeg, UnlinkingGone, RefsIn, ShrunkTo, Raised;
    var id := ents[j].segId;
    UnlinkingSegLowered(before[id], segs[id], rest, ents, j, seg);
    UnlinkingSegShrunk(before[id], seg, rest, ents, j + 1, id, small);
    UnlinkingPut(before, segs, rest, ents, j, small);
  }

  lemma UnlinkingSegShrunk(a: Segment, seg: Segment, rest: seq<seq<Entry>>,
                           ents: seq<Entry>, j: nat, id: Eid, small: Segment)
    requires j <= |ents| && UnlinkingSeg(a, seg, rest, ents, j, id) && ShrunkTo(seg, small)
    ensures UnlinkingSeg(a, small, rest, ents, j, id)
  {
    ShrinkCounted(seg, small);
    hide Inside;
    forall s: Span | Held(rest, id, s) ensures Keeps(s, a.View(), small.View()) {
      HeldKept(a, seg, rest, ents, j, id, small, s);
    }
  }

  lemma HeldKept(a: Segment, seg: Segment, rest: seq<seq<Entry>>,
                 ents: seq<Entry>, j: nat, id: Eid, small: Segment, s: Span)
    requires j <= |ents| && UnlinkingSeg(a, seg, rest, ents, j, id) && ShrunkTo(seg, small)
    requires Held(rest, id, s)
    ensures Keeps(s, a.View(), small.View())
  {
    hide Inside, UsedOk, ShrunkTo;
    assert Keeps(s, a.View(), seg.View());
    if SpanOk(s, a.View()) {
      forall i | s.begin <= i < s.end ensures !seg.chunks[i].IsOrphan() {
        CountEntsGrows(ents, j, id, i);
      }
      ShrinkKeeps(seg, small, s);
    }
  }

  lemma {:induction false} CountListed(lists: seq<seq<Entry>>, l: nat, j: nat, id: Eid, i: nat)
    requires l < |lists| && j < |lists[l]| && lists[l][j].segId == id && CountSpans(lists[l][j].spans, i) > 0
    ensures CountLists(lists, id, i) > 0
  {
    CountListsAt(lists, l, id, i);
    CountEntsStep(lists[l], j, id, i);
  }

  // a content that stays is held by its own counts
  lemma RestKept(before: Segs, segs: Segs, ents: seq<Entry>,
                 rest: seq<seq<Entry>>, l: nat)
    requires Unlinking(before, segs, rest, ents, |ents|) && l < |rest| && RefsIn(rest[l], before)
    ensures RefsIn(rest[l], segs) && ListKept(rest[l], before, segs)
  {
    hide Keeps, UsedOk, Inside;
    forall j | 0 <= j < |rest[l]|
      ensures rest[l][j].segId in segs && InBounds(rest[l][j].spans, |segs[rest[l][j].segId].chunks|)
      ensures EntryKept(rest[l][j], Views(before), Views(segs))
    {
      var e := rest[l][j];
      var id := e.segId;
      assert id in before && e.spans != [] && InBounds(e.spans, |before[id].chunks|);
      CountCovered(e.spans, 0, e.spans[0].begin);
      CountListed(rest, l, j, id, e.spans[0].begin);
      assert id in segs;
      assert UnlinkingSeg(before[id], segs[id], rest, ents, |ents|, id);
      forall m | 0 <= m < |e.spans| ensures Keeps(e.spans[m], before[id].View(), segs[id].View()) {
        forall i: nat | e.spans[m].begin <= i < e.spans[m].end ensures CountLists(rest, id, i) > 0 {
          CountCovered(e.spans, m, i);
          CountListed(rest, l, j, id, i);
        }
        assert Held(rest, id, e.spans[m]);
      }
    }
  }

  lemma UnlinkingEnds(before: Segs, segs: Segs, lists: seq<seq<Entry>>, k: nat,
                      ents: seq<Entry>, rest: seq<seq<Entry>>)
    requires k < |lists| && lists[k] == ents && rest == lists[..k] + lists[k + 1..]
    requires Unlinking(before, segs, rest, ents, |ents|)
    requires forall l :: 0 <= l < |lists| ==> RefsIn(lists[l], before)
    ensures AllUsedOk(segs) && AllInside(segs) && Conserved(segs, rest)
    ensures forall l :: 0 <= l < |rest| ==> RefsIn(rest[l], segs) && ListKept(rest[l], before, segs)
  {
    hide Keeps, ListKept, Held, RefsIn;
    assert ents[..|ents|] == ents;
    forall l | 0 <= l < |rest| ensures RefsIn(rest[l], segs) && ListKept(rest[l], before, segs) {
      assert RefsIn(rest[l], before) by {
        assert rest[l] == if l < k then lists[l] else lists[l + 1];
      }
      RestKept(before, segs, ents, rest, l);
    }
  }

  /** A segment of the unlinked content is gone exactly when no content uses it. */
  lemma RemovedIffUnused(before: Segs, segs: Segs, ents: seq<Entry>,
                         rest: seq<seq<Entry>>, j: nat)
    requires Unlinking(before, segs, rest, ents, |ents|) && j < |ents|
    ensures ents[j].segId in before
    ensures ents[j].segId !in segs <==> Unused(rest, ents[j].segId, |before[ents[j].segId].chunks|)
  {
    hide Keeps, Held;
    assert ents[..|ents|] == ents;
    var id := ents[j].segId;
    if id in segs {
      assert UnlinkingSeg(before[id], segs[id], rest, ents, |ents|, id);
      OrphanHasNone(segs[id]);
    }
  }

  lemma ListKeptSelf(ents: seq<Entry>, segs: Segs)
    requires RefsIn(ents, segs)
    ensures ListKept(ents, segs, segs)
  {
    forall j | 0 <= j < |ents| ensures EntryKept(ents[j], Views(segs), Views(segs)) {
      KeepsSelf(segs[ents[j].segId].View());
    }
  }

  lemma AppendInside(s: Segment, bytes: Bytes)
    requires Inside(s) && UsedOk(s) && bytes != []
    ensures Inside(s.AppendChunk(bytes)) && UsedOk(s.AppendChunk(bytes))
  {
    var r := s.AppendChunk(bytes);
    assert r.chunks[..|s.chunks|] == s.chunks;
    forall i | 0 <= i < |r.chunks| ensures ChunkInside(r, i) {
      assert i < |s.chunks| ==> ChunkInside(s, i);
    }
  }

  lemma EmptyTiled()
    ensures Tiled(Segment(0, 0, [], []), {})
  {
  }

  lemma AppendTiles(s: Segment, retired: set<nat>, bytes: Bytes)
    requires Tiled(s, retired) && bytes != []
    ensures Tiled(s.AppendChunk(bytes), retired)
  {
    var r := s.AppendChunk(bytes);
    assert r.chunks[..|s.chunks|] == s.chunks;
    forall i | 0 <= i < |r.chunks| ensures Placed(r.chunks, retired, i) {
      BeforeSame(s.chunks, r.chunks, retired, i);
      if i < |s.chunks| {
        assert Placed(s.chunks, retired, i);
      }
    }
    BeforeSame(s.chunks, r.chunks, retired, |s.chunks|);
  }

  lemma {:induction false} CountSpansBeyond(spans: seq<Span>, n: nat, i: nat)
    requires InBounds(spans, n) && i >= n
    ensures CountSpans(spans, i) == 0
    decreases |spans|
  {
    if spans != [] {
      CountSpansBeyond(spans[..|spans| - 1], n, i);
    }
  }

  // no list counts a chunk that is not there yet
  lemma {:induction false} CountEntsBeyond(ents: seq<Entry>, segs: Segs, id: Eid, i: nat)
    requires RefsIn(ents, segs) && (id !in segs || i >= |segs[id].chunks|)
    ensures CountEnts(ents, id, i) == 0
    decreases |ents|
  {
    if ents != [] {
      var e := ents[|ents| - 1];
      CountEntsBeyond(ents[..|ents| - 1], segs, id, i);
      if e.segId == id {
        CountSpansBeyond(e.spans, |segs[id].chunks|, i);
      }
    }
  }

  lemma {:induction false} CountListsBeyond(lists: seq<seq<Entry>>, segs: Segs, id: Eid, i: nat)
    requires forall l :: 0 <= l < |lists| ==> RefsIn(lists[l], segs)
    requires id !in segs || i >= |segs[id].chunks|
    ensures CountLists(lists, id, i) == 0
    decreases |lists|
  {
    if lists != [] {
      CountListsBeyond(lists[..|lists| - 1], segs, id, i);
      CountEntsBeyond(lists[|lists| - 1], segs, id, i);
    }
  }

  lemma AppendKeeps(segs: Segs, lists: seq<seq<Entry>>, id: Eid, seg: Segment, bytes: Bytes)
    requires AllUsedOk(segs) && AllInside(segs) && Conserved(segs, lists)
    requires forall l :: 0 <= l < |lists| ==> RefsIn(lists[l], segs)
    requires bytes != [] && seg == if id in segs then segs[id] else Segment(0, 0, [], [])
    ensures var segs' := segs[id := seg.AppendChunk(bytes)];
      && AllUsedOk(segs') && AllInside(segs') && Conserved(segs', lists)
      && forall l :: 0 <= l < |lists| ==> RefsIn(lists[l], segs') && ListKept(lists[l], segs, segs')
  {
    var segs' := segs[id := seg.AppendChunk(bytes)];
    AppendInside(seg, bytes);
    hide Inside, UsedOk;
    forall i: nat | i < |segs'[id].chunks| ensures segs'[id].chunks[i].refcnt == CountLists(lists, id, i) {
      if i >= |seg.chunks| {
        CountListsBeyond(lists, segs, id, i);
      }
    }
    forall l | 0 <= l < |lists| ensures RefsIn(lists[l], segs') && ListKept(lists[l], segs, segs') {
      AppendListKept(lists[l], segs, segs', id, seg, bytes);
    }
  }

  lemma AppendListKept(ents: seq<Entry>, segs: Segs, segs': Segs, id: Eid, seg: Segment, bytes: Bytes)
    requires RefsIn(ents, segs) && segs' == segs[id := seg.AppendChunk(bytes)]
    requires id in segs ==> seg == segs[id]
    ensures RefsIn(ents, segs') && ListKept(ents, segs, segs')
  {
    hide Keeps;
    forall j | 0 <= j < |ents| ensures EntryKept(ents[j], Views(segs), Views(segs')) {
      var e := ents[j];
      forall m | 0 <= m < |e.spans| ensures Keeps(e.spans[m], segs[e.segId].View(), segs'[e.segId].View()) {
        GrowthKeeps(e.spans[m], segs[e.segId].View(), segs'[e.segId].View());
      }
    }
  }

  lemma RaisedByNone(segs: Segs, ents: seq<Entry>)
    ensures RaisedBy(segs, segs, ents[..0])
  {
  }

  lemma RaisedShape(segs: Segs, work: Segs, ents: seq<Entry>, id: Eid)
    requires RaisedBy(segs, work, ents) && id in segs
    ensures id in work && |work[id].chunks| == |segs[id].chunks|
  {
    assert Raised(segs[id], work[id], i => CountEnts(ents, id, i));
  }

  lemma RaisedByStep(segs: Segs, work: Segs, ents: seq<Entry>, j: nat, next: Segment)
    requires j < |ents| && RaisedBy(segs, work, ents[..j]) && ents[j].segId in work
    requires Raised(work[ents[j].segId], next, i => CountSpans(ents[j].spans, i))
    ensures RaisedBy(segs, work[ents[j].segId := next], ents[..j + 1])
  {
    var work' := work[ents[j].segId := next];
    forall id | id in segs ensures Raised(segs[id], work'[id], i => CountEnts(ents[..j + 1], id, i)) {
      assert Raised(segs[id], work[id], i => CountEnts(ents[..j], id, i));
      forall i: nat ensures CountEnts(ents[..j + 1], id, i) ==
        CountEnts(ents[..j], id, i) + if ents[j].segId == id then CountSpans(ents[j].spans, i) else 0 {
        CountEntsStep(ents, j, id, i);
      }
    }
  }

  lemma LinkKeeps(segs: Segs, work: Segs, lists: seq<seq<Entry>>, ents: seq<Entry>)
    requires RaisedBy(segs, work, ents) && Conserved(segs, lists)
    ensures Conserved(work, lists + [ents])
    ensures forall es :: RefsIn(es, segs) ==> RefsIn(es, work)
  {
    assert (lists + [ents])[..|lists|] == lists;
    forall id | id in segs
      ensures |work[id].chunks| == |segs[id].chunks|
      ensures forall i: nat :: i < |work[id].chunks| ==> work[id].chunks[i].refcnt == CountLists(lists + [ents], id, i)
    {
      assert Raised(segs[id], work[id], i => CountEnts(ents, id, i));
    }
  }

  // an entry that cannot be counted up keeps the whole list from being linked
  lemma EntryCan(segs: Segs, work: Segs, ents: seq<Entry>, j: nat)
    requires j < |ents| && RaisedBy(segs, work, ents[..j]) && ents[j].segId in segs
    requires CanRaise(segs[ents[j].segId], i => CountEnts(ents, ents[j].segId, i))
    ensures CanRaise(work[ents[j].segId], i => CountSpans(ents[j].spans, i))
  {
    hide CanRaise;
    var id := ents[j].segId;
    assert Raised(segs[id], work[id], i => CountEnts(ents[..j], id, i));
    forall i: nat ensures CountEnts(ents[..j], id, i) + CountSpans(ents[j].spans, i) <= CountEnts(ents, id, i) {
      CountEntsStep(ents, j, id, i);
    }
    CanStill(segs[id], work[id], i => CountEnts(ents[..j], id, i), i => CountSpans(ents[j].spans, i),
             i => CountEnts(ents, id, i));
  }

  lemma LinkInside(segs: Segs, work: Segs, ents: seq<Entry>)
    requires RaisedBy(segs, work, ents) && AllInside(segs)
    ensures AllInside(work) <==> NamesInside(ents, segs)
  {
    hide Inside;
    forall id | id in segs
      ensures Inside(work[id]) <==> forall i :: 0 <= i < |work[id].chunks| && CountEnts(ents, id, i) > 0 ==>
        work[id].chunks[i].EndPos() <= |work[id].data|
    {
      assert Raised(segs[id], work[id], i => CountEnts(ents, id, i));
      RaisedInside(segs[id], work[id], i => CountEnts(ents, id, i));
    }
  }

  lemma CountEntsAt(ents: seq<Entry>, j: nat, i: nat)
    requires j < |ents|
    ensures CountSpans(ents[j].spans, i) <= CountEnts(ents, ents[j].segId, i)
  {
    CountEntsStep(ents, j, ents[j].segId, i);
    CountEntsGrows(ents, j + 1, ents[j].segId, i);
  }

  /** The chunks that were not dropped still tile the data after a link exactly if the
      list names no dropped one. */
  lemma LinkTiles(segs: Segs, work: Segs, ents: seq<Entry>, retired: map<Eid, set<nat>>)
    requires RaisedBy(segs, work, ents) && AllTiled(segs, retired) && RefsIn(ents, segs)
    ensures AllTiled(work, retired) <==> AvoidsRetired(ents, retired)
  {
    hide Tiled;
    if AvoidsRetired(ents, retired) {
      forall id | id in segs ensures Tiled(work[id], retired[id]) {
        assert Raised(segs[id], work[id], i => CountEnts(ents, id, i));
        forall i: nat | i in retired[id] ensures CountEnts(ents, id, i) == 0 {
          CountRetired(ents, retired, id, i);
        }
        RaisedTiles(segs[id], work[id], i => CountEnts(ents, id, i), retired[id]);
      }
    }
    if AllTiled(work, retired) {
      forall j, i: nat | 0 <= j < |ents| && ents[j].segId in retired && i in retired[ents[j].segId]
        ensures CountSpans(ents[j].spans, i) == 0
      {
        var id := ents[j].segId;
        RetiredOrphan(segs[id], work[id], ents, id, retired[id], i);
        CountEntsAt(ents, j, i);
      }
    }
  }

  lemma RetiredOrphan(a: Segment, b: Segment, ents: seq<Entry>, id: Eid, retired: set<nat>, i: nat)
    requires Raised(a, b, k => CountEnts(ents, id, k)) && Tiled(b, retired) && i in retired
    ensures CountEnts(ents, id, i) == 0
  {
    assert Placed(b.chunks, retired, i);
  }
}
