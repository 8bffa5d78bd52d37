/** All sectors together refine a plain map of blocks, over any run. */
module SectorMgr {
  import opened Basics
  import opened BlockSpans
  import opened Sectors
  import opened SectorSpec

  datatype State = State(secs: map<nat, Sector>, files: map<nat, File>, blks: BlockMap, written: set<nat>, next: nat)

  ghost predicate Untouched(idx: nat, written: set<nat>) {
    forall i :: 0 <= i < BLKS_PER_SECTOR ==> Blk(idx, i) !in written
  }

  /** What holds at one place: a sector agrees with the map; where there is none, no
      block is left, and one that was written is past being written again. */
  ghost predicate PlaceOk(st: State, idx: nat) {
    if idx in st.secs then
      && idx in st.files && SectorOk(st.secs[idx], st.files[idx])
      && SecAgrees(idx, st.secs[idx].blkMap, st.files[idx], st.blks, st.written)
      && (st.secs[idx].IsFinished() ==> Blk(idx + 1, 0) <= st.next)
    else
      && idx !in st.files && NoneLeft(idx, st.blks)
      && (Untouched(idx, st.written) || Blk(idx + 1, 0) <= st.next)
  }

  ghost predicate Ok(st: State) {
    && (forall idx: nat :: PlaceOk(st, idx))
    && st.blks.Keys <= st.written && (forall b :: b in st.written ==> b < st.next)
  }

  /** Space is reclaimed: a sector is finished exactly if its last block was written, and
      then it has live blocks, more than a quarter of its file. */
  ghost predicate Lean(st: State) {
    forall idx: nat :: idx in st.secs ==> SecLean(st.secs[idx], Blk(idx, BLKS_PER_SECTOR - 1) in st.written)
  }

  ghost predicate SecLean(s: Sector, full: bool) {
    && (s.IsFinished() <==> full)
    && (s.IsFinished() ==> s.actualSize > 0 && !s.IsShrinkable())
  }

  /** A finished sector some of whose blocks are deleted: `m` is what is left of it. Without
      live blocks it goes, file and all; with few of them its file is rewritten; else the
      file stays as it is. */
  ghost predicate Cleaned(secs: map<nat, Sector>, files: map<nat, File>, idx: nat, a: Sector, f: File, m: SlotMap) {
    var live := CountLive(m);
    if live == 0 then idx !in secs && idx !in files
    else
      && idx in secs && idx in files && secs[idx].actualSize == live
      && if 4 * live <= a.currSize then |files[idx]| == secs[idx].currSize == live
         else files[idx] == f && secs[idx] == Sector(a.currSize, live, m)
  }

  lemma OpenLean(s: Sector)
    requires !s.IsFinished()
    ensures SecLean(s, false)
  {
  }

  lemma LeanPut(st: State, st': State, here: nat, at: nat, cnt: nat)
    requires Lean(st) && at + cnt <= BLKS_PER_SECTOR && st'.secs - {here} == st.secs - {here}
    requires st'.written == st.written + Range(Blk(here, at), cnt)
    requires here in st'.secs && SecLean(st'.secs[here], Blk(here, BLKS_PER_SECTOR - 1) in st'.written)
    ensures Lean(st')
  {
    hide SecLean;
    forall idx: nat | idx in st'.secs ensures SecLean(st'.secs[idx], Blk(idx, BLKS_PER_SECTOR - 1) in st'.written) {
      if idx != here {
        Same(st.secs, st'.secs, here, idx);
        Elsewhere(idx, BLKS_PER_SECTOR - 1, here, at, cnt);
      }
    }
  }

  lemma LeanDel(st: State, st': State, here: nat)
    requires Lean(st) && st'.secs - {here} == st.secs - {here} && st'.written == st.written
    requires here in st'.secs ==> SecLean(st'.secs[here], Blk(here, BLKS_PER_SECTOR - 1) in st'.written)
    ensures Lean(st')
  {
    hide SecLean;
    forall idx: nat | idx in st'.secs ensures SecLean(st'.secs[idx], Blk(idx, BLKS_PER_SECTOR - 1) in st'.written) {
      if idx != here {
        Same(st.secs, st'.secs, here, idx);
      }
    }
  }

  lemma OtherPlacePut(st: State, st': State, idx: nat, here: nat, at: nat, data: seq<Block>)
    requires PlaceOk(st, idx) && idx != here && at + |data| <= BLKS_PER_SECTOR
    requires (idx in st'.secs) == (idx in st.secs) && (idx in st'.files) == (idx in st.files)
    requires idx in st.secs && idx in st.files ==> st'.secs[idx] == st.secs[idx] && st'.files[idx] == st.files[idx]
    requires st'.blks == PutBlocks(st.blks, Blk(here, at), data)
    requires st'.written == st.written + Range(Blk(here, at), |data|) && st'.next >= st.next
    ensures PlaceOk(st', idx)
  {
    hide SectorOk, SecAgrees;
    if idx in st.secs {
      OtherPut(idx, st.secs[idx].blkMap, st.files[idx], st.blks, st.written, here, at, data);
    } else {
      forall i | 0 <= i < BLKS_PER_SECTOR ensures !In(Blk(idx, i), Blk(here, at), |data|) {
        Elsewhere(idx, i, here, at, |data|);
      }
    }
  }

  lemma OtherPlaceDel(st: State, st': State, idx: nat, here: nat, at: nat, cnt: nat)
    requires PlaceOk(st, idx) && idx != here && at + cnt <= BLKS_PER_SECTOR
    requires (idx in st'.secs) == (idx in st.secs) && (idx in st'.files) == (idx in st.files)
    requires idx in st.secs && idx in st.files ==> st'.secs[idx] == st.secs[idx] && st'.files[idx] == st.files[idx]
    requires st'.blks == DelBlocks(st.blks, Blk(here, at), cnt) && st'.written == st.written && st'.next == st.next
    ensures PlaceOk(st', idx)
  {
    hide SectorOk, SecAgrees;
    if idx in st.secs {
      OtherDel(idx, st.secs[idx].blkMap, st.files[idx], st.blks, st.written, here, at, cnt);
    }
  }

  /** After a write: the sector written to is the only one to look at. */
  lemma PutOk(st: State, st': State, here: nat, at: nat, data: seq<Block>)
    requires Ok(st) && at + |data| <= BLKS_PER_SECTOR && PlaceOk(st', here)
    requires st'.secs - {here} == st.secs - {here} && st'.files - {here} == st.files - {here}
    requires st'.blks == PutBlocks(st.blks, Blk(here, at), data)
    requires st'.written == st.written + Range(Blk(here, at), |data|)
    requires st'.next == Blk(here, at) + |data| && st.next <= Blk(here, at)
    ensures Ok(st')
  {
    hide PlaceOk;
    forall idx: nat ensures PlaceOk(st', idx) {
      if idx != here {
        Same(st.secs, st'.secs, here, idx);
        Same(st.files, st'.files, here, idx);
        OtherPlacePut(st, st', idx, here, at, data);
      }
    }
  }

  lemma Same<T>(m: map<nat, T>, m': map<nat, T>, here: nat, k: nat)
    requires m' - {here} == m - {here} && k != here
    ensures (k in m') == (k in m) && (k in m ==> m'[k] == m[k])
  {
    assert (k in m - {here}) == (k in m) && (k in m' - {here}) == (k in m');
    if k in m {
      assert (m - {here})[k] == m[k] && (m' - {here})[k] == m'[k];
    }
  }

  lemma DelOk(st: State, st': State, here: nat, at: nat, cnt: nat)
    requires Ok(st) && at + cnt <= BLKS_PER_SECTOR && PlaceOk(st', here)
    requires st'.secs - {here} == st.secs - {here} && st'.files - {here} == st.files - {here}
    requires st'.blks == DelBlocks(st.blks, Blk(here, at), cnt) && st'.written == st.written && st'.next == st.next
    ensures Ok(st')
  {
    hide PlaceOk;
    forall idx: nat ensures PlaceOk(st', idx) {
      if idx != here {
        Same(st.secs, st'.secs, here, idx);
        Same(st.files, st'.files, here, idx);
        OtherPlaceDel(st, st', idx, here, at, cnt);
      }
    }
  }

  lemma PartPlace(part: Span)
    requires Within(part, BLKS_PER_SECTOR)
    ensures var idx, at := part.begin / BLKS_PER_SECTOR, part.begin % BLKS_PER_SECTOR;
      Blk(idx, at) == part.begin && at + part.cnt <= BLKS_PER_SECTOR
      && (part.End() % BLKS_PER_SECTOR == 0 <==> at + part.cnt == BLKS_PER_SECTOR)
      && (at + part.cnt == BLKS_PER_SECTOR ==> part.End() == Blk(idx + 1, 0))
  {
  }

  // a sector about to be written to, new if there is none
  lemma OpenOk(st: State, idx: nat, at: nat)
    requires Ok(st) && st.next <= Blk(idx, at) && at < BLKS_PER_SECTOR
    ensures var s := if idx in st.secs then st.secs[idx] else NewSector();
      var f := if idx in st.files then st.files[idx] else [];
      SectorOk(s, f) && !s.IsFinished() && SecAgrees(idx, s.blkMap, f, st.blks, st.written)
  {
    hide SectorOk, SecAgrees;
    assert PlaceOk(st, idx);
    if idx !in st.secs {
      FreshAgrees(idx, st.blks, st.written);
    }
  }

  class SectorMgr {
    var secs: map<nat, Sector>
    var files: map<nat, File>
    ghost var blks: BlockMap        // the plain map
    ghost var written: set<nat>     // blocks ever written
    ghost var next: nat             // no block from here on was

    ghost function Value(): State
      reads this
    {
      State(secs, files, blks, written, next)
    }

    ghost predicate Valid()
      reads this
    {
      Ok(Value()) && Lean(Value())
    }

    constructor ()
      ensures Valid() && blks == map[] && written == {} && next == 0
    {
      secs, files := map[], map[];
      blks, written, next := map[], {}, 0;
    }

    // rewrite a finished sector without its deleted blocks
    method ShrinkSector(idx: nat)
      requires idx in secs && idx in files && secs[idx].IsFinished() && secs[idx].actualSize > 0 && PlaceOk(Value(), idx)
      modifies this`secs, this`files
      ensures PlaceOk(Value(), idx) && secs - {idx} == old(secs) - {idx} && files - {idx} == old(files) - {idx}
      ensures idx in secs && idx in files
      ensures secs[idx].actualSize == secs[idx].currSize == |files[idx]| == CountLive(old(secs)[idx].blkMap) > 0
    {
      hide SectorOk, SecAgrees;
      PackedSize(secs[idx], files[idx]);
      var s, f := Shrink(secs[idx], files[idx]);
      ShrunkOk(secs[idx], files[idx], s, f);
      SectorSize(secs[idx], files[idx]);
      ShrunkAgrees(idx, secs[idx].blkMap, files[idx], s.blkMap, f, blks, written);
      secs, files := secs[idx := s], files[idx := f];
    }

    // the last block of a sector has been written
    method FinishSector(idx: nat)
      requires idx in secs && idx in files && !secs[idx].IsFinished() && PlaceOk(Value(), idx)
      requires |files[idx]| == BLKS_PER_SECTOR && CountLive(secs[idx].blkMap) > 0 && Blk(idx + 1, 0) <= next
      modifies this`secs, this`files
      ensures PlaceOk(Value(), idx) && secs - {idx} == old(secs) - {idx} && files - {idx} == old(files) - {idx}
      ensures Cleaned(secs, files, idx, Sector(BLKS_PER_SECTOR, 0, []), old(files)[idx], old(secs)[idx].blkMap)
      ensures idx in secs && SecLean(secs[idx], true)
    {
      hide SectorOk, SecAgrees, CountLive;
      var s := secs[idx];
      FinishOk(s, files[idx]);
      s := Sector(BLKS_PER_SECTOR, CountLive(s.blkMap), s.blkMap);
      secs := secs[idx := s];
      if s.IsShrinkable() {
        ShrinkSector(idx);
      }
    }

    // write blocks of one sector
    method WritePart(part: Span, data: seq<Block>)
      requires Valid() && Within(part, BLKS_PER_SECTOR) && |data| == part.cnt && next <= part.begin
      modifies this
      ensures Valid() && blks == PutBlocks(old(blks), part.begin, data)
      ensures written == old(written) + Range(part.begin, part.cnt) && next == part.End()
    {
      hide SectorOk, SecAgrees, PutBlocks, Range, CountLive, Corrected, WriteAt, Ok, NoneLeft, Untouched;
      hide Lean, SecLean, Cleaned;
      PartPlace(part);
      ghost var st := Value();
      var idx, at := part.begin / BLKS_PER_SECTOR, part.begin % BLKS_PER_SECTOR;
      OpenOk(st, idx, at);
      var s := if idx in secs then secs[idx] else NewSector();
      var file := if idx in files then files[idx] else [];
      var f := WriteAt(file, at, data);
      SectorSize(s, file);
      var m := Correct(s.blkMap, at, part.cnt);
      WriteOk(idx, s, file, at, data, blks, written);
      s := s.(blkMap := m);
      secs, files := secs[idx := s], files[idx := f];
      blks, written, next := PutBlocks(blks, part.begin, data), written + Range(part.begin, part.cnt), part.End();
      if part.End() % BLKS_PER_SECTOR == 0 {
        LastLive(m, at, part.cnt);
        FinishSector(idx);
      } else {
        OpenLean(secs[idx]);
      }
      LastWritten(st, idx, at, part.cnt);
      LeanPut(st, Value(), idx, at, part.cnt);
      PutOk(st, Value(), idx, at, data);
    }

    // delete blocks of one sector
    method DelPart(part: Span)
      requires Valid() && Within(part, BLKS_PER_SECTOR)
      modifies this
      ensures Valid() && blks == DelBlocks(old(blks), part.begin, part.cnt) && written == old(written) && next == old(next)
      ensures var idx, at := part.begin / BLKS_PER_SECTOR, part.begin % BLKS_PER_SECTOR;
        idx in old(secs) ==>
          && idx in old(files) && at + part.cnt <= |old(secs)[idx].blkMap|
          && var (a, f) := (old(secs)[idx], old(files)[idx]);
             var m := Marked(a.blkMap, at, part.cnt);
             if a.IsFinished() then Cleaned(secs, files, idx, a, f, m)
             else idx in secs && idx in files && secs[idx] == a.(blkMap := m) && files[idx] == f
    {
      hide SectorOk, SecAgrees, DelBlocks, CountLive;
      PartPlace(part);
      ghost var st := Value();
      var idx, at := part.begin / BLKS_PER_SECTOR, part.begin % BLKS_PER_SECTOR;
      assert PlaceOk(st, idx);
      blks := DelBlocks(blks, part.begin, part.cnt);
      DelSub(st.blks, part.begin, part.cnt);
      if idx in secs {
        SectorSize(secs[idx], files[idx]);
        var s := MarkDeletion(secs[idx], at, part.cnt);
        MarkedOk(secs[idx], files[idx], s, at, part.cnt);
        MarkedAgrees(idx, secs[idx].blkMap, files[idx], st.blks, written, at, part.cnt);
        secs := secs[idx := s];
        if s.IsFinished() && s.actualSize == 0 {
          AllGone(idx, s.blkMap, files[idx], blks, written);
          secs, files := secs - {idx}, files - {idx};
        } else if s.IsFinished() && s.IsShrinkable() {
          ShrinkSector(idx);
        }
      }
      LeanDel(st, Value(), idx);
      DelOk(st, Value(), idx, at, part.cnt);
    }

    // read blocks of one sector
    method ReadPart(part: Span) returns (r: Option<seq<Block>>)
      requires Valid() && Within(part, BLKS_PER_SECTOR) && Range(part.begin, part.cnt) <= written
      ensures r.Some? <==> HasAll(blks, part.begin, part.cnt)
      ensures r.Some? ==> r.value == GetBlocks(blks, part.begin, part.cnt)
    {
      hide SectorOk, SecAgrees, CountLive;
      PartPlace(part);
      var idx, at := part.begin / BLKS_PER_SECTOR, part.begin % BLKS_PER_SECTOR;
      assert PlaceOk(Value(), idx);
      if idx !in files || idx !in secs {
        assert Blk(idx, at) !in blks;
        return None;
      }
      SectorSize(secs[idx], files[idx]);
      var m := secs[idx].blkMap;
      forall i | at <= i < at + part.cnt ensures Blk(idx, i) in written {
        assert In(Blk(idx, i), part.begin, part.cnt);
      }
      if i :| at <= i < at + part.cnt && m[i].None? {
        DeletedGone(idx, m, files[idx], blks, written, i);
        assert In(Blk(idx, i), part.begin, part.cnt);
        return None;
      }
      ReadAgrees(idx, secs[idx], files[idx], blks, written, at, part.cnt);
      return Some(files[idx][m[at].value..m[at].value + part.cnt]);
    }

    /** Write blocks; writes come in increasing order. */
    method WriteBlocks(span: Span, data: seq<Block>)
      requires Valid() && |data| == span.cnt && next <= span.begin
      modifies this
      ensures Valid() && blks == PutBlocks(old(blks), span.begin, data)
      ensures written == old(written) + Range(span.begin, span.cnt)
      ensures next == if span.cnt == 0 then old(next) else span.End()
    {
      hide Ok, PutBlocks, Range, Within, Chained, Aligned;
      var parts := DivideBy(span, BLKS_PER_SECTOR);
      var done: nat := 0;
      PutNone(blks, span.begin);
      for k := 0 to |parts|
        invariant Valid() && done <= |data| && (if k == |parts| then done == |data| else span.begin + done == parts[k].begin)
        invariant blks == PutBlocks(old(blks), span.begin, data[..done])
        invariant written == old(written) + Range(span.begin, done)
        invariant next == if done == 0 then old(next) else span.begin + done
        invariant k == 0 <==> done == 0
      {
        NextPart(span, BLKS_PER_SECTOR, parts, k);
        var n := parts[k].cnt;
        WritePart(parts[k], data[done..done + n]);
        PutSplit(old(blks), span.begin, data[..done], data[done..done + n]);
        assert data[..done] + data[done..done + n] == data[..done + n];
        RangeSplit(span.begin, done, n);
        done := done + n;
      }
      assert data[..done] == data;
    }

    /** Delete blocks, whether they are there or not. */
    method Delete(span: Span)
      requires Valid()
      modifies this
      ensures Valid() && blks == DelBlocks(old(blks), span.begin, span.cnt) && written == old(written) && next == old(next)
    {
      hide Ok, DelBlocks, Within, Chained, Aligned;
      var parts := DivideBy(span, BLKS_PER_SECTOR);
      var done: nat := 0;
      DelNone(blks, span.begin);
      for k := 0 to |parts|
        invariant Valid() && written == old(written) && next == old(next)
        invariant done <= span.cnt && (if k == |parts| then done == span.cnt else span.begin + done == parts[k].begin)
        invariant blks == DelBlocks(old(blks), span.begin, done)
        invariant k == 0 <==> done == 0
      {
        NextPart(span, BLKS_PER_SECTOR, parts, k);
        DelPart(parts[k]);
        DelSplit(old(blks), span.begin, done, parts[k].cnt);
        done := done + parts[k].cnt;
      }
    }

    /** Read blocks that were written: all of them, or "not found" if one is deleted. */
    method ReadBlocks(span: Span) returns (r: Option<seq<Block>>)
      requires Valid() && Range(span.begin, span.cnt) <= written
      ensures r.Some? <==> HasAll(blks, span.begin, span.cnt)
      ensures r.Some? ==> r.value == GetBlocks(blks, span.begin, span.cnt)
    {
      hide Ok, Within, Chained, Aligned;
      var parts := DivideBy(span, BLKS_PER_SECTOR);
      var got: seq<Block> := [];
      for k := 0 to |parts|
        invariant |got| <= span.cnt && (if k == |parts| then |got| == span.cnt else span.begin + |got| == parts[k].begin)
        invariant HasAll(blks, span.begin, |got|) && got == GetBlocks(blks, span.begin, |got|)
        invariant k == 0 <==> got == []
      {
        NextPart(span, BLKS_PER_SECTOR, parts, k);
        RangeSub(span.begin, span.cnt, parts[k].begin, parts[k].cnt);
        var part := ReadPart(parts[k]);
        if part.None? {
          return None;
        }
        GetSplit(blks, span.begin, |got|, parts[k].cnt);
        got := got + part.value;
      }
      return Some(got);
    }
  }

  lemma PackedSize(s: Sector, f: File)
    requires SectorOk(s, f) && s.IsFinished()
    ensures s.actualSize == CountLive(s.blkMap) && s.blkMap[..|s.blkMap|] == s.blkMap
  {
  }

  // whether the last block of the sector is written, before and after a write to it
  lemma LastWritten(st: State, idx: nat, at: nat, cnt: nat)
    requires Ok(st) && st.next <= Blk(idx, at) && at + cnt <= BLKS_PER_SECTOR && cnt > 0
    ensures Blk(idx, BLKS_PER_SECTOR - 1) in st.written + Range(Blk(idx, at), cnt) <==> at + cnt == BLKS_PER_SECTOR
  {
    assert In(Blk(idx, at + cnt - 1), Blk(idx, at), cnt);
  }

  // where the next part starts
  lemma NextPart(span: Span, size: nat, parts: seq<Span>, k: nat)
    requires size > 0 && Divides(span, size, parts) && k < |parts|
    ensures Within(parts[k], size) && parts[k].cnt > 0
    ensures if k + 1 == |parts| then parts[k].End() == span.End() else parts[k].End() == parts[k + 1].begin
    ensures parts[k].End() <= span.End()
  {
    PartInside(span, size, parts, k);
  }

  lemma {:induction false} PartInside(span: Span, size: nat, parts: seq<Span>, k: nat)
    requires size > 0 && Divides(span, size, parts) && k < |parts|
    ensures parts[k].End() <= span.End()
    decreases |parts| - k
  {
    hide Within, Aligned;
    if k + 1 < |parts| {
      PartInside(span, size, parts, k + 1);
      assert parts[k + 1].begin == parts[k].End();
    }
  }

  lemma PutNone(blks: BlockMap, begin: nat)
    ensures PutBlocks(blks, begin, []) == blks && Range(begin, 0) == {}
  {
  }

  lemma PutSplit(blks: BlockMap, begin: nat, a: seq<Block>, b: seq<Block>)
    ensures PutBlocks(PutBlocks(blks, begin, a), begin + |a|, b) == PutBlocks(blks, begin, a + b)
  {
    hide PutBlocks;
    var first := PutBlocks(blks, begin, a);
    var l, r := PutBlocks(first, begin + |a|, b), PutBlocks(blks, begin, a + b);
    forall k: nat ensures (k in l <==> k in r) && (k in l ==> l[k] == r[k]) {
      PutAt(blks, begin, a, k);
      PutAt(first, begin + |a|, b, k);
      PutAt(blks, begin, a + b, k);
    }
  }

  lemma PutAt(blks: BlockMap, begin: nat, data: seq<Block>, k: nat)
    ensures k in PutBlocks(blks, begin, data) <==> k in blks || In(k, begin, |data|)
    ensures In(k, begin, |data|) ==> PutBlocks(blks, begin, data)[k] == data[k - begin]
    ensures !In(k, begin, |data|) && k in blks ==> PutBlocks(blks, begin, data)[k] == blks[k]
  {
  }

  lemma RangeSplit(begin: nat, a: nat, b: nat)
    ensures Range(begin, a) + Range(begin + a, b) == Range(begin, a + b)
  {
    assert forall x: nat :: In(x, begin, a + b) <==> In(x, begin, a) || In(x, begin + a, b);
  }

  lemma RangeSub(begin: nat, cnt: nat, begin': nat, cnt': nat)
    requires begin <= begin' && begin' + cnt' <= begin + cnt
    ensures Range(begin', cnt') <= Range(begin, cnt)
  {
    assert forall x: nat :: In(x, begin', cnt') ==> In(x, begin, cnt);
  }

  lemma DelNone(blks: BlockMap, begin: nat)
    ensures DelBlocks(blks, begin, 0) == blks
  {
  }

  lemma DelSplit(blks: BlockMap, begin: nat, a: nat, b: nat)
    ensures DelBlocks(DelBlocks(blks, begin, a), begin + a, b) == DelBlocks(blks, begin, a + b)
  {
    assert forall x: nat :: In(x, begin, a + b) <==> In(x, begin, a) || In(x, begin + a, b);
  }

  lemma GetSplit(blks: BlockMap, begin: nat, a: nat, b: nat)
    requires HasAll(blks, begin, a) && HasAll(blks, begin + a, b)
    ensures HasAll(blks, begin, a + b)
    ensures GetBlocks(blks, begin, a + b) == GetBlocks(blks, begin, a) + GetBlocks(blks, begin + a, b)
  {
  }

  lemma DeletedGone(idx: nat, m: SlotMap, f: File, blks: BlockMap, written: set<nat>, i: nat)
    requires SecAgrees(idx, m, f, blks, written) && i < |m| && m[i].None? && Blk(idx, i) in written
    ensures Blk(idx, i) !in blks
  {
    assert CellOk(m[i], f, blks, Blk(idx, i));
  }

  lemma SectorSize(s: Sector, f: File)
    requires SectorOk(s, f)
    ensures |s.blkMap| == BLKS_PER_SECTOR && (s.IsFinished() ==> s.actualSize == CountLive(s.blkMap))
  {
  }

  lemma DelSub(blks: BlockMap, begin: nat, cnt: nat)
    ensures DelBlocks(blks, begin, cnt).Keys <= blks.Keys
  {
  }

  // a block just written is live
  lemma LastLive(m: SlotMap, at: nat, cnt: nat)
    requires cnt > 0 && at + cnt <= |m| && forall i :: at <= i < at + cnt ==> m[i].Some?
    ensures CountLive(m) > 0
  {
    CountZero(m);
    assert m[at].Some?;
  }

  lemma WriteOk(idx: nat, s: Sector, f: File, at: nat, data: seq<Block>, blks: BlockMap, written: set<nat>)
    requires SectorOk(s, f) && !s.IsFinished() && SecAgrees(idx, s.blkMap, f, blks, written) && at + |data| <= BLKS_PER_SECTOR
    ensures var s', f' := s.(blkMap := Corrected(s.blkMap, at, |data|)), WriteAt(f, at, data);
      && SectorOk(s', f') && (at + |data| == BLKS_PER_SECTOR ==> |f'| == BLKS_PER_SECTOR)
      && SecAgrees(idx, s'.blkMap, f', PutBlocks(blks, Blk(idx, at), data), written + Range(Blk(idx, at), |data|))
      && (forall i :: at <= i < at + |data| ==> s'.blkMap[i].Some?)
  {
    WrittenAgrees(idx, s.blkMap, f, blks, written, at, data);
  }

  // ---- runs ----

  datatype Op = Write(begin: nat, data: seq<Block>) | Del(span: Span) | Read(span: Span)

  /** Writes in increasing order, reads of what was written. */
  ghost predicate Legal(ops: seq<Op>, written: set<nat>, next: nat)
    decreases |ops|
  {
    ops == [] ||
    match ops[0]
    case Write(begin, data) =>
      next <= begin && Legal(ops[1..], written + Range(begin, |data|), if data == [] then next else begin + |data|)
    case Del(_) => Legal(ops[1..], written, next)
    case Read(span) => Range(span.begin, span.cnt) <= written && Legal(ops[1..], written, next)
  }

  /** What the reads of a run give on a plain map of blocks. */
  ghost function PlainRun(ops: seq<Op>, blks: BlockMap): seq<Option<seq<Block>>>
    decreases |ops|
  {
    if ops == [] then []
    else
      match ops[0]
      case Write(begin, data) => PlainRun(ops[1..], PutBlocks(blks, begin, data))
      case Del(span) => PlainRun(ops[1..], DelBlocks(blks, span.begin, span.cnt))
      case Read(span) =>
        [if HasAll(blks, span.begin, span.cnt) then Some(GetBlocks(blks, span.begin, span.cnt)) else None]
        + PlainRun(ops[1..], blks)
  }

  /** Whatever is written, deleted and shrunk in between, every read gives what a
      plain map of blocks gives. */
  method RunOps(ops: seq<Op>) returns (results: seq<Option<seq<Block>>>)
    requires Legal(ops, {}, 0)
    ensures results == PlainRun(ops, map[])
  {
    hide Ok, PutBlocks, DelBlocks, HasAll, Range;
    var mgr := new SectorMgr();
    results := [];
    assert ops[0..] == ops;
    for k := 0 to |ops|
      invariant fresh(mgr) && mgr.Valid() && Legal(ops[k..], mgr.written, mgr.next)
      invariant results + PlainRun(ops[k..], mgr.blks) == PlainRun(ops, map[])
    {
      assert ops[k..][0] == ops[k] && ops[k..][1..] == ops[k + 1..];
      match ops[k] {
        case Write(begin, data) =>
          mgr.WriteBlocks(Span(begin, |data|), data);
        case Del(span) =>
          mgr.Delete(span);
        case Read(span) =>
          var r := mgr.ReadBlocks(span);
          results := results + [r];
      }
    }
  }
}
