/** A sector against the plain map of blocks it stands for. */
module SectorSpec {
  import opened Basics
  import opened Sectors

  type BlockMap = map<nat, Block>

  // ---- the plain map ----

  predicate In(b: nat, begin: nat, cnt: nat) { begin <= b < begin + cnt }

  function PutBlocks(blks: BlockMap, begin: nat, data: seq<Block>): BlockMap {
    blks + map b: nat | b < begin + |data| && In(b, begin, |data|) :: data[b - begin]
  }

  function DelBlocks(blks: BlockMap, begin: nat, cnt: nat): BlockMap {
    map b | b in blks && !In(b, begin, cnt) :: blks[b]
  }

  predicate HasAll(blks: BlockMap, begin: nat, cnt: nat) {
    forall b :: begin <= b < begin + cnt ==> b in blks
  }

  function GetBlocks(blks: BlockMap, begin: nat, cnt: nat): seq<Block>
    requires HasAll(blks, begin, cnt)
  {
    seq(cnt, i requires 0 <= i < cnt => blks[begin + i])
  }

  function Range(begin: nat, cnt: nat): set<nat> {
    set b: nat | b < begin + cnt && In(b, begin, cnt)
  }

  // ---- one sector against the map ----

  function Blk(idx: nat, i: nat): nat { idx * BLKS_PER_SECTOR + i }

  ghost predicate CellOk(slot: Option<nat>, f: File, blks: BlockMap, b: nat) {
    && (b in blks <==> slot.Some?)
    && (b in blks && slot.Some? ==> slot.value < |f| && f[slot.value] == blks[b])
  }

  /** The blocks of a sector that were ever written are there with their content, or
      marked deleted. */
  ghost predicate SecAgrees(idx: nat, m: SlotMap, f: File, blks: BlockMap, written: set<nat>) {
    |m| == BLKS_PER_SECTOR &&
    forall i :: 0 <= i < BLKS_PER_SECTOR && Blk(idx, i) in written ==> CellOk(m[i], f, blks, Blk(idx, i))
  }

  ghost predicate NoneLeft(idx: nat, blks: BlockMap) {
    forall i :: 0 <= i < BLKS_PER_SECTOR ==> Blk(idx, i) !in blks
  }

  lemma WrittenAgrees(idx: nat, m: SlotMap, f: File, blks: BlockMap, written: set<nat>, at: nat, data: seq<Block>)
    requires SecAgrees(idx, m, f, blks, written) && Unmoved(m) && at + |data| <= |m|
    ensures SecAgrees(idx, Corrected(m, at, |data|), WriteAt(f, at, data),
                      PutBlocks(blks, Blk(idx, at), data), written + Range(Blk(idx, at), |data|))
  {
    var m', f' := Corrected(m, at, |data|), WriteAt(f, at, data);
    var blks', written' := PutBlocks(blks, Blk(idx, at), data), written + Range(Blk(idx, at), |data|);
    forall i | 0 <= i < BLKS_PER_SECTOR && Blk(idx, i) in written' ensures CellOk(m'[i], f', blks', Blk(idx, i)) {
      assert Blk(idx, i) == Blk(idx, at) + i - at;
      if !(at <= i < at + |data|) {
        assert CellOk(m[i], f, blks, Blk(idx, i));
      }
    }
  }

  // another sector does not see what is put or deleted here
  lemma OtherPut(idx: nat, m: SlotMap, f: File, blks: BlockMap, written: set<nat>, here: nat, at: nat, data: seq<Block>)
    requires SecAgrees(idx, m, f, blks, written) && idx != here && at + |data| <= BLKS_PER_SECTOR
    ensures SecAgrees(idx, m, f, PutBlocks(blks, Blk(here, at), data), written + Range(Blk(here, at), |data|))
  {
    var blks', written' := PutBlocks(blks, Blk(here, at), data), written + Range(Blk(here, at), |data|);
    forall i | 0 <= i < BLKS_PER_SECTOR && Blk(idx, i) in written' ensures CellOk(m[i], f, blks', Blk(idx, i)) {
      Elsewhere(idx, i, here, at, |data|);
      assert CellOk(m[i], f, blks, Blk(idx, i));
    }
  }

  lemma Elsewhere(idx: nat, i: nat, here: nat, at: nat, cnt: nat)
    requires i < BLKS_PER_SECTOR && idx != here && at + cnt <= BLKS_PER_SECTOR
    ensures !(Blk(here, at) <= Blk(idx, i) < Blk(here, at) + cnt)
  {
  }

  lemma MarkedAgrees(idx: nat, m: SlotMap, f: File, blks: BlockMap, written: set<nat>, at: nat, cnt: nat)
    requires SecAgrees(idx, m, f, blks, written) && at + cnt <= |m|
    ensures SecAgrees(idx, Marked(m, at, cnt), f, DelBlocks(blks, Blk(idx, at), cnt), written)
  {
    var m', blks' := Marked(m, at, cnt), DelBlocks(blks, Blk(idx, at), cnt);
    forall i | 0 <= i < BLKS_PER_SECTOR && Blk(idx, i) in written ensures CellOk(m'[i], f, blks', Blk(idx, i)) {
      assert Blk(idx, i) == Blk(idx, at) + i - at;
      assert CellOk(m[i], f, blks, Blk(idx, i));
    }
  }

  lemma OtherDel(idx: nat, m: SlotMap, f: File, blks: BlockMap, written: set<nat>, here: nat, at: nat, cnt: nat)
    requires SecAgrees(idx, m, f, blks, written) && idx != here && at + cnt <= BLKS_PER_SECTOR
    ensures SecAgrees(idx, m, f, DelBlocks(blks, Blk(here, at), cnt), written)
  {
    var blks' := DelBlocks(blks, Blk(here, at), cnt);
    forall i | 0 <= i < BLKS_PER_SECTOR && Blk(idx, i) in written ensures CellOk(m[i], f, blks', Blk(idx, i)) {
      Elsewhere(idx, i, here, at, cnt);
      assert CellOk(m[i], f, blks, Blk(idx, i));
    }
  }

  /** Shrinking changes no block. */
  lemma ShrunkAgrees(idx: nat, m: SlotMap, f: File, m': SlotMap, f': File, blks: BlockMap, written: set<nat>)
    requires SecAgrees(idx, m, f, blks, written) && Packed(m, f, m', f', |m|)
    ensures SecAgrees(idx, m', f', blks, written)
  {
    hide CountLive;
    forall i | 0 <= i < BLKS_PER_SECTOR && Blk(idx, i) in written ensures CellOk(m'[i], f', blks, Blk(idx, i)) {
      assert CellOk(m[i], f, blks, Blk(idx, i));
    }
  }

  lemma AllGone(idx: nat, m: SlotMap, f: File, blks: BlockMap, written: set<nat>)
    requires SecAgrees(idx, m, f, blks, written) && CountLive(m) == 0 && blks.Keys <= written
    ensures NoneLeft(idx, blks)
  {
    CountZero(m);
    forall i | 0 <= i < BLKS_PER_SECTOR ensures Blk(idx, i) !in blks {
      assert Blk(idx, i) in written ==> CellOk(m[i], f, blks, Blk(idx, i));
    }
  }

  lemma FreshAgrees(idx: nat, blks: BlockMap, written: set<nat>)
    requires forall i :: 0 <= i < BLKS_PER_SECTOR ==> Blk(idx, i) !in written
    ensures SecAgrees(idx, NewSector().blkMap, [], blks, written) && SectorOk(NewSector(), [])
  {
  }

  lemma ReadOne(idx: nat, s: Sector, f: File, blks: BlockMap, written: set<nat>, at: nat, cnt: nat, i: nat)
    requires SectorOk(s, f) && SecAgrees(idx, s.blkMap, f, blks, written) && i < cnt && at + cnt <= |s.blkMap|
    requires forall i :: at <= i < at + cnt ==> Blk(idx, i) in written && s.blkMap[i].Some?
    ensures s.blkMap[at].value + i < |f| && Blk(idx, at) + i in blks
    ensures f[s.blkMap[at].value + i] == blks[Blk(idx, at) + i]
  {
    hide CountLive;
    var m := s.blkMap;
    if !s.IsFinished() {
      UnmovedAdjacent(m);
    }
    RunOfSlots(m, at, cnt);
    assert m[at + i].value == m[at].value + i;
    assert CellOk(m[at + i], f, blks, Blk(idx, at + i));
  }

  /** Reading a run of live blocks from the first one's slot on gives the map's
      blocks. */
  lemma ReadAgrees(idx: nat, s: Sector, f: File, blks: BlockMap, written: set<nat>, at: nat, cnt: nat)
    requires SectorOk(s, f) && SecAgrees(idx, s.blkMap, f, blks, written) && cnt > 0 && at + cnt <= |s.blkMap|
    requires forall i :: at <= i < at + cnt ==> Blk(idx, i) in written && s.blkMap[i].Some?
    ensures s.blkMap[at].value + cnt <= |f| && HasAll(blks, Blk(idx, at), cnt)
    ensures f[s.blkMap[at].value..s.blkMap[at].value + cnt] == GetBlocks(blks, Blk(idx, at), cnt)
  {
    hide SectorOk, SecAgrees;
    var first, base := s.blkMap[at].value, Blk(idx, at);
    ReadOne(idx, s, f, blks, written, at, cnt, cnt - 1);
    forall b | base <= b < base + cnt ensures b in blks {
      ReadOne(idx, s, f, blks, written, at, cnt, b - base);
    }
    var got, want := f[first..first + cnt], GetBlocks(blks, base, cnt);
    forall i | 0 <= i < cnt ensures got[i] == want[i] {
      ReadOne(idx, s, f, blks, written, at, cnt, i);
    }
  }
}
