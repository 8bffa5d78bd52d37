/** One sector of the file depot: a map from block to slot over a data file. Sizes in blocks. */
module Sectors {
  import opened Basics

  const BLKS_PER_SECTOR: nat := 4096

  datatype Block = Block(bytes: Bytes)

  // what a hole in a file reads as
  const ZERO: Block := Block([])

  type File = seq<Block>

  // where each block is in the data file; None marks a deletion
  type SlotMap = seq<Option<nat>>

  datatype Sector = Sector(currSize: nat, actualSize: nat, blkMap: SlotMap) {
    predicate IsFinished() { currSize > 0 }

    predicate IsShrinkable() { 4 * actualSize <= currSize }
  }

  function NewSector(): Sector {
    Sector(0, 0, seq(BLKS_PER_SECTOR, i requires 0 <= i => Some(i)))
  }

  function CountLive(m: SlotMap): nat {
    if m == [] then 0 else CountLive(m[..|m| - 1]) + if m[|m| - 1].Some? then 1 else 0
  }

  lemma CountNext(m: SlotMap, i: nat)
    requires i < |m|
    ensures CountLive(m[..i + 1]) == CountLive(m[..i]) + if m[i].Some? then 1 else 0
  {
    assert m[..i + 1][..i] == m[..i];
  }

  lemma {:induction false} CountMono(m: SlotMap, i: nat)
    requires i <= |m|
    ensures CountLive(m[..i]) <= CountLive(m)
    decreases |m| - i
  {
    if i == |m| {
      assert m[..i] == m;
    } else {
      CountNext(m, i);
      CountMono(m, i + 1);
    }
  }

  lemma {:induction false} CountBound(m: SlotMap)
    ensures CountLive(m) <= |m|
  {
    if m != [] {
      CountBound(m[..|m| - 1]);
    }
  }

  lemma {:induction false} CountZero(m: SlotMap)
    ensures CountLive(m) == 0 <==> forall i :: 0 <= i < |m| ==> m[i].None?
  {
    if m != [] {
      CountZero(m[..|m| - 1]);
    }
  }

  lemma {:induction false} CountUpdate(m: SlotMap, i: nat, s: Option<nat>)
    requires i < |m|
    ensures CountLive(m[i := s]) == CountLive(m) - (if m[i].Some? then 1 else 0) + (if s.Some? then 1 else 0)
  {
    var n := |m| - 1;
    if i < n {
      assert m[i := s][..n] == m[..n][i := s];
      CountUpdate(m[..n], i, s);
    } else {
      assert m[i := s][..n] == m[..n];
    }
  }

  /** Live neighbours lie in neighbouring slots, so a run of live blocks can be read
      in one go. */
  ghost predicate Adjacent(m: SlotMap) {
    forall i {:trigger m[i]} :: 0 < i < |m| && m[i].Some? && m[i - 1].Some? ==> m[i].value == m[i - 1].value + 1
  }

  ghost predicate InFile(m: SlotMap, len: nat) {
    forall i :: 0 <= i < |m| && m[i].Some? ==> m[i].value < len
  }

  // nothing has moved yet
  ghost predicate Unmoved(m: SlotMap) {
    forall i :: 0 <= i < |m| && m[i].Some? ==> m[i].value == i
  }

  /** What holds of a sector and its file, as long as it exists. */
  ghost predicate SectorOk(s: Sector, f: File) {
    && |s.blkMap| == BLKS_PER_SECTOR && |f| <= BLKS_PER_SECTOR
    && if s.IsFinished() then
         && s.currSize == |f| && s.actualSize == CountLive(s.blkMap)
         && Adjacent(s.blkMap) && InFile(s.blkMap, |f|)
       else Unmoved(s.blkMap)
  }

  lemma UnmovedAdjacent(m: SlotMap)
    requires Unmoved(m)
    ensures Adjacent(m)
  {
  }

  /** A run of live blocks occupies a run of slots. */
  lemma {:induction false} RunOfSlots(m: SlotMap, at: nat, cnt: nat)
    requires Adjacent(m) && at + cnt <= |m| && cnt > 0
    requires forall i :: at <= i < at + cnt ==> m[i].Some?
    ensures forall i :: at <= i < at + cnt ==> m[i].value == m[at].value + i - at
  {
    if cnt > 1 {
      RunOfSlots(m, at, cnt - 1);
      assert m[at + cnt - 1].value == m[at + cnt - 2].value + 1;
    }
  }

  // ---- deletion ----

  function Marked(m: SlotMap, at: nat, cnt: nat): (r: SlotMap)
    requires at + cnt <= |m|
    ensures |r| == |m|
  {
    seq(|m|, i requires 0 <= i < |m| => if at <= i < at + cnt then None else m[i])
  }

  /** Mark blocks deleted; the live size follows once the sector is finished. */
  method MarkDeletion(s: Sector, at: nat, cnt: nat) returns (r: Sector)
    requires at + cnt <= |s.blkMap|
    requires s.IsFinished() ==> s.actualSize == CountLive(s.blkMap)
    ensures r.blkMap == Marked(s.blkMap, at, cnt) && r.currSize == s.currSize
    ensures r.actualSize == if s.IsFinished() then CountLive(r.blkMap) else s.actualSize
  {
    var m, deleted := s.blkMap, 0;
    for i := at to at + cnt
      invariant |m| == |s.blkMap| && CountLive(m) + deleted == CountLive(s.blkMap)
      invariant forall j :: 0 <= j < |m| ==> m[j] == if at <= j < i then None else s.blkMap[j]
    {
      if m[i].Some? {
        CountUpdate(m, i, None);
        m, deleted := m[i := None], deleted + 1;
      }
    }
    assert m == Marked(s.blkMap, at, cnt);
    r := Sector(s.currSize, if s.IsFinished() then s.actualSize - deleted else s.actualSize, m);
  }

  lemma MarkedOk(s: Sector, f: File, r: Sector, at: nat, cnt: nat)
    requires SectorOk(s, f) && at + cnt <= |s.blkMap| && r.blkMap == Marked(s.blkMap, at, cnt) && r.currSize == s.currSize
    requires r.actualSize == if s.IsFinished() then CountLive(r.blkMap) else s.actualSize
    ensures SectorOk(r, f)
  {
    hide CountLive;
    if s.IsFinished() {
      forall i {:trigger r.blkMap[i]} | 0 < i < |r.blkMap| && r.blkMap[i].Some? && r.blkMap[i - 1].Some?
        ensures r.blkMap[i].value == r.blkMap[i - 1].value + 1
      {
        assert s.blkMap[i].Some? && s.blkMap[i - 1].Some?;
      }
    }
  }

  // ---- shrinking ----

  // live blocks keep their content, slots are given out anew in order
  ghost predicate Packed(m: SlotMap, f: File, m': SlotMap, f': File, n: nat)
    requires n <= |m|
  {
    && |m'| == |m| && |f'| == CountLive(m[..n])
    && (forall i :: 0 <= i < |m| ==> m'[i].Some? == m[i].Some?)
    && (forall i :: n <= i < |m| ==> m'[i] == m[i])
    && (forall i :: 0 <= i < n && m[i].Some? ==>
          m'[i].value == CountLive(m[..i]) && m'[i].value < |f'| && m[i].value < |f| && f'[m'[i].value] == f[m[i].value])
  }

  lemma PackSkip(m: SlotMap, f: File, m': SlotMap, f': File, n: nat)
    requires n < |m| && Packed(m, f, m', f', n) && m[n].None?
    ensures Packed(m, f, m', f', n + 1)
  {
    CountNext(m, n);
  }

  lemma PackOne(m: SlotMap, f: File, m': SlotMap, f': File, n: nat)
    requires n < |m| && Packed(m, f, m', f', n) && m[n].Some? && m[n].value < |f|
    ensures Packed(m, f, m'[n := Some(|f'|)], f' + [f[m[n].value]], n + 1)
  {
    CountNext(m, n);
  }

  /** Rewrite the data file without the deleted blocks. */
  method Shrink(s: Sector, f: File) returns (s': Sector, f': File)
    requires SectorOk(s, f) && s.IsFinished()
    ensures Packed(s.blkMap, f, s'.blkMap, f', |s.blkMap|)
    ensures s'.actualSize == s'.currSize == |f'|
  {
    hide Packed, CountLive, Adjacent, InFile;
    var m: SlotMap := s.blkMap;
    f' := [];
    PackNone(m, f);
    for i := 0 to |s.blkMap|
      invariant |m| == |s.blkMap| && Packed(s.blkMap, f, m, f', i)
    {
      PackedRest(s.blkMap, f, m, f', i);
      if m[i].None? {
        PackSkip(s.blkMap, f, m, f', i);
        continue;
      }
      SlotInFile(s.blkMap, |f|, i);
      if m[i].value >= s.currSize {
        assert false;
        break;
      }
      PackOne(s.blkMap, f, m, f', i);
      var slot := |f'|;
      f' := f' + [f[m[i].value]];
      m := m[i := Some(slot)];
    }
    s' := Sector(|f'|, |f'|, m);
  }

  lemma PackNone(m: SlotMap, f: File)
    ensures Packed(m, f, m, [], 0)
  {
  }

  lemma PackedRest(m: SlotMap, f: File, m': SlotMap, f': File, n: nat)
    requires n < |m| && Packed(m, f, m', f', n)
    ensures |m'| == |m| && m'[n] == m[n]
  {
  }

  lemma SlotInFile(m: SlotMap, len: nat, i: nat)
    requires InFile(m, len) && i < |m| && m[i].Some?
    ensures m[i].value < len
  {
  }

  lemma {:induction false} SameCount(m: SlotMap, m': SlotMap)
    requires |m| == |m'| && forall i :: 0 <= i < |m| ==> m'[i].Some? == m[i].Some?
    ensures CountLive(m) == CountLive(m')
  {
    if m != [] {
      SameCount(m[..|m| - 1], m'[..|m| - 1]);
    }
  }

  /** Shrinking keeps the sector in order, any number of times. */
  lemma ShrunkOk(s: Sector, f: File, s': Sector, f': File)
    requires SectorOk(s, f) && s.IsFinished() && s.actualSize > 0
    requires Packed(s.blkMap, f, s'.blkMap, f', |s.blkMap|) && s'.actualSize == s'.currSize == |f'|
    ensures SectorOk(s', f') && s'.IsFinished()
  {
    var m, m' := s.blkMap, s'.blkMap;
    assert m[..|m|] == m;
    SameCount(m, m');
    CountBound(m);
    hide CountLive;
    forall i {:trigger m'[i]} | 0 < i < |m'| && m'[i].Some? && m'[i - 1].Some? ensures m'[i].value == m'[i - 1].value + 1 {
      CountNext(m, i - 1);
      assert m[i].Some? && m[i - 1].Some?;
    }
  }

  // ---- writing ----

  // overwrite the file from slot `at` on, filling a gap with zeros
  function WriteAt(f: File, at: nat, data: File): (r: File)
    ensures |r| == Max(|f|, at + |data|)
    ensures forall j :: 0 <= j < |r| ==>
      r[j] == if at <= j < at + |data| then data[j - at] else if j < |f| then f[j] else ZERO
  {
    seq(Max(|f|, at + |data|),
        j requires 0 <= j < Max(|f|, at + |data|) =>
          if at <= j < at + |data| then data[j - at] else if j < |f| then f[j] else ZERO)
  }

  function Corrected(m: SlotMap, at: nat, cnt: nat): (r: SlotMap)
    requires at + cnt <= |m|
    ensures |r| == |m|
  {
    seq(|m|, i requires 0 <= i < |m| => if at <= i < at + cnt && m[i].None? then Some(i) else m[i])
  }

  /** Blocks written are no longer deleted. */
  method Correct(m: SlotMap, at: nat, cnt: nat) returns (r: SlotMap)
    requires at + cnt <= |m|
    ensures r == Corrected(m, at, cnt)
  {
    r := m;
    for i := at to at + cnt
      invariant |r| == |m|
      invariant forall j :: 0 <= j < |m| ==> r[j] == if at <= j < i && m[j].None? then Some(j) else m[j]
    {
      if r[i].None? {
        r := r[i := Some(i)];
      }
    }
  }

  lemma FinishOk(s: Sector, f: File)
    requires SectorOk(s, f) && !s.IsFinished() && |f| == BLKS_PER_SECTOR
    ensures SectorOk(Sector(BLKS_PER_SECTOR, CountLive(s.blkMap), s.blkMap), f)
  {
    UnmovedAdjacent(s.blkMap);
  }
}
