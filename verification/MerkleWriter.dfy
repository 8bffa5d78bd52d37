/** The writer that stages leaf hashes, and the reader boundary pieces are re-hashed through. */
module MerkleWriter {
  import opened Basics
  import opened MerkleSpec

  datatype Leaves = Leaves(offset: nat, len: nat, nodes: seq<Hash>)

  // the bytes of `data`, placed at `offset`, that fall in absolute piece `k`
  function StagedPiece(offset: nat, data: Bytes, k: nat): Bytes {
    Clip(data, Max(k * PIECE_SIZE - offset, 0), Max((k + 1) * PIECE_SIZE - offset, 0))
  }

  function StagedCount(offset: nat, len: nat): (n: nat)
    ensures len == 0 ==> n == 1
  {
    if len == 0 then 1 else CeilPiece(offset + len) - FloorPiece(offset)
  }

  /** What the writer hands over after being fed `data` from `offset` on. */
  function StagedLeaves(h: Hasher, offset: nat, data: Bytes): Leaves {
    Leaves(offset, |data|,
           seq(StagedCount(offset, |data|),
               j requires 0 <= j => h(StagedPiece(offset, data, FloorPiece(offset) + j))))
  }

  /** Every finished piece is hashed; `state` holds the bytes of the current one. */
  ghost predicate Staged(h: Hasher, offset: nat, written: Bytes, nodes: seq<Hash>, state: Bytes) {
    && |nodes| == FloorPiece(offset + |written|) - FloorPiece(offset)
    && (forall j :: 0 <= j < |nodes| ==>
          nodes[j] == h(StagedPiece(offset, written, FloorPiece(offset) + j)))
    && state == StagedPiece(offset, written, FloorPiece(offset + |written|))
  }

  class Writer {
    const h: Hasher
    var hashOffset: nat
    var state: Bytes
    var leaves: Leaves
    ghost var written: Bytes

    ghost predicate Valid()
      reads this
    {
      && leaves.len == |written|
      && hashOffset == leaves.offset + |written|
      && Staged(h, leaves.offset, written, leaves.nodes, state)
    }

    constructor (h: Hasher)
      ensures Valid() && written == [] && leaves.offset == 0 && this.h == h
    {
      this.h := h;
      hashOffset, state, written := 0, [], [];
      leaves := Leaves(0, 0, []);
    }

    method Seek(offset: nat)
      requires Valid() && leaves.offset == 0 && written == []
      modifies this
      ensures Valid() && leaves.offset == offset && written == []
    {
      leaves := leaves.(offset := offset);
      hashOffset := offset;
    }

    method Write(data: Bytes)
      requires Valid()
      modifies this
      ensures Valid()
      ensures written == old(written) + data && leaves.offset == old(leaves.offset)
    {
      var dataPos := 0;
      while dataPos < |data|
        invariant dataPos <= |data|
        invariant leaves.offset == old(leaves.offset)
        invariant written == old(written) + data[..dataPos]
        invariant Valid()
      {
        var pos := AlignOffset(hashOffset);
        var hashLen := Min(PIECE_SIZE - pos, |data| - dataPos);
        assert data[..dataPos + hashLen] == data[..dataPos] + data[dataPos..dataPos + hashLen];
        HashUpdate(data[dataPos..dataPos + hashLen]);
        dataPos := dataPos + hashLen;
      }
    }

    // one round of the write loop, within the current piece
    method HashUpdate(part: Bytes)
      requires Valid() && 0 < |part| <= PIECE_SIZE - AlignOffset(hashOffset)
      modifies this
      ensures Valid()
      ensures written == old(written) + part && leaves.offset == old(leaves.offset)
    {
      StagedStep(h, leaves.offset, written, part, leaves.nodes, state);
      state := state + part;
      // reached a piece boundary: finish its hash and start a new round
      if AlignOffset(hashOffset + |part|) <= AlignOffset(hashOffset) {
        leaves := leaves.(nodes := leaves.nodes + [h(state)]);
        state := [];
      }
      written := written + part;
      hashOffset := hashOffset + |part|;
      leaves := leaves.(len := leaves.len + |part|);
    }

    method FinishWithLeaves() returns (r: Leaves)
      requires Valid()
      ensures r == StagedLeaves(h, leaves.offset, written)
    {
      r := leaves;
      if leaves.len == 0 || AlignOffset(hashOffset) != 0 {
        r := r.(nodes := r.nodes + [h(state)]);
      }
    }
  }

  /** Feeding more bytes of the current piece leaves finished pieces alone and
      extends only the piece being hashed. */
  lemma StagedGrows(offset: nat, written: Bytes, more: Bytes)
    requires 0 < |more| <= PIECE_SIZE - AlignOffset(offset + |written|)
    ensures forall k: nat :: k < FloorPiece(offset + |written|) ==>
      StagedPiece(offset, written + more, k) == StagedPiece(offset, written, k)
    ensures StagedPiece(offset, written + more, FloorPiece(offset + |written|))
         == StagedPiece(offset, written, FloorPiece(offset + |written|)) + more
    ensures AlignOffset(offset + |written| + |more|) == 0 ==>
      && StagedPiece(offset, written + more, FloorPiece(offset + |written|) + 1) == []
      && FloorPiece(offset + |written| + |more|) == FloorPiece(offset + |written|) + 1
    ensures AlignOffset(offset + |written| + |more|) != 0 ==>
      FloorPiece(offset + |written| + |more|) == FloorPiece(offset + |written|)
    ensures AlignOffset(offset + |written| + |more|) <= AlignOffset(offset + |written|)
       <==> AlignOffset(offset + |written| + |more|) == 0
  {
    forall k: nat | k < FloorPiece(offset + |written|)
      ensures StagedPiece(offset, written + more, k) == StagedPiece(offset, written, k)
    {
      StagedPieceFixed(offset, written, more, k);
    }
    StagedPieceGrows(offset, written, more);
  }

  lemma StagedStep(h: Hasher, offset: nat, written: Bytes, more: Bytes, nodes: seq<Hash>, state: Bytes)
    requires 0 < |more| <= PIECE_SIZE - AlignOffset(offset + |written|)
    requires Staged(h, offset, written, nodes, state)
    ensures if AlignOffset(offset + |written| + |more|) <= AlignOffset(offset + |written|)
            then Staged(h, offset, written + more, nodes + [h(state + more)], [])
            else Staged(h, offset, written + more, nodes, state + more)
  {
    StagedGrows(offset, written, more);
  }

  lemma StagedPieceGrows(offset: nat, written: Bytes, more: Bytes)
    requires 0 < |more| <= PIECE_SIZE - AlignOffset(offset + |written|)
    ensures StagedPiece(offset, written + more, FloorPiece(offset + |written|))
         == StagedPiece(offset, written, FloorPiece(offset + |written|)) + more
  {
    var k := FloorPiece(offset + |written|);
    var from := Max(k * PIECE_SIZE - offset, 0);
    assert from <= |written| && |written| + |more| <= (k + 1) * PIECE_SIZE - offset;
    assert StagedPiece(offset, written, k) == written[from..];
    assert StagedPiece(offset, written + more, k) == (written + more)[from..];
  }

  lemma StagedPieceFixed(offset: nat, written: Bytes, more: Bytes, k: nat)
    requires k < FloorPiece(offset + |written|)
    ensures StagedPiece(offset, written + more, k) == StagedPiece(offset, written, k)
  {
    assert (k + 1) * PIECE_SIZE - offset <= |written|;
  }

  /** A seekable source of bytes; a read may return fewer bytes than asked. */
  class Reader {
    const data: Bytes
    var pos: nat

    constructor (data: Bytes)
      ensures this.data == data && pos == 0
    {
      this.data := data;
      pos := 0;
    }

    method Seek(to: nat)
      modifies this
      ensures pos == to
    {
      pos := to;
    }

    method Read(cap: nat) returns (buf: Bytes)
      modifies this
      ensures |buf| <= cap && pos == old(pos) + |buf|
      ensures buf == Clip(data, old(pos), pos)
      ensures buf == [] <==> cap == 0 || old(pos) >= |data|
    {
      if cap == 0 || pos >= |data| {
        return [];
      }
      var n: nat :| 0 < n <= cap && n <= |data| - pos;
      buf := data[pos..pos + n];
      pos := pos + n;
    }
  }

  /** Read one data piece, in however many reads it takes, and hash it. */
  method PieceHash(h: Hasher, offset: nat, rdr: Reader) returns (r: Hash)
    modifies rdr
    ensures r == h(Piece(rdr.data, FloorPiece(offset)))
  {
    rdr.Seek(AlignFloor(offset));
    var pos := 0;
    var state: Bytes := [];
    while true
      invariant 0 <= pos <= PIECE_SIZE
      invariant rdr.pos == AlignFloor(offset) + pos
      invariant state == Clip(rdr.data, AlignFloor(offset), AlignFloor(offset) + pos)
      decreases PIECE_SIZE - pos
    {
      var buf := rdr.Read(PIECE_SIZE - pos);
      if buf == [] {
        break;
      }
      state := state + buf;
      pos := pos + |buf|;
    }
    return h(state);
  }
}
