/** The reference Merkle tree: a full rebuild, laid out root first. */
module MerkleSpec {
  import opened Basics

  // data piece size, a power of two, so the source's mask arithmetic is `/` and `%`
  const PIECE_SIZE: nat := 0x40000

  function AlignOffset(n: nat): nat { n % PIECE_SIZE }

  function AlignFloor(n: nat): nat { n - n % PIECE_SIZE }

  function FloorPiece(n: nat): nat { n / PIECE_SIZE }

  // an empty content still has one piece
  function CeilPiece(n: nat): nat {
    if n == 0 then 1 else (n + PIECE_SIZE - 1) / PIECE_SIZE
  }

  function Piece(data: Bytes, i: nat): Bytes {
    Clip(data, i * PIECE_SIZE, (i + 1) * PIECE_SIZE)
  }

  function LeafLevel(h: Hasher, data: Bytes): (r: seq<Hash>)
    ensures |r| == CeilPiece(|data|) >= 1
  {
    seq(CeilPiece(|data|), i requires 0 <= i => h(Piece(data, i)))
  }

  // the parent of nodes 2i and 2i+1 of a level; a node without sibling is copied up
  function ParentHash(h: Hasher, lvl: seq<Hash>, i: nat): Hash
    requires 2 * i < |lvl|
  {
    if 2 * i + 1 < |lvl| then h(lvl[2 * i].bytes + lvl[2 * i + 1].bytes) else lvl[2 * i]
  }

  function Up(h: Hasher, lvl: seq<Hash>): (r: seq<Hash>)
    ensures |r| == (|lvl| + 1) / 2
    ensures forall i :: 0 <= i < |r| ==> r[i] == ParentHash(h, lvl, i)
  {
    seq((|lvl| + 1) / 2, i requires 0 <= i < (|lvl| + 1) / 2 => ParentHash(h, lvl, i))
  }

  function Flat(h: Hasher, lvl: seq<Hash>): seq<Hash>
    requires |lvl| >= 1
    decreases |lvl|
  {
    if |lvl| == 1 then lvl else Flat(h, Up(h, lvl)) + lvl
  }

  // number of nodes of a tree with n leaves
  function Size(n: nat): nat
    requires n >= 1
    decreases n
  {
    if n == 1 then 1 else Size((n + 1) / 2) + n
  }

  /** The reference root: reduce a level pairwise until one node is left. */
  function Root(h: Hasher, lvl: seq<Hash>): Hash
    requires |lvl| >= 1
    decreases |lvl|
  {
    if |lvl| == 1 then lvl[0] else Root(h, Up(h, lvl))
  }

  /** The tree a full rebuild over `data` gives. */
  function Tree(h: Hasher, data: Bytes): seq<Hash> {
    Flat(h, LeafLevel(h, data))
  }

  lemma {:induction false} FlatShape(h: Hasher, lvl: seq<Hash>)
    requires |lvl| >= 1
    ensures |Flat(h, lvl)| == Size(|lvl|)
    ensures Size(|lvl|) >= |lvl|
    ensures forall i :: Size(|lvl|) - |lvl| <= i < Size(|lvl|) ==>
      Flat(h, lvl)[i] == lvl[i - (Size(|lvl|) - |lvl|)]
    ensures |lvl| > 1 ==>
      && |Flat(h, Up(h, lvl))| == Size(|lvl|) - |lvl|
      && forall i :: 0 <= i < |Flat(h, Up(h, lvl))| ==> Flat(h, lvl)[i] == Flat(h, Up(h, lvl))[i]
    decreases |lvl|
  {
    if |lvl| > 1 {
      FlatShape(h, Up(h, lvl));
    }
  }

  lemma {:induction false} SizeMonotone(m: nat, n: nat)
    requires 1 <= m <= n
    ensures Size(m) <= Size(n)
    ensures Size(m) - m <= Size(n) - n
    decreases n
  {
    if m > 1 {
      SizeMonotone((m + 1) / 2, (n + 1) / 2);
    } else if n > 1 {
      SizeMonotone(1, (n + 1) / 2);
    }
  }

  /** The first node of the array is the reference root of the bytes. */
  lemma {:induction false} FlatHeadIsRoot(h: Hasher, lvl: seq<Hash>)
    requires |lvl| >= 1
    ensures |Flat(h, lvl)| >= 1
    ensures Flat(h, lvl)[0] == Root(h, lvl)
    decreases |lvl|
  {
    if |lvl| > 1 {
      FlatHeadIsRoot(h, Up(h, lvl));
    }
  }
}
