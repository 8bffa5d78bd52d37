/** Entities in encrypted frames: what stored blocks mean. */
module FrameSpec {
  import opened Basics
  import opened BlockSpans
  import opened Addresses

  /** A cipher: every encryption draws a salt and adds a fixed overhead. */
  datatype Cipher = Cipher(enc: (Bytes, nat) -> Bytes, dec: Bytes -> Option<Bytes>, overhead: nat) {
    // how much goes into a frame
    function Plain(): int { FRAME_SIZE - overhead }
  }

  ghost predicate CipherOk(c: Cipher) {
    && c.overhead < FRAME_SIZE
    && (forall d, salt :: |c.enc(d, salt)| == |d| + c.overhead)
    && (forall d, salt :: c.dec(c.enc(d, salt)) == Some(d))
  }

  type Depot = map<nat, Bytes>

  ghost predicate InDepot(depot: Depot, bs: seq<nat>) {
    forall i :: 0 <= i < |bs| ==> bs[i] in depot && |depot[bs[i]]| == BLK_SIZE
  }

  function Gather(depot: Depot, bs: seq<nat>): seq<Bytes>
    requires forall i :: 0 <= i < |bs| ==> bs[i] in depot
  {
    seq(|bs|, i requires 0 <= i < |bs| => depot[bs[i]])
  }

  /** These blocks, cut to a length, decrypt to `plain`. */
  ghost predicate Holds(c: Cipher, depot: Depot, bs: seq<nat>, len: int, plain: Bytes) {
    InDepot(depot, bs) &&
    var bytes := Flatten(Gather(depot, bs));
    0 <= len <= |bytes| && c.dec(bytes[..len]) == Some(plain)
  }

  lemma HoldsSame(c: Cipher, depot: Depot, depot': Depot, bs: seq<nat>, len: int, plain: Bytes)
    requires Holds(c, depot, bs, len, plain)
    requires forall i :: 0 <= i < |bs| ==> bs[i] in depot' && depot'[bs[i]] == depot[bs[i]]
    ensures Holds(c, depot', bs, len, plain)
  {
    assert Gather(depot', bs) == Gather(depot, bs);
  }

  // the plain bytes of frame i
  function Chunk(c: Cipher, data: Bytes, i: nat): Bytes
    requires c.overhead < FRAME_SIZE && i * c.Plain() <= |data|
  {
    data[i * c.Plain()..Min((i + 1) * c.Plain(), |data|)]
  }

  ghost predicate FrameHolds(c: Cipher, depot: Depot, bs: seq<nat>, len: nat, data: Bytes, n: nat, i: nat)
    requires c.overhead < FRAME_SIZE
  {
    && i * BLKS_PER_FRAME <= |bs| && i * c.Plain() <= |data|
    && Holds(c, depot, FrameBlocks(bs, i), FrameLen(len, i, n), Chunk(c, data, i))
  }

  /** An address holds `data`: `n` frames, all but the last of them full. */
  ghost predicate EntHolds(c: Cipher, depot: Depot, addr: Addr, data: Bytes, n: nat)
    requires c.overhead < FRAME_SIZE
  {
    var bs := Blocks(addr.list);
    && AllFull(addr.list) && (n == 0 <==> addr.list == []) && (n == 0 <==> bs == []) && LenFits(addr.len, |bs|)
    && (n > 0 ==> (n - 1) * BLKS_PER_FRAME < |bs| <= n * BLKS_PER_FRAME && (n - 1) * c.Plain() < |data| <= n * c.Plain())
    && (n == 0 ==> data == [])
    && forall i :: 0 <= i < n ==> FrameHolds(c, depot, bs, addr.len, data, n, i)
  }

  lemma EntSame(c: Cipher, depot: Depot, depot': Depot, addr: Addr, data: Bytes, n: nat)
    requires c.overhead < FRAME_SIZE && EntHolds(c, depot, addr, data, n)
    requires forall b :: b in Blocks(addr.list) && b in depot ==> b in depot' && depot'[b] == depot[b]
    ensures EntHolds(c, depot', addr, data, n)
  {
    hide Blocks, Chunk;
    var bs := Blocks(addr.list);
    forall i | 0 <= i < n ensures FrameHolds(c, depot', bs, addr.len, data, n, i) {
      assert FrameHolds(c, depot, bs, addr.len, data, n, i);
      var fs := FrameBlocks(bs, i);
      forall j | 0 <= j < |fs| ensures fs[j] in depot' && depot'[fs[j]] == depot[fs[j]] {
        assert fs[j] == bs[i * BLKS_PER_FRAME + j];
        assert fs[j] in bs;
      }
      HoldsSame(c, depot, depot', fs, FrameLen(addr.len, i, n), Chunk(c, data, i));
    }
  }

  // ---- writing a frame ----

  function Ceil(len: nat): nat { (len + BLK_SIZE - 1) / BLK_SIZE }

  // block i of a frame's bytes
  function Piece(bytes: Bytes, i: nat): Bytes
    requires (i + 1) * BLK_SIZE <= |bytes|
  {
    bytes[i * BLK_SIZE..(i + 1) * BLK_SIZE]
  }

  function Pieces(bytes: Bytes, cnt: nat): (r: seq<Bytes>)
    requires cnt * BLK_SIZE <= |bytes|
    ensures |r| == cnt
  {
    seq(cnt, i requires 0 <= i < cnt => Piece(bytes, i))
  }

  predicate InSpan(b: nat, span: Span) { span.begin <= b < span.End() }

  function Put(depot: Depot, span: Span, bytes: Bytes): Depot
    requires |bytes| == span.cnt * BLK_SIZE
  {
    depot + map b: nat | b < span.End() && InSpan(b, span) :: Piece(bytes, b - span.begin)
  }

  lemma PutGather(depot: Depot, span: Span, bytes: Bytes)
    requires |bytes| == span.cnt * BLK_SIZE
    ensures InDepot(Put(depot, span, bytes), Idx(span))
    ensures Gather(Put(depot, span, bytes), Idx(span)) == Pieces(bytes, span.cnt)
  {
    var bs, d := Idx(span), Put(depot, span, bytes);
    forall i | 0 <= i < |bs| ensures bs[i] in d && d[bs[i]] == Piece(bytes, i) {
      assert InSpan(bs[i], span);
    }
  }

  lemma {:induction false} PiecesJoin(bytes: Bytes, cnt: nat)
    requires |bytes| == cnt * BLK_SIZE
    ensures Flatten(Pieces(bytes, cnt)) == bytes
    decreases cnt
  {
    if cnt > 0 {
      var n := cnt - 1;
      var head := bytes[..n * BLK_SIZE];
      PiecesJoin(head, n);
      forall i | 0 <= i < n ensures Pieces(bytes, cnt)[i] == Pieces(head, n)[i] {
        SubRange(bytes, 0, n * BLK_SIZE, i * BLK_SIZE, (i + 1) * BLK_SIZE);
        assert bytes[0..n * BLK_SIZE] == head;
      }
      assert Pieces(bytes, cnt) == Pieces(head, n) + [Piece(bytes, n)];
      FlattenOne(Pieces(head, n), Piece(bytes, n));
    }
  }

  /** Blocks just put hold what was encrypted, whatever the padding. */
  lemma PutHolds(c: Cipher, depot: Depot, span: Span, plain: Bytes, salt: nat, pad: Bytes)
    requires CipherOk(c) && |c.enc(plain, salt) + pad| == span.cnt * BLK_SIZE
    ensures Holds(c, Put(depot, span, c.enc(plain, salt) + pad), Idx(span), |c.enc(plain, salt)|, plain)
  {
    var bytes := c.enc(plain, salt) + pad;
    PutGather(depot, span, bytes);
    PiecesJoin(bytes, span.cnt);
    assert bytes[..|c.enc(plain, salt)|] == c.enc(plain, salt);
  }

  // every frame so far is full
  ghost predicate Full(c: Cipher, addr: Addr, data: Bytes, n: nat) {
    |Blocks(addr.list)| == n * BLKS_PER_FRAME && |data| == n * c.Plain() && addr.len == n * FRAME_SIZE
  }

  lemma OldChunk(c: Cipher, data: Bytes, n: nat, i: nat, plain: Bytes)
    requires c.overhead < FRAME_SIZE && |data| == n * c.Plain() && i < n
    ensures i * c.Plain() <= |data| <= |data + plain| && Chunk(c, data + plain, i) == Chunk(c, data, i)
  {
    var d := c.Plain();
    MulMono(i + 1, n, d);
    assert (i + 1) * d == i * d + d;
  }

  lemma OldFrame(c: Cipher, depot: Depot, addr: Addr, data: Bytes, n: nat, i: nat, more: seq<nat>, len: nat, plain: Bytes)
    requires CipherOk(c) && EntHolds(c, depot, addr, data, n) && Full(c, addr, data, n) && i < n
    ensures FrameHolds(c, depot, Blocks(addr.list) + more, addr.len + len, data + plain, n + 1, i)
  {
    hide Blocks, Holds, Chunk;
    var bs := Blocks(addr.list);
    assert FrameHolds(c, depot, bs, addr.len, data, n, i);
    OldChunk(c, data, n, i, plain);
    assert FrameBlocks(bs + more, i) == FrameBlocks(bs, i);
    assert FrameLen(addr.len, i, n) == FRAME_SIZE;
  }

  lemma NewFrame(c: Cipher, depot: Depot, addr: Addr, data: Bytes, n: nat, more: seq<nat>, len: nat, plain: Bytes)
    requires CipherOk(c) && Full(c, addr, data, n) && 0 < |plain| <= c.Plain()
    requires |more| <= BLKS_PER_FRAME && Holds(c, depot, more, len, plain)
    ensures FrameHolds(c, depot, Blocks(addr.list) + more, addr.len + len, data + plain, n + 1, n)
  {
    hide Blocks, Holds;
    var bs, d := Blocks(addr.list), c.Plain();
    assert (n + 1) * d == n * d + d;
    assert FrameBlocks(bs + more, n) == more;
    assert Chunk(c, data + plain, n) == plain;
  }

  /** One more frame. */
  lemma AppendFrame(c: Cipher, depot: Depot, addr: Addr, addr': Addr, data: Bytes, n: nat, span: Span, plain: Bytes)
    requires CipherOk(c) && EntHolds(c, depot, addr, data, n) && Full(c, addr, data, n) && 0 < |plain| <= c.Plain()
    requires span.cnt == Ceil(|plain| + c.overhead) && Holds(c, depot, Idx(span), |plain| + c.overhead, plain)
    requires addr'.len == addr.len + |plain| + c.overhead && AllFull(addr'.list) && addr'.list != []
    requires Blocks(addr'.list) == Blocks(addr.list) + Idx(span)
    ensures EntHolds(c, depot, addr', data + plain, n + 1)
    ensures |plain| == c.Plain() ==> Full(c, addr', data + plain, n + 1)
  {
    hide Blocks, Holds, FrameHolds, Idx;
    var bs', data', m := Blocks(addr'.list), data + plain, n + 1;
    forall i | 0 <= i < m ensures FrameHolds(c, depot, bs', addr'.len, data', m, i) {
      if i < n {
        OldFrame(c, depot, addr, data, n, i, Idx(span), |plain| + c.overhead, plain);
      } else {
        NewFrame(c, depot, addr, data, n, Idx(span), |plain| + c.overhead, plain);
      }
    }
    assert (n + 1) * c.Plain() == n * c.Plain() + c.Plain();
  }
}
