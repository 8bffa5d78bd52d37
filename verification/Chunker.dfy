/** The content-defined chunker: a rolling hash over a circular window, and a
    buffer that slides along the input. */
module Chunker {
  import opened Basics
  import opened RollingHash
  import opened ChunkSpec

  const WIN_SLIDE_POS: nat := MIN_SIZE - 64
  const WTR_BUF_LEN: nat := 8 * MAX_SIZE

  /** The window agrees with the bytes it slid over in the current chunk. */
  ghost predicate WindowOn(window: Bytes, curr: Bytes, len: nat)
    requires |window| == WIN_SIZE && WIN_SLIDE_POS <= len
  {
    len > WIN_SLIDE_POS ==>
      && len <= |curr|
      && forall i :: 0 <= i < WIN_SIZE && WIN_SIZE + WIN_SLIDE_POS <= len + i ==> window[i] == curr[len - WIN_SIZE + i]
  }

  lemma WindowSlides(window: Bytes, curr: Bytes, len: nat)
    requires |window| == WIN_SIZE && WIN_SLIDE_POS <= len < |curr| && WindowOn(window, curr, len)
    ensures WindowOn(window[1..] + [curr[len]], curr, len + 1)
  {
  }

  // from the minimal size on the window lies in the current chunk
  lemma WindowFull(window: Bytes, curr: Bytes, len: nat)
    requires |window| == WIN_SIZE && MIN_SIZE <= len + 1 && len < |curr| && WindowOn(window, curr, len)
    ensures window[1..] + [curr[len]] == curr[len + 1 - WIN_SIZE..len + 1] && window[0] == curr[len - WIN_SIZE]
  {
  }

  lemma WindowStart(window: Bytes, curr: Bytes)
    requires |window| == WIN_SIZE
    ensures WindowOn(window, curr, WIN_SLIDE_POS)
  {
  }

  lemma WindowExtends(window: Bytes, curr: Bytes, len: nat, data: Bytes)
    requires |window| == WIN_SIZE && WIN_SLIDE_POS <= len && WindowOn(window, curr, len)
    ensures WindowOn(window, curr + data, len)
  {
  }

  /** The test on the rolling hash is the test on the chunk's own bytes. */
  lemma CutTest(window: Bytes, curr: Bytes, len: nat, hash: U64, params: Params, out: Byte)
    requires |window| == WIN_SIZE && MIN_SIZE <= len + 1 && len < |curr| && WindowOn(window, curr, len)
    requires hash as nat == Poly(window[1..] + [curr[len]]) && out == window[0] && ParamsOk(params)
    ensures |params.ir| == 256
    ensures CutAt(curr, len + 1) <==> MaskedZero(hash as nat, params.ir[out] as nat) || len + 1 >= MAX_SIZE
  {
    WindowFull(window, curr, len);
    MaskTest(hash as nat, params.ir[out] as nat);
    hide MaskedZero, Matches, Poly, Ir;
  }

  // a circular buffer, oldest byte first
  function Unwound(s: Bytes, idx: nat): (r: Bytes)
    requires idx < |s|
    ensures |r| == |s| && r[0] == s[idx]
  {
    s[idx..] + s[..idx]
  }

  lemma UnwoundPush(s: Bytes, idx: nat, ch: Byte)
    requires idx < |s| == WIN_SIZE
    ensures Unwound(s[idx := ch], (idx + 1) % WIN_SIZE) == Unwound(s, idx)[1..] + [ch]
  {
    if idx + 1 == WIN_SIZE {
      UnwoundWrap(s, ch);
    } else {
      UnwoundStep(s, idx, ch);
    }
  }

  lemma UnwoundWrap(s: Bytes, ch: Byte)
    requires |s| == WIN_SIZE
    ensures Unwound(s[WIN_SIZE - 1 := ch], 0) == Unwound(s, WIN_SIZE - 1)[1..] + [ch]
  {
    assert Unwound(s, WIN_SIZE - 1) == [s[WIN_SIZE - 1]] + s[..WIN_SIZE - 1];
    assert s[WIN_SIZE - 1 := ch] == s[..WIN_SIZE - 1] + [ch];
  }

  lemma UnwoundStep(s: Bytes, idx: nat, ch: Byte)
    requires idx + 1 < |s|
    ensures Unwound(s[idx := ch], idx + 1) == Unwound(s, idx)[1..] + [ch]
  {
    var t, u := s[idx := ch], Unwound(s, idx);
    assert t[idx + 1..] == s[idx + 1..] && t[..idx + 1] == s[..idx] + [ch];
    assert s[idx..] == [s[idx]] + s[idx + 1..];
    assert u == [s[idx]] + (s[idx + 1..] + s[..idx]);
    assert u[1..] == s[idx + 1..] + s[..idx];
  }

  /** The chunks out and those in the buffer are the chunks of the stream. */
  ghost predicate Refines(dst: seq<Bytes>, curr: Bytes, flushed: seq<Bytes>, stream: Bytes) {
    dst + Chunks(curr) == flushed + Chunks(stream) && Rest(curr) == Rest(stream)
  }

  // everything up to `len` bytes of the current chunk has been looked at
  ghost predicate Scanned(curr: Bytes, len: nat) {
    NoCutUpTo(curr, len) && (len > WIN_SLIDE_POS ==> len <= |curr|)
  }

  lemma RefinesExtend(dst: seq<Bytes>, curr: Bytes, flushed: seq<Bytes>, stream: Bytes, len: nat, data: Bytes)
    requires Refines(dst, curr, flushed, stream) && Scanned(curr, len) && |curr| <= len
    ensures Refines(dst, curr + data, flushed, stream + data) && Scanned(curr + data, len)
  {
    NoChunks(curr);
    ChunksExtend(stream, data);
    hide CutAt, Chunks, Rest;
    assert dst == flushed + Chunks(stream);
    assert dst + Chunks(curr + data) == flushed + (Chunks(stream) + Chunks(curr + data));
    forall m: nat | m <= len ensures !CutAt(curr + data, m) {
      if m <= |curr| {
        CutKept(curr, data, m);
      } else {
        EarlyNoCut(curr + data, m);
      }
    }
  }

  lemma EarlyNoCut(s: Bytes, n: nat)
    requires n < MIN_SIZE
    ensures !CutAt(s, n)
  {
  }

  lemma ScannedNext(curr: Bytes, len: nat)
    requires Scanned(curr, len) && len < |curr| && !CutAt(curr, len + 1)
    ensures Scanned(curr, len + 1)
  {
    hide CutAt;
  }

  lemma RefinesCut(dst: seq<Bytes>, curr: Bytes, flushed: seq<Bytes>, stream: Bytes, n: nat)
    requires Refines(dst, curr, flushed, stream) && n > 0 && Scanned(curr, n - 1) && CutAt(curr, n)
    ensures Refines(dst + [curr[..n]], curr[n..], flushed, stream) && Scanned(curr[n..], WIN_SLIDE_POS)
  {
    CutChunks(curr, n);
    assert dst + [curr[..n]] + Chunks(curr[n..]) == dst + ([curr[..n]] + Chunks(curr[n..]));
  }

  lemma RefinesEnd(dst: seq<Bytes>, curr: Bytes, flushed: seq<Bytes>, stream: Bytes, len: nat)
    requires Refines(dst, curr, flushed, stream) && Scanned(curr, len) && |curr| <= len
    ensures dst == flushed + Chunks(stream) && curr == Rest(stream)
  {
    NoChunks(curr);
  }

  lemma SplitRange(s: Bytes, a: nat, b: nat, c: nat)
    requires a <= b <= c <= |s|
    ensures s[a..c][..b - a] == s[a..b] && s[a..c][b - a..] == s[b..c]
  {
  }

  method CopyInto(buf: array<Byte>, at: nat, data: Bytes)
    requires at + |data| <= buf.Length
    modifies buf
    ensures buf[..] == Patch(old(buf[..]), at, data)
  {
    for i := 0 to |data|
      invariant forall k :: 0 <= k < buf.Length ==>
        buf[k] == if at <= k < at + i then data[k - at] else old(buf[k])
    {
      buf[at + i] := data[i];
    }
  }

  lemma PatchGrows(s: Bytes, from: nat, at: nat, data: Bytes)
    requires from <= at && at + |data| <= |s|
    ensures Patch(s, at, data)[from..at + |data|] == s[from..at] + data
  {
  }

  class Chunker {
    const params: Params
    var dst: seq<Bytes>         // chunks handed to the destination
    var pos: nat
    var chunkLen: nat
    var bufLen: nat
    var winIdx: nat
    var rollHash: U64
    const win: array<Byte>
    const buf: array<Byte>
    ghost var flushed: seq<Bytes>   // what earlier streams left in the destination
    ghost var stream: Bytes         // consumed since

    // where the current chunk starts in the buffer
    function Start(): int
      reads this
    {
      pos - chunkLen
    }

    // the window, oldest byte first
    function Window(): (w: Bytes)
      requires winIdx < win.Length == WIN_SIZE
      reads this, win
      ensures |w| == WIN_SIZE
    {
      Unwound(win[..], winIdx)
    }

    // the chunk may be due to be cut
    ghost predicate Shape0()
      reads this
    {
      && win.Length == WIN_SIZE && buf.Length == WTR_BUF_LEN && win != buf
      && winIdx < WIN_SIZE && ParamsOk(params)
      && chunkLen <= pos && bufLen <= buf.Length && Start() + MAX_SIZE < buf.Length
    }

    ghost predicate Shape()
      reads this
    {
      Shape0() && WIN_SLIDE_POS <= chunkLen < MAX_SIZE && Start() <= bufLen
    }

    // the bytes of the current chunk read so far
    ghost function Current(): Bytes
      requires Shape()
      reads this, buf
    {
      buf[Start()..bufLen]
    }

    ghost predicate Hashed()
      requires Shape()
      reads this, win, buf
    {
      rollHash as nat == Poly(Window()) && WindowOn(Window(), Current(), chunkLen)
    }

    /** What the loop keeps: the chunks out and those still to come from the
        buffer are the chunks of the stream. */
    ghost predicate Sliding()
      reads this, win, buf
    {
      && Shape() && Hashed() && Scanned(Current(), chunkLen)
      && Refines(dst, Current(), flushed, stream)
    }

    /** Between calls everything in the buffer has been looked at. */
    ghost predicate Valid()
      reads this, win, buf
    {
      Sliding() && bufLen <= pos
    }

    constructor (params: Params)
      requires ParamsOk(params)
      ensures Valid() && fresh(win) && fresh(buf) && dst == [] && flushed == [] && stream == []
    {
      this.params := params;
      pos, chunkLen, bufLen, winIdx, rollHash := WIN_SLIDE_POS, WIN_SLIDE_POS, 0, 0, 0;
      win := new Byte[WIN_SIZE](_ => 0);
      buf := new Byte[WTR_BUF_LEN](_ => 0);
      dst, flushed, stream := [], [], [];
      new;
      ZeroHash(Window());
    }

    // one byte enters the window, the oldest leaves
    method Push(ch: Byte) returns (out: Byte)
      requires Shape() && rollHash as nat == Poly(Window())
      modifies this`rollHash, this`winIdx, win
      ensures Shape() && rollHash as nat == Poly(Window())
      ensures out == old(Window())[0] && Window() == old(Window())[1..] + [ch]
    {
      hide Unwound, Poly, Roll;
      out := win[winIdx];
      UnwoundPush(win[..], winIdx, ch);
      RollSlides(Window(), ch, rollHash, params.outMap[out]);
      rollHash := Roll(rollHash, ch, params.outMap[out]);
      ghost var before := win[..];
      win[winIdx] := ch;
      assert win[..] == before[winIdx := ch];
      winIdx := (winIdx + 1) % WIN_SIZE;
    }

    // hand out the current chunk, make room in the buffer, jump to the next start
    method Cut()
      requires Shape0() && MIN_SIZE <= chunkLen <= MAX_SIZE && pos <= bufLen
      modifies this`dst, this`pos, this`bufLen, this`chunkLen, buf
      ensures Shape() && chunkLen == WIN_SLIDE_POS
      ensures dst == old(dst) + [old(buf[Start()..pos])] && Current() == old(buf[pos..bufLen])
      ensures bufLen - pos < old(bufLen - pos)
    {
      dst := dst + [buf[Start()..pos]];
      if pos + MAX_SIZE >= WTR_BUF_LEN {
        var left := bufLen - pos;
        ghost var kept := buf[pos..bufLen];
        forall i | 0 <= i < left {
          buf[i] := buf[pos + i];
        }
        assert buf[..left] == kept;
        bufLen, pos := left, 0;
      }
      pos := pos + WIN_SLIDE_POS;
      chunkLen := WIN_SLIDE_POS;
    }

    // the window moves on by one byte of the current chunk
    method Slide() returns (out: Byte)
      requires Sliding() && pos < bufLen
      modifies this`rollHash, this`winIdx, this`chunkLen, this`pos, win
      ensures Shape0() && Start() == old(Start()) && chunkLen == old(chunkLen) + 1 <= MAX_SIZE
      ensures rollHash as nat == Poly(Window()) && WindowOn(Window(), buf[Start()..bufLen], chunkLen)
      ensures chunkLen >= MIN_SIZE ==>
        (CutAt(buf[Start()..bufLen], chunkLen) <==> MaskedZero(rollHash as nat, params.ir[out] as nat) || chunkLen >= MAX_SIZE)
    {
      hide Poly, Unwound, Chunks, Rest, Refines, MaskedZero, Ir, CutAt, WindowOn, Scanned;
      ghost var curr, len, window := Current(), chunkLen, Window();
      var ch := buf[pos];
      assert ch == curr[len];
      out := Push(ch);
      chunkLen, pos := chunkLen + 1, pos + 1;
      assert buf[Start()..bufLen] == curr;
      WindowSlides(window, curr, len);
      if chunkLen >= MIN_SIZE {
        CutTest(window, curr, len, rollHash, params, out);
      }
    }

    // consume one byte
    method Step()
      requires Sliding() && pos < bufLen
      modifies this, win, buf
      ensures Sliding() && flushed == old(flushed) && stream == old(stream)
      ensures bufLen - pos < old(bufLen - pos)
    {
      hide Poly, Unwound, Chunks, Rest, Refines, MaskedZero, Ir, CutAt, WindowOn, Scanned;
      ghost var curr, len := Current(), chunkLen;
      var out := Slide();
      assert buf[Start()..bufLen] == curr;
      if chunkLen >= MIN_SIZE && (MaskedZero(rollHash as nat, params.ir[out] as nat) || chunkLen >= MAX_SIZE) {
        RefinesCut(dst, curr, flushed, stream, chunkLen);
        ghost var slots := win[..];
        SplitRange(buf[..], Start(), pos, bufLen);
        Cut();
        assert win[..] == slots;
        WindowStart(Window(), Current());
      } else {
        if chunkLen < MIN_SIZE {
          EarlyNoCut(curr, chunkLen);
        }
        ScannedNext(curr, len);
      }
    }

    /** Consume a prefix of the data, as much as the buffer has room for: never
        nothing, if there is data. */
    method Write(data: Bytes) returns (n: nat)
      requires Valid()
      modifies this, win, buf
      ensures Valid() && n == Min(WTR_BUF_LEN - old(bufLen), |data|) && (data != [] ==> n > 0)
      ensures stream == old(stream) + data[..n] && flushed == old(flushed)
      ensures dst == flushed + Chunks(stream) && Current() == Rest(stream)
    {
      if data == [] {
        RefinesEnd(dst, Current(), flushed, stream, chunkLen);
        return 0;
      }
      n := Min(WTR_BUF_LEN - bufLen, |data|);
      Append(data[..n]);
      while pos < bufLen
        invariant Sliding() && stream == old(stream) + data[..n] && flushed == old(flushed)
        decreases bufLen - pos
      {
        Step();
      }
      RefinesEnd(dst, Current(), flushed, stream, chunkLen);
    }

    // copy new data into the buffer
    method Append(data: Bytes)
      requires Valid() && bufLen + |data| <= WTR_BUF_LEN
      modifies this`bufLen, this`stream, buf
      ensures Sliding() && stream == old(stream) + data
    {
      hide Poly, Unwound, Chunks, Rest, Refines, CutAt, ParamsOk, Scanned, WindowOn;
      ghost var curr := Current();
      RefinesExtend(dst, curr, flushed, stream, chunkLen, data);
      ghost var window := Window();
      WindowExtends(window, curr, chunkLen, data);
      ghost var slots := win[..];
      PatchGrows(buf[..], Start(), bufLen, data);
      CopyInto(buf, bufLen, data);
      assert win[..] == slots;
      assert buf[Start()..bufLen + |data|] == buf[..][Start()..bufLen + |data|];
      bufLen := bufLen + |data|;
      stream := stream + data;
      assert Window() == window && Current() == curr + data;
    }

    /** The rest becomes the last chunk; the next stream starts afresh. */
    method Flush()
      requires Valid()
      modifies this, win
      ensures Valid() && stream == [] && flushed == dst
      ensures dst == old(flushed) + AllChunks(old(stream))
    {
      RefinesEnd(dst, Current(), flushed, stream, chunkLen);
      var p := Start();
      if p < bufLen {
        dst := dst + [buf[p..bufLen]];
      }
      pos, chunkLen, bufLen, winIdx, rollHash := WIN_SLIDE_POS, WIN_SLIDE_POS, 0, 0, 0;
      forall i | 0 <= i < win.Length {
        win[i] := 0;
      }
      flushed, stream := dst, [];
      ZeroHash(Window());
    }
  }

  lemma CutChunks(s: Bytes, n: nat)
    requires CutAt(s, n) && n > 0 && NoCutUpTo(s, n - 1)
    ensures Chunks(s) == [s[..n]] + Chunks(s[n..]) && Rest(s) == Rest(s[n..])
  {
    SearchFinds(s, MIN_SIZE, n);
  }

  lemma NoChunks(s: Bytes)
    requires NoCutUpTo(s, |s|)
    ensures Chunks(s) == [] && Rest(s) == s
  {
    SearchNone(s, MIN_SIZE);
  }

  lemma {:induction false} ZeroHorner(w: Bytes)
    requires forall i :: 0 <= i < |w| ==> w[i] == 0
    ensures Horner(w) == 0
  {
    if w != [] {
      ZeroHorner(w[..|w| - 1]);
    }
  }

  lemma ZeroHash(w: Bytes)
    requires forall i :: 0 <= i < |w| ==> w[i] == 0
    ensures Poly(w) == 0
  {
    ZeroHorner(w);
  }

  /** However a stream is split over writes, and however much each write takes,
      the chunks are those of the stream. */
  method ChunkAll(params: Params, pieces: seq<Bytes>) returns (chunks: seq<Bytes>)
    requires ParamsOk(params)
    ensures chunks == AllChunks(Flatten(pieces))
  {
    hide Chunks, Rest, AllChunks, ParamsOk;
    var c := new Chunker(params);
    for i := 0 to |pieces|
      invariant c.Valid() && c.flushed == [] && c.stream == Flatten(pieces[..i])
      invariant fresh(c) && fresh(c.win) && fresh(c.buf)
    {
      WriteAll(c, pieces[i]);
      assert pieces[..i + 1] == pieces[..i] + [pieces[i]];
      FlattenOne(pieces[..i], pieces[i]);
    }
    assert pieces[..|pieces|] == pieces;
    c.Flush();
    chunks := c.dst;
  }

  method WriteAll(c: Chunker, data: Bytes)
    requires c.Valid()
    modifies c, c.win, c.buf
    ensures c.Valid() && c.flushed == old(c.flushed) && c.stream == old(c.stream) + data
  {
    hide *;
    var at := 0;
    while at < |data|
      invariant at <= |data| && c.Valid() && c.flushed == old(c.flushed) && c.stream == old(c.stream) + data[..at]
    {
      var n := c.Write(data[at..]);
      assert data[..at + n] == data[..at] + data[at..][..n];
      at := at + n;
    }
    assert data[..|data|] == data;
  }
}
