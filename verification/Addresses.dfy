/** Addresses of entities: lists of block spans, and their division into frames.

    An address denotes the sequence of its blocks. Appending adds a span's blocks;
    the division cuts the sequence every 16 blocks, whatever the spans. The
    lemmas follow the division: a frame under way, a span placed in it, a frame
    finished and the next one started. */
module Addresses {
  import opened Basics
  import opened BlockSpans

  const BLK_SIZE: nat := 8192
  const BLKS_PER_FRAME: nat := 16
  const FRAME_SIZE: nat := BLKS_PER_FRAME * BLK_SIZE

  datatype Addr = Addr(len: nat, list: seq<Span>)

  // the blocks of a span, in order
  function Idx(span: Span): (r: seq<nat>)
    ensures |r| == span.cnt
  {
    seq(span.cnt, i requires 0 <= i => span.begin + i)
  }

  function Blocks(list: seq<Span>): seq<nat> {
    if list == [] then [] else Blocks(list[..|list| - 1]) + Idx(list[|list| - 1])
  }

  lemma BlocksSnoc(list: seq<Span>, span: Span)
    ensures Blocks(list + [span]) == Blocks(list) + Idx(span)
  {
    assert (list + [span])[..|list|] == list;
  }

  lemma BlocksOne(span: Span)
    ensures Blocks([span]) == Idx(span)
  {
    BlocksSnoc([], span);
    assert [] + [span] == [span] && [] + Idx(span) == Idx(span);
  }

  lemma IdxSplit(span: Span, at: nat)
    requires at <= span.cnt
    ensures Idx(Span(span.begin, at)) == Idx(span)[..at] && Idx(Span(span.begin + at, span.cnt - at)) == Idx(span)[at..]
  {
  }

  ghost predicate AllFull(list: seq<Span>) {
    forall i :: 0 <= i < |list| ==> list[i].cnt > 0
  }

  lemma Assoc(a: seq<nat>, b: seq<nat>, c: seq<nat>)
    ensures a + (b + c) == (a + b) + c
  {
  }

  lemma BlocksMerge(init: seq<Span>, last: Span, span: Span)
    requires span.begin == last.begin + last.cnt
    ensures Blocks(init + [Span(last.begin, last.cnt + span.cnt)]) == Blocks(init + [last]) + Idx(span)
  {
    hide Blocks, Idx;
    var merged := Span(last.begin, last.cnt + span.cnt);
    BlocksSnoc(init, merged);
    BlocksSnoc(init, last);
    MergedIdx(last, span);
    Assoc(Blocks(init), Idx(last), Idx(span));
  }

  lemma MergedIdx(last: Span, span: Span)
    requires span.begin == last.begin + last.cnt
    ensures Idx(Span(last.begin, last.cnt + span.cnt)) == Idx(last) + Idx(span)
  {
  }

  lemma FullReplaced(list: seq<Span>, span: Span)
    requires AllFull(list) && list != [] && span.cnt > 0
    ensures AllFull(list[..|list| - 1] + [span]) && AllFull(list + [span])
  {
  }

  /** Append a span; one that continues the last is merged with it. */
  method Append(addr: Addr, span: Span, len: nat) returns (r: Addr)
    requires addr.list == [] ==> addr.len == 0
    ensures r.len == addr.len + len && Blocks(r.list) == Blocks(addr.list) + Idx(span) && r.list != []
    ensures AllFull(addr.list) && span.cnt > 0 ==> AllFull(r.list)
    ensures var joins := addr.list != [] && span.begin == addr.list[|addr.list| - 1].End();
      |r.list| == if joins then |addr.list| else |addr.list| + 1
  {
    if addr.list == [] {
      BlocksOne(span);
      assert [] + Idx(span) == Idx(span);
      return Addr(len, [span]);
    }
    hide Blocks, Idx, AllFull;
    var n := |addr.list| - 1;
    var last := addr.list[n];
    if AllFull(addr.list) && span.cnt > 0 {
      FullReplaced(addr.list, span);
      FullReplaced(addr.list, Span(last.begin, last.cnt + span.cnt));
    }
    if span.begin == last.End() {
      BlocksMerge(addr.list[..n], last, span);
      assert addr.list == addr.list[..n] + [last];
      r := Addr(addr.len + len, addr.list[..n] + [Span(last.begin, last.cnt + span.cnt)]);
    } else {
      BlocksSnoc(addr.list, span);
      r := Addr(addr.len + len, addr.list + [span]);
    }
  }

  // ---- frames ----

  // the blocks of frame i
  function FrameBlocks(bs: seq<nat>, i: nat): seq<nat>
    requires i * BLKS_PER_FRAME <= |bs|
  {
    bs[i * BLKS_PER_FRAME..Min((i + 1) * BLKS_PER_FRAME, |bs|)]
  }

  function FrameCount(n: nat): nat {
    if n == 0 then 1 else (n - 1) / BLKS_PER_FRAME + 1
  }

  function FrameLen(len: nat, i: nat, frames: nat): int {
    if i + 1 < frames then FRAME_SIZE else len - i * FRAME_SIZE
  }

  // a frame's spans start with a real one, at the frame's first block
  ghost predicate StartsAt(list: seq<Span>, bs: seq<nat>) {
    bs != [] ==> list != [] && list[0].cnt > 0 && list[0].begin == bs[0]
  }

  // one frame of an address with blocks `bs`
  ghost predicate FrameIs(bs: seq<nat>, len: nat, frames: seq<Addr>, i: nat)
    requires i < |frames|
  {
    && i * BLKS_PER_FRAME <= |bs| && Blocks(frames[i].list) == FrameBlocks(bs, i)
    && frames[i].len == FrameLen(len, i, |frames|) && StartsAt(frames[i].list, FrameBlocks(bs, i))
  }

  /** What the division of an address has to be. */
  ghost predicate FramesOf(addr: Addr, frames: seq<Addr>) {
    var bs := Blocks(addr.list);
    |frames| == FrameCount(|bs|) && forall i :: 0 <= i < |frames| ==> FrameIs(bs, addr.len, frames, i)
  }

  // an encrypted length and the blocks it takes
  ghost predicate LenFits(len: nat, n: nat) {
    n * BLK_SIZE < len + BLK_SIZE && len <= n * BLK_SIZE
  }

  /** Frames finished so far, one under way, `p` blocks placed. */
  ghost predicate Placed(bs: seq<nat>, frames: seq<Addr>, p: nat, blkCnt: nat)
  {
    && frames != [] && blkCnt <= BLKS_PER_FRAME && p == (|frames| - 1) * BLKS_PER_FRAME + blkCnt <= |bs|
    && (forall i :: 0 <= i < |frames| - 1 ==>
          && (i + 1) * BLKS_PER_FRAME <= |bs|
          && Blocks(frames[i].list) == bs[i * BLKS_PER_FRAME..(i + 1) * BLKS_PER_FRAME]
          && frames[i].len == FRAME_SIZE && StartsAt(frames[i].list, Blocks(frames[i].list)))
    && var last := frames[|frames| - 1];
       Blocks(last.list) == bs[p - blkCnt..p] && StartsAt(last.list, Blocks(last.list))
  }

  function AddSpan(frames: seq<Addr>, span: Span): (r: seq<Addr>)
    requires frames != []
    ensures |r| == |frames|
  {
    var n := |frames| - 1;
    frames[n := Addr(frames[n].len, frames[n].list + [span])]
  }

  lemma StartsSnoc(list: seq<Span>, span: Span)
    requires StartsAt(list, Blocks(list)) && (list == [] ==> span.cnt > 0) && (Blocks(list) == [] ==> list == [])
    ensures StartsAt(list + [span], Blocks(list + [span]))
  {
    BlocksSnoc(list, span);
    if list == [] {
      assert Blocks(list) == [];
      assert Blocks(list + [span]) == Idx(span);
    }
  }

  // the next blocks go to the frame under way
  lemma PlaceSpan(bs: seq<nat>, frames: seq<Addr>, p: nat, blkCnt: nat, span: Span)
    requires Placed(bs, frames, p, blkCnt) && blkCnt + span.cnt <= BLKS_PER_FRAME && p + span.cnt <= |bs|
    requires Idx(span) == bs[p..p + span.cnt]
    requires frames[|frames| - 1].list == [] <==> blkCnt == 0
    requires blkCnt == 0 ==> span.cnt > 0
    ensures Placed(bs, AddSpan(frames, span), p + span.cnt, blkCnt + span.cnt)
  {
    hide Blocks, Idx, StartsAt;
    var n := |frames| - 1;
    var last := frames[n];
    BlocksSnoc(last.list, span);
    if last.list == [] {
      NoBlocks();
    }
    StartsSnoc(last.list, span);
    JoinRanges(bs, p - blkCnt, p, p + span.cnt);
  }

  // a full frame is finished and the next one started
  lemma StartFrame(bs: seq<nat>, frames: seq<Addr>, p: nat)
    requires Placed(bs, frames, p, BLKS_PER_FRAME)
    ensures Placed(bs, frames[|frames| - 1 := frames[|frames| - 1].(len := FRAME_SIZE)] + [Addr(0, [])], p, 0)
  {
    var n := |frames| - 1;
    var next := frames[n := frames[n].(len := FRAME_SIZE)] + [Addr(0, [])];
    assert bs[p..p] == [];
    forall i | 0 <= i < |next| - 1 ensures
      && (i + 1) * BLKS_PER_FRAME <= |bs|
      && Blocks(next[i].list) == bs[i * BLKS_PER_FRAME..(i + 1) * BLKS_PER_FRAME]
      && next[i].len == FRAME_SIZE && StartsAt(next[i].list, Blocks(next[i].list))
    {
    }
  }

  // the frame under way has spans once it has blocks
  ghost predicate UnderWay(frames: seq<Addr>, blkCnt: nat) {
    frames != [] && (frames[|frames| - 1].list == [] <==> blkCnt == 0)
  }

  // put one span of the address, starting new frames as they fill up
  method PlaceAll(ghost bs: seq<nat>, frames: seq<Addr>, ghost p: nat, blkCnt: nat, span: Span)
    returns (frames': seq<Addr>, blkCnt': nat)
    requires Placed(bs, frames, p, blkCnt) && UnderWay(frames, blkCnt) && span.cnt > 0 && blkCnt <= BLKS_PER_FRAME
    requires p + span.cnt <= |bs| && Idx(span) == bs[p..p + span.cnt]
    ensures Placed(bs, frames', p + span.cnt, blkCnt') && UnderWay(frames', blkCnt') && 0 < blkCnt' <= BLKS_PER_FRAME
  {
    hide Placed, Idx;
    frames', blkCnt' := frames, blkCnt;
    var rest := span;
    ghost var q: nat := p;
    while true
      invariant Placed(bs, frames', q, blkCnt') && UnderWay(frames', blkCnt') && rest.cnt > 0 && blkCnt' <= BLKS_PER_FRAME
      invariant q + rest.cnt == p + span.cnt && Idx(rest) == bs[q..q + rest.cnt]
      decreases rest.cnt, blkCnt'
    {
      var left := BLKS_PER_FRAME - blkCnt';
      if rest.cnt <= left {
        PlaceSpan(bs, frames', q, blkCnt', rest);
        frames' := AddSpan(frames', rest);
        blkCnt' := blkCnt' + rest.cnt;
        break;
      }
      var head, tail := SplitTo(rest, rest.begin + left);
      SplitIdx(bs, rest, q, left);
      PlaceSpan(bs, frames', q, blkCnt', head);
      frames' := AddSpan(frames', head);
      StartFrame(bs, frames', q + left);
      frames' := frames'[|frames'| - 1 := frames'[|frames'| - 1].(len := FRAME_SIZE)] + [Addr(0, [])];
      rest, q, blkCnt' := tail, q + left, 0;
    }
  }

  lemma SplitIdx(bs: seq<nat>, span: Span, p: nat, left: nat)
    requires left <= span.cnt && p + span.cnt <= |bs| && Idx(span) == bs[p..p + span.cnt]
    ensures Idx(Span(span.begin, left)) == bs[p..p + left]
    ensures Idx(Span(span.begin + left, span.cnt - left)) == bs[p + left..p + span.cnt]
  {
    IdxSplit(span, left);
    SubRange(bs, p, p + span.cnt, p, p + left);
    SubRange(bs, p, p + span.cnt, p + left, p + span.cnt);
  }

  lemma PlacedStart(bs: seq<nat>)
    ensures Placed(bs, [Addr(0, [])], 0, 0)
  {
  }

  lemma {:induction false} BlocksPrefix(list: seq<Span>, k: nat)
    requires k <= |list|
    ensures |Blocks(list[..k])| <= |Blocks(list)| && Blocks(list)[..|Blocks(list[..k])|] == Blocks(list[..k])
    decreases |list| - k
  {
    if k == |list| {
      assert list[..k] == list;
    } else {
      var n := |list| - 1;
      assert list[..n][..k] == list[..k];
      if k < n {
        BlocksPrefix(list[..n], k);
      } else {
        assert list[..n] == list[..k];
      }
    }
  }

  lemma NextSpan(list: seq<Span>, k: nat)
    requires k < |list|
    ensures var p := |Blocks(list[..k])|;
      p + list[k].cnt <= |Blocks(list)| && Idx(list[k]) == Blocks(list)[p..p + list[k].cnt]
      && |Blocks(list[..k + 1])| == p + list[k].cnt
  {
    assert list[..k + 1] == list[..k] + [list[k]];
    BlocksSnoc(list[..k], list[k]);
    BlocksPrefix(list, k + 1);
    var p := |Blocks(list[..k])|;
    SubRange(Blocks(list), 0, p + list[k].cnt, p, p + list[k].cnt);
    assert Blocks(list)[0..p + list[k].cnt] == Blocks(list[..k]) + Idx(list[k]);
  }

  lemma PlacedCount(bs: seq<nat>, frames: seq<Addr>, len: nat, blkCnt: nat)
    requires Placed(bs, frames, |bs|, blkCnt) && (blkCnt == 0 ==> |bs| == 0) && LenFits(len, |bs|)
    ensures frames != [] && (|frames| - 1) * FRAME_SIZE <= len && |frames| == FrameCount(|bs|)
  {
    hide Blocks, StartsAt;
  }

  lemma PlacedFrame(bs: seq<nat>, frames: seq<Addr>, blkCnt: nat, i: nat)
    requires Placed(bs, frames, |bs|, blkCnt) && i < |frames|
    ensures i * BLKS_PER_FRAME <= |bs| && Blocks(frames[i].list) == FrameBlocks(bs, i)
    ensures StartsAt(frames[i].list, FrameBlocks(bs, i)) && (i + 1 < |frames| ==> frames[i].len == FRAME_SIZE)
  {
    hide Blocks, StartsAt;
  }

  lemma PlacedFrames(addr: Addr, frames: seq<Addr>, p: nat, blkCnt: nat)
    requires Placed(Blocks(addr.list), frames, p, blkCnt) && p == |Blocks(addr.list)| && (blkCnt == 0 ==> p == 0)
    requires LenFits(addr.len, p)
    ensures (|frames| - 1) * FRAME_SIZE <= addr.len
    ensures FramesOf(addr, frames[|frames| - 1 := frames[|frames| - 1].(len := addr.len - (|frames| - 1) * FRAME_SIZE)])
  {
    hide Blocks, Placed, StartsAt, FrameBlocks, FrameCount;
    var bs, n := Blocks(addr.list), |frames| - 1;
    PlacedCount(bs, frames, addr.len, blkCnt);
    var all := frames[n := frames[n].(len := addr.len - n * FRAME_SIZE)];
    forall i | 0 <= i < |all| ensures FrameIs(bs, addr.len, all, i) {
      PlacedFrame(bs, frames, blkCnt, i);
    }
  }

  /** Divide an address into frames of BLKS_PER_FRAME blocks, the last one shorter. */
  method DivideToFrames(addr: Addr) returns (frames: seq<Addr>)
    requires AllFull(addr.list) && LenFits(addr.len, |Blocks(addr.list)|)
    ensures FramesOf(addr, frames)
  {
    hide Placed, Blocks, FramesOf;
    ghost var bs := Blocks(addr.list);
    frames := [Addr(0, [])];
    var blkCnt := 0;
    PlacedStart(bs);
    NoBlocks();
    assert addr.list[..0] == [];
    for k := 0 to |addr.list|
      invariant Placed(bs, frames, |Blocks(addr.list[..k])|, blkCnt) && UnderWay(frames, blkCnt)
      invariant (blkCnt == 0 ==> k == 0) && blkCnt <= BLKS_PER_FRAME
    {
      NextSpan(addr.list, k);
      frames, blkCnt := PlaceAll(bs, frames, |Blocks(addr.list[..k])|, blkCnt, addr.list[k]);
    }
    assert addr.list[..|addr.list|] == addr.list;
    PlacedFrames(addr, frames, |bs|, blkCnt);
    var last := |frames| - 1;
    frames := frames[last := frames[last].(len := addr.len - last * FRAME_SIZE)];
  }

  lemma NoBlocks()
    ensures Blocks([]) == []
  {
  }
}
