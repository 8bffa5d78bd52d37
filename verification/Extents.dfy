/** Lists of extents laid end to end, which spans and entries have in common. */
module Extents {
  import opened Basics

  datatype Extent = Extent(offset: nat, bytes: Bytes) {
    function End(): nat { offset + |bytes| }
  }

  /** Non-empty extents that follow each other without a gap, from `off` on. */
  ghost predicate Chain(xs: seq<Extent>, off: nat) {
    xs == [] || (xs[0].offset == off && xs[0].bytes != [] && Chain(xs[1..], off + |xs[0].bytes|))
  }

  function Cat(xs: seq<Extent>): Bytes {
    if xs == [] then [] else xs[0].bytes + Cat(xs[1..])
  }

  // the first extent that contains or touches `at`
  function Locate(xs: seq<Extent>, at: nat): nat {
    LocateFrom(xs, at, 0)
  }

  // 0 when no extent qualifies
  function LocateFrom(xs: seq<Extent>, at: nat, from: nat): nat
    requires from <= |xs|
    decreases |xs| - from
  {
    if from == |xs| then 0
    else if xs[from].offset <= at <= xs[from].End() then from
    else LocateFrom(xs, at, from + 1)
  }

  lemma {:induction false} ChainAt(xs: seq<Extent>, off: nat, i: nat)
    requires Chain(xs, off) && i < |xs|
    ensures xs[i].offset == off + |Cat(xs[..i])| && xs[i].bytes != []
    ensures |Cat(xs[..i])| + |xs[i].bytes| + |Cat(xs[i + 1..])| == |Cat(xs)|
    decreases |xs|
  {
    if i > 0 {
      ChainAt(xs[1..], off + |xs[0].bytes|, i - 1);
      assert xs[..i][1..] == xs[1..][..i - 1];
      assert xs[1..][i..] == xs[i + 1..];
    } else {
      assert xs[..0] == [];
    }
  }

  lemma {:induction false} CatAppend(xs: seq<Extent>, ys: seq<Extent>)
    ensures Cat(xs + ys) == Cat(xs) + Cat(ys)
    decreases |xs|
  {
    if xs == [] {
      assert xs + ys == ys;
    } else {
      assert (xs + ys)[1..] == xs[1..] + ys;
      CatAppend(xs[1..], ys);
    }
  }

  lemma {:induction false} ChainAppend(xs: seq<Extent>, ys: seq<Extent>, off: nat)
    requires Chain(xs, off) && Chain(ys, off + |Cat(xs)|)
    ensures Chain(xs + ys, off) && Cat(xs + ys) == Cat(xs) + Cat(ys)
    decreases |xs|
  {
    if xs == [] {
      assert xs + ys == ys;
    } else {
      assert (xs + ys)[1..] == xs[1..] + ys && (xs + ys)[0] == xs[0];
      var rest := off + |xs[0].bytes|;
      assert off + |Cat(xs)| == rest + |Cat(xs[1..])|;
      ChainAppend(xs[1..], ys, rest);
      CatAppend(xs, ys);
    }
  }

  lemma {:induction false} ChainTails(xs: seq<Extent>, off: nat, i: nat)
    requires Chain(xs, off) && i <= |xs|
    ensures Chain(xs[..i], off) && Chain(xs[i..], off + |Cat(xs[..i])|)
    decreases |xs|
  {
    if i == 0 {
      assert xs[..0] == [] && xs[0..] == xs;
    } else {
      ChainTails(xs[1..], off + |xs[0].bytes|, i - 1);
      assert xs[..i][1..] == xs[1..][..i - 1];
      assert xs[1..][i - 1..] == xs[i..];
    }
  }

  /** Any position of a chain, its end included, is located in it. */
  lemma {:induction false} LocateFound(xs: seq<Extent>, off: nat, at: nat, from: nat)
    requires Chain(xs, off) && from < |xs|
    requires off + |Cat(xs[..from])| <= at <= off + |Cat(xs)|
    ensures LocateFrom(xs, at, from) < |xs|
    ensures xs[LocateFrom(xs, at, from)].offset <= at <= xs[LocateFrom(xs, at, from)].End()
    decreases |xs| - from
  {
    ChainAt(xs, off, from);
    assert from + 1 == |xs| ==> xs[from + 1..] == [];
    if at > xs[from].End() {
      assert xs[..from + 1] == xs[..from] + [xs[from]];
      CatAppend(xs[..from], [xs[from]]);
      assert Cat([xs[from]]) == xs[from].bytes;
      LocateFound(xs, off, at, from + 1);
    }
  }

  /** Cutting the located extent and dropping what follows it keeps the bytes
      before `at`. */
  lemma SplitOffBytes(xs: seq<Extent>, off: nat, at: nat, kept: Extent)
    requires Chain(xs, off) && xs != [] && off <= at <= off + |Cat(xs)|
    requires var p := Locate(xs, at);
      p < |xs| && xs[p].offset <= at ==>
      kept.offset == xs[p].offset && |kept.bytes| == at - xs[p].offset
      && (at <= xs[p].End() ==> kept.bytes == xs[p].bytes[..at - xs[p].offset])
    ensures var p := Locate(xs, at);
      && p < |xs|
      && (kept.bytes == [] ==> Chain(xs[..p], off) && Cat(xs[..p]) == Cat(xs)[..at - off])
      && (kept.bytes != [] ==> Chain(xs[..p] + [kept], off) && Cat(xs[..p] + [kept]) == Cat(xs)[..at - off])
  {
    hide Chain, Cat;
    Located(xs, off, at);
    var p := Locate(xs, at);
    CutThree(Cat(xs[..p]), xs[p].bytes, Cat(xs[p + 1..]), at - xs[p].offset);
    if kept.bytes != [] {
      ChainOne(kept);
      ChainAppend(xs[..p], [kept], off);
    }
  }

  // the located extent, with everything before and after it
  lemma Located(xs: seq<Extent>, off: nat, at: nat)
    requires Chain(xs, off) && xs != [] && off <= at <= off + |Cat(xs)|
    ensures var p := Locate(xs, at);
      && p < |xs| && xs[p].offset <= at <= xs[p].End()
      && xs[p].offset == off + |Cat(xs[..p])|
      && Chain(xs[..p], off) && Chain(xs[p + 1..], xs[p].End())
      && Cat(xs) == Cat(xs[..p]) + xs[p].bytes + Cat(xs[p + 1..])
  {
    hide Chain, Cat;
    NothingBefore(xs);
    LocateFound(xs, off, at, 0);
    var p := Locate(xs, at);
    ChainAt(xs, off, p);
    CatAround(xs, p);
    ChainAround(xs, off, p);
  }

  lemma NothingBefore(xs: seq<Extent>)
    ensures Cat(xs[..0]) == []
  {
  }

  lemma CatAround(xs: seq<Extent>, p: nat)
    requires p < |xs|
    ensures Cat(xs) == Cat(xs[..p]) + xs[p].bytes + Cat(xs[p + 1..])
  {
    assert xs[..p] + xs[p..] == xs;
    CatAppend(xs[..p], xs[p..]);
    assert xs[p..][1..] == xs[p + 1..];
  }

  lemma ChainAround(xs: seq<Extent>, off: nat, p: nat)
    requires Chain(xs, off) && p < |xs|
    ensures Chain(xs[..p], off) && Chain(xs[p + 1..], xs[p].End())
  {
    ChainTails(xs, off, p);
    assert xs[p..][1..] == xs[p + 1..];
  }

  lemma ChainOne(x: Extent)
    requires x.bytes != []
    ensures Chain([x], x.offset) && Cat([x]) == x.bytes
  {
  }

  lemma CutThree(a: Bytes, m: Bytes, c: Bytes, k: nat)
    requires k <= |m|
    ensures (a + m + c)[..|a| + k] == a + m[..k]
    ensures (a + m + c)[|a| + k..] == m[k..] + c
  {
  }

  /** Cutting the located extent and dropping what precedes it keeps the bytes
      from `at` on. */
  lemma SplitToBytes(xs: seq<Extent>, off: nat, at: nat, kept: Extent)
    requires Chain(xs, off) && xs != [] && off <= at <= off + |Cat(xs)|
    requires var p := Locate(xs, at);
      p < |xs| && xs[p].offset <= at <= xs[p].End() ==>
      kept.offset == at && kept.bytes == xs[p].bytes[at - xs[p].offset..]
    ensures var p := Locate(xs, at);
      && p < |xs|
      && (kept.bytes == [] ==> Chain(xs[p + 1..], at) && Cat(xs[p + 1..]) == Cat(xs)[at - off..])
      && (kept.bytes != [] ==> Chain([kept] + xs[p + 1..], at) && Cat([kept] + xs[p + 1..]) == Cat(xs)[at - off..])
  {
    hide Chain, Cat;
    Located(xs, off, at);
    var p := Locate(xs, at);
    CutThree(Cat(xs[..p]), xs[p].bytes, Cat(xs[p + 1..]), at - xs[p].offset);
    if kept.bytes != [] {
      ChainOne(kept);
      ChainAppend([kept], xs[p + 1..], at);
    }
  }

  lemma ChainStep(xs: seq<Extent>, off: nat, i: nat)
    requires Chain(xs, off) && i < |xs|
    ensures off <= xs[i].offset && xs[i].bytes != [] && xs[i].End() <= off + |Cat(xs)|
    ensures i == 0 ==> xs[i].offset == off
    ensures i + 1 < |xs| ==> xs[i + 1].offset == xs[i].End()
    ensures i + 1 == |xs| ==> xs[i].End() == off + |Cat(xs)|
  {
    ChainAt(xs, off, i);
    if i + 1 < |xs| {
      ChainAt(xs, off, i + 1);
      CatAround(xs[..i + 1], i);
      assert xs[..i + 1][..i] == xs[..i];
      assert xs[..i + 1][i + 1..] == [];
    } else {
      assert xs[i + 1..] == [];
    }
  }
}
