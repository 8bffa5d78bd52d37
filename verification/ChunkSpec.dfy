/** Where a stream is cut into chunks, as a function of the stream alone. */
module ChunkSpec {
  import opened Basics
  import opened RollingHash

  const MIN_SIZE: nat := 16 * 1024
  const MAX_SIZE: nat := 64 * 1024
  const CUT_MOD: nat := 16 * 1024     // one above the cut mask

  /** Two words agree in the bits of the cut mask. */
  predicate Matches(hash: nat, ir: nat) { hash % CUT_MOD == ir % CUT_MOD }

  function Xor(a: nat, b: nat): nat
    decreases a + b
  {
    if a == 0 && b == 0 then 0 else 2 * Xor(a / 2, b / 2) + if a % 2 == b % 2 then 0 else 1
  }

  // the code's test: no bit of the mask is set in the exclusive or
  predicate MaskedZero(hash: nat, ir: nat) { Xor(hash, ir) % CUT_MOD == 0 }

  lemma HalfMod(a: nat, m: nat)
    requires m > 0
    ensures a % (2 * m) == 2 * (a / 2 % m) + a % 2
  {
    var q, r := a / 2 / m, a / 2 % m;
    assert a / 2 == q * m + r;
    assert a == q * (2 * m) + (2 * r + a % 2);
    UniqueRest(a, q, 2 * r + a % 2, 2 * m);
  }

  lemma {:induction false} XorMasked(a: nat, b: nat, k: nat)
    ensures Xor(a, b) % TwoTo(k) == 0 <==> a % TwoTo(k) == b % TwoTo(k)
    decreases k
  {
    if k > 0 {
      var m := TwoTo(k - 1);
      XorMasked(a / 2, b / 2, k - 1);
      HalfMod(a, m);
      HalfMod(b, m);
      HalfMod(Xor(a, b), m);
      XorHalf(a, b);
    }
  }

  lemma XorHalf(a: nat, b: nat)
    ensures Xor(a, b) / 2 == Xor(a / 2, b / 2) && Xor(a, b) % 2 == if a % 2 == b % 2 then 0 else 1
  {
  }

  /** The exclusive or of hash and table entry is zero under the cut mask exactly if
      both agree in the bits of the mask. */
  lemma MaskTest(hash: nat, ir: nat)
    ensures MaskedZero(hash, ir) <==> Matches(hash, ir)
  {
    assert TwoTo(7) == 128 && TwoTo(14) == CUT_MOD;
    XorMasked(hash, ir, 14);
  }

  /** A chunk starting with `s` may end after `n` bytes: the hash of the last 16 bytes
      matches the entry of the byte before them, or the chunk is full. */
  predicate CutAt(s: Bytes, n: nat) {
    && MIN_SIZE <= n <= |s|
    && (n >= MAX_SIZE || Matches(Poly(s[n - WIN_SIZE..n]), Ir(s[n - WIN_SIZE - 1])))
  }

  function SearchCut(s: Bytes, n: nat): Option<nat>
    decreases |s| - n
  {
    if n > |s| then None else if CutAt(s, n) then Some(n) else SearchCut(s, n + 1)
  }

  function NextCut(s: Bytes): Option<nat> { SearchCut(s, MIN_SIZE) }

  ghost predicate NoCutUpTo(s: Bytes, n: nat) {
    forall m: nat :: m <= n ==> !CutAt(s, m)
  }

  lemma {:induction false} SearchFinds(s: Bytes, from: nat, n: nat)
    requires from <= n && CutAt(s, n) && forall m: nat :: m < n ==> !CutAt(s, m)
    ensures SearchCut(s, from) == Some(n)
    decreases n - from
  {
    hide CutAt;
    if from < n {
      SearchFinds(s, from + 1, n);
    }
    assert n <= |s| by { CutInside(s, n); }
  }

  lemma CutInside(s: Bytes, n: nat)
    requires CutAt(s, n)
    ensures MIN_SIZE <= n <= |s|
  {
  }

  lemma {:induction false} SearchNone(s: Bytes, from: nat)
    requires NoCutUpTo(s, |s|)
    ensures SearchCut(s, from) == None
    decreases |s| - from
  {
    hide CutAt;
    if from <= |s| {
      SearchNone(s, from + 1);
    }
  }

  lemma {:induction false} SearchFirst(s: Bytes, from: nat)
    requires forall m: nat :: m < from ==> !CutAt(s, m)
    ensures SearchCut(s, from).Some? ==>
      var n := SearchCut(s, from).value; CutAt(s, n) && forall m: nat :: m < n ==> !CutAt(s, m)
    ensures SearchCut(s, from).None? ==> NoCutUpTo(s, |s|)
    decreases |s| - from
  {
    hide CutAt;
    if from <= |s| && !CutAt(s, from) {
      SearchFirst(s, from + 1);
    }
  }

  /** The next cut is the first place where a chunk may end. */
  lemma NextCutIsFirst(s: Bytes)
    ensures NextCut(s).Some? ==>
      var n := NextCut(s).value;
      MIN_SIZE <= n <= |s| && n <= MAX_SIZE && CutAt(s, n) && forall m: nat :: m < n ==> !CutAt(s, m)
    ensures NextCut(s).None? ==> |s| < MAX_SIZE && NoCutUpTo(s, |s|)
  {
    SearchFirst(s, MIN_SIZE);
    if |s| >= MAX_SIZE {
      assert CutAt(s, MAX_SIZE);
    }
  }

  function Chunks(s: Bytes): seq<Bytes>
    decreases |s|
  {
    NextCutIsFirst(s);
    if NextCut(s).None? then [] else [s[..NextCut(s).value]] + Chunks(s[NextCut(s).value..])
  }

  // what is left after the last cut
  function Rest(s: Bytes): Bytes
    decreases |s|
  {
    NextCutIsFirst(s);
    if NextCut(s).None? then s else Rest(s[NextCut(s).value..])
  }

  /** The chunks of a whole stream: the rest is a chunk of its own. */
  function AllChunks(s: Bytes): seq<Bytes> {
    Chunks(s) + if Rest(s) == [] then [] else [Rest(s)]
  }

  lemma CutKept(s: Bytes, t: Bytes, n: nat)
    requires n <= |s|
    ensures CutAt(s + t, n) == CutAt(s, n)
  {
    if MIN_SIZE <= n {
      assert (s + t)[n - WIN_SIZE..n] == s[n - WIN_SIZE..n];
    }
  }

  lemma NextCutKept(s: Bytes, t: Bytes)
    requires NextCut(s).Some?
    ensures NextCut(s + t) == NextCut(s)
  {
    NextCutIsFirst(s);
    hide CutAt;
    var n := NextCut(s).value;
    forall m: nat | m <= n ensures CutAt(s + t, m) == CutAt(s, m) {
      CutKept(s, t, m);
    }
    SearchFinds(s + t, MIN_SIZE, n);
  }

  /** Cutting a longer stream: the chunks already found stay, and what follows
      depends only on the rest and the new bytes. */
  lemma {:induction false} ChunksExtend(s: Bytes, t: Bytes)
    ensures Chunks(s + t) == Chunks(s) + Chunks(Rest(s) + t)
    ensures Rest(s + t) == Rest(Rest(s) + t)
    decreases |s|
  {
    hide NextCut;
    NextCutIsFirst(s);
    if NextCut(s).Some? {
      var n := NextCut(s).value;
      NextCutKept(s, t);
      assert (s + t)[..n] == s[..n] && (s + t)[n..] == s[n..] + t;
      ChunksExtend(s[n..], t);
      assert Chunks(s + t) == [s[..n]] + Chunks(s[n..] + t);
      assert Rest(s + t) == Rest(s[n..] + t);
    }
  }

  /** Two streams that share a tail after a cut of each share its chunks. */
  lemma Resync(a: Bytes, b: Bytes, tail: Bytes)
    requires Rest(a) == [] && Rest(b) == []
    ensures Chunks(a + tail) == Chunks(a) + Chunks(tail)
    ensures Chunks(b + tail) == Chunks(b) + Chunks(tail)
    ensures Rest(a + tail) == Rest(b + tail)
  {
    ChunksExtend(a, tail);
    ChunksExtend(b, tail);
    assert [] + tail == tail;
  }

  /** Chunks and rest make up the stream; sizes keep to their bounds. */
  lemma {:induction false} ChunksConserve(s: Bytes)
    ensures Flatten(Chunks(s)) + Rest(s) == s && |Rest(s)| < MAX_SIZE
    ensures forall i :: 0 <= i < |Chunks(s)| ==> MIN_SIZE <= |Chunks(s)[i]| <= MAX_SIZE
    decreases |s|
  {
    hide NextCut, CutAt;
    NextCutIsFirst(s);
    if NextCut(s).Some? {
      var n := NextCut(s).value;
      ChunksConserve(s[n..]);
      assert Chunks(s)[1..] == Chunks(s[n..]);
      assert s[..n] + s[n..] == s;
    }
  }

  /** Every chunk ends at the first place where one starting there may, and the rest has no
      such place. */
  lemma {:induction false} ChunksAtCuts(s: Bytes)
    ensures NextCut(Rest(s)) == None
    ensures forall i :: 0 <= i < |Chunks(s)| ==>
      NextCut(Flatten(Chunks(s)[i..]) + Rest(s)) == Some(|Chunks(s)[i]|)
    decreases |s|
  {
    hide NextCut, CutAt;
    NextCutIsFirst(s);
    if NextCut(s).Some? {
      var n := NextCut(s).value;
      ChunksAtCuts(s[n..]);
      ChunksConserve(s);
      assert Chunks(s)[1..] == Chunks(s[n..]);
      forall i | 0 <= i < |Chunks(s)| ensures NextCut(Flatten(Chunks(s)[i..]) + Rest(s)) == Some(|Chunks(s)[i]|) {
        if i > 0 {
          assert Chunks(s)[i..] == Chunks(s[n..])[i - 1..];
        } else {
          assert Chunks(s)[0..] == Chunks(s);
        }
      }
    }
  }

  /** In a run of zeros a chunk ends only where it is full. */
  lemma ZerosUncut(s: Bytes, n: nat)
    requires MIN_SIZE <= n <= |s| && forall i :: n - WIN_SIZE - 1 <= i < n ==> s[i] == 0
    ensures CutAt(s, n) <==> n >= MAX_SIZE
  {
    HornerZeros(s[n - WIN_SIZE..n]);
    IrOfZero();
  }

  /** A stream of zeros is cut into chunks of the maximal size. */
  lemma {:induction false} ZeroChunks(s: Bytes)
    requires forall i :: 0 <= i < |s| ==> s[i] == 0
    ensures forall i :: 0 <= i < |Chunks(s)| ==> |Chunks(s)[i]| == MAX_SIZE
    decreases |s|
  {
    hide CutAt, NextCut;
    NextCutIsFirst(s);
    if NextCut(s).Some? {
      var n := NextCut(s).value;
      ZerosUncut(s, n);
      ZeroChunks(s[n..]);
      assert Chunks(s)[1..] == Chunks(s[n..]);
    }
  }

  lemma AllChunksConserve(s: Bytes)
    ensures Flatten(AllChunks(s)) == s
    ensures forall i :: 0 <= i < |AllChunks(s)| ==> 0 < |AllChunks(s)[i]| <= MAX_SIZE
    ensures forall i :: 0 <= i < |AllChunks(s)| - 1 ==> MIN_SIZE <= |AllChunks(s)[i]|
  {
    ChunksConserve(s);
    if Rest(s) != [] {
      FlattenOne(Chunks(s), Rest(s));
    } else {
      assert AllChunks(s) == Chunks(s) && Flatten(Chunks(s)) + Rest(s) == Flatten(Chunks(s));
    }
  }
}
