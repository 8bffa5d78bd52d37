/** The polynomial rolling hash the chunker slides over its input, and the
    tables it is driven by.

    The hash of a window is its value as a polynomial, under a mask; the lemmas on
    remainders let masked steps be taken together. One step then moves the
    window on by a byte, and the table loops compute what that step needs
    without leaving the 64-bit range. */
module RollingHash {
  import opened Basics

  // no arithmetic on these leaves the range, unless written as wrapping
  newtype U64 = x: int | 0 <= x < 0x1_0000_0000_0000_0000

  const PRIME: U64 := 153_191
  const MOD: U64 := 0x100_0000_0000       // one above the hash mask
  const FP_POLY: nat := 0xbfe6_b8a5_bf37_8d83
  const WIN_SIZE: nat := 16

  // PRIME to the power of n
  function Pow(n: nat): (r: nat)
    ensures r >= 1
  {
    if n == 0 then 1 else Pow(n - 1) * PRIME as nat
  }

  function TwoTo(n: nat): (r: nat)
    ensures r >= 1
  {
    if n == 0 then 1 else 2 * TwoTo(n - 1)
  }

  function Horner(w: Bytes): nat {
    if w == [] then 0 else Horner(w[..|w| - 1]) * PRIME as nat + w[|w| - 1] as nat
  }

  /** The hash of a window: its bytes as the coefficients of a polynomial. */
  function Poly(w: Bytes): (r: nat)
    ensures r < MOD as nat
  {
    Horner(w) % MOD as nat
  }

  // whether a power of two is in the binary expansion of p
  predicate HasBit(p: nat, term: nat)
    requires term > 0
  {
    p / term % 2 == 1
  }

  function IrTerm(b: nat, k: nat): (r: nat)
    ensures r < MOD as nat
  {
    Pow(k) * b % MOD as nat
  }

  /** The irreducible-polynomial term of the byte pushed out. */
  function IrSum(b: nat, terms: nat): (r: nat)
    ensures r <= 1 + terms * MOD as nat
  {
    if terms == 0 then 1
    else IrSum(b, terms - 1) +
         if HasBit(FP_POLY, TwoTo(terms - 1)) then IrTerm(b, terms - 1) else 0
  }

  function Ir(b: Byte): nat { IrSum(b as nat, WIN_SIZE) }

  function PushedOut(b: Byte): nat { b as nat * Pow(WIN_SIZE) % MOD as nat }

  lemma ModAdd(a: int, b: int, m: nat)
    requires m > 0
    ensures (a % m + b) % m == (a + b) % m
  {
    ModShift(a % m + b, a / m, m);
    assert a == a / m * m + a % m;
  }

  lemma ModSub(a: int, b: int, m: nat)
    requires m > 0
    ensures (a - b % m) % m == (a - b) % m
  {
    ModShift(a - b, b / m, m);
    assert b == b / m * m + b % m;
  }

  lemma ModMul(a: nat, b: nat, m: nat)
    requires m > 0
    ensures (a % m * b) % m == (a * b) % m
  {
    ModShift(a % m * b, a / m * b, m);
    calc {
      a * b;
      { assert a == a / m * m + a % m; }
      (a / m * m + a % m) * b;
      a / m * m * b + a % m * b;
      { assert a / m * m * b == a / m * b * m; }
      a % m * b + a / m * b * m;
    }
  }

  lemma {:induction false} ModShift(a: int, k: int, m: nat)
    requires m > 0
    ensures (a + k * m) % m == a % m
    decreases if k < 0 then -k else k
  {
    if k > 0 {
      ModShift(a, k - 1, m);
      ModStep(a + (k - 1) * m, m);
      assert a + k * m == a + (k - 1) * m + m;
    } else if k < 0 {
      ModShift(a, k + 1, m);
      ModStep(a + k * m, m);
      assert a + k * m + m == a + (k + 1) * m;
    }
  }

  lemma ModStep(a: int, m: nat)
    requires m > 0
    ensures (a + m) % m == a % m
  {
    var q, r := a / m, a % m;
    assert a + m == (q + 1) * m + r;
    UniqueRest(a + m, q + 1, r, m);
  }

  lemma UniqueRest(x: int, q: int, r: int, m: nat)
    requires m > 0 && 0 <= r < m && x == q * m + r
    ensures x % m == r
  {
    var d := x / m - q;
    assert d * m == r - x % m by {
      assert x == x / m * m + x % m;
      assert d * m == x / m * m - q * m;
    }
    LargeMultiple(d, m);
  }

  lemma LargeMultiple(d: int, m: nat)
    ensures d >= 1 ==> d * m >= m
    ensures d <= -1 ==> d * m + m <= 0
  {
    if d <= -1 {
      assert d * m + m == (d + 1) * m;
    }
  }

  lemma {:induction false} HornerHead(x: Byte, t: Bytes)
    ensures Horner([x] + t) == x as nat * Pow(|t|) + Horner(t)
    decreases |t|
  {
    if t == [] {
      assert Horner([x]) == Horner([x][..0]) * PRIME as nat + x as nat;
      assert [x] + t == [x];
    } else {
      var n := |t| - 1;
      assert ([x] + t)[..|t|] == [x] + t[..n];
      HornerHead(x, t[..n]);
      assert Horner([x] + t) == (x as nat * Pow(n) + Horner(t[..n])) * PRIME as nat + t[n] as nat;
      assert x as nat * Pow(n) * PRIME as nat == x as nat * Pow(|t|);
    }
  }

  lemma HornerSlide(w: Bytes, ch: Byte)
    requires w != []
    ensures Horner(w[1..] + [ch]) == Horner(w) * PRIME as nat + ch as nat - w[0] as nat * Pow(|w|)
  {
    var t := w[1..];
    assert w == [w[0]] + t;
    HornerHead(w[0], t);
    HornerLast(t, ch);
    assert Pow(|w|) == Pow(|t|) * PRIME as nat;
    hide Horner, Pow;
    Distribute(w[0] as nat, Pow(|t|), Horner(t), PRIME as nat);
  }

  lemma HornerLast(t: Bytes, ch: Byte)
    ensures Horner(t + [ch]) == Horner(t) * PRIME as nat + ch as nat
  {
    assert (t + [ch])[..|t|] == t;
  }

  lemma Distribute(x: nat, a: nat, b: nat, c: nat)
    ensures (x * a + b) * c == x * (a * c) + b * c
  {
    assert x * a * c == x * (a * c);
  }

  function WrappingSub(a: U64, b: U64): U64 {
    ((a as int - b as int) % 0x1_0000_0000_0000_0000) as U64
  }

  /** One step of the rolling hash. */
  function Roll(hash: U64, ch: Byte, pushedOut: U64): U64
    requires hash < MOD && pushedOut < MOD
  {
    WrappingSub(hash * PRIME % MOD + ch as U64, pushedOut) % MOD
  }

  lemma MaskAfterWrap(x: int)
    ensures x % 0x1_0000_0000_0000_0000 % 0x100_0000_0000 == x % 0x100_0000_0000
  {
    var q := x / 0x1_0000_0000_0000_0000;
    ModShift(x % 0x1_0000_0000_0000_0000, q * 0x100_0000, 0x100_0000_0000);
  }

  lemma RollValue(hash: U64, ch: Byte, pushedOut: U64)
    requires hash < MOD && pushedOut < MOD
    ensures Roll(hash, ch, pushedOut) as int == (hash as int * PRIME as int + ch as int - pushedOut as int) % MOD as int
  {
    var a := hash as int * PRIME as int;
    MaskAfterWrap(a % MOD as int + ch as int - pushedOut as int);
    ModAdd(a, ch as int - pushedOut as int, MOD as int);
  }

  /** Rolling the hash of one window gives the hash of the next one. */
  lemma RollSlides(w: Bytes, ch: Byte, hash: U64, pushedOut: U64)
    requires |w| == WIN_SIZE && hash as nat == Poly(w) && pushedOut as nat == PushedOut(w[0])
    ensures Roll(hash, ch, pushedOut) as nat == Poly(w[1..] + [ch])
  {
    hide Horner, Pow, Roll;
    var m, prime := MOD as nat, PRIME as nat;
    var out := w[0] as nat * Pow(WIN_SIZE);
    RollValue(hash, ch, pushedOut);
    ModSub(hash as nat * prime + ch as nat, out, m);
    ModAdd(hash as nat * prime, ch as nat - out, m);
    ModMul(Horner(w), prime, m);
    ModAdd(Horner(w) * prime, ch as nat - out, m);
    HornerSlide(w, ch);
  }

  // ---- the tables ----

  datatype Params = Params(polyPow: U64, outMap: seq<U64>, ir: seq<U64>)

  /** Tables that agree with the polynomial they stand for. */
  ghost predicate ParamsOk(p: Params) {
    && |p.outMap| == 256 && |p.ir| == 256
    && (forall b: Byte :: p.outMap[b] as nat == PushedOut(b))
    && (forall b: Byte :: p.ir[b] as nat == Ir(b))
  }

  lemma PowStep(pow: U64, k: nat)
    requires pow as nat == Pow(k) % MOD as nat
    ensures NextPow(pow) as nat == Pow(k + 1) % MOD as nat
  {
    ModMul(Pow(k), PRIME as nat, MOD as nat);
  }

  lemma SmallProduct(a: nat, b: nat)
    requires a < 256 && b < MOD as nat
    ensures a * b < 256 * MOD as nat
  {
  }

  lemma TwoToSmall()
    ensures TwoTo(16) == 65536
  {
    assert TwoTo(4) == 16;
    assert TwoTo(8) == 256;
    assert TwoTo(12) == 4096;
  }

  lemma {:induction false} TwoToMono(a: nat, b: nat)
    requires a <= b
    ensures TwoTo(a) <= TwoTo(b)
    decreases b
  {
    if a < b {
      TwoToMono(a, b - 1);
    }
  }

  lemma TwoToNext(k: nat)
    requires k < WIN_SIZE
    ensures 2 * TwoTo(k) == TwoTo(k + 1) <= 65536
  {
    TwoToSmall();
    TwoToMono(k + 1, WIN_SIZE);
  }

  lemma TwoToValues()
    ensures TwoTo(0) == 1 && TwoTo(1) == 2 && TwoTo(2) == 4 && TwoTo(3) == 8
    ensures TwoTo(4) == 16 && TwoTo(5) == 32 && TwoTo(6) == 64 && TwoTo(7) == 128
    ensures TwoTo(8) == 256 && TwoTo(9) == 512 && TwoTo(10) == 1024 && TwoTo(11) == 2048
    ensures TwoTo(12) == 4096 && TwoTo(13) == 8192 && TwoTo(14) == 16384 && TwoTo(15) == 32768
  {
  }

  /** The bits of the polynomial that a table entry takes a term for. */
  lemma PolyBits(k: nat)
    requires k < WIN_SIZE
    ensures HasBit(FP_POLY, TwoTo(k)) <==> k in {0, 1, 7, 8, 10, 11, 15}
  {
    TwoToValues();
  }

  lemma IrSumStep(b: nat, k: nat)
    requires k < WIN_SIZE
    ensures IrSum(b, k + 1) == IrSum(b, k) + if k in {0, 1, 7, 8, 10, 11, 15} then IrTerm(b, k) else 0
  {
    PolyBits(k);
  }

  /** The table written out: one, and a masked term for each of seven powers. */
  lemma IrIs(b: Byte)
    ensures var i, m := b as nat, MOD as nat;
      Ir(b) == 1 + i % m + Pow(1) * i % m + Pow(7) * i % m + Pow(8) * i % m + Pow(10) * i % m + Pow(11) * i % m + Pow(15) * i % m
  {
    var i := b as nat;
    assert Pow(0) == 1 && IrSum(i, 0) == 1;
    hide Pow, IrSum;
    IrSumStep(i, 0);
    IrSumStep(i, 1);
    IrSumStep(i, 2);
    IrSumStep(i, 3);
    IrSumStep(i, 4);
    IrSumStep(i, 5);
    IrSumStep(i, 6);
    IrSumStep(i, 7);
    IrSumStep(i, 8);
    IrSumStep(i, 9);
    IrSumStep(i, 10);
    IrSumStep(i, 11);
    IrSumStep(i, 12);
    IrSumStep(i, 13);
    IrSumStep(i, 14);
    IrSumStep(i, 15);
  }

  /** The entry of zero is one: no window of zeros has that hash. */
  lemma IrOfZero()
    ensures Ir(0) == 1
  {
    IrIs(0);
  }

  lemma {:induction false} HornerZeros(w: Bytes)
    requires forall i :: 0 <= i < |w| ==> w[i] == 0
    ensures Horner(w) == 0
    decreases |w|
  {
    if w != [] {
      HornerZeros(w[..|w| - 1]);
    }
  }

  method NewPolyPow() returns (polyPow: U64)
    ensures polyPow as nat == Pow(WIN_SIZE) % MOD as nat
  {
    polyPow := 1;
    for k := 0 to WIN_SIZE
      invariant polyPow as nat == Pow(k) % MOD as nat
    {
      PowStep(polyPow, k);
      polyPow := NextPow(polyPow);
    }
  }

  // the product of a masked power and a byte, masked
  function Masked(pow: U64, i: nat): (r: U64)
    requires i < 256 && pow < MOD
    ensures r < MOD
  {
    SmallProduct(i, pow as nat);
    pow * i as U64 % MOD
  }

  lemma MaskedIsTerm(pow: U64, i: nat, k: nat)
    requires i < 256 && pow as nat == Pow(k) % MOD as nat
    ensures Masked(pow, i) as nat == IrTerm(i, k)
  {
    hide Pow;
    ModMul(Pow(k), i, MOD as nat);
  }

  // the next masked power
  function NextPow(pow: U64): (r: U64)
    requires pow < MOD
    ensures r < MOD
  {
    pow * PRIME % MOD
  }

  method NewIr(i: nat) returns (val: U64)
    requires i < 256
    ensures val as nat == IrSum(i, WIN_SIZE)
  {
    var term: U64, pow: U64 := 1, 1;
    val := 1;
    assert Pow(0) == 1 && TwoTo(0) == 1;
    hide Pow, HasBit, TwoTo, Masked, IrTerm;
    for k := 0 to WIN_SIZE
      invariant term as nat == TwoTo(k)
      invariant pow as nat == Pow(k) % MOD as nat
      invariant val as nat == IrSum(i, k)
    {
      TwoToNext(k);
      PowStep(pow, k);
      MaskedIsTerm(pow, i, k);
      if HasBit(FP_POLY, term as nat) {
        val := val + Masked(pow, i);
      }
      pow := NextPow(pow);
      term := term * 2;
    }
  }

  lemma OutEntry(i: nat, polyPow: U64)
    requires i < 256 && polyPow as nat == Pow(WIN_SIZE) % MOD as nat
    ensures Masked(polyPow, i) as nat == PushedOut(i as Byte)
  {
    hide Pow;
    ModMul(Pow(WIN_SIZE), i, MOD as nat);
    assert Pow(WIN_SIZE) * i == i * Pow(WIN_SIZE);
  }

  method NewParams() returns (p: Params)
    ensures ParamsOk(p)
  {
    hide Pow, PushedOut, IrSum, Masked;
    var polyPow := NewPolyPow();
    var outMap, ir := seq(256, _ => 0 as U64), seq(256, _ => 0 as U64);
    for i := 0 to 256
      invariant |outMap| == 256 && |ir| == 256
      invariant forall j: nat :: j < i ==> outMap[j] as nat == PushedOut(j as Byte)
      invariant forall j: nat :: j < i ==> ir[j] as nat == Ir(j as Byte)
    {
      OutEntry(i, polyPow);
      outMap := outMap[i := Masked(polyPow, i)];
      var val := NewIr(i);
      ir := ir[i := val];
    }
    p := Params(polyPow, outMap, ir);
  }
}
