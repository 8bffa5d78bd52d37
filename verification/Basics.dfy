/** Vocabulary shared by the models of every layer. */
module Basics {
  newtype Byte = x: int | 0 <= x < 256

  type Bytes = seq<Byte>

  datatype Hash = Hash(bytes: Bytes)

  /** A hash function; every result holds for all of them, so nothing about
      the primitive itself is assumed. */
  type Hasher = Bytes -> Hash

  // entity id
  datatype Eid = Eid(id: nat)

  datatype Option<+T> = None | Some(value: T)

  function Min(a: int, b: int): (m: int)
    ensures m <= a && m <= b && (m == a || m == b)
  {
    if a < b then a else b
  }

  function Max(a: int, b: int): (m: int)
    ensures m >= a && m >= b && (m == a || m == b)
  {
    if a < b then b else a
  }

  /** Bytes `from`.. up to `to` of `data`, clipped to what `data` has. */
  function Clip(data: Bytes, from: nat, to: nat): Bytes
    requires from <= to
  {
    data[Min(from, |data|)..Min(to, |data|)]
  }

  /** Overwrite `base` with `data` from position `at` on, growing it if needed. */
  function Splice(base: Bytes, at: nat, data: Bytes): (r: Bytes)
    requires at <= |base|
    ensures |r| == Max(|base|, at + |data|)
  {
    base[..at] + data + if at + |data| < |base| then base[at + |data|..] else []
  }

  lemma SpliceAt(base: Bytes, at: nat, data: Bytes)
    requires at <= |base|
    ensures var r := Splice(base, at, data);
      forall i :: 0 <= i < |r| ==> r[i] == if at <= i < at + |data| then data[i - at] else base[i]
  {
  }

  /** Replace the elements of `s` from `at` on by those of `t`. */
  function Patch<T>(s: seq<T>, at: nat, t: seq<T>): (r: seq<T>)
    requires at + |t| <= |s|
    ensures |r| == |s|
    ensures forall i :: 0 <= i < |s| ==> r[i] == if at <= i < at + |t| then t[i - at] else s[i]
  {
    s[..at] + t + s[at + |t|..]
  }

  function Flatten<T>(parts: seq<seq<T>>): seq<T> {
    if parts == [] then [] else parts[0] + Flatten(parts[1..])
  }

  lemma {:induction false} FlattenAppend<T>(a: seq<seq<T>>, b: seq<seq<T>>)
    ensures Flatten(a + b) == Flatten(a) + Flatten(b)
    decreases |a|
  {
    if a == [] {
      assert a + b == b;
    } else {
      assert (a + b)[1..] == a[1..] + b;
      FlattenAppend(a[1..], b);
    }
  }

  lemma FlattenOne<T>(a: seq<seq<T>>, part: seq<T>)
    ensures Flatten(a + [part]) == Flatten(a) + part
  {
    FlattenAppend(a, [part]);
    assert Flatten([part]) == part + Flatten<T>([]);
  }

  lemma JoinRanges<T>(data: seq<T>, a: nat, b: nat, c: nat)
    requires a <= b <= c <= |data|
    ensures data[a..b] + data[b..c] == data[a..c]
  {
  }

  lemma SubRange<T>(data: seq<T>, lo: nat, hi: nat, a: nat, b: nat)
    requires lo <= a <= b <= hi <= |data|
    ensures data[lo..hi][a - lo..b - lo] == data[a..b]
  {
    var part := data[lo..hi];
    forall k | 0 <= k < b - a ensures part[a - lo..b - lo][k] == data[a..b][k] {
      assert part[a - lo..b - lo][k] == part[a - lo + k];
    }
  }
}
