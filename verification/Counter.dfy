/**
  The cache's counters: eight little-endian bytes holding a signed 64-bit integer. The shifts of the
  source are divisions and multiplications by powers of 256 here, with the wrap-around written out.
 */
module Counter {
  import opened Prelude
  import opened MemoryCache

  newtype Byte = b: int | 0 <= b < 256

  const TWO63: int := 0x8000_0000_0000_0000
  const TWO64: int := 0x1_0000_0000_0000_0000

  predicate IsInt64(n: int) {
    -TWO63 <= n < TWO63
  }

  /** The signed 64-bit integer congruent to n. */
  function Wrap64(n: int): int {
    (n + TWO63) % TWO64 - TWO63
  }

  function Pow256(i: nat): (p: int)
    ensures p > 0
  {
    if i == 0 then 1 else 256 * Pow256(i - 1)
  }

  /** The unsigned value of little-endian bytes. */
  function FromBytes(bytes: seq<Byte>): int {
    if bytes == [] then 0 else bytes[0] as int + 256 * FromBytes(bytes[1..])
  }

  /** The signed value of a stored counter; contents of any other length count as zero. */
  function Decode(bytes: seq<Byte>): int {
    if |bytes| == 8 then Wrap64(FromBytes(bytes)) else 0
  }

  /** The count little-endian bytes of n, of whatever sign. */
  function ToBytes(n: int, count: nat): (bytes: seq<Byte>)
    ensures |bytes| == count
    decreases count
  {
    if count == 0 then [] else [(n % 256) as Byte] + ToBytes(n / 256, count - 1)
  }

  // ---- Encoding then decoding ----

  lemma {:induction false} FromToBytes(n: int, count: nat)
    ensures FromBytes(ToBytes(n, count)) == n % Pow256(count)
    decreases count
  {
    if count > 0 {
      FromToBytes(n / 256, count - 1);
      DigitSplit(n, Pow256(count - 1));
    }
  }

  lemma DigitSplit(n: int, p: int)
    requires p > 0
    ensures n % 256 + 256 * ((n / 256) % p) == n % (256 * p)
  {
    var q, r := n / 256 / p, n % 256 + 256 * ((n / 256) % p);
    assert n == 256 * (n / 256) + n % 256;
    assert n / 256 == p * q + (n / 256) % p;
    assert n == (256 * p) * q + r;
    assert 0 <= r < 256 * p by {
      assert (n / 256) % p <= p - 1;
    }
    ModUnique(n, 256 * p, q, r);
  }

  lemma ModUnique(n: int, d: int, q: int, r: int)
    requires d > 0 && 0 <= r < d && n == d * q + r
    ensures n % d == r
  {
    SmallMultiple(d, q, n / d, n % d - r);
  }

  lemma SmallMultiple(d: int, q: int, q': int, x: int)
    requires d > 0 && -d < x < d && d * q == d * q' + x
    ensures q == q'
  {
    MulDiff(d, q, q');
    if q - q' >= 1 {
      MulAtLeast(d, q - q');
    } else if q - q' <= -1 {
      MulDiff(d, q', q);
      MulAtLeast(d, q' - q);
    }
  }

  lemma MulDiff(d: int, a: int, b: int)
    ensures d * (a - b) == d * a - d * b
  {
  }

  lemma {:induction false} MulAtLeast(d: int, k: int)
    requires d > 0 && k >= 1
    ensures d * k >= d
  {
    MulDiff(d, k, 1);
    if k > 1 {
      MulAtLeast(d, k - 1);
    }
  }

  lemma PowEight()
    ensures Pow256(8) == TWO64
  {
    assert Pow256(4) == 0x1_0000_0000;
    assert Pow256(8) == 256 * (256 * (256 * (256 * Pow256(4))));
  }

  /** Storing then loading gives back the value modulo 2^64, hence every int64 itself, negative ones too. */
  lemma RoundTrip(n: int)
    ensures Decode(ToBytes(n, 8)) == Wrap64(n)
    ensures IsInt64(n) ==> Decode(ToBytes(n, 8)) == n
  {
    FromToBytes(n, 8);
    PowEight();
    ModUnique(n % TWO64 + TWO63, TWO64, (n % TWO64 + TWO63) / TWO64, (n % TWO64 + TWO63) % TWO64);
    WrapMod(n);
  }

  lemma WrapMod(n: int)
    ensures Wrap64(n % TWO64) == Wrap64(n)
    ensures IsInt64(Wrap64(n))
    ensures IsInt64(n) ==> Wrap64(n) == n
  {
    var m := n % TWO64 + TWO63;
    ModUnique(n + TWO63, TWO64, n / TWO64 + m / TWO64, m % TWO64);
  }

  lemma WrapAdd(a: int, b: int)
    ensures Wrap64(Wrap64(a) + b) == Wrap64(a + b)
  {
    var x := a + TWO63;
    var y := x % TWO64 + b;
    ModUnique(a + b + TWO63, TWO64, x / TWO64 + y / TWO64, y % TWO64);
  }

  lemma {:induction false} FromBytesBound(bytes: seq<Byte>)
    ensures 0 <= FromBytes(bytes) < Pow256(|bytes|)
  {
    if bytes != [] {
      FromBytesBound(bytes[1..]);
    }
  }

  lemma {:induction false} FromBytesInjective(a: seq<Byte>, b: seq<Byte>)
    requires |a| == |b| && FromBytes(a) == FromBytes(b)
    ensures a == b
  {
    if a != [] {
      var x, y := FromBytes(a[1..]), FromBytes(b[1..]);
      assert a[0] as int + 256 * x == b[0] as int + 256 * y;
      assert a[0] == b[0] && x == y;
      FromBytesInjective(a[1..], b[1..]);
      assert a == [a[0]] + a[1..] && b == [b[0]] + b[1..];
    }
  }

  lemma SameResidue(m: int, n: int)
    requires 0 <= m < TWO64 && Wrap64(m) == n
    ensures n % TWO64 == m
  {
    var q := (m + TWO63) / TWO64;
    assert m + TWO63 == TWO64 * q + (m + TWO63) % TWO64;
    assert n == TWO64 * (-q) + m;
    ModUnique(n, TWO64, -q, m);
  }

  /** A stored counter reads n exactly if it holds the eight bytes of n, or, for zero, contents that are no counter at all. */
  lemma DecodeExactly(bytes: seq<Byte>, n: int)
    requires IsInt64(n)
    ensures Decode(bytes) == n <==> bytes == ToBytes(n, 8) || (|bytes| != 8 && n == 0)
  {
    RoundTrip(n);
    if |bytes| == 8 && Decode(bytes) == n {
      FromBytesBound(bytes);
      PowEight();
      SameResidue(FromBytes(bytes), n);
      FromToBytes(n, 8);
      FromBytesInjective(bytes, ToBytes(n, 8));
    }
  }

  // ---- The increment operation ----

  function Current(store: Store<seq<Byte>>, key: string): int {
    if key in store then Decode(store[key].value) else 0
  }

  function Incremented(store: Store<seq<Byte>>, key: string, delta: int): Store<seq<Byte>> {
    store[key := Item(ToBytes(Wrap64(Current(store, key) + delta), 8), None)]
  }

  /** Increment reads eight bytes in one loop and writes eight in another. */
  method Increment(c: Cache<seq<Byte>>, key: string, delta: int) returns (newValue: int)
    requires IsInt64(delta)
    modifies c
    ensures newValue == Wrap64(Current(old(c.store), key) + delta)
    ensures c.store == Incremented(old(c.store), key, delta)
  {
    var current := 0;
    if key in c.store {
      var value := c.store[key].value;
      if |value| == 8 {
        current := ReadInt64(value);
      }
    }
    newValue := Wrap64(current + delta);
    var bytes := WriteInt64(newValue);
    c.store := c.store[key := Item(bytes, None)];
  }

  method ReadInt64(value: seq<Byte>) returns (current: int)
    requires |value| == 8
    ensures current == Decode(value)
  {
    current := 0;
    for i := 0 to 8
      invariant current == FromBytes(value[..i])
      invariant 0 <= current < Pow256(i)
    {
      // The bits below 256^i are taken and the byte goes above them, so "or" is addition.
      NextByte(value, i);
      current := current + value[i] as int * Pow256(i);
    }
    assert value[..8] == value;
    current := Wrap64(current);
  }

  lemma NextByte(value: seq<Byte>, i: nat)
    requires i < |value| && 0 <= FromBytes(value[..i]) < Pow256(i)
    ensures FromBytes(value[..i + 1]) == FromBytes(value[..i]) + value[i] as int * Pow256(i)
    ensures 0 <= FromBytes(value[..i + 1]) < Pow256(i + 1)
  {
    FromBytesSnoc(value[..i], value[i]);
    assert value[..i + 1] == value[..i] + [value[i]];
    MulBound(value[i] as int, Pow256(i));
  }

  lemma {:induction false} MulBound(v: nat, p: int)
    requires v <= 255 && p > 0
    ensures 0 <= v * p <= 255 * p
  {
    MulNonNegative(v, p);
    MulNonNegative(255 - v, p);
    assert v * p + (255 - v) * p == 255 * p;
  }

  lemma {:induction false} MulNonNegative(v: nat, p: int)
    requires p > 0
    ensures v * p >= 0
  {
    if v > 0 {
      MulNonNegative(v - 1, p);
      assert v * p == (v - 1) * p + p;
    }
  }

  lemma {:induction false} FromBytesSnoc(bytes: seq<Byte>, b: Byte)
    ensures FromBytes(bytes + [b]) == FromBytes(bytes) + b as int * Pow256(|bytes|)
  {
    if bytes != [] {
      FromBytesSnoc(bytes[1..], b);
      assert (bytes + [b])[1..] == bytes[1..] + [b];
      assert 256 * (b as int * Pow256(|bytes| - 1)) == b as int * Pow256(|bytes|);
    } else {
      assert bytes + [b] == [b];
    }
  }

  method WriteInt64(n: int) returns (bytes: seq<Byte>)
    ensures bytes == ToBytes(n, 8)
  {
    bytes := [];
    for i := 0 to 8
      invariant bytes == ToBytes(n, i)
    {
      ToBytesSnoc(n, i);
      bytes := bytes + [DigitAt(n, i)];
    }
  }

  lemma {:induction false} ToBytesSnoc(n: int, count: nat)
    ensures ToBytes(n, count + 1) == ToBytes(n, count) + [DigitAt(n, count)]
    decreases count
  {
    if count == 0 {
      assert ToBytes(n, 1) == [(n % 256) as Byte] + ToBytes(n / 256, 0);
    } else {
      ToBytesSnoc(n / 256, count - 1);
      DivDiv(n, Pow256(count - 1));
      assert DigitAt(n / 256, count - 1) == DigitAt(n, count);
    }
  }

  /** byte(n >> 8i): an arithmetic shift, then truncation. */
  function DigitAt(n: int, i: nat): Byte {
    ((n / Pow256(i)) % 256) as Byte
  }

  lemma DivDiv(n: int, p: int)
    requires p > 0
    ensures n / 256 / p == n / (256 * p)
  {
    DigitSplit(n, p);
    var q := n / 256 / p;
    assert n == 256 * (n / 256) + n % 256;
    assert n / 256 == p * q + (n / 256) % p;
    assert n == (256 * p) * q + n % (256 * p);
    var q' := n / (256 * p);
    assert n == (256 * p) * q' + n % (256 * p);
    assert (256 * p) * (q - q') == 0;
  }

  // ---- Sequences of increments ----

  function Sum(deltas: seq<int>): int {
    if deltas == [] then 0 else deltas[0] + Sum(deltas[1..])
  }

  function IncrementedAll(store: Store<seq<Byte>>, key: string, deltas: seq<int>): Store<seq<Byte>>
    decreases |deltas|
  {
    if deltas == [] then store else IncrementedAll(Incremented(store, key, deltas[0]), key, deltas[1..])
  }

  /** Any non-empty sequence of increments leaves the start plus the sum, wrapped to 64 bits once. */
  lemma {:induction false} IncrementsAddUp(store: Store<seq<Byte>>, key: string, deltas: seq<int>)
    ensures Wrap64(Current(IncrementedAll(store, key, deltas), key)) == Wrap64(Current(store, key) + Sum(deltas))
    ensures deltas != [] ==> IsInt64(Current(IncrementedAll(store, key, deltas), key))
    ensures deltas != [] ==> key in IncrementedAll(store, key, deltas) && IncrementedAll(store, key, deltas)[key].expiration == None
    ensures forall k | k != key :: Find(IncrementedAll(store, key, deltas), k) == Find(store, k)
    decreases |deltas|
  {
    if deltas != [] {
      var next := Incremented(store, key, deltas[0]);
      var start := Current(store, key) + deltas[0];
      RoundTrip(Wrap64(start));
      WrapMod(start);
      assert Current(next, key) == Wrap64(start);
      IncrementsAddUp(next, key, deltas[1..]);
      WrapAdd(start, Sum(deltas[1..]));
      assert IsInt64(Current(next, key));
    }
  }

  /**
    Increment looks at neither the clock nor the expiry, so a sweep just before it changes its result
    exactly when the key holds an expired counter that is not zero.
   */
  lemma IncrementAfterSweepExact(store: Store<seq<Byte>>, now: Time, key: string, delta: int)
    ensures Wrap64(Current(Sweep(store, now), key) + delta) == Wrap64(Current(store, key) + delta)
       <==> !(key in store && !Alive(store[key], now) && Decode(store[key].value) != 0)
  {
    var v := Current(store, key);
    if key in store && |store[key].value| == 8 {
      WrapMod(FromBytes(store[key].value));
    }
    assert IsInt64(v);
    if Wrap64(delta) == Wrap64(v + delta) {
      WrapAdd(delta, -delta);
      WrapAdd(v + delta, -delta);
      WrapMod(v);
      WrapMod(0);
      assert v == 0;
    }
  }
}
