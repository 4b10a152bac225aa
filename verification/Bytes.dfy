/** Bytes, little-endian int64 values and concatenation of byte slices, as Go's
    `encoding/binary` and `[][]byte` use them. */
module Bytes {

  type byte = x: int | 0 <= x < 256

  const INT64_LIMIT: int := 0x8000_0000_0000_0000
  const UINT64_LIMIT: int := 0x1_0000_0000_0000_0000

  datatype Option<+T> = None | Some(value: T)

  function Flatten(parts: seq<seq<byte>>): seq<byte> {
    if parts == [] then [] else parts[0] + Flatten(parts[1..])
  }

  lemma FlattenCons(x: seq<byte>, a: seq<seq<byte>>)
    ensures Flatten([x] + a) == x + Flatten(a)
  {
    assert ([x] + a)[1..] == a;
  }

  lemma {:induction false} FlattenConcat(a: seq<seq<byte>>, b: seq<seq<byte>>)
    ensures Flatten(a + b) == Flatten(a) + Flatten(b)
  {
    if a == [] {
      assert a + b == b;
    } else {
      FlattenConcat(a[1..], b);
      assert (a + b)[1..] == a[1..] + b;
      Assoc(a[0], Flatten(a[1..]), Flatten(b));
    }
  }

  lemma FlattenSnoc(a: seq<seq<byte>>, x: seq<byte>)
    ensures Flatten(a + [x]) == Flatten(a) + x
  {
    FlattenConcat(a, [x]);
    assert Flatten([x]) == x + Flatten([x][1..]);
  }

  // Slices of concatenations, where the proofs below would otherwise search for them.

  lemma TakeInFirst<T>(a: seq<T>, b: seq<T>, n: nat)
    requires n <= |a|
    ensures (a + b)[..n] == a[..n]
  {
  }

  lemma FlattenTakeNone(a: seq<seq<byte>>)
    ensures Flatten(a[..0]) == []
  {
  }

  lemma FlattenTake(a: seq<seq<byte>>, c: nat)
    requires 0 < c <= |a|
    ensures Flatten(a[..c]) == a[0] + Flatten(a[1..][..c - 1])
  {
    assert a[..c][1..] == a[1..][..c - 1];
  }

  lemma TakePast<T>(a: seq<T>, b: seq<T>, n: nat)
    requires |a| <= n <= |a| + |b|
    ensures (a + b)[..n] == a + b[..n - |a|]
  {
  }

  lemma DropInFirst<T>(a: seq<T>, b: seq<T>, n: nat)
    requires n <= |a|
    ensures (a + b)[n..] == a[n..] + b
  {
  }

  lemma DropDrop<T>(s: seq<T>, i: nat, j: nat)
    requires i + j <= |s|
    ensures s[i..][j..] == s[i + j..]
  {
  }

  lemma Assoc<T>(a: seq<T>, b: seq<T>, c: seq<T>)
    ensures (a + b) + c == a + (b + c)
  {
  }

  function Pow256(k: nat): (p: nat) {
    if k == 0 then 1 else 256 * Pow256(k - 1)
  }

  /** The k low-order bytes of u, least significant first. */
  function ToLE(u: nat, k: nat): (s: seq<byte>)
    ensures |s| == k
  {
    if k == 0 then [] else [u % 256] + ToLE(u / 256, k - 1)
  }

  function FromLE(s: seq<byte>): nat {
    if s == [] then 0 else s[0] + 256 * FromLE(s[1..])
  }

  lemma {:induction false} LERoundTrip(u: nat, k: nat)
    requires u < Pow256(k)
    ensures FromLE(ToLE(u, k)) == u
  {
    if k > 0 {
      assert u / 256 < Pow256(k - 1);
      LERoundTrip(u / 256, k - 1);
      assert ToLE(u, k)[1..] == ToLE(u / 256, k - 1);
    }
  }

  lemma TimesMonotone(d: nat, x: nat, y: nat)
    requires x <= y
    ensures d * x <= d * y
  {
  }

  lemma QuotientIs(u: nat, d: nat, q: nat, r: nat)
    requires d > 0 && u == d * q + r && r < d
    ensures u / d == q
  {
    var x, y := u / d, u % d;
    assert u == d * x + y;
    assert d * (x + 1) == d * x + d && d * (q + 1) == d * q + d;
    if x < q { TimesMonotone(d, x + 1, q); } else if q < x { TimesMonotone(d, q + 1, x); }
  }

  lemma DivDiv(u: nat, b: nat)
    requires b > 0
    ensures u / (256 * b) == (u / 256) / b
  {
    var q, r := (u / 256) / b, (u / 256) % b;
    assert u / 256 == b * q + r;
    assert u == 256 * (u / 256) + u % 256;
    assert 256 * (b * q + r) == (256 * b) * q + 256 * r;
    QuotientIs(u, 256 * b, q, 256 * r + u % 256);
  }

  lemma ToLETail(u: nat, k: nat, i: nat)
    requires 0 < i < k
    ensures ToLE(u, k)[i] == ToLE(u / 256, k - 1)[i - 1] && Pow256(i) == 256 * Pow256(i - 1)
  {
  }

  /** Byte i counts the 256^i: the order of the bytes. */
  lemma {:induction false} ToLEAt(u: nat, k: nat, i: nat)
    requires i < k
    ensures Pow256(i) > 0 && ToLE(u, k)[i] == (u / Pow256(i)) % 256
    decreases k
  {
    if i > 0 {
      ToLETail(u, k, i);
      hide *;
      ToLEAt(u / 256, k - 1, i - 1);
      DivDiv(u, Pow256(i - 1));
    }
  }

  /** Any bytes are those of the number they are read as. */
  lemma {:induction false} LEInverse(s: seq<byte>)
    ensures FromLE(s) < Pow256(|s|) && ToLE(FromLE(s), |s|) == s
  {
    if s != [] {
      LEInverse(s[1..]);
      assert (s[0] + 256 * FromLE(s[1..])) / 256 == FromLE(s[1..]);
    }
  }

  lemma Pow256Of8()
    ensures Pow256(8) == UINT64_LIMIT
  {
    assert Pow256(4) == 0x1_0000_0000;
    assert Pow256(6) == 0x1_0000_0000_0000;
  }

  /** `binary.Write(_, LittleEndian, int64(n))`: two's complement, eight bytes. */
  function Int64Bytes(n: int): (s: seq<byte>)
    requires -INT64_LIMIT <= n < INT64_LIMIT
    ensures |s| == 8
  {
    ToLE(if n < 0 then n + UINT64_LIMIT else n, 8)
  }

  /** `binary.Read` of an int64 from eight bytes. */
  function Int64Value(s: seq<byte>): int {
    var u := FromLE(s);
    if u < INT64_LIMIT then u else u - UINT64_LIMIT
  }

  lemma Int64RoundTrip(n: int)
    requires -INT64_LIMIT <= n < INT64_LIMIT
    ensures Int64Value(Int64Bytes(n)) == n
  {
    Pow256Of8();
    LERoundTrip(if n < 0 then n + UINT64_LIMIT else n, 8);
  }

  lemma Wraps(n: int)
    requires -INT64_LIMIT <= n < INT64_LIMIT
    ensures n % UINT64_LIMIT == if n < 0 then n + UINT64_LIMIT else n
  {
  }

  /** Two's complement, byte by byte, and reading any eight bytes is its inverse. */
  lemma Int64BytesAt(n: int, i: nat)
    requires -INT64_LIMIT <= n < INT64_LIMIT && i < 8
    ensures Pow256(i) > 0 && Int64Bytes(n)[i] == ((n % UINT64_LIMIT) / Pow256(i)) % 256
  {
    var u := if n < 0 then n + UINT64_LIMIT else n;
    ToLEAt(u, 8, i);
    Wraps(n);
  }

  lemma Int64Inverse(s: seq<byte>)
    requires |s| == 8
    ensures -INT64_LIMIT <= Int64Value(s) < INT64_LIMIT && Int64Bytes(Int64Value(s)) == s
  {
    Pow256Of8();
    LEInverse(s);
  }
}
