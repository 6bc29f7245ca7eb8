/** Bytes, options, results and little-endian numbers. */
module Bytes {
  type byte = x: int | 0 <= x < 256
  type bytes = seq<byte>

  datatype Option<+T> = None | Some(value: T)
  datatype Result<+T, +E> = Ok(value: T) | Err(error: E)

  /** 256 to the power `k`. */
  function Pow256(k: nat): (p: nat)
    ensures p >= 1
  {
    if k == 0 then 1 else 256 * Pow256(k - 1)
  }

  /** The `k` low bytes of `n`, least significant first. */
  function LE(n: nat, k: nat): (b: bytes)
    ensures |b| == k
  {
    if k == 0 then [] else [n % 256] + LE(n / 256, k - 1)
  }

  function FromLE(b: bytes): nat {
    if b == [] then 0 else b[0] + 256 * FromLE(b[1..])
  }

  lemma {:induction false} FromLEOfLE(n: nat, k: nat)
    requires n < Pow256(k)
    ensures FromLE(LE(n, k)) == n
  {
    if k > 0 {
      FromLEOfLE(n / 256, k - 1);
      assert LE(n, k)[1..] == LE(n / 256, k - 1);
    }
  }

  lemma {:induction false} LEOfFromLE(b: bytes)
    ensures FromLE(b) < Pow256(|b|) && LE(FromLE(b), |b|) == b
  {
    if b != [] {
      LEOfFromLE(b[1..]);
      assert FromLE(b) / 256 == FromLE(b[1..]) && FromLE(b) % 256 == b[0];
      assert b == [b[0]] + b[1..];
    }
  }

  /** The byte at position `i` counts the 256 to the power `i`s: least significant first. */
  lemma {:induction false} LEDigit(n: nat, k: nat, i: nat)
    requires i < k
    ensures LE(n, k)[i] == n / Pow256(i) % 256
  {
    if i > 0 {
      LEDigit(n / 256, k - 1, i - 1);
      NestedDivision(n, 256, Pow256(i - 1));
    } else {
      assert n / 1 == n;
    }
  }

  lemma NestedDivision(n: nat, a: nat, b: nat)
    requires a > 0 && b > 0
    ensures a * b > 0 && n / a / b == n / (a * b)
  {
    var m := n / a;
    var q, r, s := m / b, m % b, n % a;
    assert n == a * m + s && m == b * q + r;
    Remainder(a, b, r, s);
    assert a * m == a * b * q + a * r by { assert a * (b * q + r) == a * (b * q) + a * r; }
    DivisionIs(n, a * b, q, a * r + s);
  }

  lemma Remainder(a: nat, b: nat, r: nat, s: nat)
    requires r < b && s < a
    ensures a * b > 0 && 0 <= a * r + s < a * b
  {
    assert a * r <= a * (b - 1);
  }

  lemma DivisionIs(n: nat, d: nat, q: nat, r: nat)
    requires n == d * q + r && r < d
    ensures n / d == q
  {
    var e: int := n / d - q;
    assert n == d * (n / d) + n % d;
    assert d * e == r - n % d by { assert d * (n / d) - d * q == d * e; }
    Scaled(d, e);
  }

  lemma Scaled(d: nat, e: int)
    ensures e >= 1 ==> d * e >= d
    ensures e <= -1 ==> d * e + d <= 0
  {
  }

  lemma Concat(a: bytes, b: bytes, c: bytes)
    ensures a + b + c == a + (b + c)
    ensures (a + (b + c))[..|a|] == a && (a + (b + c))[|a|..] == b + c
    ensures (a + (b + c))[|a|..|a + b|] == b && (a + (b + c))[..|a + b|] == a + b
  {
  }

  lemma Cut(b: bytes, i: nat, j: nat)
    requires i <= j <= |b|
    ensures b[i..][..j - i] == b[i..j] && b[..j] == b[..i] + b[i..j] && b[..j][i..] == b[i..j]
  {
  }

  /** All the pieces of a byte stream, joined. */
  function Join(parts: seq<bytes>): bytes {
    if parts == [] then [] else parts[0] + Join(parts[1..])
  }

  lemma {:induction false} JoinAppend(a: seq<bytes>, b: seq<bytes>)
    ensures Join(a + b) == Join(a) + Join(b)
  {
    if a == [] {
      assert a + b == b;
    } else {
      JoinAppend(a[1..], b);
      assert (a + b)[1..] == a[1..] + b;
      Concat(a[0], Join(a[1..]), Join(b));
    }
  }
}
