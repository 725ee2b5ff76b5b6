/** Types and byte-level integer encodings shared by the models. */
module Prelude {

  datatype Option<+T> = None | Some(value: T)

  datatype Result<+T, +E> = Ok(value: T) | Err(error: E)

  const U32_MAX: nat := 0xFFFF_FFFF

  /** One octet. */
  type Byte = x: int | 0 <= x < 256

  /** 256 to the power `width`: the number of values `width` octets can hold. */
  function Pow256(width: nat): (p: nat)
    ensures p >= 1
  {
    if width == 0 then 1 else 256 * Pow256(width - 1)
  }

  /** Little-endian encoding of `n` in `width` octets; higher digits are cut off, as an `as u16` cast does. */
  function ToLe(n: nat, width: nat): (s: seq<Byte>)
    ensures |s| == width
  {
    if width == 0 then [] else [n % 256] + ToLe(n / 256, width - 1)
  }

  function FromLe(s: seq<Byte>): (n: nat) {
    if s == [] then 0 else s[0] + 256 * FromLe(s[1..])
  }

  /** Decoding recovers exactly the number modulo the width. */
  lemma {:induction false} LeRoundTrip(n: nat, width: nat)
    ensures FromLe(ToLe(n, width)) == n % Pow256(width)
  {
    if width > 0 {
      LeRoundTrip(n / 256, width - 1);
      assert ToLe(n, width)[1..] == ToLe(n / 256, width - 1);
      SplitMod(n, Pow256(width - 1));
    }
  }

  lemma SplitMod(n: nat, p: nat)
    requires p >= 1
    ensures n % (256 * p) == n % 256 + 256 * ((n / 256) % p)
  {
    var q, r := n / 256, n % 256;
    var a, b := q / p, q % p;
    assert n == 256 * q + r && q == p * a + b;
    assert n == (256 * p) * a + (256 * b + r) by {
      assert 256 * (p * a) == (256 * p) * a;
    }
    assert 0 <= 256 * b + r < 256 * p;
    DivModUnique(n, 256 * p, a, 256 * b + r);
  }

  lemma DivModUnique(n: int, m: int, a: int, r: int)
    requires 0 < m && n == m * a + r && 0 <= r < m
    ensures n % m == r && n / m == a
  {
    var k := a - n / m;
    assert m * (n / m) + n % m == n;
    assert m * k == m * a - m * (n / m);
    assert m * k == n % m - r;
    MulAtLeast(m, k);
    MulAtLeast(m, -k);
    assert m * -k == -(m * k);
  }

  /** Quotient and remainder of the next number. */
  lemma DivStep(n: nat, m: nat)
    requires m > 0
    ensures if n % m == m - 1 then (n + 1) / m == n / m + 1 && (n + 1) % m == 0
            else (n + 1) / m == n / m && (n + 1) % m == n % m + 1
  {
    var q, r := n / m, n % m;
    assert n == m * q + r;
    if r == m - 1 {
      assert n + 1 == m * (q + 1) + 0;
      DivModUnique(n + 1, m, q + 1, 0);
    } else {
      DivModUnique(n + 1, m, q, r + 1);
    }
  }

  lemma MulAtLeast(m: int, k: int)
    requires 0 < m
    ensures k >= 1 ==> m * k >= m
  {
  }

  lemma LeExact(n: nat, width: nat)
    requires n < Pow256(width)
    ensures FromLe(ToLe(n, width)) == n
  {
    LeRoundTrip(n, width);
  }

  /** Encoding recovers exactly the octets. */
  lemma {:induction false} ToLeFromLe(s: seq<Byte>)
    ensures ToLe(FromLe(s), |s|) == s
  {
    if s != [] {
      ToLeFromLe(s[1..]);
      assert FromLe(s) % 256 == s[0] && FromLe(s) / 256 == FromLe(s[1..]);
      assert s == [s[0]] + s[1..];
    }
  }

  /** The layout: octet `i` holds the digit of weight 256^i, the lowest first. */
  lemma {:induction false} LeDigits(n: nat, width: nat, i: nat)
    requires i < width
    ensures ToLe(n, width)[i] == (n / Pow256(i)) % 256
    decreases width
  {
    if i == 0 {
      assert Pow256(0) == 1;
    } else {
      LeDigits(n / 256, width - 1, i - 1);
      assert ToLe(n, width)[i] == ToLe(n / 256, width - 1)[i - 1];
      DivDiv(n, 256, Pow256(i - 1));
    }
  }

  lemma DivDiv(n: nat, a: nat, b: nat)
    requires a > 0 && b > 0
    ensures (n / a) / b == n / (a * b)
  {
    var q := (n / a) / b;
    var r := a * ((n / a) % b) + n % a;
    assert n / a == b * q + (n / a) % b;
    assert n == a * (n / a) + n % a == a * (b * q) + r;
    assert a * ((n / a) % b) <= a * (b - 1);
    assert a * (b * q) == (a * b) * q;
    DivModUnique(n, a * b, q, r);
  }

  /** Digits above the width make no difference. */
  lemma LeWraps(n: nat, width: nat)
    ensures ToLe(n, width) == ToLe(n % Pow256(width), width)
  {
    LeRoundTrip(n, width);
    ToLeFromLe(ToLe(n, width));
  }

  // ----- real powers and signs of real products -----

  function Power(base: real, n: nat): real { if n == 0 then 1.0 else base * Power(base, n - 1) }

  lemma ProductSign(a: real, b: real)
    requires a >= 0.0 && b >= 0.0
    ensures a * b >= 0.0 && (a > 0.0 && b > 0.0 ==> a * b > 0.0)
  {
  }

  lemma CancelFactor(x: real, y: real, c: real)
    requires c > 0.0
    ensures (x * c <= y * c ==> x <= y) && (x * c == y * c ==> x == y)
  {
    if x > y {
      ProductSign(x - y, c);
    } else if x < y {
      ProductSign(y - x, c);
    }
  }
}
