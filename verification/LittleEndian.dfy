/** Little-endian integers over bytes, shared by both wire formats. */
module LittleEndian {

  type byte = x: int | 0 <= x < 256

  /** 256 to the power n. */
  function Pow(n: nat): (p: nat)
    ensures p > 0
  {
    if n == 0 then 1 else 256 * Pow(n - 1)
  }

  function FromLe(b: seq<byte>): nat {
    if |b| == 0 then 0 else b[0] + 256 * FromLe(b[1..])
  }

  function ToLe(x: nat, n: nat): (b: seq<byte>)
    ensures |b| == n
  {
    if n == 0 then [] else [x % 256] + ToLe(x / 256, n - 1)
  }

  lemma {:induction false} FromLeBound(b: seq<byte>)
    ensures FromLe(b) < Pow(|b|)
  {
    if |b| != 0 { FromLeBound(b[1..]); }
  }

  /** Encoding what was decoded gives the bytes back. */
  lemma {:induction false} EncodeDecoded(b: seq<byte>)
    ensures ToLe(FromLe(b), |b|) == b
  {
    if |b| != 0 {
      EncodeDecoded(b[1..]);
      assert b == [b[0]] + b[1..];
    }
  }

  /** Decoding what was encoded gives the value modulo the width. */
  lemma {:induction false} DecodeEncoded(x: nat, n: nat)
    ensures FromLe(ToLe(x, n)) == x % Pow(n)
  {
    if n != 0 {
      var rest := ToLe(x / 256, n - 1);
      DecodeEncoded(x / 256, n - 1);
      assert ToLe(x, n)[1..] == rest;
      ModSplit(x, Pow(n - 1));
    }
  }

  lemma ModSplit(x: nat, m: nat)
    requires m > 0
    ensures x % (256 * m) == x % 256 + 256 * ((x / 256) % m)
  {
    var q, r := (x / 256) / m, (x / 256) % m;
    assert x / 256 == q * m + r;
    assert x == 256 * (q * m + r) + x % 256;
    assert x == q * (256 * m) + (x % 256 + 256 * r) by {
      assert 256 * (q * m) == q * (256 * m);
    }
    Remainder(x, 256 * m, q, x % 256 + 256 * r);
  }

  lemma Remainder(x: int, m: int, q: int, r: int)
    requires m > 0 && 0 <= r < m && x == q * m + r
    ensures x % m == r
  {
    var d := x / m - q;
    assert x == (x / m) * m + x % m;
    assert d * m == r - x % m by { assert (x / m) * m - q * m == d * m; }
    assert -m < d * m < m;
  }

  /** The most significant byte comes last. */
  lemma {:induction false} FromLeAppend(b: seq<byte>, x: byte)
    ensures FromLe(b + [x]) == FromLe(b) + x * Pow(|b|)
    decreases |b|
  {
    if |b| == 0 {
      assert b + [x] == [x] && [x][1..] == [];
      assert FromLe([x]) == x;
    } else {
      assert (b + [x])[1..] == b[1..] + [x];
      FromLeAppend(b[1..], x);
      assert 256 * (x * Pow(|b| - 1)) == x * Pow(|b|);
    }
  }

  lemma {:induction false} ToLeByte(x: nat, n: nat, i: nat)
    requires i < n
    ensures ToLe(x, n)[i] == (x / Pow(i)) % 256
    decreases i
  {
    if i == 0 {
      assert x / 1 == x;
    } else {
      ToLeByte(x / 256, n - 1, i - 1);
      DivDiv(x, Pow(i - 1));
    }
  }

  lemma DivDiv(x: nat, m: nat)
    requires m > 0
    ensures (x / 256) / m == x / (256 * m)
  {
    var q, r := (x / 256) / m, (x / 256) % m;
    assert x / 256 == q * m + r;
    assert x == q * (256 * m) + (256 * r + x % 256) by {
      assert x == 256 * (q * m + r) + x % 256;
      assert 256 * (q * m) == q * (256 * m);
    }
    Remainder(x, 256 * m, q, 256 * r + x % 256);
    assert x == (x / (256 * m)) * (256 * m) + x % (256 * m);
    assert (x / (256 * m)) * (256 * m) == q * (256 * m);
    CancelFactor(x / (256 * m), q, 256 * m);
  }

  lemma CancelFactor(a: int, b: int, m: int)
    requires m > 0 && a * m == b * m
    ensures a == b
  {
    assert (a - b) * m == 0;
  }
}
