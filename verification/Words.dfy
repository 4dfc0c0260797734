/** Little-endian words and remainders. */
module Words {
  function Power(n: nat): (r: nat)
    ensures r > 0
  {
    if n == 0 then 1 else 256 * Power(n - 1)
  }

  /** The low `width` bytes of a number, least first. */
  function LowBytes(u: nat, width: nat): (r: seq<int>)
    ensures |r| == width
  {
    if width == 0 then [] else [u % 256] + LowBytes(u / 256, width - 1)
  }

  /** The number some little-endian bytes spell. */
  function Number(bytes: seq<int>): int {
    if bytes == [] then 0 else bytes[0] + 256 * Number(bytes[1..])
  }

  lemma MultipleGrows(d: int, k: int)
    requires d > 0 && k > 0
    ensures d * k >= d
  {
  }

  lemma SmallMultipleIsZero(d: int, k: int)
    requires d > 0 && -d < d * k < d
    ensures k == 0
  {
    if k > 0 { MultipleGrows(d, k); }
    if k < 0 { MultipleGrows(d, -k); }
  }

  lemma Remainder(n: int, d: int, q: int, r: int)
    requires d > 0 && n == d * q + r && 0 <= r < d
    ensures n % d == r && n / d == q
  {
    assert d * (n / d - q) == r - n % d;
    SmallMultipleIsZero(d, n / d - q);
  }

  lemma RemainderSplits(u: nat, p: nat)
    requires p > 0
    ensures u % (256 * p) == u % 256 + 256 * (u / 256 % p)
  {
    var q, r := u / 256, u % 256;
    var a, b := q / p, q % p;
    assert q == p * a + b;
    assert 256 * q == 256 * (p * a) + 256 * b;
    assert 256 * (p * a) == (256 * p) * a;
    Remainder(u, 256 * p, a, r + 256 * b);
  }

  /** The low bytes of a number spell it modulo their width. */
  lemma {:induction false} LowBytesRoundTrip(u: nat, width: nat)
    ensures Number(LowBytes(u, width)) == u % Power(width)
  {
    if width > 0 {
      LowBytesRoundTrip(u / 256, width - 1);
      RemainderSplits(u, Power(width - 1));
      assert LowBytes(u, width)[1..] == LowBytes(u / 256, width - 1);
    }
  }
}
