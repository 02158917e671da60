/** Fixed-width arithmetic: powers of two, wrapping, and two's complement. */
module Arithmetic {

  function Pow2(n: nat): (r: nat)
    ensures r > 0
  {
    if n == 0 then 1 else 2 * Pow2(n - 1)
  }

  lemma {:induction false} Pow2Adds(m: nat, n: nat)
    ensures Pow2(m + n) == Pow2(m) * Pow2(n)
  {
    if m > 0 { Pow2Adds(m - 1, n); }
  }

  /** An integer has one quotient and one remainder. */
  lemma DivisionIsUnique(x: int, m: int, q: int, r: int)
    requires m > 0 && x == q * m + r && 0 <= r < m
    ensures x % m == r
  {
    var q', r' := x / m, x % m;
    assert x == q' * m + r';
    assert (q - q') * m == r' - r;
    assert q - q' >= 1 ==> (q - q') * m >= m;
    assert q - q' <= -1 ==> (q - q') * m <= -m;
  }

  lemma ModDropsMultiples(x: int, k: int, m: int)
    requires m > 0
    ensures (x + k * m) % m == x % m
  {
    assert x + k * m == (x / m + k) * m + x % m;
    DivisionIsUnique(x + k * m, m, x / m + k, x % m);
  }

  lemma ModAdds(x: int, y: int, m: int)
    requires m > 0
    ensures (x % m + y) % m == (x + y) % m
  {
    assert x + y == (x % m + y) + (x / m) * m;
    ModDropsMultiples(x % m + y, x / m, m);
  }

  /** The unsigned bit pattern a register of `sizeBytes` holds; eight bytes when the
    operand was not sized. */
  function WrapToWidth(value: int, sizeBytes: int): (r: int)
    ensures 0 <= r
  {
    value % Pow2(8 * WidthOf(sizeBytes))
  }

  function WidthOf(sizeBytes: int): nat { if 0 < sizeBytes <= 8 then sizeBytes else 8 }

  function SignExtend(value: int, bits: nat): int
    requires bits > 0
  {
    var low := value % Pow2(bits);
    if low >= Pow2(bits - 1) then low - Pow2(bits) else low
  }

  /** Untouched when the operand was not sized. */
  function UnsignedOfWidth(value: int, sizeBytes: int): int {
    if 0 < sizeBytes <= 8 then value % Pow2(8 * sizeBytes) else value
  }
}
