/** The byte-addressable memory of the in-memory port, and the integers read from it. */
module MemoryImage {
  import opened Values
  import opened Arithmetic

  type Byte = b: int | 0 <= b < 256

  type Image = map<int, Byte>

  /** Every one of the `size` bytes from `addr` on is there. */
  ghost predicate AllThere(memory: Image, addr: int, size: int) { forall a :: addr <= a < addr + size ==> a in memory }

  function BytesAt(memory: Image, addr: int, size: int): (r: Option<seq<Byte>>)
    ensures r.Some? <==> AllThere(memory, addr, size)
    ensures r.Some? ==> |r.value| == (if size > 0 then size else 0)
    ensures r.Some? ==> forall i :: 0 <= i < |r.value| ==> addr + i in memory && r.value[i] == memory[addr + i]
    decreases if size > 0 then size else 0
  {
    if size <= 0 then Some([])
    else
      var front, last := BytesAt(memory, addr, size - 1), addr + size - 1;
      if front.None? || last !in memory then None else Some(front.value + [memory[last]])
  }

  /** `read_bytes`: the bytes from `addr` on, or nothing if one of them is missing. */
  method ReadBytes(memory: Image, addr: int, size: int) returns (bytes: Option<seq<Byte>>)
    ensures bytes.Some? <==> AllThere(memory, addr, size)
    ensures bytes == BytesAt(memory, addr, size)
  {
    var out: seq<Byte> := [];
    while |out| < size
      invariant |out| <= (if size > 0 then size else 0)
      invariant BytesAt(memory, addr, |out|) == Some(out)
    {
      var a := addr + |out|;
      if a !in memory {
        return None;
      }
      out := out + [memory[a]];
    }
    bytes := Some(out);
  }

  /** `int.from_bytes`, little-endian and unsigned. */
  function FromBytes(bytes: seq<Byte>): nat {
    if bytes == [] then 0 else bytes[0] + 256 * FromBytes(bytes[1..])
  }

  function ReadInt(memory: Image, addr: int, size: int): Option<int> {
    match BytesAt(memory, addr, size)
    case None => None
    case Some(bytes) => Some(FromBytes(bytes))
  }

  /** The `i`-th byte of the number, from the least significant. */
  function ByteOf(n: int, i: nat): int { (n / Pow2(8 * i)) % 256 }

  /** The number is the one whose bytes, from the least significant, those are. */
  lemma {:induction false} NumberHasTheBytes(bytes: seq<Byte>)
    ensures 0 <= FromBytes(bytes) < Pow2(8 * |bytes|)
    ensures forall i :: 0 <= i < |bytes| ==> ByteOf(FromBytes(bytes), i) == bytes[i]
  {
    if bytes == [] {
      assert Pow2(0) == 1;
    } else {
      var n, rest := FromBytes(bytes), FromBytes(bytes[1..]);
      NumberHasTheBytes(bytes[1..]);
      Pow2Adds(8, 8 * (|bytes| - 1));
      assert Pow2(8) == 256;
      forall i | 0 <= i < |bytes| ensures ByteOf(n, i) == bytes[i] {
        if i == 0 {
          assert Pow2(0) == 1;
          DivisionIsUnique(n, 256, rest, bytes[0]);
        } else {
          assert bytes[i] == bytes[1..][i - 1];
          ByteFurtherUp(bytes[0], rest, i - 1);
        }
      }
    }
  }

  lemma ByteFurtherUp(low: Byte, rest: nat, i: nat)
    ensures ByteOf(low + 256 * rest, i + 1) == ByteOf(rest, i)
  {
    Pow2Adds(8, 8 * i);
    assert Pow2(8) == 256;
    hide Pow2;
    var p := Pow2(8 * i);
    var q, r := rest / p, rest % p;
    assert rest == q * p + r;
    assert low + 256 * rest == q * (256 * p) + (256 * r + low);
    assert 256 * r + low < 256 * p;
    QuotientIsUnique(low + 256 * rest, 256 * p, q, 256 * r + low);
  }

  lemma QuotientIsUnique(x: int, m: int, q: int, r: int)
    requires m > 0 && x == q * m + r && 0 <= r < m
    ensures x / m == q
  {
    DivisionIsUnique(x, m, q, r);
    assert x == (x / m) * m + x % m;
    assert (x / m - q) * m == 0;
  }

  /** The number `n` is what the `size` bytes at `addr` spell, the least significant first. */
  ghost predicate Spells(memory: Image, addr: int, size: int, n: int) {
    && AllThere(memory, addr, size) && 0 <= n < Pow2(8 * (if size > 0 then size else 0))
    && forall i :: 0 <= i < size ==> ByteOf(n, i) == memory[addr + i]
  }

  /** An integer is read exactly when all its bytes are there, and its bytes are those. */
  lemma ReadIntSpells(memory: Image, addr: int, size: int)
    ensures ReadInt(memory, addr, size).Some? <==> AllThere(memory, addr, size)
    ensures AllThere(memory, addr, size) ==> Spells(memory, addr, size, ReadInt(memory, addr, size).value)
  {
    if AllThere(memory, addr, size) { NumberHasTheBytes(BytesAt(memory, addr, size).value); }
  }
}
