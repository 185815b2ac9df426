/** Bytes, and unsigned integers as little-endian runs of them. */
module LittleEndian {

  type Byte = x: int | 0 <= x < 256

  function Size(n: nat): (p: int)
    ensures p >= 1
  {
    if n == 0 then 1 else 256 * Size(n - 1)
  }

  function Le(v: nat, n: nat): (b: seq<Byte>)
    ensures |b| == n
  {
    if n == 0 then [] else [v % 256] + Le(v / 256, n - 1)
  }

  function FromLe(b: seq<Byte>): (v: nat)
    ensures v < Size(|b|)
  {
    if b == [] then 0 else b[0] + 256 * FromLe(b[1..])
  }

  lemma {:induction false} LeReads(v: nat, n: nat)
    requires v < Size(n)
    ensures FromLe(Le(v, n)) == v
    decreases n
  {
    if n > 0 {
      LeReads(v / 256, n - 1);
      assert Le(v, n)[1..] == Le(v / 256, n - 1);
    }
  }

  lemma LowByte(low: Byte, rest: nat)
    ensures (low + 256 * rest) % 256 == low && (low + 256 * rest) / 256 == rest
  {
  }

  lemma {:induction false} LeWrites(b: seq<Byte>)
    ensures Le(FromLe(b), |b|) == b
    decreases |b|
  {
    if b != [] {
      LeWrites(b[1..]);
      LowByte(b[0], FromLe(b[1..]));
      assert b == [b[0]] + b[1..];
    }
  }

  lemma Sizes()
    ensures Size(2) == 0x1_0000 && Size(4) == 0x1_0000_0000 && Size(8) == 0x1_0000_0000_0000_0000
  {
    assert Size(1) == 256 && Size(2) == 0x1_0000 && Size(3) == 0x100_0000 && Size(4) == 0x1_0000_0000;
    assert Size(5) == 0x100_0000_0000 && Size(6) == 0x1_0000_0000_0000 && Size(7) == 0x100_0000_0000_0000;
  }
}
