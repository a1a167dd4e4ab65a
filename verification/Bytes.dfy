/** Little-endian integers in byte buffers. */
module Bytes {
  import opened Basics

  const TWO32 := 0x1_0000_0000

  /** `n` in `width` bytes, least significant first. */
  function ToLe(n: nat, width: nat): (b: seq<Byte>)
    ensures |b| == width
  {
    if width == 0 then [] else [n % 256] + ToLe(n / 256, width - 1)
  }

  function FromLe(b: seq<Byte>): nat {
    if b == [] then 0 else b[0] + 256 * FromLe(b[1..])
  }

  function Pow256(k: nat): nat {
    if k == 0 then 1 else 256 * Pow256(k - 1)
  }

  lemma {:induction false} LeRoundTrip(n: nat, width: nat)
    requires n < Pow256(width)
    ensures FromLe(ToLe(n, width)) == n
    decreases width
  {
    if width > 0 {
      LeRoundTrip(n / 256, width - 1);
      assert ToLe(n, width)[1..] == ToLe(n / 256, width - 1);
    }
  }

  lemma Pow256Values()
    ensures Pow256(4) == TWO32
    ensures Pow256(8) == TWO32 * TWO32
  {
    assert Pow256(2) == 65536;
    assert Pow256(4) == 65536 * 65536;
    assert Pow256(6) == 65536 * 65536 * 65536;
  }

  /** The 32-bit word at offset `k`. */
  function Word(b: seq<Byte>, k: nat): nat
    requires k + 4 <= |b|
  {
    b[k] as int + 0x100 * b[k + 1] as int + 0x1_0000 * b[k + 2] as int + 0x100_0000 * b[k + 3] as int
  }

  lemma FromLeWord(b: seq<Byte>, k: nat)
    requires k + 4 <= |b|
    ensures FromLe(b[k..k + 4]) == Word(b, k)
  {
    var w := b[k..k + 4];
    assert w[1..][1..] == w[2..] && w[2..][1..] == w[3..] && w[3..][1..] == [];
    assert FromLe(w[3..]) == w[3];
    assert FromLe(w[2..]) == w[2] + 256 * FromLe(w[3..]);
    assert FromLe(w[1..]) == w[1] + 256 * FromLe(w[2..]);
  }

  lemma FromLeWords(b: seq<Byte>, k: nat)
    requires k + 8 <= |b|
    ensures FromLe(b[k..k + 8]) == Word(b, k) + TWO32 * Word(b, k + 4)
  {
    var w := b[k..k + 8];
    FromLeWord(b, k + 4);
    assert w[4..] == b[k + 4..k + 8];
    assert w[1..][1..] == w[2..] && w[2..][1..] == w[3..] && w[3..][1..] == w[4..];
    assert FromLe(w[3..]) == w[3] + 256 * FromLe(w[4..]);
    assert FromLe(w[2..]) == w[2] + 256 * FromLe(w[3..]);
    assert FromLe(w[1..]) == w[1] + 256 * FromLe(w[2..]);
  }
}
