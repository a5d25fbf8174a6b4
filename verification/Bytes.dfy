/** Bytes, optional values and little-endian numbers: what both ends of the wire share. */
module Bytes {

  type byte = x: int | 0 <= x < 256

  type Word = n: nat | n < 0x1_0000_0000

  type LongWord = n: nat | n < 0x1_0000_0000_0000_0000

  datatype Option<+T> = None | Some(value: T) {
    predicate IsFailure() { None? }

    function PropagateFailure<U>(): Option<U>
      requires None?
    {
      None
    }

    function Extract(): T
      requires Some?
    {
      value
    }
  }

  /** 256 to the power `width`: the number of values that fit in `width` bytes. */
  function Capacity(width: nat): (n: nat)
    ensures n > 0
  {
    if width == 0 then 1 else 256 * Capacity(width - 1)
  }

  lemma {:induction false} CapacityOfWords()
    ensures Capacity(1) == 0x100
    ensures Capacity(2) == 0x1_0000
    ensures Capacity(4) == 0x1_0000_0000
    ensures Capacity(8) == 0x1_0000_0000_0000_0000
  {
    assert Capacity(3) == 256 * Capacity(2);
    assert Capacity(5) == 256 * Capacity(4);
    assert Capacity(7) == 256 * Capacity(6) == 256 * 256 * Capacity(5);
  }

  /** The low `width` bytes of `n`, least significant first. */
  function LittleEndian(n: nat, width: nat): (bs: seq<byte>)
    ensures |bs| == width
    decreases width
  {
    if width == 0 then [] else [n % 256] + LittleEndian(n / 256, width - 1)
  }

  function FromLittleEndian(bs: seq<byte>): nat {
    if bs == [] then 0 else bs[0] + 256 * FromLittleEndian(bs[1..])
  }

  /** Reading back a number that fits gives the number. */
  lemma {:induction false} ReadsBack(n: nat, width: nat)
    requires n < Capacity(width)
    ensures FromLittleEndian(LittleEndian(n, width)) == n
    decreases width
  {
    if width > 0 {
      ReadsBack(n / 256, width - 1);
      assert LittleEndian(n, width)[1..] == LittleEndian(n / 256, width - 1);
    }
  }

  /** Every byte string is the little-endian form of exactly the number it reads as. */
  lemma {:induction false} WritesBack(bs: seq<byte>)
    ensures FromLittleEndian(bs) < Capacity(|bs|)
    ensures LittleEndian(FromLittleEndian(bs), |bs|) == bs
  {
    if bs != [] {
      WritesBack(bs[1..]);
      Digits(bs[0], FromLittleEndian(bs[1..]));
    }
  }

  lemma {:induction false} Digits(low: byte, rest: nat)
    ensures (low + 256 * rest) % 256 == low && (low + 256 * rest) / 256 == rest
  {
  }
}
