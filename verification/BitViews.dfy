// Bit views: a window of single bits onto a byte array, starting anywhere in a
// byte.
module BitViews {
  import opened Ast

  // Index arithmetic is done in 32 bits.
  function Add32(a: nat, b: nat): nat { (a + b) % 0x1_0000_0000 }

  function BitOf(byte: bv8, k: nat): bool
    requires k < 8
  {
    (byte >> k) & 1 == 1
  }

  // The byte with bit `k` replaced: cleared through the inverted mask, then set.
  function WithBit(byte: bv8, k: nat, v: bool): bv8
    requires k < 8
  {
    var mask: bv8 := 1 << k;
    (byte & (mask ^ 0xFF)) | ((if v then 1 else 0) << k)
  }

  function MaskOf(k: nat): bv8
    requires k < 8
  {
    if k == 0 then 1 else if k == 1 then 2 else if k == 2 then 4 else if k == 3 then 8
    else if k == 4 then 16 else if k == 5 then 32 else if k == 6 then 64 else 128
  }

  // Shifting is masking.
  lemma ShiftIsMask(byte: bv8, k: nat, v: bool)
    requires k < 8
    ensures BitOf(byte, k) <==> byte & MaskOf(k) != 0
    ensures WithBit(byte, k, v) == (byte & (MaskOf(k) ^ 0xFF)) | (if v then MaskOf(k) else 0)
  {
    if k < 4 {
      if k < 2 { assert k == 0 || k == 1; } else { assert k == 2 || k == 3; }
    } else {
      if k < 6 { assert k == 4 || k == 5; } else { assert k == 6 || k == 7; }
    }
  }

  lemma MasksApart(k: nat, j: nat)
    requires k < 8 && j < 8
    ensures if k == j then MaskOf(k) & MaskOf(j) == MaskOf(k) && MaskOf(k) != 0 else MaskOf(k) & MaskOf(j) == 0
  {}

  lemma MaskedWrite(byte: bv8, a: bv8, c: bv8, v: bool)
    ensures a & c == 0 ==> ((byte & (a ^ 0xFF)) | (if v then a else 0)) & c == byte & c
    ensures ((byte & (a ^ 0xFF)) | (if v then a else 0)) & a == if v then a else 0
  {}

  lemma WithBitIs(byte: bv8, k: nat, v: bool, j: nat)
    requires k < 8 && j < 8
    ensures BitOf(WithBit(byte, k, v), j) == if j == k then v else BitOf(byte, j)
  {
    ShiftIsMask(byte, k, v);
    ShiftIsMask(byte, j, v);
    ShiftIsMask(WithBit(byte, k, v), j, v);
    MasksApart(k, j);
    MasksApart(k, k);
    MaskedWrite(byte, MaskOf(k), MaskOf(j), v);
  }

  // The bits of a byte array, lowest bit of the first byte first.
  function BitsOf(bytes: seq<bv8>): (r: seq<bool>)
    ensures |r| == 8 * |bytes|
  {
    seq(8 * |bytes|, j requires 0 <= j < 8 * |bytes| => BitOf(bytes[j / 8], j % 8))
  }

  // One byte replaced with one of its bits changed changes one bit of the whole.
  lemma OneBit(bytes: seq<bv8>, j: nat, v: bool)
    requires j < 8 * |bytes|
    ensures BitsOf(bytes[j / 8 := WithBit(bytes[j / 8], j % 8, v)]) == BitsOf(bytes)[j := v]
  {
    var after := bytes[j / 8 := WithBit(bytes[j / 8], j % 8, v)];
    forall m | 0 <= m < 8 * |bytes| ensures BitsOf(after)[m] == BitsOf(bytes)[j := v][m] {
      WithBitIs(bytes[j / 8], j % 8, v, m % 8);
      if m / 8 == j / 8 && m % 8 == j % 8 { assert m == j; }
    }
  }

  // What a run of writes makes of a window.
  function Written(window: seq<bool>, writes: seq<(nat, bool)>): (r: seq<bool>)
    requires forall w <- writes :: w.0 < |window|
    ensures |r| == |window|
  {
    if writes == [] then window
    else
      var last := writes[|writes| - 1];
      Written(window, writes[..|writes| - 1])[last.0 := last.1]
  }

  function LastWrite(writes: seq<(nat, bool)>, i: nat): Option<bool> {
    if writes == [] then None
    else
      var last := writes[|writes| - 1];
      if last.0 == i then Some(last.1) else LastWrite(writes[..|writes| - 1], i)
  }

  // Every bit reads as it was last written, or as it was before.
  lemma {:induction false} LastWriteWins(window: seq<bool>, writes: seq<(nat, bool)>, i: nat)
    requires i < |window| && forall w <- writes :: w.0 < |window|
    ensures Written(window, writes)[i] == match LastWrite(writes, i) case None => window[i] case Some(v) => v
    decreases writes
  {
    if writes != [] { LastWriteWins(window, writes[..|writes| - 1], i); }
  }

  class BitView {
    const data: array<bv8>
    const off: nat
    const len: nat

    constructor (data: array<bv8>, off: nat, len: nat)
      ensures this.data == data && this.off == off && this.len == len
    {
      this.data, this.off, this.len := data, off, len;
    }

    // The window lies in the array, and its end within the 32-bit bit index.
    predicate Fits() { off + len <= 8 * data.Length && off + len <= 0x1_0000_0000 }

    ghost function Bits(): seq<bool>
      reads data
    {
      BitsOf(data[..])
    }

    ghost function Window(): seq<bool>
      requires Fits()
      reads data
    {
      Bits()[off..off + len]
    }

    method Read(i: nat) returns (v: bool)
      requires Fits() && i < len
      ensures v == Window()[i]
    {
      var bit := Add32(off, i);
      var byte := data[bit / 8];
      v := BitOf(byte, bit % 8);
      assert bit == off + i && data[..][bit / 8] == byte;
      assert Bits()[bit] == BitOf(data[..][bit / 8], bit % 8);
      assert Window()[i] == Bits()[off + i];
    }

    // A read-modify-write of one byte: one bit changes, in the window and in
    // the whole array.
    method Write(i: nat, v: bool)
      requires Fits() && i < len
      modifies data
      ensures Bits() == old(Bits())[off + i := v]
      ensures Window() == old(Window())[i := v]
    {
      var bit := Add32(off, i);
      var byte := data[bit / 8];
      ghost var before := Bits();
      OneBit(data[..], bit, v);
      var changed := WithBit(byte, bit % 8, v);
      data[bit / 8] := changed;
      assert data[..] == old(data[..])[bit / 8 := changed];
      assert Bits() == before[off + i := v];
      InWindow(before, off, len, i, v);
    }

    // A run of writes: the window ends up as the writes say, and every bit
    // outside it, in the same bytes or not, is untouched.
    method WriteAll(writes: seq<(nat, bool)>)
      requires Fits() && forall w <- writes :: w.0 < len
      modifies data
      ensures Window() == Written(old(Window()), writes)
      ensures Bits()[..off] == old(Bits())[..off] && Bits()[off + len..] == old(Bits())[off + len..]
    {
      assert writes[..0] == [];
      for n := 0 to |writes|
        invariant Window() == Written(old(Window()), writes[..n])
        invariant Bits()[..off] == old(Bits())[..off] && Bits()[off + len..] == old(Bits())[off + len..]
      {
        assert writes[n] in writes;
        ghost var before := Bits();
        Write(writes[n].0, writes[n].1);
        Outside(before, off, len, writes[n].0, writes[n].1);
        assert writes[..n + 1][..n] == writes[..n];
      }
      assert writes[..|writes|] == writes;
    }
  }

  lemma InWindow(bits: seq<bool>, off: nat, len: nat, i: nat, v: bool)
    requires off + len <= |bits| && i < len
    ensures bits[off + i := v][off..off + len] == bits[off..off + len][i := v]
  {}

  lemma Outside(bits: seq<bool>, off: nat, len: nat, i: nat, v: bool)
    requires off + len <= |bits| && i < len
    ensures bits[off + i := v][..off] == bits[..off] && bits[off + i := v][off + len..] == bits[off + len..]
  {}
}
