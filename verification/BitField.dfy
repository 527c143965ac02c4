/** The bit map of util::BitField: one bit a position, most significant bit first. */
module BitFields {

  /** offsetValue[i] */
  function Mask(i: int): bv8 {
    if i == 0 then 0x80 else if i == 1 then 0x40 else if i == 2 then 0x20 else if i == 3 then 0x10
    else if i == 4 then 0x08 else if i == 5 then 0x04 else if i == 6 then 0x02 else 0x01
  }

  function Bit(b: bv8, i: int): bool {
    b & Mask(i) != 0
  }

  /** Setting or clearing one bit of a byte is seen at that bit and at no other. */
  lemma OneBit(b: bv8, i: int, j: int)
    requires 0 <= i < 8 && 0 <= j < 8
    ensures Bit(b | Mask(i), j) <==> i == j || Bit(b, j)
    ensures Bit(b & !Mask(i), j) <==> i != j && Bit(b, j)
  {
  }

  class BitField {
    const size: nat
    const buffer: array<bv8>

    ghost predicate Valid()
      reads this, buffer
    {
      buffer.Length == (size + 7) / 8
    }

    predicate GetBit(pos: int)
      requires Valid() && 0 <= pos < size
      reads this, buffer
    {
      Bit(buffer[pos / 8], pos % 8)
    }

    /** The whole map, position by position. */
    ghost function Bits(): (bits: seq<bool>)
      requires Valid()
      reads this, buffer
      ensures |bits| == size
      ensures forall p :: 0 <= p < size ==> bits[p] == GetBit(p)
    {
      seq(size, p requires 0 <= p < size && Valid() reads this, buffer => GetBit(p))
    }

    constructor (size: nat)
      ensures Valid() && this.size == size && fresh(buffer)
      ensures forall p :: 0 <= p < size ==> !Bits()[p]
    {
      this.size := size;
      this.buffer := new bv8[(size + 7) / 8](_ => 0);
    }

    method SetBit(pos: int)
      requires Valid() && 0 <= pos < size
      modifies buffer
      ensures Valid() && Bits() == old(Bits())[pos := true]
    {
      hide Mask, Bit;
      ghost var bits := Bits();
      var was := buffer[pos / 8];
      buffer[pos / 8] := was | Mask(pos % 8);
      forall p | 0 <= p < size ensures Bits()[p] == (p == pos || bits[p]) {
        OneBit(was, pos % 8, p % 8);
      }
    }

    method ResetBit(pos: int)
      requires Valid() && 0 <= pos < size
      modifies buffer
      ensures Valid() && Bits() == old(Bits())[pos := false]
    {
      hide Mask, Bit;
      ghost var bits := Bits();
      var was := buffer[pos / 8];
      buffer[pos / 8] := was & !Mask(pos % 8);
      forall p | 0 <= p < size ensures Bits()[p] == (p != pos && bits[p]) {
        OneBit(was, pos % 8, p % 8);
      }
    }
  }
}
