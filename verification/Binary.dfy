/**
  Little-endian integers and Solana's compact-u16, as src/utils/binary.ts reads them.

  The readers are written with the bitwise operators of the source. Their postconditions are
  arithmetic: a base-256 sum, and a base-128 number read only when all of its bytes are there.
  The encoders are the printers that these readers undo.
 */
module Binary {
  import opened Wrappers
  import opened Bits

  type byte = x: nat | x < 0x100

  /** A read past the end yields JavaScript's undefined, which the bit operators turn into 0. */
  function ByteAt(buffer: seq<byte>, offset: nat): byte {
    if offset < |buffer| then buffer[offset] else 0
  }

  /** The bytes of part stand in buffer at offset. */
  predicate HasAt(buffer: seq<byte>, offset: nat, part: seq<byte>) {
    offset + |part| <= |buffer| && buffer[offset..offset + |part|] == part
  }

  lemma HasAtIndex(buffer: seq<byte>, offset: nat, part: seq<byte>)
    requires HasAt(buffer, offset, part)
    ensures forall i :: 0 <= i < |part| ==> buffer[offset + i] == part[i]
  {
    forall i | 0 <= i < |part|
      ensures buffer[offset + i] == part[i]
    {
      assert buffer[offset..offset + |part|][i] == buffer[offset + i];
    }
  }

  lemma HasAtSplit(buffer: seq<byte>, offset: nat, first: seq<byte>, second: seq<byte>)
    ensures HasAt(buffer, offset, first + second)
       <==> HasAt(buffer, offset, first) && HasAt(buffer, offset + |first|, second)
    ensures HasAt(buffer, offset, first + second) ==> offset + |first| + |second| <= |buffer|
  {
    var middle, end := offset + |first|, offset + |first| + |second|;
    if end <= |buffer| {
      assert buffer[offset..end] == buffer[offset..middle] + buffer[middle..end];
      assert (first + second)[..|first|] == first && (first + second)[|first|..] == second;
    }
  }

  //
  // Fixed-width little-endian integers
  //

  /** The base-256 value of the width bytes from offset on, with 0 for missing bytes. */
  function LittleEndianAt(buffer: seq<byte>, offset: nat, width: nat): nat
    decreases width
  {
    if width == 0 then 0
    else ByteAt(buffer, offset) + 0x100 * LittleEndianAt(buffer, offset + 1, width - 1)
  }

  function ReadU32(buffer: seq<byte>, offset: nat): (value: nat)
    ensures value == LittleEndianAt(buffer, offset, 4)
    ensures value < 0x1_0000_0000
  {
    JoinFourBytes(ByteAt(buffer, offset), ByteAt(buffer, offset + 1),
                  ByteAt(buffer, offset + 2), ByteAt(buffer, offset + 3));
    UnfoldFourBytes(buffer, offset, 0);
    Or(Or(Or(ByteAt(buffer, offset),
             ShiftLeft(ByteAt(buffer, offset + 1), 8)),
          ShiftLeft(ByteAt(buffer, offset + 2), 16)),
       ShiftLeft(ByteAt(buffer, offset + 3), 24))
  }

  function ReadU64(buffer: seq<byte>, offset: nat): (value: nat)
    ensures value == LittleEndianAt(buffer, offset, 8)
    ensures value < 0x1_0000_0000_0000_0000
  {
    var low := ReadU32(buffer, offset);
    var high := ReadU32(buffer, offset + 4);
    SmallPowers();
    OrOfDisjoint(low, high, 32);
    UnfoldFourBytes(buffer, offset, 4);
    Or(low, ShiftLeft(high, 32))
  }

  lemma JoinFourBytes(b0: byte, b1: byte, b2: byte, b3: byte)
    ensures Or(Or(Or(b0, ShiftLeft(b1, 8)), ShiftLeft(b2, 16)), ShiftLeft(b3, 24))
         == b0 + 0x100 * b1 + 0x1_0000 * b2 + 0x100_0000 * b3
  {
    hide Or, Power2;
    SmallPowers();
    OrOfDisjoint(b0, b1, 8);
    OrOfDisjoint(b0 + 0x100 * b1, b2, 16);
    OrOfDisjoint(b0 + 0x100 * b1 + 0x1_0000 * b2, b3, 24);
  }

  lemma UnfoldFourBytes(buffer: seq<byte>, offset: nat, more: nat)
    ensures LittleEndianAt(buffer, offset, 4 + more)
         == ByteAt(buffer, offset) + 0x100 * ByteAt(buffer, offset + 1)
          + 0x1_0000 * ByteAt(buffer, offset + 2) + 0x100_0000 * ByteAt(buffer, offset + 3)
          + 0x1_0000_0000 * LittleEndianAt(buffer, offset + 4, more)
  {
    assert LittleEndianAt(buffer, offset + 3, 1 + more)
        == ByteAt(buffer, offset + 3) + 0x100 * LittleEndianAt(buffer, offset + 4, more);
    assert LittleEndianAt(buffer, offset + 2, 2 + more)
        == ByteAt(buffer, offset + 2) + 0x100 * LittleEndianAt(buffer, offset + 3, 1 + more);
    assert LittleEndianAt(buffer, offset + 1, 3 + more)
        == ByteAt(buffer, offset + 1) + 0x100 * LittleEndianAt(buffer, offset + 2, 2 + more);
  }

  function Power256(width: nat): nat {
    if width == 0 then 1 else 0x100 * Power256(width - 1)
  }

  /** The little-endian encoding of value in width bytes. */
  function LittleEndianBytes(value: nat, width: nat): (bytes: seq<byte>)
    ensures |bytes| == width
    decreases width
  {
    if width == 0 then []
    else [value % 0x100] + LittleEndianBytes(value / 0x100, width - 1)
  }

  function U64Bytes(value: nat): (bytes: seq<byte>)
    ensures |bytes| == 8
  {
    LittleEndianBytes(value, 8)
  }

  /** Reading undoes printing. */
  lemma {:induction false} LittleEndianRoundTrip(buffer: seq<byte>, offset: nat, value: nat, width: nat)
    requires value < Power256(width) && HasAt(buffer, offset, LittleEndianBytes(value, width))
    ensures LittleEndianAt(buffer, offset, width) == value
    decreases width
  {
    if width > 0 {
      HasAtSplit(buffer, offset, [value % 0x100], LittleEndianBytes(value / 0x100, width - 1));
      HasAtIndex(buffer, offset, [value % 0x100]);
      assert buffer[offset + 0] == value % 0x100;
      LittleEndianRoundTrip(buffer, offset + 1, value / 0x100, width - 1);
    }
  }

  lemma FirstDigit(digit: byte, more: nat)
    ensures (digit + 0x100 * more) % 0x100 == digit && (digit + 0x100 * more) / 0x100 == more
  {
  }

  /** Printing undoes reading, wherever the bytes are present. */
  lemma {:induction false} LittleEndianReprint(buffer: seq<byte>, offset: nat, width: nat)
    requires offset + width <= |buffer|
    ensures LittleEndianBytes(LittleEndianAt(buffer, offset, width), width) == buffer[offset..offset + width]
    decreases width
  {
    if width > 0 {
      LittleEndianReprint(buffer, offset + 1, width - 1);
      FirstDigit(buffer[offset], LittleEndianAt(buffer, offset + 1, width - 1));
      assert buffer[offset..offset + width] == [buffer[offset]] + buffer[offset + 1..offset + width];
    }
  }

  lemma U64RoundTrip(buffer: seq<byte>, offset: nat, value: nat)
    requires value < 0x1_0000_0000_0000_0000 && HasAt(buffer, offset, U64Bytes(value))
    ensures ReadU64(buffer, offset) == value
  {
    assert Power256(8) == 0x1_0000_0000_0000_0000 by {
      assert Power256(2) == 0x1_0000;
      assert Power256(4) == 0x1_0000 * Power256(2);
      assert Power256(6) == 0x1_0000 * Power256(4);
    }
    LittleEndianRoundTrip(buffer, offset, value, 8);
  }

  //
  // Compact-u16
  //

  /**
    The strict reading: the value and its length in bytes, or None when a byte that the
    continuation bits call for is missing.
   */
  function CompactAt(buffer: seq<byte>, offset: nat): Option<(nat, nat)> {
    if offset >= |buffer| then None
    else
      var byte1: nat := buffer[offset];
      if byte1 < 0x80 then Some((byte1, 1))
      else if offset + 1 >= |buffer| then None
      else
        var byte2: nat := buffer[offset + 1];
        if byte2 < 0x80 then Some((byte1 - 0x80 + 0x80 * byte2, 2))
        else if offset + 2 >= |buffer| then None
        else
          var byte3: nat := buffer[offset + 2];
          Some((byte1 - 0x80 + 0x80 * (byte2 - 0x80) + 0x4000 * byte3, 3))
  }

  /** The lax reading: a short read is not an error but an empty count of length 0. */
  function CompactOrEmpty(buffer: seq<byte>, offset: nat): (nat, nat) {
    var strict := CompactAt(buffer, offset);
    if strict.Some? then strict.value else (0, 0)
  }

  /** The source's reader returns the value and the bytes consumed, laxly. */
  function ReadCompactU16(buffer: seq<byte>, offset: nat): (r: (nat, nat))
    ensures r == CompactOrEmpty(buffer, offset)
  {
    if offset >= |buffer| then (0, 0)
    else
      var byte1 := buffer[offset];
      if byte1 < 0x80 then (byte1, 1)
      else if offset + 1 >= |buffer| then (0, 0)
      else
        var byte2 := buffer[offset + 1];
        if byte2 < 0x80 then (JoinTwoGroups(byte1, byte2), 2)
        else if offset + 2 >= |buffer| then (0, 0)
        else (JoinThreeGroups(byte1, byte2, buffer[offset + 2]), 3)
  }

  function JoinTwoGroups(byte1: nat, byte2: nat): (value: nat)
    requires 0x80 <= byte1 < 0x100 && byte2 < 0x80
    ensures value == byte1 - 0x80 + 0x80 * byte2
  {
    DropContinuationBit(byte1);
    JoinSevenBitGroups(byte1 - 0x80, byte2, 0);
    Or(And(byte1, 0x7f), ShiftLeft(byte2, 7))
  }

  function JoinThreeGroups(byte1: nat, byte2: nat, byte3: nat): (value: nat)
    requires 0x80 <= byte1 < 0x100 && 0x80 <= byte2 < 0x100
    ensures value == byte1 - 0x80 + 0x80 * (byte2 - 0x80) + 0x4000 * byte3
  {
    DropContinuationBit(byte1);
    DropContinuationBit(byte2);
    JoinSevenBitGroups(byte1 - 0x80, byte2 - 0x80, byte3);
    Or(Or(And(byte1, 0x7f), ShiftLeft(And(byte2, 0x7f), 7)), ShiftLeft(byte3, 14))
  }

  lemma DropContinuationBit(b: nat)
    requires 0x80 <= b < 0x100
    ensures And(b, 0x7f) == b - 0x80
  {
    SmallPowers();
    AndOfMask(1, b - 0x80, 7);
  }

  lemma JoinSevenBitGroups(low: nat, middle: nat, high: nat)
    requires low < 0x80 && middle < 0x80
    ensures Or(low, ShiftLeft(middle, 7)) == low + 0x80 * middle
    ensures Or(low + 0x80 * middle, ShiftLeft(high, 14)) == low + 0x80 * middle + 0x4000 * high
  {
    hide Or, Power2;
    SmallPowers();
    OrOfDisjoint(low, middle, 7);
    OrOfDisjoint(low + 0x80 * middle, high, 14);
  }

  /** The canonical (shortest) encoding of a 16-bit value. */
  function CompactBytes(value: nat): (bytes: seq<byte>)
    requires value < 0x1_0000
    ensures 1 <= |bytes| <= 3
  {
    if value < 0x80 then [value]
    else if value < 0x4000 then [value % 0x80 + 0x80, value / 0x80]
    else [value % 0x80 + 0x80, value / 0x80 % 0x80 + 0x80, value / 0x4000]
  }

  lemma CompactRoundTrip(buffer: seq<byte>, offset: nat, value: nat)
    requires value < 0x1_0000 && HasAt(buffer, offset, CompactBytes(value))
    ensures CompactAt(buffer, offset) == Some((value, |CompactBytes(value)|))
  {
    HasAtIndex(buffer, offset, CompactBytes(value));
    assert buffer[offset + 0] == CompactBytes(value)[0];
    assert value == value % 0x80 + 0x80 * (value / 0x80 % 0x80) + 0x4000 * (value / 0x4000);
  }

  /** No encoding of a value is shorter than the canonical one. */
  lemma CompactBytesShortest(buffer: seq<byte>, offset: nat, value: nat, length: nat)
    requires value < 0x1_0000 && CompactAt(buffer, offset) == Some((value, length))
    ensures |CompactBytes(value)| <= length
  {
  }
}
