/** The wire form of one frame of each type, byte by byte. */
module FrameExamples {
  import opened Bytes
  import opened Cobs
  import opened Crc16
  import opened CrcDetection
  import opened Frames

  /** Two header bytes and their checksum, none of them zero, make one block. */
  lemma OneBlock(kind: byte, number: byte, crc: bv16, high: byte, low: byte)
    requires Crc([kind, number]) == crc && High(crc) == high && Low(crc) == low
    requires kind != 0 && number != 0 && high != 0 && low != 0
    ensures Wire(Frame(kind, number, [])) == [0x55, 0x05, kind, number, high, low, 0x00]
  {
    hide Crc, Stuffed;
    assert [kind, number] + [] == [kind, number];
    var raw := Raw(Frame(kind, number, []));
    assert raw == [kind, number, high, low];
    StuffedAtEnd(raw);
    assert Nth(5) == Nth(3) + 2 && Nth(3) == 3;
  }

  lemma DataOnWire()
    ensures Wire(Frame(DATA, 0x01, [])) == [0x55, 0x05, 0x01, 0x01, 0x3E, 0x1F, 0x00]
  {
    hide Crc, Wire;
    NothingFed();
    var d1 := NextByte([], 0x01, 0xFFFF, 0xF1D1);
    var d2 := NextByte(d1, 0x01, 0xF1D1, 0x3E1F);
    assert d2 == [DATA, 0x01];
    OneBlock(DATA, 0x01, 0x3E1F, 0x3E, 0x1F);
  }

  lemma AckOnWire()
    ensures Wire(Control(ACK, 0x01)) == [0x55, 0x05, 0x02, 0x01, 0x6B, 0x4C, 0x00]
  {
    hide Crc, Wire;
    NothingFed();
    var d1 := NextByte([], 0x02, 0xFFFF, 0xC1B2);
    var d2 := NextByte(d1, 0x01, 0xC1B2, 0x6B4C);
    assert d2 == [ACK, 0x01];
    OneBlock(ACK, 0x01, 0x6B4C, 0x6B, 0x4C);
  }

  lemma NackOnWire()
    ensures Wire(Control(NACK, 0x07)) == [0x55, 0x05, 0x03, 0x07, 0x38, 0xBB, 0x00]
  {
    hide Crc, Wire;
    NothingFed();
    var d1 := NextByte([], 0x03, 0xFFFF, 0xD193);
    var d2 := NextByte(d1, 0x07, 0xD193, 0x38BB);
    assert d2 == [NACK, 0x07];
    OneBlock(NACK, 0x07, 0x38BB, 0x38, 0xBB);
  }
}
