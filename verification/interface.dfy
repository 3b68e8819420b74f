/**
 * The register layer (src/NRF24_INTERFACE.c): whole-register reads and
 * writes, and the read-modify-write bit operations built on them.
 *
 * Every operation opens with a single SPI frame whose first byte is the
 * opcode ORed with the register address, and returns the STATUS byte the
 * chip shifts out first. The contracts state the exact frames put on the bus
 * (whatever the chip answers) and, against the register-file chip, what
 * the register holds afterwards.
 */
module Interface {
  import opened Defs
  import opened Bits
  import opened Device
  import opened Bus

  /** A one-byte read of `reg` followed by a one-byte write of `next(read byte)` to `reg`. */
  predicate ReadThenWrites(ev: seq<Event>, reg: Reg, written: bv8) {
    |ev| == 2
    && IsRead(ev[0], ReadRegisterCmd(reg), 1)
    && IsWrite(ev[1], WriteRegisterCmd(reg), [written])
  }

  /** The bus effect of write_bit: read `reg`, write it back with bit `pos` forced to `bitValue`. */
  predicate WritesBit(ev: seq<Event>, reg: Reg, pos: bv8, bitValue: bool)
    requires pos < 8
  {
    |ev| == 2 && ev[0].Xfer? && |ev[0].rx| == 2
    && ReadThenWrites(ev, reg, WithBit(ev[0].rx[1], pos, bitValue))
  }

  /** The bus effect of write_bits: read `reg`, write back `(read & ~mask) | value`. */
  predicate UpdatesBits(ev: seq<Event>, reg: Reg, mask: bv8, value: bv8) {
    |ev| == 2 && ev[0].Xfer? && |ev[0].rx| == 2
    && ReadThenWrites(ev, reg, MaskedUpdate(ev[0].rx[1], mask, value))
  }

  /** The register file after write_bit: `reg`'s first byte rewritten with bit `pos` forced to `bitValue`. */
  function AfterWriteBit(chip: Chip, reg: Reg, pos: bv8, bitValue: bool): Chip
    requires pos < 8
  {
    chip.Write(reg, [WithBit(chip.Read(reg, 1)[0], pos, bitValue)])
  }

  /** The register file after write_bits: `reg`'s first byte rewritten as `(byte & ~mask) | value`. */
  function AfterWriteBits(chip: Chip, reg: Reg, mask: bv8, value: bv8): Chip {
    chip.Write(reg, [MaskedUpdate(chip.Read(reg, 1)[0], mask, value)])
  }

  /**
   * NRF24_read_reg: one (dataSize+1)-byte frame opened by R_REGISTER|reg; the
   * bytes after STATUS land in data[0..dataSize) and nothing else of `data`
   * changes.
   */
  method ReadReg(radio: Radio, reg: Reg, data: array<bv8>, dataSize: nat)
      returns (status: bv8, ghost ev: seq<Event>)
    requires radio.Initialized()
    requires dataSize <= data.Length
    modifies radio`device, radio`trace, data
    ensures radio.trace == old(radio.trace) + ev
    ensures |ev| == 1 && IsRead(ev[0], ReadRegisterCmd(reg), dataSize)
    ensures status == ev[0].rx[0] && data[..dataSize] == ev[0].rx[1..]
    ensures data[dataSize..] == old(data[dataSize..])
    ensures radio.device == old(radio.device)
    ensures status == old(radio.device).Status()
    ensures data[..dataSize] == old(radio.device).Read(reg, dataSize)
  {
    var dataOut := new bv8[dataSize + 1];
    var dataIn := new bv8[dataSize + 1];
    dataIn[0] := ReadRegisterCmd(reg);
    var e := radio.Transfer(dataIn, dataOut);
    for idx := 0 to dataSize
      modifies data
      invariant data[..idx] == dataOut[1..idx + 1]
      invariant data[idx..] == old(data[idx..])
    {
      data[idx] := dataOut[idx + 1];
    }
    assert data[..dataSize] == dataOut[1..];
    ev := [e];
    status := dataOut[0];
  }

  /**
   * NRF24_write_reg: one frame, W_REGISTER|reg followed by the first
   * `dataSize` bytes of `data`.
   */
  method WriteReg(radio: Radio, reg: Reg, data: seq<bv8>, dataSize: nat)
      returns (status: bv8, ghost ev: seq<Event>)
    requires radio.Initialized()
    requires dataSize <= |data|
    modifies radio`device, radio`trace
    ensures radio.trace == old(radio.trace) + ev
    ensures |ev| == 1 && IsWrite(ev[0], WriteRegisterCmd(reg), data[..dataSize])
    ensures status == ev[0].rx[0] && status == old(radio.device).Status()
    ensures radio.device == old(radio.device).Write(reg, data[..dataSize])
  {
    var dataOut := new bv8[dataSize + 1];
    var dataIn := new bv8[dataSize + 1];
    dataIn[0] := WriteRegisterCmd(reg);
    for idx := 0 to dataSize
      modifies dataIn
      invariant dataIn[0] == WriteRegisterCmd(reg)
      invariant dataIn[1..idx + 1] == data[..idx]
    {
      dataIn[idx + 1] := data[idx];
    }
    assert dataIn[..] == [WriteRegisterCmd(reg)] + data[..dataSize] by {
      forall i | 1 <= i < dataIn.Length ensures dataIn[i] == data[i - 1] {
        assert dataIn[1..dataSize + 1][i - 1] == data[..dataSize][i - 1];
      }
    }
    var e := radio.Transfer(dataIn, dataOut);
    ev := [e];
    status := dataOut[0];
  }

  /** NRF24_read_bit: a one-byte read of `reg`, reporting whether bit `pos` is 1. */
  method ReadBit(radio: Radio, reg: Reg, pos: bv8) returns (isSet: bool, ghost ev: seq<Event>)
    requires radio.Initialized()
    requires pos < 8
    modifies radio`device, radio`trace
    ensures radio.trace == old(radio.trace) + ev
    ensures |ev| == 1 && IsRead(ev[0], ReadRegisterCmd(reg), 1)
    ensures isSet == BitIsSet(ev[0].rx[1], pos)
    ensures radio.device == old(radio.device)
    ensures isSet == BitIsSet(old(radio.device).Read(reg, 1)[0], pos)
  {
    var regVal := new bv8[1];
    var _, e := ReadReg(radio, reg, regVal, 1);
    isSet := BitIsSet(regVal[0], pos);
    ev := e;
  }

  /**
   * The static write_bit of this file: always a read and a write, whether or
   * not the bit already holds `bitValue`.
   */
  method WriteBit(radio: Radio, reg: Reg, pos: bv8, bitValue: bool) returns (ghost ev: seq<Event>)
    requires radio.Initialized()
    requires pos < 8
    modifies radio`device, radio`trace
    ensures radio.trace == old(radio.trace) + ev
    ensures WritesBit(ev, reg, pos, bitValue)
    ensures radio.device == AfterWriteBit(old(radio.device), reg, pos, bitValue)
  {
    var temp := new bv8[1];
    ghost var temp0 := old(radio.device).Read(reg, 1);
    var _, e1 := ReadReg(radio, reg, temp, 1);
    var next := WithBit(temp[0], pos, bitValue);
    assert temp[0] == temp0[0];
    assert [next][..1] == [next];
    var _, e2 := WriteReg(radio, reg, [next], 1);
    ev := e1 + e2;
  }

  /** NRF24_clear_bit. */
  method ClearBit(radio: Radio, reg: Reg, pos: bv8) returns (ghost ev: seq<Event>)
    requires radio.Initialized()
    requires pos < 8
    modifies radio`device, radio`trace
    ensures radio.trace == old(radio.trace) + ev
    ensures WritesBit(ev, reg, pos, false)
    ensures radio.device == AfterWriteBit(old(radio.device), reg, pos, false)
  {
    ev := WriteBit(radio, reg, pos, false);
  }

  /** NRF24_set_bit. */
  method SetBit(radio: Radio, reg: Reg, pos: bv8) returns (ghost ev: seq<Event>)
    requires radio.Initialized()
    requires pos < 8
    modifies radio`device, radio`trace
    ensures radio.trace == old(radio.trace) + ev
    ensures WritesBit(ev, reg, pos, true)
    ensures radio.device == AfterWriteBit(old(radio.device), reg, pos, true)
  {
    ev := WriteBit(radio, reg, pos, true);
  }

  /**
   * NRF24_write_bits: read `reg`, clear the bits of `mask`, OR in `value`
   * (already shifted into place) and write the byte back.
   */
  method WriteBits(radio: Radio, reg: Reg, mask: bv8, value: bv8) returns (ghost ev: seq<Event>)
    requires radio.Initialized()
    modifies radio`device, radio`trace
    ensures radio.trace == old(radio.trace) + ev
    ensures UpdatesBits(ev, reg, mask, value)
    ensures radio.device == AfterWriteBits(old(radio.device), reg, mask, value)
  {
    var regValue := new bv8[1];
    ghost var temp0 := old(radio.device).Read(reg, 1);
    var _, e1 := ReadReg(radio, reg, regValue, 1);
    var newValue := MaskedUpdate(regValue[0], mask, value);
    assert regValue[0] == temp0[0];
    assert [newValue][..1] == [newValue];
    var _, e2 := WriteReg(radio, reg, [newValue], 1);
    ev := e1 + e2;
  }
}
