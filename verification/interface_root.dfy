/**
 * The second copy of the register layer (NRF24_INTERFACE.c at the
 * repository root). Its read_reg, write_reg and read_bit are the same code as
 * Interface's, and it has no write_bits; only its write_bit differs: it skips
 * the write when the bit already holds the wanted value.
 */
module InterfaceRoot {
  import opened Defs
  import opened Bits
  import opened Device
  import opened Bus
  import Interface

  /**
   * The bus effect of this write_bit: a one-byte read of `reg`, then a write
   * of the updated byte only when bit `pos` of what was read differs from
   * `bitValue`.
   */
  predicate WritesBitIfChanged(ev: seq<Event>, reg: Reg, pos: bv8, bitValue: bool)
    requires pos < 8
  {
    1 <= |ev| && IsRead(ev[0], ReadRegisterCmd(reg), 1)
    && if BitIsSet(ev[0].rx[1], pos) == bitValue then |ev| == 1
       else Interface.WritesBit(ev, reg, pos, bitValue)
  }

  /** The register file after this write_bit. */
  function AfterWriteBitIfChanged(chip: Chip, reg: Reg, pos: bv8, bitValue: bool): Chip
    requires pos < 8
  {
    if BitIsSet(chip.Read(reg, 1)[0], pos) == bitValue then chip
    else Interface.AfterWriteBit(chip, reg, pos, bitValue)
  }

  /** The static write_bit of this file, with its early return. */
  method WriteBit(radio: Radio, reg: Reg, pos: bv8, bitValue: bool) returns (ghost ev: seq<Event>)
    requires radio.Initialized()
    requires pos < 8
    modifies radio`device, radio`trace
    ensures radio.trace == old(radio.trace) + ev
    ensures WritesBitIfChanged(ev, reg, pos, bitValue) && ev[0].rx[1] == old(radio.device).Read(reg, 1)[0]
    ensures radio.device == AfterWriteBitIfChanged(old(radio.device), reg, pos, bitValue)
  {
    var temp := new bv8[1];
    ghost var before := old(radio.device).Read(reg, 1);
    var _, e1 := Interface.ReadReg(radio, reg, temp, 1);
    assert temp[0] == before[0];
    ev := e1;
    if BitIsSet(temp[0], pos) {
      if bitValue {
        return;
      }
    } else {
      if !bitValue {
        return;
      }
    }
    var next := WithBit(temp[0], pos, bitValue);
    assert [next][..1] == [next];
    var _, e2 := Interface.WriteReg(radio, reg, [next], 1);
    ev := e1 + e2;
  }

  /** NRF24_clear_bit of this file. */
  method ClearBit(radio: Radio, reg: Reg, pos: bv8) returns (ghost ev: seq<Event>)
    requires radio.Initialized()
    requires pos < 8
    modifies radio`device, radio`trace
    ensures radio.trace == old(radio.trace) + ev
    ensures WritesBitIfChanged(ev, reg, pos, false) && ev[0].rx[1] == old(radio.device).Read(reg, 1)[0]
    ensures radio.device == AfterWriteBitIfChanged(old(radio.device), reg, pos, false)
  {
    ev := WriteBit(radio, reg, pos, false);
  }

  /** NRF24_set_bit of this file. */
  method SetBit(radio: Radio, reg: Reg, pos: bv8) returns (ghost ev: seq<Event>)
    requires radio.Initialized()
    requires pos < 8
    modifies radio`device, radio`trace
    ensures radio.trace == old(radio.trace) + ev
    ensures WritesBitIfChanged(ev, reg, pos, true) && ev[0].rx[1] == old(radio.device).Read(reg, 1)[0]
    ensures radio.device == AfterWriteBitIfChanged(old(radio.device), reg, pos, true)
  {
    ev := WriteBit(radio, reg, pos, true);
  }
}
