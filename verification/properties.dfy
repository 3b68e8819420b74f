/**
 * Properties that relate several operations: what a trace does to the
 * register file, how the two write_bit variants compare, and round trips
 * through the register-file chip (write then read back).
 *
 * The round trips are methods that build their own radio handle around a
 * given chip, so they change nothing outside themselves; their
 * postconditions are the round-trip properties.
 */
module Properties {
  import opened Defs
  import opened Wrappers
  import opened Bits
  import opened Device
  import opened Bus
  import opened Interface
  import InterfaceRoot
  import opened Commands
  import opened Decode
  import Nrf24

  // ---------------------------------------------------------------- traces and the register file

  /** A frame that writes a register: its opcode is W_REGISTER|reg. */
  predicate IsRegisterWrite(e: Event) {
    e.Xfer? && 1 <= |e.tx| && e.tx[0] & NRF_CMD_CLASS_MASK == NRF_CMD_W_REGISTER
  }

  /** The register writes a trace carries, oldest first, as (register, bytes written). */
  function RegisterWrites(t: seq<Event>): (w: seq<(Reg, seq<bv8>)>)
    ensures |w| <= |t|
    ensures (forall i :: 0 <= i < |t| ==> !IsRegisterWrite(t[i])) ==> w == []
  {
    if t == [] then []
    else
      var rest := RegisterWrites(t[1..]);
      if IsRegisterWrite(t[0]) then [(t[0].tx[0] & NRF_REG_ADDR_MASK, t[0].tx[1..])] + rest
      else rest
  }

  /** The register writes of a concatenation are those of each part, in order. */
  lemma {:induction false} RegisterWritesAppend(a: seq<Event>, b: seq<Event>)
    ensures RegisterWrites(a + b) == RegisterWrites(a) + RegisterWrites(b)
    decreases |a|
  {
    if a == [] {
      assert a + b == b;
    } else {
      assert (a + b)[1..] == a[1..] + b;
      RegisterWritesAppend(a[1..], b);
    }
  }

  /** The chip after each frame of `t` in turn (CE and delay events do not reach it). */
  function Run(chip: Chip, t: seq<Event>): Chip
    decreases |t|
  {
    if t == [] then chip
    else if t[0].Xfer? then Run(chip.Exchange(t[0].tx).0, t[1..])
    else Run(chip, t[1..])
  }

  /** Register writes applied in order. */
  function ApplyWrites(chip: Chip, w: seq<(Reg, seq<bv8>)>): Chip
    decreases |w|
  {
    if w == [] then chip else ApplyWrites(chip.Write(w[0].0, w[0].1), w[1..])
  }

  /**
   * Only register writes change the register file: running a trace is the
   * same as applying its W_REGISTER frames and ignoring every read, command,
   * CE write and delay.
   */
  lemma {:induction false} RunIsApplyWrites(chip: Chip, t: seq<Event>)
    ensures Run(chip, t) == ApplyWrites(chip, RegisterWrites(t))
    decreases |t|
  {
    if t != [] {
      if IsRegisterWrite(t[0]) {
        RunIsApplyWrites(chip.Exchange(t[0].tx).0, t[1..]);
      } else {
        if t[0].Xfer? && t[0].tx != [] {
          assert chip.Exchange(t[0].tx).0 == chip;
        }
        RunIsApplyWrites(chip, t[1..]);
      }
    }
  }

  /** set_bit/clear_bit (always-write variant): one register write, of `reg`, with the bit forced. */
  lemma WritesBitRegisterWrites(ev: seq<Event>, reg: Reg, pos: bv8, bitValue: bool)
    requires pos < 8
    requires WritesBit(ev, reg, pos, bitValue)
    ensures RegisterWrites(ev) == [(reg, [WithBit(ev[0].rx[1], pos, bitValue)])]
  {
    assert ev == [ev[0]] + [ev[1]];
    RegisterWritesAppend([ev[0]], [ev[1]]);
    assert RegisterWrites([ev[1]]) == [(reg, [WithBit(ev[0].rx[1], pos, bitValue)])] by {
      assert [ev[1]][1..] == [];
      assert ev[1].tx[1..] == [WithBit(ev[0].rx[1], pos, bitValue)];
    }
  }

  /** write_bit with the early return writes no register exactly when the bit already held the value. */
  lemma WritesBitIfChangedRegisterWrites(ev: seq<Event>, reg: Reg, pos: bv8, bitValue: bool)
    requires pos < 8
    requires InterfaceRoot.WritesBitIfChanged(ev, reg, pos, bitValue)
    ensures RegisterWrites(ev) == [] <==> BitIsSet(ev[0].rx[1], pos) == bitValue
  {
    if BitIsSet(ev[0].rx[1], pos) != bitValue {
      WritesBitRegisterWrites(ev, reg, pos, bitValue);
    }
  }

  /** set_channel writes one register, RF_CH; the two flushes write none. */
  lemma SetChannelRegisterWrites(ev: seq<Event>, channel: bv8)
    requires |ev| == 3
    requires Nrf24.WritesRegister(ev[..1], NRF_REG_RF_CH, [channel])
    requires IsCommand(ev[1..2], NRF_CMD_FLUSH_RX) && IsCommand(ev[2..], NRF_CMD_FLUSH_TX)
    ensures RegisterWrites(ev) == [(NRF_REG_RF_CH, [channel])]
  {
    assert ev == ev[..1] + ev[1..];
    RegisterWritesAppend(ev[..1], ev[1..]);
    assert ev[..1][1..] == [];
    assert ev[..1][0].tx[1..] == [channel];
    assert !IsRegisterWrite(ev[1]) && !IsRegisterWrite(ev[2]);
    assert RegisterWrites(ev[1..]) == [] by {
      assert forall i :: 0 <= i < |ev[1..]| ==> !IsRegisterWrite(ev[1..][i]);
    }
  }

  /**
   * The two write_bit variants leave a register (other than STATUS) reading
   * back the same byte: the early return saves a frame, not a change.
   */
  lemma WriteBitVariantsAgree(chip: Chip, reg: Reg, pos: bv8, bitValue: bool)
    requires pos < 8 && reg != NRF_REG_STATUS
    ensures InterfaceRoot.AfterWriteBitIfChanged(chip, reg, pos, bitValue).Read(reg, 1)
            == AfterWriteBit(chip, reg, pos, bitValue).Read(reg, 1)
  {
  }

  /**
   * On STATUS the two variants differ: with RX_DR pending (STATUS 0x40),
   * set_bit(STATUS, 6) through the always-write variant writes 0x40 back,
   * and that 1 clears RX_DR; the early-return variant writes nothing.
   */
  lemma WriteBitVariantsDifferOnStatus()
    ensures var chip := Chip(map[NRF_REG_STATUS as nat := [0x40]]);
            AfterWriteBit(chip, NRF_REG_STATUS, 6, true).Status() == 0x00
            && InterfaceRoot.AfterWriteBitIfChanged(chip, NRF_REG_STATUS, 6, true).Status() == 0x40
  {
    var chip := Chip(map[NRF_REG_STATUS as nat := [0x40]]);
    assert chip.Stored(NRF_REG_STATUS) == [0x40];
    assert chip.Status() == 0x40;
    assert BitIsSet(chip.Read(NRF_REG_STATUS, 1)[0], 6);
    assert WithBit(0x40, 6, true) == 0x40;
  }

  // ---------------------------------------------------------------- findings

  /** A concrete pipe: RX_ADDR_P1 = 11 22 33 44 55 (LSByte first), RX_ADDR_P2 = C3. */
  lemma PipeAddressAsWrittenDiffers()
    ensures var p1: seq<bv8> := [0x11, 0x22, 0x33, 0x44, 0x55];
            PipeAddressAsWritten(p1[..4], 0xC3) == [0x11, 0x22, 0x33, 0x44, 0xC3]
            && PipeAddress(p1, 0xC3) == [0xC3, 0x22, 0x33, 0x44, 0x55]
  {
  }

  /**
   * clear_irq_flag as written, on a chip with all three flags pending:
   * asked to clear RX_DR, it clears TX_DS (and MAX_RT) as well; the
   * corrected value leaves them pending.
   */
  lemma ClearIrqFlagAsWrittenClearsOthers()
    ensures var chip := Chip(map[NRF_REG_STATUS as nat := [0x70]]);
            chip.Write(NRF_REG_STATUS, [ClearIrqValueAsWritten(chip.Status(), NRF_STATUS_RX_DR_MASK)]).Status() == 0x00
            && chip.Write(NRF_REG_STATUS, [ClearIrqValue(chip.Status(), NRF_STATUS_RX_DR_MASK)]).Status() == 0x30
  {
    var chip := Chip(map[NRF_REG_STATUS as nat := [0x70]]);
    assert chip.Stored(NRF_REG_STATUS) == [0x70];
    assert chip.Status() == 0x70;
  }

  /** The corrected STATUS write clears exactly the requested flags, whatever else is pending. */
  lemma ClearIrqValueClearsOnlyFlag(chip: Chip, flag: bv8)
    requires IsIrqFlag(flag)
    ensures chip.Write(NRF_REG_STATUS, [ClearIrqValue(chip.Status(), flag)]).Status() == chip.Status() & !flag
  {
  }

  // ---------------------------------------------------------------- round trips through the chip

  /** A handle around `chip` with every callback present, as a successful init leaves it. */
  method NewRadio(chip: Chip) returns (radio: Radio)
    ensures fresh(radio) && radio.Initialized()
    ensures radio.device == chip && radio.trace == []
  {
    radio := new Radio(chip);
    var rc := Init(radio, Some(Callback(1)), Some(Callback(2)), None, Some(Callback(3)));
    assert rc == 0;
  }

  /** write_reg then read_reg of the same register and size returns the bytes written. */
  method WriteRegThenReadReg(chip: Chip, reg: Reg, data: seq<bv8>) returns (readBack: seq<bv8>)
    requires reg != NRF_REG_STATUS
    ensures readBack == data
  {
    var radio := NewRadio(chip);
    assert data[..|data|] == data;
    var _, _ := WriteReg(radio, reg, data, |data|);
    var buf := new bv8[|data|];
    var _, _ := ReadReg(radio, reg, buf, |data|);
    assert buf[..] == buf[..|data|];
    readBack := buf[..];
  }

  /**
   * set_bit (src/NRF24_INTERFACE.c, always writing) then read_bit reads 1,
   * and the register's other seven bits are those it held before.
   */
  method SetBitThenReadBit(chip: Chip, reg: Reg, pos: bv8) returns (before: bv8, after: bv8, isSet: bool)
    requires reg != NRF_REG_STATUS && pos < 8
    ensures before == chip.Read(reg, 1)[0]
    ensures isSet && BitIsSet(after, pos)
    ensures forall j: bv8 :: j < 8 && j != pos ==> BitIsSet(after, j) == BitIsSet(before, j)
  {
    var radio := NewRadio(chip);
    before := chip.Read(reg, 1)[0];
    var _ := Interface.SetBit(radio, reg, pos);
    var bit, _ := ReadBit(radio, reg, pos);
    isSet := bit;
    after := radio.device.Read(reg, 1)[0];
    forall j: bv8 | j < 8 && j != pos ensures BitIsSet(after, j) == BitIsSet(before, j) {
      SameOutsideBit(after, before, pos, j);
    }
  }

  /**
   * clear_bit (src/NRF24_INTERFACE.c, always writing) then read_bit reads 0,
   * and the register's other seven bits are those it held before.
   */
  method ClearBitThenReadBit(chip: Chip, reg: Reg, pos: bv8) returns (before: bv8, after: bv8, isSet: bool)
    requires reg != NRF_REG_STATUS && pos < 8
    ensures before == chip.Read(reg, 1)[0]
    ensures !isSet && !BitIsSet(after, pos)
    ensures forall j: bv8 :: j < 8 && j != pos ==> BitIsSet(after, j) == BitIsSet(before, j)
  {
    var radio := NewRadio(chip);
    before := chip.Read(reg, 1)[0];
    var _ := Interface.ClearBit(radio, reg, pos);
    var bit, _ := ReadBit(radio, reg, pos);
    isSet := bit;
    after := radio.device.Read(reg, 1)[0];
    forall j: bv8 | j < 8 && j != pos ensures BitIsSet(after, j) == BitIsSet(before, j) {
      SameOutsideBit(after, before, pos, j);
    }
  }

  /**
   * set_bit of the root NRF24_INTERFACE.c (skipping the write when the bit
   * is already 1) then read_bit reads 1, and the other seven bits are those
   * the register held before.
   */
  method RootSetBitThenReadBit(chip: Chip, reg: Reg, pos: bv8) returns (before: bv8, after: bv8, isSet: bool)
    requires reg != NRF_REG_STATUS && pos < 8
    ensures before == chip.Read(reg, 1)[0]
    ensures isSet && BitIsSet(after, pos)
    ensures forall j: bv8 :: j < 8 && j != pos ==> BitIsSet(after, j) == BitIsSet(before, j)
  {
    var radio := NewRadio(chip);
    before := chip.Read(reg, 1)[0];
    var _ := InterfaceRoot.SetBit(radio, reg, pos);
    WriteBitVariantsAgree(chip, reg, pos, true);
    assert radio.device.Read(reg, 1)[0] == WithBit(before, pos, true);
    var bit, _ := ReadBit(radio, reg, pos);
    isSet := bit;
    after := radio.device.Read(reg, 1)[0];
    forall j: bv8 | j < 8 && j != pos ensures BitIsSet(after, j) == BitIsSet(before, j) {
      SameOutsideBit(after, before, pos, j);
    }
  }

  /**
   * clear_bit of the root NRF24_INTERFACE.c (skipping the write when the bit
   * is already 0) then read_bit reads 0, and the other seven bits are those
   * the register held before.
   */
  method RootClearBitThenReadBit(chip: Chip, reg: Reg, pos: bv8) returns (before: bv8, after: bv8, isSet: bool)
    requires reg != NRF_REG_STATUS && pos < 8
    ensures before == chip.Read(reg, 1)[0]
    ensures !isSet && !BitIsSet(after, pos)
    ensures forall j: bv8 :: j < 8 && j != pos ==> BitIsSet(after, j) == BitIsSet(before, j)
  {
    var radio := NewRadio(chip);
    before := chip.Read(reg, 1)[0];
    var _ := InterfaceRoot.ClearBit(radio, reg, pos);
    WriteBitVariantsAgree(chip, reg, pos, false);
    assert radio.device.Read(reg, 1)[0] == WithBit(before, pos, false);
    var bit, _ := ReadBit(radio, reg, pos);
    isSet := bit;
    after := radio.device.Read(reg, 1)[0];
    forall j: bv8 | j < 8 && j != pos ensures BitIsSet(after, j) == BitIsSet(before, j) {
      SameOutsideBit(after, before, pos, j);
    }
  }

  /**
   * The early-return set_bit twice on the same register: the second call
   * finds the bit set, issues only its one-byte R_REGISTER read of `reg`,
   * which returns the byte the first call left, and changes nothing.
   */
  method RootSetBitTwice(chip: Chip, reg: Reg, pos: bv8)
      returns (afterFirst: Chip, afterSecond: Chip, ghost second: seq<Event>)
    requires reg != NRF_REG_STATUS && pos < 8
    ensures BitIsSet(afterFirst.Read(reg, 1)[0], pos)
    ensures InterfaceRoot.WritesBitIfChanged(second, reg, pos, true)
    ensures second[0].rx[1] == afterFirst.Read(reg, 1)[0]
    ensures |second| == 1 && IsRead(second[0], ReadRegisterCmd(reg), 1)
    ensures afterSecond == afterFirst
  {
    var radio := NewRadio(chip);
    var _ := InterfaceRoot.SetBit(radio, reg, pos);
    afterFirst := radio.device;
    second := InterfaceRoot.SetBit(radio, reg, pos);
    afterSecond := radio.device;
  }

  /** set_channel then get_channel reads the channel, lowered to NRF_MAX_RF_CHANNEL when above it. */
  method SetChannelThenGetChannel(chip: Chip, channel: bv8) returns (readBack: bv8)
    ensures readBack <= NRF_MAX_RF_CHANNEL
    ensures channel <= NRF_MAX_RF_CHANNEL ==> readBack == channel
    ensures NRF_MAX_RF_CHANNEL < channel ==> readBack == NRF_MAX_RF_CHANNEL
  {
    var radio := NewRadio(chip);
    var _ := Nrf24.SetChannel(radio, channel);
    var ch, _ := Nrf24.GetChannel(radio);
    readBack := ch;
  }

  /** set_payload_size then get_payload_size reads min(size, NRF_PAYLOAD_SIZE_MAX). */
  method SetPayloadSizeThenGet(chip: Chip, pipe: PayloadPipe, size: bv8) returns (readBack: bv8)
    ensures readBack as nat <= NRF_PAYLOAD_SIZE_MAX
    ensures size as nat <= NRF_PAYLOAD_SIZE_MAX ==> readBack == size
    ensures NRF_PAYLOAD_SIZE_MAX < size as nat ==> readBack as nat == NRF_PAYLOAD_SIZE_MAX
  {
    var radio := NewRadio(chip);
    var _ := Nrf24.SetPayloadSize(radio, pipe, size);
    var sz, _ := Nrf24.GetPayloadSize(radio, pipe);
    readBack := sz;
  }

  /** set_address_width then get_address_width: codes 1, 2, 3 read back as 3, 4, 5 bytes; any other traps. */
  method SetAddressWidthThenGet(chip: Chip, addrWidth: bv8) returns (width: Option<bv8>)
    ensures 1 <= addrWidth <= 3 ==> width == Some(addrWidth + 2)
    ensures !(1 <= addrWidth <= 3) ==> width == None
  {
    var radio := NewRadio(chip);
    var _ := Nrf24.SetAddressWidth(radio, addrWidth);
    var w, _ := Nrf24.GetAddressWidth(radio);
    width := w;
  }

  /**
   * With the address width configured to `width` bytes, set_tx_address with
   * that many bytes is accepted and get_tx_address reads them back.
   */
  method TxAddressRoundTrip(chip: Chip, width: bv8, addr: seq<bv8>) returns (ghost accepted: bool, readBack: seq<bv8>)
    requires 3 <= width <= 5 && width as nat <= |addr|
    ensures accepted && readBack == addr[..width]
  {
    var radio := NewRadio(chip);
    var _ := Nrf24.SetAddressWidth(radio, EncodeAddressWidth(width));
    ghost var halted, _ := Nrf24.SetTxAddress(radio, addr, width as nat);
    accepted := !halted;
    var buf := new bv8[width as nat];
    var _, _ := Nrf24.GetTxAddress(radio, buf, width as nat);
    assert buf[..] == buf[..width];
    readBack := buf[..];
  }

  /**
   * The register file after configuring a `width`-byte address width, all of
   * RX_ADDR_P1 and pipe 2's own byte.
   */
  lemma PipeConfigured(chip: Chip, width: bv8, p1: seq<bv8>, lsb: bv8)
    requires 3 <= width <= 5 && |p1| == width as nat
    ensures var c := chip.Write(NRF_REG_SETUP_AW, [EncodeAddressWidth(width)])
                         .Write(NRF_REG_RX_ADDR_P1, p1).Write(0x0C, [lsb]);
            Nrf24.ConfiguredWidth(c) == Some(width)
            && c.Read(NRF_REG_RX_ADDR_P1, |p1|) == p1 && c.Read(0x0C, 1) == [lsb]
  {
    var c1 := chip.Write(NRF_REG_SETUP_AW, [EncodeAddressWidth(width)]);
    var c2 := c1.Write(NRF_REG_RX_ADDR_P1, p1);
    var c3 := c2.Write(0x0C, [lsb]);
    c1.WriteLeavesOthers(NRF_REG_RX_ADDR_P1, p1, NRF_REG_SETUP_AW);
    c2.WriteLeavesOthers(0x0C, [lsb], NRF_REG_SETUP_AW);
    c2.WriteLeavesOthers(0x0C, [lsb], NRF_REG_RX_ADDR_P1);
    assert c3.Read(NRF_REG_SETUP_AW, 1) == c1.Read(NRF_REG_SETUP_AW, 1);
    assert c3.Read(NRF_REG_RX_ADDR_P1, |p1|) == c2.Read(NRF_REG_RX_ADDR_P1, |p1|);
    AddressWidthRoundTrip(width, EncodeAddressWidth(width));
  }

  /**
   * Pipe 2's address, configured by set_rx_pipe_address (all of RX_ADDR_P1,
   * then addr[0] for pipe 2), and read back by the corrected
   * get_rx_pipe_address: the chip's pipe 2 address, LSByte first.
   */
  method PipeAddressRoundTrip(chip: Chip, width: bv8, p1: seq<bv8>, lsb: bv8) returns (readBack: seq<bv8>)
    requires 3 <= width <= 5 && |p1| == width as nat
    requires NRF_PIPE_ADDR_WIDTH_3BYTES < width as nat <= NRF_PIPE_ADDR_WIDTH_5BYTES
    ensures readBack == PipeAddress(p1, lsb)
  {
    var radio := NewRadio(chip);
    var _ := Nrf24.SetAddressWidth(radio, EncodeAddressWidth(width));
    var _ := Nrf24.SetRxPipeAddress(radio, NRF_REG_RX_ADDR_P1, p1, width as nat);
    var _ := Nrf24.SetRxPipeAddress(radio, 0x0C, [lsb], 1);
    assert p1[..width] == p1;
    PipeConfigured(chip, width, p1, lsb);
    var buf := new bv8[width as nat];
    var _, _ := Nrf24.GetRxPipeAddressLsbFirst(radio, 0x0C, buf, width as nat);
    assert buf[..] == buf[..width];
    readBack := buf[..];
  }

  /**
   * The same configuration read back by get_rx_pipe_address as written:
   * RX_ADDR_P1's first width-1 bytes with pipe 2's byte last, which is not
   * the pipe 2 address unless those bytes happen to coincide.
   */
  method PipeAddressRoundTripAsWritten(chip: Chip, width: bv8, p1: seq<bv8>, lsb: bv8) returns (readBack: seq<bv8>)
    requires 3 <= width <= 5 && |p1| == width as nat
    requires NRF_PIPE_ADDR_WIDTH_3BYTES < width as nat <= NRF_PIPE_ADDR_WIDTH_5BYTES
    ensures readBack == PipeAddressAsWritten(p1[..width - 1], lsb)
    ensures readBack[0] == p1[0] && readBack[width - 1] == lsb
  {
    var radio := NewRadio(chip);
    var _ := Nrf24.SetAddressWidth(radio, EncodeAddressWidth(width));
    var _ := Nrf24.SetRxPipeAddress(radio, NRF_REG_RX_ADDR_P1, p1, width as nat);
    var _ := Nrf24.SetRxPipeAddress(radio, 0x0C, [lsb], 1);
    assert p1[..width] == p1;
    PipeConfigured(chip, width, p1, lsb);
    radio.device.ReadPrefix(NRF_REG_RX_ADDR_P1, width as nat - 1, width as nat);
    var buf := new bv8[width as nat];
    var _, _ := Nrf24.GetRxPipeAddress(radio, 0x0C, buf, width as nat);
    assert buf[..] == buf[..width];
    readBack := buf[..];
  }
}
