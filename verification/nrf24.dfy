/**
 * The public API (src/NRF24.c): power and mode control, channel, address
 * widths and pipe addresses, payload sizes, FEATURE/DYNPD/EN_AA/EN_RXADDR
 * switches, the transmit and receive sequences and the IRQ/STATUS helpers.
 *
 * Each operation is a fixed sequence of register-layer calls, commands, CE
 * writes and delays; each contract states that sequence as the events it
 * appends to the trace and, for the register file behind the bus, the
 * registers it leaves behind.
 *
 * An NRF24_ASSERT on a caller's argument is a precondition. The two that
 * test a value read back from the chip (the SETUP_AW decode and the TX
 * address width check) stop the driver in an endless loop; here that is the
 * ghost result `halted`, after which no further event happens.
 */
module Nrf24 {
  import opened Defs
  import opened Wrappers
  import opened Bits
  import opened Device
  import opened Bus
  import opened Interface
  import opened Commands
  import opened Decode

  /** The two radio roles of set_mode (PRX and PTX). */
  datatype Mode = Rx | Tx

  /** transmit_pulse: CE high, the pulse delay, CE low. */
  const Pulse: seq<Event> := [Ce(true), Delay(NRF_CE_PULSE_WIDTH_US), Ce(false)]

  /** The FEATURE bits enable/disable_dynamic_payload update: EN_ACK_PAY and EN_DPL. */
  const DynamicPayloadMask: bv8 := Mask(NRF_FEATURE_BIT_EN_ACK_PAY) | Mask(NRF_FEATURE_BIT_EN_DPL)

  /** A one-byte read of `reg`. */
  predicate ReadsByte(ev: seq<Event>, reg: Reg) {
    |ev| == 1 && IsRead(ev[0], ReadRegisterCmd(reg), 1)
  }

  /** A single write of `data` to `reg`. */
  predicate WritesRegister(ev: seq<Event>, reg: Reg, data: seq<bv8>) {
    |ev| == 1 && IsWrite(ev[0], WriteRegisterCmd(reg), data)
  }

  /** The address width the chip's SETUP_AW selects, if it is a legal one. */
  function ConfiguredWidth(chip: Chip): Option<bv8> {
    DecodeAddressWidth(chip.Read(NRF_REG_SETUP_AW, 1)[0])
  }

  // ---------------------------------------------------------------- power and mode

  /** NRF24_set_standby_i_mode: CE low, then set the CONFIG bit NRF_CONFIG_PWR_UP. */
  method SetStandbyIMode(radio: Radio) returns (ghost ev: seq<Event>)
    requires radio.Initialized()
    requires NRF_CONFIG_PWR_UP < 8
    modifies radio`device, radio`trace
    ensures radio.trace == old(radio.trace) + ev
    ensures 1 <= |ev| && ev[0] == Ce(false) && WritesBit(ev[1..], NRF_REG_CONFIG, NRF_CONFIG_PWR_UP, true)
    ensures radio.device == AfterWriteBit(old(radio.device), NRF_REG_CONFIG, NRF_CONFIG_PWR_UP, true)
  {
    var e1 := StopListening(radio);
    var e2 := SetBit(radio, NRF_REG_CONFIG, NRF_CONFIG_PWR_UP);
    ev := e1 + e2;
    assert ev[1..] == e2;
  }

  /** NRF24_sleep: standby-I mode. */
  method Sleep(radio: Radio) returns (ghost ev: seq<Event>)
    requires radio.Initialized()
    requires NRF_CONFIG_PWR_UP < 8
    modifies radio`device, radio`trace
    ensures radio.trace == old(radio.trace) + ev
    ensures 1 <= |ev| && ev[0] == Ce(false) && WritesBit(ev[1..], NRF_REG_CONFIG, NRF_CONFIG_PWR_UP, true)
    ensures radio.device == AfterWriteBit(old(radio.device), NRF_REG_CONFIG, NRF_CONFIG_PWR_UP, true)
  {
    ev := SetStandbyIMode(radio);
  }

  /** NRF24_wakeup: set CONFIG.PWR_UP, then wait 5 ms for the crystal. */
  method Wakeup(radio: Radio) returns (ghost ev: seq<Event>)
    requires radio.Initialized()
    modifies radio`device, radio`trace
    ensures radio.trace == old(radio.trace) + ev
    ensures |ev| == 3 && WritesBit(ev[..2], NRF_REG_CONFIG, NRF_CONFIG_BIT_PWR_UP, true) && ev[2] == Delay(5)
    ensures radio.device == AfterWriteBit(old(radio.device), NRF_REG_CONFIG, NRF_CONFIG_BIT_PWR_UP, true)
  {
    var e1 := SetBit(radio, NRF_REG_CONFIG, NRF_CONFIG_BIT_PWR_UP);
    var e2 := radio.DelayMs(5);
    ev := e1 + [e2];
    assert ev[..2] == e1;
  }

  /** NRF24_set_power_down_mode: clear CONFIG.PWR_UP. */
  method SetPowerDownMode(radio: Radio) returns (ghost ev: seq<Event>)
    requires radio.Initialized()
    modifies radio`device, radio`trace
    ensures radio.trace == old(radio.trace) + ev
    ensures WritesBit(ev, NRF_REG_CONFIG, NRF_CONFIG_BIT_PWR_UP, false)
    ensures radio.device == AfterWriteBit(old(radio.device), NRF_REG_CONFIG, NRF_CONFIG_BIT_PWR_UP, false)
  {
    ev := ClearBit(radio, NRF_REG_CONFIG, NRF_CONFIG_BIT_PWR_UP);
  }

  /** NRF24_set_standby_ii_mode: CE high, then set CONFIG.PWR_UP. */
  method SetStandbyIIMode(radio: Radio) returns (ghost ev: seq<Event>)
    requires radio.Initialized()
    modifies radio`device, radio`trace
    ensures radio.trace == old(radio.trace) + ev
    ensures 1 <= |ev| && ev[0] == Ce(true) && WritesBit(ev[1..], NRF_REG_CONFIG, NRF_CONFIG_BIT_PWR_UP, true)
    ensures radio.device == AfterWriteBit(old(radio.device), NRF_REG_CONFIG, NRF_CONFIG_BIT_PWR_UP, true)
  {
    var e1 := StartListening(radio);
    var e2 := SetBit(radio, NRF_REG_CONFIG, NRF_CONFIG_BIT_PWR_UP);
    ev := e1 + e2;
    assert ev[1..] == e2;
  }

  /** NRF24_set_rx_mode: set CONFIG.PRIM_RX. */
  method SetRxMode(radio: Radio) returns (ghost ev: seq<Event>)
    requires radio.Initialized()
    modifies radio`device, radio`trace
    ensures radio.trace == old(radio.trace) + ev
    ensures WritesBit(ev, NRF_REG_CONFIG, NRF_CONFIG_BIT_PRIM_RX, true)
    ensures radio.device == AfterWriteBit(old(radio.device), NRF_REG_CONFIG, NRF_CONFIG_BIT_PRIM_RX, true)
  {
    ev := SetBit(radio, NRF_REG_CONFIG, NRF_CONFIG_BIT_PRIM_RX);
  }

  /** NRF24_set_tx_mode: clear CONFIG.PRIM_RX. */
  method SetTxMode(radio: Radio) returns (ghost ev: seq<Event>)
    requires radio.Initialized()
    modifies radio`device, radio`trace
    ensures radio.trace == old(radio.trace) + ev
    ensures WritesBit(ev, NRF_REG_CONFIG, NRF_CONFIG_BIT_PRIM_RX, false)
    ensures radio.device == AfterWriteBit(old(radio.device), NRF_REG_CONFIG, NRF_CONFIG_BIT_PRIM_RX, false)
  {
    ev := ClearBit(radio, NRF_REG_CONFIG, NRF_CONFIG_BIT_PRIM_RX);
  }

  /** NRF24_set_mode: PRIM_RX becomes 1 for receiver mode and 0 for transmitter mode. */
  method SetMode(radio: Radio, mode: Mode) returns (ghost ev: seq<Event>)
    requires radio.Initialized()
    modifies radio`device, radio`trace
    ensures radio.trace == old(radio.trace) + ev
    ensures WritesBit(ev, NRF_REG_CONFIG, NRF_CONFIG_BIT_PRIM_RX, mode == Rx)
    ensures radio.device == AfterWriteBit(old(radio.device), NRF_REG_CONFIG, NRF_CONFIG_BIT_PRIM_RX, mode == Rx)
  {
    if mode == Rx {
      ev := SetRxMode(radio);
    } else {
      ev := SetTxMode(radio);
    }
  }

  // ---------------------------------------------------------------- auto-acknowledgement and channel

  /** NRF24_enable_auto_ack: set EN_AA bit `pipe`. */
  method EnableAutoAck(radio: Radio, pipe: Pipe) returns (ghost ev: seq<Event>)
    requires radio.Initialized()
    modifies radio`device, radio`trace
    ensures radio.trace == old(radio.trace) + ev
    ensures WritesBit(ev, NRF_REG_EN_AA, pipe, true)
    ensures radio.device == AfterWriteBit(old(radio.device), NRF_REG_EN_AA, pipe, true)
  {
    ev := SetBit(radio, NRF_REG_EN_AA, pipe);
  }

  /** NRF24_disable_auto_ack: clear EN_AA bit `pipe`. */
  method DisableAutoAck(radio: Radio, pipe: Pipe) returns (ghost ev: seq<Event>)
    requires radio.Initialized()
    modifies radio`device, radio`trace
    ensures radio.trace == old(radio.trace) + ev
    ensures WritesBit(ev, NRF_REG_EN_AA, pipe, false)
    ensures radio.device == AfterWriteBit(old(radio.device), NRF_REG_EN_AA, pipe, false)
  {
    ev := ClearBit(radio, NRF_REG_EN_AA, pipe);
  }

  /**
   * NRF24_set_channel: write the channel, lowered to NRF_MAX_RF_CHANNEL when
   * above it, to RF_CH; then flush the RX FIFO and the TX FIFO, in that order.
   */
  method SetChannel(radio: Radio, channel: bv8) returns (ghost ev: seq<Event>)
    requires radio.Initialized()
    modifies radio`device, radio`trace
    ensures radio.trace == old(radio.trace) + ev
    ensures |ev| == 3
    ensures WritesRegister(ev[..1], NRF_REG_RF_CH, [ClampByte(channel, NRF_MAX_RF_CHANNEL)])
    ensures IsCommand(ev[1..2], NRF_CMD_FLUSH_RX) && IsCommand(ev[2..], NRF_CMD_FLUSH_TX)
    ensures radio.device ==
              old(radio.device).Write(NRF_REG_RF_CH, [ClampByte(channel, NRF_MAX_RF_CHANNEL)])
  {
    var ch := channel;
    if NRF_MAX_RF_CHANNEL < ch {
      ch := NRF_MAX_RF_CHANNEL;
    }
    assert [ch][..1] == [ch];
    var _, e1 := WriteReg(radio, NRF_REG_RF_CH, [ch], 1);
    var _, e2 := Commands.FlushRx(radio);
    var _, e3 := Commands.FlushTx(radio);
    ev := e1 + e2 + e3;
    assert ev[..1] == e1 && ev[1..2] == e2 && ev[2..] == e3;
  }

  /** NRF24_get_channel: the byte RF_CH reads back as. */
  method GetChannel(radio: Radio) returns (channel: bv8, ghost ev: seq<Event>)
    requires radio.Initialized()
    modifies radio`device, radio`trace
    ensures radio.trace == old(radio.trace) + ev
    ensures ReadsByte(ev, NRF_REG_RF_CH) && channel == ev[0].rx[1]
    ensures radio.device == old(radio.device)
    ensures channel == old(radio.device).Read(NRF_REG_RF_CH, 1)[0]
  {
    var buf := new bv8[1];
    var _, e := ReadReg(radio, NRF_REG_RF_CH, buf, 1);
    channel := buf[0];
    ev := e;
  }

  // ---------------------------------------------------------------- addresses

  /** NRF24_set_address_width: write the SETUP_AW code as given. */
  method SetAddressWidth(radio: Radio, addrWidth: bv8) returns (ghost ev: seq<Event>)
    requires radio.Initialized()
    modifies radio`device, radio`trace
    ensures radio.trace == old(radio.trace) + ev
    ensures WritesRegister(ev, NRF_REG_SETUP_AW, [addrWidth])
    ensures radio.device == old(radio.device).Write(NRF_REG_SETUP_AW, [addrWidth])
  {
    assert [addrWidth][..1] == [addrWidth];
    var _, e := WriteReg(radio, NRF_REG_SETUP_AW, [addrWidth], 1);
    ev := e;
  }

  /**
   * NRF24_get_address_width: read SETUP_AW and decode it; None is the
   * assertion trap the driver falls into on the illegal code 00b (or any
   * other value).
   */
  method GetAddressWidth(radio: Radio) returns (width: Option<bv8>, ghost ev: seq<Event>)
    requires radio.Initialized()
    modifies radio`device, radio`trace
    ensures radio.trace == old(radio.trace) + ev
    ensures ReadsByte(ev, NRF_REG_SETUP_AW) && width == DecodeAddressWidth(ev[0].rx[1])
    ensures radio.device == old(radio.device)
    ensures width == ConfiguredWidth(old(radio.device))
  {
    var addrWidth := new bv8[1];
    var _, e := ReadReg(radio, NRF_REG_SETUP_AW, addrWidth, 1);
    width := DecodeAddressWidth(addrWidth[0]);
    ev := e;
  }

  /**
   * NRF24_set_rx_pipe_address: pipes 0 and 1 take `size` bytes (more than
   * NRF_PIPE_ADDR_WIDTH_3BYTES, at most NRF_PIPE_ADDR_WIDTH_5BYTES); pipes 2
   * to 5 take only addr[0], whatever `size` is.
   */
  method SetRxPipeAddress(radio: Radio, pipe: AddrPipe, addr: seq<bv8>, size: nat) returns (ghost ev: seq<Event>)
    requires radio.Initialized()
    requires size <= NRF_PIPE_ADDR_WIDTH_5BYTES
    requires pipe <= NRF_REG_RX_ADDR_P1 ==> NRF_PIPE_ADDR_WIDTH_3BYTES < size <= |addr|
    requires NRF_REG_RX_ADDR_P1 < pipe ==> 1 <= |addr|
    modifies radio`device, radio`trace
    ensures radio.trace == old(radio.trace) + ev
    ensures pipe <= NRF_REG_RX_ADDR_P1 ==>
              WritesRegister(ev, pipe, addr[..size]) && radio.device == old(radio.device).Write(pipe, addr[..size])
    ensures NRF_REG_RX_ADDR_P1 < pipe ==>
              WritesRegister(ev, pipe, [addr[0]]) && radio.device == old(radio.device).Write(pipe, [addr[0]])
  {
    if pipe <= NRF_REG_RX_ADDR_P1 {
      var _, e := WriteReg(radio, pipe, addr, size);
      ev := e;
    } else {
      assert addr[..1] == [addr[0]];
      var _, e := WriteReg(radio, pipe, addr, 1);
      ev := e;
    }
  }

  /**
   * The pipe 2-5 reads of get_rx_pipe_address as written: n-1 bytes of
   * RX_ADDR_P1 into addr[0..n-1), then the pipe's own byte into addr[n-1].
   */
  method ReadSharedAddressAsWritten(radio: Radio, pipe: AddrPipe, addr: array<bv8>, n: nat)
      returns (ghost ev: seq<Event>)
    requires radio.Initialized()
    requires 1 <= n <= addr.Length
    modifies radio`device, radio`trace, addr
    ensures radio.trace == old(radio.trace) + ev
    ensures radio.device == old(radio.device)
    ensures |ev| == 2 && IsRead(ev[0], ReadRegisterCmd(NRF_REG_RX_ADDR_P1), n - 1)
            && IsRead(ev[1], ReadRegisterCmd(pipe), 1)
    ensures addr[..n] == PipeAddressAsWritten(old(radio.device).Read(NRF_REG_RX_ADDR_P1, n - 1),
                                              old(radio.device).Read(pipe, 1)[0])
    ensures addr[n..] == old(addr[n..])
  {
    var m := n - 1;
    ghost var tail := addr[n..];
    assert tail == addr[m..][1..];
    var _, e1 := ReadReg(radio, NRF_REG_RX_ADDR_P1, addr, m);
    var lsb := new bv8[1];
    var _, e2 := ReadReg(radio, pipe, lsb, 1);
    ghost var prefix := addr[..m];
    assert addr[n..] == addr[m..][1..];
    addr[m] := lsb[0];
    assert addr[n..] == tail && addr[..m] == prefix;
    assert addr[..n] == prefix + [lsb[0]];
    ev := e1 + e2;
  }

  /**
   * The pipe 2-5 reads laid out as the chip uses the address: n bytes of
   * RX_ADDR_P1 into addr[0..n), then the pipe's own byte over addr[0].
   */
  method ReadSharedAddress(radio: Radio, pipe: AddrPipe, addr: array<bv8>, n: nat)
      returns (ghost ev: seq<Event>)
    requires radio.Initialized()
    requires 1 <= n <= addr.Length
    modifies radio`device, radio`trace, addr
    ensures radio.trace == old(radio.trace) + ev
    ensures radio.device == old(radio.device)
    ensures |ev| == 2 && IsRead(ev[0], ReadRegisterCmd(NRF_REG_RX_ADDR_P1), n)
            && IsRead(ev[1], ReadRegisterCmd(pipe), 1)
    ensures addr[..n] == PipeAddress(old(radio.device).Read(NRF_REG_RX_ADDR_P1, n),
                                     old(radio.device).Read(pipe, 1)[0])
    ensures addr[n..] == old(addr[n..])
  {
    ghost var p1 := old(radio.device).Read(NRF_REG_RX_ADDR_P1, n);
    var _, e1 := ReadReg(radio, NRF_REG_RX_ADDR_P1, addr, n);
    var lsb := new bv8[1];
    var _, e2 := ReadReg(radio, pipe, lsb, 1);
    ghost var tail := addr[n..];
    ghost var rest := addr[1..n];
    assert rest == p1[1..];
    addr[0] := lsb[0];
    assert addr[n..] == tail && addr[1..n] == rest;
    assert addr[..n] == [addr[0]] + addr[1..n];
    ev := e1 + e2;
  }

  /**
   * NRF24_get_rx_pipe_address, as written: after the SETUP_AW read, `size`
   * is lowered to the configured width n; pipes 0 and 1 read n bytes of
   * their own register; pipes 2 to 5 read n-1 bytes of RX_ADDR_P1 into
   * addr[0..n-1) and their own byte into addr[n-1].
   */
  method GetRxPipeAddress(radio: Radio, pipe: AddrPipe, addr: array<bv8>, size: nat)
      returns (ghost halted: bool, ghost ev: seq<Event>)
    requires radio.Initialized()
    requires NRF_PIPE_ADDR_WIDTH_3BYTES <= size <= addr.Length
    modifies radio`device, radio`trace, addr
    ensures radio.trace == old(radio.trace) + ev
    ensures radio.device == old(radio.device)
    ensures 1 <= |ev| && ReadsByte(ev[..1], NRF_REG_SETUP_AW)
    ensures halted <==> ConfiguredWidth(old(radio.device)).None?
    ensures halted ==> |ev| == 1 && addr[..] == old(addr[..])
    ensures !halted ==>
              var n := Clamp(size, ConfiguredWidth(old(radio.device)).value as nat);
              1 <= n && addr[n..] == old(addr[n..])
              && (pipe <= NRF_REG_RX_ADDR_P1 ==>
                    |ev| == 2 && IsRead(ev[1], ReadRegisterCmd(pipe), n)
                    && addr[..n] == old(radio.device).Read(pipe, n))
              && (NRF_REG_RX_ADDR_P1 < pipe ==>
                    |ev| == 3 && IsRead(ev[1], ReadRegisterCmd(NRF_REG_RX_ADDR_P1), n - 1)
                    && IsRead(ev[2], ReadRegisterCmd(pipe), 1)
                    && addr[..n] == PipeAddressAsWritten(old(radio.device).Read(NRF_REG_RX_ADDR_P1, n - 1),
                                                         old(radio.device).Read(pipe, 1)[0]))
  {
    var confAddrWidth, e0 := GetAddressWidth(radio);
    ev := e0;
    if confAddrWidth.None? {
      halted := true;
      return;
    }
    halted := false;
    var n := size;
    if confAddrWidth.value as nat < n {
      n := confAddrWidth.value as nat;
    }
    if pipe <= NRF_REG_RX_ADDR_P1 {
      var _, e1 := ReadReg(radio, pipe, addr, n);
      ev := ev + e1;
    } else {
      var e12 := ReadSharedAddressAsWritten(radio, pipe, addr, n);
      ev := ev + e12;
      assert ev[1] == e12[0] && ev[2] == e12[1];
    }
  }

  /**
   * get_rx_pipe_address with the pipe 2-5 address laid out as the chip uses
   * it: the pipe's own byte first (least significant), then bytes 1..n-1 of
   * RX_ADDR_P1.
   */
  method GetRxPipeAddressLsbFirst(radio: Radio, pipe: AddrPipe, addr: array<bv8>, size: nat)
      returns (ghost halted: bool, ghost ev: seq<Event>)
    requires radio.Initialized()
    requires NRF_PIPE_ADDR_WIDTH_3BYTES <= size <= addr.Length
    modifies radio`device, radio`trace, addr
    ensures radio.trace == old(radio.trace) + ev
    ensures radio.device == old(radio.device)
    ensures 1 <= |ev| && ReadsByte(ev[..1], NRF_REG_SETUP_AW)
    ensures halted <==> ConfiguredWidth(old(radio.device)).None?
    ensures halted ==> |ev| == 1 && addr[..] == old(addr[..])
    ensures !halted ==>
              var n := Clamp(size, ConfiguredWidth(old(radio.device)).value as nat);
              1 <= n && addr[n..] == old(addr[n..])
              && (pipe <= NRF_REG_RX_ADDR_P1 ==>
                    |ev| == 2 && IsRead(ev[1], ReadRegisterCmd(pipe), n)
                    && addr[..n] == old(radio.device).Read(pipe, n))
              && (NRF_REG_RX_ADDR_P1 < pipe ==>
                    |ev| == 3 && IsRead(ev[1], ReadRegisterCmd(NRF_REG_RX_ADDR_P1), n)
                    && IsRead(ev[2], ReadRegisterCmd(pipe), 1)
                    && addr[..n] == PipeAddress(old(radio.device).Read(NRF_REG_RX_ADDR_P1, n),
                                                old(radio.device).Read(pipe, 1)[0]))
  {
    var confAddrWidth, e0 := GetAddressWidth(radio);
    ev := e0;
    if confAddrWidth.None? {
      halted := true;
      return;
    }
    halted := false;
    var n := size;
    if confAddrWidth.value as nat < n {
      n := confAddrWidth.value as nat;
    }
    if pipe <= NRF_REG_RX_ADDR_P1 {
      var _, e1 := ReadReg(radio, pipe, addr, n);
      ev := ev + e1;
    } else {
      var e12 := ReadSharedAddress(radio, pipe, addr, n);
      ev := ev + e12;
      assert ev[1] == e12[0] && ev[2] == e12[1];
    }
  }

  /** NRF24_rx_pipe_enable: set or clear the pipe's EN_RXADDR bit. */
  method RxPipeEnable(radio: Radio, pipe: Pipe, enable: bool) returns (ghost ev: seq<Event>)
    requires radio.Initialized()
    modifies radio`device, radio`trace
    ensures radio.trace == old(radio.trace) + ev
    ensures WritesBit(ev, NRF_REG_EN_RXADDR, pipe, enable)
    ensures radio.device == AfterWriteBit(old(radio.device), NRF_REG_EN_RXADDR, pipe, enable)
  {
    ErxBitIsPipe(pipe);
    if enable {
      ev := SetBit(radio, NRF_REG_EN_RXADDR, ErxBit(pipe));
    } else {
      ev := ClearBit(radio, NRF_REG_EN_RXADDR, ErxBit(pipe));
    }
  }

  /** NRF24_rx_pipe_is_enabled: EN_RXADDR bit `pipe`. */
  method RxPipeIsEnabled(radio: Radio, pipe: Pipe) returns (enabled: bool, ghost ev: seq<Event>)
    requires radio.Initialized()
    modifies radio`device, radio`trace
    ensures radio.trace == old(radio.trace) + ev
    ensures ReadsByte(ev, NRF_REG_EN_RXADDR) && enabled == BitIsSet(ev[0].rx[1], pipe)
    ensures radio.device == old(radio.device)
    ensures enabled == BitIsSet(old(radio.device).Read(NRF_REG_EN_RXADDR, 1)[0], pipe)
  {
    enabled, ev := ReadBit(radio, NRF_REG_EN_RXADDR, pipe);
  }

  /**
   * NRF24_set_tx_address: read the configured width; unless it equals `size`
   * (the driver traps), write `size` bytes of `addr` to TX_ADDR.
   */
  method SetTxAddress(radio: Radio, addr: seq<bv8>, size: nat) returns (ghost halted: bool, ghost ev: seq<Event>)
    requires radio.Initialized()
    requires size <= |addr|
    modifies radio`device, radio`trace
    ensures radio.trace == old(radio.trace) + ev
    ensures 1 <= |ev| && ReadsByte(ev[..1], NRF_REG_SETUP_AW)
    ensures halted <==> !(ConfiguredWidth(old(radio.device)).Some?
                          && ConfiguredWidth(old(radio.device)).value as nat == size)
    ensures halted ==> |ev| == 1 && radio.device == old(radio.device)
    ensures !halted ==> WritesRegister(ev[1..], NRF_REG_TX_ADDR, addr[..size])
                        && radio.device == old(radio.device).Write(NRF_REG_TX_ADDR, addr[..size])
  {
    var confAddrWidth, e0 := GetAddressWidth(radio);
    ev := e0;
    if confAddrWidth.None? || confAddrWidth.value as nat != size {
      halted := true;
      return;
    }
    halted := false;
    var _, e1 := WriteReg(radio, NRF_REG_TX_ADDR, addr, size);
    ev := ev + e1;
    assert ev[1..] == e1;
  }

  /**
   * NRF24_get_tx_address: read the configured width n, then min(size, n)
   * bytes of TX_ADDR into addr.
   */
  method GetTxAddress(radio: Radio, addr: array<bv8>, size: nat) returns (ghost halted: bool, ghost ev: seq<Event>)
    requires radio.Initialized()
    requires size <= addr.Length
    modifies radio`device, radio`trace, addr
    ensures radio.trace == old(radio.trace) + ev
    ensures radio.device == old(radio.device)
    ensures 1 <= |ev| && ReadsByte(ev[..1], NRF_REG_SETUP_AW)
    ensures halted <==> ConfiguredWidth(old(radio.device)).None?
    ensures halted ==> |ev| == 1 && addr[..] == old(addr[..])
    ensures !halted ==>
              var n := Clamp(size, ConfiguredWidth(old(radio.device)).value as nat);
              |ev| == 2 && IsRead(ev[1], ReadRegisterCmd(NRF_REG_TX_ADDR), n)
              && addr[..n] == old(radio.device).Read(NRF_REG_TX_ADDR, n)
              && addr[n..] == old(addr[n..])
  {
    var confAddrWidth, e0 := GetAddressWidth(radio);
    ev := e0;
    if confAddrWidth.None? {
      halted := true;
      return;
    }
    halted := false;
    var n := size;
    if confAddrWidth.value as nat < n {
      n := confAddrWidth.value as nat;
    }
    var _, e1 := ReadReg(radio, NRF_REG_TX_ADDR, addr, n);
    ev := ev + e1;
  }

  // ---------------------------------------------------------------- payload configuration

  /** NRF24_set_payload_size: write the size, lowered to NRF_PAYLOAD_SIZE_MAX when above it, to RX_PW_Px. */
  method SetPayloadSize(radio: Radio, pipe: PayloadPipe, size: bv8) returns (ghost ev: seq<Event>)
    requires radio.Initialized()
    modifies radio`device, radio`trace
    ensures radio.trace == old(radio.trace) + ev
    ensures WritesRegister(ev, pipe, [Clamp(size as nat, NRF_PAYLOAD_SIZE_MAX) as bv8])
    ensures radio.device == old(radio.device).Write(pipe, [Clamp(size as nat, NRF_PAYLOAD_SIZE_MAX) as bv8])
  {
    var sz := size;
    if NRF_PAYLOAD_SIZE_MAX < sz as nat {
      sz := NRF_PAYLOAD_SIZE_MAX as bv8;
    }
    assert [sz][..1] == [sz];
    var _, e := WriteReg(radio, pipe, [sz], 1);
    ev := e;
  }

  /** NRF24_get_payload_size: the byte RX_PW_Px reads back as. */
  method GetPayloadSize(radio: Radio, pipe: PayloadPipe) returns (size: bv8, ghost ev: seq<Event>)
    requires radio.Initialized()
    modifies radio`device, radio`trace
    ensures radio.trace == old(radio.trace) + ev
    ensures ReadsByte(ev, pipe) && size == ev[0].rx[1]
    ensures radio.device == old(radio.device)
    ensures size == old(radio.device).Read(pipe, 1)[0]
  {
    var buf := new bv8[1];
    var _, e := ReadReg(radio, pipe, buf, 1);
    size := buf[0];
    ev := e;
  }

  /** NRF24_reuse_last_transmitted_payload: REUSE_TX_PL, then a CE pulse. */
  method ReuseLastTransmittedPayload(radio: Radio) returns (ghost ev: seq<Event>)
    requires radio.Initialized()
    modifies radio`device, radio`trace
    ensures radio.trace == old(radio.trace) + ev
    ensures 1 <= |ev| && IsCommand(ev[..1], NRF_CMD_REUSE_TX_PL) && ev[1..] == Pulse
    ensures radio.device == old(radio.device)
  {
    var _, e1 := ReuseTxPayload(radio);
    var e2 := TransmitPulse(radio);
    ev := e1 + e2;
    assert ev[..1] == e1 && ev[1..] == e2;
  }

  /** NRF24_enable_dynamic_payload: FEATURE's EN_ACK_PAY and EN_DPL field set to the enabling values. */
  method EnableDynamicPayload(radio: Radio) returns (ghost ev: seq<Event>)
    requires radio.Initialized()
    modifies radio`device, radio`trace
    ensures radio.trace == old(radio.trace) + ev
    ensures UpdatesBits(ev, NRF_REG_FEATURE, DynamicPayloadMask,
                        NRF_ENABLE_DYN_PAYLOAD_LEN | NRF_ENABLE_PAYLOAD_WITH_ACK)
    ensures radio.device == AfterWriteBits(old(radio.device), NRF_REG_FEATURE, DynamicPayloadMask,
                                           NRF_ENABLE_DYN_PAYLOAD_LEN | NRF_ENABLE_PAYLOAD_WITH_ACK)
  {
    ev := WriteBits(radio, NRF_REG_FEATURE, DynamicPayloadMask,
                    NRF_ENABLE_DYN_PAYLOAD_LEN | NRF_ENABLE_PAYLOAD_WITH_ACK);
  }

  /** NRF24_disable_dynamic_payload: the same field set to the disabling values. */
  method DisableDynamicPayload(radio: Radio) returns (ghost ev: seq<Event>)
    requires radio.Initialized()
    modifies radio`device, radio`trace
    ensures radio.trace == old(radio.trace) + ev
    ensures UpdatesBits(ev, NRF_REG_FEATURE, DynamicPayloadMask,
                        NRF_DISABLE_DYN_PAYLOAD_LEN | NRF_DISABLE_PAYLOAD_WITH_ACK)
    ensures radio.device == AfterWriteBits(old(radio.device), NRF_REG_FEATURE, DynamicPayloadMask,
                                           NRF_DISABLE_DYN_PAYLOAD_LEN | NRF_DISABLE_PAYLOAD_WITH_ACK)
  {
    ev := WriteBits(radio, NRF_REG_FEATURE, DynamicPayloadMask,
                    NRF_DISABLE_DYN_PAYLOAD_LEN | NRF_DISABLE_PAYLOAD_WITH_ACK);
  }

  /** NRF24_enable_dynamic_payload_on_pipe: set bit `pipe` of EN_AA, then of DYNPD. */
  method EnableDynamicPayloadOnPipe(radio: Radio, pipe: Pipe) returns (ghost ev: seq<Event>)
    requires radio.Initialized()
    modifies radio`device, radio`trace
    ensures radio.trace == old(radio.trace) + ev
    ensures |ev| == 4 && WritesBit(ev[..2], NRF_REG_EN_AA, pipe, true) && WritesBit(ev[2..], NRF_REG_DYNPD, pipe, true)
    ensures radio.device ==
              AfterWriteBit(AfterWriteBit(old(radio.device), NRF_REG_EN_AA, pipe, true), NRF_REG_DYNPD, pipe, true)
  {
    var e1 := SetBit(radio, NRF_REG_EN_AA, pipe);
    var e2 := SetBit(radio, NRF_REG_DYNPD, pipe);
    ev := e1 + e2;
    assert ev[..2] == e1;
    assert ev[2..] == e2;
  }

  /** NRF24_disable_dynamic_payload_on_pipe: clear bit `pipe` of EN_AA, then of DYNPD. */
  method DisableDynamicPayloadOnPipe(radio: Radio, pipe: Pipe) returns (ghost ev: seq<Event>)
    requires radio.Initialized()
    modifies radio`device, radio`trace
    ensures radio.trace == old(radio.trace) + ev
    ensures |ev| == 4 && WritesBit(ev[..2], NRF_REG_EN_AA, pipe, false) && WritesBit(ev[2..], NRF_REG_DYNPD, pipe, false)
    ensures radio.device ==
              AfterWriteBit(AfterWriteBit(old(radio.device), NRF_REG_EN_AA, pipe, false), NRF_REG_DYNPD, pipe, false)
  {
    var e1 := ClearBit(radio, NRF_REG_EN_AA, pipe);
    var e2 := ClearBit(radio, NRF_REG_DYNPD, pipe);
    ev := e1 + e2;
    assert ev[..2] == e1;
    assert ev[2..] == e2;
  }

  /** NRF24_enable_dynamic_payload_length: set FEATURE.EN_DPL. */
  method EnableDynamicPayloadLength(radio: Radio) returns (ghost ev: seq<Event>)
    requires radio.Initialized()
    modifies radio`device, radio`trace
    ensures radio.trace == old(radio.trace) + ev
    ensures WritesBit(ev, NRF_REG_FEATURE, NRF_FEATURE_BIT_EN_DPL, true)
    ensures radio.device == AfterWriteBit(old(radio.device), NRF_REG_FEATURE, NRF_FEATURE_BIT_EN_DPL, true)
  {
    ev := SetBit(radio, NRF_REG_FEATURE, NRF_FEATURE_BIT_EN_DPL);
  }

  /** NRF24_disable_dynamic_payload_length: clear FEATURE.EN_DPL. */
  method DisableDynamicPayloadLength(radio: Radio) returns (ghost ev: seq<Event>)
    requires radio.Initialized()
    modifies radio`device, radio`trace
    ensures radio.trace == old(radio.trace) + ev
    ensures WritesBit(ev, NRF_REG_FEATURE, NRF_FEATURE_BIT_EN_DPL, false)
    ensures radio.device == AfterWriteBit(old(radio.device), NRF_REG_FEATURE, NRF_FEATURE_BIT_EN_DPL, false)
  {
    ev := ClearBit(radio, NRF_REG_FEATURE, NRF_FEATURE_BIT_EN_DPL);
  }

  /** NRF24_enable_payload_with_ack: set FEATURE.EN_ACK_PAY. */
  method EnablePayloadWithAck(radio: Radio) returns (ghost ev: seq<Event>)
    requires radio.Initialized()
    modifies radio`device, radio`trace
    ensures radio.trace == old(radio.trace) + ev
    ensures WritesBit(ev, NRF_REG_FEATURE, NRF_FEATURE_BIT_EN_ACK_PAY, true)
    ensures radio.device == AfterWriteBit(old(radio.device), NRF_REG_FEATURE, NRF_FEATURE_BIT_EN_ACK_PAY, true)
  {
    ev := SetBit(radio, NRF_REG_FEATURE, NRF_FEATURE_BIT_EN_ACK_PAY);
  }

  /** NRF24_disable_payload_with_ack: clear FEATURE.EN_ACK_PAY. */
  method DisablePayloadWithAck(radio: Radio) returns (ghost ev: seq<Event>)
    requires radio.Initialized()
    modifies radio`device, radio`trace
    ensures radio.trace == old(radio.trace) + ev
    ensures WritesBit(ev, NRF_REG_FEATURE, NRF_FEATURE_BIT_EN_ACK_PAY, false)
    ensures radio.device == AfterWriteBit(old(radio.device), NRF_REG_FEATURE, NRF_FEATURE_BIT_EN_ACK_PAY, false)
  {
    ev := ClearBit(radio, NRF_REG_FEATURE, NRF_FEATURE_BIT_EN_ACK_PAY);
  }

  /** NRF24_enable_payload_with_no_ack: set FEATURE.EN_DYN_ACK. */
  method EnablePayloadWithNoAck(radio: Radio) returns (ghost ev: seq<Event>)
    requires radio.Initialized()
    modifies radio`device, radio`trace
    ensures radio.trace == old(radio.trace) + ev
    ensures WritesBit(ev, NRF_REG_FEATURE, NRF_FEATURE_BIT_EN_DYN_ACK, true)
    ensures radio.device == AfterWriteBit(old(radio.device), NRF_REG_FEATURE, NRF_FEATURE_BIT_EN_DYN_ACK, true)
  {
    ev := SetBit(radio, NRF_REG_FEATURE, NRF_FEATURE_BIT_EN_DYN_ACK);
  }

  /** NRF24_disable_payload_with_no_ack: clear FEATURE.EN_DYN_ACK. */
  method DisablePayloadWithNoAck(radio: Radio) returns (ghost ev: seq<Event>)
    requires radio.Initialized()
    modifies radio`device, radio`trace
    ensures radio.trace == old(radio.trace) + ev
    ensures WritesBit(ev, NRF_REG_FEATURE, NRF_FEATURE_BIT_EN_DYN_ACK, false)
    ensures radio.device == AfterWriteBit(old(radio.device), NRF_REG_FEATURE, NRF_FEATURE_BIT_EN_DYN_ACK, false)
  {
    ev := ClearBit(radio, NRF_REG_FEATURE, NRF_FEATURE_BIT_EN_DYN_ACK);
  }

  // ---------------------------------------------------------------- CE control

  /** NRF24_start_listening: CE high. */
  method StartListening(radio: Radio) returns (ghost ev: seq<Event>)
    requires radio.Initialized()
    modifies radio`trace
    ensures radio.trace == old(radio.trace) + ev
    ensures ev == [Ce(true)]
  {
    var e := radio.SetCe(true);
    ev := [e];
  }

  /** NRF24_stop_listening: CE low. */
  method StopListening(radio: Radio) returns (ghost ev: seq<Event>)
    requires radio.Initialized()
    modifies radio`trace
    ensures radio.trace == old(radio.trace) + ev
    ensures ev == [Ce(false)]
  {
    var e := radio.SetCe(false);
    ev := [e];
  }

  /** NRF24_transmit_pulse: CE high, the delay callback with NRF_CE_PULSE_WIDTH_US, CE low. */
  method TransmitPulse(radio: Radio) returns (ghost ev: seq<Event>)
    requires radio.Initialized()
    modifies radio`trace
    ensures radio.trace == old(radio.trace) + ev
    ensures ev == Pulse
  {
    var e1 := radio.SetCe(true);
    var e2 := radio.DelayMs(NRF_CE_PULSE_WIDTH_US);
    var e3 := radio.SetCe(false);
    ev := [e1, e2, e3];
  }

  // ---------------------------------------------------------------- status registers

  /** NRF24_get_status: STATUS, through a NOP. */
  method GetStatus(radio: Radio) returns (status: bv8, ghost ev: seq<Event>)
    requires radio.Initialized()
    modifies radio`device, radio`trace
    ensures radio.trace == old(radio.trace) + ev
    ensures IsCommand(ev, NRF_CMD_NOP) && status == ev[0].rx[0]
    ensures status == old(radio.device).Status() && radio.device == old(radio.device)
  {
    status, ev := Nop(radio);
  }

  /** NRF24_get_fifo_status: the FIFO_STATUS byte. */
  method GetFifoStatus(radio: Radio) returns (fifoStatus: bv8, ghost ev: seq<Event>)
    requires radio.Initialized()
    modifies radio`device, radio`trace
    ensures radio.trace == old(radio.trace) + ev
    ensures ReadsByte(ev, NRF_REG_FIFO_STATUS) && fifoStatus == ev[0].rx[1]
    ensures radio.device == old(radio.device)
    ensures fifoStatus == old(radio.device).Read(NRF_REG_FIFO_STATUS, 1)[0]
  {
    var buf := new bv8[1];
    var _, e := ReadReg(radio, NRF_REG_FIFO_STATUS, buf, 1);
    fifoStatus := buf[0];
    ev := e;
  }

  /** NRF24_get_retransmissions_count: OBSERVE_TX's ARC_CNT field. */
  method GetRetransmissionsCount(radio: Radio) returns (count: bv8, ghost ev: seq<Event>)
    requires radio.Initialized()
    modifies radio`device, radio`trace
    ensures radio.trace == old(radio.trace) + ev
    ensures ReadsByte(ev, NRF_REG_OBSERVE_TX) && count == RetransmitCount(ev[0].rx[1])
    ensures count == RetransmitCount(old(radio.device).Read(NRF_REG_OBSERVE_TX, 1)[0])
    ensures count <= 15 && radio.device == old(radio.device)
  {
    var buf := new bv8[1];
    var _, e := ReadReg(radio, NRF_REG_OBSERVE_TX, buf, 1);
    count := buf[0] & NRF_OBSERVE_TX_ARC_CNT_MASK;
    ev := e;
  }

  /** NRF24_get_lost_packets_count: OBSERVE_TX's PLOS_CNT field. */
  method GetLostPacketsCount(radio: Radio) returns (lostPackets: bv8, ghost ev: seq<Event>)
    requires radio.Initialized()
    modifies radio`device, radio`trace
    ensures radio.trace == old(radio.trace) + ev
    ensures ReadsByte(ev, NRF_REG_OBSERVE_TX) && lostPackets == LostPackets(ev[0].rx[1])
    ensures lostPackets == LostPackets(old(radio.device).Read(NRF_REG_OBSERVE_TX, 1)[0])
    ensures lostPackets <= 15 && radio.device == old(radio.device)
  {
    var buf := new bv8[1];
    var _, e := ReadReg(radio, NRF_REG_OBSERVE_TX, buf, 1);
    lostPackets := buf[0] & NRF_OBSERVE_TX_PLOS_CNT_MASK;
    lostPackets := lostPackets >> NRF_OBSERVE_TX_BIT_PLOS_CNT;
    ev := e;
  }

  // ---------------------------------------------------------------- payload transfer

  /** NRF24_put_in_tx_fifo: at most NRF_PAYLOAD_SIZE_MAX bytes through W_TX_PAYLOAD. */
  method PutInTxFifo(radio: Radio, payload: seq<bv8>, payloadSize: nat) returns (ghost ev: seq<Event>)
    requires radio.Initialized()
    requires payloadSize <= NRF_PAYLOAD_SIZE_MAX && payloadSize <= |payload|
    modifies radio`device, radio`trace
    ensures radio.trace == old(radio.trace) + ev
    ensures |ev| == 1 && IsWrite(ev[0], NRF_CMD_W_TX_PAYLOAD, payload[..payloadSize])
    ensures radio.device == old(radio.device)
  {
    var _, e := WriteTxPayload(radio, payload, payloadSize);
    ev := e;
  }

  /** NRF24_transmit: load the payload, then pulse CE. */
  method Transmit(radio: Radio, payload: seq<bv8>, payloadSize: nat) returns (ghost ev: seq<Event>)
    requires radio.Initialized()
    requires payloadSize <= NRF_PAYLOAD_SIZE_MAX && payloadSize <= |payload|
    modifies radio`device, radio`trace
    ensures radio.trace == old(radio.trace) + ev
    ensures |ev| == 4 && IsWrite(ev[0], NRF_CMD_W_TX_PAYLOAD, payload[..payloadSize]) && ev[1..] == Pulse
    ensures radio.device == old(radio.device)
  {
    var e1 := PutInTxFifo(radio, payload, payloadSize);
    var e2 := TransmitPulse(radio);
    ev := e1 + e2;
    assert ev[1..] == e2;
  }

  /** NRF24_is_data_ready: STATUS's RX_DR bit, in place. */
  method IsDataReady(radio: Radio) returns (ready: bv8, ghost ev: seq<Event>)
    requires radio.Initialized()
    modifies radio`device, radio`trace
    ensures radio.trace == old(radio.trace) + ev
    ensures IsCommand(ev, NRF_CMD_NOP) && ready == DataReady(ev[0].rx[0])
    ensures ready == DataReady(old(radio.device).Status()) && radio.device == old(radio.device)
  {
    var status;
    status, ev := GetStatus(radio);
    ready := NRF_STATUS_RX_DR_MASK & status;
  }

  /** NRF24_get_rx_payload: CE low, read the payload, CE high. */
  method GetRxPayload(radio: Radio, payload: array<bv8>, payloadSize: nat) returns (ghost ev: seq<Event>)
    requires radio.Initialized()
    requires payloadSize <= payload.Length
    modifies radio`device, radio`trace, payload
    ensures radio.trace == old(radio.trace) + ev
    ensures |ev| == 3 && ev[0] == Ce(false) && IsRead(ev[1], NRF_CMD_R_RX_PAYLOAD, payloadSize) && ev[2] == Ce(true)
    ensures payload[..payloadSize] == ev[1].rx[1..] && payload[payloadSize..] == old(payload[payloadSize..])
    ensures radio.device == old(radio.device)
  {
    var e1 := radio.SetCe(false);
    var _, e2 := ReadRxPayload(radio, payload, payloadSize);
    var e3 := radio.SetCe(true);
    ev := [e1] + e2 + [e3];
  }

  /** NRF24_tx_transmit_no_ack: fewer than NRF_PAYLOAD_SIZE_MAX bytes through W_TX_PAYLOAD_NOACK, then a CE pulse. */
  method TxTransmitNoAck(radio: Radio, payload: seq<bv8>, payloadSize: nat) returns (ghost ev: seq<Event>)
    requires radio.Initialized()
    requires payloadSize < NRF_PAYLOAD_SIZE_MAX && payloadSize <= |payload|
    modifies radio`device, radio`trace
    ensures radio.trace == old(radio.trace) + ev
    ensures |ev| == 4 && IsWrite(ev[0], NRF_CMD_W_TX_PAYLOAD_NO_ACK, payload[..payloadSize]) && ev[1..] == Pulse
    ensures radio.device == old(radio.device)
  {
    var _, e1 := PayloadWithoutAck(radio, payload, payloadSize);
    var e2 := TransmitPulse(radio);
    ev := e1 + e2;
    assert ev[1..] == e2;
  }

  /** NRF24_rx_write_payload: an ACK payload for `pipe`, cut to NRF_PAYLOAD_SIZE_MAX bytes. */
  method RxWritePayload(radio: Radio, pipe: Pipe, payload: seq<bv8>, payloadSize: nat) returns (ghost ev: seq<Event>)
    requires radio.Initialized()
    requires Clamp(payloadSize, NRF_PAYLOAD_SIZE_MAX) <= |payload|
    modifies radio`device, radio`trace
    ensures radio.trace == old(radio.trace) + ev
    ensures |ev| == 1
    ensures IsWrite(ev[0], NRF_CMD_W_ACK_PAYLOAD | pipe, payload[..Clamp(payloadSize, NRF_PAYLOAD_SIZE_MAX)])
    ensures radio.device == old(radio.device)
  {
    var size := payloadSize;
    if NRF_PAYLOAD_SIZE_MAX < size {
      size := NRF_PAYLOAD_SIZE_MAX;
    }
    var _, e := PayloadWriteAck(radio, pipe, payload, size);
    ev := e;
  }

  /** NRF24_get_data_pipe_with_payload: RX_P_NO of the STATUS register, read as a register. */
  method GetDataPipeWithPayload(radio: Radio) returns (pipe: bv8, ghost ev: seq<Event>)
    requires radio.Initialized()
    modifies radio`device, radio`trace
    ensures radio.trace == old(radio.trace) + ev
    ensures ReadsByte(ev, NRF_REG_STATUS) && pipe == PipeWithPayload(ev[0].rx[1])
    ensures pipe == PipeWithPayload(old(radio.device).Status())
    ensures pipe <= 7 && radio.device == old(radio.device)
  {
    var buf := new bv8[1];
    var _, e := ReadReg(radio, NRF_REG_STATUS, buf, 1);
    pipe := (buf[0] & NRF_STATUS_PIPES_MASK) >> NRF_STATUS_PIPES_SHIFT;
    ev := e;
  }

  /** NRF24_received_power_detector: RPD bit 0. */
  method ReceivedPowerDetector(radio: Radio) returns (detected: bool, ghost ev: seq<Event>)
    requires radio.Initialized()
    modifies radio`device, radio`trace
    ensures radio.trace == old(radio.trace) + ev
    ensures ReadsByte(ev, NRF_REG_RPD) && detected == BitIsSet(ev[0].rx[1], NRF_RPD_BIT_RPD)
    ensures radio.device == old(radio.device)
    ensures detected == BitIsSet(old(radio.device).Read(NRF_REG_RPD, 1)[0], NRF_RPD_BIT_RPD)
  {
    detected, ev := ReadBit(radio, NRF_REG_RPD, NRF_RPD_BIT_RPD);
  }

  /** NRF24_is_tx_fifo_full: FIFO_STATUS.TX_FULL. */
  method IsTxFifoFull(radio: Radio) returns (full: bool, ghost ev: seq<Event>)
    requires radio.Initialized()
    modifies radio`device, radio`trace
    ensures radio.trace == old(radio.trace) + ev
    ensures ReadsByte(ev, NRF_REG_FIFO_STATUS) && full == BitIsSet(ev[0].rx[1], NRF_FIFO_STATUS_BIT_TX_FULL)
    ensures radio.device == old(radio.device)
    ensures full == BitIsSet(old(radio.device).Read(NRF_REG_FIFO_STATUS, 1)[0], NRF_FIFO_STATUS_BIT_TX_FULL)
  {
    full, ev := ReadBit(radio, NRF_REG_FIFO_STATUS, NRF_FIFO_STATUS_BIT_TX_FULL);
  }

  /** NRF24_is_rx_fifo_empty: FIFO_STATUS.RX_EMPTY. */
  method IsRxFifoEmpty(radio: Radio) returns (empty: bool, ghost ev: seq<Event>)
    requires radio.Initialized()
    modifies radio`device, radio`trace
    ensures radio.trace == old(radio.trace) + ev
    ensures ReadsByte(ev, NRF_REG_FIFO_STATUS) && empty == BitIsSet(ev[0].rx[1], NRF_FIFO_STATUS_BIT_RX_EMPTY)
    ensures radio.device == old(radio.device)
    ensures empty == BitIsSet(old(radio.device).Read(NRF_REG_FIFO_STATUS, 1)[0], NRF_FIFO_STATUS_BIT_RX_EMPTY)
  {
    empty, ev := ReadBit(radio, NRF_REG_FIFO_STATUS, NRF_FIFO_STATUS_BIT_RX_EMPTY);
  }

  /** NRF24_test_carrier: the same RPD bit as received_power_detector. */
  method TestCarrier(radio: Radio) returns (carrier: bool, ghost ev: seq<Event>)
    requires radio.Initialized()
    modifies radio`device, radio`trace
    ensures radio.trace == old(radio.trace) + ev
    ensures ReadsByte(ev, NRF_REG_RPD) && carrier == BitIsSet(ev[0].rx[1], NRF_RPD_BIT_RPD)
    ensures radio.device == old(radio.device)
    ensures carrier == BitIsSet(old(radio.device).Read(NRF_REG_RPD, 1)[0], NRF_RPD_BIT_RPD)
  {
    carrier, ev := ReadBit(radio, NRF_REG_RPD, NRF_RPD_BIT_RPD);
  }

  // ---------------------------------------------------------------- interrupts

  /** NRF24_clear_all_irqs: write RX_DR|TX_DS|MAX_RT to STATUS, clearing the three flags. */
  method ClearAllIrqs(radio: Radio) returns (ghost ev: seq<Event>)
    requires radio.Initialized()
    modifies radio`device, radio`trace
    ensures radio.trace == old(radio.trace) + ev
    ensures WritesRegister(ev, NRF_REG_STATUS, [NRF_ALL_IRQ_MASK])
    ensures radio.device.Status() & NRF_ALL_IRQ_MASK == 0
    ensures radio.device.Status() & !NRF_ALL_IRQ_MASK == old(radio.device).Status() & !NRF_ALL_IRQ_MASK
    ensures forall reg: Reg :: reg != NRF_REG_STATUS ==> radio.device.Stored(reg) == old(radio.device).Stored(reg)
  {
    var mask := NRF_ALL_IRQ_MASK;
    assert [mask][..1] == [mask];
    var _, e := WriteReg(radio, NRF_REG_STATUS, [mask], 1);
    ev := e;
  }

  /**
   * NRF24_clear_irq_flag as written: read STATUS with a NOP and write it
   * back with `irqFlag` ORed in. Every flag pending at the time is written
   * as 1 too, so all of them are cleared, not just `irqFlag`.
   */
  method ClearIrqFlagAsWritten(radio: Radio, irqFlag: bv8) returns (ghost ev: seq<Event>)
    requires radio.Initialized()
    modifies radio`device, radio`trace
    ensures radio.trace == old(radio.trace) + ev
    ensures |ev| == 2 && IsCommand(ev[..1], NRF_CMD_NOP)
    ensures IsWrite(ev[1], WriteRegisterCmd(NRF_REG_STATUS), [ClearIrqValueAsWritten(ev[0].rx[0], irqFlag)])
    ensures radio.device == old(radio.device).Write(NRF_REG_STATUS, [ClearIrqValueAsWritten(old(radio.device).Status(), irqFlag)])
    ensures radio.device.Status() & NRF_ALL_IRQ_MASK == 0
  {
    var status, e1 := GetStatus(radio);
    status := status | irqFlag;
    assert [status][..1] == [status];
    var _, e2 := WriteReg(radio, NRF_REG_STATUS, [status], 1);
    ev := e1 + e2;
    assert ev[..1] == e1;
  }

  /**
   * clear_irq_flag as its documentation describes it: a 1 written to the
   * `irqFlag` bits only, so every other pending flag stays pending.
   */
  method ClearIrqFlag(radio: Radio, irqFlag: bv8) returns (ghost ev: seq<Event>)
    requires radio.Initialized()
    requires IsIrqFlag(irqFlag)
    modifies radio`device, radio`trace
    ensures radio.trace == old(radio.trace) + ev
    ensures |ev| == 2 && IsCommand(ev[..1], NRF_CMD_NOP)
    ensures IsWrite(ev[1], WriteRegisterCmd(NRF_REG_STATUS), [ClearIrqValue(ev[0].rx[0], irqFlag)])
    ensures radio.device == old(radio.device).Write(NRF_REG_STATUS, [ClearIrqValue(old(radio.device).Status(), irqFlag)])
    ensures radio.device.Status() == old(radio.device).Status() & !irqFlag
  {
    var status, e1 := GetStatus(radio);
    var value := ClearIrqValue(status, irqFlag);
    assert [value][..1] == [value];
    var _, e2 := WriteReg(radio, NRF_REG_STATUS, [value], 1);
    ev := e1 + e2;
    assert ev[..1] == e1;
  }

  /** NRF24_get_irq_flag: the pending flags of STATUS, read through a NOP; nothing is written. */
  method GetIrqFlag(radio: Radio) returns (flags: bv8, ghost ev: seq<Event>)
    requires radio.Initialized()
    modifies radio`device, radio`trace
    ensures radio.trace == old(radio.trace) + ev
    ensures IsCommand(ev, NRF_CMD_NOP) && flags == IrqFlags(ev[0].rx[0])
    ensures flags == IrqFlags(old(radio.device).Status()) && radio.device == old(radio.device)
  {
    var status;
    status, ev := Nop(radio);
    flags := NRF_ALL_IRQ_MASK & status;
  }

  /** NRF24_get_status_clear_irq: the STATUS byte shifted out while all three flags are cleared. */
  method GetStatusClearIrq(radio: Radio) returns (status: bv8, ghost ev: seq<Event>)
    requires radio.Initialized()
    modifies radio`device, radio`trace
    ensures radio.trace == old(radio.trace) + ev
    ensures WritesRegister(ev, NRF_REG_STATUS, [NRF_ALL_IRQ_MASK]) && status == ev[0].rx[0]
    ensures status == old(radio.device).Status()
    ensures radio.device == old(radio.device).Write(NRF_REG_STATUS, [NRF_ALL_IRQ_MASK])
    ensures radio.device.Status() & NRF_ALL_IRQ_MASK == 0
    ensures radio.device.Status() & !NRF_ALL_IRQ_MASK == old(radio.device).Status() & !NRF_ALL_IRQ_MASK
  {
    var mask := NRF_ALL_IRQ_MASK;
    assert [mask][..1] == [mask];
    status, ev := WriteReg(radio, NRF_REG_STATUS, [mask], 1);
  }

  // ---------------------------------------------------------------- command wrappers

  /** NRF24_flush_rx. */
  method FlushRx(radio: Radio) returns (ghost ev: seq<Event>)
    requires radio.Initialized()
    modifies radio`device, radio`trace
    ensures radio.trace == old(radio.trace) + ev
    ensures IsCommand(ev, NRF_CMD_FLUSH_RX) && radio.device == old(radio.device)
  {
    var _, e := Commands.FlushRx(radio);
    ev := e;
  }

  /** NRF24_flush_tx. */
  method FlushTx(radio: Radio) returns (ghost ev: seq<Event>)
    requires radio.Initialized()
    modifies radio`device, radio`trace
    ensures radio.trace == old(radio.trace) + ev
    ensures IsCommand(ev, NRF_CMD_FLUSH_TX) && radio.device == old(radio.device)
  {
    var _, e := Commands.FlushTx(radio);
    ev := e;
  }
}
