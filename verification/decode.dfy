/**
 * The pure byte logic of the public API (src/NRF24.c): argument clamps,
 * the SETUP_AW decode, the STATUS / OBSERVE_TX field extractors, the
 * pipe-to-EN_RXADDR-bit switch, the value clear_irq_flag writes and the
 * layout of a pipe 2-5 address.
 */
module Decode {
  import opened Defs
  import opened Wrappers
  import opened Bits

  /** `if (limit < value) value = limit;` */
  function Clamp(value: nat, limit: nat): (r: nat)
    ensures r <= value && r <= limit
    ensures r == value || r == limit
  {
    if limit < value then limit else value
  }

  /** The same clamp on a byte-wide argument, as set_channel applies it to RF_CH. */
  function ClampByte(value: bv8, limit: bv8): (r: bv8)
    ensures r <= value && r <= limit
    ensures r == value || r == limit
  {
    if limit < value then limit else value
  }

  /** SETUP_AW's AW field to an address width in bytes: 01b, 10b, 11b are 3, 4, 5 bytes, 00b is illegal. */
  function DecodeAddressWidth(setupAw: bv8): (width: Option<bv8>)
    ensures width.Some? <==> 1 <= setupAw <= 3
    ensures width.Some? ==> 3 <= width.value <= 5 && width.value == setupAw + 2
  {
    match setupAw
    case 1 => Some(3)
    case 2 => Some(4)
    case 3 => Some(5)
    case _ => None
  }

  /** The SETUP_AW value that selects a width of 3, 4 or 5 bytes. */
  function EncodeAddressWidth(width: bv8): (setupAw: bv8)
    requires 3 <= width <= 5
    ensures 1 <= setupAw <= 3
  {
    width - 2
  }

  /** Encoding a legal width and decoding it gives the width back, and every legal SETUP_AW is such an encoding. */
  lemma AddressWidthRoundTrip(width: bv8, setupAw: bv8)
    ensures 3 <= width <= 5 ==> DecodeAddressWidth(EncodeAddressWidth(width)) == Some(width)
    ensures DecodeAddressWidth(setupAw) == Some(width) ==> EncodeAddressWidth(width) == setupAw
  {
  }

  /** EN_RXADDR bit of a pipe, as rx_pipe_enable's switch chooses it. */
  function ErxBit(pipe: Pipe): (pos: bv8)
    ensures pos < 8
  {
    match pipe
    case 0 => NRF_EN_RXADDR_BIT_ERX_P0
    case 1 => NRF_EN_RXADDR_BIT_ERX_P1
    case 2 => NRF_EN_RXADDR_BIT_ERX_P2
    case 3 => NRF_EN_RXADDR_BIT_ERX_P3
    case 4 => NRF_EN_RXADDR_BIT_ERX_P4
    case 5 => NRF_EN_RXADDR_BIT_ERX_P5
  }

  /** The switch in rx_pipe_enable selects the same bit rx_pipe_is_enabled reads: the pipe number itself. */
  lemma ErxBitIsPipe(pipe: Pipe)
    ensures ErxBit(pipe) == pipe
  {
  }

  /** `NRF_ALL_IRQ_MASK & status`: RX_DR, TX_DS and MAX_RT in place, every other bit 0. */
  function IrqFlags(status: bv8): (flags: bv8)
    ensures flags & !NRF_ALL_IRQ_MASK == 0
    ensures flags & NRF_STATUS_RX_DR_MASK == status & NRF_STATUS_RX_DR_MASK
    ensures flags & NRF_STATUS_TX_DS_MASK == status & NRF_STATUS_TX_DS_MASK
    ensures flags & NRF_STATUS_MAX_RT_MASK == status & NRF_STATUS_MAX_RT_MASK
  {
    NRF_ALL_IRQ_MASK & status
  }

  /** `NRF_STATUS_RX_DR_MASK & status`: non-zero exactly when RX_DR is set. */
  function DataReady(status: bv8): (ready: bv8)
    ensures ready == 0 || ready == NRF_STATUS_RX_DR_MASK
    ensures ready != 0 <==> status & 0x40 != 0
  {
    NRF_STATUS_RX_DR_MASK & status
  }

  /** STATUS bits 3:1, RX_P_NO: the pipe of the payload at the head of the RX FIFO (6 unused, 7 empty). */
  function PipeWithPayload(status: bv8): (pipe: bv8)
    ensures pipe <= 7
    ensures pipe << NRF_STATUS_PIPES_SHIFT == status & NRF_STATUS_PIPES_MASK
  {
    (status & NRF_STATUS_PIPES_MASK) >> NRF_STATUS_PIPES_SHIFT
  }

  /** OBSERVE_TX bits 3:0, ARC_CNT. */
  function RetransmitCount(observeTx: bv8): (count: bv8)
    ensures count <= 15
  {
    observeTx & NRF_OBSERVE_TX_ARC_CNT_MASK
  }

  /** OBSERVE_TX bits 7:4, PLOS_CNT. */
  function LostPackets(observeTx: bv8): (count: bv8)
    ensures count <= 15
  {
    (observeTx & NRF_OBSERVE_TX_PLOS_CNT_MASK) >> NRF_OBSERVE_TX_BIT_PLOS_CNT
  }

  /** The two OBSERVE_TX counters together are the whole register. */
  lemma ObserveTxSplit(observeTx: bv8)
    ensures (LostPackets(observeTx) << NRF_OBSERVE_TX_BIT_PLOS_CNT) | RetransmitCount(observeTx) == observeTx
  {
  }

  /** An IRQ flag selector: a subset of RX_DR, TX_DS, MAX_RT. */
  predicate IsIrqFlag(flag: bv8) {
    flag & !NRF_ALL_IRQ_MASK == 0
  }

  /** The byte clear_irq_flag writes to STATUS: the STATUS just read, with `flag` ORed in. */
  function ClearIrqValueAsWritten(status: bv8, flag: bv8): (written: bv8)
    ensures written & flag == flag
    ensures written & NRF_ALL_IRQ_MASK == (status | flag) & NRF_ALL_IRQ_MASK
  {
    status | flag
  }

  /** The byte that clears `flag` and no other flag: the read-only bits as read, 1 only in `flag`'s IRQ bits. */
  function ClearIrqValue(status: bv8, flag: bv8): (written: bv8)
    requires IsIrqFlag(flag)
    ensures written & NRF_ALL_IRQ_MASK == flag
    ensures written & !NRF_ALL_IRQ_MASK == status & !NRF_ALL_IRQ_MASK
  {
    (status & !NRF_ALL_IRQ_MASK) | flag
  }

  /**
   * The address of pipe 2-5 as the chip uses it (section 9.1 of the
   * nRF24L01+ Product Specification): the pipe's own register is the least
   * significant byte, sent first; the other bytes are those of RX_ADDR_P1.
   */
  function PipeAddress(p1: seq<bv8>, lsb: bv8): (addr: seq<bv8>)
    requires 1 <= |p1|
    ensures |addr| == |p1| && addr[0] == lsb && addr[1..] == p1[1..]
  {
    [lsb] + p1[1..]
  }

  /** What get_rx_pipe_address assembles for pipe 2-5: `size-1` bytes of RX_ADDR_P1, then the pipe's byte last. */
  function PipeAddressAsWritten(p1Prefix: seq<bv8>, lsb: bv8): (addr: seq<bv8>)
    ensures |addr| == |p1Prefix| + 1 && addr[|p1Prefix|] == lsb && addr[..|p1Prefix|] == p1Prefix
  {
    p1Prefix + [lsb]
  }
}
