/**
 * The radio handle and the three injected transport callbacks.
 *
 * A `Radio` is the driver's handle: the four callback slots that init fills
 * in, the chip at the far end of the SPI callback, and a ghost log of every
 * bus event in the order the driver produced it. The HAL forwards
 * (NRF24_hal_spi_xfer, NRF24_hal_set_ce, NRF24_hal_delay) are the methods
 * Transfer, SetCe and DelayMs: each performs its event and appends it to the
 * log.
 */
module Bus {
  import opened Defs
  import opened Wrappers
  import opened Device

  /** The address of a user-supplied callback function. */
  datatype Callback = Callback(address: nat)

  /** What the driver does on the wires. */
  datatype Event =
    | Xfer(tx: seq<bv8>, rx: seq<bv8>)  // one full-duplex SPI frame: bytes sent, bytes received
    | Ce(high: bool)                    // a CE level write
    | Delay(ms: nat)                    // a call to the delay callback

  /** An (n+1)-byte frame opened by `cmd`; the n bytes that follow it are don't-care. */
  predicate IsRead(e: Event, cmd: bv8, n: nat) {
    e.Xfer? && |e.tx| == n + 1 && |e.rx| == n + 1 && e.tx[0] == cmd
  }

  /** The frame `cmd` followed by exactly `data`. */
  predicate IsWrite(e: Event, cmd: bv8, data: seq<bv8>) {
    e.Xfer? && e.tx == [cmd] + data && |e.rx| == |e.tx|
  }

  /** `R_REGISTER | reg`. */
  function ReadRegisterCmd(reg: Reg): (cmd: bv8)
    ensures cmd & NRF_CMD_CLASS_MASK == NRF_CMD_R_REGISTER
    ensures cmd & NRF_REG_ADDR_MASK == reg
  {
    NRF_CMD_R_REGISTER | reg
  }

  /** `W_REGISTER | reg`. */
  function WriteRegisterCmd(reg: Reg): (cmd: bv8)
    ensures cmd & NRF_CMD_CLASS_MASK == NRF_CMD_W_REGISTER
    ensures cmd & NRF_REG_ADDR_MASK == reg
  {
    NRF_CMD_W_REGISTER | reg
  }

  class Radio {
    var writeCe: Option<Callback>
    var readIrq: Option<Callback>
    var delayMs: Option<Callback>
    var spiXfer: Option<Callback>

    /** The chip the SPI callback talks to. */
    var device: Chip

    /** Every bus event so far, oldest first. */
    ghost var trace: seq<Event>

    /** The callbacks every bus operation calls are present (init returned 0). */
    predicate Initialized()
      reads this
    {
      spiXfer.Some? && writeCe.Some? && delayMs.Some?
    }

    /** Storage for a handle whose callbacks are not set yet. */
    constructor (chip: Chip)
      ensures writeCe == None && readIrq == None && delayMs == None && spiXfer == None
      ensures device == chip && trace == []
    {
      writeCe, readIrq, delayMs, spiXfer := None, None, None, None;
      device := chip;
      trace := [];
    }

    /** A full-duplex exchange of `send.Length` bytes. */
    method Transfer(send: array<bv8>, recv: array<bv8>) returns (ghost e: Event)
      requires Initialized()
      requires send.Length == recv.Length && send != recv
      modifies this`device, this`trace, recv
      ensures e == Xfer(send[..], recv[..]) && |e.rx| == |e.tx|
      ensures trace == old(trace) + [e]
      ensures (device, recv[..]) == old(device).Exchange(send[..])
    {
      ghost var sent := send[..];
      var (chip, response) := device.Exchange(send[..]);
      forall i | 0 <= i < recv.Length {
        recv[i] := response[i];
      }
      assert recv[..] == response;
      assert send[..] == sent;
      device := chip;
      e := Xfer(send[..], recv[..]);
      trace := trace + [e];
    }

    /** Drive CE high or low. */
    method SetCe(high: bool) returns (ghost e: Event)
      requires Initialized()
      modifies this`trace
      ensures e == Ce(high) && trace == old(trace) + [e]
    {
      e := Ce(high);
      trace := trace + [e];
    }

    /** Block for `ms` units of the delay callback. */
    method DelayMs(ms: nat) returns (ghost e: Event)
      requires Initialized()
      modifies this`trace
      ensures e == Delay(ms) && trace == old(trace) + [e]
    {
      e := Delay(ms);
      trace := trace + [e];
    }
  }

  /**
   * NRF24_init: fails with 1, touching nothing, when the handle or a mandatory
   * callback is missing; otherwise stores all four callbacks (the IRQ reader
   * may be absent) and returns 0.
   */
  method Init(radio: Radio?, spiXferCb: Option<Callback>, writeCeCb: Option<Callback>,
              readIrqCb: Option<Callback>, delayMsCb: Option<Callback>) returns (rc: int)
    modifies radio
    ensures rc == 0 || rc == 1
    ensures rc == 1 <==> radio == null || spiXferCb.None? || writeCeCb.None? || delayMsCb.None?
    ensures rc == 1 && radio != null ==> unchanged(radio)
    ensures rc == 0 ==> radio != null && radio.Initialized()
    ensures rc == 0 ==> radio.spiXfer == spiXferCb && radio.writeCe == writeCeCb
                        && radio.readIrq == readIrqCb && radio.delayMs == delayMsCb
    ensures rc == 0 ==> radio.device == old(radio.device) && radio.trace == old(radio.trace)
  {
    if radio == null || spiXferCb.None? || writeCeCb.None? || delayMsCb.None? {
      return 1;
    }
    radio.delayMs := delayMsCb;
    radio.readIrq := readIrqCb;
    radio.spiXfer := spiXferCb;
    radio.writeCe := writeCeCb;
    return 0;
  }
}
