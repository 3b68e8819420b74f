/**
 * The SPI command layer (src/NRF24_COMMANDS.c): payload FIFO access, FIFO
 * flushes, payload reuse, the payload-width query and NOP. Every command is
 * a single frame whose first byte is the opcode and whose first response
 * byte, STATUS, is the result.
 *
 * None of these opcodes is a W_REGISTER, so the register file behind the
 * bus is left as it was; the payload FIFOs themselves are not part of the
 * chip model.
 */
module Commands {
  import opened Defs
  import opened Device
  import opened Bus

  /** A frame made of the opcode alone, answered by STATUS. */
  predicate IsCommand(ev: seq<Event>, cmd: bv8) {
    |ev| == 1 && IsWrite(ev[0], cmd, [])
  }

  /** NRF24_send_cmd: shift out the one-byte `cmd`, return the byte shifted in. */
  method SendCmd(radio: Radio, cmd: bv8) returns (status: bv8, ghost ev: seq<Event>)
    requires radio.Initialized()
    modifies radio`device, radio`trace
    ensures radio.trace == old(radio.trace) + ev
    ensures IsCommand(ev, cmd) && status == ev[0].rx[0]
    ensures status == old(radio.device).Status()
    ensures cmd & NRF_CMD_CLASS_MASK != NRF_CMD_W_REGISTER ==> radio.device == old(radio.device)
  {
    var cmdBuf := new bv8[1];
    var statusBuf := new bv8[1];
    cmdBuf[0] := cmd;
    var e := radio.Transfer(cmdBuf, statusBuf);
    assert cmdBuf[..] == [cmd];
    ev := [e];
    status := statusBuf[0];
  }

  /** NRF24_cmd_reuse_tx_payload. */
  method ReuseTxPayload(radio: Radio) returns (status: bv8, ghost ev: seq<Event>)
    requires radio.Initialized()
    modifies radio`device, radio`trace
    ensures radio.trace == old(radio.trace) + ev
    ensures IsCommand(ev, NRF_CMD_REUSE_TX_PL) && status == ev[0].rx[0]
    ensures status == old(radio.device).Status() && radio.device == old(radio.device)
  {
    status, ev := SendCmd(radio, NRF_CMD_REUSE_TX_PL);
  }

  /** NRF24_cmd_flush_rx. */
  method FlushRx(radio: Radio) returns (status: bv8, ghost ev: seq<Event>)
    requires radio.Initialized()
    modifies radio`device, radio`trace
    ensures radio.trace == old(radio.trace) + ev
    ensures IsCommand(ev, NRF_CMD_FLUSH_RX) && status == ev[0].rx[0]
    ensures status == old(radio.device).Status() && radio.device == old(radio.device)
  {
    status, ev := SendCmd(radio, NRF_CMD_FLUSH_RX);
  }

  /** NRF24_cmd_flush_tx. */
  method FlushTx(radio: Radio) returns (status: bv8, ghost ev: seq<Event>)
    requires radio.Initialized()
    modifies radio`device, radio`trace
    ensures radio.trace == old(radio.trace) + ev
    ensures IsCommand(ev, NRF_CMD_FLUSH_TX) && status == ev[0].rx[0]
    ensures status == old(radio.device).Status() && radio.device == old(radio.device)
  {
    status, ev := SendCmd(radio, NRF_CMD_FLUSH_TX);
  }

  /** NRF24_cmd_nop: the cheapest way to read STATUS. */
  method Nop(radio: Radio) returns (status: bv8, ghost ev: seq<Event>)
    requires radio.Initialized()
    modifies radio`device, radio`trace
    ensures radio.trace == old(radio.trace) + ev
    ensures IsCommand(ev, NRF_CMD_NOP) && status == ev[0].rx[0]
    ensures status == old(radio.device).Status() && radio.device == old(radio.device)
  {
    status, ev := SendCmd(radio, NRF_CMD_NOP);
  }

  /**
   * NRF24_cmd_read_rx_payload: one (payloadSize+1)-byte frame opened by
   * R_RX_PAYLOAD; the bytes after STATUS land in payload[0..payloadSize).
   */
  method ReadRxPayload(radio: Radio, payload: array<bv8>, payloadSize: nat)
      returns (status: bv8, ghost ev: seq<Event>)
    requires radio.Initialized()
    requires payloadSize <= payload.Length
    modifies radio`device, radio`trace, payload
    ensures radio.trace == old(radio.trace) + ev
    ensures |ev| == 1 && IsRead(ev[0], NRF_CMD_R_RX_PAYLOAD, payloadSize)
    ensures status == ev[0].rx[0] && payload[..payloadSize] == ev[0].rx[1..]
    ensures payload[payloadSize..] == old(payload[payloadSize..])
    ensures status == old(radio.device).Status() && radio.device == old(radio.device)
  {
    var dataOut := new bv8[payloadSize + 1];
    var dataIn := new bv8[payloadSize + 1];
    dataIn[0] := NRF_CMD_R_RX_PAYLOAD;
    var e := radio.Transfer(dataIn, dataOut);
    for idx := 0 to payloadSize
      modifies payload
      invariant payload[..idx] == dataOut[1..idx + 1]
      invariant payload[idx..] == old(payload[idx..])
    {
      payload[idx] := dataOut[idx + 1];
    }
    assert payload[..payloadSize] == dataOut[1..];
    ev := [e];
    status := dataOut[0];
  }

  /**
   * The frame shape shared by the three payload writers: `cmd` followed by
   * the first `payloadSize` bytes of `payload`.
   */
  method WritePayloadFrame(radio: Radio, cmd: bv8, payload: seq<bv8>, payloadSize: nat)
      returns (status: bv8, ghost ev: seq<Event>)
    requires radio.Initialized()
    requires payloadSize <= |payload|
    requires cmd & NRF_CMD_CLASS_MASK != NRF_CMD_W_REGISTER
    modifies radio`device, radio`trace
    ensures radio.trace == old(radio.trace) + ev
    ensures |ev| == 1 && IsWrite(ev[0], cmd, payload[..payloadSize]) && status == ev[0].rx[0]
    ensures status == old(radio.device).Status() && radio.device == old(radio.device)
  {
    var dataIn := new bv8[payloadSize + 1];
    var dataOut := new bv8[payloadSize + 1];
    dataIn[0] := cmd;
    for idx := 0 to payloadSize
      modifies dataIn
      invariant dataIn[0] == cmd
      invariant dataIn[1..idx + 1] == payload[..idx]
    {
      dataIn[idx + 1] := payload[idx];
    }
    assert dataIn[..] == [cmd] + payload[..payloadSize] by {
      forall i | 1 <= i < dataIn.Length ensures dataIn[i] == payload[i - 1] {
        assert dataIn[1..payloadSize + 1][i - 1] == payload[..payloadSize][i - 1];
      }
    }
    var e := radio.Transfer(dataIn, dataOut);
    ev := [e];
    status := dataOut[0];
  }

  /** NRF24_cmd_write_tx_payload: W_TX_PAYLOAD followed by the payload bytes. */
  method WriteTxPayload(radio: Radio, payload: seq<bv8>, payloadSize: nat)
      returns (status: bv8, ghost ev: seq<Event>)
    requires radio.Initialized()
    requires payloadSize <= |payload|
    modifies radio`device, radio`trace
    ensures radio.trace == old(radio.trace) + ev
    ensures |ev| == 1 && IsWrite(ev[0], NRF_CMD_W_TX_PAYLOAD, payload[..payloadSize])
    ensures status == ev[0].rx[0]
    ensures status == old(radio.device).Status() && radio.device == old(radio.device)
  {
    status, ev := WritePayloadFrame(radio, NRF_CMD_W_TX_PAYLOAD, payload, payloadSize);
  }

  /**
   * NRF24_cmd_read_payload_width: the two-byte frame R_RX_PL_WID, NOP; the
   * width is the second byte received.
   */
  method ReadPayloadWidth(radio: Radio) returns (status: bv8, payloadWidth: bv8, ghost ev: seq<Event>)
    requires radio.Initialized()
    modifies radio`device, radio`trace
    ensures radio.trace == old(radio.trace) + ev
    ensures |ev| == 1 && IsWrite(ev[0], NRF_CMD_R_RX_PL_WID, [NRF_CMD_NOP])
    ensures status == ev[0].rx[0] && payloadWidth == ev[0].rx[1]
    ensures status == old(radio.device).Status() && radio.device == old(radio.device)
  {
    var dataIn := new bv8[2];
    dataIn[0], dataIn[1] := NRF_CMD_R_RX_PL_WID, NRF_CMD_NOP;
    var dataOut := new bv8[2];
    assert dataIn[..] == [NRF_CMD_R_RX_PL_WID] + [NRF_CMD_NOP];
    var e := radio.Transfer(dataIn, dataOut);
    payloadWidth := dataOut[1];
    ev := [e];
    status := dataOut[0];
  }

  /** NRF24_cmd_payload_write_ack: W_ACK_PAYLOAD with the pipe in its low bits, then the payload. */
  method PayloadWriteAck(radio: Radio, pipe: Pipe, payload: seq<bv8>, payloadSize: nat)
      returns (status: bv8, ghost ev: seq<Event>)
    requires radio.Initialized()
    requires payloadSize <= |payload|
    modifies radio`device, radio`trace
    ensures radio.trace == old(radio.trace) + ev
    ensures |ev| == 1 && IsWrite(ev[0], NRF_CMD_W_ACK_PAYLOAD | pipe, payload[..payloadSize])
    ensures ev[0].tx[0] & 0xF8 == NRF_CMD_W_ACK_PAYLOAD && ev[0].tx[0] & 0x07 == pipe
    ensures status == ev[0].rx[0]
    ensures status == old(radio.device).Status() && radio.device == old(radio.device)
  {
    status, ev := WritePayloadFrame(radio, NRF_CMD_W_ACK_PAYLOAD | pipe, payload, payloadSize);
  }

  /** NRF24_cmd_payload_without_ack: W_TX_PAYLOAD_NOACK followed by the payload bytes. */
  method PayloadWithoutAck(radio: Radio, payload: seq<bv8>, payloadSize: nat)
      returns (status: bv8, ghost ev: seq<Event>)
    requires radio.Initialized()
    requires payloadSize <= |payload|
    modifies radio`device, radio`trace
    ensures radio.trace == old(radio.trace) + ev
    ensures |ev| == 1 && IsWrite(ev[0], NRF_CMD_W_TX_PAYLOAD_NO_ACK, payload[..payloadSize])
    ensures status == ev[0].rx[0]
    ensures status == old(radio.device).Status() && radio.device == old(radio.device)
  {
    status, ev := WritePayloadFrame(radio, NRF_CMD_W_TX_PAYLOAD_NO_ACK, payload, payloadSize);
  }
}
