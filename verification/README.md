# nRF24L01+ driver core, modelled in Dafny

This project models the C driver for the Nordic nRF24L01+ 2.4 GHz transceiver
(repository C47D/NRF24). The driver talks to the chip in three ways, through
callbacks that the application injects:

- SPI frames: byte 0 is an opcode, often ORed with a register or pipe number.
  The chip answers every frame with its STATUS register in byte 0.
- Writes to the CE pin.
- Millisecond delays.

The model follows the driver's layers:

| file | module | driver source |
|---|---|---|
| `defs.dfy` | `Defs`, `Wrappers` | register map, opcodes, masks, the `Option` type |
| `bits.dfy` | `Bits` | the byte arithmetic of read_bit, write_bit and write_bits |
| `device.dfy` | `Device` | a register-file stand-in for the chip behind the bus |
| `bus.dfy` | `Bus` | the `nrf_radio` handle, `NRF24_init` and the HAL forwards |
| `interface.dfy` | `Interface` | `src/NRF24_INTERFACE.c`, the register layer used by `NRF24.c` |
| `interface_root.dfy` | `InterfaceRoot` | `NRF24_INTERFACE.c` at the root: the write_bit with an early return |
| `commands.dfy` | `Commands` | `src/NRF24_COMMANDS.c`, the SPI command layer |
| `decode.dfy` | `Decode` | the pure byte logic of `src/NRF24.c` |
| `nrf24.dfy` | `Nrf24` | `src/NRF24.c`, the public API |
| `properties.dfy` | `Properties` | properties across several operations, round trips, findings |

How the model is built:

- **The handle is a class.** `Bus.Radio` has the four callbacks of
  `nrf_radio` as `Option<Callback>` fields. It also holds `device`, the chip
  state behind the SPI callback, and a ghost `trace` of bus events:
  `Xfer(tx, rx)`, `Ce(high)` and `Delay(ms)`.
- **Every driver method reports its events.** It returns the events it
  issued as a ghost `ev`, and promises `radio.trace == old(radio.trace) + ev`.
  Its contract then states `ev` exactly: the bytes of every frame, in order.
  Where the chip's state matters, the contract also states the new `device`.
- **The chip stand-in is a register file.** `Device.Chip` is a map from
  register to bytes. An R_REGISTER frame returns the stored bytes, padded
  with zeros. A W_REGISTER frame stores its bytes. All other opcodes leave the
  registers alone. STATUS follows section 9.1 of the nRF24L01+ Product
  Specification: writing 1 to RX_DR, TX_DS or MAX_RT clears that flag, and
  STATUS's other bits are read-only.
- **Buffers and integers.** The caller's input buffers (`const uint8_t *`)
  are sequences. Output buffers that the driver fills in place are arrays,
  and the copy loops of the source are `for` loops with invariants. Bytes
  are `bv8`, so C's `uint8_t` wrap-around is built in.
- **`NRF24_ASSERT` becomes one of two things.**
  - When it checks a caller's argument, it becomes a `requires`.
  - When it checks a value read back from the chip, the model stops there.
    A SETUP_AW code outside 1..3, or a set_tx_address whose width does not
    match, yields `None` or a ghost `halted` flag, and no further bus events.
- **Unknown constants stay symbolic.** `NRF24_DEFS.h` is not part of this
  model. The register addresses, opcodes and STATUS/FIFO/OBSERVE_TX bit
  positions are the datasheet's. The values defined only in that header are
  declared without a value: `NRF_MAX_RF_CHANNEL`, `NRF_CE_PULSE_WIDTH_US`,
  `NRF_CONFIG_PWR_UP`, the FEATURE enable/disable values and the address
  width limits. `NRF_PAYLOAD_SIZE_MAX` is 32, as `NRF24_COMMANDS.h:48`
  documents.

Where the documentation and the code disagree, the model follows the code:

- `src/NRF24_INTERFACE.c:110-124`: this write_bit always writes the byte
  back. Its doc comment promises an early exit, and only the root copy has
  one (`NRF24_INTERFACE.c:88-116`). `Properties.WriteBitVariantsAgree`
  proves that on every register except STATUS, the two leave the register
  reading back the same byte. On STATUS they differ, because writing back a
  pending flag as 1 clears it. `Properties.WriteBitVariantsDifferOnStatus`
  gives the input: STATUS = 0x40 and set_bit(STATUS, 6). The always-write
  variant leaves 0x00, and the early-return variant leaves 0x40.
- `src/NRF24.c:81-87`: standby-I (and sleep) sets the CONFIG bit
  `NRF_CONFIG_PWR_UP`, a different macro from `NRF_CONFIG_BIT_PWR_UP`, which
  the other power functions use. It is kept symbolic; the model only requires
  it to be a bit position.
- `src/NRF24.c:194`: for pipes 0 and 1, set_rx_pipe_address rejects a size
  equal to `NRF_PIPE_ADDR_WIDTH_3BYTES`, because the test is a strict `<`.
- `src/NRF24.c:606-614` and `src/NRF24.c:232-239` are listed under Findings.

## Model

| member | source | states |
|---|---|---|
| Bits.WithBit | src/NRF24_INTERFACE.c:118-121 | the byte write_bit writes has bit `pos` equal to the requested value and every other bit as read; it equals the byte read when that bit already had the value |
| Bits.MaskedUpdate | src/NRF24_INTERFACE.c:88-93 | write_bits' `(cur & ~mask) \| value` contains every bit of `value`, clears the masked bits outside `value`, and keeps every bit outside `mask \| value` |
| Bus.Radio.Transfer | src/NRF24_HAL.c:3-6 | the SPI forward: one `Xfer` event appended to the trace, a response as long as the frame, and the chip's answer and new state for that frame |
| Bus.Radio.SetCe | src/NRF24_HAL.c:8-11 | the CE forward appends exactly `Ce(high)` |
| Bus.Radio.DelayMs | src/NRF24_HAL.c:18-21 | the delay forward appends exactly `Delay(ms)` |
| Bus.Init | src/NRF24.c:22-39 | returns 1 exactly when the handle or the SPI, CE or delay callback is missing, and then leaves the handle unchanged; otherwise returns 0 and stores all four callbacks (the IRQ reader may be absent) |
| Interface.ReadReg | src/NRF24_INTERFACE.c:21-35 | one frame of `dataSize+1` bytes opened by `R_REGISTER\|reg`; response bytes 1..dataSize land in `data[0..dataSize)` in order, the rest of `data` is untouched, and the result is response byte 0 (STATUS); the register file is unchanged. The root copy, NRF24_INTERFACE.c:21-35, is the same code |
| Interface.WriteReg | src/NRF24_INTERFACE.c:37-52 | one frame `[W_REGISTER\|reg] + data[..dataSize]`; the result is STATUS and the register now holds those bytes. The root copy, NRF24_INTERFACE.c:37-52, is the same code |
| Interface.ReadBit | src/NRF24_INTERFACE.c:54-61 | requires `pos < 8`; one 1-byte read of `reg`; true exactly when bit `pos` of the byte read is set. The root copy, NRF24_INTERFACE.c:54-61, is the same code |
| Interface.WriteBit | src/NRF24_INTERFACE.c:110-124 | always a 1-byte read then a 1-byte write of the byte read with only bit `pos` forced, even when the bit already had the value |
| Interface.ClearBit | src/NRF24_INTERFACE.c:63-68 | read, then write back with bit `pos` cleared |
| Interface.SetBit | src/NRF24_INTERFACE.c:70-75 | read, then write back with bit `pos` set |
| Interface.WriteBits | src/NRF24_INTERFACE.c:79-97 | one 1-byte read, then one write of `(read & ~mask) \| value` |
| InterfaceRoot.WriteBit | NRF24_INTERFACE.c:88-116 | a 1-byte read; no write at all when bit `pos` already has the value (the trace holds only the read), otherwise one write with only bit `pos` changed |
| InterfaceRoot.ClearBit | NRF24_INTERFACE.c:63-68 | the early-return write_bit with the value 0 |
| InterfaceRoot.SetBit | NRF24_INTERFACE.c:70-75 | the early-return write_bit with the value 1 |
| Commands.SendCmd | src/NRF24_COMMANDS.c:125-130 | exactly one 1-byte frame holding the opcode; the result is the byte received, STATUS; a non-W_REGISTER opcode leaves the register file alone |
| Commands.ReuseTxPayload | src/NRF24_COMMANDS.c:22-25 | the frame `[REUSE_TX_PL]`, returning STATUS |
| Commands.FlushRx | src/NRF24_COMMANDS.c:27-30 | the frame `[FLUSH_RX]`, returning STATUS |
| Commands.FlushTx | src/NRF24_COMMANDS.c:32-35 | the frame `[FLUSH_TX]`, returning STATUS |
| Commands.Nop | src/NRF24_COMMANDS.c:120-123 | the frame `[NOP]`, returning STATUS |
| Commands.ReadRxPayload | src/NRF24_COMMANDS.c:37-55 | one `(n+1)`-byte frame opened by R_RX_PAYLOAD; response bytes 1..n are copied into `payload[0..n)`, the rest of `payload` is untouched, and STATUS is returned |
| Commands.WriteTxPayload | src/NRF24_COMMANDS.c:57-71 | the frame `[W_TX_PAYLOAD] + payload[..n]`, with no length check, returning STATUS |
| Commands.ReadPayloadWidth | src/NRF24_COMMANDS.c:73-85 | the frame `[R_RX_PL_WID, NOP]`; the width is response byte 1 and STATUS is returned |
| Commands.PayloadWriteAck | src/NRF24_COMMANDS.c:87-102 | the frame `[W_ACK_PAYLOAD\|pipe] + payload[..n]`; byte 0's high five bits are the opcode and its low three bits are the pipe |
| Commands.PayloadWithoutAck | src/NRF24_COMMANDS.c:104-118 | the frame `[W_TX_PAYLOAD_NOACK] + payload[..n]`, returning STATUS |
| Decode.Clamp | src/NRF24.c:332-341 | `if (limit < value) value = limit`: the result is at most both arguments and equals one of them |
| Decode.ClampByte | src/NRF24.c:125-137 | set_channel's clamp on a byte: at most both the channel and NRF_MAX_RF_CHANNEL, and equal to one of them |
| Decode.DecodeAddressWidth | src/NRF24.c:155-179 | SETUP_AW codes 1, 2, 3 give widths 3, 4, 5 (the code plus 2); every other code is the asserted illegal case |
| Decode.AddressWidthRoundTrip | src/NRF24.c:148-179 | encoding a legal width and decoding it gives the width back, and every legal code is such an encoding |
| Decode.ErxBitIsPipe | src/NRF24.c:246-297 | rx_pipe_enable's switch picks EN_RXADDR bit `pipe`, the bit rx_pipe_is_enabled tests |
| Decode.IrqFlags | src/NRF24.c:616-621 | `NRF_ALL_IRQ_MASK & status`: RX_DR, TX_DS and MAX_RT as in STATUS, every other bit 0 |
| Decode.DataReady | src/NRF24.c:520-525 | the result is 0 or the RX_DR mask, and non-zero exactly when STATUS bit 6 is set |
| Decode.PipeWithPayload | src/NRF24.c:561-568 | RX_P_NO is at most 7, and shifted back into place it is exactly STATUS bits 3:1 |
| Decode.RetransmitCount | src/NRF24.c:480-488 | ARC_CNT is at most 15 |
| Decode.LostPackets | src/NRF24.c:490-499 | PLOS_CNT is at most 15 |
| Decode.ObserveTxSplit | src/NRF24.c:480-499 | the two counters put back together give the whole OBSERVE_TX byte |
| Decode.ClearIrqValueAsWritten | src/NRF24.c:610-611 | the byte clear_irq_flag writes contains the flag, and its IRQ bits are the STATUS flags plus the flag |
| Decode.ClearIrqValue | src/NRF24.c:606-614 | the corrected byte: exactly `flag` in the IRQ bits, and the other bits as read |
| Decode.PipeAddress | src/NRF24.c:198-204 | a pipe 2-5 address has the pipe's own byte first (the LSByte, which set_rx_pipe_address writes) and RX_ADDR_P1's other bytes after it |
| Decode.PipeAddressAsWritten | src/NRF24.c:237-238 | what get_rx_pipe_address assembles: RX_ADDR_P1's first `size-1` bytes, then the pipe's byte last |
| Nrf24.SetStandbyIMode | src/NRF24.c:81-87 | CE low, then CONFIG read and written back with bit NRF_CONFIG_PWR_UP set |
| Nrf24.Sleep | src/NRF24.c:41-46 | the same events and register effect as standby-I |
| Nrf24.Wakeup | src/NRF24.c:48-57 | CONFIG.PWR_UP set by read-modify-write, then `Delay(5)` |
| Nrf24.SetPowerDownMode | src/NRF24.c:74-79 | CONFIG.PWR_UP cleared |
| Nrf24.SetStandbyIIMode | src/NRF24.c:89-95 | CE high, then CONFIG.PWR_UP set |
| Nrf24.SetRxMode | src/NRF24.c:97-102 | CONFIG.PRIM_RX set |
| Nrf24.SetTxMode | src/NRF24.c:104-109 | CONFIG.PRIM_RX cleared |
| Nrf24.SetMode | src/NRF24.c:59-64 | PRIM_RX becomes 1 for the receiver role and 0 for the transmitter role |
| Nrf24.EnableAutoAck | src/NRF24.c:111-116 | EN_AA bit `pipe` set |
| Nrf24.DisableAutoAck | src/NRF24.c:118-123 | EN_AA bit `pipe` cleared |
| Nrf24.SetChannel | src/NRF24.c:125-137 | exactly three frames: RF_CH written with `min(channel, NRF_MAX_RF_CHANNEL)`, then FLUSH_RX, then FLUSH_TX |
| Nrf24.GetChannel | src/NRF24.c:139-146 | one 1-byte read of RF_CH; the result is the stored channel |
| Nrf24.SetAddressWidth | src/NRF24.c:148-153 | SETUP_AW written with the given code |
| Nrf24.GetAddressWidth | src/NRF24.c:155-179 | one read of SETUP_AW, decoded; `None` (the driver's halt) exactly when the code is illegal |
| Nrf24.SetRxPipeAddress | src/NRF24.c:181-210 | requires `size <= 5BYTES`, and `3BYTES < size` for pipes 0 and 1; pipes 0 and 1 get `size` bytes written, pipes 2-5 only `addr[0]`, whatever `size` is |
| Nrf24.GetRxPipeAddress | src/NRF24.c:212-244 | SETUP_AW read first (halting on an illegal code), size lowered to the configured width n; pipes 0 and 1: one n-byte read; pipes 2-5: n-1 bytes of RX_ADDR_P1 into `addr[0..n-1)`, then the pipe's byte into `addr[n-1]`; nothing past `addr[n]` changes |
| Nrf24.GetRxPipeAddressLsbFirst | src/NRF24.c:212-244 | the corrected getter: for pipes 2-5, the chip's pipe address with the pipe's byte first |
| Nrf24.RxPipeEnable | src/NRF24.c:246-297 | EN_RXADDR bit `pipe` set or cleared, as `enable` says |
| Nrf24.RxPipeIsEnabled | src/NRF24.c:299-304 | true exactly when EN_RXADDR bit `pipe` is set |
| Nrf24.SetTxAddress | src/NRF24.c:306-315 | SETUP_AW read; halts unless the configured width equals `size`; otherwise TX_ADDR written with `addr[..size]` |
| Nrf24.GetTxAddress | src/NRF24.c:317-330 | SETUP_AW read, size lowered to the configured width n, and TX_ADDR's n bytes read into `addr[0..n)` |
| Nrf24.SetPayloadSize | src/NRF24.c:332-341 | the pipe's RX_PW register written with `min(size, 32)` |
| Nrf24.GetPayloadSize | src/NRF24.c:343-350 | one read of the pipe's RX_PW register |
| Nrf24.ReuseLastTransmittedPayload | src/NRF24.c:352-358 | REUSE_TX_PL, then the CE pulse |
| Nrf24.EnableDynamicPayload | src/NRF24.c:360-367 | FEATURE's EN_ACK_PAY and EN_DPL bits rewritten with the enabling values, the other bits kept |
| Nrf24.DisableDynamicPayload | src/NRF24.c:377-384 | the same bits rewritten with the disabling values |
| Nrf24.EnableDynamicPayloadOnPipe | src/NRF24.c:369-375 | four frames: EN_AA bit `pipe` set, then DYNPD bit `pipe` set |
| Nrf24.DisableDynamicPayloadOnPipe | src/NRF24.c:386-392 | EN_AA bit `pipe` cleared, then DYNPD bit `pipe` cleared |
| Nrf24.EnableDynamicPayloadLength | src/NRF24.c:394-399 | FEATURE.EN_DPL set |
| Nrf24.DisableDynamicPayloadLength | src/NRF24.c:401-406 | FEATURE.EN_DPL cleared |
| Nrf24.EnablePayloadWithAck | src/NRF24.c:408-413 | FEATURE.EN_ACK_PAY set |
| Nrf24.DisablePayloadWithAck | src/NRF24.c:415-420 | FEATURE.EN_ACK_PAY cleared |
| Nrf24.EnablePayloadWithNoAck | src/NRF24.c:422-427 | FEATURE.EN_DYN_ACK set |
| Nrf24.DisablePayloadWithNoAck | src/NRF24.c:429-434 | FEATURE.EN_DYN_ACK cleared |
| Nrf24.StartListening | src/NRF24.c:436-442 | exactly `Ce(true)` |
| Nrf24.StopListening | src/NRF24.c:444-450 | exactly `Ce(false)` |
| Nrf24.TransmitPulse | src/NRF24.c:452-461 | exactly CE high, `Delay(NRF_CE_PULSE_WIDTH_US)`, CE low |
| Nrf24.GetStatus | src/NRF24.c:463-468 | a NOP frame; the result is STATUS |
| Nrf24.GetFifoStatus | src/NRF24.c:470-478 | one read of FIFO_STATUS |
| Nrf24.GetRetransmissionsCount | src/NRF24.c:480-488 | one read of OBSERVE_TX; the result is the ARC_CNT field of the stored OBSERVE_TX, at most 15 |
| Nrf24.GetLostPacketsCount | src/NRF24.c:490-499 | one read of OBSERVE_TX; the result is the PLOS_CNT field of the stored OBSERVE_TX, at most 15 |
| Nrf24.PutInTxFifo | src/NRF24.c:501-508 | requires at most 32 bytes; one W_TX_PAYLOAD frame with the payload |
| Nrf24.Transmit | src/NRF24.c:510-518 | requires at most 32 bytes; the W_TX_PAYLOAD frame, then CE high, the pulse delay and CE low, in that order |
| Nrf24.IsDataReady | src/NRF24.c:520-525 | a NOP frame; the result is STATUS's RX_DR bit in place |
| Nrf24.GetRxPayload | src/NRF24.c:527-536 | CE low, the R_RX_PAYLOAD read into `payload`, then CE high |
| Nrf24.TxTransmitNoAck | src/NRF24.c:538-546 | requires fewer than 32 bytes; the W_TX_PAYLOAD_NOACK frame, then the CE pulse |
| Nrf24.RxWritePayload | src/NRF24.c:548-559 | the size is lowered to 32, then one `W_ACK_PAYLOAD\|pipe` frame with that many payload bytes |
| Nrf24.GetDataPipeWithPayload | src/NRF24.c:561-568 | STATUS read as a register; the result is its RX_P_NO field |
| Nrf24.ReceivedPowerDetector | src/NRF24.c:570-575 | one read of RPD and no change; the result is bit 0 of the stored RPD |
| Nrf24.IsTxFifoFull | src/NRF24.c:577-582 | one read of FIFO_STATUS and no change; the result is the TX_FULL bit of the stored FIFO_STATUS |
| Nrf24.IsRxFifoEmpty | src/NRF24.c:584-589 | one read of FIFO_STATUS and no change; the result is the RX_EMPTY bit of the stored FIFO_STATUS |
| Nrf24.TestCarrier | src/NRF24.c:591-596 | the same one read of RPD as the power detector; the result is bit 0 of the stored RPD |
| Nrf24.ClearAllIrqs | src/NRF24.c:598-604 | STATUS written with all three IRQ bits; afterwards no flag is pending, STATUS's other bits and every other register are unchanged |
| Nrf24.ClearIrqFlagAsWritten | src/NRF24.c:606-614 | a NOP, then STATUS written with `status \| flag`; afterwards no flag at all is pending |
| Nrf24.ClearIrqFlag | src/NRF24.c:606-614 | the corrected clear: the same two frames. The new chip is the old one with only STATUS written, and STATUS is exactly the old STATUS with only `flag` cleared |
| Nrf24.GetIrqFlag | src/NRF24.c:616-621 | a NOP only, nothing written; the result is the pending flags |
| Nrf24.GetStatusClearIrq | src/NRF24.c:633-639 | STATUS written with all three IRQ bits, and no other register changes. The result is STATUS as it was before the write. Afterwards no flag is pending, and STATUS's other bits are as before |
| Nrf24.FlushRx | src/NRF24.c:642-647 | one FLUSH_RX frame |
| Nrf24.FlushTx | src/NRF24.c:649-654 | one FLUSH_TX frame |
| Properties.RegisterWrites | src/NRF24_INTERFACE.c:37-52 | the W_REGISTER frames of a trace, oldest first; a trace without one has none |
| Properties.RegisterWritesAppend | src/NRF24_INTERFACE.c:37-52 | the register writes of two traces in a row are those of each, in order |
| Properties.RunIsApplyWrites | src/NRF24_INTERFACE.c:21-52 | running a trace against the chip equals applying only its register writes: reads, commands, CE and delays change no register |
| Properties.WritesBitRegisterWrites | src/NRF24_INTERFACE.c:110-124 | the always-write set_bit/clear_bit writes exactly one register, `reg`, with the bit forced |
| Properties.WritesBitIfChangedRegisterWrites | NRF24_INTERFACE.c:98-115 | the early-return write_bit writes no register exactly when the bit already had the value |
| Properties.SetChannelRegisterWrites | src/NRF24.c:125-137 | set_channel writes exactly one register, RF_CH; the flushes write none |
| Properties.WriteBitVariantsAgree | NRF24_INTERFACE.c:88-116 | on any register other than STATUS, the two write_bit variants leave the register reading back the same byte |
| Properties.WriteBitVariantsDifferOnStatus | NRF24_INTERFACE.c:88-116 | on STATUS the variants differ: with STATUS 0x40, set_bit(STATUS, 6) leaves 0x00 through the always-write variant and 0x40 through the early-return one |
| Properties.WriteRegThenReadReg | src/NRF24_INTERFACE.c:21-52 | on any register other than STATUS, write_reg then read_reg of the same register and size returns the bytes written (STATUS is excluded: writing 1 to a flag clears it and its other bits are read-only) |
| Properties.SetBitThenReadBit | src/NRF24_INTERFACE.c:54-75 | on any register other than STATUS, set_bit then read_bit returns 1, and the register's other seven bits are those it held before (STATUS is excluded: writing 1 to a flag clears it and its other bits are read-only) |
| Properties.ClearBitThenReadBit | src/NRF24_INTERFACE.c:54-68 | on any register other than STATUS, clear_bit then read_bit returns 0, and the register's other seven bits are those it held before (STATUS is excluded: writing 1 to a flag clears it and its other bits are read-only) |
| Properties.RootSetBitThenReadBit | NRF24_INTERFACE.c:54-116 | on any register other than STATUS, the early-return set_bit then read_bit returns 1, and the register's other seven bits are those it held before (STATUS is excluded: writing 1 to a flag clears it and its other bits are read-only) |
| Properties.RootClearBitThenReadBit | NRF24_INTERFACE.c:54-116 | on any register other than STATUS, the early-return clear_bit then read_bit returns 0, and the register's other seven bits are those it held before (STATUS is excluded: writing 1 to a flag clears it and its other bits are read-only) |
| Properties.RootSetBitTwice | NRF24_INTERFACE.c:70-110 | on any register other than STATUS, set_bit is idempotent: the second call issues only its one-byte R_REGISTER read of the register, which returns the byte the first call left, and changes nothing (STATUS is excluded: writing 1 to a flag clears it and its other bits are read-only) |
| Properties.SetChannelThenGetChannel | src/NRF24.c:125-146 | get_channel after set_channel reads the channel, lowered to NRF_MAX_RF_CHANNEL when it was above |
| Properties.SetPayloadSizeThenGet | src/NRF24.c:332-350 | get_payload_size after set_payload_size reads `min(size, 32)` |
| Properties.SetAddressWidthThenGet | src/NRF24.c:148-179 | codes 1, 2, 3 read back as 3, 4, 5 bytes; any other code halts |
| Properties.TxAddressRoundTrip | src/NRF24.c:306-330 | with the width configured, set_tx_address is accepted and get_tx_address reads the address back |
| Properties.PipeAddressRoundTrip | src/NRF24.c:181-244 | after configuring RX_ADDR_P1 and pipe 2's byte, the corrected getter reads pipe 2's address |
| Properties.PipeAddressRoundTripAsWritten | src/NRF24.c:212-244 | the getter as written returns RX_ADDR_P1's first bytes with pipe 2's byte last |
| Properties.PipeAddressAsWrittenDiffers | src/NRF24.c:237-238 | a concrete RX_ADDR_P1 and pipe byte for which the two layouts differ |
| Properties.ClearIrqFlagAsWrittenClearsOthers | src/NRF24.c:610-613 | with all three flags pending, clearing RX_DR as written leaves STATUS 0x00; the corrected value leaves 0x30 |
| Properties.ClearIrqValueClearsOnlyFlag | src/NRF24.c:606-614 | the corrected STATUS write clears exactly the requested flags, whatever else is pending |

## Left out

- `NRF24_get_mode` and `NRF24_poll_interrupt` (`src/NRF24.c:66-72`, `623-631`): both are unfinished stubs that return a constant.
- The IRQ pin reader (`src/NRF24_HAL.c:13-16`): no modelled operation calls it, so the handle only stores the callback.
- Timing: a delay is recorded only with its argument, in the callback's units. The model does not capture that `transmit_pulse` passes a microsecond constant to a millisecond delay.
- Radio behaviour of the chip stand-in: it does not model the TX/RX FIFOs, payloads, auto-acknowledgement, retransmission or on-air timing. FIFO_STATUS, OBSERVE_TX and RPD read whatever the register file holds.
- The `data_in` bytes after the opcode of a read frame are uninitialised in C. The model leaves them unspecified too: its contracts fix only the opcode and the frame length.
- Null-pointer checks (`NRF24_ASSERT(radio)`, `NRF24_ASSERT(addr)`): Dafny references are non-null, so they cannot fail.
- `NRF24_DEFS.h` is not part of this model. The constants it alone defines are symbolic.
- Concurrency: the driver is single-threaded and blocking, and read-modify-write is not atomic against an interrupt.
- Interface.ReadBit: the C function returns 0 or 1 as `uint8_t`; the model returns `bool`.
- Nrf24.SetStandbyIMode: requires that `NRF_CONFIG_PWR_UP` is a bit position below 8, because its value is not known here.
- Nrf24.Sleep: requires that `NRF_CONFIG_PWR_UP` is a bit position below 8, as standby-I does.
- Byte order of enum arguments: `NRF24_send_cmd` sends the first byte in memory of its `nrf_cmd` argument (`src/NRF24_COMMANDS.c:128`). `NRF24_set_address_width` does the same with its `nrf_addr_width` argument (`src/NRF24.c:152`). That byte is the opcode or code only on a little-endian target; on a big-endian one it is 0x00. Commands.SendCmd and Nrf24.SetAddressWidth send the value's low byte, that is, they assume a little-endian target.
- The `NRF24_DISABLE_ASSERTS` build (`inc/NRF24.h:19-26`): there `NRF24_ASSERT(x)` only evaluates `x` and carries on. For example, get_address_width then returns 0 for an illegal SETUP_AW code instead of halting. The model covers only the default build, in which a failed assert halts: each assert is a `requires` or a halt.
- Nrf24.ClearIrqFlag: requires the flag to be a subset of RX_DR, TX_DS and MAX_RT (the `nrf_irq` values), which the C type cannot enforce.

## Findings

| source | as written | input that shows it | evidently intended | confidence | as-written member | corrected member |
|---|---|---|---|---|---|---|
| src/NRF24.c:606-614 | clear_irq_flag writes `status \| irq_flag` back to STATUS. STATUS clears every flag written as 1, so every flag pending at the time is cleared, not only `irq_flag` | STATUS = 0x70 (RX_DR, TX_DS and MAX_RT pending), flag = RX_DR: STATUS becomes 0x00 | clear only the requested flag: STATUS becomes 0x30 | not executed | Nrf24.ClearIrqFlagAsWritten, Properties.ClearIrqFlagAsWrittenClearsOthers | Nrf24.ClearIrqFlag, Properties.ClearIrqValueClearsOnlyFlag |
| src/NRF24.c:232-239 | for pipes 2-5, get_rx_pipe_address reads `size-1` bytes of RX_ADDR_P1 into `addr[0..size-1)` and the pipe's byte into `addr[size-1]`. But set_rx_pipe_address (`src/NRF24.c:198-204`) stores the pipe's byte as the address's LSByte, `addr[0]`, and the chip shares bytes 1..4 with RX_ADDR_P1 | RX_ADDR_P1 = 11 22 33 44 55 (LSByte first), RX_ADDR_P2 = C3: the getter returns 11 22 33 44 C3 | C3 22 33 44 55, the pipe 2 address the chip listens on | not executed | Nrf24.GetRxPipeAddress, Properties.PipeAddressRoundTripAsWritten, Properties.PipeAddressAsWrittenDiffers | Nrf24.GetRxPipeAddressLsbFirst, Properties.PipeAddressRoundTrip |
