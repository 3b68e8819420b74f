/**
 * Constants of the nRF24L01+ command/register protocol.
 *
 * Opcodes, register addresses and bit positions are those of the Nordic
 * nRF24L01+ Product Specification v1.0 (section 8.3.1 for the SPI command
 * set, section 9.1 for the register map). Values that the driver defines on
 * its own in NRF24_DEFS.h (which is not part of this model) are declared
 * without a value: every proof holds whatever they are.
 */
module Defs {

  /** A register address: the five low-order bits of an R_REGISTER/W_REGISTER opcode. */
  type Reg = r: bv8 | r <= 0x1F

  /** A logical data pipe, 0 to 5 (nrf_pipe): a bit position in EN_AA, EN_RXADDR, DYNPD. */
  type Pipe = p: bv8 | p < 6

  /** A pipe address register RX_ADDR_P0..RX_ADDR_P5 (nrf_addr_rx_pipe). */
  type AddrPipe = r: bv8 | 0x0A <= r <= 0x0F witness 0x0A

  /** A static payload width register RX_PW_P0..RX_PW_P5 (nrf_pld_size). */
  type PayloadPipe = r: bv8 | 0x11 <= r <= 0x16 witness 0x11

  type Positive = n: nat | 1 <= n witness 1

  // SPI command set (section 8.3.1).
  const NRF_CMD_R_REGISTER: bv8 := 0x00
  const NRF_CMD_W_REGISTER: bv8 := 0x20
  const NRF_CMD_R_RX_PAYLOAD: bv8 := 0x61
  const NRF_CMD_W_TX_PAYLOAD: bv8 := 0xA0
  const NRF_CMD_FLUSH_TX: bv8 := 0xE1
  const NRF_CMD_FLUSH_RX: bv8 := 0xE2
  const NRF_CMD_REUSE_TX_PL: bv8 := 0xE3
  const NRF_CMD_R_RX_PL_WID: bv8 := 0x60
  const NRF_CMD_W_ACK_PAYLOAD: bv8 := 0xA8
  const NRF_CMD_W_TX_PAYLOAD_NO_ACK: bv8 := 0xB0
  const NRF_CMD_NOP: bv8 := 0xFF

  /** The three opcode bits above a register address. */
  const NRF_CMD_CLASS_MASK: bv8 := 0xE0
  /** The register address bits of R_REGISTER/W_REGISTER. */
  const NRF_REG_ADDR_MASK: bv8 := 0x1F

  // Register map (section 9.1).
  const NRF_REG_CONFIG: Reg := 0x00
  const NRF_REG_EN_AA: Reg := 0x01
  const NRF_REG_EN_RXADDR: Reg := 0x02
  const NRF_REG_SETUP_AW: Reg := 0x03
  const NRF_REG_RF_CH: Reg := 0x05
  const NRF_REG_STATUS: Reg := 0x07
  const NRF_REG_OBSERVE_TX: Reg := 0x08
  const NRF_REG_RPD: Reg := 0x09
  const NRF_REG_RX_ADDR_P0: AddrPipe := 0x0A
  const NRF_REG_RX_ADDR_P1: AddrPipe := 0x0B
  const NRF_REG_TX_ADDR: Reg := 0x10
  const NRF_REG_FIFO_STATUS: Reg := 0x17
  const NRF_REG_DYNPD: Reg := 0x1C
  const NRF_REG_FEATURE: Reg := 0x1D

  // CONFIG bits (sections 6.1 and 9.1).
  const NRF_CONFIG_BIT_PRIM_RX: bv8 := 0
  const NRF_CONFIG_BIT_PWR_UP: bv8 := 1

  // EN_RXADDR bits.
  const NRF_EN_RXADDR_BIT_ERX_P0: bv8 := 0
  const NRF_EN_RXADDR_BIT_ERX_P1: bv8 := 1
  const NRF_EN_RXADDR_BIT_ERX_P2: bv8 := 2
  const NRF_EN_RXADDR_BIT_ERX_P3: bv8 := 3
  const NRF_EN_RXADDR_BIT_ERX_P4: bv8 := 4
  const NRF_EN_RXADDR_BIT_ERX_P5: bv8 := 5

  // STATUS layout: RX_DR (6), TX_DS (5), MAX_RT (4), RX_P_NO (3:1), TX_FULL (0).
  const NRF_STATUS_RX_DR_MASK: bv8 := 0x40
  const NRF_STATUS_TX_DS_MASK: bv8 := 0x20
  const NRF_STATUS_MAX_RT_MASK: bv8 := 0x10
  const NRF_ALL_IRQ_MASK: bv8 := 0x70
  const NRF_STATUS_PIPES_MASK: bv8 := 0x0E
  const NRF_STATUS_PIPES_SHIFT: bv8 := 1

  // OBSERVE_TX layout: PLOS_CNT (7:4), ARC_CNT (3:0).
  const NRF_OBSERVE_TX_ARC_CNT_MASK: bv8 := 0x0F
  const NRF_OBSERVE_TX_PLOS_CNT_MASK: bv8 := 0xF0
  const NRF_OBSERVE_TX_BIT_PLOS_CNT: bv8 := 4

  // FIFO_STATUS and RPD bits.
  const NRF_FIFO_STATUS_BIT_TX_FULL: bv8 := 5
  const NRF_FIFO_STATUS_BIT_RX_EMPTY: bv8 := 0
  const NRF_RPD_BIT_RPD: bv8 := 0

  // FEATURE bits.
  const NRF_FEATURE_BIT_EN_DPL: bv8 := 2
  const NRF_FEATURE_BIT_EN_ACK_PAY: bv8 := 1
  const NRF_FEATURE_BIT_EN_DYN_ACK: bv8 := 0

  /** Largest payload a single command carries (1 to 32 bytes). */
  const NRF_PAYLOAD_SIZE_MAX: nat := 32

  // Driver-defined values whose numbers are not part of this model.

  /** Highest channel the driver lets set_channel write. */
  const NRF_MAX_RF_CHANNEL: bv8
  /** Argument the transmit pulse passes to the delay callback. */
  const NRF_CE_PULSE_WIDTH_US: nat
  /** The CONFIG bit position that standby-I mode sets (not NRF_CONFIG_BIT_PWR_UP). */
  const NRF_CONFIG_PWR_UP: bv8
  /** FEATURE values written by enable/disable_dynamic_payload (pre-shifted). */
  const NRF_ENABLE_DYN_PAYLOAD_LEN: bv8
  const NRF_ENABLE_PAYLOAD_WITH_ACK: bv8
  const NRF_DISABLE_DYN_PAYLOAD_LEN: bv8
  const NRF_DISABLE_PAYLOAD_WITH_ACK: bv8
  /** Address-width bounds checked by the pipe address setters and getters. */
  const NRF_PIPE_ADDR_WIDTH_3BYTES: Positive
  const NRF_PIPE_ADDR_WIDTH_5BYTES: nat
}

/** Optional values, for results the driver may not produce. */
module Wrappers {
  datatype Option<+T> = None | Some(value: T)
}
