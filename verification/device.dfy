/**
 * A register-file stand-in for the chip at the far end of the SPI bus.
 *
 * It interprets R_REGISTER and W_REGISTER frames against a map from register
 * address to stored bytes, answers every frame with the STATUS register in
 * byte 0, and ignores the payload, FIFO and no-op commands. STATUS is written
 * the way section 9.1 of the nRF24L01+ Product Specification describes: a 1
 * written to RX_DR, TX_DS or MAX_RT clears that flag, and the other STATUS
 * bits are read-only. Every other register keeps what is written to it.
 */
module Device {
  import opened Defs

  function Zeros(n: nat): (z: seq<bv8>)
    ensures |z| == n
    ensures forall i :: 0 <= i < n ==> z[i] == 0
  {
    seq(n, _ => 0)
  }

  /** Registers are keyed by their address as a number. */
  datatype Chip = Chip(regs: map<nat, seq<bv8>>) {

    /** The bytes held by `reg`; a register never written holds none. */
    function Stored(reg: Reg): seq<bv8> {
      if reg as nat in regs then regs[reg as nat] else []
    }

    /** The `n` bytes an n-byte register read returns: the stored bytes, then zeros. */
    function Read(reg: Reg, n: nat): (r: seq<bv8>)
      ensures |r| == n
    {
      var s := Stored(reg);
      if n <= |s| then s[..n] else s + Zeros(n - |s|)
    }

    /** The STATUS byte the chip shifts out while it receives an opcode. */
    function Status(): bv8 {
      Read(NRF_REG_STATUS, 1)[0]
    }

    /** The effect of writing `data` to `reg`. */
    function Write(reg: Reg, data: seq<bv8>): (c: Chip)
      ensures reg != NRF_REG_STATUS ==> c.Read(reg, |data|) == data
      ensures reg == NRF_REG_STATUS && data != [] ==>
                c.Status() == Status() & !(data[0] & NRF_ALL_IRQ_MASK)
      ensures reg == NRF_REG_STATUS && data == [] ==> c == this
    {
      if reg == NRF_REG_STATUS then
        if data == [] then this
        else
          var c := Chip(regs[reg as nat := [Status() & !(data[0] & NRF_ALL_IRQ_MASK)]]);
          assert c.Stored(reg) == [Status() & !(data[0] & NRF_ALL_IRQ_MASK)];
          assert c.Read(reg, 1)[0] == c.Stored(reg)[0];
          c
      else
        var s := Stored(reg);
        var written := if |data| < |s| then data + s[|data|..] else data;
        var c := Chip(regs[reg as nat := written]);
        assert c.Stored(reg) == written;
        assert c.Read(reg, |data|) == data by {
          forall i | 0 <= i < |data| ensures c.Read(reg, |data|)[i] == data[i] {
            assert written[i] == data[i];
          }
        }
        c
    }

    /** A read returns the stored bytes, padded with zeros past what was written. */
    lemma ReadIsStoredThenZeros(reg: Reg, n: nat, i: nat)
      requires i < n
      ensures Read(reg, n)[i] == if i < |Stored(reg)| then Stored(reg)[i] else 0
    {
    }

    /** A shorter read of a register is a prefix of a longer one. */
    lemma ReadPrefix(reg: Reg, m: nat, n: nat)
      requires m <= n
      ensures Read(reg, m) == Read(reg, n)[..m]
    {
      forall i | 0 <= i < m ensures Read(reg, m)[i] == Read(reg, n)[i] {
        ReadIsStoredThenZeros(reg, m, i);
        ReadIsStoredThenZeros(reg, n, i);
      }
    }

    /** Writing one register leaves every other register as it was. */
    lemma WriteLeavesOthers(reg: Reg, data: seq<bv8>, other: Reg)
      requires other != reg
      ensures Write(reg, data).Stored(other) == Stored(other)
    {
    }

    /**
     * One full-duplex exchange: the new chip state and the bytes shifted out,
     * one per byte shifted in.
     */
    function Exchange(tx: seq<bv8>): (res: (Chip, seq<bv8>))
      ensures |res.1| == |tx|
      ensures tx != [] ==> res.1[0] == Status()
      ensures tx != [] && tx[0] & NRF_CMD_CLASS_MASK != NRF_CMD_W_REGISTER ==> res.0 == this
    {
      if tx == [] then (this, [])
      else
        var reg: Reg := tx[0] & NRF_REG_ADDR_MASK;
        var opClass := tx[0] & NRF_CMD_CLASS_MASK;
        if opClass == NRF_CMD_R_REGISTER then (this, [Status()] + Read(reg, |tx| - 1))
        else if opClass == NRF_CMD_W_REGISTER then (Write(reg, tx[1..]), [Status()] + Zeros(|tx| - 1))
        else (this, [Status()] + Zeros(|tx| - 1))
    }
  }
}
