/** The register-addressed I2C bus that the driver is handed (MicroPython's
    `machine.I2C`), reduced to the two calls the driver makes. Every call is
    appended to a ghost log; what a read returns is, from the driver's side,
    any byte string of the requested length. */
module I2C {
  import opened Bits

  /** One bus transaction: `writeto_mem(addr, reg, data)` or
      `readfrom_mem(addr, reg, len(data))` answered with `data`. */
  datatype Op =
    | Write(addr: int, reg: int, data: seq<byte>)
    | Read(addr: int, reg: int, data: seq<byte>)

  class Bus {
    /** Every transaction on this bus, oldest first. */
    ghost var log: seq<Op>

    /** The register file of the attached device, which answers reads.
        Nothing outside this class relies on it: the device also changes
        it by itself (a forced conversion refreshes the data registers). */
    var registers: seq<byte>

    constructor (registers: seq<byte>)
      ensures log == [] && this.registers == registers
    {
      log := [];
      this.registers := registers;
    }

    /** `writeto_mem(addr, reg, data)`: one write, logged. */
    method WriteToMem(addr: int, reg: int, data: seq<byte>)
      modifies this
      ensures log == old(log) + [Write(addr, reg, data)]
    {
      var r := registers;
      registers := seq(|r|, j requires 0 <= j < |r| =>
        if reg <= j < reg + |data| then data[j - reg] else r[j]);
      log := log + [Write(addr, reg, data)];
    }

    /** `readfrom_mem(addr, reg, n)`: exactly `n` bytes, logged with the
        bytes returned. */
    method ReadFromMem(addr: int, reg: int, n: nat) returns (data: seq<byte>)
      modifies this
      ensures |data| == n
      ensures log == old(log) + [Read(addr, reg, data)]
    {
      var r := registers;
      data := seq(n, i requires 0 <= i < n =>
        if 0 <= reg + i < |r| then r[reg + i] else 0);
      log := log + [Read(addr, reg, data)];
    }
  }
}
