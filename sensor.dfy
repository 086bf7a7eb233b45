/** The `BME280` driver class: construction puts the sensor to sleep and
    reads the calibration blocks once; every `get_readings` runs one
    forced conversion and reads the 8-byte data burst. The bus transactions
    the driver issues are recorded in a ghost `session`, so that their
    order and number can be stated. */
module Sensor {
  import opened Bits
  import opened Calibration
  import opened I2C
  import opened Registers

  /** The write that puts the sensor to sleep (`__setup`). */
  function SleepWrite(addr: int, os: int): Op
    requires ValidOversampling(os)
  {
    Write(addr, ControlRegister, [ControlByte(os, SleepMode)])
  }

  /** The transactions of the constructor, given the two calibration blocks
      that the reads returned. */
  function ConstructionOps(addr: int, os: int, tp: seq<byte>, hum: seq<byte>): seq<Op>
    requires ValidOversampling(os)
  {
    [SleepWrite(addr, os),
     Read(addr, TempPressCalibrationAddr, tp),
     Read(addr, HumidityCalibrationAddr, hum)]
  }

  /** The transactions of one `__read_raw_data`, given the data burst
      that the read returned. */
  function MeasurementOps(addr: int, os: int, data: seq<byte>): seq<Op>
    requires ValidOversampling(os)
  {
    [Write(addr, ControlHumidityRegister, [os]),
     Write(addr, ControlRegister, [ControlByte(os, ForcedMode)]),
     Read(addr, DataAddr, data)]
  }

  /** `ops` is what a constructor issues: the sleep write, then a 26-byte
      and a 7-byte calibration read whose contents parse to `calib`. */
  predicate ConstructionTrace(ops: seq<Op>, addr: int, os: int, calib: CalibrationData)
  {
    && ValidOversampling(os)
    && |ops| == 3
    && ops == ConstructionOps(addr, os, ops[1].data, ops[2].data)
    && |ops[1].data| == TempPressLength
    && |ops[2].data| == HumidityLength
    && ParseCalibration(ops[1].data, ops[2].data) == Ok(calib)
  }

  /** `ops` is what one measurement issues: ctrl_hum, then ctrl_meas in
      forced mode, then an 8-byte read of the data registers. */
  predicate MeasurementTrace(ops: seq<Op>, addr: int, os: int)
  {
    && ValidOversampling(os)
    && |ops| == 3
    && ops == MeasurementOps(addr, os, ops[2].data)
    && |ops[2].data| == DataLength
  }

  /** `s` is a construction followed by any number of measurements. */
  predicate IsSession(s: seq<Op>, addr: int, os: int, calib: CalibrationData)
    decreases |s|
  {
    if |s| <= 3 then ConstructionTrace(s, addr, os, calib)
    else MeasurementTrace(s[|s| - 3..], addr, os) && IsSession(s[..|s| - 3], addr, os, calib)
  }

  function ReadsOf(op: Op, reg: int): nat { if op.Read? && op.reg == reg then 1 else 0 }

  function WritesOf(op: Op, reg: int): nat { if op.Write? && op.reg == reg then 1 else 0 }

  /** Number of reads of register `reg` in `s`. */
  function CountReads(s: seq<Op>, reg: int): nat
  {
    if s == [] then 0 else CountReads(s[..|s| - 1], reg) + ReadsOf(s[|s| - 1], reg)
  }

  /** Number of writes to register `reg` in `s`. */
  function CountWrites(s: seq<Op>, reg: int): nat
  {
    if s == [] then 0 else CountWrites(s[..|s| - 1], reg) + WritesOf(s[|s| - 1], reg)
  }

  lemma {:induction false} CountAppend(a: seq<Op>, b: seq<Op>, reg: int)
    ensures CountReads(a + b, reg) == CountReads(a, reg) + CountReads(b, reg)
    ensures CountWrites(a + b, reg) == CountWrites(a, reg) + CountWrites(b, reg)
    decreases |b|
  {
    if b == [] {
      assert a + b == a;
    } else {
      assert (a + b)[..|a + b| - 1] == a + b[..|b| - 1];
      CountAppend(a, b[..|b| - 1], reg);
    }
  }

  lemma CountThree(ops: seq<Op>, reg: int)
    requires |ops| == 3
    ensures CountReads(ops, reg) == ReadsOf(ops[0], reg) + ReadsOf(ops[1], reg) + ReadsOf(ops[2], reg)
    ensures CountWrites(ops, reg) == WritesOf(ops[0], reg) + WritesOf(ops[1], reg) + WritesOf(ops[2], reg)
  {
    var one, two := ops[..1], ops[..2];
    assert ops[..|ops| - 1] == two && two[..|two| - 1] == one && one[..|one| - 1] == [];
    assert CountReads(one, reg) == ReadsOf(ops[0], reg);
    assert CountWrites(one, reg) == WritesOf(ops[0], reg);
    assert CountReads(two, reg) == CountReads(one, reg) + ReadsOf(ops[1], reg);
    assert CountWrites(two, reg) == CountWrites(one, reg) + WritesOf(ops[1], reg);
  }

  /** The counts of one construction: the sleep write and one read of each
      calibration block. */
  lemma ConstructionCounts(ops: seq<Op>, addr: int, os: int, calib: CalibrationData)
    requires ConstructionTrace(ops, addr, os, calib)
    ensures CountReads(ops, TempPressCalibrationAddr) == 1
    ensures CountReads(ops, HumidityCalibrationAddr) == 1
    ensures CountReads(ops, DataAddr) == 0
    ensures CountWrites(ops, ControlHumidityRegister) == 0
    ensures CountWrites(ops, ControlRegister) == 1
  {
    CountThree(ops, TempPressCalibrationAddr);
    CountThree(ops, HumidityCalibrationAddr);
    CountThree(ops, DataAddr);
    CountThree(ops, ControlHumidityRegister);
    CountThree(ops, ControlRegister);
  }

  /** The counts of one measurement: one ctrl_hum write, one ctrl_meas write,
      one data read and no calibration read. */
  lemma MeasurementCounts(ops: seq<Op>, addr: int, os: int)
    requires MeasurementTrace(ops, addr, os)
    ensures CountReads(ops, TempPressCalibrationAddr) == 0
    ensures CountReads(ops, HumidityCalibrationAddr) == 0
    ensures CountReads(ops, DataAddr) == 1
    ensures CountWrites(ops, ControlHumidityRegister) == 1
    ensures CountWrites(ops, ControlRegister) == 1
  {
    CountThree(ops, TempPressCalibrationAddr);
    CountThree(ops, HumidityCalibrationAddr);
    CountThree(ops, DataAddr);
    CountThree(ops, ControlHumidityRegister);
    CountThree(ops, ControlRegister);
  }

  /** The counts of a session extended by one measurement add up. */
  lemma AppendCounts(prefix: seq<Op>, last: seq<Op>)
    ensures CountReads(prefix + last, TempPressCalibrationAddr)
         == CountReads(prefix, TempPressCalibrationAddr) + CountReads(last, TempPressCalibrationAddr)
    ensures CountReads(prefix + last, HumidityCalibrationAddr)
         == CountReads(prefix, HumidityCalibrationAddr) + CountReads(last, HumidityCalibrationAddr)
    ensures CountReads(prefix + last, DataAddr)
         == CountReads(prefix, DataAddr) + CountReads(last, DataAddr)
    ensures CountWrites(prefix + last, ControlHumidityRegister)
         == CountWrites(prefix, ControlHumidityRegister) + CountWrites(last, ControlHumidityRegister)
    ensures CountWrites(prefix + last, ControlRegister)
         == CountWrites(prefix, ControlRegister) + CountWrites(last, ControlRegister)
  {
    CountAppend(prefix, last, TempPressCalibrationAddr);
    CountAppend(prefix, last, HumidityCalibrationAddr);
    CountAppend(prefix, last, DataAddr);
    CountAppend(prefix, last, ControlHumidityRegister);
    CountAppend(prefix, last, ControlRegister);
  }

  /** Every transaction of a session goes to the driver's address. */
  lemma {:induction false} SessionAddress(s: seq<Op>, addr: int, os: int, calib: CalibrationData)
    requires IsSession(s, addr, os, calib)
    ensures forall i :: 0 <= i < |s| ==> s[i].addr == addr
    decreases |s|
  {
    if |s| > 3 {
      var prefix, last := s[..|s| - 3], s[|s| - 3..];
      SessionAddress(prefix, addr, os, calib);
      forall i | 0 <= i < |s| ensures s[i].addr == addr {
        if i < |prefix| {
          assert s[i] == prefix[i];
        } else {
          assert s[i] == last[i - |prefix|];
        }
      }
    }
  }

  /** Over a whole session: every transaction goes to the driver's address;
      the session opens with the sleep write; each calibration block is read
      exactly once, however many measurements follow; and each measurement
      writes ctrl_hum once, ctrl_meas once and reads the data burst once. */
  lemma {:induction false} SessionCounts(s: seq<Op>, addr: int, os: int, calib: CalibrationData)
    requires IsSession(s, addr, os, calib)
    ensures ValidOversampling(os) && |s| >= 3 && |s| % 3 == 0
    ensures s[0] == SleepWrite(addr, os)
    ensures forall i :: 0 <= i < |s| ==> s[i].addr == addr
    ensures CountReads(s, TempPressCalibrationAddr) == 1
    ensures CountReads(s, HumidityCalibrationAddr) == 1
    ensures CountReads(s, DataAddr) == |s| / 3 - 1
    ensures CountWrites(s, ControlHumidityRegister) == |s| / 3 - 1
    ensures CountWrites(s, ControlRegister) == |s| / 3
    decreases |s|
  {
    SessionAddress(s, addr, os, calib);
    if |s| <= 3 {
      ConstructionCounts(s, addr, os, calib);
    } else {
      var prefix, last := s[..|s| - 3], s[|s| - 3..];
      SessionCounts(prefix, addr, os, calib);
      MeasurementCounts(last, addr, os);
      assert s == prefix + last;
      AppendCounts(prefix, last);
      assert s[0] == prefix[0];
    }
  }

  /** The three compensation formulas, which work in floating point and are
      not part of this model: `temperature` gives the temperature and
      `t_fine`; `pressure` and `humidity` take their raw code and `t_fine`. */
  datatype Compensation = Compensation(
    temperature: (CalibrationData, int) -> (real, real),
    pressure: (CalibrationData, int, real) -> real,
    humidity: (CalibrationData, int, real) -> real)

  /** What `get_readings` returns: temperature, pressure, humidity. */
  datatype Reading = Reading(temperature: real, pressure: real, humidity: real)

  /** The call structure of `get_readings`: the temperature step runs on the
      temperature code and its `t_fine` is handed to both other steps. */
  function Compensate(comp: Compensation, calib: CalibrationData, raw: RawSample): Reading
  {
    var (temperature, tFine) := comp.temperature(calib, raw.temperature);
    Reading(temperature,
            comp.pressure(calib, raw.pressure, tFine),
            comp.humidity(calib, raw.humidity, tFine))
  }

  /** Each output sees only its own raw code and the temperature code (through
      `t_fine`): the temperature depends on nothing else, and the pressure and
      humidity do not depend on each other's code. */
  lemma CompensateSeparate(comp: Compensation, calib: CalibrationData, r1: RawSample, r2: RawSample)
    requires r1.temperature == r2.temperature
    ensures Compensate(comp, calib, r1).temperature == Compensate(comp, calib, r2).temperature
    ensures r1.pressure == r2.pressure
            ==> Compensate(comp, calib, r1).pressure == Compensate(comp, calib, r2).pressure
    ensures r1.humidity == r2.humidity
            ==> Compensate(comp, calib, r1).humidity == Compensate(comp, calib, r2).humidity
  {
  }

  class BME280 {
    const bus: Bus
    const address: int
    const oversampling: int
    /** `os << 5 | os << 2`, computed once. */
    const modeCalcBaseline: int
    var calibration: CalibrationData

    /** The transactions this driver has issued, oldest first. */
    ghost var session: seq<Op>

    ghost predicate Valid()
      reads this
    {
      && ValidOversampling(oversampling)
      && modeCalcBaseline == Baseline(oversampling)
      && IsSession(session, address, oversampling, calibration)
    }

    /** `BME280(i2c, oversampling=5, address=0x76)`. */
    constructor (bus: Bus, oversampling: int := DefaultOversampling, address: int := DefaultAddress)
      requires ValidOversampling(oversampling)
      modifies bus
      ensures Valid()
      ensures this.bus == bus && this.address == address && this.oversampling == oversampling
      ensures ConstructionTrace(session, address, oversampling, calibration)
      ensures bus.log == old(bus.log) + session
    {
      this.address := address;
      this.bus := bus;
      this.oversampling := oversampling;
      this.modeCalcBaseline := Baseline(oversampling);
      session := [];
      new;
      Setup();
      ghost var tp, hum;
      calibration, tp, hum := GetCalibrationData();
      assert session == ConstructionOps(address, oversampling, tp, hum);
    }

    /** `__setup`: one write of the sleep-mode control byte. */
    method Setup()
      requires ValidOversampling(oversampling) && modeCalcBaseline == Baseline(oversampling)
      modifies bus, this`session
      ensures session == old(session) + [SleepWrite(address, oversampling)]
      ensures bus.log == old(bus.log) + [SleepWrite(address, oversampling)]
    {
      ModeCalcFields(oversampling, SleepMode);
      var modeCalc: byte := Or(modeCalcBaseline, SleepMode);
      bus.WriteToMem(address, ControlRegister, [modeCalc]);
      session := session + [Write(address, ControlRegister, [modeCalc])];
    }

    /** `__get_calibration_data`: a 26-byte read from 0x88, a 7-byte read
        from 0xE1, and the coefficients parsed from them. The lengths are
        right, so the parse cannot fail. */
    method GetCalibrationData() returns (c: CalibrationData, ghost tp: seq<byte>, ghost hum: seq<byte>)
      modifies bus, this`session
      ensures |tp| == TempPressLength && |hum| == HumidityLength
      ensures ParseCalibration(tp, hum) == Ok(c)
      ensures session == old(session)
        + [Read(address, TempPressCalibrationAddr, tp), Read(address, HumidityCalibrationAddr, hum)]
      ensures bus.log == old(bus.log)
        + [Read(address, TempPressCalibrationAddr, tp), Read(address, HumidityCalibrationAddr, hum)]
    {
      var tempPressData := bus.ReadFromMem(address, TempPressCalibrationAddr, TempPressLength);
      var humidityData := bus.ReadFromMem(address, HumidityCalibrationAddr, HumidityLength);
      session := session
        + [Read(address, TempPressCalibrationAddr, tempPressData),
           Read(address, HumidityCalibrationAddr, humidityData)];
      tp, hum := tempPressData, humidityData;
      var parsed := ParseCalibration(tempPressData, humidityData);
      c := parsed.value;
    }

    /** `__read_raw_data`: ctrl_hum, ctrl_meas in forced mode, the 8-byte
        burst, and its decoding as (temperature, pressure, humidity). */
    method ReadRawData() returns (raw: RawSample, ghost data: seq<byte>)
      requires Valid()
      modifies bus, this`session
      ensures |data| == DataLength && raw == DecodeRaw(data)
      ensures session == old(session) + MeasurementOps(address, oversampling, data)
      ensures bus.log == old(bus.log) + MeasurementOps(address, oversampling, data)
    {
      ModeCalcFields(oversampling, ForcedMode);
      var modeCalc: byte := Or(modeCalcBaseline, ForcedMode);
      bus.WriteToMem(address, ControlHumidityRegister, [oversampling]);
      bus.WriteToMem(address, ControlRegister, [modeCalc]);
      var results := bus.ReadFromMem(address, DataAddr, DataLength);
      session := session + MeasurementOps(address, oversampling, results);
      data := results;
      raw := DecodeRaw(results);
    }

    /** `get_readings`: one measurement, compensated. The session grows by
        exactly one measurement and nothing else of the driver changes, so
        the calibration is never read again. */
    method GetReadings(comp: Compensation) returns (reading: Reading)
      requires Valid()
      modifies bus, this`session
      ensures Valid()
      ensures calibration == old(calibration)
      ensures |session| == |old(session)| + 3 && session[..|old(session)|] == old(session)
      ensures MeasurementTrace(session[|old(session)|..], address, oversampling)
      ensures bus.log == old(bus.log) + session[|old(session)|..]
      ensures reading == Compensate(comp, calibration, DecodeRaw(session[|session| - 1].data))
      ensures CountReads(session, TempPressCalibrationAddr) == 1
      ensures CountReads(session, HumidityCalibrationAddr) == 1
    {
      ghost var before := session;
      var rawReadings, data := ReadRawData();
      assert session[..|before|] == before && session[|before|..] == MeasurementOps(address, oversampling, data);
      reading := Compensate(comp, calibration, rawReadings);
      SessionCounts(session, address, oversampling, calibration);
    }
  }
}
