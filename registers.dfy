/** The BME280 register map used by the driver and the byte-level logic of
    the `BME280` class: the ctrl_meas control byte (section 5.4.5 of the
    Bosch BME280 datasheet) and the decoding of the 8-byte data burst
    (section 5.4.7 onwards). */
module Registers {
  import opened Bits

  const ControlRegister: int := 0xF4            // ctrl_meas
  const TempPressCalibrationAddr: int := 0x88   // calib00 .. calib25
  const HumidityCalibrationAddr: int := 0xE1    // calib26 .. calib32
  const DataAddr: int := 0xF7                   // press_msb .. hum_lsb
  const ControlHumidityRegister: int := 0xF2    // ctrl_hum

  const SleepMode: int := 0x00
  const ForcedMode: int := 0x01

  const DataLength: nat := 8

  const DefaultAddress: int := 0x76
  const DefaultOversampling: int := 5

  /** The oversampling setting the driver is meant to be given (1 to 5). */
  predicate ValidOversampling(os: int) { 1 <= os <= 5 }

  /** `os << 5 | os << 2`: the same oversampling for temperature (bits 7..5)
      and pressure (bits 4..2), mode bits left clear. */
  function Baseline(os: int): int
  {
    Or(Shl(os, 5), Shl(os, 2))
  }

  /** `baseline | mode`: the byte written to ctrl_meas. */
  function ModeCalc(os: int, mode: int): int
  {
    Or(Baseline(os), mode)
  }

  /** For a valid setting the two shifted copies do not overlap: the baseline
      is `36 * os`, a byte with its two mode bits clear. */
  lemma BaselineValue(os: int)
    requires ValidOversampling(os)
    ensures Baseline(os) == 36 * os
    ensures 0 <= Baseline(os) < 256 && Baseline(os) % 4 == 0
  {
    Pow2Values();
    var low := Shl(os, 2);
    assert low == 4 * os;
    OrDisjoint(os, 5, low);
    assert Baseline(os) == 32 * os + low;
    DivModUnique(36 * os, 4, 9 * os, 0);
  }

  /** OR-ing the mode into the baseline adds it: the mode bits are clear. */
  lemma ModeCalcValue(os: int, mode: int)
    requires ValidOversampling(os) && 0 <= mode < 4
    ensures ModeCalc(os, mode) == 36 * os + mode
  {
    BaselineValue(os);
    assert Pow2(2) == 4;
    assert Baseline(os) == Shl(9 * os, 2);
    OrDisjoint(9 * os, 2, mode);
  }

  /** The control byte carries the mode in bits 1..0 and the oversampling in
      both fields osrs_t (bits 7..5) and osrs_p (bits 4..2); it is the
      baseline plus the mode, so sleep writes the baseline itself and forced
      writes the baseline plus one. */
  lemma ModeCalcFields(os: int, mode: int)
    requires ValidOversampling(os) && 0 <= mode < 4
    ensures ModeCalc(os, mode) == Baseline(os) + mode
    ensures 0 <= ModeCalc(os, mode) < 256
    ensures ModeCalc(os, mode) / 32 == os
    ensures ModeCalc(os, mode) / 4 % 8 == os
    ensures ModeCalc(os, mode) % 4 == mode
  {
    BaselineValue(os);
    ModeCalcValue(os, mode);
    ControlFields(os, mode);
  }

  /** The bit fields of `36 * os + mode`, on plain integers. */
  lemma ControlFields(os: int, mode: int)
    requires ValidOversampling(os) && 0 <= mode < 4
    ensures var v := 36 * os + mode;
      0 <= v < 256 && v / 32 == os && v / 4 % 8 == os && v % 4 == mode
  {
    var v := 36 * os + mode;
    DivModUnique(v, 32, os, 4 * os + mode);
    DivModUnique(v, 4, 9 * os, mode);
    DivModUnique(9 * os, 8, os, os);
  }

  /** The control byte as the one-byte `bytearray` that is written. */
  function ControlByte(os: int, mode: int): (b: byte)
    requires ValidOversampling(os) && 0 <= mode < 4
    ensures b == ModeCalc(os, mode)
  {
    ModeCalcFields(os, mode);
    ModeCalc(os, mode)
  }

  /** The three raw ADC codes, in the order `(temperature, pressure,
      humidity)` in which `__read_raw_data` returns them. */
  datatype RawSample = RawSample(temperature: int, pressure: int, humidity: int)

  /** `((msb << 16) | (lsb << 8) | xlsb) >> 4`: a 20-bit code from three
      big-endian bytes, dropping the low nibble of the last one. It is the
      24-bit big-endian value divided by 16, which is also the datasheet's
      `msb << 12 | lsb << 4 | xlsb >> 4`. */
  function Code20(msb: byte, lsb: byte, xlsb: byte): (c: int)
    ensures c == (msb as int * 65536 + lsb as int * 256 + xlsb) / 16
    ensures c == msb as int * 4096 + lsb as int * 16 + xlsb / 16
    ensures c == Or(Or(Shl(msb, 12), Shl(lsb, 4)), Shr(xlsb, 4))
    ensures 0 <= c < 0x10_0000
  {
    Pow2Values();
    var w: int := msb as int * 256 + lsb;
    OrDisjoint(msb, 16, Shl(lsb, 8));
    assert Or(Shl(msb, 16), Shl(lsb, 8)) == Shl(w, 8);
    OrDisjoint(w, 8, xlsb);
    OrDisjoint(msb, 12, Shl(lsb, 4));
    assert Or(Shl(msb, 12), Shl(lsb, 4)) == Shl(w, 4);
    OrDisjoint(w, 4, Shr(xlsb, 4));
    DivModUnique(w * 256 + xlsb, 16, w * 16 + xlsb / 16, xlsb % 16);
    Shr(Or(Or(Shl(msb, 16), Shl(lsb, 8)), xlsb), 4)
  }

  /** `(msb << 8) | lsb`: a 16-bit big-endian code. */
  function Code16(msb: byte, lsb: byte): (c: int)
    ensures c == msb as int * 256 + lsb
    ensures 0 <= c < 0x1_0000
  {
    Pow2Values();
    OrDisjoint(msb, 8, lsb);
    Or(Shl(msb, 8), lsb)
  }

  /** The decoding in `__read_raw_data`: pressure from bytes 0..2,
      temperature from bytes 3..5, humidity from bytes 6..7, every code in
      the range the sensor can deliver. */
  function DecodeRaw(d: seq<byte>): (s: RawSample)
    requires |d| >= DataLength
    ensures InRange(s)
    ensures s.pressure == d[0] as int * 4096 + d[1] as int * 16 + d[2] / 16
    ensures s.temperature == d[3] as int * 4096 + d[4] as int * 16 + d[5] / 16
    ensures s.humidity == d[6] as int * 256 + d[7]
  {
    RawSample(
      temperature := Code20(d[3], d[4], d[5]),
      pressure := Code20(d[0], d[1], d[2]),
      humidity := Code16(d[6], d[7]))
  }

  /** The field ranges of a sample the sensor can deliver: 20-bit
      temperature and pressure codes, a 16-bit humidity code. */
  predicate InRange(s: RawSample)
  {
    0 <= s.temperature < 0x10_0000 && 0 <= s.pressure < 0x10_0000
    && 0 <= s.humidity < 0x1_0000
  }

  /** The burst the sensor sends for a sample: each 20-bit code as msb, lsb
      and a last byte holding its low nibble in bits 7..4. */
  function EncodeRaw(s: RawSample): (d: seq<byte>)
    requires InRange(s)
    ensures |d| == DataLength
  {
    [s.pressure / 4096, s.pressure / 16 % 256, s.pressure % 16 * 16,
     s.temperature / 4096, s.temperature / 16 % 256, s.temperature % 16 * 16,
     s.humidity / 256, s.humidity % 256]
  }

  /** The three bytes of a 20-bit code give it back under `Code20`. */
  lemma Code20Split(v: int)
    requires 0 <= v < 0x10_0000
    ensures 0 <= v / 4096 < 256 && 0 <= v / 16 % 256 < 256 && 0 <= v % 16 * 16 < 256
    ensures Code20(v / 4096, v / 16 % 256, v % 16 * 16) == v
  {
    var q := v / 16;
    assert v == 16 * q + v % 16;
    assert q == 256 * (q / 256) + q % 256;
    DivModUnique(v, 4096, q / 256, 16 * (q % 256) + v % 16);
  }

  /** And `Code20` gives back the first two bytes and the high nibble of the last. */
  lemma Code20Bytes(msb: byte, lsb: byte, xlsb: byte)
    ensures var v := Code20(msb, lsb, xlsb);
      v / 4096 == msb && v / 16 % 256 == lsb && v % 16 == xlsb / 16
  {
    var v := Code20(msb, lsb, xlsb);
    DivModUnique(v, 4096, msb, lsb as int * 16 + xlsb / 16);
    DivModUnique(v, 16, msb as int * 256 + lsb, xlsb / 16);
    DivModUnique(v / 16, 256, msb, lsb);
  }

  /** Decoding undoes encoding: no code is lost or moved to another field. */
  lemma DecodeEncode(s: RawSample)
    requires InRange(s)
    ensures DecodeRaw(EncodeRaw(s)) == s
  {
    Code20Split(s.pressure);
    Code20Split(s.temperature);
  }

  /** Encoding undoes decoding exactly when the low nibbles of bytes 2 and 5,
      the bits the `>> 4` drops, are zero. */
  lemma EncodeDecode(d: seq<byte>)
    requires |d| == DataLength
    ensures InRange(DecodeRaw(d))
    ensures EncodeRaw(DecodeRaw(d)) == d <==> d[2] % 16 == 0 && d[5] % 16 == 0
  {
    Code20Bytes(d[0], d[1], d[2]);
    Code20Bytes(d[3], d[4], d[5]);
    var r := DecodeRaw(d);
    assert r.pressure == Code20(d[0], d[1], d[2]) && r.temperature == Code20(d[3], d[4], d[5]);
    DivModUnique(r.humidity, 256, d[6], d[7]);
    var e := EncodeRaw(r);
    assert e[0] == d[0] && e[1] == d[1] && e[2] == d[2] / 16 * 16;
    assert e[3] == d[3] && e[4] == d[4] && e[5] == d[5] / 16 * 16;
    assert e[6] == d[6] && e[7] == d[7];
    if d[2] % 16 == 0 && d[5] % 16 == 0 {
      assert forall k | 0 <= k < |d| :: e[k] == d[k];
    }
  }
}
