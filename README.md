# BME280 driver core in Dafny

This project models the core of `bme280.py`, a MicroPython driver for the
Bosch BME280 temperature, pressure and humidity sensor on an I2C bus. The
model has four parts:

- Parsing the factory calibration. This is `CalibrationData.__init__`: the
  26-byte block from register 0x88 is unpacked with `"<HhhH8hBB"` and the
  7-byte block from 0xE1 with `"<hB4b"`. The two 12-bit coefficients H4 and
  H5 are rebuilt from a signed high byte and one nibble of the shared byte 4.
- The ctrl_meas control byte. It is `os << 5 | os << 2 | mode`, with mode
  sleep (0) or forced (1).
- Decoding the 8-byte data burst. Pressure and temperature are 20-bit
  codes and humidity is a 16-bit code.
- The `BME280` class and its sequence of bus transactions. The constructor
  writes the sleep byte and then reads both calibration blocks. Each
  `get_readings` writes ctrl_hum and then ctrl_meas in forced mode, reads
  the burst and compensates it.

Python's `<<`, `>>`, `|` and `&` on unbounded integers are modelled in
`bits.dfy`. `struct.unpack` for the four codes the driver uses is modelled
in `struct_unpack.dfy`. The bus is a class whose ghost log records every
`writeto_mem` and `readfrom_mem`. The driver keeps its own ghost `session`
of the transactions it has issued. From that session the model proves the
order and number of transactions: a construction followed by any number of
measurements, with each calibration block read exactly once.

H4 and H5 take their high bytes from indices 3 and 5 of the humidity block
(`humidity_struct[2]` and `humidity_struct[4]` of `"<hB4b"`), as in section
4.2.2 of the BME280 datasheet. The code does not check the oversampling
setting; it only carries the comment `min 1, max 5`, and the model makes
that range a precondition (see below).

## Model

| member | source | states |
|---|---|---|
| Struct.Unpack | bme280.py:23-24 | `struct.unpack` succeeds exactly when the buffer length equals the format's size, and then yields one value per format code |
| Struct.UnpackPack | bme280.py:23-24 | unpacking a buffer packed from values that fit their codes gives back exactly those values |
| Struct.PackUnpack | bme280.py:23-24 | every value unpacked from a buffer of the right size fits its code, and packing the values again gives back the buffer: no byte is lost or read twice |
| Calibration.FormatSizes | bme280.py:23-24 | `"<HhhH8hBB"` takes 26 bytes and `"<hB4b"` takes 7 bytes |
| Calibration.ParseCalibration | bme280.py:22-24 | the parse succeeds iff the blocks are 26 and 7 bytes long; a wrong first block reports its own length error, which wins over the second block's |
| Calibration.FromTuples | bme280.py:26-46 | no contract of its own; where each coefficient comes from is stated by `Calibration.TempPressLayout`, `Calibration.HumidityLayout` and `Calibration.HumidityNibbles` on the parse that calls it |
| Calibration.TempPressWord | bme280.py:23 | field i < 12 of the first tuple is the LE16 word at bytes 2i and 2i+1, unsigned for i = 0 and 3 and signed otherwise |
| Calibration.TempPressLayout | bme280.py:26-40 | T1 and P1 are unsigned LE16 words; T2, T3 and P2..P9 are signed LE16 words at bytes 2..23; H1 is byte 25 |
| Calibration.HumidityLayout | bme280.py:42-46 | H2 is the signed LE16 word at bytes 0-1, H3 is byte 2 unsigned, H6 is byte 6 signed |
| Calibration.HumidityNibbles | bme280.py:44-45 | H4 = int8(byte 3)·16 + low nibble of byte 4 and H5 = int8(byte 5)·16 + high nibble of byte 4, both in [-2048, 2048) |
| Calibration.SkippedByte | bme280.py:23-40 | byte 24 of the first block (tuple index 12) affects no coefficient and no error |
| Calibration.SharedByte | bme280.py:44-45 | the low nibble of byte 4 reaches only H4 and the high nibble only H5 (iff, both ways); nothing else depends on byte 4 |
| Bits.Shl | bme280.py:44-45 | `a << k` shifted back right by `k` gives `a`: no bit is lost, for either sign; its arithmetic value is stated by `Bits.OrDisjoint` |
| Bits.Shr | bme280.py:45 | `a >> k` is the floor of `a / 2^k`: `r·2^k <= a < (r+1)·2^k`, for negative `a` too |
| Bits.Or | bme280.py:44-45 | no contract of its own; its bounds are stated by `Bits.OrBounds` and its value on disjoint bits by `Bits.OrDisjoint` |
| Bits.And | bme280.py:44 | no contract of its own; its bounds are stated by `Bits.AndBounds` and the mask value by `Bits.AndLowMask` |
| Bits.OrBounds | bme280.py:44-45 | `a \| b` of two non-negative integers is at least each and at most their sum; with a negative operand it is negative |
| Bits.AndBounds | bme280.py:44 | `a & b` lies in `0..a` when `a >= 0` and in `0..b` when `b >= 0`, so `x & 0x0F` is a nibble |
| Bits.OrDisjoint | bme280.py:56 | `(a << k) \| n` is `a·2^k + n` when 0 <= n < 2^k, for any sign of `a` |
| Bits.AndLowMask | bme280.py:44 | `a & (2^k - 1)` is `a mod 2^k` |
| Registers.Baseline | bme280.py:56 | no contract of its own, since the code accepts any oversampling; its value for 1..5 is stated by `Registers.BaselineValue` |
| Registers.ModeCalc | bme280.py:77 | `baseline \| mode`, also used for the sleep byte at line 63; no contract of its own: its value and bit fields are stated by `Registers.ModeCalcValue` and `Registers.ModeCalcFields` |
| Registers.BaselineValue | bme280.py:54-56 | for oversampling 1..5 the baseline `os << 5 \| os << 2` is 36·os, a byte whose two mode bits are clear |
| Registers.ModeCalcValue | bme280.py:77 | OR-ing a mode 0..3 into the baseline adds it: the control byte is 36·os + mode |
| Registers.ModeCalcFields | bme280.py:61-77 | baseline \| mode is baseline + mode, a byte with osrs_t (bits 7..5) = os, osrs_p (bits 4..2) = os and mode in bits 1..0 |
| Registers.ControlByte | bme280.py:63-64 | the control byte fits the one-byte `bytearray` that is written |
| Registers.Code20 | bme280.py:89-90 | a 20-bit code is the 24-bit big-endian value divided by 16, equal to `msb·4096 + lsb·16 + xlsb div 16` and to the datasheet's `msb << 12 \| lsb << 4 \| xlsb >> 4`, and below 2^20 |
| Registers.Code16 | bme280.py:91 | the humidity code is `msb·256 + lsb`, below 2^16 |
| Registers.DecodeRaw | bme280.py:89-93 | pressure comes from bytes 0-2, temperature from bytes 3-5 and humidity from bytes 6-7, and every decoded burst is in range |
| Registers.DecodeEncode | bme280.py:89-93 | decoding the burst that encodes a sample gives back that sample |
| Registers.EncodeDecode | bme280.py:89-93 | re-encoding a decoded burst gives back the burst iff the low nibbles of bytes 2 and 5 (the bits `>> 4` drops) are zero |
| Sensor.Compensate | bme280.py:142-144 | no contract of its own; `Sensor.CompensateSeparate` states its call structure and `Sensor.BME280.GetReadings` its use |
| Sensor.CompensateSeparate | bme280.py:142-144 | the temperature depends only on the temperature code; pressure and humidity each depend only on their own code and, through `t_fine`, on the temperature code |
| Sensor.ConstructionCounts | bme280.py:58-70 | construction writes ctrl_meas once, reads each calibration block once and touches neither ctrl_hum nor the data registers |
| Sensor.MeasurementCounts | bme280.py:76-85 | one measurement writes ctrl_hum once and ctrl_meas once, reads the data burst once and reads no calibration |
| Sensor.SessionAddress | bme280.py:51-85 | every transaction of a session goes to the address the driver was given |
| Sensor.SessionCounts | bme280.py:58-85 | every session opens with the sleep write and uses the driver's address throughout; each calibration block is read exactly once; with n measurements there are n data reads, n ctrl_hum writes and n + 1 ctrl_meas writes |
| I2C.Bus.WriteToMem | bme280.py:64 | a `writeto_mem` appends exactly that write to the bus log |
| I2C.Bus.ReadFromMem | bme280.py:67-68 | a `readfrom_mem` returns exactly `n` bytes and appends the read, with its data, to the bus log |
| Sensor.BME280.constructor | bme280.py:50-59 | construction issues exactly the sleep write and then the 26-byte and 7-byte calibration reads, and the stored calibration is the parse of those blocks |
| Sensor.BME280.Setup | bme280.py:61-64 | `__setup` writes the sleep control byte to 0xF4, and nothing else |
| Sensor.BME280.GetCalibrationData | bme280.py:66-70 | two reads of 26 and 7 bytes from 0x88 and 0xE1, whose parse succeeds and is the result |
| Sensor.BME280.ReadRawData | bme280.py:72-93 | writes os to ctrl_hum and the forced byte to ctrl_meas, reads 8 bytes from 0xF7, and returns their decoding |
| Sensor.BME280.GetReadings | bme280.py:140-146 | one reading appends exactly one measurement trace and keeps the calibration; the result is the compensation of the decoded burst with `t_fine` threaded from temperature to pressure and humidity; the calibration stays read once |

## Left out

- The compensation formulas (`__compensate_temperature`, `__compensate_pressure` and `__compensate_humidity`, bme280.py:96-138) are left out because they compute in floating point. `get_readings` takes them as a `Compensation` parameter, and the model states only how the three are called and how `t_fine` flows between them.
- `time.sleep_ms(50)` after each control write is left out. Timing is not modelled.
- The real I2C transport is left out. This includes bus errors and the exceptions they raise, which would propagate from every method. The bus's `registers` field is only a stand-in register file so that reads return something. No contract depends on what a read returns beyond its length.
- The oversampling range 1..5 is a precondition of the constructor. The code does not check it: a value outside the range gives a different control byte and, from 8 upwards, a byte that overflows the `bytearray`.
- Struct.Unpack: follows the exact-length rule of `struct.unpack` (a buffer longer than the format is rejected as well as a shorter one). MicroPython's `struct` module, which this driver runs on, only rejects buffers that are too short. The two rules agree on every buffer the driver unpacks, because `readfrom_mem` returns exactly the 26 and 7 bytes it asks for (bme280.py:67-68).
- Calibration.ParseCalibration: inherits the exact-length rule of `Struct.Unpack`, so it reports a length error for blocks longer than 26 or 7 bytes, which MicroPython would parse from their leading bytes. The driver never passes such a block.
- `Registers.DecodeRaw` requires at least 8 bytes. Python would raise `IndexError` for a shorter buffer, but the bus always returns the 8 bytes asked for.
- `main.py`, the demo loop that constructs the driver and prints readings, is not part of this model.
