/** The factory trimming parameters of the BME280 (`CalibrationData` in
    bme280.py), laid out as in section 4.2.2 of the Bosch BME280 datasheet:
    a 26-byte block read from register 0x88 and a 7-byte block read from 0xE1. */
module Calibration {
  import opened Bits
  import opened Struct

  /** The 18 coefficients `dig_T1` ... `dig_H6`. */
  datatype CalibrationData = CalibrationData(
    T1: int, T2: int, T3: int,
    P1: int, P2: int, P3: int, P4: int, P5: int, P6: int, P7: int, P8: int, P9: int,
    H1: int, H2: int, H3: int, H4: int, H5: int, H6: int)

  /** `struct.error` from unpacking a block of the wrong length. */
  datatype ParseError = StructError(expected: nat, got: nat)

  datatype Result<T> = Ok(value: T) | Err(error: ParseError)

  /** The format "<HhhH8hBB" of the temperature/pressure block. */
  const TempPressFormat: seq<Code> :=
    [UInt16, Int16, Int16,
     UInt16, Int16, Int16, Int16, Int16, Int16, Int16, Int16, Int16,
     UInt8, UInt8]

  /** The format "<hB4b" of the humidity block. */
  const HumidityFormat: seq<Code> := [Int16, UInt8, Int8, Int8, Int8, Int8]

  const TempPressLength: nat := 26
  const HumidityLength: nat := 7

  lemma FormatSizes()
    ensures Size(TempPressFormat) == TempPressLength
    ensures Size(HumidityFormat) == HumidityLength
  {
    TempPressOffset(12);
    assert Offset(TempPressFormat, 13) == 25;
    assert Offset(TempPressFormat, 14) == 26;
    HumidityOffsets();
  }

  /** The assignments of `CalibrationData.__init__`: the coefficients picked
      out of the two unpacked tuples. H4 and H5 are 12-bit values whose high
      part is a signed byte of the humidity tuple and whose low bits are a
      nibble of the raw shared byte `humidity_data[4]`. */
  function FromTuples(t: seq<int>, h: seq<int>, shared: byte): CalibrationData
    requires |t| == |TempPressFormat| && |h| == |HumidityFormat|
  {
    CalibrationData(
      T1 := t[0], T2 := t[1], T3 := t[2],
      P1 := t[3], P2 := t[4], P3 := t[5], P4 := t[6], P5 := t[7],
      P6 := t[8], P7 := t[9], P8 := t[10], P9 := t[11],
      H1 := t[13],
      H2 := h[0],
      H3 := h[1],
      H4 := Or(Shl(h[2], 4), And(shared, 0x0F)),
      H5 := Or(Shl(h[4], 4), Shr(shared, 4)),
      H6 := h[5])
  }

  /** `CalibrationData(temp_press_data, humidity_data)`: both blocks are
      unpacked first, the temperature/pressure one first, so that its length
      error is the one raised when both are wrong. */
  function ParseCalibration(tp: seq<byte>, hum: seq<byte>): (r: Result<CalibrationData>)
    ensures r.Ok? <==> |tp| == TempPressLength && |hum| == HumidityLength
    ensures |tp| != TempPressLength ==> r == Err(StructError(TempPressLength, |tp|))
    ensures |tp| == TempPressLength && |hum| != HumidityLength
            ==> r == Err(StructError(HumidityLength, |hum|))
  {
    FormatSizes();
    match Unpack(TempPressFormat, tp)
    case None => Err(StructError(TempPressLength, |tp|))
    case Some(t) =>
      match Unpack(HumidityFormat, hum)
      case None => Err(StructError(HumidityLength, |hum|))
      case Some(h) => Ok(FromTuples(t, h, hum[4]))
  }

  lemma ParseTuples(tp: seq<byte>, hum: seq<byte>)
    requires |tp| == TempPressLength && |hum| == HumidityLength
    ensures Unpack(TempPressFormat, tp).Some? && Unpack(HumidityFormat, hum).Some?
    ensures ParseCalibration(tp, hum)
         == Ok(FromTuples(Unpack(TempPressFormat, tp).value, Unpack(HumidityFormat, hum).value, hum[4]))
  {
    FormatSizes();
  }

  /** Field `i` of the humidity format starts at byte `i + 1` (the first is 16-bit). */
  lemma HumidityOffsets()
    ensures Offset(HumidityFormat, 0) == 0
    ensures forall i :: 1 <= i <= 6 ==> Offset(HumidityFormat, i) == i + 1
  {
    assert Offset(HumidityFormat, 1) == 2;
    assert Offset(HumidityFormat, 2) == 3;
    assert Offset(HumidityFormat, 3) == 4;
    assert Offset(HumidityFormat, 4) == 5;
    assert Offset(HumidityFormat, 5) == 6;
    assert Offset(HumidityFormat, 6) == 7;
  }

  /** The first twelve fields of the temperature/pressure format are 16-bit. */
  lemma {:induction false} TempPressOffset(i: nat)
    requires i <= 12
    ensures Offset(TempPressFormat, i) == 2 * i
  {
    if i > 0 {
      TempPressOffset(i - 1);
    }
  }

  lemma TempPressCode(i: nat)
    requires i < 12
    ensures TempPressFormat[i] == if i == 0 || i == 3 then UInt16 else Int16
  {
  }

  /** Field `i < 12` of the temperature/pressure tuple is the little-endian
      word at bytes `2i`, `2i + 1`, read unsigned or signed by its code. */
  lemma TempPressWord(tp: seq<byte>, i: nat)
    requires |tp| == TempPressLength && i < 12
    ensures Unpack(TempPressFormat, tp).Some?
    ensures Unpack(TempPressFormat, tp).value[i]
         == if i == 0 || i == 3 then LE16(tp[2 * i], tp[2 * i + 1])
            else Signed16(LE16(tp[2 * i], tp[2 * i + 1]))
  {
    FormatSizes();
    TempPressCode(i);
    TempPressOffset(i);
    UnpackFieldAt(TempPressFormat, tp, i, 2 * i, 2);
    var d := tp[2 * i..2 * i + 2];
    assert d[0] == tp[2 * i] && d[1] == tp[2 * i + 1];
  }

  /** The temperature and pressure coefficients and H1, byte by byte. */
  lemma TempPressLayout(tp: seq<byte>, hum: seq<byte>)
    requires |tp| == TempPressLength && |hum| == HumidityLength
    ensures var c := ParseCalibration(tp, hum).value;
      && c.T1 == LE16(tp[0], tp[1])
      && c.T2 == Signed16(LE16(tp[2], tp[3]))
      && c.T3 == Signed16(LE16(tp[4], tp[5]))
      && c.P1 == LE16(tp[6], tp[7])
      && c.P2 == Signed16(LE16(tp[8], tp[9]))
      && c.P3 == Signed16(LE16(tp[10], tp[11]))
      && c.P4 == Signed16(LE16(tp[12], tp[13]))
      && c.P5 == Signed16(LE16(tp[14], tp[15]))
      && c.P6 == Signed16(LE16(tp[16], tp[17]))
      && c.P7 == Signed16(LE16(tp[18], tp[19]))
      && c.P8 == Signed16(LE16(tp[20], tp[21]))
      && c.P9 == Signed16(LE16(tp[22], tp[23]))
      && c.H1 == tp[25]
  {
    ParseTuples(tp, hum);
    TempPressWord(tp, 0); TempPressWord(tp, 1); TempPressWord(tp, 2);
    TempPressWord(tp, 3); TempPressWord(tp, 4); TempPressWord(tp, 5);
    TempPressWord(tp, 6); TempPressWord(tp, 7); TempPressWord(tp, 8);
    TempPressWord(tp, 9); TempPressWord(tp, 10); TempPressWord(tp, 11);
    TempPressOffset(12);
    UnpackFieldAt(TempPressFormat, tp, 13, 25, 1);
  }

  /** H2, H3 and H6 of the humidity block. */
  lemma HumidityLayout(tp: seq<byte>, hum: seq<byte>)
    requires |tp| == TempPressLength && |hum| == HumidityLength
    ensures var c := ParseCalibration(tp, hum).value;
      && c.H2 == Signed16(LE16(hum[0], hum[1]))
      && c.H3 == hum[2]
      && c.H6 == Signed8(hum[6])
  {
    FormatSizes();
    ParseTuples(tp, hum);
    UnpackFieldAt(HumidityFormat, hum, 0, 0, 2);
    UnpackFieldAt(HumidityFormat, hum, 1, 2, 1);
    UnpackFieldAt(HumidityFormat, hum, 5, 6, 1);
  }

  /** H4 and H5 as arithmetic: the signed high byte (index 3 for H4, index 5
      for H5) times 16, plus the low (H4) or high (H5) nibble of byte 4.
      Both are 12-bit signed values. */
  lemma HumidityNibbles(tp: seq<byte>, hum: seq<byte>)
    requires |tp| == TempPressLength && |hum| == HumidityLength
    ensures var c := ParseCalibration(tp, hum).value;
      && c.H4 == Signed8(hum[3]) * 16 + hum[4] % 16
      && c.H5 == Signed8(hum[5]) * 16 + hum[4] / 16
      && -2048 <= c.H4 < 2048
      && -2048 <= c.H5 < 2048
  {
    FormatSizes();
    ParseTuples(tp, hum);
    UnpackFieldAt(HumidityFormat, hum, 2, 3, 1);
    UnpackFieldAt(HumidityFormat, hum, 4, 5, 1);
    assert Pow2(4) == 16;
    AndLowMask(hum[4], 4);
    OrDisjoint(Signed8(hum[3]), 4, hum[4] % 16);
    OrDisjoint(Signed8(hum[5]), 4, hum[4] / 16);
  }

  /** Byte 24 of the temperature/pressure block feeds no coefficient: it may
      be anything, whatever the lengths of the blocks. */
  lemma SkippedByte(tp: seq<byte>, hum: seq<byte>, x: byte)
    requires 24 < |tp|
    ensures ParseCalibration(tp[24 := x], hum) == ParseCalibration(tp, hum)
  {
    var tp' := tp[24 := x];
    if |tp| == TempPressLength && |hum| == HumidityLength {
      TempPressLayout(tp, hum);
      TempPressLayout(tp', hum);
      HumidityLayout(tp, hum);
      HumidityLayout(tp', hum);
      HumidityNibbles(tp, hum);
      HumidityNibbles(tp', hum);
    }
  }

  /** Of the shared byte 4, the low nibble reaches only H4 and the high
      nibble only H5: replacing the byte changes H4 exactly when its low
      nibble changes, H5 exactly when its high nibble changes, and nothing else. */
  lemma SharedByte(tp: seq<byte>, hum: seq<byte>, x: byte)
    requires |tp| == TempPressLength && |hum| == HumidityLength
    ensures var c := ParseCalibration(tp, hum).value;
      var c' := ParseCalibration(tp, hum[4 := x]).value;
      && (c'.H4 == c.H4 <==> x % 16 == hum[4] % 16)
      && (c'.H5 == c.H5 <==> x / 16 == hum[4] / 16)
      && c'.(H4 := c.H4, H5 := c.H5) == c
  {
    var hum' := hum[4 := x];
    TempPressLayout(tp, hum);
    TempPressLayout(tp, hum');
    HumidityLayout(tp, hum);
    HumidityLayout(tp, hum');
    HumidityNibbles(tp, hum);
    HumidityNibbles(tp, hum');
  }
}
