/** Python's `struct.unpack` for little-endian ('<') formats built from the
    codes `B`, `b`, `H` and `h`: standard sizes, no padding, and an error
    unless the buffer is exactly as long as the format. */
module Struct {
  import opened Bits

  /** One format code: `B` (unsigned 8-bit), `b` (signed 8-bit),
      `H` (unsigned 16-bit), `h` (signed 16-bit). */
  datatype Code = UInt8 | Int8 | UInt16 | Int16

  function Width(c: Code): nat
  {
    match c
    case UInt8 => 1
    case Int8 => 1
    case UInt16 => 2
    case Int16 => 2
  }

  /** Two's-complement reading of an 8-bit value. */
  function Signed8(x: byte): (r: int)
    ensures -128 <= r < 128
  {
    if x < 128 then x else x - 256
  }

  /** Little-endian 16-bit word from its low and high byte. */
  function LE16(lo: byte, hi: byte): (r: int)
    ensures 0 <= r < 65536
  {
    lo + 256 * hi
  }

  /** Two's-complement reading of a 16-bit value. */
  function Signed16(u: int): (r: int)
    requires 0 <= u < 65536
    ensures -32768 <= r < 32768
  {
    if u < 32768 then u else u - 65536
  }

  /** The value one code reads from exactly `Width(c)` bytes. */
  function FieldValue(c: Code, d: seq<byte>): int
    requires |d| == Width(c)
  {
    match c
    case UInt8 => d[0]
    case Int8 => Signed8(d[0])
    case UInt16 => LE16(d[0], d[1])
    case Int16 => Signed16(LE16(d[0], d[1]))
  }

  /** Byte position of field `i`: the widths of the fields before it. */
  function Offset(fmt: seq<Code>, i: nat): nat
    requires i <= |fmt|
  {
    if i == 0 then 0 else Offset(fmt, i - 1) + Width(fmt[i - 1])
  }

  /** `struct.calcsize` of a format. */
  function Size(fmt: seq<Code>): nat
  {
    Offset(fmt, |fmt|)
  }

  /** Every field lies inside the buffer the format describes. */
  lemma {:induction false} OffsetBound(fmt: seq<Code>, i: nat, j: nat)
    requires i < j <= |fmt|
    ensures Offset(fmt, i) + Width(fmt[i]) <= Offset(fmt, j)
    decreases j
  {
    if j > i + 1 {
      OffsetBound(fmt, i, j - 1);
    }
  }

  /** The value of field `i` in a buffer of the right length. */
  function Field(fmt: seq<Code>, data: seq<byte>, i: nat): int
    requires |data| == Size(fmt) && i < |fmt|
  {
    OffsetBound(fmt, i, |fmt|);
    FieldValue(fmt[i], data[Offset(fmt, i)..Offset(fmt, i) + Width(fmt[i])])
  }

  datatype Option<T> = None | Some(value: T)

  /** `struct.unpack(fmt, data)`: `None` stands for the `struct.error` raised
      when `len(data)` differs from `calcsize(fmt)`; otherwise one value per
      code, each read from the bytes at its offset. */
  function Unpack(fmt: seq<Code>, data: seq<byte>): (r: Option<seq<int>>)
    ensures r.Some? <==> |data| == Size(fmt)
    ensures r.Some? ==> |r.value| == |fmt|
  {
    if |data| != Size(fmt) then None
    else Some(seq(|fmt|, i requires 0 <= i < |fmt| => Field(fmt, data, i)))
  }

  /** Field `i` of a successful unpack, with its offset and width supplied
      by the caller. */
  lemma UnpackFieldAt(fmt: seq<Code>, data: seq<byte>, i: nat, o: nat, w: nat)
    requires |data| == Size(fmt) && i < |fmt|
    requires Offset(fmt, i) == o && Width(fmt[i]) == w
    ensures o + w <= |data|
    ensures Unpack(fmt, data).value[i] == FieldValue(fmt[i], data[o..o + w])
  {
    OffsetBound(fmt, i, |fmt|);
  }

  /** The values code `c` can hold: what `struct.pack` accepts for it. */
  predicate Fits(c: Code, v: int)
  {
    match c
    case UInt8 => 0 <= v < 256
    case Int8 => -128 <= v < 128
    case UInt16 => 0 <= v < 65536
    case Int16 => -32768 <= v < 32768
  }

  predicate AllFit(fmt: seq<Code>, vals: seq<int>)
  {
    |vals| == |fmt| && forall i :: 0 <= i < |fmt| ==> Fits(fmt[i], vals[i])
  }

  /** `struct.pack` of one value: little-endian, two's complement. */
  function PackField(c: Code, v: int): (d: seq<byte>)
    requires Fits(c, v)
    ensures |d| == Width(c)
  {
    match c
    case UInt8 => [v]
    case Int8 => [v % 256]
    case UInt16 => [v % 256, v / 256]
    case Int16 => [v % 65536 % 256, v % 65536 / 256]
  }

  /** Reading a packed value gives it back. */
  lemma FieldValuePack(c: Code, v: int)
    requires Fits(c, v)
    ensures FieldValue(c, PackField(c, v)) == v
  {
    match c
    case UInt8 =>
    case Int8 =>
      DivModUnique(v, 256, if v < 0 then -1 else 0, if v < 0 then v + 256 else v);
    case UInt16 =>
      DivModUnique(v, 256, v / 256, v % 256);
    case Int16 =>
      var u := if v < 0 then v + 65536 else v;
      DivModUnique(v, 65536, if v < 0 then -1 else 0, u);
      DivModUnique(u, 256, u / 256, u % 256);
  }

  /** Every read value fits its code, and packing it gives back the bytes. */
  lemma PackFieldValue(c: Code, d: seq<byte>)
    requires |d| == Width(c)
    ensures Fits(c, FieldValue(c, d)) && PackField(c, FieldValue(c, d)) == d
  {
    match c
    case UInt8 =>
    case Int8 =>
    case UInt16 =>
      DivModUnique(LE16(d[0], d[1]), 256, d[1], d[0]);
    case Int16 =>
      var u := LE16(d[0], d[1]);
      DivModUnique(u, 256, d[1], d[0]);
      DivModUnique(Signed16(u), 65536, if u < 32768 then 0 else -1, u);
  }

  /** The offsets of a format's first `k` fields do not depend on the rest. */
  lemma {:induction false} OffsetPrefix(fmt: seq<Code>, k: nat, i: nat)
    requires i <= k <= |fmt|
    ensures Offset(fmt[..k], i) == Offset(fmt, i)
  {
    if i > 0 {
      OffsetPrefix(fmt, k, i - 1);
    }
  }

  /** `struct.pack(fmt, *vals)`: the fields' bytes, one after another. */
  function Pack(fmt: seq<Code>, vals: seq<int>): (d: seq<byte>)
    requires AllFit(fmt, vals)
    ensures |d| == Size(fmt)
    decreases |fmt|
  {
    if |fmt| == 0 then []
    else
      var n := |fmt| - 1;
      assert AllFit(fmt[..n], vals[..n]);
      OffsetPrefix(fmt, n, n);
      Pack(fmt[..n], vals[..n]) + PackField(fmt[n], vals[n])
  }

  /** A packed buffer is the packing of all but the last value, followed by
      the last value's bytes. */
  lemma PackLast(fmt: seq<Code>, vals: seq<int>)
    requires AllFit(fmt, vals) && |fmt| > 0
    ensures var n := |fmt| - 1;
      && AllFit(fmt[..n], vals[..n])
      && |Pack(fmt[..n], vals[..n])| == Offset(fmt, n)
      && Pack(fmt, vals) == Pack(fmt[..n], vals[..n]) + PackField(fmt[n], vals[n])
  {
    var n := |fmt| - 1;
    assert AllFit(fmt[..n], vals[..n]);
    OffsetPrefix(fmt, n, n);
  }

  /** A slice inside the first part of a concatenation. */
  lemma SliceLeft<T>(x: seq<T>, y: seq<T>, a: nat, b: nat)
    requires a <= b <= |x|
    ensures (x + y)[a..b] == x[a..b]
  {
  }

  /** An element read through a slice. */
  lemma SliceIndex<T>(x: seq<T>, a: nat, b: nat, j: nat)
    requires a <= j < b <= |x|
    ensures x[a..b][j - a] == x[j]
  {
  }

  /** The last field of a packed buffer holds the packing of the last value. */
  lemma PackSliceLast(fmt: seq<Code>, vals: seq<int>)
    requires AllFit(fmt, vals) && |fmt| > 0
    ensures var n := |fmt| - 1;
      && Offset(fmt, n) + Width(fmt[n]) == |Pack(fmt, vals)|
      && Pack(fmt, vals)[Offset(fmt, n)..] == PackField(fmt[n], vals[n])
  {
    PackLast(fmt, vals);
  }

  /** Field `i` of a packed buffer holds exactly the packing of `vals[i]`. */
  lemma {:induction false} PackSlice(fmt: seq<Code>, vals: seq<int>, i: nat)
    requires AllFit(fmt, vals) && i < |fmt|
    ensures Offset(fmt, i) + Width(fmt[i]) <= |Pack(fmt, vals)|
    ensures Pack(fmt, vals)[Offset(fmt, i)..Offset(fmt, i) + Width(fmt[i])] == PackField(fmt[i], vals[i])
    decreases |fmt|
  {
    var n := |fmt| - 1;
    if i == n {
      PackSliceLast(fmt, vals);
    } else {
      var p, pv := fmt[..n], vals[..n];
      PackLast(fmt, vals);
      PackSlice(p, pv, i);
      OffsetPrefix(fmt, n, i);
      OffsetBound(fmt, i, n);
      assert p[i] == fmt[i] && pv[i] == vals[i];
      SliceLeft(Pack(p, pv), PackField(fmt[n], vals[n]), Offset(fmt, i), Offset(fmt, i) + Width(fmt[i]));
    }
  }

  /** Unpacking undoes packing. */
  lemma UnpackPack(fmt: seq<Code>, vals: seq<int>)
    requires AllFit(fmt, vals)
    ensures Unpack(fmt, Pack(fmt, vals)) == Some(vals)
  {
    var d := Pack(fmt, vals);
    var r := Unpack(fmt, d).value;
    forall i | 0 <= i < |fmt|
      ensures r[i] == vals[i]
    {
      PackSlice(fmt, vals, i);
      FieldValuePack(fmt[i], vals[i]);
    }
    assert r == vals;
  }

  /** The field that byte `j` of a buffer belongs to: every byte below
      `Offset(fmt, k)` lies in one of the first `k` fields. */
  function FieldOf(fmt: seq<Code>, k: nat, j: nat): (i: nat)
    requires k <= |fmt| && j < Offset(fmt, k)
    ensures i < k && Offset(fmt, i) <= j < Offset(fmt, i) + Width(fmt[i])
    decreases k
  {
    if j >= Offset(fmt, k - 1) then k - 1 else FieldOf(fmt, k - 1, j)
  }

  /** Every unpacked value fits its code. */
  lemma UnpackFits(fmt: seq<Code>, data: seq<byte>)
    requires |data| == Size(fmt)
    ensures AllFit(fmt, Unpack(fmt, data).value)
  {
    var r := Unpack(fmt, data).value;
    forall i | 0 <= i < |fmt|
      ensures Fits(fmt[i], r[i])
    {
      var a, w := Offset(fmt, i), Width(fmt[i]);
      UnpackFieldAt(fmt, data, i, a, w);
      PackFieldValue(fmt[i], data[a..a + w]);
    }
  }

  /** Field `i` of `data` is the packing of `v`. */
  predicate FieldHolds(fmt: seq<Code>, data: seq<byte>, i: nat, v: int)
    requires i < |fmt|
  {
    && Fits(fmt[i], v)
    && Offset(fmt, i) + Width(fmt[i]) <= |data|
    && data[Offset(fmt, i)..Offset(fmt, i) + Width(fmt[i])] == PackField(fmt[i], v)
  }

  /** A buffer of the format's size whose every field holds the packing of
      its value is the packed buffer. */
  lemma PackDetermined(fmt: seq<Code>, vals: seq<int>, data: seq<byte>)
    requires AllFit(fmt, vals) && |data| == Size(fmt)
    requires forall i :: 0 <= i < |fmt| ==> FieldHolds(fmt, data, i, vals[i])
    ensures Pack(fmt, vals) == data
  {
    var d := Pack(fmt, vals);
    forall j | 0 <= j < |data|
      ensures d[j] == data[j]
    {
      var i := FieldOf(fmt, |fmt|, j);
      var a, w := Offset(fmt, i), Width(fmt[i]);
      assert FieldHolds(fmt, data, i, vals[i]);
      PackSlice(fmt, vals, i);
      SliceIndex(d, a, a + w, j);
      SliceIndex(data, a, a + w, j);
    }
  }

  /** Packing undoes unpacking: a buffer of the format's size is determined
      by the values read from it. */
  lemma PackUnpack(fmt: seq<Code>, data: seq<byte>)
    requires |data| == Size(fmt)
    ensures AllFit(fmt, Unpack(fmt, data).value)
    ensures Pack(fmt, Unpack(fmt, data).value) == data
  {
    UnpackFits(fmt, data);
    var r := Unpack(fmt, data).value;
    forall i | 0 <= i < |fmt|
      ensures FieldHolds(fmt, data, i, r[i])
    {
      var a, w := Offset(fmt, i), Width(fmt[i]);
      UnpackFieldAt(fmt, data, i, a, w);
      PackFieldValue(fmt[i], data[a..a + w]);
    }
    PackDetermined(fmt, r, data);
  }
}
