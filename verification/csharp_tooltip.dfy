/**
 * The computational parts of the C# quick-info source: the byte decomposition behind the
 * DEC / HEX / BIN forms shown for an integral constant, the hexadecimal and binary renderings
 * of those bytes, the filter for common base class names and the display name of an
 * attribute class.
 */
module CSharpTooltip {
  import opened Wrappers

  // The C# integral types, each as the range of values it holds.
  type Byte = x: int | 0 <= x < 0x100
  type SByte = x: int | -0x80 <= x < 0x80
  type Int16 = x: int | -0x8000 <= x < 0x8000
  type UInt16 = x: int | 0 <= x < 0x1_0000
  type Int32 = x: int | -0x8000_0000 <= x < 0x8000_0000
  type UInt32 = x: int | 0 <= x < 0x1_0000_0000
  type Int64 = x: int | -0x8000_0000_0000_0000 <= x < 0x8000_0000_0000_0000
  type UInt64 = x: int | 0 <= x < 0x1_0000_0000_0000_0000

  /** A boxed constant, as a literal token's value or a constant field's value hands it over. */
  datatype BoxedValue =
    | IntValue(i: Int32)
    | LongValue(l: Int64)
    | ByteValue(b: Byte)
    | ShortValue(s: Int16)
    | UIntValue(ui: UInt32)
    | ULongValue(ul: UInt64)
    | UShortValue(us: UInt16)
    | SByteValue(sb: SByte)
    | OtherValue  // char, bool, floating point, decimal, string, ...

  /** How a value is shown; `Plain` is the C# `NumericForm.None`. */
  datatype NumericForm = Plain | Negative | Unsigned

  /** What the numeric panel is built from: the number its DEC line shows, and the bytes. */
  datatype NumericForms = NumericForms(dec: int, bytes: seq<Byte>)

  // ---------------------------------------------------------------------------------------
  // Two's-complement helpers

  /** The unchecked conversion of a mathematical integer to a 32-bit signed value. */
  function Wrap32(x: int): (r: Int32)
    ensures (r - x) % 0x1_0000_0000 == 0
    ensures -0x8000_0000 <= x < 0x8000_0000 ==> r == x
  {
    var m := x % 0x1_0000_0000;
    if m < 0x8000_0000 then m else m - 0x1_0000_0000
  }

  /** The unchecked conversion of a mathematical integer to a 64-bit signed value. */
  function Wrap64(x: int): (r: Int64)
    ensures (r - x) % 0x1_0000_0000_0000_0000 == 0
    ensures -0x8000_0000_0000_0000 <= x < 0x8000_0000_0000_0000 ==> r == x
  {
    var m := x % 0x1_0000_0000_0000_0000;
    if m < 0x8000_0000_0000_0000 then m else m - 0x1_0000_0000_0000_0000
  }

  /** The unchecked conversion of a mathematical integer to a 16-bit signed value. */
  function Wrap16(x: int): (r: Int16)
    ensures (r - x) % 0x1_0000 == 0
    ensures -0x8000 <= x < 0x8000 ==> r == x
  {
    var m := x % 0x1_0000;
    if m < 0x8000 then m else m - 0x1_0000
  }

  /** `(byte)(v >> k)` with `unit` = 2^k: an arithmetic shift (a floor division) keeping the low eight bits. */
  function ShiftedByte(v: int, unit: int): Byte
    requires unit > 0
  {
    (v / unit) % 0x100
  }

  function Int16Bytes(v: int): seq<Byte> {
    [ShiftedByte(v, 0x100), ShiftedByte(v, 1)]
  }

  function Int32Bytes(v: int): seq<Byte> {
    [ShiftedByte(v, 0x100_0000), ShiftedByte(v, 0x1_0000), ShiftedByte(v, 0x100), ShiftedByte(v, 1)]
  }

  function Int64Bytes(v: int): seq<Byte> {
    [ShiftedByte(v, 0x100_0000_0000_0000), ShiftedByte(v, 0x1_0000_0000_0000),
     ShiftedByte(v, 0x100_0000_0000), ShiftedByte(v, 0x1_0000_0000),
     ShiftedByte(v, 0x100_0000), ShiftedByte(v, 0x1_0000), ShiftedByte(v, 0x100), ShiftedByte(v, 1)]
  }

  /** The unsigned number a byte sequence encodes, most significant byte first. */
  function BigEndian(s: seq<Byte>): nat {
    if s == [] then 0 else BigEndian(s[..|s| - 1]) * 0x100 + s[|s| - 1] as int
  }

  /** The mathematical value a boxed integral constant stands for. */
  function NumericValue(value: BoxedValue): int {
    match value
    case IntValue(i) => i
    case LongValue(l) => l
    case ByteValue(b) => b
    case ShortValue(s) => s
    case UIntValue(u) => u
    case ULongValue(u) => u
    case UShortValue(u) => u
    case SByteValue(s) => s
    case OtherValue => 0
  }

  /** The size in bytes of the boxed value's type (0 for a non-integral value). */
  function ByteWidth(value: BoxedValue): nat {
    match value
    case IntValue(_) => 4
    case UIntValue(_) => 4
    case LongValue(_) => 8
    case ULongValue(_) => 8
    case ShortValue(_) => 2
    case UShortValue(_) => 2
    case ByteValue(_) => 1
    case SByteValue(_) => 1
    case OtherValue => 0
  }

  /** 256 to the power n: the modulus of an n-byte value. */
  function ByteModulus(n: nat): (m: nat)
    ensures m > 0
  {
    if n == 0 then 1 else 0x100 * ByteModulus(n - 1)
  }

  // ---------------------------------------------------------------------------------------
  // ShowNumericForms: the byte decomposition

  function UnsignedRank(value: BoxedValue): nat {
    if value.UIntValue? || value.ULongValue? || value.UShortValue? then 1 else 0
  }

  /**
   * The decimal value and big-endian bytes shown for `value` in `form`. Signed values are
   * negated (with wrap-around) in the Negative form; unsigned values are reinterpreted as the
   * signed value of the same width and shown in the Unsigned form; bytes ignore the form.
   */
  function ShowNumericForms(value: BoxedValue, form: NumericForm): (r: Option<NumericForms>)
    decreases UnsignedRank(value)
    ensures r.None? <==> value.OtherValue?
    ensures r.Some? ==> |r.value.bytes| == ByteWidth(value)
  {
    match value
    case IntValue(i) =>
      var v := if form == Negative then Wrap32(-(i as int)) else i;
      Some(NumericForms(if form == Unsigned then v % 0x1_0000_0000 else v, Int32Bytes(v)))
    case LongValue(l) =>
      var v := if form == Negative then Wrap64(-(l as int)) else l;
      Some(NumericForms(if form == Unsigned then v % 0x1_0000_0000_0000_0000 else v, Int64Bytes(v)))
    case ByteValue(b) =>
      Some(NumericForms(b, [b]))
    case ShortValue(s) =>
      var v := if form == Negative then Wrap16(-(s as int)) else s;
      Some(NumericForms(if form == Unsigned then v % 0x1_0000 else v, Int16Bytes(v)))
    case UIntValue(u) =>
      ShowNumericForms(IntValue(Wrap32(u)), Unsigned)
    case ULongValue(u) =>
      ShowNumericForms(LongValue(Wrap64(u)), Unsigned)
    case UShortValue(u) =>
      ShowNumericForms(ShortValue(Wrap16(u)), Unsigned)
    case SByteValue(s) =>
      Some(NumericForms(s, [s % 0x100]))
    case OtherValue =>
      None
  }

  /** The n low bytes of v, most significant first: the shape Int16Bytes, Int32Bytes and Int64Bytes unroll. */
  function BytesBE(v: int, n: nat): (r: seq<Byte>)
    decreases n
    ensures |r| == n
  {
    if n == 0 then [] else BytesBE(v / 0x100, n - 1) + [v % 0x100]
  }

  lemma MulNonnegative(a: int, b: int)
    requires a >= 0 && b >= 0
    ensures a * b >= 0
  {
  }

  /** Euclidean division is determined by a quotient and a remainder in range. */
  lemma DivModUnique(x: int, d: int, q: int, r: int)
    requires d > 0 && 0 <= r < d && x == d * q + r
    ensures x / d == q && x % d == r
  {
    var q', r' := x / d, x % d;
    assert d * (q - q') == r' - r by { assert d * q - d * q' == d * (q - q'); }
    if q > q' {
      MulNonnegative(d, q - q' - 1);
      assert false;
    } else if q < q' {
      MulNonnegative(d, q' - q - 1);
      assert false;
    }
  }

  lemma DivDiv(x: int, a: int, b: int)
    requires a > 0 && b > 0
    ensures x / a / b == x / (a * b)
  {
    var q := x / a;
    var low := a * (q % b) + x % a;
    assert a * (q % b) <= a * (b - 1);
    assert x == a * b * (q / b) + low;
    DivModUnique(x, a * b, q / b, low);
  }

  lemma ModStep(x: int, m: int)
    requires m > 0
    ensures ((x / 0x100) % m) * 0x100 + x % 0x100 == x % (0x100 * m)
  {
    var q := x / 0x100;
    assert x == 0x100 * m * (q / m) + ((q % m) * 0x100 + x % 0x100);
    DivModUnique(x, 0x100 * m, q / m, (q % m) * 0x100 + x % 0x100);
  }

  lemma {:induction false} BytesBEValue(v: int, n: nat)
    decreases n
    ensures BigEndian(BytesBE(v, n)) == v % ByteModulus(n)
  {
    if n > 0 {
      var s := BytesBE(v, n);
      assert s[..n - 1] == BytesBE(v / 0x100, n - 1);
      BytesBEValue(v / 0x100, n - 1);
      ModStep(v, ByteModulus(n - 1));
    }
  }

  lemma {:induction false} BytesBEAt(v: int, n: nat, k: nat)
    requires k < n
    decreases n
    ensures BytesBE(v, n)[k] == ShiftedByte(v, ByteModulus(n - 1 - k))
  {
    if k < n - 1 {
      BytesBEAt(v / 0x100, n - 1, k);
      DivDiv(v, 0x100, ByteModulus(n - 2 - k));
    }
  }

  lemma Int16BytesValue(v: int)
    ensures BigEndian(Int16Bytes(v)) == v % 0x1_0000
  {
    assert ByteModulus(1) == 0x100;
    BytesBEAt(v, 2, 0);
    BytesBEAt(v, 2, 1);
    assert Int16Bytes(v) == BytesBE(v, 2);
    BytesBEValue(v, 2);
  }

  lemma Int32BytesValue(v: int)
    ensures BigEndian(Int32Bytes(v)) == v % 0x1_0000_0000
  {
    assert ByteModulus(3) == 0x100_0000 && ByteModulus(2) == 0x1_0000 && ByteModulus(1) == 0x100;
    forall k | 0 <= k < 4 ensures BytesBE(v, 4)[k] == Int32Bytes(v)[k] {
      BytesBEAt(v, 4, k);
    }
    assert Int32Bytes(v) == BytesBE(v, 4);
    BytesBEValue(v, 4);
  }

  lemma Int64BytesValue(v: int)
    ensures BigEndian(Int64Bytes(v)) == v % 0x1_0000_0000_0000_0000
  {
    assert ByteModulus(7) == 0x100_0000_0000_0000 && ByteModulus(6) == 0x1_0000_0000_0000
      && ByteModulus(5) == 0x100_0000_0000 && ByteModulus(4) == 0x1_0000_0000
      && ByteModulus(3) == 0x100_0000 && ByteModulus(2) == 0x1_0000 && ByteModulus(1) == 0x100;
    forall k | 0 <= k < 8 ensures BytesBE(v, 8)[k] == Int64Bytes(v)[k] {
      BytesBEAt(v, 8, k);
    }
    assert Int64Bytes(v) == BytesBE(v, 8);
    BytesBEValue(v, 8);
  }

  /** An unsigned value survives the round trip through the signed value of its width. */
  lemma Wrap32Unsigned(u: UInt32)
    ensures Wrap32(u) % 0x1_0000_0000 == u
    ensures BigEndian(Int32Bytes(Wrap32(u))) == u
  {
    Int32BytesValue(Wrap32(u));
    if u >= 0x8000_0000 {
      DivModUnique(u - 0x1_0000_0000, 0x1_0000_0000, -1, u);
    }
  }

  lemma Wrap64Unsigned(u: UInt64)
    ensures Wrap64(u) % 0x1_0000_0000_0000_0000 == u
    ensures BigEndian(Int64Bytes(Wrap64(u))) == u
  {
    Int64BytesValue(Wrap64(u));
    if u >= 0x8000_0000_0000_0000 {
      DivModUnique(u - 0x1_0000_0000_0000_0000, 0x1_0000_0000_0000_0000, -1, u);
    }
  }

  lemma Wrap16Unsigned(u: UInt16)
    ensures Wrap16(u) % 0x1_0000 == u
    ensures BigEndian(Int16Bytes(Wrap16(u))) == u
  {
    Int16BytesValue(Wrap16(u));
    if u >= 0x8000 {
      DivModUnique(u - 0x1_0000, 0x1_0000, -1, u);
    }
  }

  /** The forms of an unsigned value are those of its signed counterpart in the Unsigned form. */
  lemma UnsignedForms(value: BoxedValue, form: NumericForm)
    requires value.UIntValue? || value.ULongValue? || value.UShortValue?
    ensures ShowNumericForms(value, form) == ShowNumericForms(SignedCounterpart(value), Unsigned)
  {
  }

  /**
   * In the plain form every integral value shows its own value as DEC, and its bytes are the
   * two's-complement encoding of that value, most significant first.
   */
  lemma PlainFormShowsValue(value: BoxedValue)
    requires !value.OtherValue?
    ensures var r := ShowNumericForms(value, Plain);
      && r.Some?
      && r.value.dec == NumericValue(value)
      && BigEndian(r.value.bytes) == NumericValue(value) % ByteModulus(ByteWidth(value))
  {
    if value.UIntValue? || value.ULongValue? || value.UShortValue? {
      UnsignedReinterpreted(value, Plain);
      UnsignedBytes(value);
    } else if value.IntValue? {
      Int32BytesValue(value.i);
      assert ByteModulus(4) == 0x1_0000_0000;
    } else if value.LongValue? {
      Int64BytesValue(value.l);
      assert ByteModulus(8) == 0x1_0000_0000_0000_0000;
    } else if value.ShortValue? {
      Int16BytesValue(value.s);
      assert ByteModulus(2) == 0x1_0000;
    } else {
      assert ByteModulus(1) == 0x100;
    }
  }

  lemma UnsignedBytes(value: BoxedValue)
    requires value.UIntValue? || value.ULongValue? || value.UShortValue?
    ensures BigEndian(ShowNumericForms(value, Plain).value.bytes) == NumericValue(value) % ByteModulus(ByteWidth(value))
  {
    if value.UIntValue? {
      UIntBytes(value);
    } else if value.ULongValue? {
      ULongBytes(value);
    } else if value.UShortValue? {
      UShortBytes(value);
    }
  }

  lemma UIntBytes(value: BoxedValue)
    requires value.UIntValue?
    ensures BigEndian(ShowNumericForms(value, Plain).value.bytes) == NumericValue(value) % ByteModulus(ByteWidth(value))
  {
    var u := value.ui;
    assert ShowNumericForms(value, Plain).value.bytes == Int32Bytes(Wrap32(u));
    Wrap32Unsigned(u);
    assert ByteModulus(4) == 0x1_0000_0000;
    DivModUnique(u, 0x1_0000_0000, 0, u);
  }

  lemma ULongBytes(value: BoxedValue)
    requires value.ULongValue?
    ensures BigEndian(ShowNumericForms(value, Plain).value.bytes) == NumericValue(value) % ByteModulus(ByteWidth(value))
  {
    var u := value.ul;
    assert ShowNumericForms(value, Plain).value.bytes == Int64Bytes(Wrap64(u));
    Wrap64Unsigned(u);
    assert ByteModulus(8) == 0x1_0000_0000_0000_0000;
    DivModUnique(u, 0x1_0000_0000_0000_0000, 0, u);
  }

  lemma UShortBytes(value: BoxedValue)
    requires value.UShortValue?
    ensures BigEndian(ShowNumericForms(value, Plain).value.bytes) == NumericValue(value) % ByteModulus(ByteWidth(value))
  {
    var u := value.us;
    assert ShowNumericForms(value, Plain).value.bytes == Int16Bytes(Wrap16(u));
    Wrap16Unsigned(u);
    assert ByteModulus(2) == 0x1_0000;
    DivModUnique(u, 0x1_0000, 0, u);
  }

  /**
   * Under a unary minus, int, long and short values are negated in their own width before
   * they are decomposed: the minimum value stays itself.
   */
  lemma NegativeFormNegates(value: BoxedValue)
    requires value.IntValue? || value.LongValue? || value.ShortValue?
    ensures NegatedForm(value)
  {
    if value.IntValue? {
      NegateIntForm(value);
    } else if value.LongValue? {
      NegateLongForm(value);
    } else if value.ShortValue? {
      NegateShortForm(value);
    }
  }

  /**
   * The negative form's bytes encode the negated value in the value's width; its DEC is the
   * negation except for the minimum, whose DEC is the minimum itself.
   */
  predicate NegatedForm(value: BoxedValue) {
    var r := ShowNumericForms(value, Negative);
    && r.Some?
    && BigEndian(r.value.bytes) == (-NumericValue(value)) % ByteModulus(ByteWidth(value))
    && (r.value.dec == -NumericValue(value) <==> NumericValue(value) != -(ByteModulus(ByteWidth(value)) as int) / 2)
    && (NumericValue(value) == -(ByteModulus(ByteWidth(value)) as int) / 2 ==> r.value.dec == NumericValue(value))
  }

  lemma NegateIntForm(value: BoxedValue)
    requires value.IntValue?
    ensures NegatedForm(value)
  {
    NegateInt32(value.i);
    assert ByteModulus(4) == 0x1_0000_0000;
  }

  lemma NegateLongForm(value: BoxedValue)
    requires value.LongValue?
    ensures NegatedForm(value)
  {
    NegateInt64(value.l);
    assert ByteModulus(8) == 0x1_0000_0000_0000_0000;
  }

  lemma NegateShortForm(value: BoxedValue)
    requires value.ShortValue?
    ensures NegatedForm(value)
  {
    NegateInt16(value.s);
    assert ByteModulus(2) == 0x1_0000;
  }

  lemma NegateInt32(i: Int32)
    ensures BigEndian(Int32Bytes(Wrap32(-(i as int)))) == -(i as int) % 0x1_0000_0000
    ensures Wrap32(-(i as int)) == -(i as int) <==> i != -0x8000_0000
    ensures i == -0x8000_0000 ==> Wrap32(-(i as int)) == i as int
  {
    Int32BytesValue(Wrap32(-(i as int)));
    if i == -0x8000_0000 {
      assert Wrap32(-(i as int)) == i;
    }
  }

  lemma NegateInt64(l: Int64)
    ensures BigEndian(Int64Bytes(Wrap64(-(l as int)))) == -(l as int) % 0x1_0000_0000_0000_0000
    ensures Wrap64(-(l as int)) == -(l as int) <==> l != -0x8000_0000_0000_0000
    ensures l == -0x8000_0000_0000_0000 ==> Wrap64(-(l as int)) == l as int
  {
    Int64BytesValue(Wrap64(-(l as int)));
    if l == -0x8000_0000_0000_0000 {
      assert Wrap64(-(l as int)) == l;
    }
  }

  lemma NegateInt16(s: Int16)
    ensures BigEndian(Int16Bytes(Wrap16(-(s as int)))) == -(s as int) % 0x1_0000
    ensures Wrap16(-(s as int)) == -(s as int) <==> s != -0x8000
    ensures s == -0x8000 ==> Wrap16(-(s as int)) == s as int
  {
    Int16BytesValue(Wrap16(-(s as int)));
    if s == -0x8000 {
      assert Wrap16(-(s as int)) == s;
    }
  }

  /** byte and sbyte values ignore the form: one byte, holding the value itself. */
  lemma SingleByteIgnoresForm(value: BoxedValue, form: NumericForm)
    requires value.ByteValue? || value.SByteValue?
    ensures ShowNumericForms(value, form) == ShowNumericForms(value, Plain)
    ensures ShowNumericForms(value, form).value.bytes == [NumericValue(value) % 0x100]
  {
  }

  /** The signed value of the same width and bits as an unsigned value: `(int)(uint)value` and its kin. */
  function SignedCounterpart(value: BoxedValue): BoxedValue {
    match value
    case UIntValue(u) => IntValue(Wrap32(u))
    case ULongValue(u) => LongValue(Wrap64(u))
    case UShortValue(u) => ShortValue(Wrap16(u))
    case _ => value
  }

  /**
   * uint, ulong and ushort are shown through the same-width signed value: the bytes are those
   * of that signed value and the DEC line is the unsigned value, whatever the form.
   */
  lemma UnsignedReinterpreted(value: BoxedValue, form: NumericForm)
    requires value.UIntValue? || value.ULongValue? || value.UShortValue?
    ensures ShowNumericForms(value, form).value.bytes == ShowNumericForms(SignedCounterpart(value), Plain).value.bytes
    ensures ShowNumericForms(value, form).value.dec == NumericValue(value)
  {
    UnsignedForms(value, form);
    match value
    case UIntValue(u) => Wrap32Unsigned(u);
    case ULongValue(u) => Wrap64Unsigned(u);
    case UShortValue(u) => Wrap16Unsigned(u);
  }

  // ---------------------------------------------------------------------------------------
  // ToHexString

  const HexDigits: string := "0123456789ABCDEF"

  /** The value of an uppercase hexadecimal digit; the inverse of indexing HexDigits. */
  function HexDigitValue(c: char): int {
    if '0' <= c <= '9' then c as int - '0' as int
    else if 'A' <= c <= 'F' then c as int - 'A' as int + 10
    else -1
  }

  /** `b.ToString("X2")`: exactly two uppercase hexadecimal digits. */
  function Hex2(b: Byte): (r: string)
    ensures |r| == 2
  {
    [HexDigits[b / 16], HexDigits[b % 16]]
  }

  lemma {:induction false} HexDigitRoundTrip(d: int)
    requires 0 <= d < 16
    ensures HexDigitValue(HexDigits[d]) == d
  {
    if d < 10 {
      assert HexDigits[d] == ['0', '1', '2', '3', '4', '5', '6', '7', '8', '9'][d];
    } else {
      assert HexDigits[d] == ['A', 'B', 'C', 'D', 'E', 'F'][d - 10];
    }
  }

  /** Two hexadecimal digits read back give the byte they were made from. */
  lemma Hex2RoundTrip(b: Byte)
    ensures HexDigitValue(Hex2(b)[0]) * 16 + HexDigitValue(Hex2(b)[1]) == b
  {
    HexDigitRoundTrip(b / 16);
    HexDigitRoundTrip(b % 16);
  }

  /**
   * Hexadecimal text of a byte array of 1, 2, 4 or 8 bytes: two digits per byte, with a space
   * after every second byte for 4 and 8 bytes; empty text for any other length.
   */
  function ToHexString(bytes: seq<Byte>): (r: string)
    ensures |bytes| !in {1, 2, 4, 8} ==> r == ""
    ensures |bytes| in {1, 2} ==> |r| == 2 * |bytes|
    ensures |bytes| in {4, 8} ==> |r| == 5 * (|bytes| / 2) - 1
  {
    match |bytes|
    case 1 => Hex2(bytes[0])
    case 2 => Hex2(bytes[0]) + Hex2(bytes[1])
    case 4 => Hex2(bytes[0]) + Hex2(bytes[1]) + " " + Hex2(bytes[2]) + Hex2(bytes[3])
    case 8 =>
      Hex2(bytes[0]) + Hex2(bytes[1]) + " " + Hex2(bytes[2]) + Hex2(bytes[3]) + " "
      + Hex2(bytes[4]) + Hex2(bytes[5]) + " " + Hex2(bytes[6]) + Hex2(bytes[7])
    case _ => ""
  }

  /** Where the digits of byte k start in the hexadecimal text of n bytes. */
  function HexPosition(n: nat, k: nat): nat {
    if n >= 4 then 2 * k + k / 2 else 2 * k
  }

  /**
   * Byte k of the input is the pair of digits at HexPosition, so the text reads back to the
   * bytes; for 4 and 8 bytes a space follows every second byte but the last.
   */
  lemma HexLayout(bytes: seq<Byte>, k: nat)
    requires |bytes| in {1, 2, 4, 8} && k < |bytes|
    ensures var r := ToHexString(bytes); var p := HexPosition(|bytes|, k);
      && p + 1 < |r|
      && HexDigitValue(r[p]) * 16 + HexDigitValue(r[p + 1]) == bytes[k]
      && (|bytes| >= 4 && k % 2 == 1 && k + 1 < |bytes| ==> r[p + 2] == ' ')
  {
    HexPairAt(bytes, k);
    Hex2RoundTrip(bytes[k]);
  }

  /** The two digits of byte k sit at HexPosition. */
  lemma HexPairAt(bytes: seq<Byte>, k: nat)
    requires |bytes| in {1, 2, 4, 8} && k < |bytes|
    ensures var r := ToHexString(bytes); var p := HexPosition(|bytes|, k);
      && p + 1 < |r| && r[p] == Hex2(bytes[k])[0] && r[p + 1] == Hex2(bytes[k])[1]
      && (|bytes| >= 4 && k % 2 == 1 && k + 1 < |bytes| ==> r[p + 2] == ' ')
  {
    var r, h := ToHexString(bytes), Hex2(bytes[k]);
    if |bytes| >= 4 {
      var hs := seq(|bytes|, i requires 0 <= i < |bytes| => Hex2(bytes[i]));
      PairLayout(hs, r, k);
      assert hs[k] == h;
    } else if |bytes| == 2 {
      assert r == Hex2(bytes[0]) + Hex2(bytes[1]);
      assert r[2 * k] == h[0] && r[2 * k + 1] == h[1];
    } else {
      assert r == h;
    }
  }

  /** Pieces of two characters joined with a space after every second one but the last. */
  lemma PairLayout(h: seq<string>, r: string, k: nat)
    requires |h| in {4, 8} && k < |h| && forall i :: 0 <= i < |h| ==> |h[i]| == 2
    requires |h| == 4 ==> r == h[0] + h[1] + " " + h[2] + h[3]
    requires |h| == 8 ==> r == h[0] + h[1] + " " + h[2] + h[3] + " " + h[4] + h[5] + " " + h[6] + h[7]
    ensures var p := HexPosition(|h|, k);
      && p + 1 < |r| && r[p] == h[k][0] && r[p + 1] == h[k][1]
      && (k % 2 == 1 && k + 1 < |h| ==> r[p + 2] == ' ')
  {
    var p := HexPosition(|h|, k);
    if k == 0 { assert p == 0; }
    else if k == 1 { assert p == 2; }
    else if k == 2 { assert p == 5; }
    else if k == 3 { assert p == 7; }
    else if k == 4 { assert p == 10; }
    else if k == 5 { assert p == 12; }
    else if k == 6 { assert p == 15; }
    else { assert p == 17; }
  }

  // ---------------------------------------------------------------------------------------
  // ToBinString

  /** The n low binary digits of v, most significant first. */
  function BinDigits(v: nat, n: nat): (r: string)
    ensures |r| == n
  {
    if n == 0 then "" else BinDigits(v / 2, n - 1) + [if v % 2 == 0 then '0' else '1']
  }

  /** `Convert.ToString(b, 2).PadLeft(8, '0')`. */
  function Bin8(b: Byte): (r: string)
    ensures |r| == 8
  {
    BinDigits(b, 8)
  }

  /** The number a string of binary digits denotes, most significant first. */
  function BinValue(s: string): int {
    if s == [] then 0 else BinValue(s[..|s| - 1]) * 2 + (if s[|s| - 1] == '1' then 1 else 0)
  }

  function Pow2(n: nat): nat {
    if n == 0 then 1 else 2 * Pow2(n - 1)
  }

  lemma {:induction false} BinDigitsRoundTrip(v: nat, n: nat)
    requires v < Pow2(n)
    ensures BinValue(BinDigits(v, n)) == v
  {
    if n > 0 {
      var s := BinDigits(v, n);
      assert s[..|s| - 1] == BinDigits(v / 2, n - 1);
      BinDigitsRoundTrip(v / 2, n - 1);
    }
  }

  /** Each group of ToBinString reads back to its byte. */
  lemma Bin8RoundTrip(b: Byte)
    ensures BinValue(Bin8(b)) == b
  {
    assert Pow2(8) == 256;
    BinDigitsRoundTrip(b, 8);
  }

  /** The bytes left after the leading zero bytes are skipped. */
  function SkipLeadingZeros(bytes: seq<Byte>): (r: seq<Byte>)
    ensures |r| <= |bytes|
    ensures r != [] ==> r[0] != 0
  {
    if bytes == [] then [] else if bytes[0] == 0 then SkipLeadingZeros(bytes[1..]) else bytes
  }

  /** What is kept is a suffix of the input, and only zero bytes are skipped. */
  lemma {:induction false} SkippedAreZero(bytes: seq<Byte>)
    ensures var r := SkipLeadingZeros(bytes);
      && r == bytes[|bytes| - |r|..]
      && forall k :: 0 <= k < |bytes| - |r| ==> bytes[k] == 0
  {
    if bytes != [] && bytes[0] == 0 {
      SkippedAreZero(bytes[1..]);
    }
  }

  /** The 8-digit groups of `groups`, separated by single spaces. */
  function JoinBinGroups(groups: seq<Byte>): (r: string)
    ensures groups != [] ==> |r| == 9 * |groups| - 1
    ensures groups == [] ==> r == ""
  {
    if groups == [] then ""
    else if |groups| == 1 then Bin8(groups[0])
    else JoinBinGroups(groups[..|groups| - 1]) + " " + Bin8(groups[|groups| - 1])
  }

  /** What ToBinString promises: the groups of the bytes after leading zeros, or "00000000". */
  function BinString(bytes: seq<Byte>): string {
    var groups := SkipLeadingZeros(bytes);
    if groups == [] then "00000000" else JoinBinGroups(groups)
  }

  lemma {:induction false} SkipLeadingZerosSnoc(s: seq<Byte>, b: Byte)
    ensures SkipLeadingZeros(s + [b]) ==
      if SkipLeadingZeros(s) == [] then (if b == 0 then [] else [b]) else SkipLeadingZeros(s) + [b]
  {
    if s == [] {
      assert s + [b] == [b];
      assert [b][1..] == [];
    } else {
      assert (s + [b])[1..] == s[1..] + [b];
      if s[0] == 0 {
        SkipLeadingZerosSnoc(s[1..], b);
      }
    }
  }

  /** Builds the binary text the way the StringBuilder loop does. */
  method ToBinString(bytes: seq<Byte>) returns (r: string)
    ensures r == BinString(bytes)
  {
    var sb := "";
    var i := 0;
    while i < |bytes|
      invariant 0 <= i <= |bytes|
      invariant sb == JoinBinGroups(SkipLeadingZeros(bytes[..i]))
    {
      BinStep(bytes, i);
      sb := AppendGroup(sb, bytes[i]);
      i := i + 1;
    }
    assert bytes[..|bytes|] == bytes;
    r := if |sb| == 0 then "00000000" else sb;
  }

  /** The loop body: a zero byte is skipped while nothing has been written, otherwise its group is appended. */
  method AppendGroup(sb: string, b: Byte) returns (r: string)
    ensures r == if b == 0 && |sb| == 0 then sb else sb + (if |sb| > 0 then " " else "") + Bin8(b)
  {
    r := sb;
    if b != 0 || |sb| != 0 {
      if |sb| > 0 {
        r := r + " ";
      }
      r := r + Bin8(b);
    }
  }

  /** One more byte: skipped while no group has been written, otherwise one more group. */
  lemma BinStep(bytes: seq<Byte>, i: nat)
    requires i < |bytes|
    ensures var sb, b := JoinBinGroups(SkipLeadingZeros(bytes[..i])), bytes[i];
      JoinBinGroups(SkipLeadingZeros(bytes[..i + 1])) ==
        if b == 0 && |sb| == 0 then sb else sb + (if |sb| > 0 then " " else "") + Bin8(b)
  {
    var prefix, b := bytes[..i], bytes[i];
    assert bytes[..i + 1] == prefix + [b];
    SkipLeadingZerosSnoc(prefix, b);
    JoinBinGroupsSnoc(SkipLeadingZeros(prefix), b);
  }

  lemma JoinBinGroupsSnoc(groups: seq<Byte>, b: Byte)
    ensures JoinBinGroups(groups + [b]) == JoinBinGroups(groups) + (if groups == [] then "" else " ") + Bin8(b)
  {
    assert (groups + [b])[..|groups|] == groups;
  }

  /** The binary text is "00000000" exactly when every byte is zero (or there are none). */
  lemma BinStringAllZero(bytes: seq<Byte>)
    ensures BinString(bytes) == "00000000" <==> forall k :: 0 <= k < |bytes| ==> bytes[k] == 0
  {
    var groups := SkipLeadingZeros(bytes);
    SkippedAreZero(bytes);
    if groups != [] {
      assert groups[0] != 0;
      assert bytes[|bytes| - |groups|] != 0;
      if |groups| == 1 {
        Bin8RoundTrip(groups[0]);
        ZeroDigitsValue("00000000");
      }
    }
  }

  lemma {:induction false} ZeroDigitsValue(s: string)
    requires forall j :: 0 <= j < |s| ==> s[j] == '0'
    ensures BinValue(s) == 0
  {
    if s != [] {
      ZeroDigitsValue(s[..|s| - 1]);
    }
  }

  /**
   * Group j of the binary text sits at 9 * j, is the eight digits of the j-th byte after the
   * leading zeros, and is followed by a single space unless it is the last group.
   */
  lemma {:induction false} JoinBinGroupsLayout(groups: seq<Byte>, j: nat)
    requires j < |groups|
    ensures var r := JoinBinGroups(groups);
      && r[9 * j..9 * j + 8] == Bin8(groups[j])
      && (j + 1 < |groups| ==> r[9 * j + 8] == ' ')
  {
    if |groups| > 1 {
      var init := groups[..|groups| - 1];
      var r := JoinBinGroups(groups);
      assert r == JoinBinGroups(init) + " " + Bin8(groups[|groups| - 1]);
      if j < |init| {
        JoinBinGroupsLayout(init, j);
        if j + 1 < |init| {
          assert r[9 * j + 8] == JoinBinGroups(init)[9 * j + 8];
        }
        assert r[9 * j..9 * j + 8] == JoinBinGroups(init)[9 * j..9 * j + 8];
      } else {
        assert r[9 * j..9 * j + 8] == Bin8(groups[|groups| - 1]);
      }
    }
  }

  // ---------------------------------------------------------------------------------------
  // ToUIText(string, byte[]): the three lines of the numeric panel

  /** The DEC value, HEX text and BIN text shown for a constant, or None for a non-integral value. */
  method NumericPanel(value: BoxedValue, form: NumericForm) returns (r: Option<(int, string, string)>)
    ensures r.None? <==> value.OtherValue?
    ensures r.Some? ==> var f := ShowNumericForms(value, form).value;
      r.value == (f.dec, ToHexString(f.bytes), BinString(f.bytes))
  {
    var forms := ShowNumericForms(value, form);
    if forms.None? {
      return None;
    }
    var bin := ToBinString(forms.value.bytes);
    r := Some((forms.value.dec, ToHexString(forms.value.bytes), bin));
  }

  // ---------------------------------------------------------------------------------------
  // Names

  const CommonClassNames: set<string> := {"Object", "ValueType", "Enum", "MulticastDelegate"}

  /** Base classes that the base-type line leaves out. */
  function IsCommonClassName(name: string): (r: bool)
    ensures r <==> name in CommonClassNames
  {
    name == "Object" || name == "ValueType" || name == "Enum" || name == "MulticastDelegate"
  }

  /** The display name of an attribute class: without its "Attribute" suffix when it has one. */
  function AttributeDisplayName(className: string): (r: string)
    ensures |className| >= 9 && className[|className| - 9..] == "Attribute" ==> r + "Attribute" == className
    ensures !(|className| >= 9 && className[|className| - 9..] == "Attribute") ==> r == className
  {
    if |className| >= 9 && className[|className| - 9..] == "Attribute" then className[..|className| - 9] else className
  }

  /** Trimming the suffix undoes appending it. */
  lemma AttributeSuffixRoundTrip(name: string)
    ensures AttributeDisplayName(name + "Attribute") == name
  {
    var full := name + "Attribute";
    assert full[|full| - 9..] == "Attribute";
    assert full[..|full| - 9] == name;
  }
}
