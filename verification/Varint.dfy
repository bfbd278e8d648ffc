/** The variable-length integers that prefix strings, opaque values and varying vectors on the
    DAP4 wire: the unrolled writer and the loop-based reader. */
module Varint {
  import opened Wrappers

  type byte = x: int | 0 <= x < 256
  type uint64 = x: int | 0 <= x < 0x1_0000_0000_0000_0000

  /** The base-128 form of a value: seven bits a byte, least significant first, with the top bit set
      on every byte but the last. */
  function Encode(v: nat): (s: seq<byte>)
    ensures |s| > 0
  {
    if v < 128 then [v] else [v % 128 + 128] + Encode(v / 128)
  }

  /** The value a base-128 byte sequence stands for, whatever its continuation bits. */
  function Value(s: seq<byte>): nat {
    if s == [] then 0 else s[0] % 128 + 128 * Value(s[1..])
  }

  /** A complete varint: the continuation bit is set on all bytes but the last. */
  predicate WellFormed(s: seq<byte>) {
    |s| > 0 && s[|s| - 1] < 128 && forall i :: 0 <= i < |s| - 1 ==> s[i] >= 128
  }

  /** A complete varint without a superfluous zero at its most significant end. */
  predicate Canonical(s: seq<byte>) {
    WellFormed(s) && (|s| > 1 ==> s[|s| - 1] != 0)
  }

  lemma {:induction false} WellFormedTail(s: seq<byte>)
    requires WellFormed(s) && |s| > 1
    ensures WellFormed(s[1..]) && s[0] >= 128
  {
    assert s[1..][|s[1..]| - 1] == s[|s| - 1];
  }

  lemma {:induction false} WellFormedCons(b: byte, s: seq<byte>)
    requires WellFormed(s) && b >= 128
    ensures WellFormed([b] + s)
  {
    var t := [b] + s;
    assert t[|t| - 1] == s[|s| - 1];
    forall i | 0 <= i < |t| - 1 ensures t[i] >= 128 {
      if i > 0 { assert t[i] == s[i - 1]; }
    }
  }

  /** Encoding yields a canonical form that stands for the value it was given. */
  lemma {:induction false} EncodeIsCanonical(v: nat)
    ensures Canonical(Encode(v)) && Value(Encode(v)) == v
  {
    if v >= 128 {
      EncodeIsCanonical(v / 128);
      var t := Encode(v / 128);
      WellFormedCons(v % 128 + 128, t);
      assert Encode(v)[1..] == t;
      assert Encode(v)[|Encode(v)| - 1] == t[|t| - 1];
    }
  }

  lemma {:induction false} CanonicalIsPositive(s: seq<byte>)
    requires Canonical(s) && |s| > 1
    ensures Value(s) >= 128
  {
    WellFormedTail(s);
    assert s[1..][|s[1..]| - 1] == s[|s| - 1];
    if |s| > 2 { CanonicalIsPositive(s[1..]); }
  }

  /** The canonical form is unique: no other byte sequence of that shape has the same value. */
  lemma {:induction false} CanonicalIsUnique(s: seq<byte>, v: nat)
    requires Canonical(s) && Value(s) == v
    ensures s == Encode(v)
  {
    if |s| > 1 {
      CanonicalIsPositive(s);
      WellFormedTail(s);
      assert s[1..][|s[1..]| - 1] == s[|s| - 1];
      CanonicalIsUnique(s[1..], Value(s[1..]));
      assert v / 128 == Value(s[1..]);
      assert s == [s[0]] + s[1..];
    }
  }

  /** The canonical form is a shortest one among all varints with the same value. */
  lemma {:induction false} CanonicalIsShortest(s: seq<byte>)
    requires WellFormed(s)
    ensures |Encode(Value(s))| <= |s|
  {
    if |s| > 1 {
      WellFormedTail(s);
      CanonicalIsShortest(s[1..]);
      assert Value(s) / 128 == Value(s[1..]);
    }
  }

  function Pow128(n: nat): nat {
    if n == 0 then 1 else 128 * Pow128(n - 1)
  }

  /** The form takes at most n bytes exactly when the value has at most 7n bits. */
  lemma {:induction false} EncodedLength(v: nat, n: nat)
    requires n > 0
    ensures |Encode(v)| <= n <==> v < Pow128(n)
  {
    if n == 1 {
      assert Pow128(1) == 128 * Pow128(0);
    } else if v >= 128 {
      EncodedLength(v / 128, n - 1);
    } else {
      PowersGrow(n);
    }
  }

  lemma {:induction false} PowersGrow(n: nat)
    requires n > 0
    ensures Pow128(n) >= 128
  {
    if n > 1 { PowersGrow(n - 1); } else { assert Pow128(1) == 128 * Pow128(0); }
  }

  lemma Powers()
    ensures Pow128(1) == 0x80 && Pow128(2) == 0x4000 && Pow128(3) == 0x20_0000 && Pow128(4) == 0x1000_0000
    ensures Pow128(5) == 0x8_0000_0000 && Pow128(6) == 0x400_0000_0000 && Pow128(7) == 0x2_0000_0000_0000
    ensures Pow128(8) == 0x100_0000_0000_0000 && Pow128(9) == 0x8000_0000_0000_0000
  {
    assert Pow128(1) == 128 * Pow128(0);
    assert Pow128(2) == 128 * Pow128(1);
    assert Pow128(3) == 128 * Pow128(2);
    assert Pow128(4) == 128 * Pow128(3);
    assert Pow128(5) == 128 * Pow128(4);
    assert Pow128(6) == 128 * Pow128(5);
    assert Pow128(7) == 128 * Pow128(6);
    assert Pow128(8) == 128 * Pow128(7);
    assert Pow128(9) == 128 * Pow128(8);
  }

  /** The length buffer of put_length_prefix has sizeof(dods_uint64) + 1 = 9 bytes. A value fits
      exactly when it is below 2^63; from there on the writer needs a tenth byte. */
  lemma FitsLengthBuffer(v: uint64)
    ensures |Encode(v)| <= 9 <==> v < 0x8000_0000_0000_0000
  {
    EncodedLength(v, 9);
    Powers();
  }

  // ---------------------------------------------------------------------------------------------
  // The writer
  // ---------------------------------------------------------------------------------------------

  /** static_cast<uint8_t>(x | 0x80) */
  function WithContinuation(x: nat): byte {
    x % 128 + 128
  }

  /** The k-th base-128 digit. */
  function Digit(v: nat, k: nat): nat {
    if k == 0 then v % 128 else Digit(v / 128, k - 1)
  }

  lemma {:induction false} EncodeAt(v: nat, k: nat)
    requires k < |Encode(v)|
    ensures Encode(v)[k] == if k == |Encode(v)| - 1 then Digit(v, k) else WithContinuation(Digit(v, k))
  {
    EncodeIsCanonical(v);
    if v >= 128 && k > 0 {
      EncodeAt(v / 128, k - 1);
    }
  }

  /** value >> 7 * k, for the shifts the writer uses on its 32-bit parts. */
  function Shift(part: nat, k: nat): nat {
    if k == 0 then part else Shift(part, k - 1) / 128
  }

  /** The k-th byte before its continuation bit is set: a slice of one of the three overlapping 32-bit
      pieces that the writer cuts the value into. */
  function RawByte(v: uint64, k: nat): nat
    requires k < 10
  {
    if k < 4 then Shift(v % 0x1_0000_0000, k)
    else if k < 8 then Shift(v / 0x1000_0000 % 0x1_0000_0000, k - 4)
    else Shift(v / 0x100_0000_0000_0000 % 0x1_0000_0000, k - 8)
  }

  lemma {:induction false} DigitIsShift(v: nat, k: nat)
    ensures Digit(v, k) == Shift(v, k) % 128
  {
    if k > 0 {
      ShiftInside(v, k - 1);
      DigitIsShift(v / 128, k - 1);
    }
  }

  lemma {:induction false} ShiftInside(v: nat, k: nat)
    ensures Shift(v, k) / 128 == Shift(v / 128, k)
  {
    if k > 0 { ShiftInside(v, k - 1); }
  }

  /** The low four digits survive the cut to 32 bits. */
  lemma LowDigits(v: nat, k: nat)
    requires k < 4
    ensures Shift(v % 0x1_0000_0000, k) % 128 == Digit(v, k)
  {
    DigitIsShift(v, k);
    ShiftApart(v / 0x1_0000_0000, v % 0x1_0000_0000, k);
  }

  lemma ShiftApart(a: nat, p: nat, k: nat)
    requires k < 4
    ensures Shift(0x1_0000_0000 * a + p, k) % 128 == Shift(p, k) % 128
  {
    var v := 0x1_0000_0000 * a + p;
    SliceApart(0x200_0000 * a, p);
    SliceApart(0x4_0000 * a, Shift(p, 1));
    SliceApart(0x800 * a, Shift(p, 2));
    SliceApart(0x10 * a, Shift(p, 3));
    assert Shift(v, 1) == 0x200_0000 * a + Shift(p, 1);
    assert Shift(v, 2) == 0x4_0000 * a + Shift(p, 2);
    assert Shift(v, 3) == 0x800 * a + Shift(p, 3);
  }

  lemma SliceApart(c: nat, p: nat)
    ensures (128 * c + p) / 128 == c + p / 128 && (128 * c + p) % 128 == p % 128
  {}

  lemma {:induction false} DigitsAbove(v: nat, k: nat)
    ensures Digit(v, k + 4) == Digit(v / 0x1000_0000, k)
  {
    assert v / 128 / 128 / 128 / 128 == v / 0x1000_0000;
    assert Digit(v, k + 4) == Digit(v / 128, k + 3) == Digit(v / 128 / 128, k + 2)
        == Digit(v / 128 / 128 / 128, k + 1) == Digit(v / 128 / 128 / 128 / 128, k);
  }

  lemma RawByteIsDigit(v: uint64, k: nat)
    requires k < 10
    ensures RawByte(v, k) % 128 == Digit(v, k)
  {
    if k < 4 {
      LowDigits(v, k);
    } else if k < 8 {
      DigitsAbove(v, k - 4);
      LowDigits(v / 0x1000_0000, k - 4);
    } else {
      DigitsAbove(v, k - 4);
      DigitsAbove(v / 0x1000_0000, k - 8);
      LowDigits(v / 0x100_0000_0000_0000, k - 8);
    }
  }

  /** The hard-coded binary search for the number of bytes. */
  function WriterSize(v: uint64): (n: nat)
    ensures 1 <= n <= 10
  {
    var part0 := v % 0x1_0000_0000;
    var part1 := v / 0x1000_0000 % 0x1_0000_0000;
    var part2 := v / 0x100_0000_0000_0000 % 0x1_0000_0000;
    if part2 == 0 then
      if part1 == 0 then
        if part0 < 0x4000 then (if part0 < 0x80 then 1 else 2)
        else (if part0 < 0x20_0000 then 3 else 4)
      else
        if part1 < 0x4000 then (if part1 < 0x80 then 5 else 6)
        else (if part1 < 0x20_0000 then 7 else 8)
    else
      if part2 < 0x80 then 9 else 10
  }

  /** The binary search over the three parts finds the length of the shortest form. */
  lemma WriterSizeIsEncodedLength(v: uint64)
    ensures WriterSize(v) == |Encode(v)|
  {
    var n := WriterSize(v);
    WriterSizeBracketsValue(v);
    EncodedLength(v, n);
    if n > 1 { EncodedLength(v, n - 1); }
  }

  lemma WriterSizeBracketsValue(v: uint64)
    ensures v < Pow128(WriterSize(v))
    ensures WriterSize(v) > 1 ==> v >= Pow128(WriterSize(v) - 1)
  {
    Powers();
    assert Pow128(10) == 128 * Pow128(9);
    var part2 := v / 0x100_0000_0000_0000;
    assert part2 < 256;
    if part2 == 0 {
      var part1 := v / 0x1000_0000;
      assert part1 < 0x1000_0000;
      if part1 == 0 {
        assert v < 0x1000_0000;
      }
    }
  }

  /** Write value in its shortest form at the front of target and return the number of bytes written.
      The caller's buffer must be long enough for it. */
  method WriteVarint64ToArrayInline(value: uint64, target: array<byte>) returns (size: nat)
    requires |Encode(value)| <= target.Length
    modifies target
    ensures size == |Encode(value)| && target[..size] == Encode(value)
    ensures target[size..] == old(target[size..])
  {
    size := WriterSize(value);
    WriterSizeIsEncodedLength(value);
    FillBytes(value, size, target);
    target[size - 1] := target[size - 1] % 128;
    forall k | 0 <= k < size ensures target[k] == Encode(value)[k] {
      WrittenByte(value, k);
    }
  }

  /** The labels, which fall through from the longest form to the shortest. */
  method FillBytes(value: uint64, size: nat, target: array<byte>)
    requires 1 <= size <= 10 && size <= target.Length
    modifies target
    ensures forall k :: 0 <= k < size ==> target[k] == WithContinuation(RawByte(value, k))
    ensures target[size..] == old(target[size..])
  {
    FillUpperBytes(value, size, target);
    if size >= 5 { target[4] := WithContinuation(RawByte(value, 4)); }
    if size >= 4 { target[3] := WithContinuation(RawByte(value, 3)); }
    if size >= 3 { target[2] := WithContinuation(RawByte(value, 2)); }
    if size >= 2 { target[1] := WithContinuation(RawByte(value, 1)); }
    target[0] := WithContinuation(RawByte(value, 0));
  }

  /** The first five of the labels. */
  method FillUpperBytes(value: uint64, size: nat, target: array<byte>)
    requires 1 <= size <= 10 && size <= target.Length
    modifies target
    ensures forall k :: 5 <= k < size ==> target[k] == WithContinuation(RawByte(value, k))
    ensures target[size..] == old(target[size..])
  {
    if size >= 10 { target[9] := WithContinuation(RawByte(value, 9)); }
    if size >= 9 { target[8] := WithContinuation(RawByte(value, 8)); }
    if size >= 8 { target[7] := WithContinuation(RawByte(value, 7)); }
    if size >= 7 { target[6] := WithContinuation(RawByte(value, 6)); }
    if size >= 6 { target[5] := WithContinuation(RawByte(value, 5)); }
  }

  lemma WrittenByte(v: uint64, k: nat)
    requires k < |Encode(v)| && k < 10
    ensures Encode(v)[k] == if k == |Encode(v)| - 1 then WithContinuation(RawByte(v, k)) % 128
                            else WithContinuation(RawByte(v, k))
  {
    EncodeAt(v, k);
    RawByteIsDigit(v, k);
    DigitIsSmall(v, k);
  }

  lemma {:induction false} DigitIsSmall(v: nat, k: nat)
    ensures Digit(v, k) < 128
  {
    if k > 0 { DigitIsSmall(v / 128, k - 1); }
  }

  // ---------------------------------------------------------------------------------------------
  // The reader
  // ---------------------------------------------------------------------------------------------

  /** d << 7 * count in unbounded integers. */
  function Scaled(d: nat, count: nat): nat {
    if count == 0 then d else 128 * Scaled(d, count - 1)
  }

  /** (b & 0x7f) << 7 * count, computed in 32-bit int and then widened to uint64_t: the product wraps
      into the signed range and a negative product sign-extends. A shift by 32 or more has no defined
      result. */
  function ShiftInInt(d: nat, count: nat): Option<uint64> {
    if count > 4 then None else
    var wrapped := Scaled(d, count) % 0x1_0000_0000;
    Some(if wrapped < 0x8000_0000 then wrapped else wrapped + 0xFFFF_FFFF_0000_0000)
  }

  function ShiftIn64Bits(d: nat, count: nat): Option<uint64> {
    Some(Scaled(d, count) % 0x1_0000_0000_0000_0000)
  }

  /** What the reader makes of a stream. End: the stream ran out and the read threw. Undefined: the
      shift had no defined result. */
  datatype Prefix = Length(value: uint64, rest: seq<byte>) | End | Undefined

  /** The reader's do-while loop from its count-th byte on, with the sum so far. Wide stands for
      a shift done in 64 bits. */
  function ReadFrom(s: seq<byte>, count: nat, result: uint64, wide: bool): Prefix
    decreases s
  {
    if s == [] then End else
    match if wide then ShiftIn64Bits(s[0] % 128, count) else ShiftInInt(s[0] % 128, count)
    case None => Undefined
    case Some(term) =>
      var sum := (result + term) % 0x1_0000_0000_0000_0000;
      if s[0] >= 128 then ReadFrom(s[1..], count + 1, sum, wide) else Length(sum, s[1..])
  }

  function ReadLength(s: seq<byte>): Prefix {
    ReadFrom(s, 0, 0, false)
  }

  lemma {:induction false} ScaledSplit(v: nat, count: nat)
    ensures Scaled(v, count) == Scaled(v % 128, count) + Scaled(v / 128, count + 1)
  {
    if count > 0 {
      ScaledSplit(v, count - 1);
    } else {
      assert Scaled(v / 128, 1) == 128 * Scaled(v / 128, 0);
    }
  }

  lemma Unwrapped(term: nat, sum: nat)
    requires term <= sum < 0x1_0000_0000_0000_0000
    ensures term % 0x1_0000_0000_0000_0000 == term && sum % 0x1_0000_0000_0000_0000 == sum
    ensures term < 0x8000_0000 ==> term % 0x1_0000_0000 == term
  {}

  /** One turn of the loop, as long as its sum stays in the width the shift is done in. */
  lemma StepAdds(b: byte, tail: seq<byte>, count: nat, result: uint64, wide: bool)
    requires result + Scaled(b % 128, count) < if wide then 0x1_0000_0000_0000_0000 else 0x8000_0000
    requires wide || count <= 4
    ensures ReadFrom([b] + tail, count, result, wide)
         == if b >= 128 then ReadFrom(tail, count + 1, result + Scaled(b % 128, count), wide)
            else Length(result + Scaled(b % 128, count), tail)
  {
    assert ([b] + tail)[1..] == tail;
    Unwrapped(Scaled(b % 128, count), result + Scaled(b % 128, count));
  }

  /** One turn of the loop on a value that takes more than one byte. */
  lemma ReadOne(v: nat, rest: seq<byte>, count: nat, result: uint64, wide: bool)
    requires v >= 128 && (wide || count <= 4)
    requires result + Scaled(v % 128, count) < if wide then 0x1_0000_0000_0000_0000 else 0x8000_0000
    ensures ReadFrom(Encode(v) + rest, count, result, wide)
         == ReadFrom(Encode(v / 128) + rest, count + 1, result + Scaled(v % 128, count), wide)
  {
    var b: byte := v % 128 + 128;
    assert b % 128 == v % 128;
    assert Encode(v) + rest == [b] + (Encode(v / 128) + rest);
    StepAdds(b, Encode(v / 128) + rest, count, result, wide);
  }

  /** From any point of its loop the reader adds up the rest of the form and stops right behind it. */
  lemma {:induction false} ReadAddsUp(v: nat, rest: seq<byte>, count: nat, result: uint64, wide: bool)
    requires result + Scaled(v, count) < if wide then 0x1_0000_0000_0000_0000 else 0x8000_0000
    requires wide || count + |Encode(v)| <= 5
    ensures ReadFrom(Encode(v) + rest, count, result, wide) == Length(result + Scaled(v, count), rest)
    decreases v
  {
    ScaledSplit(v, count);
    if v < 128 {
      StepAdds(v, rest, count, result, wide);
    } else {
      ReadOne(v, rest, count, result, wide);
      ReadAddsUp(v / 128, rest, count + 1, result + Scaled(v % 128, count), wide);
    }
  }

  /** With the shift done in 64 bits, reading undoes writing for every 64-bit value and consumes exactly
      the bytes written. */
  lemma WideReaderInvertsWriter(v: uint64, rest: seq<byte>)
    ensures ReadFrom(Encode(v) + rest, 0, 0, true) == Length(v, rest)
  {
    ReadAddsUp(v, rest, 0, 0, true);
  }

  lemma ScaledValues(d: nat)
    ensures Scaled(d, 0) == d && Scaled(d, 1) == 0x80 * d && Scaled(d, 2) == 0x4000 * d
    ensures Scaled(d, 3) == 0x20_0000 * d && Scaled(d, 4) == 0x1000_0000 * d
  {
    assert Scaled(d, 2) == 128 * Scaled(d, 1);
    assert Scaled(d, 3) == 128 * Scaled(d, 2);
    assert Scaled(d, 4) == 128 * Scaled(d, 3);
  }

  lemma FifthProduct(low: nat, d: nat)
    requires low < 0x1000_0000 && 8 <= d < 128
    ensures ShiftInInt(d, 4).Some?
    ensures (low + ShiftInInt(d, 4).value) % 0x1_0000_0000_0000_0000 != low + 0x1000_0000 * d
  {
    ScaledValues(d);
    var t := ShiftInInt(d, 4).value;
    assert low + t < 0x1_0000_0000_0000_0000;
    Unwrapped(t, low + t);
  }

  // ---------------------------------------------------------------------------------------------
  // Any stream
  // ---------------------------------------------------------------------------------------------

  /** The sums of low digits. */
  lemma LowSum(d: nat, count: nat, result: nat)
    requires d < 128 && count <= 3 && result < Scaled(1, count)
    ensures result + Scaled(d, count) < Scaled(1, count + 1) <= 0x1000_0000
  {
    ScaledValues(1);
    ScaledValues(d);
  }

  lemma LastDigit(d: nat, rest: seq<byte>, count: nat, result: uint64)
    requires d < 128 && count <= 4 && result < Scaled(1, count)
    ensures var p := ReadFrom([d] + rest, count, result, false);
      p.Length? && p.rest == rest &&
      (p.value == result + Scaled(d, count) <==> result + Scaled(d, count) < 0x8000_0000)
  {
    ScaledValues(1);
    ScaledValues(d);
    var s := [d] + rest;
    assert s[0] == d && s[1..] == rest && d % 128 == d;
    if count <= 3 || d < 8 {
      StepAdds(d, rest, count, result, false);
    } else {
      FifthProduct(result, d);
    }
  }

  /** A varint of up to five bytes, superfluous zeros or not, is read to its end; what is read is its value exactly
      when that is below 2^31. */
  lemma {:induction false} ReadsFormIff(s: seq<byte>, rest: seq<byte>, count: nat, result: uint64)
    requires WellFormed(s) && count + |s| <= 5 && result < Scaled(1, count)
    ensures var p, v := ReadFrom(s + rest, count, result, false), result + Scaled(Value(s), count);
      p.Length? && p.rest == rest && (p.value == v <==> v < 0x8000_0000)
    decreases |s|
  {
    var d, tail := s[0] % 128, s[1..];
    if |s| == 1 {
      assert s == [d] && tail == [] && Value(s) == d;
      LastDigit(d, rest, count, result);
    } else {
      FirstDigit(s, rest, count, result);
      ReadsFormIff(tail, rest, count + 1, result + Scaled(d, count));
    }
  }

  /** The first of several bytes of a varint, and the others. */
  lemma FirstDigit(s: seq<byte>, rest: seq<byte>, count: nat, result: uint64)
    requires WellFormed(s) && |s| > 1 && count + |s| <= 5 && result < Scaled(1, count)
    ensures var d, tail := s[0] % 128, s[1..];
      WellFormed(tail) && result + Scaled(d, count) < Scaled(1, count + 1) <= 0x1000_0000 &&
      ReadFrom(s + rest, count, result, false) == ReadFrom(tail + rest, count + 1, result + Scaled(d, count), false) &&
      Scaled(Value(s), count) == Scaled(d, count) + Scaled(Value(tail), count + 1)
  {
    WellFormedTail(s);
    LowSum(s[0] % 128, count, result);
    ScaledSplit(Value(s), count);
    assert s + rest == [s[0]] + (s[1..] + rest);
    StepAdds(s[0], s[1..] + rest, count, result, false);
  }

  predicate AllContinue(s: seq<byte>, n: nat)
    requires n <= |s|
  {
    forall i :: 0 <= i < n ==> s[i] >= 128
  }

  /** Of every stream: it ends in the length if all of its bytes, five at the most, ask for another; the length has no
      defined result if a sixth byte is asked for and there; otherwise there is one. */
  lemma {:induction false} ReadFailsIff(s: seq<byte>, count: nat, result: uint64)
    requires count <= 5
    ensures ReadFrom(s, count, result, false) == End <==> count + |s| <= 5 && AllContinue(s, |s|)
    ensures ReadFrom(s, count, result, false) == Undefined <==> count + |s| > 5 && AllContinue(s, 5 - count)
    decreases |s|
  {
    if s != [] && count < 5 {
      var sum := (result + ShiftInInt(s[0] % 128, count).value) % 0x1_0000_0000_0000_0000;
      var tail := s[1..];
      ReadFailsIff(tail, count + 1, sum);
      assert forall i :: 0 < i < |s| ==> s[i] == tail[i - 1];
      assert forall i :: 0 <= i < |tail| ==> tail[i] == s[i + 1];
    }
  }

  /** As written, with the shift done in int, reading undoes writing exactly for values below 2^31. */
  lemma ReaderInvertsWriterIffSmall(v: uint64, rest: seq<byte>)
    ensures ReadLength(Encode(v) + rest) == Length(v, rest) <==> v < 0x8000_0000
  {
    var s := Encode(v);
    EncodeIsCanonical(v);
    if |s| <= 5 {
      ReadsFormIff(s, rest, 0, 0);
    } else {
      Powers();
      EncodedLength(v, 5);
      assert forall i :: 0 <= i < 5 ==> (s + rest)[i] == s[i];
      ReadFailsIff(s + rest, 0, 0);
    }
  }
}
