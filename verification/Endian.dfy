/** Numbers in memory: the two byte orders, byte swapping, and the receiver's in-place repair of a
    vector that a sender of the other order wrote. */
module Endian {
  import opened Varint

  /** The number of bit patterns of w bytes. */
  function Patterns(w: nat): (p: nat)
    ensures p > 0
  {
    if w == 0 then 1 else 256 * Patterns(w - 1)
  }

  /** The value of a little-endian byte sequence. */
  function LittleEndian(s: seq<byte>): nat {
    if s == [] then 0 else s[0] + 256 * LittleEndian(s[1..])
  }

  function LittleEndianBytes(v: nat, w: nat): (s: seq<byte>)
    ensures |s| == w
  {
    if w == 0 then [] else [v % 256] + LittleEndianBytes(v / 256, w - 1)
  }

  function Reverse(s: seq<byte>): (r: seq<byte>)
    ensures |r| == |s| && forall i :: 0 <= i < |s| ==> r[i] == s[|s| - 1 - i]
  {
    seq(|s|, i requires 0 <= i < |s| => s[|s| - 1 - i])
  }

  lemma ReverseTwice(s: seq<byte>)
    ensures Reverse(Reverse(s)) == s
  {}

  /** The memory of a w-byte number on a host of the given order, and the number in such memory. */
  function Store(v: nat, w: nat, big: bool): (s: seq<byte>)
    ensures |s| == w
  {
    if big then Reverse(LittleEndianBytes(v, w)) else LittleEndianBytes(v, w)
  }

  function Load(s: seq<byte>, big: bool): nat {
    LittleEndian(if big then Reverse(s) else s)
  }

  /** bswap_16, bswap_32 and bswap_64: the number whose bytes are those of v in opposite order. */
  function Bswap(v: nat, w: nat): nat {
    LittleEndian(Reverse(LittleEndianBytes(v, w)))
  }

  lemma {:induction false} BytesOfValue(s: seq<byte>)
    ensures LittleEndianBytes(LittleEndian(s), |s|) == s
  {
    if s != [] {
      BytesOfValue(s[1..]);
      assert LittleEndian(s) % 256 == s[0] && LittleEndian(s) / 256 == LittleEndian(s[1..]);
      assert s == [s[0]] + s[1..];
    }
  }

  lemma {:induction false} ValueOfBytes(v: nat, w: nat)
    requires v < Patterns(w)
    ensures LittleEndian(LittleEndianBytes(v, w)) == v
  {
    if w > 0 {
      ValueOfBytes(v / 256, w - 1);
      assert LittleEndianBytes(v, w)[1..] == LittleEndianBytes(v / 256, w - 1);
    }
  }

  lemma {:induction false} ValueIsBounded(s: seq<byte>)
    ensures LittleEndian(s) < Patterns(|s|)
  {
    if s != [] { ValueIsBounded(s[1..]); }
  }

  /** A host reads back what it stored itself. */
  lemma LoadInvertsStore(v: nat, w: nat, big: bool)
    requires v < Patterns(w)
    ensures Load(Store(v, w, big), big) == v
  {
    ValueOfBytes(v, w);
    ReverseTwice(LittleEndianBytes(v, w));
  }

  /** Swapping the bytes of a number in memory reverses that memory, on either kind of host. */
  lemma SwapReversesMemory(s: seq<byte>, big: bool)
    ensures Store(Bswap(Load(s, big), |s|), |s|, big) == Reverse(s)
  {
    var t := if big then Reverse(s) else s;
    BytesOfValue(t);
    BytesOfValue(Reverse(t));
    ReverseTwice(s);
  }

  /** What a receiver makes of a number it finds in memory that the sender filled. */
  function Received(v: nat, w: nat, senderBig: bool, receiverBig: bool): nat {
    var read := Load(Store(v, w, senderBig), receiverBig);
    if senderBig == receiverBig then read else Bswap(read, w)
  }

  /** Receiver makes right: for either order on either side the number arrives unchanged. */
  lemma ReceiverMakesRight(v: nat, w: nat, senderBig: bool, receiverBig: bool)
    requires v < Patterns(w)
    ensures Received(v, w, senderBig, receiverBig) == v
  {
    LoadInvertsStore(v, w, senderBig);
    if senderBig != receiverBig {
      var m := LittleEndianBytes(v, w);
      BytesOfValue(Reverse(m));
      ReverseTwice(m);
      ValueOfBytes(v, w);
    }
  }

  // ---------------------------------------------------------------------------------------------
  // Float64: the reader swaps with bswap_32
  // ---------------------------------------------------------------------------------------------

  /** *i = bswap_32(*i) on the 64 bits of a double: the argument is cut to its low 32 bits. */
  function SwapLowHalf(v: nat): nat {
    Bswap(v % Patterns(4), 4)
  }

  function ReceivedFloat64(v: nat, senderBig: bool, receiverBig: bool): nat {
    var read := Load(Store(v, 8, senderBig), receiverBig);
    if senderBig == receiverBig then read else SwapLowHalf(read)
  }

  lemma {:induction false} LowBytes(v: nat, w: nat, k: nat)
    requires k <= w
    ensures LittleEndianBytes(v % Patterns(k), k) == LittleEndianBytes(v, w)[..k]
  {
    if k > 0 {
      var p := Patterns(k - 1);
      LowPart(v, p, k);
      LowBytes(v / 256, w - 1, k - 1);
      assert LittleEndianBytes(v, w)[..k] == [v % 256] + LittleEndianBytes(v / 256, w - 1)[..k - 1];
    }
  }

  lemma LowPart(v: nat, p: nat, k: nat)
    requires k > 0 && p == Patterns(k - 1)
    ensures Patterns(k) == 256 * p
    ensures v % Patterns(k) % 256 == v % 256 && v % Patterns(k) / 256 == v / 256 % p
  {
    var q, r := v / 256 / p, v / 256 % p;
    assert v == 256 * (p * q + r) + v % 256;
    assert v == (256 * p) * q + (256 * r + v % 256);
    assert 0 <= 256 * r + v % 256 < 256 * p;
    DivisionIsUnique(v, 256 * p, q, 256 * r + v % 256);
  }

  lemma DivisionIsUnique(v: nat, d: nat, q: nat, r: nat)
    requires d > 0 && v == d * q + r && r < d
    ensures v % d == r
  {
    var q', r' := v / d, v % d;
    assert v == d * q' + r';
    if q < q' {
      assert d * q' >= d * (q + 1) by { Monotone(d, q + 1, q'); }
    } else if q' < q {
      assert d * q >= d * (q' + 1) by { Monotone(d, q' + 1, q); }
    }
  }

  lemma Monotone(d: nat, a: nat, b: nat)
    requires a <= b
    ensures d * a <= d * b
  {
    assert d * (b - a) >= 0;
    assert d * b == d * a + d * (b - a);
  }

  lemma {:induction false} ValueIsZeroIffBytesAre(s: seq<byte>)
    ensures LittleEndian(s) == 0 <==> forall i :: 0 <= i < |s| ==> s[i] == 0
  {
    if s != [] {
      ValueIsZeroIffBytesAre(s[1..]);
      if forall i :: 0 <= i < |s| ==> s[i] == 0 {
        assert s[0] == 0;
      }
      if LittleEndian(s) == 0 {
        forall i | 0 <= i < |s| ensures s[i] == 0 {
          if i > 0 { assert s[i] == s[1..][i - 1]; }
        }
      }
    }
  }

  lemma HalfOfSwapped(m: seq<byte>)
    requires |m| == 8
    ensures LittleEndianBytes(LittleEndian(Reverse(m)) % Patterns(4), 4) == Reverse(m)[..4]
  {
    BytesOfValue(Reverse(m));
    LowBytes(LittleEndian(Reverse(m)), 8, 4);
  }

  lemma SwapLowHalfOfSwapped(v: nat)
    requires v < Patterns(8)
    ensures SwapLowHalf(Bswap(v, 8)) == v <==> v == 0
  {
    var m := LittleEndianBytes(v, 8);
    HalfOfSwapped(m);
    var result := Reverse(Reverse(m)[..4]);
    assert SwapLowHalf(Bswap(v, 8)) == LittleEndian(result);
    assert forall i :: 0 <= i < 4 ==> result[i] == m[i + 4];
    ValueOfBytes(v, 8);
    ValueIsBounded(result);
    ValueIsZeroIffBytesAre(m);
    ValueIsZeroIffBytesAre(result);
    if LittleEndian(result) == v {
      HighBytesVanish(v, m);
    }
  }

  /** A double sent between hosts of different order arrives intact only when all its bits are zero;
      between hosts of the same order it always does. */
  lemma Float64ArrivesIff(v: nat, senderBig: bool, receiverBig: bool)
    requires v < Patterns(8)
    ensures ReceivedFloat64(v, senderBig, receiverBig) == v <==> senderBig == receiverBig || v == 0
  {
    if senderBig == receiverBig {
      LoadInvertsStore(v, 8, senderBig);
    } else {
      ReverseTwice(LittleEndianBytes(v, 8));
      SwapLowHalfOfSwapped(v);
    }
  }

  /** A 64-bit number below 2^32 has four zero bytes at its high end. */
  lemma HighBytesVanish(v: nat, m: seq<byte>)
    requires v < Patterns(4) && m == LittleEndianBytes(v, 8)
    ensures forall i :: 4 <= i < 8 ==> m[i] == 0
  {
    var low := LittleEndianBytes(v, 4);
    ValueOfBytes(v, 4);
    HighZeros(v, 4, 4);
    assert m == low + LittleEndianBytes(0, 4);
    assert forall i :: 4 <= i < 8 ==> m[i] == LittleEndianBytes(0, 4)[i - 4];
    ZeroBytes(4);
  }

  lemma {:induction false} ZeroBytes(w: nat)
    ensures forall i :: 0 <= i < w ==> LittleEndianBytes(0, w)[i] == 0
  {
    if w > 0 { ZeroBytes(w - 1); }
  }

  lemma {:induction false} HighZeros(v: nat, k: nat, w: nat)
    requires v < Patterns(k)
    ensures LittleEndianBytes(v, k + w) == LittleEndianBytes(v, k) + LittleEndianBytes(0, w)
  {
    if k > 0 { HighZeros(v / 256, k - 1, w); }
  }

  // ---------------------------------------------------------------------------------------------
  // Vectors
  // ---------------------------------------------------------------------------------------------

  /** A vector with the memory of each w-byte element reversed. */
  function SwapElements(s: seq<byte>, w: nat): (r: seq<byte>)
    requires w > 0
    ensures |r| == |s|
  {
    if |s| < w then s else Reverse(s[..w]) + SwapElements(s[w..], w)
  }

  /** The memory of a vector of w-byte numbers. */
  function VectorMemory(vs: seq<nat>, w: nat, big: bool): (s: seq<byte>)
    ensures |s| == |vs| * w
  {
    if vs == [] then [] else Store(vs[0], w, big) + VectorMemory(vs[1..], w, big)
  }

  lemma SwapFirst(head: seq<byte>, tail: seq<byte>, w: nat)
    requires w > 0 && |head| == w
    ensures SwapElements(head + tail, w) == Reverse(head) + SwapElements(tail, w)
  {
    assert (head + tail)[..w] == head && (head + tail)[w..] == tail;
  }

  lemma {:induction false} SwapElementsTwice(s: seq<byte>, w: nat)
    requires w > 0
    ensures SwapElements(SwapElements(s, w), w) == s
    decreases |s|
  {
    if |s| >= w {
      var head, tail := Reverse(s[..w]), SwapElements(s[w..], w);
      SwapElementsTwice(s[w..], w);
      SwapFirst(head, tail, w);
      ReverseTwice(s[..w]);
      assert s == s[..w] + s[w..];
    }
  }

  /** Swapping element-wise turns the sender's memory of a vector into the receiver's. */
  lemma {:induction false} VectorArrives(vs: seq<nat>, w: nat, big: bool)
    requires w > 0
    ensures SwapElements(VectorMemory(vs, w, big), w) == VectorMemory(vs, w, !big)
  {
    if vs != [] {
      SwapFirst(Store(vs[0], w, big), VectorMemory(vs[1..], w, big), w);
      ReverseTwice(LittleEndianBytes(vs[0], w));
      VectorArrives(vs[1..], w, big);
    }
  }

  lemma {:induction false} SwapElementsApart(a: seq<byte>, b: seq<byte>, w: nat, k: nat)
    requires w > 0 && |a| == k * w
    ensures SwapElements(a + b, w) == SwapElements(a, w) + SwapElements(b, w)
  {
    if k == 0 {
      assert a + b == b;
    } else {
      assert k * w == (k - 1) * w + w && (k - 1) * w >= 0;
      SwapElementsApart(a[w..], b, w, k - 1);
      SwapFirst(a[..w], a[w..], w);
      SwapFirst(a[..w], a[w..] + b, w);
      assert a[..w] + a[w..] == a && a[..w] + (a[w..] + b) == a + b;
    }
  }

  /** Swap each of the num elements of vals in place. Fails, touching nothing, for an element width
      that is not a word size. */
  method TwiddleVectorElements(vals: array<byte>, num: nat, width: nat, hostBig: bool) returns (ok: bool)
    requires num * width <= vals.Length
    modifies vals
    ensures ok <==> width in {2, 4, 8}
    ensures ok ==> vals[..num * width] == SwapElements(old(vals[..num * width]), width)
    ensures ok ==> vals[num * width..] == old(vals[num * width..])
    ensures !ok ==> vals[..] == old(vals[..])
  {
    if width != 2 && width != 4 && width != 8 {
      return false;
    }
    ghost var before, total := vals[..], num * width;
    ghost var k := 0;
    var local, left := 0, num;
    while left > 0
      invariant k + left == num && local == k * width && local <= total
      invariant vals[..local] == SwapElements(before[..local], width)
      invariant vals[local..] == before[local..]
    {
      NextMultiple(k, num, width);
      NextElement(before, vals[..], local, width, k);
      SwapElementAt(vals, local, width, hostBig);
      local, left, k := local + width, left - 1, k + 1;
    }
    return true;
  }

  lemma NextMultiple(k: nat, num: nat, width: nat)
    requires k < num
    ensures (k + 1) * width == k * width + width <= num * width
  {
    assert num * width == (k + 1) * width + (num - k - 1) * width;
    assert (num - k - 1) * width >= 0;
  }

  /** *local = bswap(*local) */
  method SwapElementAt(vals: array<byte>, local: nat, width: nat, hostBig: bool)
    requires local + width <= vals.Length
    modifies vals
    ensures vals[..local + width] == old(vals[..local]) + Reverse(old(vals[local..local + width]))
    ensures vals[local + width..] == old(vals[local + width..])
  {
    var element := Store(Bswap(Load(vals[local..local + width], hostBig), width), width, hostBig);
    SwapReversesMemory(vals[local..local + width], hostBig);
    forall i | 0 <= i < width {
      vals[local + i] := element[i];
    }
  }

  lemma NextElement(before: seq<byte>, now: seq<byte>, local: nat, width: nat, k: nat)
    requires width > 0 && local == k * width && local + width <= |before| == |now|
    requires now[local..] == before[local..]
    ensures now[local + width..] == before[local + width..]
    ensures SwapElements(before[..local + width], width)
         == SwapElements(before[..local], width) + Reverse(now[local..local + width])
  {
    var element := before[local..local + width];
    assert now[local..local + width] == now[local..][..width] == before[local..][..width] == element;
    assert now[local + width..] == now[local..][width..] == before[local..][width..] == before[local + width..];
    SwapElementsApart(before[..local], element, width, k);
    assert element[..width] == element && element[width..] == [];
    assert before[..local] + element == before[..local + width];
  }
}
