/** The two ends of a DAP4 data stream: what the marshaller's put functions write and add to the checksum,
    and what the unmarshaller's get functions make of a stream. */
module Wire {
  import opened Wrappers
  import opened Varint
  import opened Endian

  const LENGTH_LIMIT := 0x8000_0000_0000_0000

  /** The bytes of data behind their length. */
  function Prefixed(data: seq<byte>): seq<byte> {
    Encode(|data|) + data
  }

  /** DAP4StreamMarshaller. A put function fails, as the source throws, when there is no checksum to update. */
  class Marshaller {
    const hostBig: bool
    const writeData: bool
    var out: seq<byte>
    var checksumValid: bool
    var digested: seq<byte>

    constructor (hostBig: bool, writeData: bool)
      ensures this.hostBig == hostBig && this.writeData == writeData
      ensures out == [] && !checksumValid && digested == []
    {
      this.hostBig, this.writeData := hostBig, writeData;
      out, checksumValid, digested := [], false, [];
    }

    method ResetChecksum()
      modifies this`checksumValid, this`digested
      ensures checksumValid && digested == []
    {
      checksumValid, digested := true, [];
    }

    /** The checksum can be taken once; after that there is none to update until the next reset. */
    method ComputeChecksum()
      modifies this`checksumValid
      ensures !checksumValid
    {
      checksumValid := false;
    }

    method ChecksumUpdate(data: seq<byte>) returns (ok: bool)
      modifies this`digested
      ensures ok == checksumValid && digested == if ok then old(digested) + data else old(digested)
    {
      ok := checksumValid;
      if ok { digested := digested + data; }
    }

    /** put_byte to put_uint64, put_float32 and put_float64 on a host with IEEE reals. */
    method PutNumber(val: nat, width: nat) returns (ok: bool)
      modifies this
      ensures ok == old(checksumValid) == checksumValid
      ensures digested == if ok then old(digested) + Store(val, width, hostBig) else old(digested)
      ensures out == if ok && writeData then old(out) + Store(val, width, hostBig) else old(out)
    {
      ok := ChecksumUpdate(Store(val, width, hostBig));
      if ok && writeData { out := out + Store(val, width, hostBig); }
    }

    /** put_length_prefix: the buffer has nine bytes. */
    method PutLengthPrefix(val: nat)
      requires val < LENGTH_LIMIT
      modifies this`out
      ensures out == if writeData then old(out) + Encode(val) else old(out)
    {
      if writeData {
        var target := new byte[9](_ => 0);
        FitsLengthBuffer(val);
        var size := WriteVarint64ToArrayInline(val, target);
        out := out + target[..size];
      }
    }

    /** put_str, put_url and put_opaque, and put_varying_vector for bytes. */
    method PutStr(val: seq<byte>) returns (ok: bool)
      requires |val| < LENGTH_LIMIT
      modifies this
      ensures ok == old(checksumValid) == checksumValid
      ensures digested == if ok then old(digested) + val else old(digested)
      ensures out == if ok && writeData then old(out) + Prefixed(val) else old(out)
    {
      ok := ChecksumUpdate(val);
      if ok && writeData {
        PutLengthPrefix(|val|);
        out := out + val;
      }
    }

    /** put_vector for bytes writes them even if no data is to be written. */
    method PutBytes(val: seq<byte>) returns (ok: bool)
      modifies this
      ensures ok == old(checksumValid) == checksumValid
      ensures digested == if ok then old(digested) + val else old(digested)
      ensures out == if ok then old(out) + val else old(out)
    {
      ok := ChecksumUpdate(val);
      if ok { out := out + val; }
    }

    method PutVector(vals: seq<nat>, width: nat) returns (ok: bool)
      modifies this
      ensures ok == old(checksumValid) == checksumValid
      ensures digested == if ok then old(digested) + VectorMemory(vals, width, hostBig) else old(digested)
      ensures out == if ok && writeData then old(out) + VectorMemory(vals, width, hostBig) else old(out)
    {
      ok := ChecksumUpdate(VectorMemory(vals, width, hostBig));
      if ok && writeData { out := out + VectorMemory(vals, width, hostBig); }
    }

    /** put_varying_vector: the number of elements is on the stream before the vector can fail. */
    method PutVaryingVector(vals: seq<nat>, width: nat) returns (ok: bool)
      requires |vals| < LENGTH_LIMIT
      modifies this
      ensures ok == old(checksumValid) == checksumValid
      ensures digested == if ok then old(digested) + VectorMemory(vals, width, hostBig) else old(digested)
      ensures out == if !writeData then old(out)
                     else old(out) + Encode(|vals|) + if ok then VectorMemory(vals, width, hostBig) else []
    {
      PutLengthPrefix(|vals|);
      ok := PutVector(vals, width);
    }
  }

  // ---------------------------------------------------------------------------------------------
  // What the get functions make of a stream
  // ---------------------------------------------------------------------------------------------

  /** The number in the memory the bytes have been read into. */
  function Repaired(s: seq<byte>, twiddle: bool, hostBig: bool): nat {
    if twiddle then Bswap(Load(s, hostBig), |s|) else Load(s, hostBig)
  }

  /** get_float64 repairs the double with the 32-bit swap. */
  function RepairedFloat64(s: seq<byte>, twiddle: bool, hostBig: bool): nat {
    if twiddle then SwapLowHalf(Load(s, hostBig)) else Load(s, hostBig)
  }

  datatype Taken<T> = Taken(value: T, rest: seq<byte>)

  function TakeBytes(s: seq<byte>, n: nat): Option<Taken<seq<byte>>> {
    if n <= |s| then Some(Taken(s[..n], s[n..])) else None
  }

  /** get_str. The length is one the machine can hold, or the bytes are not there. */
  function TakeStr(s: seq<byte>): Option<Taken<seq<byte>>> {
    match ReadLength(s)
    case Length(n, rest) => TakeBytes(rest, n)
    case _ => None
  }

  /** get_vector: all bytes at once, then the elements are swapped in place, which not every width allows. */
  function TakeVector(s: seq<byte>, num: nat, width: nat, twiddle: bool): Option<Taken<seq<byte>>> {
    match TakeBytes(s, num * width)
    case Some(t) =>
      if !twiddle then Some(t)
      else if width in {2, 4, 8} then Some(Taken(SwapElements(t.value, width), t.rest)) else None
    case None => None
  }

  function TakeVaryingVector(s: seq<byte>, width: nat, twiddle: bool): Option<Taken<seq<byte>>> {
    match ReadLength(s)
    case Length(num, rest) => TakeVector(rest, num, width, twiddle)
    case _ => None
  }

  /** DAP4StreamUnMarshaller, without the bytes it has consumed. A get function that fails, as the source
      throws, says nothing about the rest of the stream. */
  class UnMarshaller {
    const hostBig: bool
    const twiddle: bool
    var input: seq<byte>

    constructor (input: seq<byte>, hostBig: bool, streamBig: bool)
      ensures this.input == input && this.hostBig == hostBig && twiddle == (hostBig != streamBig)
    {
      this.input, this.hostBig := input, hostBig;
      twiddle := !((hostBig && streamBig) || (!hostBig && !streamBig));
    }

    method Read(n: nat) returns (data: Option<seq<byte>>)
      modifies this`input
      ensures match TakeBytes(old(input), n)
              case Some(t) => data == Some(t.value) && input == t.rest
              case None => data == None
    {
      if n > |input| { return None; }
      data := Some(input[..n]);
      input := input[n..];
    }

    /** get_int16 to get_uint64 and get_float32; get_byte and get_int8 have nothing to swap. */
    method GetNumber(width: nat) returns (val: Option<nat>)
      modifies this`input
      ensures match TakeBytes(old(input), width)
              case Some(t) => val == Some(Repaired(t.value, twiddle && width > 1, hostBig)) && input == t.rest
              case None => val == None
    {
      var data := Read(width);
      if data.None? { return None; }
      var read := Load(data.value, hostBig);
      val := Some(if twiddle && width > 1 then Bswap(read, width) else read);
    }

    method GetFloat64() returns (val: Option<nat>)
      modifies this`input
      ensures match TakeBytes(old(input), 8)
              case Some(t) => val == Some(RepairedFloat64(t.value, twiddle, hostBig)) && input == t.rest
              case None => val == None
    {
      var data := Read(8);
      if data.None? { return None; }
      var read := Load(data.value, hostBig);
      val := Some(if twiddle then SwapLowHalf(read) else read);
    }

    /** The loop of get_length_prefix. */
    method GetLengthPrefix() returns (len: Option<uint64>)
      modifies this`input
      ensures match ReadLength(old(input))
              case Length(n, rest) => len == Some(n) && input == rest
              case _ => len == None
    {
      var count: nat := 0;
      var result: uint64 := 0;
      var more := true;
      while more
        invariant more ==> ReadFrom(input, count, result, false) == ReadLength(old(input))
        invariant !more ==> ReadLength(old(input)) == Length(result, input)
        decreases |input| + if more then 1 else 0
      {
        if input == [] { return None; }
        var b := input[0];
        var v := ShiftInInt(b % 128, count);
        if v.None? { return None; }
        input := input[1..];
        result := (result + v.value) % 0x1_0000_0000_0000_0000;
        count := count + 1;
        more := b >= 128;
      }
      len := Some(result);
    }

    /** get_str and get_url, and get_opaque and get_varying_vector for bytes of unknown number. */
    method GetStr() returns (val: Option<seq<byte>>)
      modifies this`input
      ensures match TakeStr(old(input))
              case Some(t) => val == Some(t.value) && input == t.rest
              case None => val == None
    {
      var len := GetLengthPrefix();
      if len.None? { return None; }
      val := Read(len.value);
    }

    /** get_opaque for a known number of bytes: the stream has to say the same. */
    method GetOpaque(len: nat) returns (val: Option<seq<byte>>)
      modifies this`input
      ensures match TakeStr(old(input))
              case Some(t) => val == (if |t.value| == len then Some(t.value) else None) &&
                              (val.Some? ==> input == t.rest)
              case None => val == None
    {
      var rlen := GetLengthPrefix();
      if rlen.None? || len != rlen.value { return None; }
      val := Read(len);
    }

    /** get_vector */
    method GetVector(num: nat, width: nat) returns (val: Option<seq<byte>>)
      modifies this`input
      ensures match TakeVector(old(input), num, width, twiddle)
              case Some(t) => val == Some(t.value) && input == t.rest
              case None => val == None
    {
      var data := Read(num * width);
      if data.None? { return None; }
      if !twiddle { return data; }
      var vals := new byte[num * width](i requires 0 <= i < |data.value| => data.value[i]);
      assert vals[..num * width] == data.value;
      var ok := TwiddleVectorElements(vals, num, width, hostBig);
      if !ok { return None; }
      val := Some(vals[..num * width]);
    }

    /** get_varying_vector: as many elements as the stream says. */
    method GetVaryingVector(width: nat) returns (val: Option<seq<byte>>)
      modifies this`input
      ensures match TakeVaryingVector(old(input), width, twiddle)
              case Some(t) => val == Some(t.value) && input == t.rest
              case None => val == None
    {
      var num := GetLengthPrefix();
      if num.None? { return None; }
      val := GetVector(num.value, width);
    }
  }

  // ---------------------------------------------------------------------------------------------
  // What arrives
  // ---------------------------------------------------------------------------------------------

  /** A number arrives, whatever the byte orders of the two hosts. */
  lemma NumberArrives(v: nat, width: nat, senderBig: bool, hostBig: bool)
    requires v < Patterns(width) && width > 0
    ensures Repaired(Store(v, width, senderBig), senderBig != hostBig && width > 1, hostBig) == v
  {
    ReceiverMakesRight(v, width, senderBig, hostBig);
    if width == 1 {
      var m := LittleEndianBytes(v, 1);
      assert Reverse(m) == m;
      ValueOfBytes(v, 1);
    }
  }

  /** A string shorter than 2^31 bytes is read back, with exactly its bytes consumed; a longer one is not. */
  lemma StrArrivesIff(data: seq<byte>, rest: seq<byte>)
    requires |data| < LENGTH_LIMIT
    ensures |data| < 0x8000_0000 ==> TakeStr(Prefixed(data) + rest) == Some(Taken(data, rest))
    ensures |data| >= 0x8000_0000 ==>
              TakeStr(Prefixed(data) + rest).None? || TakeStr(Prefixed(data) + rest).value.value != data
  {
    assert Prefixed(data) + rest == Encode(|data|) + (data + rest);
    ReaderInvertsWriterIffSmall(|data|, data + rest);
    assert (data + rest)[..|data|] == data && (data + rest)[|data|..] == rest;
    if |data| >= 0x8000_0000 { LongLengthIsWrong(|data|, data + rest); }
  }

  lemma LongLengthIsWrong(v: uint64, rest: seq<byte>)
    requires v >= 0x8000_0000
    ensures var p := ReadLength(Encode(v) + rest); p.Length? ==> p.value != v
  {
    var s := Encode(v);
    EncodeIsCanonical(v);
    if |s| <= 5 {
      ReadsFormIff(s, rest, 0, 0);
    } else {
      assert forall i :: 0 <= i < 5 ==> (s + rest)[i] == s[i];
      ReadFailsIff(s + rest, 0, 0);
    }
  }

  /** A vector of numbers arrives as the receiver would have it in memory itself, with exactly its bytes
      consumed, for either byte order on either side. */
  lemma VectorGetsThrough(vals: seq<nat>, width: nat, senderBig: bool, hostBig: bool, rest: seq<byte>)
    requires width in {2, 4, 8}
    ensures TakeVector(VectorMemory(vals, width, senderBig) + rest, |vals|, width, senderBig != hostBig) ==
            Some(Taken(VectorMemory(vals, width, hostBig), rest))
  {
    var memory := VectorMemory(vals, width, senderBig);
    assert (memory + rest)[..|memory|] == memory && (memory + rest)[|memory|..] == rest;
    VectorArrives(vals, width, senderBig);
  }

  /** So does a vector behind its length, if it has fewer than 2^31 elements. */
  lemma VaryingVectorGetsThrough(vals: seq<nat>, width: nat, senderBig: bool, hostBig: bool, rest: seq<byte>)
    requires width in {2, 4, 8} && |vals| < 0x8000_0000
    ensures TakeVaryingVector(Encode(|vals|) + VectorMemory(vals, width, senderBig) + rest, width, senderBig != hostBig) ==
            Some(Taken(VectorMemory(vals, width, hostBig), rest))
  {
    var memory := VectorMemory(vals, width, senderBig);
    assert Encode(|vals|) + memory + rest == Encode(|vals|) + (memory + rest);
    ReaderInvertsWriterIffSmall(|vals|, memory + rest);
    VectorGetsThrough(vals, width, senderBig, hostBig, rest);
  }

  /** The elements of a vector in memory. */
  function ElementsIn(s: seq<byte>, width: nat, big: bool): seq<nat>
    requires width > 0
  {
    if |s| < width then [] else [Load(s[..width], big)] + ElementsIn(s[width..], width, big)
  }

  /** And what is then in the receiver's memory are the elements that were sent. */
  lemma {:induction false} ElementsAreThere(vals: seq<nat>, width: nat, big: bool)
    requires width > 0 && forall i :: 0 <= i < |vals| ==> vals[i] < Patterns(width)
    ensures ElementsIn(VectorMemory(vals, width, big), width, big) == vals
    decreases |vals|
  {
    if vals != [] {
      var memory := VectorMemory(vals, width, big);
      assert memory[..width] == Store(vals[0], width, big) && memory[width..] == VectorMemory(vals[1..], width, big);
      LoadInvertsStore(vals[0], width, big);
      ElementsAreThere(vals[1..], width, big);
    }
  }
}
