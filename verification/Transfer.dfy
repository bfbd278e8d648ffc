/** Sending the variables of the current projection, and reading them into the projected declaration. */
module Transfer {
  import opened Wrappers
  import opened Types
  import opened Variables
  import opened Varint
  import opened Endian
  import opened Wire

  /** The size of a number in memory; zero for the types that are not numbers. */
  function NumberWidth(t: Type): nat {
    match t
    case Byte => 1
    case Int8 => 1
    case UInt8 => 1
    case Int16 => 2
    case UInt16 => 2
    case Int32 => 4
    case UInt32 => 4
    case Float32 => 4
    case Int64 => 8
    case UInt64 => 8
    case Float64 => 8
    case _ => 0
  }

  predicate IsText(t: Type) {
    t.Str? || t.Url? || t.Url4?
  }

  /** Trees of scalars and Structures that hold values of their types. */
  predicate HasValues(v: Var)
    decreases v
  {
    if NumberWidth(v.ty) > 0 then v.value.Number? && v.value.bits < Patterns(NumberWidth(v.ty)) && v.kids == []
    else if IsText(v.ty) then v.value.Characters? && |v.value.bytes| < LENGTH_LIMIT && v.kids == []
    else v.ty.Structure? && v.value.NoValue? && AllHaveValues(v.kids)
  }

  predicate AllHaveValues(vs: seq<Var>)
    decreases vs
  {
    vs == [] || (HasValues(vs[0]) && AllHaveValues(vs[1..]))
  }

  /** The virtual function serialize: a scalar's value, or the fields in the projection one after the other. */
  function Serialized(v: Var, big: bool): seq<byte>
    requires HasValues(v)
    decreases v
  {
    if NumberWidth(v.ty) > 0 then Store(v.value.bits, NumberWidth(v.ty), big)
    else if IsText(v.ty) then Prefixed(v.value.bytes)
    else AllSerialized(v.kids, big)
  }

  function AllSerialized(vs: seq<Var>, big: bool): seq<byte>
    requires AllHaveValues(vs)
    decreases vs
  {
    if vs == [] then []
    else if vs[0].send then Serialized(vs[0], big) + AllSerialized(vs[1..], big)
    else AllSerialized(vs[1..], big)
  }

  /** The data that goes into the checksum: without the lengths. */
  function Digested(v: Var, big: bool): seq<byte>
    requires HasValues(v)
    decreases v
  {
    if NumberWidth(v.ty) > 0 then Store(v.value.bits, NumberWidth(v.ty), big)
    else if IsText(v.ty) then v.value.bytes
    else AllDigested(v.kids, big)
  }

  function AllDigested(vs: seq<Var>, big: bool): seq<byte>
    requires AllHaveValues(vs)
    decreases vs
  {
    if vs == [] then []
    else if vs[0].send then Digested(vs[0], big) + AllDigested(vs[1..], big)
    else AllDigested(vs[1..], big)
  }

  /** serialize of a variable. */
  method Serialize(v: Var, m: Marshaller) returns (ok: bool)
    requires HasValues(v)
    modifies m
    ensures m.checksumValid == old(m.checksumValid)
    ensures m.checksumValid ==>
              ok && m.digested == old(m.digested) + Digested(v, m.hostBig) &&
              m.out == old(m.out) + if m.writeData then Serialized(v, m.hostBig) else []
    ensures !m.checksumValid ==> m.digested == old(m.digested) && m.out == old(m.out)
    decreases v
  {
    if NumberWidth(v.ty) > 0 {
      ok := m.PutNumber(v.value.bits, NumberWidth(v.ty));
    } else if IsText(v.ty) {
      ok := m.PutStr(v.value.bytes);
    } else {
      ok := SerializeFields(v.kids, m);
    }
  }

  /** The loop of Constructor::serialize, and of the filter over the dataset's variables. */
  method SerializeFields(vs: seq<Var>, m: Marshaller) returns (ok: bool)
    requires AllHaveValues(vs)
    modifies m
    ensures m.checksumValid == old(m.checksumValid)
    ensures m.checksumValid ==>
              ok && m.digested == old(m.digested) + AllDigested(vs, m.hostBig) &&
              m.out == old(m.out) + if m.writeData then AllSerialized(vs, m.hostBig) else []
    ensures !m.checksumValid ==> m.digested == old(m.digested) && m.out == old(m.out)
    decreases vs
  {
    ok := true;
    var i := 0;
    while i < |vs|
      invariant i <= |vs| && AllHaveValues(vs[i..]) && m.checksumValid == old(m.checksumValid)
      invariant m.checksumValid ==> ok && m.digested + AllDigested(vs[i..], m.hostBig) ==
                                          old(m.digested) + AllDigested(vs, m.hostBig)
      invariant m.checksumValid && m.writeData ==>
                  m.out + AllSerialized(vs[i..], m.hostBig) == old(m.out) + AllSerialized(vs, m.hostBig)
      invariant !m.checksumValid || !m.writeData ==> m.out == old(m.out)
      invariant !m.checksumValid ==> m.digested == old(m.digested)
    {
      NextField(vs, i, m.hostBig, m.out, m.digested);
      if vs[i].send {
        ok := Serialize(vs[i], m);
        if !ok { return; }
      }
      i := i + 1;
    }
  }

  lemma NextField(vs: seq<Var>, i: nat, big: bool, out: seq<byte>, digested: seq<byte>)
    requires i < |vs| && AllHaveValues(vs[i..])
    ensures HasValues(vs[i]) && AllHaveValues(vs[i + 1..])
    ensures var rest := AllSerialized(vs[i + 1..], big);
            out + AllSerialized(vs[i..], big) == if vs[i].send then out + Serialized(vs[i], big) + rest else out + rest
    ensures var rest := AllDigested(vs[i + 1..], big);
            digested + AllDigested(vs[i..], big) ==
            if vs[i].send then digested + Digested(vs[i], big) + rest else digested + rest
  {
    assert vs[i..][1..] == vs[i + 1..];
    if vs[i].send {
      Associates(out, Serialized(vs[i], big), AllSerialized(vs[i + 1..], big));
      Associates(digested, Digested(vs[i], big), AllDigested(vs[i + 1..], big));
    }
  }

  // ---------------------------------------------------------------------------------------------
  // What is on the stream
  // ---------------------------------------------------------------------------------------------

  /** A number has as many bit patterns as its type says by name. */
  lemma WidthIsRange(t: Type)
    ensures var n := Patterns(NumberWidth(t));
      match t
      case Byte => n == 0x100
      case Int8 => n == 0x100
      case UInt8 => n == 0x100
      case Int16 => n == 0x1_0000
      case UInt16 => n == 0x1_0000
      case Int32 => n == 0x1_0000_0000
      case UInt32 => n == 0x1_0000_0000
      case Float32 => n == 0x1_0000_0000
      case Int64 => n == 0x1_0000_0000_0000_0000
      case UInt64 => n == 0x1_0000_0000_0000_0000
      case Float64 => n == 0x1_0000_0000_0000_0000
      case _ => n == 1
  {
    assert Patterns(2) == 0x1_0000;
    assert Patterns(4) == 0x1_0000_0000;
    assert Patterns(6) == 0x1_0000_0000_0000;
    assert Patterns(8) == 0x1_0000_0000_0000_0000;
  }

  /** The bytes of a number from the least significant one on. */
  lemma Bytes2(v: nat)
    ensures LittleEndianBytes(v, 2) == [v % 256, v / 256 % 256]
  {
    assert LittleEndianBytes(v / 256, 1) == [v / 256 % 256] + LittleEndianBytes(v / 256 / 256, 0);
  }

  lemma Bytes4(v: nat)
    ensures LittleEndianBytes(v, 4) == [v % 256, v / 0x100 % 256, v / 0x1_0000 % 256, v / 0x100_0000 % 256]
  {
    Bytes2(v / 0x1_0000);
    assert v / 256 / 256 == v / 0x1_0000;
    assert LittleEndianBytes(v, 4) == [v % 256] + ([v / 256 % 256] + LittleEndianBytes(v / 256 / 256, 2));
    assert v / 0x1_0000 / 256 == v / 0x100_0000;
  }

  lemma Bytes8(v: nat)
    ensures LittleEndianBytes(v, 8) == LittleEndianBytes(v % 0x1_0000_0000, 4) + LittleEndianBytes(v / 0x1_0000_0000, 4)
  {
    assert Patterns(2) == 0x1_0000 && Patterns(4) == 0x1_0000_0000;
    LowBytes(v, 8, 4);
    HighBytes(v, 4, 4);
  }

  lemma {:induction false} HighBytes(v: nat, k: nat, m: nat)
    ensures LittleEndianBytes(v, k + m)[k..] == LittleEndianBytes(v / Patterns(k), m)
  {
    if k > 0 {
      var p := Patterns(k - 1);
      HighBytes(v / 256, k - 1, m);
      assert v / 256 / p == v / (256 * p) by { QuotientTwice(v, p); }
    }
  }

  lemma QuotientTwice(v: nat, p: nat)
    requires p > 0
    ensures v / 256 / p == v / (256 * p)
  {
    var q, r := v / 256 / p, v / 256 % p;
    var n := v % 256;
    assert v == (256 * p) * q + (256 * r + n);
    assert 0 <= 256 * r + n < 256 * p;
    DivisionIsUnique(v, 256 * p, q, 256 * r + n);
  }

  /** A number is on the stream byte by byte, least significant first from a little-endian host and last from a
      big-endian one; two bytes for a 16-bit type, four for a 32-bit type. */
  lemma NumberOnTheStream(v: Var)
    requires HasValues(v)
    ensures v.ty in {Byte, Int8, UInt8} ==> Serialized(v, false) == Serialized(v, true) == [v.value.bits]
    ensures v.ty in {Int16, UInt16} ==>
      var low, high := v.value.bits % 256, v.value.bits / 256;
      Serialized(v, false) == [low, high] && Serialized(v, true) == [high, low]
    ensures v.ty in {Int32, UInt32, Float32} ==>
      var n := v.value.bits; var a, b, c, d := n % 256, n / 0x100 % 256, n / 0x1_0000 % 256, n / 0x100_0000;
      Serialized(v, false) == [a, b, c, d] && Serialized(v, true) == [d, c, b, a]
  {
    WidthIsRange(v.ty);
    if v.ty in {Byte, Int8, UInt8} {
      assert LittleEndianBytes(v.value.bits, 1) == [v.value.bits % 256] + LittleEndianBytes(v.value.bits / 256, 0);
    } else if v.ty in {Int16, UInt16} {
      Bytes2(v.value.bits);
    } else if v.ty in {Int32, UInt32, Float32} {
      Bytes4(v.value.bits);
    }
  }

  /** A string or a URL of any kind is its bytes behind their number, in either byte order. */
  lemma TextOnTheStream(v: Var, big: bool)
    requires v.ty in {Str, Url, Url4} && v.value.Characters? && |v.value.bytes| < 0x8000_0000_0000_0000 && v.kids == []
    ensures HasValues(v) && Serialized(v, big) == Encode(|v.value.bytes|) + v.value.bytes
  {}

  /** A 64-bit number is two numbers of 32 bits, the lower one first from a little-endian host. */
  lemma WideNumberOnTheStream(v: Var, low: Var, high: Var)
    requires HasValues(v) && v.ty in {Int64, UInt64, Float64}
    requires low == NewVar(UInt32, "").(value := Number(v.value.bits % 0x1_0000_0000))
    requires high == NewVar(UInt32, "").(value := Number(v.value.bits / 0x1_0000_0000))
    ensures HasValues(low) && HasValues(high)
    ensures Serialized(v, false) == Serialized(low, false) + Serialized(high, false)
    ensures Serialized(v, true) == Serialized(high, true) + Serialized(low, true)
  {
    WidthIsRange(v.ty);
    WidthIsRange(UInt32);
    Bytes8(v.value.bits);
  }

  // ---------------------------------------------------------------------------------------------
  // Reading
  // ---------------------------------------------------------------------------------------------

  /** deserialize of a declaration from a stream: the variable with its value, and what is left. */
  function Deserialized(decl: Var, s: seq<byte>, streamBig: bool, hostBig: bool): Option<Taken<Var>>
    decreases decl
  {
    var w := NumberWidth(decl.ty);
    if w > 0 then
      match TakeBytes(s, w)
      case Some(t) =>
        var bits := if decl.ty.Float64? then RepairedFloat64(t.value, hostBig != streamBig, hostBig)
                    else Repaired(t.value, hostBig != streamBig && w > 1, hostBig);
        Some(Taken(decl.(value := Number(bits)), t.rest))
      case None => None
    else if IsText(decl.ty) then
      match TakeStr(s)
      case Some(t) => Some(Taken(decl.(value := Characters(t.value)), t.rest))
      case None => None
    else
      match AllDeserialized(decl.kids, s, streamBig, hostBig)
      case Some(t) => Some(Taken(decl.(kids := t.value), t.rest))
      case None => None
  }

  function AllDeserialized(decls: seq<Var>, s: seq<byte>, streamBig: bool, hostBig: bool): Option<Taken<seq<Var>>>
    decreases decls
  {
    if decls == [] then Some(Taken([], s))
    else
      match Deserialized(decls[0], s, streamBig, hostBig)
      case None => None
      case Some(t) =>
        match AllDeserialized(decls[1..], t.rest, streamBig, hostBig)
        case None => None
        case Some(ts) => Some(Taken([t.value] + ts.value, ts.rest))
  }

  method Deserialize(decl: Var, u: UnMarshaller, ghost streamBig: bool) returns (v: Option<Var>)
    requires u.twiddle == (u.hostBig != streamBig)
    modifies u`input
    ensures match Deserialized(decl, old(u.input), streamBig, u.hostBig)
            case Some(t) => v == Some(t.value) && u.input == t.rest
            case None => v == None
    decreases decl
  {
    if NumberWidth(decl.ty) > 0 {
      var bits: Option<nat>;
      if decl.ty.Float64? { bits := u.GetFloat64(); } else { bits := u.GetNumber(NumberWidth(decl.ty)); }
      if bits.None? { return None; }
      v := Some(decl.(value := Number(bits.value)));
    } else if IsText(decl.ty) {
      var bytes := u.GetStr();
      if bytes.None? { return None; }
      v := Some(decl.(value := Characters(bytes.value)));
    } else {
      var kids := DeserializeFields(decl.kids, u, streamBig);
      if kids.None? { return None; }
      v := Some(decl.(kids := kids.value));
    }
  }

  /** The loop of Constructor::deserialize. */
  method DeserializeFields(decls: seq<Var>, u: UnMarshaller, ghost streamBig: bool) returns (vs: Option<seq<Var>>)
    requires u.twiddle == (u.hostBig != streamBig)
    modifies u`input
    ensures match AllDeserialized(decls, old(u.input), streamBig, u.hostBig)
            case Some(t) => vs == Some(t.value) && u.input == t.rest
            case None => vs == None
    decreases decls
  {
    var done: seq<Var> := [];
    var i := 0;
    ghost var all := AllDeserialized(decls, u.input, streamBig, u.hostBig);
    assert decls[0..] == decls && (all.Some? ==> [] + all.value.value == all.value.value);
    while i < |decls|
      invariant i <= |decls|
      invariant AllDeserialized(decls, old(u.input), streamBig, u.hostBig) ==
                Continued(done, AllDeserialized(decls[i..], u.input, streamBig, u.hostBig))
    {
      assert decls[i..][1..] == decls[i + 1..];
      var v := Deserialize(decls[i], u, streamBig);
      if v.None? { return None; }
      ghost var ts := AllDeserialized(decls[i + 1..], u.input, streamBig, u.hostBig);
      ContinuedOnce(done, v.value, ts);
      done := done + [v.value];
      i := i + 1;
    }
    assert done + [] == done;
    return Some(done);
  }

  /** The fields read so far and those still to come. */
  function Continued(done: seq<Var>, ts: Option<Taken<seq<Var>>>): Option<Taken<seq<Var>>> {
    match ts
    case Some(t) => Some(Taken(done + t.value, t.rest))
    case None => None
  }

  lemma ContinuedOnce(done: seq<Var>, v: Var, ts: Option<Taken<seq<Var>>>)
    ensures Continued(done + [v], ts) == match ts
            case Some(t) => Continued(done, Some(Taken([v] + t.value, t.rest)))
            case None => None
  {
    if ts.Some? { assert done + [v] + ts.value.value == done + ([v] + ts.value.value); }
  }

  // ---------------------------------------------------------------------------------------------
  // End to end
  // ---------------------------------------------------------------------------------------------

  /** The projected variable with its values: what the receiver should end up with. */
  function Filled(v: Var): Var {
    Var(v.ty, v.name, false, v.attrs, AllFilled(v.kids), BareDimensions(ConstrainedDimensions(v.dims)), v.value)
  }

  function AllFilled(vs: seq<Var>): seq<Var> {
    if vs == [] then []
    else if vs[0].send then [Filled(vs[0])] + AllFilled(vs[1..])
    else AllFilled(vs[1..])
  }

  /** Which values get through: strings shorter than 2^31 bytes, and doubles between hosts of the same byte
      order or with all bits zero. */
  predicate GetsThrough(v: Var, sameOrder: bool)
    decreases v
  {
    if v.ty.Float64? then v.value.Number? && (sameOrder || v.value.bits == 0)
    else if IsText(v.ty) then v.value.Characters? && |v.value.bytes| < 0x8000_0000
    else AllGetThrough(v.kids, sameOrder)
  }

  predicate AllGetThrough(vs: seq<Var>, sameOrder: bool)
    decreases vs
  {
    vs == [] || ((vs[0].send ==> GetsThrough(vs[0], sameOrder)) && AllGetThrough(vs[1..], sameOrder))
  }

  /** What the receiver makes of the variable. */
  function Outcome(v: Var, rest: seq<byte>, streamBig: bool, hostBig: bool): Option<Taken<Var>>
    requires HasValues(v)
  {
    Deserialized(Declaration(Projection(v)), Serialized(v, streamBig) + rest, streamBig, hostBig)
  }

  lemma LeafDeclaration(v: Var)
    requires v.kids == []
    ensures Declaration(Projection(v)) == Filled(v).(value := NoValue)
  {}

  /** The bits that arrive. */
  function BitsRead(ty: Type, s: seq<byte>, streamBig: bool, hostBig: bool): nat {
    if ty.Float64? then RepairedFloat64(s, hostBig != streamBig, hostBig)
    else Repaired(s, hostBig != streamBig && NumberWidth(ty) > 1, hostBig)
  }

  lemma NumberOutcome(decl: Var, s: seq<byte>, rest: seq<byte>, streamBig: bool, hostBig: bool)
    requires NumberWidth(decl.ty) > 0 && |s| == NumberWidth(decl.ty)
    ensures Deserialized(decl, s + rest, streamBig, hostBig) ==
            Some(Taken(decl.(value := Number(BitsRead(decl.ty, s, streamBig, hostBig))), rest))
  {
    assert (s + rest)[..|s|] == s && (s + rest)[|s|..] == rest;
  }

  lemma BitsArriveIff(ty: Type, bits: nat, streamBig: bool, hostBig: bool)
    requires NumberWidth(ty) > 0 && bits < Patterns(NumberWidth(ty))
    ensures BitsRead(ty, Store(bits, NumberWidth(ty), streamBig), streamBig, hostBig) == bits <==>
            !ty.Float64? || streamBig == hostBig || bits == 0
  {
    if ty.Float64? {
      Float64ArrivesIff(bits, streamBig, hostBig);
    } else {
      NumberArrives(bits, NumberWidth(ty), streamBig, hostBig);
    }
  }

  lemma NumberOutcomeIs(v: Var, rest: seq<byte>, streamBig: bool, hostBig: bool)
    requires HasValues(v) && NumberWidth(v.ty) > 0
    ensures var read := BitsRead(v.ty, Store(v.value.bits, NumberWidth(v.ty), streamBig), streamBig, hostBig);
            Outcome(v, rest, streamBig, hostBig) == Some(Taken(Filled(v).(value := Number(read)), rest))
  {
    LeafDeclaration(v);
    NumberOutcome(Declaration(Projection(v)), Store(v.value.bits, NumberWidth(v.ty), streamBig), rest, streamBig, hostBig);
  }

  lemma NumbersThatGetThrough(v: Var, sameOrder: bool)
    requires HasValues(v) && NumberWidth(v.ty) > 0
    ensures GetsThrough(v, sameOrder) <==> !v.ty.Float64? || sameOrder || v.value.bits == 0
  {
    assert v.kids == [] && !IsText(v.ty);
  }

  lemma OnlyItsBits(v: Var, bits: nat)
    requires v.value.Number?
    ensures Filled(v).(value := Number(bits)) == Filled(v) <==> bits == v.value.bits
  {
    assert Filled(v).value == v.value;
  }

  lemma NumberGetsThrough(v: Var, rest: seq<byte>, streamBig: bool, hostBig: bool)
    requires HasValues(v) && NumberWidth(v.ty) > 0
    ensures var r := Outcome(v, rest, streamBig, hostBig);
            r.Some? && r.value.rest == rest && (r.value.value == Filled(v) <==> GetsThrough(v, streamBig == hostBig))
  {
    var read := BitsRead(v.ty, Store(v.value.bits, NumberWidth(v.ty), streamBig), streamBig, hostBig);
    NumberOutcomeIs(v, rest, streamBig, hostBig);
    BitsArriveIff(v.ty, v.value.bits, streamBig, hostBig);
    NumbersThatGetThrough(v, streamBig == hostBig);
    OnlyItsBits(v, read);
  }

  lemma TextGetsThrough(v: Var, rest: seq<byte>, streamBig: bool, hostBig: bool)
    requires HasValues(v) && NumberWidth(v.ty) == 0 && IsText(v.ty)
    ensures var r := Outcome(v, rest, streamBig, hostBig);
            if GetsThrough(v, streamBig == hostBig) then r == Some(Taken(Filled(v), rest))
            else r.None? || r.value.value != Filled(v)
  {
    var decl, t := Declaration(Projection(v)), TakeStr(Prefixed(v.value.bytes) + rest);
    LeafDeclaration(v);
    StrArrivesIff(v.value.bytes, rest);
    TextOutcome(decl, Prefixed(v.value.bytes) + rest, streamBig, hostBig);
  }

  lemma TextOutcome(decl: Var, s: seq<byte>, streamBig: bool, hostBig: bool)
    requires NumberWidth(decl.ty) == 0 && IsText(decl.ty)
    ensures Deserialized(decl, s, streamBig, hostBig) ==
            match TakeStr(s)
            case Some(t) => Some(Taken(decl.(value := Characters(t.value)), t.rest))
            case None => None
  {}

  /** Serializing a variable and deserializing into its projected declaration: if every value gets through,
      then the receiver has the projected values and has consumed exactly the bytes written, whatever follows
      them in the stream; and if not, it fails or has something else. */
  lemma {:induction false} ArrivesIff(v: Var, rest: seq<byte>, streamBig: bool, hostBig: bool)
    requires HasValues(v)
    ensures var r := Outcome(v, rest, streamBig, hostBig);
            if GetsThrough(v, streamBig == hostBig) then r == Some(Taken(Filled(v), rest))
            else r.None? || r.value.value != Filled(v)
    decreases v
  {
    if NumberWidth(v.ty) > 0 {
      NumberGetsThrough(v, rest, streamBig, hostBig);
    } else if IsText(v.ty) {
      TextGetsThrough(v, rest, streamBig, hostBig);
    } else {
      AllArriveIff(v.kids, rest, streamBig, hostBig);
    }
  }

  function AllOutcomes(vs: seq<Var>, rest: seq<byte>, streamBig: bool, hostBig: bool): Option<Taken<seq<Var>>>
    requires AllHaveValues(vs)
  {
    AllDeserialized(Declarations(Projections(vs)), AllSerialized(vs, streamBig) + rest, streamBig, hostBig)
  }

  /** The same for the fields of a Structure, and for the variables of a dataset. */
  lemma {:induction false} AllArriveIff(vs: seq<Var>, rest: seq<byte>, streamBig: bool, hostBig: bool)
    requires AllHaveValues(vs)
    ensures var r := AllOutcomes(vs, rest, streamBig, hostBig);
            if AllGetThrough(vs, streamBig == hostBig) then r == Some(Taken(AllFilled(vs), rest))
            else r.None? || r.value.value != AllFilled(vs)
    decreases vs
  {
    if vs == [] {
      assert AllSerialized(vs, streamBig) + rest == rest;
    } else {
      AllArriveIff(vs[1..], rest, streamBig, hostBig);
      if vs[0].send {
        var behind := AllSerialized(vs[1..], streamBig) + rest;
        ArrivesIff(vs[0], behind, streamBig, hostBig);
        FirstOutcome(vs, rest, streamBig, hostBig, Outcome(vs[0], behind, streamBig, hostBig));
        var r, ts := AllOutcomes(vs, rest, streamBig, hostBig), AllOutcomes(vs[1..], rest, streamBig, hostBig);
        assert AllFilled(vs)[0] == Filled(vs[0]) && AllFilled(vs)[1..] == AllFilled(vs[1..]);
        if GetsThrough(vs[0], streamBig == hostBig) && r.Some? { assert r.value.value[1..] == ts.value.value; }
      } else {
        assert Projections(vs) == Projections(vs[1..]);
      }
    }
  }

  /** The first field that is sent, and then the others from where it ends. */
  lemma FirstOutcome(vs: seq<Var>, rest: seq<byte>, streamBig: bool, hostBig: bool, first: Option<Taken<Var>>)
    requires AllHaveValues(vs) && vs != [] && vs[0].send
    requires first == Outcome(vs[0], AllSerialized(vs[1..], streamBig) + rest, streamBig, hostBig)
    ensures var r := AllOutcomes(vs, rest, streamBig, hostBig);
            (first.None? ==> r.None?) && (r.Some? ==> r.value.value != [] && r.value.value[0] == first.value.value)
    ensures first.Some? && first.value.rest == AllSerialized(vs[1..], streamBig) + rest ==>
              AllOutcomes(vs, rest, streamBig, hostBig) ==
              match AllOutcomes(vs[1..], rest, streamBig, hostBig)
              case Some(ts) => Some(Taken([first.value.value] + ts.value, ts.rest))
              case None => None
  {
    var ps := [Projection(vs[0])] + Projections(vs[1..]);
    assert Projections(vs) == ps && ps[1..] == Projections(vs[1..]);
    var decls := [Declaration(Projection(vs[0]))] + Declarations(ps[1..]);
    assert Declarations(ps) == decls && decls[1..] == Declarations(ps[1..]);
    Associates(Serialized(vs[0], streamBig), AllSerialized(vs[1..], streamBig), rest);
  }

  // ---------------------------------------------------------------------------------------------
  // The size estimate
  // ---------------------------------------------------------------------------------------------

  /** width of a variable. A string counts with the size of the C++ object that holds it. */
  function Width(v: Var, constrained: bool, stringSize: nat): nat
    decreases v
  {
    if NumberWidth(v.ty) > 0 then NumberWidth(v.ty)
    else if IsText(v.ty) then stringSize
    else AllWidths(v.kids, constrained, stringSize)
  }

  function AllWidths(vs: seq<Var>, constrained: bool, stringSize: nat): nat
    decreases vs
  {
    if vs == [] then 0
    else
      (if !constrained || vs[0].send then Width(vs[0], constrained, stringSize) else 0) +
      AllWidths(vs[1..], constrained, stringSize)
  }

  /** The loop of DDS::get_request_size, and of Constructor::width. */
  method GetRequestSize(vs: seq<Var>, constrained: bool, stringSize: nat) returns (w: nat)
    ensures w == AllWidths(vs, constrained, stringSize)
  {
    w := 0;
    var i := 0;
    while i < |vs|
      invariant i <= |vs| && w + AllWidths(vs[i..], constrained, stringSize) == AllWidths(vs, constrained, stringSize)
    {
      assert vs[i..][1..] == vs[i + 1..];
      if !constrained || vs[i].send { w := w + Width(vs[i], constrained, stringSize); }
      i := i + 1;
    }
  }

  /** The variable with all of it in the projection. */
  function AllSent(v: Var): Var
    decreases v
  {
    v.(send := true, kids := AllOfThemSent(v.kids))
  }

  function AllOfThemSent(vs: seq<Var>): seq<Var>
    decreases vs
  {
    if vs == [] then [] else [AllSent(vs[0])] + AllOfThemSent(vs[1..])
  }

  /** Without the constraint the estimate is that for everything, whatever is marked. */
  lemma {:induction false} UnconstrainedIsEverything(vs: seq<Var>, stringSize: nat)
    ensures AllWidths(vs, false, stringSize) == AllWidths(AllOfThemSent(vs), true, stringSize)
    decreases vs
  {
    if vs != [] {
      var all := AllOfThemSent(vs);
      assert all[0] == AllSent(vs[0]) && all[1..] == AllOfThemSent(vs[1..]);
      UnconstrainedIsEverything(vs[0].kids, stringSize);
      UnconstrainedIsEverything(vs[1..], stringSize);
    }
  }

  /** The bytes by which the estimate misses the strings that are sent. */
  function StringError(v: Var, stringSize: nat): int
    requires HasValues(v)
    decreases v
  {
    if NumberWidth(v.ty) > 0 then 0
    else if IsText(v.ty) then |Prefixed(v.value.bytes)| - stringSize
    else AllStringErrors(v.kids, stringSize)
  }

  function AllStringErrors(vs: seq<Var>, stringSize: nat): int
    requires AllHaveValues(vs)
    decreases vs
  {
    if vs == [] then 0
    else (if vs[0].send then StringError(vs[0], stringSize) else 0) + AllStringErrors(vs[1..], stringSize)
  }

  /** The estimate for the current constraint is the number of bytes sent, but for the strings: under any
      marking, and exactly when there are none or their errors cancel. */
  lemma {:induction false} RequestSizeIsBytesSent(vs: seq<Var>, big: bool, stringSize: nat)
    requires AllHaveValues(vs)
    ensures |AllSerialized(vs, big)| == AllWidths(vs, true, stringSize) + AllStringErrors(vs, stringSize)
    decreases vs
  {
    if vs != [] {
      if vs[0].send { WidthIsBytesSent(vs[0], big, stringSize); }
      RequestSizeIsBytesSent(vs[1..], big, stringSize);
    }
  }

  lemma {:induction false} WidthIsBytesSent(v: Var, big: bool, stringSize: nat)
    requires HasValues(v)
    ensures |Serialized(v, big)| == Width(v, true, stringSize) + StringError(v, stringSize)
    decreases v
  {
    if NumberWidth(v.ty) == 0 && !IsText(v.ty) { RequestSizeIsBytesSent(v.kids, big, stringSize); }
  }

  predicate NoText(v: Var)
    decreases v
  {
    !IsText(v.ty) && AllNoText(v.kids)
  }

  predicate AllNoText(vs: seq<Var>)
    decreases vs
  {
    vs == [] || (NoText(vs[0]) && AllNoText(vs[1..]))
  }

  /** For trees of fixed-width scalars the estimate is exact under any marking. */
  lemma {:induction false} RequestSizeIsExact(vs: seq<Var>, big: bool, stringSize: nat)
    requires AllHaveValues(vs) && AllNoText(vs)
    ensures AllWidths(vs, true, stringSize) == |AllSerialized(vs, big)|
  {
    RequestSizeIsBytesSent(vs, big, stringSize);
    NoTextNoError(vs, stringSize);
  }

  lemma {:induction false} NoTextNoError(vs: seq<Var>, stringSize: nat)
    requires AllHaveValues(vs) && AllNoText(vs)
    ensures AllStringErrors(vs, stringSize) == 0
    decreases vs
  {
    if vs != [] {
      if NumberWidth(vs[0].ty) == 0 { NoTextNoError(vs[0].kids, stringSize); }
      NoTextNoError(vs[1..], stringSize);
    }
  }
}
