/** Printing as it is done: every part of the dataset writes its elements to one XML writer, and an attribute
    that cannot be written stops it. */
module DdxWriter {
  import opened Wrappers
  import opened Text
  import opened Types
  import opened Attributes
  import opened Variables
  import opened DdxPrinter

  /** The writer. It keeps what has been written, in order. */
  class XMLWriter {
    var doc: seq<Token>

    constructor ()
      ensures doc == []
    {
      doc := [];
    }

    method Write(t: Token)
      modifies this
      ensures doc == old(doc) + [t]
    {
      doc := doc + [t];
    }
  }

  /** An OtherXML attribute has to have one value. */
  predicate Printable(t: Table) {
    t == [] || (PrintableEntry(t[0]) && Printable(t[1..]))
  }

  predicate PrintableEntry(e: Entry) {
    match e
    case Container(_, entries) => Printable(entries)
    case Plain(_, ty, values) => ty == AttrOtherXml ==> |values| == 1
    case Alias(_, _, _) => true
  }

  predicate PrintableVar(v: Var, constrained: bool)
    decreases v
  {
    (constrained && !v.send) || (Printable(v.attrs) && PrintableVars(v.kids, constrained))
  }

  predicate PrintableVars(vs: seq<Var>, constrained: bool)
    decreases vs
  {
    vs == [] || (PrintableVar(vs[0], constrained) && PrintableVars(vs[1..], constrained))
  }

  /** AttrTable::print_xml_writer */
  method WriteTable(t: Table, xml: XMLWriter) returns (ok: bool)
    modifies xml
    ensures ok <==> Printable(t)
    ensures ok ==> xml.doc == old(xml.doc) + PrintTable(t)
    decreases t, 1
  {
    var i := 0;
    while i < |t|
      invariant i <= |t| && (Printable(t) <==> Printable(t[i..]))
      invariant xml.doc + PrintTable(t[i..]) == old(xml.doc) + PrintTable(t)
    {
      assert t[i..][1..] == t[i + 1..];
      Associates(xml.doc, PrintEntry(t[i]), PrintTable(t[i + 1..]));
      ok := WriteEntry(t[i], xml);
      if !ok { return; }
      i := i + 1;
    }
    assert xml.doc + [] == xml.doc;
    return true;
  }

  method WriteEntry(e: Entry, xml: XMLWriter) returns (ok: bool)
    modifies xml
    ensures ok <==> PrintableEntry(e)
    ensures ok ==> xml.doc == old(xml.doc) + PrintEntry(e)
    decreases e, 0
  {
    if e.Alias? {
      xml.Write(Open(AliasTag, map[NameKey := e.name, CapitalAliasKey := e.source]));
      xml.Write(Close(AliasTag));
      return true;
    }
    ghost var before := xml.doc;
    var first := Open(AttributeTag, map[NameKey := e.name, TypeKey := AttrTypeName(TypeOfEntry(e))]);
    xml.Write(first);
    if e.Container? {
      ok := WriteTable(e.entries, xml);
    } else {
      ok := WritePlain(e, xml);
    }
    if !ok { return; }
    Associates(before, [first], PrintContent(e));
    Associates(before, [first] + PrintContent(e), [Close(AttributeTag)]);
    xml.Write(Close(AttributeTag));
  }

  method WritePlain(e: Entry, xml: XMLWriter) returns (ok: bool)
    requires e.Plain?
    modifies xml
    ensures ok <==> PrintableEntry(e)
    ensures ok ==> xml.doc == old(xml.doc) + PrintContent(e)
  {
    if e.ty == AttrOtherXml {
      if |e.values| != 1 { return false; }
      xml.Write(Raw(e.values[0]));
    } else {
      WriteValues(e.values, xml);
    }
    return true;
  }

  method WriteValues(values: seq<string>, xml: XMLWriter)
    modifies xml
    ensures xml.doc == old(xml.doc) + PrintValues(values)
  {
    var j := 0;
    while j < |values|
      invariant j <= |values| && xml.doc + PrintValues(values[j..]) == old(xml.doc) + PrintValues(values)
    {
      assert values[j..][1..] == values[j + 1..];
      Associates(xml.doc, [Leaf(values[j])], PrintValues(values[j + 1..]));
      xml.Write(Leaf(values[j]));
      j := j + 1;
    }
  }

  /** The dimensions of an array, under the constraint or in full. */
  method WriteDimensions(ds: seq<Dimension>, constrained: bool, xml: XMLWriter)
    modifies xml
    ensures xml.doc == old(xml.doc) + PrintDimensions(ds, constrained)
  {
    var j := 0;
    while j < |ds|
      invariant j <= |ds| && xml.doc + PrintDimensions(ds[j..], constrained) == old(xml.doc) + PrintDimensions(ds, constrained)
    {
      assert ds[j..][1..] == ds[j + 1..];
      Associates(xml.doc, PrintDimension(ds[j], constrained), PrintDimensions(ds[j + 1..], constrained));
      xml.Write(Open(DimensionTag, NameAttr(ds[j].name)[SizeKey := Decimal(if constrained then ds[j].cSize else ds[j].size)]));
      xml.Write(Close(DimensionTag));
      j := j + 1;
    }
  }

  /** print_xml_writer of a leaf, a constructor or an array. */
  method WriteVar(v: Var, template: bool, constrained: bool, xml: XMLWriter) returns (ok: bool)
    modifies xml
    ensures ok <==> PrintableVar(v, constrained)
    ensures ok ==> xml.doc == old(xml.doc) + PrintVar(v, template, constrained)
    decreases v, 1
  {
    if constrained && !v.send { return true; }
    ghost var before := xml.doc;
    var name := if template then "" else v.name;
    xml.Write(Open(TypeTag(v.ty), NameAttr(name)));
    ok := WriteTable(v.attrs, xml);
    if !ok { return; }
    ok := WriteVars(v.kids, v.ty == ArrayType, constrained, xml);
    if !ok { return; }
    if v.ty == ArrayType { WriteDimensions(v.dims, constrained, xml); }
    xml.Write(Close(TypeTag(v.ty)));
    FiveParts(before, [Open(TypeTag(v.ty), NameAttr(name))], PrintTable(v.attrs),
              PrintVars(v.kids, v.ty == ArrayType, constrained),
              if v.ty == ArrayType then PrintDimensions(v.dims, constrained) else [], [Close(TypeTag(v.ty))]);
  }

  lemma FiveParts(a: seq<Token>, b: seq<Token>, c: seq<Token>, d: seq<Token>, e: seq<Token>, f: seq<Token>)
    ensures a + (b + c + d + e + f) == a + b + c + d + e + f
    ensures e == [] ==> a + b + c + d + f == a + b + c + d + e + f
  {}

  method WriteVars(vs: seq<Var>, template: bool, constrained: bool, xml: XMLWriter) returns (ok: bool)
    modifies xml
    ensures ok <==> PrintableVars(vs, constrained)
    ensures ok ==> xml.doc == old(xml.doc) + PrintVars(vs, template, constrained)
    decreases vs, 0
  {
    var i := 0;
    while i < |vs|
      invariant i <= |vs| && (PrintableVars(vs, constrained) <==> PrintableVars(vs[i..], constrained))
      invariant xml.doc + PrintVars(vs[i..], template, constrained) == old(xml.doc) + PrintVars(vs, template, constrained)
    {
      assert vs[i..][1..] == vs[i + 1..];
      Associates(xml.doc, PrintVar(vs[i], template, constrained), PrintVars(vs[i + 1..], template, constrained));
      ok := WriteVar(vs[i], template, constrained, xml);
      if !ok { return; }
      i := i + 1;
    }
    assert xml.doc + [] == xml.doc;
    return true;
  }

  /** DDS::print_xml_writer for DAP 2 and for DAP 3.2 */
  method WriteDataset(d: Dataset, version: Version, blob: string, constrained: bool) returns (xml: XMLWriter, ok: bool)
    ensures ok <==> Printable(d.attrs) && PrintableVars(d.vars, constrained)
    ensures ok ==> xml.doc == PrintDataset(d, version, blob, constrained)
  {
    var first, last := Open(DatasetTag, DatasetAttrs(d.name, version)), Close(DatasetTag);
    xml := new XMLWriter();
    xml.Write(first);
    ok := WriteTable(d.attrs, xml);
    if !ok { return; }
    ok := WriteVars(d.vars, false, constrained, xml);
    if !ok { return; }
    WriteBlob(version, blob, xml);
    xml.Write(last);
    FiveParts([], [first], PrintTable(d.attrs), PrintVars(d.vars, false, constrained), PrintBlob(version, blob), [last]);
  }

  method WriteBlob(version: Version, blob: string, xml: XMLWriter)
    modifies xml
    ensures xml.doc == old(xml.doc) + PrintBlob(version, blob)
  {
    if version == Dap2 {
      xml.Write(Open(DataBlobTag, map[HrefKey := ""]));
      xml.Write(Close(DataBlobTag));
    } else {
      xml.Write(Open(BlobTag, map[HrefKey := "cid:" + blob]));
      xml.Write(Close(BlobTag));
    }
  }
}
