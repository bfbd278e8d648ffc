/** Describing a dataset in XML: the elements that the dataset, its variables and their attribute
    tables write, one after the other. */
module DdxPrinter {
  import opened Text
  import opened Types
  import opened Attributes
  import opened Variables

  /** What an XML writer is told to write. A Leaf is a value element with its text; Raw is text that is
      written without escaping, markup included. */
  datatype Token =
    | Open(tag: Tag, attrs: map<Key, string>)
    | Close(tag: Tag)
    | Leaf(text: string)
    | Raw(text: string)

  datatype Version = Dap2 | Dap32

  datatype Dataset = Dataset(name: string, attrs: Table, vars: seq<Var>)

  function PrintTable(t: Table): seq<Token> {
    if t == [] then [] else PrintEntry(t[0]) + PrintTable(t[1..])
  }

  function PrintEntry(e: Entry): seq<Token>
    decreases e, 1
  {
    if e.Alias? then [Open(AliasTag, map[NameKey := e.name, CapitalAliasKey := e.source]), Close(AliasTag)] else
    [Open(AttributeTag, map[NameKey := e.name, TypeKey := AttrTypeName(TypeOfEntry(e))])] +
    PrintContent(e) +
    [Close(AttributeTag)]
  }

  /** What stands within the element of an attribute. */
  function PrintContent(e: Entry): seq<Token>
    decreases e, 0
  {
    match e
    case Container(_, entries) => PrintTable(entries)
    case Plain(_, ty, values) =>
      if ty == AttrOtherXml then (if values == [] then [] else [Raw(values[0])]) else PrintValues(values)
    case Alias(_, _, _) => []
  }

  function PrintValues(values: seq<string>): seq<Token> {
    if values == [] then [] else [Leaf(values[0])] + PrintValues(values[1..])
  }

  function NameAttr(name: string): map<Key, string> {
    if name == "" then map[] else map[NameKey := name]
  }

  function PrintDimension(d: Dimension, constrained: bool): seq<Token> {
    [Open(DimensionTag, NameAttr(d.name)[SizeKey := Decimal(if constrained then d.cSize else d.size)]),
     Close(DimensionTag)]
  }

  function PrintDimensions(ds: seq<Dimension>, constrained: bool): seq<Token> {
    if ds == [] then [] else PrintDimension(ds[0], constrained) + PrintDimensions(ds[1..], constrained)
  }

  /** print_xml_writer of a leaf, a constructor or an array. An array blanks the name of its element
      template while it prints it. */
  function PrintVar(v: Var, template: bool, constrained: bool): seq<Token> {
    if constrained && !v.send then [] else
    [Open(TypeTag(v.ty), NameAttr(if template then "" else v.name))] +
    PrintTable(v.attrs) +
    PrintVars(v.kids, v.ty == ArrayType, constrained) +
    (if v.ty == ArrayType then PrintDimensions(v.dims, constrained) else []) +
    [Close(TypeTag(v.ty))]
  }

  function PrintVars(vs: seq<Var>, template: bool, constrained: bool): seq<Token> {
    if vs == [] then [] else PrintVar(vs[0], template, constrained) + PrintVars(vs[1..], template, constrained)
  }

  /** The element that refers to the data: a fixed empty reference before DAP 3.2, a content id since. */
  function PrintBlob(version: Version, blob: string): seq<Token> {
    match version
    case Dap2 => [Open(DataBlobTag, map[HrefKey := ""]), Close(DataBlobTag)]
    case Dap32 => [Open(BlobTag, map[HrefKey := "cid:" + blob]), Close(BlobTag)]
  }

  function BlobReference(version: Version, blob: string): string {
    if version == Dap2 then "" else "cid:" + blob
  }

  function DatasetAttrs(name: string, version: Version): map<Key, string> {
    if version == Dap2 then map[NameKey := name] else map[NameKey := name, DapVersionKey := "3.2"]
  }

  function PrintDataset(d: Dataset, version: Version, blob: string, constrained: bool): seq<Token> {
    [Open(DatasetTag, DatasetAttrs(d.name, version))] +
    PrintTable(d.attrs) +
    PrintVars(d.vars, false, constrained) +
    PrintBlob(version, blob) +
    [Close(DatasetTag)]
  }

  /** The walk that checks send_p at every variable writes what an unconditional walk over the declarative
      projection writes. */
  lemma {:induction false} ConstrainedPrintIsProjection(v: Var, template: bool)
    requires v.send
    ensures PrintVar(v, template, true) == PrintVar(Projection(v), template, false)
  {
    ConstrainedPrintsAreProjections(v.kids, v.ty == ArrayType);
    ConstrainedSizes(v.dims);
  }

  lemma {:induction false} ConstrainedPrintsAreProjections(vs: seq<Var>, template: bool)
    ensures PrintVars(vs, template, true) == PrintVars(Projections(vs), template, false)
  {
    if vs != [] {
      ConstrainedPrintsAreProjections(vs[1..], template);
      if vs[0].send {
        ConstrainedPrintIsProjection(vs[0], template);
        assert Projections(vs)[1..] == Projections(vs[1..]);
      } else {
        assert Projections(vs) == Projections(vs[1..]);
      }
    }
  }

  lemma {:induction false} ConstrainedSizes(ds: seq<Dimension>)
    ensures PrintDimensions(ds, true) == PrintDimensions(ConstrainedDimensions(ds), false)
  {
    if ds != [] {
      ConstrainedSizes(ds[1..]);
      assert ConstrainedDimensions(ds)[1..] == ConstrainedDimensions(ds[1..]);
    }
  }

  /** Projecting a dataset. */
  function ProjectedDataset(d: Dataset): Dataset {
    Dataset(d.name, d.attrs, Projections(d.vars))
  }

  lemma ConstrainedDatasetIsProjection(d: Dataset, version: Version, blob: string)
    ensures PrintDataset(d, version, blob, true) == PrintDataset(ProjectedDataset(d), version, blob, false)
  {
    ConstrainedPrintsAreProjections(d.vars, false);
  }
}
