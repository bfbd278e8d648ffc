/** What a document declares, read off its elements: the variables are those of its variable elements, each with the
    variables, dimensions and attributes of the elements in it, all in document order. That is what an accepted parse
    has built. */
module DdxDeclared {
  import opened Wrappers
  import opened Text
  import opened Types
  import opened Attributes
  import opened Variables
  import opened DdxPrinter
  import opened DdxMachine
  import opened DdxGrammar
  import opened DdxMeaning

  predicate IsVariable(n: Node) {
    n.Element? && (n.tag.TypeTag? || n.tag.MapTag?)
  }

  predicate IsAttribute(n: Node) {
    n.Element? && (n.tag.AttributeTag? || n.tag.AliasTag?)
  }

  function TypeOf(n: Node): Type
    requires IsVariable(n)
  {
    if n.tag.MapTag? then ArrayType else n.tag.ty
  }

  // ---------------------------------------------------------------------------------------------
  // What is declared
  // ---------------------------------------------------------------------------------------------

  /** The attribute elements among some nodes. */
  function AttributesOf(ns: seq<Node>): seq<Node> {
    if ns == [] then [] else (if IsAttribute(ns[0]) then [ns[0]] else []) + AttributesOf(ns[1..])
  }

  /** The table that they fill by themselves; None if two of them clash. */
  function TableOf(ns: seq<Node>): Option<Table> {
    match MeaningOfAll(AttributesOf(ns), "", Here(NewVar(NullType, ""), [], "", "", ""))
    case Some(h) => Some(h.t)
    case None => None
  }

  function DimensionsDeclared(ns: seq<Node>): seq<Dimension> {
    if ns == [] then []
    else
      (if ns[0].Element? && ns[0].tag.DimensionTag? then
         [NewDimension(Atoi(Lookup(ns[0].attrs, SizeKey)), Www2id(Lookup(ns[0].attrs, NameKey), 0))]
       else []) + DimensionsDeclared(ns[1..])
  }

  /** The name an array has after its templates: that of the last one that has a name. */
  function ArrayName(name: string, templates: seq<Var>): string {
    if templates == [] then name
    else
      var last := templates[|templates| - 1];
      if last.name != "" then Www2id(last.name, 0) else ArrayName(name, templates[..|templates| - 1])
  }

  /** The template is the one last given, by the name of the array. */
  function Template(name: string, templates: seq<Var>): seq<Var> {
    if templates == [] then []
    else
      var last := templates[|templates| - 1];
      [last.(name := Www2id(if last.name != "" then last.name else ArrayName(name, templates[..|templates| - 1]), 0))]
  }

  /** The variable that an element declares. */
  function VarOf(n: Node): Var
    requires IsVariable(n)
    decreases n, 0
  {
    var name, attrs := Lookup(n.attrs, NameKey), TableOf(n.content);
    var v := NewVar(TypeOf(n), name).(attrs := if attrs.Some? then attrs.value else [], dims := DimensionsDeclared(n.content));
    if TypeOf(n) == ArrayType then v.(name := ArrayName(name, VarsOf(n.content)), kids := Template(name, VarsOf(n.content)))
    else v.(kids := VarsOf(n.content))
  }

  /** The variables that some elements declare, in order. */
  function VarsOf(ns: seq<Node>): seq<Var>
    decreases ns
  {
    if ns == [] then [] else (if IsVariable(ns[0]) then [VarOf(ns[0])] else []) + VarsOf(ns[1..])
  }

  /** Do no two attributes clash, in any of the tables, and does every alias name a container? */
  predicate Unclashing(ns: seq<Node>)
    decreases ns
  {
    TableOf(ns).Some? && AllUnclashing(ns)
  }

  predicate AllUnclashing(ns: seq<Node>)
    decreases ns, 0
  {
    ns == [] || ((IsVariable(ns[0]) ==> Unclashing(ns[0].content)) && AllUnclashing(ns[1..]))
  }

  // ---------------------------------------------------------------------------------------------
  // Attributes by themselves
  // ---------------------------------------------------------------------------------------------

  /** Two places whose attributes are in the same state. */
  predicate SameAttributes(h: Here, g: Here) {
    h.t == g.t && h.name == g.name && h.ty == g.ty
  }

  /** What two places become: alike, and nothing else has changed. */
  predicate Alike(h: Here, r: Option<Here>, g: Here, q: Option<Here>) {
    (r.Some? <==> q.Some?) &&
    (r.Some? ==> SameAttributes(r.value, q.value) && OnlyAttributes(h, r.value) && OnlyAttributes(g, q.value))
  }

  predicate OnlyAttributes(h: Here, r: Here) {
    r.v == h.v && r.href == h.href
  }

  predicate HoldsAttributes(m: Model) {
    m.OfContainer? || m.OfAttribute?
  }

  /** Within an attribute only the state of the attributes matters. */
  lemma {:induction false} AttributeContent(ns: seq<Node>, m: Model, own: string, h: Here, g: Here)
    requires HoldsAttributes(m) && AllFit(m, ns) && SameAttributes(h, g)
    ensures Alike(h, MeaningOfAll(ns, own, h), g, MeaningOfAll(ns, own, g))
    decreases ns, 1
  {
    if ns != [] {
      AttributePart(ns[0], m, own, h, g);
      var r, q := Meaning(ns[0], own, h), Meaning(ns[0], own, g);
      if r.Some? { AttributeContent(ns[1..], m, own, r.value, q.value); }
    }
  }

  lemma {:induction false} AttributePart(n: Node, m: Model, own: string, h: Here, g: Here)
    requires HoldsAttributes(m) && Fits(m, n) && SameAttributes(h, g)
    ensures Alike(h, Meaning(n, own, h), g, Meaning(n, own, g))
    decreases n, 0
  {
    if n.Element? && n.tag.AttributeTag? {
      var name, ty := Lookup(n.attrs, NameKey), Lookup(n.attrs, TypeKey);
      if ty == "Container" {
        AttributeContent(n.content, OfContainer, DecodeSpaces(name), h.(t := []), g.(t := []));
      } else if ty != "OtherXML" {
        AttributeContent(n.content, OfAttribute, own, h.(name := name, ty := ty), g.(name := name, ty := ty));
      }
    }
  }

  /** What two places with the same table become: their tables are the same again. */
  predicate AlikeInTable(h: Here, r: Option<Here>, g: Here, q: Option<Here>) {
    (r.Some? <==> q.Some?) &&
    (r.Some? ==> r.value.t == q.value.t && OnlyAttributes(h, r.value) && OnlyAttributes(g, q.value))
  }

  /** An attribute element begins afresh: it matters only what the table is. */
  lemma {:induction false} AttributeAlone(n: Node, m: Model, own: string, h: Here, g: Here)
    requires IsAttribute(n) && Fits(m, n) && !m.OfMarkup? && h.t == g.t
    ensures AlikeInTable(h, Meaning(n, own, h), g, Meaning(n, own, g))
    decreases n, 0
  {
    if n.tag.AttributeTag? {
      var name, ty := Lookup(n.attrs, NameKey), Lookup(n.attrs, TypeKey);
      if ty == "Container" {
        AttributesAlone(n.content, OfContainer, DecodeSpaces(name), h.(t := []), g.(t := []));
      } else if ty != "OtherXML" {
        AttributeContent(n.content, OfAttribute, own, h.(name := name, ty := ty), g.(name := name, ty := ty));
      }
    }
  }

  lemma {:induction false} AttributesAlone(ns: seq<Node>, m: Model, own: string, h: Here, g: Here)
    requires m.OfContainer? && AllFit(m, ns) && h.t == g.t
    ensures AlikeInTable(h, MeaningOfAll(ns, own, h), g, MeaningOfAll(ns, own, g))
    decreases ns, 1
  {
    if ns != [] {
      if ns[0].Element? { AttributeAlone(ns[0], m, own, h, g); }
      var r, q := Meaning(ns[0], own, h), Meaning(ns[0], own, g);
      if r.Some? { AttributesAlone(ns[1..], m, own, r.value, q.value); }
    }
  }

  lemma {:induction false} AttributesFit(ns: seq<Node>, m: Model)
    requires AllFit(m, ns) && !m.OfMarkup?
    ensures AllFit(OfContainer, AttributesOf(ns))
  {
    if ns != [] {
      AttributesFit(ns[1..], m);
      if IsAttribute(ns[0]) {
        FitsElement(m, ns[0]);
        assert Fits(OfContainer, ns[0]);
        assert AttributesOf(ns)[1..] == AttributesOf(ns[1..]);
      } else {
        assert AttributesOf(ns) == AttributesOf(ns[1..]);
      }
    }
  }

  // ---------------------------------------------------------------------------------------------
  // Variables by themselves
  // ---------------------------------------------------------------------------------------------

  /** A variable with what the elements in it declare. */
  function Grown(v: Var, ns: seq<Node>): Var {
    var vs, dims := VarsOf(ns), v.dims + DimensionsDeclared(ns);
    if v.ty == ArrayType then
      v.(name := ArrayName(v.name, vs), kids := if vs == [] then v.kids else Template(v.name, vs), dims := dims)
    else v.(kids := v.kids + vs, dims := dims)
  }

  lemma {:induction false} FirstTemplate(name: string, w: Var, rest: seq<Var>)
    ensures ArrayName(ArrayName(name, [w]), rest) == ArrayName(name, [w] + rest)
    decreases |rest|
  {
    assert [w][..0] == [];
    if rest == [] {
      assert [w] + rest == [w];
    } else {
      var vs, front := [w] + rest, rest[..|rest| - 1];
      assert vs[|vs| - 1] == rest[|rest| - 1] && vs[..|vs| - 1] == [w] + front;
      FirstTemplate(name, w, front);
    }
  }

  lemma LaterTemplate(name: string, w: Var, rest: seq<Var>)
    requires rest != []
    ensures Template(ArrayName(name, [w]), rest) == Template(name, [w] + rest)
  {
    var vs, front := [w] + rest, rest[..|rest| - 1];
    assert vs[|vs| - 1] == rest[|rest| - 1] && vs[..|vs| - 1] == [w] + front;
    FirstTemplate(name, w, front);
  }

  /** Is the variable of the kind that such elements are in? */
  predicate Suited(m: Model, v: Var) {
    match m
    case OfDataset => v.ty.Structure?
    case OfRecord => v.ty.Structure? || v.ty.Sequence?
    case OfGrid => v.ty.Grid?
    case OfArray => v.ty.ArrayType?
    case OfMap => v.ty.ArrayType?
    case OfScalar => IsSimple(v.ty)
    case _ => false
  }

  /** A variable element adds its variable to the one it is in. */
  lemma OneMoreVariable(m: Model, v: Var, n: Node, rest: seq<Node>)
    requires Suited(m, v) && IsVariable(n) && Fits(m, n)
    ensures var r := AddVar(v, VarOf(n));
      r.Some? && Suited(m, r.value) && Grown(r.value, rest) == Grown(v, [n] + rest)
  {
    FitsElement(m, n);
    var w, vs := VarOf(n), VarsOf(rest);
    assert ([n] + rest)[1..] == rest;
    assert VarsOf([n] + rest) == [w] + vs;
    assert DimensionsDeclared([n] + rest) == [] + DimensionsDeclared(rest) == DimensionsDeclared(rest);
    if v.ty == ArrayType {
      assert w.ty != ArrayType;
      assert [w][..0] == [];
      FirstTemplate(v.name, w, vs);
      if vs != [] { LaterTemplate(v.name, w, vs); } else { assert [w] + vs == [w]; }
    } else {
      assert v.ty.Grid? ==> w.ty == ArrayType;
      assert (v.kids + [w]) + vs == v.kids + ([w] + vs);
    }
  }

  lemma FirstDimension(n: Node, rest: seq<Node>)
    ensures DimensionsDeclared([n] + rest) == DimensionsDeclared([n]) + DimensionsDeclared(rest)
  {
    assert ([n] + rest)[1..] == rest && [n][1..] == [];
    var d := if n.Element? && n.tag.DimensionTag? then
      [NewDimension(Atoi(Lookup(n.attrs, SizeKey)), Www2id(Lookup(n.attrs, NameKey), 0))] else [];
    assert DimensionsDeclared([n]) == d + [] == d;
  }

  /** Anything else adds no variable. */
  lemma NoMoreVariables(v: Var, n: Node, rest: seq<Node>)
    requires !IsVariable(n)
    ensures Grown(v, [n] + rest) == Grown(v.(dims := v.dims + DimensionsDeclared([n])), rest)
  {
    assert ([n] + rest)[1..] == rest;
    assert VarsOf([n] + rest) == [] + VarsOf(rest) == VarsOf(rest);
    FirstDimension(n, rest);
    var d, more := DimensionsDeclared([n]), DimensionsDeclared(rest);
    assert (v.dims + d) + more == v.dims + (d + more);
  }

  /** The table of the attribute elements, begun with that table. */
  function TableAfter(ns: seq<Node>, t: Table): Option<Table> {
    match MeaningOfAll(AttributesOf(ns), "", Here(NewVar(NullType, ""), t, "", "", ""))
    case Some(h) => Some(h.t)
    case None => None
  }

  lemma FirstAttribute(ns: seq<Node>, m: Model, h: Here)
    requires ns != [] && AllFit(m, ns) && !m.OfMarkup?
    ensures TableAfter(ns, h.t) ==
      if !IsAttribute(ns[0]) then TableAfter(ns[1..], h.t)
      else match Meaning(ns[0], "", h) case Some(r) => TableAfter(ns[1..], r.t) case None => None
    ensures IsAttribute(ns[0]) && Meaning(ns[0], "", h).Some? ==> OnlyAttributes(h, Meaning(ns[0], "", h).value)
  {
    var rest, g := AttributesOf(ns[1..]), Here(NewVar(NullType, ""), h.t, "", "", "");
    if IsAttribute(ns[0]) {
      assert AttributesOf(ns) == [ns[0]] + rest && ([ns[0]] + rest)[1..] == rest;
      AttributeAlone(ns[0], m, "", h, g);
      AttributesFit(ns[1..], m);
      var q := Meaning(ns[0], "", g);
      if q.Some? { AttributesAlone(rest, OfContainer, "", q.value, g.(t := q.value.t)); }
    } else {
      assert AttributesOf(ns) == rest;
    }
  }

  predicate Declares(ns: seq<Node>, h: Here, r: Option<Here>) {
    (r.Some? <==> TableAfter(ns, h.t).Some? && AllUnclashing(ns)) &&
    (r.Some? ==> Some(r.value.t) == TableAfter(ns, h.t) && r.value.v == Grown(h.v, ns))
  }

  /** What some elements make of the variable and the table they are in is what they declare. */
  lemma {:induction false} ContentDeclares(ns: seq<Node>, m: Model, h: Here)
    requires AllFit(m, ns) && Suited(m, h.v)
    ensures Declares(ns, h, MeaningOfAll(ns, "", h))
    decreases ns, 1
  {
    if ns == [] {
      assert h.v.kids + [] == h.v.kids && h.v.dims + [] == h.v.dims;
    } else {
      var n, rest := ns[0], ns[1..];
      assert ns == [n] + rest;
      FirstAttribute(ns, m, h);
      if IsVariable(n) {
        VariableDeclares(n, m, h);
        OneMoreVariable(m, h.v, n, rest);
      } else {
        OtherDeclares(n, m, h);
        NoMoreVariables(h.v, n, rest);
      }
      var r := Meaning(n, "", h);
      if r.Some? { ContentDeclares(rest, m, r.value); }
    }
  }

  lemma OtherDeclares(n: Node, m: Model, h: Here)
    requires Fits(m, n) && !IsVariable(n) && Suited(m, h.v)
    ensures var r := Meaning(n, "", h);
      (!IsAttribute(n) ==> r.Some? && r.value.t == h.t) &&
      (r.Some? ==> r.value.v == h.v.(dims := h.v.dims + DimensionsDeclared([n])))
  {
    assert [n][1..] == [] && DimensionsDeclared([]) == [];
    assert h.v.dims + [] == h.v.dims;
    if n.Element? {
      FitsElement(m, n);
      if IsAttribute(n) { AttributeAlone(n, m, "", h, h); }
    }
  }

  lemma {:induction false} VariableDeclares(n: Node, m: Model, h: Here)
    requires Fits(m, n) && IsVariable(n) && Suited(m, h.v)
    ensures var r, w := Meaning(n, "", h), AddVar(h.v, VarOf(n));
      (r.Some? <==> Unclashing(n.content)) && (r.Some? ==> r.value.t == h.t && Some(r.value.v) == w)
    decreases n, 0
  {
    FitsElement(m, n);
    var name := Lookup(n.attrs, NameKey);
    var g := h.(v := NewVar(TypeOf(n), name), t := []);
    ContentDeclares(n.content, ContentModel(n.tag, n.attrs), g);
    assert TableAfter(n.content, []) == TableOf(n.content);
    var r := MeaningOfAll(n.content, "", g);
    if r.Some? {
      FinishedIsDeclared(n, g.v);
      assert r.value.v.(attrs := r.value.t) == VarOf(n);
    }
    OneMoreVariable(m, h.v, n, []);
  }

  lemma FinishedIsDeclared(n: Node, v: Var)
    requires IsVariable(n) && v == NewVar(TypeOf(n), Lookup(n.attrs, NameKey)) && TableOf(n.content).Some?
    ensures Grown(v, n.content).(attrs := TableOf(n.content).value) == VarOf(n)
  {
    assert [] + DimensionsDeclared(n.content) == DimensionsDeclared(n.content);
    assert [] + VarsOf(n.content) == VarsOf(n.content);
    if VarsOf(n.content) == [] { assert Template(v.name, []) == []; }
  }

  // ---------------------------------------------------------------------------------------------
  // Whole documents
  // ---------------------------------------------------------------------------------------------

  /** A document in the grammar is accepted exactly when none of its attributes clash and its aliases name containers;
      and then the parse has built the dataset of the document's name, its attributes and the variables it declares:
      every one of them, in order, with all that is declared in it. */
  lemma AcceptedIsDeclared(root: Node)
    requires root.Element? && Fits(OfDocument, root)
    ensures AcceptsDocument(Flatten(root)) <==> Unclashing(root.content)
    ensures AcceptsDocument(Flatten(root)) ==>
      Result(Run(Initial(), Flatten(root))) ==
      Dataset(Lookup(root.attrs, NameKey), TableOf(root.content).value, VarsOf(root.content))
  {
    FitsElement(OfDocument, root);
    AcceptedMeaning(root);
    var h := Here(NewVar(Structure, "dummy_dds"), [], "", "", "");
    ContentDeclares(root.content, OfDataset, h);
    assert TableAfter(root.content, []) == TableOf(root.content);
    assert [] + VarsOf(root.content) == VarsOf(root.content);
  }

  predicate IsBlob(n: Node) {
    n.Element? && (n.tag.BlobTag? || n.tag.DataBlobTag?)
  }

  /** The reference of the last blob element. */
  function HrefOf(ns: seq<Node>, before: string): string {
    if ns == [] then before
    else
      var last := ns[|ns| - 1];
      if IsBlob(last) then Lookup(last.attrs, HrefKey) else HrefOf(ns[..|ns| - 1], before)
  }

  lemma {:induction false} FirstHref(ns: seq<Node>, before: string)
    requires ns != []
    ensures HrefOf(ns, before) == HrefOf(ns[1..], if IsBlob(ns[0]) then Lookup(ns[0].attrs, HrefKey) else before)
    decreases |ns|
  {
    if |ns| > 1 {
      assert ns[1..][..|ns| - 2] == ns[..|ns| - 1][1..] && ns[1..][|ns| - 2] == ns[|ns| - 1];
      FirstHref(ns[..|ns| - 1], before);
    } else {
      assert ns[..0] == [] && ns[1..] == [];
    }
  }

  lemma {:induction false} NoHref(ns: seq<Node>, before: string)
    requires forall i :: 0 <= i < |ns| ==> !IsBlob(ns[i])
    ensures HrefOf(ns, before) == before
  {
    if ns != [] { NoHref(ns[..|ns| - 1], before); }
  }

  lemma {:induction false} ContentRefers(ns: seq<Node>, m: Model, h: Here)
    requires AllFit(m, ns) && Suited(m, h.v) && MeaningOfAll(ns, "", h).Some?
    ensures MeaningOfAll(ns, "", h).value.href == HrefOf(ns, h.href)
    decreases ns, 1
  {
    if ns != [] {
      NodeRefers(ns[0], m, h);
      FirstHref(ns, h.href);
      StaysSuited(ns[0], m, h);
      ContentRefers(ns[1..], m, Meaning(ns[0], "", h).value);
    }
  }

  lemma StaysSuited(n: Node, m: Model, h: Here)
    requires Fits(m, n) && Suited(m, h.v) && Meaning(n, "", h).Some?
    ensures Suited(m, Meaning(n, "", h).value.v)
  {
    if IsVariable(n) {
      VariableDeclares(n, m, h);
      OneMoreVariable(m, h.v, n, []);
    } else {
      OtherDeclares(n, m, h);
    }
  }

  lemma {:induction false} NodeRefers(n: Node, m: Model, h: Here)
    requires Fits(m, n) && Suited(m, h.v) && Meaning(n, "", h).Some?
    ensures Meaning(n, "", h).value.href == if IsBlob(n) then Lookup(n.attrs, HrefKey) else h.href
    decreases n, 0
  {
    if n.Element? { FitsElement(m, n); }
    if IsVariable(n) {
      var model, g := ContentModel(n.tag, n.attrs), h.(v := NewVar(TypeOf(n), Lookup(n.attrs, NameKey)), t := []);
      ContentRefers(n.content, model, g);
      BlobsAreOutside(n.content, model);
      NoHref(n.content, g.href);
    } else if IsAttribute(n) {
      AttributeAlone(n, m, "", h, h);
    }
  }

  /** There are no blob elements in a variable. */
  lemma {:induction false} BlobsAreOutside(ns: seq<Node>, m: Model)
    requires AllFit(m, ns) && !m.OfDataset? && !m.OfMarkup?
    ensures forall i :: 0 <= i < |ns| ==> !IsBlob(ns[i])
  {
    if ns != [] {
      BlobsAreOutside(ns[1..], m);
      if ns[0].Element? { FitsElement(m, ns[0]); }
      assert forall i :: 0 < i < |ns| ==> ns[i] == ns[1..][i - 1];
    }
  }

  /** With the dataset the parse has read the version of the protocol that the root element states, and the reference
      of the last blob element. */
  lemma HeaderIsRead(root: Node)
    requires root.Element? && Fits(OfDocument, root) && AcceptsDocument(Flatten(root))
    ensures var q := Run(Initial(), Flatten(root));
      q.dapVersion == Lookup(root.attrs, DapVersionKey) && q.blobHref == HrefOf(root.content, "")
  {
    FitsElement(OfDocument, root);
    AcceptedMeaning(root);
    RootMeans(root);
    ContentRefers(root.content, OfDataset, Here(NewVar(Structure, "dummy_dds"), [], "", "", ""));
  }

  /** An array given to an array: it brings its dimensions, behind those that are there, and its template. A document in
      the grammar has none. */
  lemma ArrayJoinsArray(parent: Var, v: Var, t: Var)
    requires parent.ty == ArrayType && v.ty == ArrayType && v.kids == [t] && t.name != ""
    ensures var r, name := AddVar(parent, v), Www2id(t.name, 0);
      r.Some? && r.value.name == name && r.value.kids == [t.(name := name)] &&
      |r.value.dims| == |parent.dims| + |v.dims| && r.value.dims[..|parent.dims|] == parent.dims &&
      forall i :: 0 <= i < |v.dims| ==>
        r.value.dims[|parent.dims| + i] == NewDimension(v.dims[i].size, Www2id(v.dims[i].name, 0))
  {}

  /** The parts of a Grid, the fields of a Structure or a Sequence: one for each variable element, in order. */
  lemma {:induction false} OneForEach(ns: seq<Node>, i: nat)
    requires i < |ns| && IsVariable(ns[i])
    ensures var k := |VarsOf(ns[..i])|; k < |VarsOf(ns)| && VarsOf(ns)[k] == VarOf(ns[i])
    decreases |ns|
  {
    if i == 0 {
      assert ns[..0] == [];
    } else {
      OneForEach(ns[1..], i - 1);
      assert ns[..i] == [ns[0]] + ns[1..][..i - 1] && ns[..i][1..] == ns[1..][..i - 1];
    }
  }

  lemma {:induction false} NoOthers(ns: seq<Node>)
    ensures |VarsOf(ns)| == Count(ns)
  {
    if ns != [] { NoOthers(ns[1..]); }
  }

  function Count(ns: seq<Node>): nat {
    if ns == [] then 0 else (if IsVariable(ns[0]) then 1 else 0) + Count(ns[1..])
  }
}
