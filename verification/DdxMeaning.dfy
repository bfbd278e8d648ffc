/** The meaning of a document, part by part: what each element contributes to the variable and the attribute
    table it stands in. The parsing machine with its stacks computes this meaning. */
module DdxMeaning {
  import opened Wrappers
  import opened Text
  import opened Types
  import opened Attributes
  import opened Variables
  import opened DdxPrinter
  import opened DdxMachine
  import opened DdxInvariant
  import opened DdxGrammar

  /** Where an element stands: the variable and the attribute table it is part of, the name and type of the
      attribute that values go to, and the reference to the data. */
  datatype Here = Here(v: Var, t: Table, name: string, ty: string, href: string)

  /** The text of a value. */
  function TextOf(ns: seq<Node>): string {
    if ns == [] then "" else (if ns[0].Text? then ns[0].text else "") + TextOf(ns[1..])
  }

  /** The markup within OtherXML, its names left out. */
  function MarkupOf(n: Node): string {
    match n
    case Element(_, _, _, content) => "<>" + AllMarkup(content) + "</>"
    case Text(text) => text
    case Space(text) => text
    case CdataSection(text) => text
  }

  function AllMarkup(ns: seq<Node>): string {
    if ns == [] then "" else MarkupOf(ns[0]) + AllMarkup(ns[1..])
  }

  function Recorded(h: Here, value: string): Option<Here> {
    match AppendAttr(h.t, h.name, h.ty, value)
    case Some(t) => Some(h.(t := t))
    case None => None
  }

  /** An alias for a container that can be found from there. */
  function Aliased(h: Here, own: string, name: string, source: string): Option<Here> {
    match AttrAlias(OpenTable(own, h.t), name, source)
    case Some(t) => Some(h.(t := t))
    case None => None
  }

  /** What the node makes of where it stands, in a table with that name of its own; None when it clashes with an
      attribute that is there, or is an alias for no container. */
  function Meaning(n: Node, own: string, h: Here): Option<Here>
    decreases n, 1
  {
    if !n.Element? then Some(h) else
    match n.tag
    case AttributeTag => MeaningOfAttribute(n, own, h)
    case AliasTag => Aliased(h, own, Lookup(n.attrs, NameKey), Lookup(n.attrs, AliasKey))
    case ValueTag => Recorded(h, TextOf(n.content))
    case DimensionTag =>
      Some(h.(v := h.v.(dims := h.v.dims +
        [NewDimension(Atoi(Lookup(n.attrs, SizeKey)), Www2id(Lookup(n.attrs, NameKey), 0))])))
    case TypeTag(ty) => MeaningOfVariable(n, ty, own, h)
    case MapTag => MeaningOfVariable(n, ArrayType, own, h)
    case BlobTag => Some(h.(href := Lookup(n.attrs, HrefKey)))
    case DataBlobTag => Some(h.(href := Lookup(n.attrs, HrefKey)))
    case _ => Some(h)
  }

  function MeaningOfAttribute(n: Node, own: string, h: Here): Option<Here>
    requires n.Element?
    decreases n, 0
  {
    var name, ty := Lookup(n.attrs, NameKey), Lookup(n.attrs, TypeKey);
    if ty == "Container" then
      if AppendContainer(h.t, name, []).None? then None
      else
        match MeaningOfAll(n.content, DecodeSpaces(name), h.(t := []))
        case Some(g) => Some(g.(t := h.t + [Container(DecodeSpaces(name), g.t)]))
        case None => None
    else if ty == "OtherXML" then Recorded(h.(name := name, ty := ty), AllMarkup(n.content))
    else MeaningOfAll(n.content, own, h.(name := name, ty := ty))
  }

  /** A variable's element adds the variable, with what its content makes of it, to where it stands. */
  function MeaningOfVariable(n: Node, ty: Type, own: string, h: Here): Option<Here>
    requires n.Element?
    decreases n, 0
  {
    match MeaningOfAll(n.content, "", h.(v := NewVar(ty, Lookup(n.attrs, NameKey)), t := []))
    case Some(g) =>
      (match AddVar(h.v, g.v.(attrs := g.t))
       case Some(v) => Some(g.(v := v, t := h.t))
       case None => None)
    case None => None
  }

  function MeaningOfAll(ns: seq<Node>, own: string, h: Here): Option<Here>
    decreases ns
  {
    if ns == [] then Some(h)
    else
      match Meaning(ns[0], own, h)
      case Some(g) => MeaningOfAll(ns[1..], own, g)
      case None => None
  }

  /** The dataset that a document describes. */
  function MeaningOfDocument(root: Node): Option<Dataset>
    requires root.Element?
  {
    match MeaningOfAll(root.content, "", Here(NewVar(Structure, "dummy_dds"), [], "", "", ""))
    case Some(h) => Some(Dataset(Lookup(root.attrs, NameKey), h.t, h.v.kids))
    case None => None
  }

  // ---------------------------------------------------------------------------------------------
  // The machine at a place
  // ---------------------------------------------------------------------------------------------

  function HereOf(p: Parser): Here {
    Here(TopVar(p.bt), TopTable(p.at).table, p.attrName, p.attrType, p.blobHref)
  }

  /** The name of the table on top. */
  function Own(p: Parser): string {
    TopTable(p.at).name
  }

  /** The machine with another place on top of its stacks. */
  function Put(p: Parser, h: Here): Parser {
    p.(bt := Below(p.bt) + [h.v], at := Below(p.at) + [OpenTable(TopTable(p.at).name, h.t)],
       attrName := h.name, attrType := h.ty, blobHref := h.href)
  }

  /** Between two nodes, outside values and OtherXML. */
  predicate Quiet(p: Parser) {
    Ready(p) && NothingOpen(p) && p.bt != [] && p.at != [] && p.charData == "" && p.otherXml == "" &&
    !Top(p.s).InsideAttributeValue? && !Top(p.s).InsideOtherXml?
  }

  predicate Means(p: Parser, q: Parser, h: Option<Here>) {
    match h
    case Some(h) => q == Put(p, h)
    case None => q.thrown
  }

  lemma PutHere(p: Parser)
    requires p.bt != [] && p.at != []
    ensures Put(p, HereOf(p)) == p
  {
    assert p.bt == Below(p.bt) + [TopVar(p.bt)] && p.at == Below(p.at) + [TopTable(p.at)];
  }

  lemma PutTwice(p: Parser, h: Here, g: Here)
    ensures HereOf(Put(p, h)) == h && Own(Put(p, h)) == Own(p) && Put(Put(p, h), g) == Put(p, g)
  {
    BelowPush(Below(p.bt), h.v);
    BelowPush(Below(p.at), OpenTable(TopTable(p.at).name, h.t));
  }

  /** What fits is tame. */
  lemma {:induction false} FitsIsTame(m: Model, n: Node)
    requires Fits(m, n)
    ensures Tame(n, m.OfMarkup?)
    decreases n
  {
    if n.Element? {
      if m.OfMarkup? { AllFitIsTame(OfMarkup, n.content); } else { AllFitIsTame(ContentModel(n.tag, n.attrs), n.content); }
    }
  }

  lemma {:induction false} AllFitIsTame(m: Model, ns: seq<Node>)
    requires AllFit(m, ns)
    ensures AllTame(ns, m.OfMarkup?)
    decreases ns
  {
    if ns != [] {
      FitsIsTame(m, ns[0]);
      AllFitIsTame(m, ns[1..]);
    }
  }

  // ---------------------------------------------------------------------------------------------
  // Text and markup
  // ---------------------------------------------------------------------------------------------

  /** Text counts within a value only. */
  function WithText(p: Parser, text: string): Parser {
    if Top(p.s).InsideAttributeValue? then p.(charData := p.charData + text) else p
  }

  lemma TextStep(p: Parser, n: Node)
    requires !p.thrown && Fits(OfText, n) && !Top(p.s).InsideOtherXml?
    ensures Run(p, Flatten(n)) == WithText(p, if n.Text? then n.text else "")
  {
    RunOne(p, Flatten(n)[0]);
    assert p.charData + "" == p.charData;
  }

  lemma WithMoreText(p: Parser, a: string, b: string)
    ensures WithText(WithText(p, a), b) == WithText(p, a + b) && WithText(p, "") == p
  {
    assert p.charData + a + b == p.charData + (a + b) && p.charData + "" == p.charData;
  }

  lemma {:induction false} TextRun(p: Parser, ns: seq<Node>)
    requires !p.thrown && AllFit(OfText, ns) && !Top(p.s).InsideOtherXml?
    ensures Run(p, FlattenAll(ns)) == WithText(p, TextOf(ns))
    decreases ns
  {
    if ns == [] {
      WithMoreText(p, "", "");
    } else {
      TextStep(p, ns[0]);
      RunApart(p, Flatten(ns[0]), FlattenAll(ns[1..]));
      TextRun(Run(p, Flatten(ns[0])), ns[1..]);
      WithMoreText(p, if ns[0].Text? then ns[0].text else "", TextOf(ns[1..]));
    }
  }

  lemma {:induction false} MarkupRun(p: Parser, n: Node)
    requires !p.thrown && Fits(OfMarkup, n) && Top(p.s).InsideOtherXml?
    ensures Run(p, Flatten(n)) == p.(otherXml := p.otherXml + MarkupOf(n))
    decreases n
  {
    if n.Element? {
      var q1 := p.(otherXmlDepth := p.otherXmlDepth + 1, otherXml := p.otherXml + "<>");
      assert q1 == StartElement(p, n.tag, n.attrs);
      AllMarkupRun(q1, n.content);
      var q2 := q1.(otherXml := q1.otherXml + AllMarkup(n.content));
      Legs(p, n, q1, q2);
      MarkupEnds(p, n, q2);
    } else {
      RunOne(p, Flatten(n)[0]);
    }
  }

  lemma MarkupEnds(p: Parser, n: Node, q: Parser)
    requires !p.thrown && Top(p.s).InsideOtherXml? && n.Element? && (n.tag.AttributeTag? ==> n.foreign)
    requires q == p.(otherXmlDepth := p.otherXmlDepth + 1, otherXml := p.otherXml + "<>" + AllMarkup(n.content))
    ensures Step(q, End(n.tag, n.foreign)) == p.(otherXml := p.otherXml + MarkupOf(n))
  {
    assert p.otherXml + "<>" + AllMarkup(n.content) + "</>" == p.otherXml + MarkupOf(n);
  }

  lemma {:induction false} AllMarkupRun(p: Parser, ns: seq<Node>)
    requires !p.thrown && AllFit(OfMarkup, ns) && Top(p.s).InsideOtherXml?
    ensures Run(p, FlattenAll(ns)) == p.(otherXml := p.otherXml + AllMarkup(ns))
    decreases ns
  {
    if ns == [] {
      assert p.otherXml + "" == p.otherXml;
    } else {
      MarkupRun(p, ns[0]);
      var q := Run(p, Flatten(ns[0]));
      RunApart(p, Flatten(ns[0]), FlattenAll(ns[1..]));
      AllMarkupRun(q, ns[1..]);
      assert p.otherXml + MarkupOf(ns[0]) + AllMarkup(ns[1..]) == p.otherXml + (MarkupOf(ns[0]) + AllMarkup(ns[1..]));
    }
  }

  // ---------------------------------------------------------------------------------------------
  // Elements
  // ---------------------------------------------------------------------------------------------

  /** The value recorded, once the state has been popped. */
  lemma RecordMeans(p: Parser, value: string)
    requires p.at != [] && p.bt != []
    ensures Means(p, RecordAttr(p, value), Recorded(HereOf(p), value))
  {
    PutHere(p);
  }

  /** A place to stand, with nothing collected so far. */
  predicate Stands(p: Parser) {
    !p.thrown && p.bt != [] && p.at != [] && p.charData == "" && p.otherXml == ""
  }

  /** A start tag that fits is taken for what its tag says. */
  lemma OpensPlainly(p: Parser, n: Node)
    requires Ready(p) && n.Element? && Placed(ModelOf(Top(p.s)), n.tag) && !Top(p.s).InsideOtherXml?
    ensures match n.tag
            case AttributeTag => OpeningOf(Top(p.s), n.tag) == OpensAttribute
            case AliasTag => OpeningOf(Top(p.s), n.tag) == OpensAlias
            case ValueTag => OpeningOf(Top(p.s), n.tag) == OpensValue
            case DimensionTag => OpeningOf(Top(p.s), n.tag) == OpensDimension
            case DatasetTag => OpeningOf(Top(p.s), n.tag) == OpensRoot
            case BlobTag => OpeningOf(Top(p.s), n.tag) == OpensBlob
            case DataBlobTag => OpeningOf(Top(p.s), n.tag) == OpensBlob
            case MapTag => OpeningOf(Top(p.s), n.tag) == OpensVariable(ArrayType, InsideMap)
            case TypeTag(ty) => OpeningOf(Top(p.s), n.tag) == OpensVariable(ty, StateOfType(ty))
            case _ => false
  {
    TopMatches(p);
    NoErrorOnTop(p.s);
    OpeningFollowsGrammar(Top(p.s), n.tag, n.attrs);
  }

  /** The values of an attribute. */
  lemma ValueMeans(p: Parser, n: Node)
    requires Stands(p) && n.Element? && n.tag.ValueTag? && AllFit(OfText, n.content)
    requires StartElement(p, n.tag, n.attrs) == Push(p, InsideAttributeValue)
    ensures Means(p, Run(p, Flatten(n)), Meaning(n, Own(p), HereOf(p)))
  {
    ValueRun(p, n);
    ValueRecorded(p, TextOf(n.content));
  }

  lemma ValueRun(p: Parser, n: Node)
    requires Stands(p) && n.Element? && n.tag.ValueTag? && AllFit(OfText, n.content)
    requires StartElement(p, n.tag, n.attrs) == Push(p, InsideAttributeValue)
    ensures var text := TextOf(n.content);
            Run(p, Flatten(n)) == RecordAttr(p.(charData := text), text).(charData := "")
  {
    var q1 := Push(p, InsideAttributeValue);
    TextRun(q1, n.content);
    assert q1.charData + TextOf(n.content) == TextOf(n.content);
    var q2 := q1.(charData := TextOf(n.content));
    Legs(p, n, q1, q2);
    ValueEnds(p, TextOf(n.content), n.foreign);
  }

  lemma ValueEnds(p: Parser, text: string, foreign: bool)
    requires !p.thrown
    ensures Step(Push(p, InsideAttributeValue).(charData := text), End(ValueTag, foreign)) ==
            RecordAttr(p.(charData := text), text).(charData := "")
  {
    var q := Push(p, InsideAttributeValue).(charData := text);
    BelowPush(p.s, InsideAttributeValue);
    assert PopState(q) == p.(charData := text);
    assert ClosingOf(InsideAttributeValue, ValueTag, foreign) == ClosesValue;
  }

  lemma ValueRecorded(p: Parser, text: string)
    requires Stands(p)
    ensures Means(p, RecordAttr(p.(charData := text), text).(charData := ""), Recorded(HereOf(p), text))
  {
    RecordMeans(p.(charData := text), text);
  }

  /** OtherXML, whose markup is recorded as one value. */
  lemma OtherMeans(p: Parser, n: Node, name: string)
    requires Stands(p) && n.Element? && n.tag.AttributeTag? && AllFit(OfMarkup, n.content) && !n.foreign
    requires StartElement(p, n.tag, n.attrs) == p.(s := p.s + [InsideOtherXml], attrName := name, attrType := "OtherXML")
    ensures Means(p, Run(p, Flatten(n)), Recorded(HereOf(p).(name := name, ty := "OtherXML"), AllMarkup(n.content)))
  {
    var q1 := p.(s := p.s + [InsideOtherXml], attrName := name, attrType := "OtherXML");
    BelowPush(p.s, InsideOtherXml);
    AllMarkupRun(q1, n.content);
    assert q1.otherXml + AllMarkup(n.content) == AllMarkup(n.content);
    var q2 := q1.(otherXml := AllMarkup(n.content));
    Legs(p, n, q1, q2);
    var p' := p.(attrName := name, attrType := "OtherXML");
    assert PopState(q2) == p'.(otherXml := AllMarkup(n.content));
    OtherRecorded(p', AllMarkup(n.content));
  }

  lemma OtherRecorded(p: Parser, text: string)
    requires Stands(p)
    ensures Means(p, RecordAttr(p.(otherXml := text), text).(otherXml := ""), Recorded(HereOf(p), text))
  {
    RecordMeans(p.(otherXml := text), text);
  }

  /** Elements with nothing but text in them. */
  predicate IsPlain(tag: Tag) {
    tag.DimensionTag? || tag.BlobTag? || tag.DataBlobTag?
  }

  lemma PlainOpens(p: Parser, n: Node)
    requires Quiet(p) && n.Element? && IsPlain(n.tag)
    requires Placed(ModelOf(Top(p.s)), n.tag) && HasRequired(ModelOf(Top(p.s)), n.tag, n.attrs)
    ensures Meaning(n, Own(p), HereOf(p)).Some?
    ensures StartElement(p, n.tag, n.attrs) ==
            Put(p, Meaning(n, Own(p), HereOf(p)).value).(s := p.s + [ContentState(n.tag, n.attrs)])
  {
    OpensPlainly(p, n);
    PutHere(p);
    if n.tag.DimensionTag? {
      ArrayOnTop(p);
      DimensionIsPut(p, n.attrs);
    }
  }

  lemma DimensionIsPut(p: Parser, attrs: map<Key, string>)
    requires p.bt != [] && p.at != [] && TopVar(p.bt).ty == ArrayType && SizeKey in attrs
    ensures var h, d := HereOf(p), NewDimension(Atoi(Lookup(attrs, SizeKey)), Www2id(Lookup(attrs, NameKey), 0));
            ProcessDimension(p, attrs) == Put(p, h.(v := h.v.(dims := h.v.dims + [d]))).(s := p.s + [InsideDimension])
  {
    PutHere(p);
  }

  lemma PlainCloses(p: Parser, h: Here, n: Node)
    requires n.Element? && IsPlain(n.tag) && !p.thrown
    ensures var st := ContentState(n.tag, n.attrs);
            Step(Put(p, h).(s := p.s + [st]), End(n.tag, n.foreign)) == Put(p, h)
  {
    BelowPush(p.s, ContentState(n.tag, n.attrs));
    assert ClosingOf(ContentState(n.tag, n.attrs), n.tag, n.foreign) == Leaves;
  }

  lemma PlainMeans(p: Parser, n: Node)
    requires Quiet(p) && n.Element? && IsPlain(n.tag) && AllFit(OfText, n.content)
    requires Placed(ModelOf(Top(p.s)), n.tag) && HasRequired(ModelOf(Top(p.s)), n.tag, n.attrs)
    ensures Means(p, Run(p, Flatten(n)), Meaning(n, Own(p), HereOf(p)))
  {
    PlainOpens(p, n);
    var h := Meaning(n, Own(p), HereOf(p)).value;
    var q := Put(p, h).(s := p.s + [ContentState(n.tag, n.attrs)]);
    BelowPush(p.s, ContentState(n.tag, n.attrs));
    TextRun(q, n.content);
    Legs(p, n, q, q);
    PlainCloses(p, h, n);
  }

  /** An alias, whose start tag does it all. */
  lemma AliasMeans(p: Parser, n: Node)
    requires Quiet(p) && n.Element? && n.tag.AliasTag? && AllFit(OfText, n.content)
    requires Placed(ModelOf(Top(p.s)), n.tag) && HasRequired(ModelOf(Top(p.s)), n.tag, n.attrs)
    ensures Means(p, Run(p, Flatten(n)), Meaning(n, Own(p), HereOf(p)))
  {
    OpensPlainly(p, n);
    AliasIsPut(p, n.attrs);
    var q := StartElement(p, n.tag, n.attrs);
    match Meaning(n, Own(p), HereOf(p))
    case None =>
      Legs(p, n, q, Run(q, FlattenAll(n.content)));
    case Some(h) =>
      BelowPush(p.s, InsideAlias);
      TextRun(q, n.content);
      Legs(p, n, q, q);
      AliasCloses(p, h, n);
  }

  lemma AliasIsPut(p: Parser, attrs: map<Key, string>)
    requires p.bt != [] && p.at != [] && NameKey in attrs && AliasKey in attrs
    ensures match Aliased(HereOf(p), Own(p), Lookup(attrs, NameKey), Lookup(attrs, AliasKey))
            case Some(h) => ProcessAlias(p, attrs) == Put(p, h).(s := p.s + [InsideAlias])
            case None => ProcessAlias(p, attrs).thrown
  {
    PutHere(p);
    assert TopTable(p.at) == OpenTable(Own(p), HereOf(p).t);
  }

  lemma AliasCloses(p: Parser, h: Here, n: Node)
    requires n.Element? && n.tag.AliasTag? && !p.thrown
    ensures Step(Put(p, h).(s := p.s + [InsideAlias]), End(n.tag, n.foreign)) == Put(p, h)
  {
    BelowPush(p.s, InsideAlias);
    assert ClosingOf(InsideAlias, n.tag, n.foreign) == Leaves;
  }

  /** An attribute whose values have been read. */
  lemma ValuesMean(p: Parser, n: Node, name: string, ty: string, q2: Parser, h: Option<Here>)
    requires !p.thrown && n.Element? && n.tag.AttributeTag?
    requires var q1 := p.(s := p.s + [InsideAttribute], attrName := name, attrType := ty);
             q1 == StartElement(p, n.tag, n.attrs) && q2 == Run(q1, FlattenAll(n.content)) && Means(q1, q2, h)
    ensures Means(p, Run(p, Flatten(n)), h)
  {
    var q1 := p.(s := p.s + [InsideAttribute], attrName := name, attrType := ty);
    Legs(p, n, q1, q2);
    if h.Some? && !q2.thrown { AttributeEnds(p, name, ty, h.value, n.foreign); }
  }

  lemma AttributeEnds(p: Parser, name: string, ty: string, h: Here, foreign: bool)
    requires !p.thrown
    ensures var q := Put(p.(s := p.s + [InsideAttribute], attrName := name, attrType := ty), h);
            Step(q, End(AttributeTag, foreign)) == Put(p, h)
  {
    BelowPush(p.s, InsideAttribute);
    assert ClosingOf(InsideAttribute, AttributeTag, foreign) == Leaves;
  }

  /** A container whose attributes have been read. */
  lemma ContainerMeans(p: Parser, n: Node, name: string, q1: Parser, q2: Parser, h: Option<Here>)
    requires Stands(p) && n.Element? && n.tag.AttributeTag?
    requires q1 == StartElement(p, n.tag, n.attrs) && q2 == Run(q1, FlattenAll(n.content)) && Means(q1, q2, h)
    requires q1 == p.(s := p.s + [InsideAttributeContainer], at := p.at + [OpenTable(name, [])])
    ensures Means(p, Run(p, Flatten(n)), match h
                                         case Some(g) => Some(g.(t := HereOf(p).t + [Container(name, g.t)]))
                                         case None => None)
  {
    BelowPush(p.s, InsideAttributeContainer);
    BelowPush(p.at, OpenTable(name, []));
    Legs(p, n, q1, q2);
    if h.Some? && !q2.thrown {
      assert EndElement(q2, n.tag, n.foreign) == CloseContainer(q2);
      ContainerIsPut(p, name, q2, h.value);
    }
  }

  lemma ContainerIsPut(p: Parser, name: string, q: Parser, g: Here)
    requires Stands(p)
    requires q == Put(p.(s := p.s + [InsideAttributeContainer], at := p.at + [OpenTable(name, [])]), g)
    ensures CloseContainer(q) == Put(p, g.(t := HereOf(p).t + [Container(name, g.t)]))
  {
    BelowPush(p.s, InsideAttributeContainer);
    BelowPush(p.at, OpenTable(name, []));
    BelowPush(p.at, OpenTable(name, g.t));
  }

  /** A variable whose content has been read. */
  lemma VariableMeans(p: Parser, n: Node, v: Var, q1: Parser, q2: Parser, h: Option<Here>)
    requires Stands(p) && n.Element? && ((n.tag.TypeTag? && InFactory(n.tag.ty)) || n.tag.MapTag?)
    requires q1 == StartElement(p, n.tag, n.attrs) && q2 == Run(q1, FlattenAll(n.content)) && Means(q1, q2, h)
    requires q1 == p.(s := p.s + [ContentState(n.tag, n.attrs)], bt := p.bt + [v], at := p.at + [OpenTable("", [])])
    requires !q2.thrown ==> Valid(q2) && Finishes(q2, n.tag)
    ensures Means(p, Run(p, Flatten(n)), Given(p, h))
  {
    Legs(p, n, q1, q2);
    if h.Some? && !q2.thrown {
      VariableIsPopped(p, ContentState(n.tag, n.attrs), v, q1, q2, h.value);
      EndTagGives(n, q2);
      ParentTakesVariable(q2);
      GivenMeans(p, q2, h.value);
    }
  }

  /** What the parent makes of a variable that has been read. */
  function Given(p: Parser, h: Option<Here>): Option<Here> {
    match h
    case Some(g) =>
      (match AddVar(HereOf(p).v, g.v.(attrs := g.t))
       case Some(w) => Some(g.(v := w, t := HereOf(p).t))
       case None => None)
    case None => None
  }

  /** The variable on top is one that the end tag can finish. */
  predicate Finishes(q: Parser, tag: Tag) {
    var ty := if tag.TypeTag? then tag.ty else ArrayType;
    Top(q.s) == ContentState(tag, map[]) && (!IsSimple(ty) ==> TopVar(q.bt).ty == ty) &&
    (ty == ArrayType ==> TopVar(q.bt).dims != [])
  }

  lemma EndTagGives(n: Node, q: Parser)
    requires n.Element? && ((n.tag.TypeTag? && InFactory(n.tag.ty)) || n.tag.MapTag?) && Finishes(q, n.tag)
    ensures EndElement(q, n.tag, n.foreign) == GiveToParent(PopVariable(q), FinishedVar(q))
  {
    VariableTagCloses(n.tag, map[], n.foreign);
  }

  lemma VariableIsPopped(p: Parser, st: State, v: Var, q1: Parser, q2: Parser, g: Here)
    requires q1 == p.(s := p.s + [st], bt := p.bt + [v], at := p.at + [OpenTable("", [])]) && q2 == Put(q1, g)
    ensures FinishedVar(q2) == g.v.(attrs := g.t)
    ensures PopVariable(q2) == p.(attrName := g.name, attrType := g.ty, blobHref := g.href)
  {
    BelowPush(p.s, st);
    BelowPush(p.bt, v);
    BelowPush(p.at, OpenTable("", []));
    BelowPush(p.bt, g.v);
    BelowPush(p.at, OpenTable("", g.t));
  }

  lemma GivenMeans(p: Parser, q2: Parser, g: Here)
    requires p.bt != [] && p.at != []
    requires FinishedVar(q2) == g.v.(attrs := g.t)
    requires PopVariable(q2) == p.(attrName := g.name, attrType := g.ty, blobHref := g.href)
    requires var parent := TopVar(p.bt);
             (parent.ty == ArrayType || IsConstructor(parent.ty)) && AddVar(parent, g.v.(attrs := g.t)).Some?
    ensures var v := AddVar(TopVar(p.bt), g.v.(attrs := g.t)).value;
            GiveToParent(PopVariable(q2), FinishedVar(q2)) == Put(p, g.(v := v, t := TopTable(p.at).table))
  {
    assert p.at == Below(p.at) + [TopTable(p.at)];
  }

  // ---------------------------------------------------------------------------------------------
  // The machine computes the meaning
  // ---------------------------------------------------------------------------------------------

  /** What the start tag of a variable does, and then its content. */
  lemma VariableOpened(p: Parser, n: Node, ty: Type)
    requires Quiet(p) && Suits(ModelOf(Top(p.s)), n)
    requires n.tag == TypeTag(ty) || (n.tag.MapTag? && ty == ArrayType)
    ensures var v := NewVar(ty, Lookup(n.attrs, NameKey));
            StartElement(p, n.tag, n.attrs) ==
            p.(s := p.s + [ContentState(n.tag, n.attrs)], bt := p.bt + [v], at := p.at + [OpenTable("", [])])
  {
    OpensPlainly(p, n);
    ArrayOnTop(p);
  }

  /** The start tag of an element that fits leaves the machine ready for the content, unless it throws. */
  lemma OpenedIsQuiet(p: Parser, n: Node)
    requires Quiet(p) && Suits(ModelOf(Top(p.s)), n)
    ensures var q := StartElement(p, n.tag, n.attrs);
            q.thrown || (Ready(q) && ModelOf(Top(q.s)) == ContentModel(n.tag, n.attrs))
  {
    StartFollowsGrammar(p, n.tag, n.attrs);
    StartKeepsValid(p, n.tag, n.attrs);
    var q := StartElement(p, n.tag, n.attrs);
    if !q.thrown { OpenedIsReady(p, q, n.tag, n.attrs); }
  }

  lemma {:induction false} NodeMeans(p: Parser, n: Node)
    requires Quiet(p) && Fits(ModelOf(Top(p.s)), n) && !(n.Element? && n.tag.DatasetTag?)
    ensures Means(p, Run(p, Flatten(n)), Meaning(n, Own(p), HereOf(p)))
    decreases n, 1
  {
    if !n.Element? {
      PutHere(p);
      RunOne(p, Flatten(n)[0]);
    } else {
      FitsElement(ModelOf(Top(p.s)), n);
      if n.tag.AttributeTag? {
        AttributeMeans(p, n);
      } else if n.tag.AliasTag? {
        AliasMeans(p, n);
      } else if n.tag.ValueTag? {
        OpensPlainly(p, n);
        ValueMeans(p, n);
      } else if n.tag.TypeTag? || n.tag.MapTag? {
        ElementOfVariableMeans(p, n, if n.tag.TypeTag? then n.tag.ty else ArrayType);
      } else {
        PlainMeans(p, n);
      }
    }
  }

  /** An element that fits: where it is, in its content and at its end. */
  predicate Suits(m: Model, n: Node) {
    n.Element? && Placed(m, n.tag) && HasRequired(m, n.tag, n.attrs) &&
    AllFit(ContentModel(n.tag, n.attrs), n.content) && EndFits(n.tag, n.attrs, n.foreign, n.content)
  }

  lemma FitsElement(m: Model, n: Node)
    requires Fits(m, n) && n.Element? && !m.OfMarkup?
    ensures Suits(m, n)
    ensures n.tag.AttributeTag? || n.tag.AliasTag? || n.tag.ValueTag? || n.tag.TypeTag? || n.tag.MapTag? ||
            n.tag.DatasetTag? || IsPlain(n.tag)
  {}

  /** What the start tag of an attribute does. */
  lemma AttributeOpened(p: Parser, n: Node)
    requires Quiet(p) && n.Element? && n.tag.AttributeTag?
    requires Placed(ModelOf(Top(p.s)), n.tag) && HasRequired(ModelOf(Top(p.s)), n.tag, n.attrs)
    ensures var q, name, ty := StartElement(p, n.tag, n.attrs), Lookup(n.attrs, NameKey), Lookup(n.attrs, TypeKey);
            if ty == "Container" then
              if AppendContainer(HereOf(p).t, name, []).None? then q.thrown
              else q == p.(s := p.s + [InsideAttributeContainer], at := p.at + [OpenTable(DecodeSpaces(name), [])])
            else q == p.(s := p.s + [if ty == "OtherXML" then InsideOtherXml else InsideAttribute],
                         attrName := name, attrType := ty)
  {
    OpensPlainly(p, n);
  }

  lemma {:induction false} AttributeMeans(p: Parser, n: Node)
    requires Quiet(p) && n.Element? && n.tag.AttributeTag? && Suits(ModelOf(Top(p.s)), n)
    ensures Means(p, Run(p, Flatten(n)), MeaningOfAttribute(n, Own(p), HereOf(p)))
    decreases n, 0
  {
    if Lookup(n.attrs, TypeKey) == "OtherXML" {
      OtherAttributeMeans(p, n);
    } else {
      var q1 := StartElement(p, n.tag, n.attrs);
      if !q1.thrown {
        AttributeIsQuiet(p, n);
        NodesMean(q1, n.content);
      }
      AttributeFromContent(p, n, q1, Run(q1, FlattenAll(n.content)));
    }
  }

  lemma OtherAttributeMeans(p: Parser, n: Node)
    requires Quiet(p) && n.Element? && n.tag.AttributeTag? && Suits(ModelOf(Top(p.s)), n)
    requires Lookup(n.attrs, TypeKey) == "OtherXML"
    ensures Means(p, Run(p, Flatten(n)), MeaningOfAttribute(n, Own(p), HereOf(p)))
  {
    assert "OtherXML"[0] != "Container"[0];
    AttributeOpened(p, n);
    OtherMeans(p, n, Lookup(n.attrs, NameKey));
  }

  lemma AttributeIsQuiet(p: Parser, n: Node)
    requires Quiet(p) && n.Element? && n.tag.AttributeTag? && Suits(ModelOf(Top(p.s)), n)
    requires Lookup(n.attrs, TypeKey) != "OtherXML" && !StartElement(p, n.tag, n.attrs).thrown
    ensures var q := StartElement(p, n.tag, n.attrs); Quiet(q) && ModelOf(Top(q.s)) == ContentModel(n.tag, n.attrs)
  {
    AttributeOpened(p, n);
    OpenedIsQuiet(p, n);
  }

  /** From what the content means to what the attribute means. */
  lemma AttributeFromContent(p: Parser, n: Node, q1: Parser, q2: Parser)
    requires Quiet(p) && n.Element? && n.tag.AttributeTag? && Lookup(n.attrs, TypeKey) != "OtherXML"
    requires Placed(ModelOf(Top(p.s)), n.tag) && HasRequired(ModelOf(Top(p.s)), n.tag, n.attrs)
    requires q1 == StartElement(p, n.tag, n.attrs) && q2 == Run(q1, FlattenAll(n.content))
    requires !q1.thrown ==> Means(q1, q2, MeaningOfAll(n.content, Own(q1), HereOf(q1)))
    ensures Means(p, Run(p, Flatten(n)), MeaningOfAttribute(n, Own(p), HereOf(p)))
  {
    var name, ty := Lookup(n.attrs, NameKey), Lookup(n.attrs, TypeKey);
    AttributeOpened(p, n);
    if q1.thrown {
      Legs(p, n, q1, q2);
    } else if ty == "Container" {
      assert HereOf(q1) == HereOf(p).(t := []);
      ContainerMeans(p, n, DecodeSpaces(name), q1, q2, MeaningOfAll(n.content, Own(q1), HereOf(q1)));
    } else {
      assert HereOf(q1) == HereOf(p).(name := name, ty := ty);
      ValuesMean(p, n, name, ty, q2, MeaningOfAll(n.content, Own(q1), HereOf(q1)));
    }
  }

  lemma {:induction false} ElementOfVariableMeans(p: Parser, n: Node, ty: Type)
    requires Quiet(p) && Suits(ModelOf(Top(p.s)), n)
    requires n.tag == TypeTag(ty) || (n.tag.MapTag? && ty == ArrayType)
    ensures Means(p, Run(p, Flatten(n)), MeaningOfVariable(n, ty, Own(p), HereOf(p)))
    decreases n, 0
  {
    var q1 := StartElement(p, n.tag, n.attrs);
    VariableIsQuiet(p, n, ty);
    NodesMean(q1, n.content);
    VariableFromContent(p, n, ty, q1, Run(q1, FlattenAll(n.content)));
  }

  /** From what the content means to what the variable's element means. */
  lemma VariableFromContent(p: Parser, n: Node, ty: Type, q1: Parser, q2: Parser)
    requires Quiet(p) && Suits(ModelOf(Top(p.s)), n)
    requires n.tag == TypeTag(ty) || (n.tag.MapTag? && ty == ArrayType)
    requires q1 == StartElement(p, n.tag, n.attrs) && q2 == Run(q1, FlattenAll(n.content))
    requires Means(q1, q2, MeaningOfAll(n.content, Own(q1), HereOf(q1)))
    ensures Means(p, Run(p, Flatten(n)), MeaningOfVariable(n, ty, Own(p), HereOf(p)))
  {
    var v, h := NewVar(ty, Lookup(n.attrs, NameKey)), MeaningOfAll(n.content, Own(q1), HereOf(q1));
    VariableContentDone(p, n, ty, q1, q2);
    VariableOpened(p, n, ty);
    HereOfOpened(p, q1, v, ContentState(n.tag, n.attrs));
    VariableMeans(p, n, v, q1, q2, h);
    GivenIsMeaning(p, n, ty, h);
  }

  lemma HereOfOpened(p: Parser, q: Parser, v: Var, st: State)
    requires q == p.(s := p.s + [st], bt := p.bt + [v], at := p.at + [OpenTable("", [])])
    ensures HereOf(q) == HereOf(p).(v := v, t := []) && Own(q) == ""
  {}

  lemma GivenIsMeaning(p: Parser, n: Node, ty: Type, h: Option<Here>)
    requires n.Element?
    requires h == MeaningOfAll(n.content, "", HereOf(p).(v := NewVar(ty, Lookup(n.attrs, NameKey)), t := []))
    ensures Given(p, h) == MeaningOfVariable(n, ty, Own(p), HereOf(p))
  {}

  lemma VariableContentDone(p: Parser, n: Node, ty: Type, q1: Parser, q2: Parser)
    requires Quiet(p) && Suits(ModelOf(Top(p.s)), n)
    requires n.tag == TypeTag(ty) || (n.tag.MapTag? && ty == ArrayType)
    requires q1 == StartElement(p, n.tag, n.attrs) && q2 == Run(q1, FlattenAll(n.content))
    ensures q2.thrown || (Valid(q2) && Finishes(q2, n.tag))
  {
    VariableIsQuiet(p, n, ty);
    ContentKeepsVariable(n, ty, q1, q2);
  }

  lemma VariableIsQuiet(p: Parser, n: Node, ty: Type)
    requires Quiet(p) && Suits(ModelOf(Top(p.s)), n)
    requires n.tag == TypeTag(ty) || (n.tag.MapTag? && ty == ArrayType)
    ensures var q := StartElement(p, n.tag, n.attrs);
            Quiet(q) && ModelOf(Top(q.s)) == ContentModel(n.tag, n.attrs) && TopVar(q.bt).dims == [] &&
            Top(q.s) == ContentState(n.tag, n.attrs) &&
            HereOf(q) == HereOf(p).(v := NewVar(ty, Lookup(n.attrs, NameKey)), t := [])
  {
    VariableOpened(p, n, ty);
    OpenedIsQuiet(p, n);
  }

  /** The content of an element that fits leaves the variable's type, and gives an array its dimensions. */
  lemma ContentKeepsVariable(n: Node, ty: Type, q1: Parser, q2: Parser)
    requires Ready(q1) && NothingOpen(q1) && n.Element? && !Top(q1.s).InsideOtherXml? && q2 == Run(q1, FlattenAll(n.content))
    requires (n.tag == TypeTag(ty) && InFactory(ty)) || (n.tag.MapTag? && ty == ArrayType)
    requires AllFit(ContentModel(n.tag, n.attrs), n.content) && EndFits(n.tag, n.attrs, n.foreign, n.content)
    requires Top(q1.s) == ContentState(n.tag, n.attrs) && TopVar(q1.bt).dims == []
    ensures q2.thrown || (Valid(q2) && Finishes(q2, n.tag))
  {
    ContentIsOfModel(n.tag, n.attrs);
    AllFitIsTame(ContentModel(n.tag, n.attrs), n.content);
    NodesFollowGrammar(q1, n.content);
    if !q2.thrown { TypeOnTop(q2, n.tag, ty); }
  }

  lemma TypeOnTop(q: Parser, tag: Tag, ty: Type)
    requires Valid(q) && Top(q.s) == ContentState(tag, map[])
    requires (tag == TypeTag(ty) && InFactory(ty)) || (tag.MapTag? && ty == ArrayType)
    ensures !IsSimple(ty) ==> TopVar(q.bt).ty == ty
  {
    TopMatches(q);
  }

  lemma {:induction false} NodesMean(p: Parser, ns: seq<Node>)
    requires Quiet(p) && AllFit(ModelOf(Top(p.s)), ns) && !ModelOf(Top(p.s)).OfDocument?
    ensures Means(p, Run(p, FlattenAll(ns)), MeaningOfAll(ns, Own(p), HereOf(p)))
    decreases ns
  {
    if ns == [] {
      PutHere(p);
    } else {
      NodeMeans(p, ns[0]);
      var q := Run(p, Flatten(ns[0]));
      RunApart(p, Flatten(ns[0]), FlattenAll(ns[1..]));
      match Meaning(ns[0], Own(p), HereOf(p))
      case None => ThrownStays(q, FlattenAll(ns[1..]));
      case Some(h) =>
        PutTwice(p, h, h);
        FitsIsTame(ModelOf(Top(p.s)), ns[0]);
        NodeFollowsGrammar(p, ns[0]);
        NodesMean(q, ns[1..]);
        if MeaningOfAll(ns[1..], Own(p), h).Some? { PutTwice(p, h, MeaningOfAll(ns[1..], Own(p), h).value); }
    }
  }

  /** The reference to the data that a document gives. */
  function HrefMeant(root: Node): Option<string>
    requires root.Element?
  {
    match MeaningOfAll(root.content, "", Here(NewVar(Structure, "dummy_dds"), [], "", "", ""))
    case Some(h) => Some(h.href)
    case None => None
  }

  /** Acceptance and result of the machine in terms of the document alone. A document in the grammar is
      accepted exactly when it has a meaning, and what the parse has built is that meaning; and nothing else is
      accepted, but for documents with an Attribute element of their own namespace inside OtherXML. */
  lemma AcceptedMeaning(root: Node)
    requires root.Element?
    ensures Fits(OfDocument, root) ==> (AcceptsDocument(Flatten(root)) <==> MeaningOfDocument(root).Some?)
    ensures Fits(OfDocument, root) && AcceptsDocument(Flatten(root)) ==>
              Result(Run(Initial(), Flatten(root))) == MeaningOfDocument(root).value
    ensures Tame(root, false) && AcceptsDocument(Flatten(root)) ==> Fits(OfDocument, root)
  {
    if Fits(OfDocument, root) {
      FitsIsTame(OfDocument, root);
      RootMeans(root);
    }
    if Tame(root, false) { AcceptanceIsMembership(root); }
  }

  /** The machine within the root element. */
  lemma RootOpens(root: Node)
    requires Suits(OfDocument, root)
    ensures var q := StartElement(Initial(), root.tag, root.attrs);
            Quiet(q) && ModelOf(Top(q.s)) == ContentModel(root.tag, root.attrs) && q.s == [ParserStart, InsideDataset] &&
            q.datasetName == Lookup(root.attrs, NameKey) && |q.at| == 1 &&
            q.dapVersion == Lookup(root.attrs, DapVersionKey) &&
            HereOf(q) == Here(NewVar(Structure, "dummy_dds"), [], "", "", "")
  {
    var p := Initial();
    InitialIsValid();
    assert OpeningOf(ParserStart, root.tag) == OpensRoot;
    OpenedIsQuiet(p, root);
  }

  lemma RootCloses(q1: Parser, h: Here, root: Node)
    requires root.Element? && root.tag.DatasetTag? && !q1.thrown
    requires q1.s == [ParserStart, InsideDataset] && |q1.at| == 1
    ensures var q := Step(Put(q1, h), End(root.tag, root.foreign));
            !q.thrown && Result(q) == Dataset(q1.datasetName, h.t, h.v.kids) &&
            q.dapVersion == q1.dapVersion && q.blobHref == h.href
  {
    assert ClosingOf(InsideDataset, root.tag, root.foreign) == Leaves;
  }

  lemma RootMeans(root: Node)
    requires root.Element? && Fits(OfDocument, root)
    ensures var q := Run(Initial(), Flatten(root));
            match MeaningOfDocument(root)
            case Some(d) =>
              !q.thrown && Result(q) == d && q.dapVersion == Lookup(root.attrs, DapVersionKey) &&
              Some(q.blobHref) == HrefMeant(root)
            case None => q.thrown
  {
    FitsElement(OfDocument, root);
    RootOpens(root);
    var q1 := StartElement(Initial(), root.tag, root.attrs);
    var q2 := Run(q1, FlattenAll(root.content));
    NodesMean(q1, root.content);
    Legs(Initial(), root, q1, q2);
    var h := MeaningOfAll(root.content, Own(q1), HereOf(q1));
    if h.Some? { RootCloses(q1, h.value, root); }
  }

  // ---------------------------------------------------------------------------------------------
  // Aliases
  // ---------------------------------------------------------------------------------------------

  /** An Alias element is taken exactly when its source names a container, seen from the table it stands in, and
      the alias has a new name there. */
  lemma AliasElementIff(p: Parser, n: Node)
    requires Quiet(p) && n.Element? && n.tag.AliasTag? && Fits(ModelOf(Top(p.s)), n)
    ensures var at, names := TopTable(p.at), Parts(DecodeSpaces(Lookup(n.attrs, AliasKey)));
            !Run(p, Flatten(n)).thrown <==>
              Named(at, names).Some? && TypeOfEntry(Named(at, names).value) == AttrContainer &&
              !HasName(at.table, DecodeSpaces(Lookup(n.attrs, NameKey)))
  {
    FitsElement(ModelOf(Top(p.s)), n);
    AliasMeans(p, n);
    AttrAliasIff(OpenTable(Own(p), HereOf(p).t), Lookup(n.attrs, NameKey), Lookup(n.attrs, AliasKey));
  }

  const DANGLING_ALIAS := Element(AliasTag, map[NameKey := "x", AliasKey := "y"], false, [])

  const DANGLING := Element(DatasetTag, map[NameKey := "d"], false, [DANGLING_ALIAS])

  /** A document in the grammar that is rejected, for an alias of nothing. */
  lemma DanglingAliasIsRejected()
    ensures Fits(OfDocument, DANGLING) && !AcceptsDocument(Flatten(DANGLING))
  {
    assert AllFit(OfText, DANGLING_ALIAS.content) && Fits(OfDataset, DANGLING_ALIAS);
    assert AllFit(OfDataset, DANGLING.content[1..]) && AllFit(OfDataset, DANGLING.content);
    assert FirstOf(Preorder([]), DecodeSpaces("y")) == None;
    var h := Here(NewVar(Structure, "dummy_dds"), [], "", "", "");
    DecodeNothing("y");
    OnePart("y");
    AttrAliasIff(OpenTable("", []), "x", "y");
    assert Meaning(DANGLING_ALIAS, "", h) == None;
    AcceptedMeaning(DANGLING);
  }

  const CONTAINER_C := Element(AttributeTag, map[NameKey := "c", TypeKey := "Container"], false, [])

  const ALIAS_OF_C := Element(AliasTag, map[NameKey := "x", AliasKey := "c"], false, [])

  const ALIASED := Element(DatasetTag, map[NameKey := "d"], false, [CONTAINER_C, ALIAS_OF_C])

  lemma MeaningOfTwo(a: Node, b: Node, own: string, h: Here)
    ensures MeaningOfAll([a, b], own, h) == match Meaning(a, own, h)
                                            case Some(g) => Meaning(b, own, g)
                                            case None => None
  {
    assert [a, b][1..] == [b] && [b][1..] == [];
    var m := Meaning(a, own, h);
    if m.Some? {
      assert MeaningOfAll([b], own, m.value) == Meaning(b, own, m.value);
    }
  }

  lemma AliasedFits()
    ensures Fits(OfDocument, ALIASED)
  {
    assert Fits(OfDataset, CONTAINER_C) && Fits(OfDataset, ALIAS_OF_C);
    assert ALIASED.content[1..] == [ALIAS_OF_C] && ALIASED.content[1..][1..] == [];
    assert AllFit(OfDataset, ALIASED.content);
  }

  lemma MeaningOfAlias(h: Here)
    requires h.t == [Container("c", [])]
    ensures Meaning(ALIAS_OF_C, "", h) == Some(h.(t := h.t + [Alias("x", "c", h.t[0])]))
  {
    DecodeNothing("c");
    DecodeNothing("x");
    var t := h.t;
    assert Preorder(t) == [t[0]] + [] + [] && Preorder(t)[0] == t[0];
    assert t[0].name == "c" && SimpleFind(Preorder(t), "c") == 0;
    assert !HasName(t, "x") by { assert t[0].name[0] != "x"[0]; }
    OnePart("c");
    AttrAliasIff(OpenTable("", t), "x", "c");
  }

  /** A container and an alias for it: accepted, with both in the table. */
  lemma AliasOfContainerIsAccepted()
    ensures Fits(OfDocument, ALIASED) && AcceptsDocument(Flatten(ALIASED))
    ensures Result(Run(Initial(), Flatten(ALIASED))).attrs == [Container("c", []), Alias("x", "c", Container("c", []))]
  {
    AliasedFits();
    DecodeNothing("c");
    var h, t := Here(NewVar(Structure, "dummy_dds"), [], "", "", ""), [Container("c", [])];
    assert [] + t == t;
    assert Meaning(CONTAINER_C, "", h) == Some(h.(t := t));
    MeaningOfAlias(h.(t := t));
    MeaningOfTwo(CONTAINER_C, ALIAS_OF_C, "", h);
    AcceptedMeaning(ALIASED);
  }
}
