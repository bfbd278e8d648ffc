/** What a DAP4 document declares, read off its parts: the root group with its variables, each with its fields and its
    attributes, and the enumerations, all in document order. That is what an accepted parse has built. */
module Dap4Declared {
  import opened Wrappers
  import opened Text
  import opened Types
  import opened Attributes
  import opened Variables
  import opened Dap4Machine
  import opened Dap4Acceptance
  import Ddx = DdxMachine
  import Sibling = DdxAcceptance

  // ---------------------------------------------------------------------------------------------
  // Attributes
  // ---------------------------------------------------------------------------------------------

  /** A table, and the name and type of the attribute that values go to. */
  datatype Attrs = Attrs(t: Table, name: string, ty: string)

  function Added(a: Attrs, value: string): Option<Attrs> {
    match AppendAttr(a.t, a.name, a.ty, value)
    case Some(t) => Some(a.(t := t))
    case None => None
  }

  function TextOf(es: seq<Ddx.Event>): string {
    if es == [] then "" else (if es[0].Chars? then es[0].text else "") + TextOf(es[1..])
  }

  /** The markup within OtherXML, its names left out. */
  function MarkupOf(e: Ddx.Event): string {
    match e
    case Start(_, _) => "<>"
    case End(_, _) => "</>"
    case Chars(text) => text
    case IgnorableWhitespace(text) => text
    case Cdata(text) => text
    case Complaint => ""
  }

  function AllMarkup(es: seq<Ddx.Event>): string {
    if es == [] then "" else MarkupOf(es[0]) + AllMarkup(es[1..])
  }

  predicate IsAttribute(n: Item) {
    n.OtherXml? || (n.Parent? && n.tag.AttributeTag?)
  }

  /** What an attribute, or a value within one, makes of a table; None when it clashes with what is there. */
  function Attributed(n: Item, a: Attrs): Option<Attrs>
    decreases n, 0
  {
    match n
    case OtherXml(attrs, markup) =>
      Added(a.(name := Ddx.Lookup(attrs, NameKey), ty := Ddx.Lookup(attrs, TypeKey)), AllMarkup(markup))
    case Flat(tag, _, body, _, _) => if tag.ValueTag? then Added(a, TextOf(body)) else Some(a)
    case Parent(tag, attrs, content, _, _) =>
      var name, ty := Ddx.Lookup(attrs, NameKey), Ddx.Lookup(attrs, TypeKey);
      if !tag.AttributeTag? then Some(a)
      else if ty == "Container" then
        if AppendContainer(a.t, name, []).None? then None
        else
          match AllAttributed(content, a.(t := []))
          case Some(b) => Some(b.(t := a.t + [Container(DecodeSpaces(name), b.t)]))
          case None => None
      else AllAttributed(content, a.(name := name, ty := ty))
    case Data(_) => Some(a)
  }

  function AllAttributed(ns: seq<Item>, a: Attrs): Option<Attrs>
    decreases ns, 1
  {
    if ns == [] then Some(a)
    else
      match Attributed(ns[0], a)
      case Some(b) => AllAttributed(ns[1..], b)
      case None => None
  }

  function AttributesOf(ns: seq<Item>): seq<Item> {
    if ns == [] then [] else (if IsAttribute(ns[0]) then [ns[0]] else []) + AttributesOf(ns[1..])
  }

  /** The table that the attributes among some items make, begun with that table. */
  function TableAfter(ns: seq<Item>, t: Table): Option<Table> {
    match AllAttributed(AttributesOf(ns), Attrs(t, "", ""))
    case Some(a) => Some(a.t)
    case None => None
  }

  // ---------------------------------------------------------------------------------------------
  // Variables and enumerations
  // ---------------------------------------------------------------------------------------------

  predicate IsVariable(n: Item) {
    n.Parent? && n.tag.TypeTag?
  }

  function VarOf(n: Item): Var
    requires IsVariable(n)
    decreases n, 0
  {
    var t := TableAfter(n.content, []);
    Var(n.tag.ty, Ddx.Lookup(n.attrs, NameKey), false, if t.Some? then t.value else [], VarsOf(n.content), [], NoValue)
  }

  /** The variables that some items declare, in order. */
  function VarsOf(ns: seq<Item>): seq<Var>
    decreases ns
  {
    if ns == [] then [] else (if IsVariable(ns[0]) then [VarOf(ns[0])] else []) + VarsOf(ns[1..])
  }

  function ConstOf(attrs: map<Key, string>): Const {
    var value := ReadLongLong(Ddx.Lookup(attrs, ValueKey));
    Const(Ddx.Lookup(attrs, NameKey), if value.Some? then value.value else 0)
  }

  function ConstsOf(ns: seq<Item>): seq<Const> {
    if ns == [] then [] else (if ns[0].Flat? then [ConstOf(ns[0].attrs)] else []) + ConstsOf(ns[1..])
  }

  /** The enumerations that some items define, in order. */
  function EnumsOf(ns: seq<Item>): seq<EnumDef> {
    if ns == [] then []
    else
      (if ns[0].Parent? && ns[0].tag.EnumerationTag? then
         [EnumDef(Ddx.Lookup(ns[0].attrs, NameKey), BaseType(ns[0].attrs), ConstsOf(ns[0].content))]
       else []) + EnumsOf(ns[1..])
  }

  /** Do no two attributes clash, in any of the tables? */
  predicate Unclashing(ns: seq<Item>, t: Table)
    decreases ns, 1
  {
    TableAfter(ns, t).Some? && AllUnclashing(ns)
  }

  predicate AllUnclashing(ns: seq<Item>)
    decreases ns, 0
  {
    ns == [] || ((IsVariable(ns[0]) ==> Unclashing(ns[0].content, [])) && AllUnclashing(ns[1..]))
  }

  // ---------------------------------------------------------------------------------------------
  // The machine within attributes
  // ---------------------------------------------------------------------------------------------

  function AttrsOf(p: Parser): Attrs {
    Attrs(Ddx.TopTable(p.at).table, p.attrName, p.attrType)
  }

  function WithAttrs(p: Parser, a: Attrs): Parser {
    p.(at := Ddx.Below(p.at) + [OpenTable(Ddx.TopTable(p.at).name, a.t)], attrName := a.name, attrType := a.ty)
  }

  /** Nothing is being collected. */
  predicate Neat(p: Parser) {
    p.charData == "" && p.otherXml == "" && p.at != []
  }

  /** The machine after an item that makes that of the attributes. */
  predicate Becomes(p: Parser, q: Parser, a: Option<Attrs>, depth: Option<nat>) {
    match a
    case None => q.thrown
    case Some(a) => depth.Some? && q == WithAttrs(p, a).(otherXmlDepth := depth.value)
  }

  lemma MarkupMore(before: string, es: seq<Ddx.Event>)
    requires es != []
    ensures before + MarkupOf(es[0]) + AllMarkup(es[1..]) == before + AllMarkup(es)
  {}

  lemma MarkupAdds(p: Parser, e: Ddx.Event)
    requires Clean(p) && Top(p.s).InsideOtherXml? && Sibling.IsMarkup(e) && Sibling.DepthThrough([e], p.otherXmlDepth).Some?
    ensures Step(p, e) ==
      p.(otherXmlDepth := Sibling.DepthThrough([e], p.otherXmlDepth).value, otherXml := p.otherXml + MarkupOf(e))
  {
    MarkupStep(p, e);
  }

  lemma {:induction false} MarkupText(p: Parser, es: seq<Ddx.Event>)
    requires Clean(p) && Top(p.s).InsideOtherXml? && forall e :: e in es ==> Sibling.IsMarkup(e)
    requires Sibling.DepthThrough(es, p.otherXmlDepth).Some?
    ensures Run(p, es) == p.(otherXmlDepth := Sibling.DepthThrough(es, p.otherXmlDepth).value, otherXml := p.otherXml + AllMarkup(es))
    decreases |es|
  {
    if es == [] {
      assert p.otherXml + "" == p.otherXml;
    } else {
      assert es[0] in es;
      Sibling.DepthApart(es[0], es, p.otherXmlDepth);
      MarkupAdds(p, es[0]);
      MarkupMore(p.otherXml, es);
      MarkupText(Step(p, es[0]), es[1..]);
    }
  }

  lemma FlatStep(p: Parser, e: Ddx.Event)
    requires Clean(p) && (Top(p.s).InsideAttributeValue? || Top(p.s).InsideEnumConst?)
    requires !e.End? && !e.Complaint? && !e.Cdata?
    ensures Step(p, e) == p.(charData := p.charData + if Top(p.s).InsideAttributeValue? && e.Chars? then e.text else "")
  {
    assert p.charData + "" == p.charData;
  }

  function Collected(value: bool, es: seq<Ddx.Event>): string {
    if value then TextOf(es) else ""
  }

  lemma CollectedMore(before: string, value: bool, es: seq<Ddx.Event>)
    requires es != []
    ensures before + (if value && es[0].Chars? then es[0].text else "") + Collected(value, es[1..]) == before + Collected(value, es)
  {}

  /** Text is collected in a value and nowhere else. */
  lemma {:induction false} FlatText(p: Parser, es: seq<Ddx.Event>)
    requires Clean(p) && (Top(p.s).InsideAttributeValue? || Top(p.s).InsideEnumConst?)
    requires forall e :: e in es ==> !e.End? && !e.Complaint? && !e.Cdata?
    ensures Run(p, es) == p.(charData := p.charData + Collected(Top(p.s).InsideAttributeValue?, es))
    decreases |es|
  {
    if es == [] {
      assert p.charData + "" == p.charData;
    } else {
      assert es[0] in es;
      FlatStep(p, es[0]);
      CollectedMore(p.charData, Top(p.s).InsideAttributeValue?, es);
      FlatText(Step(p, es[0]), es[1..]);
    }
  }

  lemma WithOwnAttrs(p: Parser)
    requires p.at != []
    ensures WithAttrs(p, AttrsOf(p)) == p
  {}

  lemma RecordsValue(p: Parser, value: string)
    requires p.at != [] && !p.thrown
    ensures match Added(AttrsOf(p), value)
            case None => RecordAttr(p, value).thrown
            case Some(a) => RecordAttr(p, value) == WithAttrs(p, a)
  {}

  lemma DataMeans(p: Parser, n: Item)
    requires Ready(p) && Neat(p) && n.Data? && Divided(n) && Belongs(ModelOf(p), n)
    ensures Run(p, Events(n)) == p
  {
    RunOne(p, n.data);
  }

  /** The start tag of an attribute. */
  lemma AttributeStarts(p: Parser, attrs: map<Key, string>)
    requires Ready(p) && TakesAttributes(ModelOf(p)) && NameKey in attrs && TypeKey in attrs
    ensures var q, name, ty := Step(p, Ddx.Start(AttributeTag, attrs)), attrs[NameKey], attrs[TypeKey];
      if ty == "Container" then
        if AppendContainer(Ddx.TopTable(p.at).table, name, []).None? then q.thrown
        else q == p.(s := p.s + [InsideAttributeContainer], at := p.at + [OpenTable(DecodeSpaces(name), [])])
      else q == p.(s := p.s + [if ty == "OtherXML" then InsideOtherXml else InsideAttribute], attrName := name, attrType := ty)
  {
    OpeningFollowsGrammar(p, AttributeTag, attrs);
  }

  lemma OtherXmlMeans(p: Parser, n: Item)
    requires Ready(p) && Neat(p) && n.OtherXml? && Divided(n) && Belongs(ModelOf(p), n) && Depth(n, p.otherXmlDepth).Some?
    ensures Becomes(p, Run(p, Events(n)), Attributed(n, AttrsOf(p)), Depth(n, p.otherXmlDepth))
  {
    var start, end := Ddx.Start(AttributeTag, n.attrs), Ddx.End(AttributeTag, false);
    ItemLegs(p, start, n.markup, end);
    Sibling.TypeIsThere(n.attrs);
    AttributeStarts(p, n.attrs);
    OtherXmlIsNoContainer(n.attrs);
    var q1 := Step(p, start);
    OneMore(p.s, InsideOtherXml);
    MarkupText(q1, n.markup);
    assert "" + AllMarkup(n.markup) == AllMarkup(n.markup);
    OtherXmlEnds(p, q1, Run(q1, n.markup), AllMarkup(n.markup));
  }

  lemma OtherXmlEnds(p: Parser, q1: Parser, q2: Parser, text: string)
    requires !p.thrown && Neat(p)
    requires q1 == p.(s := p.s + [InsideOtherXml], attrName := q1.attrName, attrType := q1.attrType)
    requires q2 == q1.(otherXmlDepth := q2.otherXmlDepth, otherXml := text)
    ensures var r := Step(q2, Ddx.End(AttributeTag, false));
      match Added(AttrsOf(q1), text)
      case None => r.thrown
      case Some(a) => r == WithAttrs(p, a).(otherXmlDepth := q2.otherXmlDepth)
  {
    OneMore(p.s, InsideOtherXml);
    RecordsValue(PopState(q2), text);
    assert Step(q2, Ddx.End(AttributeTag, false)) == RecordAttr(PopState(q2), text).(otherXml := "");
  }

  lemma OtherXmlIsNoContainer(attrs: map<Key, string>)
    requires Ddx.Lookup(attrs, TypeKey) == "OtherXML"
    ensures Ddx.Lookup(attrs, TypeKey) != "Container"
  {
    assert "OtherXML"[0] != "Container"[0];
  }

  lemma OneMore(s: seq<State>, st: State)
    ensures Top(s + [st]) == st && Ddx.Below(s + [st]) == s
    ensures ParserError in s + [st] <==> ParserError in s || st == ParserError
  {}

  lemma ValueMeans(p: Parser, n: Item)
    requires Ready(p) && Neat(p) && n.Flat? && Divided(n) && Belongs(ModelOf(p), n) && n.tag.ValueTag?
    ensures Becomes(p, Run(p, Events(n)), Attributed(n, AttrsOf(p)), Some(p.otherXmlDepth))
  {
    var start, end := Ddx.Start(n.tag, n.attrs), Ddx.End(n.endTag, n.foreign);
    ItemLegs(p, start, n.body, end);
    OpeningFollowsGrammar(p, n.tag, n.attrs);
    var q1 := Step(p, start);
    assert q1 == Push(p, InsideAttributeValue);
    OneMore(p.s, InsideAttributeValue);
    FlatText(q1, n.body);
    assert "" + TextOf(n.body) == TextOf(n.body);
    ValueEnds(p, n, Run(q1, n.body), TextOf(n.body));
  }

  lemma ValueEnds(p: Parser, n: Item, q2: Parser, text: string)
    requires !p.thrown && Neat(p) && n.Flat? && n.endTag.ValueTag?
    requires q2 == Push(p, InsideAttributeValue).(charData := text)
    ensures var r := Step(q2, Ddx.End(n.endTag, n.foreign));
      match Added(AttrsOf(p), text) case None => r.thrown case Some(a) => r == WithAttrs(p, a)
  {
    OneMore(p.s, InsideAttributeValue);
    RecordsValue(PopState(q2), text);
    assert Step(q2, Ddx.End(n.endTag, n.foreign)) == RecordAttr(PopState(q2), text).(charData := "");
  }

  lemma WithAttrsTwice(p: Parser, a: Attrs, d: nat, b: Attrs, e: nat)
    requires p.at != []
    ensures var q := WithAttrs(p, a).(otherXmlDepth := d);
      AttrsOf(q) == a && WithAttrs(q, b).(otherXmlDepth := e) == WithAttrs(p, b).(otherXmlDepth := e)
  {
    BelowPush(Ddx.Below(p.at), OpenTable(Ddx.TopTable(p.at).name, a.t));
  }

  predicate HoldsAttributes(m: Model) {
    m.OfContainer? || m.OfAttribute?
  }

  /** The parts that attributes are made of. */
  predicate IsAttributePart(n: Item) {
    IsAttribute(n) || n.Data? || (n.Flat? && n.tag.ValueTag?)
  }

  lemma OnlyAttributeParts(m: Model, n: Item)
    requires HoldsAttributes(m) && Divided(n) && Belongs(m, n)
    ensures IsAttributePart(n)
  {}

  /** The start tag of an attribute that is no OtherXML leaves the machine ready for its content. */
  lemma AttributeIsReady(p: Parser, n: Item) returns (q: Parser)
    requires Ready(p) && Neat(p) && n.Parent? && n.tag.AttributeTag? && Divided(n) && Belongs(ModelOf(p), n)
    ensures q == Step(p, Ddx.Start(n.tag, n.attrs))
    ensures q.thrown || (Ready(q) && Neat(q) && ModelOf(q) == ContentModel(n.tag, n.attrs))
  {
    q := Step(p, Ddx.Start(n.tag, n.attrs));
    StartFollowsGrammar(p, n.tag, n.attrs);
    StartKeepsValid(p, n.tag, n.attrs);
    if !q.thrown { OpenedIsReady(p, q, n.tag, n.attrs); }
    AttributeStarts(p, n.attrs);
  }

  lemma PlainEnds(p: Parser, n: Item, q1: Parser, b: Attrs, d: nat)
    requires !p.thrown && p.at != [] && n.Parent? && n.endTag.AttributeTag?
    requires q1 == p.(s := p.s + [InsideAttribute], attrName := q1.attrName, attrType := q1.attrType)
    ensures Step(WithAttrs(q1, b).(otherXmlDepth := d), Ddx.End(n.endTag, n.foreign)) == WithAttrs(p, b).(otherXmlDepth := d)
  {
    OneMore(p.s, InsideAttribute);
  }

  lemma ContainerEnds(p: Parser, n: Item, q1: Parser, name: string, b: Attrs, d: nat)
    requires !p.thrown && p.at != [] && n.Parent? && n.endTag.AttributeTag?
    requires q1 == p.(s := p.s + [InsideAttributeContainer], at := p.at + [OpenTable(name, [])])
    ensures Step(WithAttrs(q1, b).(otherXmlDepth := d), Ddx.End(n.endTag, n.foreign)) ==
      WithAttrs(p, b.(t := Ddx.TopTable(p.at).table + [Container(name, b.t)])).(otherXmlDepth := d)
  {
    OneMore(p.s, InsideAttributeContainer);
    BelowPush(p.at, OpenTable(name, []));
    BelowPush(p.at, OpenTable(name, b.t));
    var q2 := WithAttrs(q1, b).(otherXmlDepth := d);
    assert q2.at == p.at + [OpenTable(name, b.t)];
    assert Step(q2, Ddx.End(n.endTag, n.foreign)) == CloseContainer(q2);
  }

  /** An attribute element, given what its content does. */
  lemma AttributeEnds(p: Parser, n: Item, q1: Parser, q2: Parser)
    requires Ready(p) && Neat(p) && n.Parent? && n.tag.AttributeTag? && Divided(n) && Belongs(ModelOf(p), n)
    requires q1 == Step(p, Ddx.Start(n.tag, n.attrs)) && q2 == Run(q1, EventsOf(n.content))
    requires !q1.thrown ==> Becomes(q1, q2, AllAttributed(n.content, AttrsOf(q1)), Depth(n, p.otherXmlDepth))
    ensures Becomes(p, Run(p, Events(n)), Attributed(n, AttrsOf(p)), Depth(n, p.otherXmlDepth))
  {
    var end := Ddx.End(n.endTag, n.foreign);
    ItemLegs(p, Ddx.Start(n.tag, n.attrs), EventsOf(n.content), end);
    NotCleanAfter(q2, [end]);
    RunOne(q2, end);
    AttributeStarts(p, n.attrs);
    if !q1.thrown {
      var a := AllAttributed(n.content, AttrsOf(q1));
      if a.Some? {
        var d := Depth(n, p.otherXmlDepth).value;
        if Ddx.Lookup(n.attrs, TypeKey) == "Container" {
          ContainerEnds(p, n, q1, DecodeSpaces(n.attrs[NameKey]), a.value, d);
        } else {
          PlainEnds(p, n, q1, a.value, d);
        }
      }
    }
  }

  lemma {:induction false} AttributePartMeans(p: Parser, n: Item)
    requires Ready(p) && Neat(p) && Divided(n) && Belongs(ModelOf(p), n) && Depth(n, p.otherXmlDepth).Some?
    requires IsAttributePart(n)
    ensures Becomes(p, Run(p, Events(n)), Attributed(n, AttrsOf(p)), Depth(n, p.otherXmlDepth))
    decreases n, 0
  {
    match n
    case Data(_) => DataMeans(p, n); WithOwnAttrs(p);
    case OtherXml(_, _) => OtherXmlMeans(p, n);
    case Flat(_, _, _, _, _) => ValueMeans(p, n);
    case Parent(_, _, content, _, _) =>
      var q := AttributeIsReady(p, n);
      if !q.thrown {
        AttributeStarts(p, n.attrs);
        AttributePartsMean(q, content);
      }
      AttributeEnds(p, n, q, Run(q, EventsOf(content)));
  }

  lemma {:induction false} AttributePartsMean(p: Parser, ns: seq<Item>)
    requires Ready(p) && Neat(p) && HoldsAttributes(ModelOf(p)) && AllDivided(ns) && AllBelong(ModelOf(p), ns)
    requires DepthOfAll(ns, p.otherXmlDepth).Some?
    ensures Becomes(p, Run(p, EventsOf(ns)), AllAttributed(ns, AttrsOf(p)), DepthOfAll(ns, p.otherXmlDepth))
    decreases ns, 1
  {
    if ns == [] {
      WithOwnAttrs(p);
    } else {
      var q := Run(p, Events(ns[0]));
      OnlyAttributeParts(ModelOf(p), ns[0]);
      AttributePartMeans(p, ns[0]);
      RunApart(p, Events(ns[0]), EventsOf(ns[1..]));
      NotCleanAfter(q, EventsOf(ns[1..]));
      var a := Attributed(ns[0], AttrsOf(p));
      if a.Some? { MoreParts(p, ns, q, a.value); }
    }
  }

  lemma {:induction false} MoreParts(p: Parser, ns: seq<Item>, q: Parser, a: Attrs)
    requires Ready(p) && Neat(p) && HoldsAttributes(ModelOf(p)) && AllDivided(ns) && AllBelong(ModelOf(p), ns)
    requires ns != [] && DepthOfAll(ns, p.otherXmlDepth).Some? && q == Run(p, Events(ns[0]))
    requires q == WithAttrs(p, a).(otherXmlDepth := Depth(ns[0], p.otherXmlDepth).value)
    ensures Becomes(p, Run(q, EventsOf(ns[1..])), AllAttributed(ns[1..], a), DepthOfAll(ns, p.otherXmlDepth))
    decreases ns, 0
  {
    ItemFollows(p, ns[0]);
    assert !q.thrown && Neat(q);
    ReturnedIsReady(p, q);
    AttributePartsMean(q, ns[1..]);
    var b := AllAttributed(ns[1..], a);
    WithAttrsTwice(p, a, q.otherXmlDepth, if b.Some? then b.value else a, DepthOfAll(ns, p.otherXmlDepth).value);
  }

  // ---------------------------------------------------------------------------------------------
  // Attributes by themselves
  // ---------------------------------------------------------------------------------------------

  predicate SameTable(a: Option<Attrs>, b: Option<Attrs>) {
    (a.Some? <==> b.Some?) && (a.Some? ==> a.value.t == b.value.t)
  }

  /** An attribute begins afresh: it matters only what the table is. */
  lemma {:induction false} AttributeAlone(n: Item, a: Attrs, b: Attrs)
    requires Divided(n) && (IsAttribute(n) || n.Data?) && a.t == b.t && Belongs(OfContainer, n)
    ensures SameTable(Attributed(n, a), Attributed(n, b))
    decreases n, 0
  {
    if n.Parent? {
      var name, ty := Ddx.Lookup(n.attrs, NameKey), Ddx.Lookup(n.attrs, TypeKey);
      if ty == "Container" {
        AttributesAlone(n.content, a.(t := []), b.(t := []));
      } else {
        assert a.(name := name, ty := ty) == b.(name := name, ty := ty);
      }
    } else if n.OtherXml? {
      var name, ty := Ddx.Lookup(n.attrs, NameKey), Ddx.Lookup(n.attrs, TypeKey);
      assert a.(name := name, ty := ty) == b.(name := name, ty := ty);
    }
  }

  lemma {:induction false} AttributesAlone(ns: seq<Item>, a: Attrs, b: Attrs)
    requires AllDivided(ns) && AllBelong(OfContainer, ns) && a.t == b.t
    ensures SameTable(AllAttributed(ns, a), AllAttributed(ns, b))
    decreases ns, 1
  {
    if ns != [] {
      OnlyAttributeParts(OfContainer, ns[0]);
      AttributeAlone(ns[0], a, b);
      var c, d := Attributed(ns[0], a), Attributed(ns[0], b);
      if c.Some? { AttributesAlone(ns[1..], c.value, d.value); }
    }
  }

  lemma {:induction false} AttributesBelong(ns: seq<Item>, m: Model)
    requires AllDivided(ns) && AllBelong(m, ns)
    ensures AllDivided(AttributesOf(ns)) && AllBelong(OfContainer, AttributesOf(ns))
  {
    if ns != [] {
      AttributesBelong(ns[1..], m);
      if IsAttribute(ns[0]) {
        assert AttributesOf(ns)[1..] == AttributesOf(ns[1..]);
      } else {
        assert AttributesOf(ns) == AttributesOf(ns[1..]);
      }
    }
  }

  lemma FirstAttribute(n: Item, rest: seq<Item>, m: Model, a: Attrs)
    requires Divided(n) && Belongs(m, n) && AllDivided(rest) && AllBelong(m, rest)
    ensures TableAfter([n] + rest, a.t) ==
      if !IsAttribute(n) then TableAfter(rest, a.t)
      else match Attributed(n, a) case Some(b) => TableAfter(rest, b.t) case None => None
  {
    var more := AttributesOf(rest);
    assert ([n] + rest)[1..] == rest;
    if IsAttribute(n) {
      assert AttributesOf([n] + rest) == [n] + more && ([n] + more)[1..] == more;
      AttributeAlone(n, a, Attrs(a.t, "", ""));
      AttributesBelong(rest, m);
      var b := Attributed(n, Attrs(a.t, "", ""));
      if b.Some? { AttributesAlone(more, b.value, Attrs(b.value.t, "", "")); }
    } else {
      assert AttributesOf([n] + rest) == [] + more == more;
    }
  }

  // ---------------------------------------------------------------------------------------------
  // The machine within a group or a variable
  // ---------------------------------------------------------------------------------------------

  function Grown(v: Var, vs: seq<Var>): Var {
    v.(kids := v.kids + vs)
  }

  /** The machine where it was, with some variables, enumerations and attributes more. */
  predicate Grew(p: Parser, q: Parser, vs: seq<Var>, es: seq<EnumDef>, t: Table, depth: nat) {
    !q.thrown && q.s == p.s && Neat(q) && q.otherXmlDepth == depth && q.enums == p.enums + es &&
    q.bt == Ddx.Below(p.bt) + [Grown(Ddx.TopVar(p.bt), vs)] &&
    q.at == Ddx.Below(p.at) + [OpenTable(Ddx.TopTable(p.at).name, t)]
  }

  /** What the run over some items has made of the machine is what the items declare. */
  predicate Declares(ns: seq<Item>, p: Parser, q: Parser, depth: Option<nat>) {
    var t := Ddx.TopTable(p.at).table;
    depth.Some? &&
    if Unclashing(ns, t) then Grew(p, q, VarsOf(ns), EnumsOf(ns), TableAfter(ns, t).value, depth.value) else q.thrown
  }

  lemma OneItem(n: Item)
    ensures VarsOf([n]) == (if IsVariable(n) then [VarOf(n)] else [])
    ensures AllUnclashing([n]) <==> (IsVariable(n) ==> Unclashing(n.content, []))
    ensures EnumsOf([n]) ==
      if n.Parent? && n.tag.EnumerationTag? then [EnumDef(Ddx.Lookup(n.attrs, NameKey), BaseType(n.attrs), ConstsOf(n.content))] else []
    ensures AllDivided([n]) <==> Divided(n)
  {
    assert [n][1..] == [] && VarsOf([]) == [] && EnumsOf([]) == [];
  }

  lemma MoreItems(n: Item, rest: seq<Item>)
    ensures VarsOf([n] + rest) == VarsOf([n]) + VarsOf(rest)
    ensures EnumsOf([n] + rest) == EnumsOf([n]) + EnumsOf(rest)
    ensures AllUnclashing([n] + rest) <==> AllUnclashing([n]) && AllUnclashing(rest)
  {
    OneItem(n);
    assert ([n] + rest)[1..] == rest;
  }

  lemma GrewTwice(p: Parser, q: Parser, r: Parser, vs: seq<Var>, ws: seq<Var>, es: seq<EnumDef>, fs: seq<EnumDef>, t: Table, u: Table, d: nat, e: nat)
    requires Grew(p, q, vs, es, t, d) && Grew(q, r, ws, fs, u, e)
    ensures Grew(p, r, vs + ws, es + fs, u, e)
  {
    var v := Ddx.TopVar(p.bt);
    BelowPush(Ddx.Below(p.bt), Grown(v, vs));
    BelowPush(Ddx.Below(p.at), OpenTable(Ddx.TopTable(p.at).name, t));
    assert (v.kids + vs) + ws == v.kids + (vs + ws);
    assert (p.enums + es) + fs == p.enums + (es + fs);
  }

  /** Nothing has been declared. */
  lemma GrewNothing(p: Parser)
    requires !p.thrown && Neat(p) && p.bt != []
    ensures Grew(p, p, [], [], Ddx.TopTable(p.at).table, p.otherXmlDepth)
  {
    assert Ddx.TopVar(p.bt).kids + [] == Ddx.TopVar(p.bt).kids && p.enums + [] == p.enums;
  }

  predicate IsStructural(m: Model) {
    m.OfGroup? || m.OfRecord? || m.OfScalar?
  }

  lemma DataDeclares(p: Parser, n: Item)
    requires Ready(p) && Neat(p) && IsStructural(ModelOf(p)) && p.bt != [] && n.Data? && Divided(n) && Belongs(ModelOf(p), n)
    ensures Declares([n], p, Run(p, Events(n)), Depth(n, p.otherXmlDepth))
  {
    DataMeans(p, n);
    OneItem(n);
    GrewNothing(p);
    FirstAttribute(n, [], ModelOf(p), AttrsOf(p));
    assert [n] + [] == [n];
  }

  lemma AttrsGrew(p: Parser, a: Attrs, d: nat)
    requires !p.thrown && Neat(p) && p.bt != []
    ensures Grew(p, WithAttrs(p, a).(otherXmlDepth := d), [], [], a.t, d)
  {
    assert Ddx.TopVar(p.bt).kids + [] == Ddx.TopVar(p.bt).kids && p.enums + [] == p.enums;
  }

  lemma AttributeDeclares(p: Parser, n: Item)
    requires Ready(p) && Neat(p) && IsStructural(ModelOf(p)) && p.bt != []
    requires IsAttribute(n) && Divided(n) && Belongs(ModelOf(p), n) && Depth(n, p.otherXmlDepth).Some?
    ensures Declares([n], p, Run(p, Events(n)), Depth(n, p.otherXmlDepth))
  {
    var a, d := Attributed(n, AttrsOf(p)), Depth(n, p.otherXmlDepth).value;
    AttributePartMeans(p, n);
    OneItem(n);
    TableOfOne(n, ModelOf(p), AttrsOf(p));
    assert !IsVariable(n) && !(n.Parent? && n.tag.EnumerationTag?);
    if a.Some? { AttrsGrew(p, a.value, d); }
  }

  lemma TableOfOne(n: Item, m: Model, a: Attrs)
    requires Divided(n) && Belongs(m, n)
    ensures TableAfter([n], a.t) ==
      if !IsAttribute(n) then Some(a.t) else match Attributed(n, a) case Some(b) => Some(b.t) case None => None
  {
    FirstAttribute(n, [], m, a);
    assert [n] + [] == [n] && AttributesOf([]) == [];
  }

  // ---------------------------------------------------------------------------------------------
  // Enumerations
  // ---------------------------------------------------------------------------------------------

  function WithConsts(p: Parser, cs: seq<Const>): Parser {
    p.(enumDef := p.enumDef.(values := p.enumDef.values + cs))
  }

  lemma WithConstsTwice(p: Parser, cs: seq<Const>, ds: seq<Const>)
    ensures WithConsts(WithConsts(p, cs), ds) == WithConsts(p, cs + ds) && WithConsts(p, []) == p
  {
    var vs := p.enumDef.values;
    assert (vs + cs) + ds == vs + (cs + ds) && vs + [] == vs;
  }

  lemma ConstStarts(p: Parser, n: Item)
    requires Ready(p) && ModelOf(p).OfEnum? && n.Flat? && Belongs(ModelOf(p), n)
    ensures Step(p, Ddx.Start(n.tag, n.attrs)) == WithConsts(p, [ConstOf(n.attrs)]).(s := p.s + [InsideEnumConst])
  {
    OpeningFollowsGrammar(p, n.tag, n.attrs);
  }

  /** Within a definition: a constant of the right range is one more of its constants. */
  lemma ConstMeans(p: Parser, n: Item)
    requires Ready(p) && Neat(p) && ModelOf(p).OfEnum? && n.Flat? && Divided(n) && Belongs(ModelOf(p), n)
    ensures Run(p, Events(n)) == WithConsts(p, [ConstOf(n.attrs)])
  {
    var end := Ddx.End(n.endTag, n.foreign);
    ItemLegs(p, Ddx.Start(n.tag, n.attrs), n.body, end);
    ConstStarts(p, n);
    var q1 := Step(p, Ddx.Start(n.tag, n.attrs));
    OneMore(p.s, InsideEnumConst);
    FlatText(q1, n.body);
    assert q1.charData + "" == q1.charData;
    ConstEnds(p, q1, n);
  }

  lemma ConstEnds(p: Parser, q1: Parser, n: Item)
    requires !q1.thrown && q1.s == p.s + [InsideEnumConst] && n.Flat? && n.endTag == EnumConstTag
    ensures Step(q1, Ddx.End(n.endTag, n.foreign)) == q1.(s := p.s)
  {
    OneMore(p.s, InsideEnumConst);
  }

  lemma ConstPartMeans(p: Parser, n: Item)
    requires Ready(p) && Neat(p) && ModelOf(p).OfEnum? && Divided(n) && Belongs(ModelOf(p), n)
    ensures Run(p, Events(n)) == WithConsts(p, if n.Flat? then [ConstOf(n.attrs)] else [])
    ensures Depth(n, p.otherXmlDepth) == Some(p.otherXmlDepth)
  {
    if n.Data? {
      DataMeans(p, n);
      WithConstsTwice(p, [], []);
    } else {
      ConstMeans(p, n);
    }
  }

  lemma {:induction false} ConstsMean(p: Parser, ns: seq<Item>)
    requires Ready(p) && Neat(p) && ModelOf(p).OfEnum? && AllDivided(ns) && AllBelong(ModelOf(p), ns)
    ensures Run(p, EventsOf(ns)) == WithConsts(p, ConstsOf(ns))
    ensures DepthOfAll(ns, p.otherXmlDepth) == Some(p.otherXmlDepth)
    decreases ns
  {
    if ns == [] {
      WithConstsTwice(p, [], []);
    } else {
      var c := if ns[0].Flat? then [ConstOf(ns[0].attrs)] else [];
      ConstPartMeans(p, ns[0]);
      var q := Run(p, Events(ns[0]));
      RunApart(p, Events(ns[0]), EventsOf(ns[1..]));
      ReturnedIsReady(p, q);
      ConstsMean(q, ns[1..]);
      WithConstsTwice(p, c, ConstsOf(ns[1..]));
    }
  }

  lemma EnumStarts(p: Parser, n: Item) returns (q: Parser)
    requires Ready(p) && Neat(p) && ModelOf(p).OfGroup? && n.Parent? && n.tag.EnumerationTag? && Belongs(ModelOf(p), n)
    ensures q == Step(p, Ddx.Start(n.tag, n.attrs))
    ensures q == p.(s := p.s + [InsideEnumDef], enumDef := EnumDef(Ddx.Lookup(n.attrs, NameKey), BaseType(n.attrs), []))
    ensures Ready(q) && Neat(q) && ModelOf(q) == ContentModel(n.tag, n.attrs)
  {
    q := Step(p, Ddx.Start(n.tag, n.attrs));
    OpeningFollowsGrammar(p, n.tag, n.attrs);
    StartFollowsGrammar(p, n.tag, n.attrs);
    StartKeepsValid(p, n.tag, n.attrs);
    OpenedIsReady(p, q, n.tag, n.attrs);
  }

  lemma EnumEnds(p: Parser, q: Parser, n: Item, d: EnumDef)
    requires Ready(p) && ModelOf(p).OfGroup? && n.Parent? && n.endTag == EnumerationTag
    requires q == p.(s := p.s + [InsideEnumDef], enumDef := d)
    ensures Step(q, Ddx.End(n.endTag, n.foreign)) == p.(enumDef := d, enums := p.enums + [d])
  {
    OneMore(p.s, InsideEnumDef);
  }

  lemma EnumRuns(p: Parser, n: Item, d: EnumDef)
    requires Ready(p) && Neat(p) && ModelOf(p).OfGroup? && n.Parent? && n.tag.EnumerationTag?
    requires Divided(n) && Belongs(ModelOf(p), n)
    requires d == EnumDef(Ddx.Lookup(n.attrs, NameKey), BaseType(n.attrs), ConstsOf(n.content))
    ensures Run(p, Events(n)) == p.(enumDef := d, enums := p.enums + [d])
    ensures Depth(n, p.otherXmlDepth) == Some(p.otherXmlDepth)
  {
    ItemLegs(p, Ddx.Start(n.tag, n.attrs), EventsOf(n.content), Ddx.End(n.endTag, n.foreign));
    var q1 := EnumStarts(p, n);
    ConstsMean(q1, n.content);
    assert [] + ConstsOf(n.content) == ConstsOf(n.content);
    EnumEnds(p, Run(q1, EventsOf(n.content)), n, d);
  }

  lemma EnumGrew(p: Parser, d: EnumDef)
    requires !p.thrown && Neat(p) && p.bt != []
    ensures Grew(p, p.(enumDef := d, enums := p.enums + [d]), [], [d], Ddx.TopTable(p.at).table, p.otherXmlDepth)
  {
    assert Ddx.TopVar(p.bt).kids + [] == Ddx.TopVar(p.bt).kids;
  }

  lemma EnumDeclares(p: Parser, n: Item)
    requires Ready(p) && Neat(p) && ModelOf(p).OfGroup? && p.bt != [] && n.Parent? && n.tag.EnumerationTag?
    requires Divided(n) && Belongs(ModelOf(p), n)
    ensures Declares([n], p, Run(p, Events(n)), Depth(n, p.otherXmlDepth))
  {
    var d := EnumDef(Ddx.Lookup(n.attrs, NameKey), BaseType(n.attrs), ConstsOf(n.content));
    EnumRuns(p, n, d);
    EnumGrew(p, d);
    OneItem(n);
    TableOfOne(n, ModelOf(p), AttrsOf(p));
  }

  // ---------------------------------------------------------------------------------------------
  // Variables
  // ---------------------------------------------------------------------------------------------

  lemma VariableStarts(p: Parser, n: Item) returns (q: Parser)
    requires Ready(p) && Neat(p) && IsStructural(ModelOf(p)) && IsVariable(n) && Divided(n) && Belongs(ModelOf(p), n)
    ensures q == Step(p, Ddx.Start(n.tag, n.attrs))
    ensures q == p.(s := p.s + [ContentState(n.tag, n.attrs)],
                    bt := p.bt + [NewVar(n.tag.ty, Ddx.Lookup(n.attrs, NameKey))], at := p.at + [OpenTable("", [])])
    ensures Ready(q) && Neat(q) && ModelOf(q) == ContentModel(n.tag, n.attrs) && IsStructural(ModelOf(q))
  {
    q := Step(p, Ddx.Start(n.tag, n.attrs));
    OpeningFollowsGrammar(p, n.tag, n.attrs);
    StartFollowsGrammar(p, n.tag, n.attrs);
    StartKeepsValid(p, n.tag, n.attrs);
    OpenedIsReady(p, q, n.tag, n.attrs);
  }

  /** There is nothing but enumerations that define some, and these are in groups. */
  lemma {:induction false} NoEnums(ns: seq<Item>, m: Model)
    requires AllBelong(m, ns) && !m.OfGroup?
    ensures EnumsOf(ns) == []
  {
    if ns != [] { NoEnums(ns[1..], m); }
  }

  lemma TakesKid(p: Parser, q: Parser, v: Var)
    requires Ready(p) && Neat(p) && (ModelOf(p).OfGroup? || ModelOf(p).OfRecord?) && p.bt != [] && !q.thrown
    requires q.s == p.s && q.bt == p.bt && q.at == p.at && q.charData == "" && q.otherXml == "" && q.enums == p.enums
    ensures Grew(p, GiveToParent(q, v), [v], [], Ddx.TopTable(p.at).table, q.otherXmlDepth)
  {
    var parent := Ddx.TopVar(p.bt);
    assert parent.ty.Group? || parent.ty.Structure? || parent.ty.Sequence?;
    assert GiveToParent(q, v) == q.(bt := Ddx.Below(p.bt) + [parent.(kids := parent.kids + [v])]);
    assert p.enums + [] == p.enums;
  }

  /** A variable that has been read goes to the one it is in, with its attributes. */
  lemma VariableGoes(p: Parser, q: Parser, v: Var)
    requires Ready(p) && Neat(p) && (ModelOf(p).OfGroup? || ModelOf(p).OfRecord?) && p.bt != [] && !q.thrown
    requires q.s == p.s + [Top(q.s)] && q.bt == p.bt + [v] && |q.at| == |p.at| + 1 && Ddx.Below(q.at) == p.at
    requires q.charData == "" && q.otherXml == "" && q.enums == p.enums
    ensures Grew(p, GiveToParent(PopVariable(q), v), [v], [], Ddx.TopTable(p.at).table, q.otherXmlDepth)
  {
    BelowPush(p.s, Top(q.s));
    BelowPush(p.bt, v);
    TakesKid(p, PopVariable(q), v);
  }

  lemma VariableEnds(p: Parser, n: Item, q: Parser, w: Var, t: Table)
    requires Ready(p) && Neat(p) && IsStructural(ModelOf(p)) && p.bt != [] && IsVariable(n) && Divided(n) && Belongs(ModelOf(p), n)
    requires !q.thrown && q.s == p.s + [ContentState(n.tag, n.attrs)] && q.enums == p.enums && Neat(q)
    requires q.bt == p.bt + [w] && q.at == p.at + [OpenTable("", t)] && w.ty == n.tag.ty
    ensures Grew(p, Step(q, Ddx.End(n.endTag, n.foreign)), [w.(attrs := t)], [], Ddx.TopTable(p.at).table, q.otherXmlDepth)
  {
    var v := w.(attrs := t);
    BelowPush(p.at, OpenTable("", t));
    OneMore(p.s, ContentState(n.tag, n.attrs));
    ClosesIff(ModelOf(p), n.tag, n.attrs, n.endTag, n.foreign);
    assert FinishedVar(q) == v;
    FinishesAtEnd(q, n);
    VariableGoes(p, q.(bt := p.bt + [v]), v);
    BelowPush(p.bt, v);
    BelowPush(p.bt, w);
    assert PopVariable(q.(bt := p.bt + [v])) == PopVariable(q);
  }

  lemma FinishesAtEnd(q: Parser, n: Item)
    requires IsVariable(n) && !q.thrown && Closes(n.tag, n.endTag) && FinishedVar(q).ty == n.tag.ty
    requires n.tag.ty.Structure? || n.tag.ty.Sequence? || IsSimple(n.tag.ty)
    requires ClosingOf(Top(q.s), n.endTag, n.foreign) == OwnClosing(n.tag, n.attrs)
    ensures Step(q, Ddx.End(n.endTag, n.foreign)) == GiveToParent(PopVariable(q), FinishedVar(q))
  {}

  /** The machine at the end tag of a variable, given what its content has done. */
  lemma ContentRead(p: Parser, n: Item, q1: Parser, q2: Parser)
    requires Ready(p) && Neat(p) && IsStructural(ModelOf(p)) && IsVariable(n) && Divided(n) && Belongs(ModelOf(p), n)
    requires q1 == p.(s := q1.s, bt := p.bt + [NewVar(n.tag.ty, Ddx.Lookup(n.attrs, NameKey))], at := p.at + [OpenTable("", [])])
    requires q1.s == p.s + [ContentState(n.tag, n.attrs)] && Unclashing(n.content, [])
    requires Declares(n.content, q1, q2, DepthOfAll(n.content, p.otherXmlDepth))
    ensures !q2.thrown && q2.s == q1.s && Neat(q2) && q2.enums == p.enums
    ensures q2.at == p.at + [OpenTable("", TableAfter(n.content, []).value)]
    ensures exists w: Var :: q2.bt == p.bt + [w] && w.ty == n.tag.ty && w.(attrs := TableAfter(n.content, []).value) == VarOf(n)
    ensures Some(q2.otherXmlDepth) == DepthOfAll(n.content, p.otherXmlDepth)
  {
    var v := NewVar(n.tag.ty, Ddx.Lookup(n.attrs, NameKey));
    NoEnums(n.content, ContentModel(n.tag, n.attrs));
    BelowPush(p.bt, v);
    BelowPush(p.at, OpenTable("", []));
    var w := Grown(v, VarsOf(n.content));
    assert [] + VarsOf(n.content) == VarsOf(n.content);
    assert q2.bt == p.bt + [w] && w.(attrs := TableAfter(n.content, []).value) == VarOf(n);
    assert p.enums + [] == p.enums;
  }

  lemma {:induction false} VariableDeclares(p: Parser, n: Item)
    requires Ready(p) && Neat(p) && IsStructural(ModelOf(p)) && p.bt != [] && IsVariable(n)
    requires Divided(n) && Belongs(ModelOf(p), n) && Depth(n, p.otherXmlDepth).Some?
    ensures Declares([n], p, Run(p, Events(n)), Depth(n, p.otherXmlDepth))
    decreases n, 0
  {
    var end := Ddx.End(n.endTag, n.foreign);
    ItemLegs(p, Ddx.Start(n.tag, n.attrs), EventsOf(n.content), end);
    var q1 := VariableStarts(p, n);
    var q2 := Run(q1, EventsOf(n.content));
    BelowPush(p.at, OpenTable("", []));
    ItemsDeclare(q1, n.content);
    OneItem(n);
    TableOfOne(n, ModelOf(p), AttrsOf(p));
    if Unclashing(n.content, []) {
      ContentRead(p, n, q1, q2);
      var w: Var :| q2.bt == p.bt + [w] && w.ty == n.tag.ty && w.(attrs := TableAfter(n.content, []).value) == VarOf(n);
      VariableEnds(p, n, q2, w, TableAfter(n.content, []).value);
    } else {
      NotCleanAfter(q2, [end]);
      RunOne(q2, end);
    }
  }

  lemma {:induction false} ItemDeclares(p: Parser, n: Item)
    requires Ready(p) && Neat(p) && IsStructural(ModelOf(p)) && p.bt != []
    requires Divided(n) && Belongs(ModelOf(p), n) && Depth(n, p.otherXmlDepth).Some?
    ensures Declares([n], p, Run(p, Events(n)), Depth(n, p.otherXmlDepth))
    decreases n, 1
  {
    if n.Data? {
      DataDeclares(p, n);
    } else if IsAttribute(n) {
      AttributeDeclares(p, n);
    } else if IsVariable(n) {
      VariableDeclares(p, n);
    } else {
      EnumDeclares(p, n);
    }
  }

  lemma TablesAgree(n: Item, rest: seq<Item>, m: Model, a: Attrs)
    requires Divided(n) && Belongs(m, n) && AllDivided(rest) && AllBelong(m, rest)
    ensures TableAfter([n] + rest, a.t) ==
      match TableAfter([n], a.t) case Some(t) => TableAfter(rest, t) case None => None
  {
    FirstAttribute(n, rest, m, a);
    TableOfOne(n, m, a);
  }

  lemma DeclaresTwice(n: Item, rest: seq<Item>, m: Model, p: Parser, q: Parser, r: Parser, d: Option<nat>, e: Option<nat>)
    requires Divided(n) && Belongs(m, n) && AllDivided(rest) && AllBelong(m, rest) && p.at != []
    requires Declares([n], p, q, d) && e.Some?
    requires q.thrown ==> r.thrown
    requires !q.thrown ==> Declares(rest, q, r, e)
    ensures Declares([n] + rest, p, r, e)
  {
    var a, t := AttrsOf(p), Ddx.TopTable(p.at).table;
    TablesAgree(n, rest, m, a);
    MoreItems(n, rest);
    if Unclashing([n], t) {
      var u := TableAfter([n], t).value;
      BelowPush(Ddx.Below(p.at), OpenTable(Ddx.TopTable(p.at).name, u));
      assert Ddx.TopTable(q.at).table == u;
      if Unclashing(rest, u) {
        GrewTwice(p, q, r, VarsOf([n]), VarsOf(rest), EnumsOf([n]), EnumsOf(rest), u, TableAfter(rest, u).value, d.value, e.value);
      }
    }
  }

  /** What some items make of the machine is what they declare; it throws exactly when two attributes clash. */
  lemma {:induction false} ItemsDeclare(p: Parser, ns: seq<Item>)
    requires Ready(p) && Neat(p) && IsStructural(ModelOf(p)) && p.bt != []
    requires AllDivided(ns) && AllBelong(ModelOf(p), ns) && DepthOfAll(ns, p.otherXmlDepth).Some?
    ensures Declares(ns, p, Run(p, EventsOf(ns)), DepthOfAll(ns, p.otherXmlDepth))
    decreases ns
  {
    if ns == [] {
      GrewNothing(p);
    } else {
      var n, rest := ns[0], ns[1..];
      assert ns == [n] + rest;
      var q := PastItemDeclared(p, n, rest);
      if !q.thrown { ItemsDeclare(q, rest); }
      DeclaresTwice(n, rest, ModelOf(p), p, q, Run(q, EventsOf(rest)), Depth(n, p.otherXmlDepth), DepthOfAll(ns, p.otherXmlDepth));
    }
  }

  lemma {:induction false} PastItemDeclared(p: Parser, n: Item, rest: seq<Item>) returns (q: Parser)
    requires Ready(p) && Neat(p) && IsStructural(ModelOf(p)) && p.bt != []
    requires Divided(n) && Belongs(ModelOf(p), n) && Depth(n, p.otherXmlDepth).Some?
    ensures Declares([n], p, q, Depth(n, p.otherXmlDepth))
    ensures Run(p, Events(n) + EventsOf(rest)) == Run(q, EventsOf(rest)) && (q.thrown ==> Run(q, EventsOf(rest)).thrown)
    ensures !q.thrown ==>
      Ready(q) && Neat(q) && ModelOf(q) == ModelOf(p) && q.bt != [] && Some(q.otherXmlDepth) == Depth(n, p.otherXmlDepth)
    decreases n, 2
  {
    q := Run(p, Events(n));
    ItemDeclares(p, n);
    ItemFollows(p, n);
    RunApart(p, Events(n), EventsOf(rest));
    NotCleanAfter(q, EventsOf(rest));
    if !q.thrown { ReturnedIsReady(p, q); }
  }

  // ---------------------------------------------------------------------------------------------
  // Whole documents
  // ---------------------------------------------------------------------------------------------

  /** The root group that an element of the document makes: a group with the variables declared in it. */
  function RootOf(n: Item): Var
    requires n.Parent?
  {
    Var(Group, "root", false, [], VarsOf(n.content), [], NoValue)
  }

  function RootsOf(ns: seq<Item>): seq<Var> {
    if ns == [] then [] else (if ns[0].Parent? then [RootOf(ns[0])] else []) + RootsOf(ns[1..])
  }

  /** The tables of the groups, which are their attributes. */
  function TablesOf(ns: seq<Item>): seq<OpenTable> {
    if ns == [] then []
    else
      (if ns[0].Parent? && TableAfter(ns[0].content, []).Some? then [OpenTable("", TableAfter(ns[0].content, []).value)] else []) +
      TablesOf(ns[1..])
  }

  function AllEnumsOf(ns: seq<Item>): seq<EnumDef> {
    if ns == [] then [] else (if ns[0].Parent? then EnumsOf(ns[0].content) else []) + AllEnumsOf(ns[1..])
  }

  predicate RootsUnclashing(ns: seq<Item>) {
    ns == [] || ((ns[0].Parent? ==> Unclashing(ns[0].content, [])) && RootsUnclashing(ns[1..]))
  }

  predicate Idle(p: Parser) {
    Ready(p) && Top(p.s).ParserStart? && p.charData == "" && p.otherXml == ""
  }

  /** The machine back at the bottom with some roots more. */
  predicate HasRoots(p: Parser, q: Parser, vs: seq<Var>, ts: seq<OpenTable>, es: seq<EnumDef>) {
    Idle(q) && q.bt == p.bt + vs && q.at == p.at + ts && q.enums == p.enums + es
  }

  lemma RootStarts(p: Parser, n: Item) returns (q: Parser)
    requires Idle(p) && n.Parent? && Divided(n) && Belongs(OfDocument, n)
    ensures q == Step(p, Ddx.Start(n.tag, n.attrs))
    ensures q == p.(s := p.s + [InsideGroup], bt := p.bt + [NewVar(Group, "root")], at := p.at + [OpenTable("", [])])
    ensures Ready(q) && Neat(q) && ModelOf(q).OfGroup? && ContentModel(n.tag, n.attrs) == OfGroup
  {
    q := Step(p, Ddx.Start(n.tag, n.attrs));
    OpeningFollowsGrammar(p, n.tag, n.attrs);
    StartFollowsGrammar(p, n.tag, n.attrs);
    StartKeepsValid(p, n.tag, n.attrs);
    OpenedIsReady(p, q, n.tag, n.attrs);
  }

  lemma RootDeclares(p: Parser, n: Item)
    requires Idle(p) && n.Parent? && Divided(n) && Belongs(OfDocument, n) && Depth(n, p.otherXmlDepth).Some?
    ensures var q := Run(p, Events(n));
      if Unclashing(n.content, []) then
        HasRoots(p, q, [RootOf(n)], [OpenTable("", TableAfter(n.content, []).value)], EnumsOf(n.content)) &&
        Some(q.otherXmlDepth) == Depth(n, p.otherXmlDepth)
      else q.thrown
  {
    var end := Ddx.End(n.endTag, n.foreign);
    ItemLegs(p, Ddx.Start(n.tag, n.attrs), EventsOf(n.content), end);
    var q1 := RootStarts(p, n);
    var q2 := Run(q1, EventsOf(n.content));
    BelowPush(p.bt, NewVar(Group, "root"));
    BelowPush(p.at, OpenTable("", []));
    ItemsDeclare(q1, n.content);
    ItemFollows(p, n);
    if Unclashing(n.content, []) {
      RootEnds(p, n, q1, q2);
    } else {
      NotCleanAfter(q2, [end]);
      RunOne(q2, end);
    }
  }

  lemma RootEnds(p: Parser, n: Item, q1: Parser, q2: Parser)
    requires Idle(p) && n.Parent? && Belongs(OfDocument, n) && Unclashing(n.content, [])
    requires q1 == p.(s := p.s + [InsideGroup], bt := p.bt + [NewVar(Group, "root")], at := p.at + [OpenTable("", [])])
    requires Declares(n.content, q1, q2, DepthOfAll(n.content, p.otherXmlDepth))
    ensures var r := Step(q2, Ddx.End(n.endTag, n.foreign));
      !r.thrown && r.s == p.s && r.charData == "" && r.otherXml == "" && r.bt == p.bt + [RootOf(n)] &&
      r.at == p.at + [OpenTable("", TableAfter(n.content, []).value)] && r.enums == p.enums + EnumsOf(n.content) &&
      Some(r.otherXmlDepth) == DepthOfAll(n.content, p.otherXmlDepth)
  {
    BelowPush(p.bt, NewVar(Group, "root"));
    BelowPush(p.at, OpenTable("", []));
    OneMore(p.s, InsideGroup);
    assert [] + VarsOf(n.content) == VarsOf(n.content);
    assert Step(q2, Ddx.End(n.endTag, n.foreign)) == PopState(q2);
  }

  lemma OutsideData(p: Parser, n: Item)
    requires Idle(p) && n.Data? && Divided(n) && Belongs(OfDocument, n)
    ensures Run(p, Events(n)) == p
  {
    RunOne(p, n.data);
  }

  lemma {:induction false} RootsDeclare(p: Parser, ns: seq<Item>)
    requires Idle(p) && AllDivided(ns) && AllBelong(OfDocument, ns) && DepthOfAll(ns, p.otherXmlDepth).Some?
    ensures var q := Run(p, EventsOf(ns));
      if RootsUnclashing(ns) then HasRoots(p, q, RootsOf(ns), TablesOf(ns), AllEnumsOf(ns)) else q.thrown
    decreases |ns|
  {
    if ns == [] {
      assert p.bt + [] == p.bt && p.at + [] == p.at && p.enums + [] == p.enums;
    } else {
      var n, rest := ns[0], ns[1..];
      var q := Run(p, Events(n));
      RunApart(p, Events(n), EventsOf(rest));
      NotCleanAfter(q, EventsOf(rest));
      if n.Data? {
        OutsideData(p, n);
        RootsDeclare(p, rest);
        assert RootsOf(ns) == [] + RootsOf(rest) == RootsOf(rest);
        assert TablesOf(ns) == [] + TablesOf(rest) == TablesOf(rest);
        assert AllEnumsOf(ns) == [] + AllEnumsOf(rest) == AllEnumsOf(rest);
      } else {
        RootDeclares(p, n);
        if !q.thrown {
          RootsDeclare(q, rest);
          MoreRoots(p, ns);
        }
      }
    }
  }

  lemma Joined<T>(a: seq<T>, b: seq<T>, c: seq<T>)
    ensures (a + b) + c == a + (b + c)
  {}

  lemma MoreRoots(p: Parser, ns: seq<Item>)
    requires ns != [] && ns[0].Parent? && TableAfter(ns[0].content, []).Some?
    ensures (p.bt + [RootOf(ns[0])]) + RootsOf(ns[1..]) == p.bt + RootsOf(ns)
    ensures (p.at + [OpenTable("", TableAfter(ns[0].content, []).value)]) + TablesOf(ns[1..]) == p.at + TablesOf(ns)
    ensures (p.enums + EnumsOf(ns[0].content)) + AllEnumsOf(ns[1..]) == p.enums + AllEnumsOf(ns)
  {
    Joined(p.bt, [RootOf(ns[0])], RootsOf(ns[1..]));
    Joined(p.at, [OpenTable("", TableAfter(ns[0].content, []).value)], TablesOf(ns[1..]));
    Joined(p.enums, EnumsOf(ns[0].content), AllEnumsOf(ns[1..]));
  }

  /** A member of the grammar is accepted exactly when no two of its attributes clash; and then the parse has built
      what it declares: a group with its variables, its attributes and its enumerations, all in document order. */
  lemma AcceptedIsDeclared(ns: seq<Item>)
    requires IsMember(ns)
    ensures var q := Run(Initial(), EventsOf(ns));
      (Accepts(q) <==> RootsUnclashing(ns)) &&
      (Accepts(q) ==> q.bt == RootsOf(ns) && q.at == TablesOf(ns) && q.enums == AllEnumsOf(ns))
  {
    InitialIsReady();
    RootsDeclare(Initial(), ns);
    assert [] + RootsOf(ns) == RootsOf(ns) && [] + TablesOf(ns) == TablesOf(ns) && [] + AllEnumsOf(ns) == AllEnumsOf(ns);
  }

  /** The variables of a group or a variable: one for each variable element in it, in order. */
  lemma {:induction false} OneForEach(ns: seq<Item>, i: nat)
    requires i < |ns| && IsVariable(ns[i])
    ensures var k := |VarsOf(ns[..i])|; k < |VarsOf(ns)| && VarsOf(ns)[k] == VarOf(ns[i])
    decreases |ns|
  {
    if i == 0 {
      assert ns[..0] == [];
    } else {
      OneForEach(ns[1..], i - 1);
      assert ns[..i] == [ns[0]] + ns[1..][..i - 1] && ns[..i][1..] == ns[1..][..i - 1];
    }
  }
}
