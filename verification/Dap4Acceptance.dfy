/** Every sequence of callbacks the DAP4 parsing machine accepts, well formed or not. Besides the markup of OtherXML
    attributes, start tags within a value and within an enumeration constant are swallowed; there the first end
    tag has to be that of the value or the constant. */
module Dap4Acceptance {
  import opened Wrappers
  import opened Text
  import opened Types
  import opened Attributes
  import opened Variables
  import opened Dap4Machine
  import Ddx = DdxMachine
  import Sibling = DdxAcceptance

  /** A part of a document as the machine divides it. A flat element, a value or an enumeration constant, holds a
      run of events without an end tag. */
  datatype Item =
    | Parent(tag: Tag, attrs: map<Key, string>, content: seq<Item>, endTag: Tag, foreign: bool)
    | Flat(tag: Tag, attrs: map<Key, string>, body: seq<Ddx.Event>, endTag: Tag, foreign: bool)
    | OtherXml(attrs: map<Key, string>, markup: seq<Ddx.Event>)
    | Data(data: Ddx.Event)

  function Events(n: Item): seq<Ddx.Event> {
    match n
    case Parent(tag, attrs, content, endTag, foreign) =>
      [Ddx.Start(tag, attrs)] + EventsOf(content) + [Ddx.End(endTag, foreign)]
    case Flat(tag, attrs, body, endTag, foreign) => [Ddx.Start(tag, attrs)] + body + [Ddx.End(endTag, foreign)]
    case OtherXml(attrs, markup) => [Ddx.Start(AttributeTag, attrs)] + markup + [Ddx.End(AttributeTag, false)]
    case Data(e) => [e]
  }

  function EventsOf(ns: seq<Item>): seq<Ddx.Event> {
    if ns == [] then [] else Events(ns[0]) + EventsOf(ns[1..])
  }

  predicate IsFlat(tag: Tag) {
    tag == ValueTag || tag == EnumConstTag
  }

  /** Is the document divided the way the machine does it? */
  predicate Divided(n: Item)
    decreases n
  {
    match n
    case Parent(tag, attrs, content, _, _) => !Sibling.IsOtherXml(tag, attrs) && !IsFlat(tag) && AllDivided(content)
    case Flat(tag, _, body, _, _) => IsFlat(tag) && forall e :: e in body ==> !e.End? && !e.Complaint?
    case OtherXml(attrs, markup) => Sibling.IsOtherXml(AttributeTag, attrs) && forall e :: e in markup ==> Sibling.IsMarkup(e)
    case Data(e) => e.Chars? || e.IgnorableWhitespace? || e.Cdata?
  }

  predicate AllDivided(ns: seq<Item>)
    decreases ns
  {
    ns == [] || (Divided(ns[0]) && AllDivided(ns[1..]))
  }

  // ---------------------------------------------------------------------------------------------
  // The grammar
  // ---------------------------------------------------------------------------------------------

  /** What the content of an element may be; that of an enumeration depends on its base type. */
  datatype Model =
    | OfDocument | OfGroup | OfContainer | OfAttribute | OfEnum(ty: Type) | OfScalar | OfRecord | OfNothing

  predicate TakesAttributes(m: Model) {
    m.OfGroup? || m.OfContainer? || m.OfAttribute? || m.OfScalar? || m.OfRecord?
  }

  /** May the element stand there? There are no arrays, Grids, maps or dimensions. */
  predicate Placed(m: Model, tag: Tag) {
    match tag
    case AttributeTag => TakesAttributes(m)
    case ValueTag => m.OfAttribute?
    case EnumerationTag => m.OfGroup?
    case EnumConstTag => m.OfEnum?
    case TypeTag(ty) =>
      if ty.Group? then m.OfDocument?
      else (m.OfGroup? || m.OfRecord?) && (IsSimple(ty) || ty.Structure? || ty.Sequence?)
    case _ => false
  }

  predicate HasRequired(m: Model, tag: Tag, attrs: map<Key, string>) {
    match tag
    case AttributeTag => NameKey in attrs && TypeKey in attrs
    case ValueTag => true
    case EnumerationTag => NameKey in attrs && BaseTypeKey in attrs && IsInteger(BaseType(attrs))
    case EnumConstTag =>
      NameKey in attrs && ValueKey in attrs && m.OfEnum? &&
      var value := ReadLongLong(attrs[ValueKey]); value.Some? && IsValidEnumValue(m.ty, value.value)
    case _ => NameKey in attrs
  }

  function BaseType(attrs: map<Key, string>): Type {
    GetTypeByName(Ddx.Lookup(attrs, BaseTypeKey))
  }

  function ContentModel(tag: Tag, attrs: map<Key, string>): Model {
    match tag
    case AttributeTag => if Ddx.Lookup(attrs, TypeKey) == "Container" then OfContainer else OfAttribute
    case EnumerationTag => OfEnum(BaseType(attrs))
    case TypeTag(ty) => if ty.Group? then OfGroup else if IsSimple(ty) then OfScalar else OfRecord
    case _ => OfNothing
  }

  predicate Closes(tag: Tag, endTag: Tag) {
    if tag.TypeTag? && IsSimple(tag.ty) then IsSimple(GetType(endTag)) else endTag == tag
  }

  predicate Belongs(m: Model, n: Item)
    decreases n
  {
    match n
    case Parent(tag, attrs, content, endTag, _) =>
      Placed(m, tag) && HasRequired(m, tag, attrs) && AllBelong(ContentModel(tag, attrs), content) && Closes(tag, endTag)
    case Flat(tag, attrs, body, endTag, _) =>
      Placed(m, tag) && HasRequired(m, tag, attrs) && NoCdata(body) && endTag == tag
    case OtherXml(attrs, _) => TakesAttributes(m) && NameKey in attrs
    case Data(e) => !e.Cdata?
  }

  predicate NoCdata(es: seq<Ddx.Event>) {
    forall e :: e in es ==> !e.Cdata?
  }

  predicate AllBelong(m: Model, ns: seq<Item>)
    decreases ns
  {
    ns == [] || (Belongs(m, ns[0]) && AllBelong(m, ns[1..]))
  }

  /** How many elements of OtherXML markup are open after an item; None if an end tag finds none open. */
  function Depth(n: Item, depth: nat): Option<nat>
    decreases n
  {
    match n
    case Parent(_, _, content, _, _) => DepthOfAll(content, depth)
    case OtherXml(_, markup) => Sibling.DepthThrough(markup, depth)
    case _ => Some(depth)
  }

  function DepthOfAll(ns: seq<Item>, depth: nat): Option<nat>
    decreases ns
  {
    if ns == [] then Some(depth) else
    match Depth(ns[0], depth)
    case None => None
    case Some(d) => DepthOfAll(ns[1..], d)
  }

  predicate IsMember(ns: seq<Item>) {
    AllDivided(ns) && AllBelong(OfDocument, ns) && DepthOfAll(ns, 0).Some?
  }

  // ---------------------------------------------------------------------------------------------
  // The machine between items
  // ---------------------------------------------------------------------------------------------

  /** The states that items are read in. */
  predicate Structured(st: State) {
    st.ParserStart? || st.InsideGroup? || st.InsideAttributeContainer? || st.InsideAttribute? || st.InsideEnumDef? ||
    st.InsideSimpleType? || st.InsideConstructor? || st.InsideSequence?
  }

  function ModelOf(p: Parser): Model {
    match Top(p.s)
    case ParserStart => OfDocument
    case InsideGroup => OfGroup
    case InsideAttributeContainer => OfContainer
    case InsideAttribute => OfAttribute
    case InsideEnumDef => OfEnum(p.enumDef.ty)
    case InsideSimpleType => OfScalar
    case InsideConstructor => OfRecord
    case InsideSequence => OfRecord
    case _ => OfNothing
  }

  predicate Clean(p: Parser) {
    !p.thrown && ParserError !in p.s
  }

  /** The variable on top is of the kind that the state on top asks for. */
  predicate Describes(p: Parser) {
    match Top(p.s)
    case InsideGroup => Ddx.TopVar(p.bt).ty == Group
    case InsideConstructor => Ddx.TopVar(p.bt).ty == Structure
    case InsideSequence => Ddx.TopVar(p.bt).ty == Sequence
    case InsideSimpleType => IsSimple(Ddx.TopVar(p.bt).ty)
    case _ => true
  }

  predicate Ready(p: Parser) {
    Valid(p) && Clean(p) && Structured(Top(p.s)) && Describes(p)
  }

  /** The machine is back where it was but for the depth; at most the variable and the table on top have changed, and
      at the bottom there may be another root group. */
  predicate Returned(p: Parser, q: Parser) {
    q.s == p.s && (Top(p.s).InsideEnumDef? ==> q.enumDef.ty == p.enumDef.ty) &&
    (!Top(p.s).ParserStart? ==>
      |q.bt| == |p.bt| && Ddx.Below(q.bt) == Ddx.Below(p.bt) && Ddx.TopVar(q.bt).ty == Ddx.TopVar(p.bt).ty)
  }

  predicate Effect(p: Parser, q: Parser, fits: bool, depth: Option<nat>) {
    q.thrown ||
    (if fits && depth.Some? then Ready(q) && Returned(p, q) && q.otherXmlDepth == depth.value else ParserError in q.s)
  }

  lemma ReturnedIsReady(p: Parser, q: Parser)
    requires Ready(p) && Returned(p, q) && Valid(q) && !q.thrown
    ensures Ready(q) && ModelOf(q) == ModelOf(p)
  {
    TopMatches(p);
  }

  lemma RunParts(p: Parser, first: Ddx.Event, body: seq<Ddx.Event>, last: Ddx.Event)
    ensures Run(p, [first] + body + [last]) == Step(Run(Step(p, first), body), last)
  {
    assert [first] + body + [last] == [first] + (body + [last]);
    RunApart(p, [first], body + [last]);
    RunApart(Step(p, first), body, [last]);
    RunOne(p, first);
    RunOne(Run(Step(p, first), body), last);
  }

  lemma RunOne(p: Parser, e: Ddx.Event)
    ensures Run(p, [e]) == Step(p, e)
  {
    assert [e][1..] == [];
  }

  lemma CleanBefore(p: Parser, a: seq<Ddx.Event>, b: seq<Ddx.Event>)
    requires Clean(Run(p, a + b))
    ensures Clean(Run(p, a)) && Run(Run(p, a), b) == Run(p, a + b)
  {
    RunApart(p, a, b);
    var q := Run(p, a);
    if q.thrown { ThrownStays(q, b); }
    if ParserError in q.s { ErrorIsNeverLost(q, b); }
  }

  lemma NotCleanAfter(p: Parser, es: seq<Ddx.Event>)
    ensures p.thrown ==> Run(p, es).thrown
    ensures ParserError in p.s ==> ParserError in Run(p, es).s
  {
    if p.thrown { ThrownStays(p, es); }
    if ParserError in p.s { ErrorIsNeverLost(p, es); }
  }

  lemma ErrorOnTop(s: seq<State>, more: seq<State>)
    ensures ParserError in s + [ParserError] && ParserError in s + [ParserError] + more
  {
    assert (s + [ParserError])[|s|] == ParserError;
    assert (s + [ParserError] + more)[|s|] == ParserError;
  }

  // ---------------------------------------------------------------------------------------------
  // Start tags
  // ---------------------------------------------------------------------------------------------

  function ContentState(tag: Tag, attrs: map<Key, string>): State {
    match tag
    case AttributeTag =>
      var ty := Ddx.Lookup(attrs, TypeKey);
      if ty == "Container" then InsideAttributeContainer else if ty == "OtherXML" then InsideOtherXml else InsideAttribute
    case ValueTag => InsideAttributeValue
    case EnumerationTag => InsideEnumDef
    case EnumConstTag => InsideEnumConst
    case TypeTag(ty) =>
      if ty.Group? then InsideGroup else if ty.Structure? then InsideConstructor
      else if ty.Sequence? then InsideSequence else InsideSimpleType
    case _ => ParserUnknown
  }

  /** What the start tag of an element that fits leads to. */
  predicate Opened(p: Parser, q: Parser, tag: Tag, attrs: map<Key, string>) {
    !q.thrown && q.s == p.s + [ContentState(tag, attrs)] && q.otherXmlDepth == p.otherXmlDepth &&
    (if tag.TypeTag? then q.bt != [] && Ddx.Below(q.bt) == p.bt && Ddx.TopVar(q.bt).ty == tag.ty else q.bt == p.bt) &&
    q.enumDef.ty == if tag.EnumerationTag? then BaseType(attrs) else p.enumDef.ty
  }

  predicate OpenedOrNot(p: Parser, q: Parser, tag: Tag, attrs: map<Key, string>, fits: bool) {
    q.thrown || if fits then Opened(p, q, tag, attrs) else ParserError in q.s
  }

  lemma RequireFails(p: Parser, attrs: map<Key, string>, key: Key)
    ensures key in attrs ==> Require(p, attrs, key) == p
    ensures key !in attrs ==> Require(p, attrs, key) == p.(s := p.s + [ParserError])
    ensures key !in attrs || ParserError in p.s ==> ParserError in Require(p, attrs, key).s
  {
    ErrorOnTop(p.s, []);
  }

  lemma AttributeOpens(p: Parser, attrs: map<Key, string>)
    requires !p.thrown
    ensures OpenedOrNot(p, ProcessAttribute(p, attrs), AttributeTag, attrs, NameKey in attrs && TypeKey in attrs)
  {
    var p1 := Require(p, attrs, NameKey);
    RequireFails(p, attrs, NameKey);
    RequireFails(p1, attrs, TypeKey);
  }

  lemma VariableOpens(p: Parser, ty: Type, attrs: map<Key, string>)
    requires !p.thrown && ty != NullType && !ty.Group?
    ensures OpenedOrNot(p, ProcessVariable(p, ty, ContentState(TypeTag(ty), attrs), attrs), TypeTag(ty), attrs, NameKey in attrs)
  {
    RequireFails(Push(p, ContentState(TypeTag(ty), attrs)), attrs, NameKey);
  }

  lemma RootOpens(p: Parser, attrs: map<Key, string>)
    requires !p.thrown
    ensures OpenedOrNot(p, StartRoot(p, attrs), TypeTag(Group), attrs, NameKey in attrs)
  {
    RequireFails(Push(p, InsideGroup), attrs, NameKey);
  }

  lemma EnumOpens(p: Parser, attrs: map<Key, string>, m: Model)
    requires !p.thrown
    ensures OpenedOrNot(p, ProcessEnumDef(p, attrs), EnumerationTag, attrs, HasRequired(m, EnumerationTag, attrs))
  {
    var p1 := Require(p, attrs, NameKey);
    RequireFails(p, attrs, NameKey);
    RequireFails(p1, attrs, BaseTypeKey);
    var p2 := Require(p1, attrs, BaseTypeKey);
    ErrorOnTop(p2.s, [InsideEnumDef]);
  }

  lemma ConstOpens(p: Parser, attrs: map<Key, string>)
    requires !p.thrown
    ensures OpenedOrNot(p, ProcessEnumConst(p, attrs), EnumConstTag, attrs,
                        HasRequired(OfEnum(p.enumDef.ty), EnumConstTag, attrs))
  {
    var p1 := Require(p, attrs, NameKey);
    RequireFails(p, attrs, NameKey);
    RequireFails(p1, attrs, ValueKey);
    var p2 := Require(p1, attrs, ValueKey);
    ErrorOnTop(p2.s, [InsideEnumConst]);
  }

  /** The branches of the start-element callback follow the grammar. */
  lemma OpeningFollowsGrammar(p: Parser, tag: Tag, attrs: map<Key, string>)
    requires Structured(Top(p.s))
    ensures var o, m := OpeningOf(Top(p.s), tag), ModelOf(p);
            match o
            case Refused => !Placed(m, tag)
            case OpensRoot => tag == TypeTag(Group) && Placed(m, tag)
            case OpensAttribute => tag.AttributeTag? && Placed(m, tag)
            case OpensValue => tag.ValueTag? && Placed(m, tag)
            case OpensVariable(ty, st) =>
              tag == TypeTag(ty) && Placed(m, tag) && st == ContentState(tag, attrs) && ty != NullType && !ty.Group?
            case OpensEnumDef => tag.EnumerationTag? && Placed(m, tag)
            case OpensEnumConst => tag.EnumConstTag? && Placed(m, tag)
            case _ => false
  {}

  /** A start tag where items are read raises no error exactly when the element fits there. */
  lemma StartFollowsGrammar(p: Parser, tag: Tag, attrs: map<Key, string>)
    requires Ready(p)
    ensures OpenedOrNot(p, Step(p, Ddx.Start(tag, attrs)), tag, attrs, Placed(ModelOf(p), tag) && HasRequired(ModelOf(p), tag, attrs))
  {
    OpeningFollowsGrammar(p, tag, attrs);
    match OpeningOf(Top(p.s), tag)
    case Refused => ErrorOnTop(p.s, []);
    case OpensRoot => RootOpens(p, attrs);
    case OpensAttribute => AttributeOpens(p, attrs);
    case OpensVariable(ty, st) => VariableOpens(p, ty, attrs);
    case OpensEnumDef => EnumOpens(p, attrs, ModelOf(p));
    case OpensEnumConst => ConstOpens(p, attrs);
    case _ =>
  }

  /** After the start tag of an element that fits the machine is ready for its content, or in a state that swallows. */
  lemma OpenedIsReady(p: Parser, q: Parser, tag: Tag, attrs: map<Key, string>)
    requires Ready(p) && Placed(ModelOf(p), tag) && Opened(p, q, tag, attrs) && Valid(q)
    ensures Clean(q)
    ensures IsFlat(tag) || Sibling.IsOtherXml(tag, attrs) || (Ready(q) && ModelOf(q) == ContentModel(tag, attrs))
  {
    assert Top(q.s) == ContentState(tag, attrs);
    assert ContentState(tag, attrs) != ParserError;
  }

  // ---------------------------------------------------------------------------------------------
  // End tags
  // ---------------------------------------------------------------------------------------------

  /** What an end tag does: it closes the element, or it is an error. */
  predicate ClosedOrNot(p: Parser, q: Parser, r: Parser, fits: bool) {
    r.thrown || if fits then Returned(p, r) && r.otherXmlDepth == q.otherXmlDepth else ParserError in r.s
  }

  /** The machine at the end tag of an element that opened from p. */
  predicate AtEnd(p: Parser, q: Parser, tag: Tag, attrs: map<Key, string>) {
    Ready(p) && Placed(ModelOf(p), tag) && !q.thrown && q.s == p.s + [ContentState(tag, attrs)] &&
    (Top(p.s).InsideEnumDef? ==> q.enumDef.ty == p.enumDef.ty) &&
    if tag.TypeTag? then q.bt != [] && Ddx.Below(q.bt) == p.bt && Ddx.TopVar(q.bt).ty == tag.ty
    else |q.bt| == |p.bt| && Ddx.Below(q.bt) == Ddx.Below(p.bt) && Ddx.TopVar(q.bt).ty == Ddx.TopVar(p.bt).ty
  }

  lemma BelowPush<T>(s: seq<T>, x: T)
    ensures Ddx.Below(s + [x]) == s
  {}

  /** A variable goes to the group, Structure or Sequence that it was declared in. */
  lemma GivingReturns(p: Parser, q: Parser, st: State, v: Var)
    requires Ready(p) && (ModelOf(p).OfGroup? || ModelOf(p).OfRecord?) && !q.thrown
    requires q.s == p.s + [st] && q.bt != [] && Ddx.Below(q.bt) == p.bt
    ensures ClosedOrNot(p, q, GiveToParent(PopVariable(q), v), true)
  {
    BelowPush(p.s, st);
    var parent := Ddx.TopVar(p.bt);
    assert parent.ty.Group? || parent.ty.Structure? || parent.ty.Sequence?;
    assert p.bt != [];
    assert GiveToParent(PopVariable(q), v).bt == Ddx.Below(p.bt) + [parent.(kids := parent.kids + [v])];
  }

  /** What an element's own end tag does. */
  function OwnClosing(tag: Tag, attrs: map<Key, string>): Closing {
    match tag
    case AttributeTag => if Ddx.Lookup(attrs, TypeKey) == "Container" then ClosesContainer else Leaves
    case ValueTag => ClosesValue
    case EnumerationTag => ClosesEnum
    case TypeTag(ty) => if ty.Group? then Leaves else if IsSimple(ty) then ClosesSimple else ClosesVariable(ty)
    case _ => Leaves
  }

  /** An end tag that closes an element does what its own would do; any other is an error. */
  lemma ClosesIff(m: Model, tag: Tag, attrs: map<Key, string>, endTag: Tag, foreign: bool)
    requires Placed(m, tag) && !Sibling.IsOtherXml(tag, attrs)
    ensures ClosingOf(ContentState(tag, attrs), endTag, foreign) ==
      if Closes(tag, endTag) then OwnClosing(tag, attrs) else Unexpected
  {}

  lemma FinishesVariable(q: Parser, ty: Type)
    requires !q.thrown && FinishedVar(q).ty == ty && !ty.ArrayType?
    ensures FinishVariable(q, ty) == GiveToParent(PopVariable(q), FinishedVar(q))
  {}

  lemma VariableCloses(p: Parser, q: Parser, tag: Tag, attrs: map<Key, string>)
    requires AtEnd(p, q, tag, attrs) && tag.TypeTag? && !tag.ty.Group?
    ensures ClosedOrNot(p, q, PerformClosing(q, OwnClosing(tag, attrs)), true)
  {
    GivingReturns(p, q, ContentState(tag, attrs), FinishedVar(q));
    assert FinishedVar(q).ty == tag.ty && !tag.ty.ArrayType?;
    FinishesVariable(q, tag.ty);
    assert PerformClosing(q, OwnClosing(tag, attrs)) == GiveToParent(PopVariable(q), FinishedVar(q));
  }

  lemma OtherCloses(p: Parser, q: Parser, tag: Tag, attrs: map<Key, string>)
    requires AtEnd(p, q, tag, attrs) && (!tag.TypeTag? || tag.ty.Group?) && !tag.ValueTag?
    ensures ClosedOrNot(p, q, PerformClosing(q, OwnClosing(tag, attrs)), true)
  {
    BelowPush(p.s, ContentState(tag, attrs));
  }

  lemma ValueCloses(p: Parser, q: Parser, attrs: map<Key, string>)
    requires AtEnd(p, q, ValueTag, attrs)
    ensures ClosedOrNot(p, q, PerformClosing(q, ClosesValue), true)
  {
    BelowPush(p.s, InsideAttributeValue);
  }

  lemma MarkupCloses(p: Parser, q: Parser, attrs: map<Key, string>)
    requires AtEnd(p, q, AttributeTag, attrs) && Sibling.IsOtherXml(AttributeTag, attrs)
    ensures ClosedOrNot(p, q, Step(q, Ddx.End(AttributeTag, false)), true)
  {
    Sibling.TypeIsThere(attrs);
    BelowPush(p.s, InsideOtherXml);
    assert Top(q.s) == InsideOtherXml;
  }

  /** An end tag is an error unless it closes the element. */
  lemma EndFollowsGrammar(p: Parser, q: Parser, n: Item)
    requires (n.Parent? && !Sibling.IsOtherXml(n.tag, n.attrs)) || n.Flat?
    requires n.Flat? ==> IsFlat(n.tag)
    requires AtEnd(p, q, n.tag, n.attrs) && Valid(q)
    ensures Effect(p, Step(q, Ddx.End(n.endTag, n.foreign)), Closes(n.tag, n.endTag), Some(q.otherXmlDepth))
  {
    var e, c := Ddx.End(n.endTag, n.foreign), OwnClosing(n.tag, n.attrs);
    assert Top(q.s) == ContentState(n.tag, n.attrs);
    ClosesIff(ModelOf(p), n.tag, n.attrs, n.endTag, n.foreign);
    StepKeepsValid(q, e);
    if !Closes(n.tag, n.endTag) {
      assert Step(q, e) == Fatal(q);
      ErrorOnTop(q.s, []);
    } else {
      assert Step(q, e) == PerformClosing(q, c);
      OwnTagCloses(p, q, n.tag, n.attrs);
      if !Step(q, e).thrown { ReturnedIsReady(p, Step(q, e)); }
    }
  }

  lemma OwnTagCloses(p: Parser, q: Parser, tag: Tag, attrs: map<Key, string>)
    requires AtEnd(p, q, tag, attrs)
    ensures ClosedOrNot(p, q, PerformClosing(q, OwnClosing(tag, attrs)), true)
  {
    if tag.ValueTag? {
      ValueCloses(p, q, attrs);
    } else if tag.TypeTag? && !tag.ty.Group? {
      VariableCloses(p, q, tag, attrs);
    } else {
      OtherCloses(p, q, tag, attrs);
    }
  }

  // ---------------------------------------------------------------------------------------------
  // What is swallowed
  // ---------------------------------------------------------------------------------------------

  lemma MarkupStep(p: Parser, e: Ddx.Event)
    requires Clean(p) && Top(p.s).InsideOtherXml? && Sibling.IsMarkup(e)
    ensures var q, d := Step(p, e), Sibling.DepthThrough([e], p.otherXmlDepth);
      if d.Some? then q == p.(otherXmlDepth := d.value, otherXml := q.otherXml) else ParserError in q.s
  {
    assert [e][1..] == [];
    ErrorOnTop(p.s, []);
  }

  lemma {:induction false} MarkupRuns(p: Parser, es: seq<Ddx.Event>)
    requires Clean(p) && Top(p.s).InsideOtherXml? && forall e :: e in es ==> Sibling.IsMarkup(e)
    ensures var q, d := Run(p, es), Sibling.DepthThrough(es, p.otherXmlDepth);
      if d.Some? then q == p.(otherXmlDepth := d.value, otherXml := q.otherXml) else ParserError in q.s
    decreases |es|
  {
    if es != [] {
      MarkupStep(p, es[0]);
      Sibling.DepthApart(es[0], es, p.otherXmlDepth);
      var q := Step(p, es[0]);
      NotCleanAfter(q, es[1..]);
      if Sibling.DepthThrough([es[0]], p.otherXmlDepth).Some? { MarkupRuns(q, es[1..]); }
    }
  }

  /** Within a value or an enumeration constant start tags are passed over. */
  lemma {:induction false} FlatRuns(p: Parser, es: seq<Ddx.Event>)
    requires Clean(p) && (Top(p.s).InsideAttributeValue? || Top(p.s).InsideEnumConst?)
    requires forall e :: e in es ==> !e.End? && !e.Complaint?
    ensures var q := Run(p, es); if NoCdata(es) then q == p.(charData := q.charData) else ParserError in q.s
    decreases |es|
  {
    if es != [] {
      var q := Step(p, es[0]);
      ErrorOnTop(p.s, []);
      assert es[0] in es;
      assert forall e :: e in es <==> e == es[0] || e in es[1..];
      assert if es[0].Cdata? then ParserError in q.s else q == p.(charData := q.charData);
      NotCleanAfter(q, es[1..]);
      if !es[0].Cdata? { FlatRuns(q, es[1..]); }
    }
  }

  // ---------------------------------------------------------------------------------------------
  // Whole items
  // ---------------------------------------------------------------------------------------------

  /** From the start tag on, in three legs. */
  lemma ItemLegs(p: Parser, start: Ddx.Event, body: seq<Ddx.Event>, end: Ddx.Event)
    ensures var q1 := Step(p, start); var q2 := Run(q1, body);
      Run(p, [start] + body + [end]) == Step(q2, end) && (q1.thrown ==> q2.thrown) &&
      (ParserError in q1.s ==> ParserError in q2.s) && (ParserError in q2.s ==> ParserError in Step(q2, end).s)
  {
    RunParts(p, start, body, end);
    NotCleanAfter(Step(p, start), body);
    NotCleanAfter(Run(Step(p, start), body), [end]);
    RunOne(Run(Step(p, start), body), end);
  }

  lemma DataFollows(p: Parser, n: Item)
    requires Ready(p) && n.Data? && Divided(n)
    ensures Effect(p, Run(p, Events(n)), Belongs(ModelOf(p), n), Depth(n, p.otherXmlDepth))
  {
    RunOne(p, n.data);
    ErrorOnTop(p.s, []);
  }

  lemma OtherXmlFollows(p: Parser, n: Item)
    requires Ready(p) && n.OtherXml? && Divided(n)
    ensures Effect(p, Run(p, Events(n)), Belongs(ModelOf(p), n), Depth(n, p.otherXmlDepth))
  {
    var start, end := Ddx.Start(AttributeTag, n.attrs), Ddx.End(AttributeTag, false);
    ItemLegs(p, start, n.markup, end);
    StartFollowsGrammar(p, AttributeTag, n.attrs);
    StartKeepsValid(p, AttributeTag, n.attrs);
    Sibling.TypeIsThere(n.attrs);
    var q1 := Step(p, start);
    if !q1.thrown && Belongs(ModelOf(p), n) {
      OpenedIsReady(p, q1, AttributeTag, n.attrs);
      assert ContentState(AttributeTag, n.attrs) == InsideOtherXml;
      MarkupRuns(q1, n.markup);
      if Sibling.DepthThrough(n.markup, p.otherXmlDepth).Some? { SwallowedEnds(p, Run(q1, n.markup), n.attrs); }
    }
  }

  lemma SwallowedEnds(p: Parser, q: Parser, attrs: map<Key, string>)
    requires AtEnd(p, q, AttributeTag, attrs) && Sibling.IsOtherXml(AttributeTag, attrs) && Valid(q)
    ensures Effect(p, Step(q, Ddx.End(AttributeTag, false)), true, Some(q.otherXmlDepth))
  {
    MarkupCloses(p, q, attrs);
    StepKeepsValid(q, Ddx.End(AttributeTag, false));
    var r := Step(q, Ddx.End(AttributeTag, false));
    if !r.thrown { ReturnedIsReady(p, r); }
  }

  lemma FlatFollows(p: Parser, n: Item)
    requires Ready(p) && n.Flat? && Divided(n)
    ensures Effect(p, Run(p, Events(n)), Belongs(ModelOf(p), n), Depth(n, p.otherXmlDepth))
  {
    ItemLegs(p, Ddx.Start(n.tag, n.attrs), n.body, Ddx.End(n.endTag, n.foreign));
    StartFollowsGrammar(p, n.tag, n.attrs);
    StartKeepsValid(p, n.tag, n.attrs);
    var q1 := Step(p, Ddx.Start(n.tag, n.attrs));
    if !q1.thrown && Placed(ModelOf(p), n.tag) && HasRequired(ModelOf(p), n.tag, n.attrs) {
      OpenedIsReady(p, q1, n.tag, n.attrs);
      FlatRuns(q1, n.body);
      if NoCdata(n.body) { EndFollowsGrammar(p, Run(q1, n.body), n); }
    }
  }

  /** What its content and its end tag make of an element whose start tag has been accepted. */
  lemma ParentEnds(p: Parser, n: Item, q1: Parser, q2: Parser)
    requires Ready(p) && n.Parent? && Divided(n) && Placed(ModelOf(p), n.tag) && HasRequired(ModelOf(p), n.tag, n.attrs)
    requires Opened(p, q1, n.tag, n.attrs) && !q2.thrown
    requires Effect(q1, q2, AllBelong(ContentModel(n.tag, n.attrs), n.content), DepthOfAll(n.content, q1.otherXmlDepth))
    requires ParserError in q2.s ==> ParserError in Step(q2, Ddx.End(n.endTag, n.foreign)).s
    ensures Effect(p, Step(q2, Ddx.End(n.endTag, n.foreign)), Belongs(ModelOf(p), n), Depth(n, p.otherXmlDepth))
  {
    if AllBelong(ContentModel(n.tag, n.attrs), n.content) && DepthOfAll(n.content, q1.otherXmlDepth).Some? {
      assert Top(q1.s) == ContentState(n.tag, n.attrs);
      EndFollowsGrammar(p, q2, n);
    }
  }

  lemma ParentFollows(p: Parser, n: Item, q1: Parser, q2: Parser)
    requires Ready(p) && n.Parent? && Divided(n)
    requires q1 == Step(p, Ddx.Start(n.tag, n.attrs)) && q2 == Run(q1, EventsOf(n.content))
    requires Ready(q1) && ModelOf(q1) == ContentModel(n.tag, n.attrs) ==>
      Effect(q1, q2, AllBelong(ContentModel(n.tag, n.attrs), n.content), DepthOfAll(n.content, q1.otherXmlDepth))
    ensures Effect(p, Run(p, Events(n)), Belongs(ModelOf(p), n), Depth(n, p.otherXmlDepth))
  {
    ItemLegs(p, Ddx.Start(n.tag, n.attrs), EventsOf(n.content), Ddx.End(n.endTag, n.foreign));
    StartFollowsGrammar(p, n.tag, n.attrs);
    StartKeepsValid(p, n.tag, n.attrs);
    if !q2.thrown && Placed(ModelOf(p), n.tag) && HasRequired(ModelOf(p), n.tag, n.attrs) {
      OpenedIsReady(p, q1, n.tag, n.attrs);
      ParentEnds(p, n, q1, q2);
    }
  }

  lemma {:induction false} ItemFollows(p: Parser, n: Item)
    requires Ready(p) && Divided(n)
    ensures Effect(p, Run(p, Events(n)), Belongs(ModelOf(p), n), Depth(n, p.otherXmlDepth))
    decreases n
  {
    match n
    case Data(_) => DataFollows(p, n);
    case OtherXml(_, _) => OtherXmlFollows(p, n);
    case Flat(_, _, _, _, _) => FlatFollows(p, n);
    case Parent(tag, attrs, content, _, _) =>
      var q1 := Step(p, Ddx.Start(tag, attrs));
      if Ready(q1) && ModelOf(q1) == ContentModel(tag, attrs) { ItemsFollow(q1, content); }
      ParentFollows(p, n, q1, Run(q1, EventsOf(content)));
  }

  /** The events of some items leave the machine where it was exactly when the items belong there and the depth
      of the markup never falls below zero. */
  lemma {:induction false} ItemsFollow(p: Parser, ns: seq<Item>)
    requires Ready(p) && AllDivided(ns)
    ensures Effect(p, Run(p, EventsOf(ns)), AllBelong(ModelOf(p), ns), DepthOfAll(ns, p.otherXmlDepth))
    decreases ns
  {
    if ns != [] {
      var q := Run(p, Events(ns[0]));
      ItemFollows(p, ns[0]);
      RunApart(p, Events(ns[0]), EventsOf(ns[1..]));
      NotCleanAfter(q, EventsOf(ns[1..]));
      if Belongs(ModelOf(p), ns[0]) && Depth(ns[0], p.otherXmlDepth).Some? && !q.thrown {
        ReturnedIsReady(p, q);
        ItemsFollow(q, ns[1..]);
      }
    }
  }

  // ---------------------------------------------------------------------------------------------
  // Dividing an accepted document
  // ---------------------------------------------------------------------------------------------

  lemma {:induction false} CleanHasNoComplaint(p: Parser, es: seq<Ddx.Event>)
    requires Clean(Run(p, es))
    ensures forall e :: e in es ==> !e.Complaint?
    decreases |es|
  {
    if es != [] {
      assert es == [es[0]] + es[1..] && [] + es == es;
      CleanBefore(p, [es[0]], es[1..]);
      CleanBefore(p, [], es);
      RunOne(p, es[0]);
      ErrorOnTop(p.s, []);
      CleanHasNoComplaint(Step(p, es[0]), es[1..]);
    }
  }

  /** The events before the first end tag. */
  lemma {:induction false} FirstAnyEnd(es: seq<Ddx.Event>) returns (k: nat)
    ensures k <= |es| && (k < |es| ==> es[k].End?) && forall e :: e in es[..k] ==> !e.End?
  {
    if es == [] || es[0].End? {
      k := 0;
    } else {
      var k' := FirstAnyEnd(es[1..]);
      k := k' + 1;
      assert es[..k] == [es[0]] + es[1..][..k'];
    }
  }

  /** A clean run gets past an item to where it was. */
  lemma PastItem(p: Parser, n: Item, rest: seq<Ddx.Event>) returns (q: Parser)
    requires Ready(p) && Divided(n) && Clean(Run(p, Events(n) + rest))
    ensures Ready(q) && q.s == p.s && Run(q, rest) == Run(p, Events(n) + rest)
  {
    CleanBefore(p, Events(n), rest);
    ItemFollows(p, n);
    q := Run(p, Events(n));
  }

  lemma OneMoreItem(es: seq<Ddx.Event>, n: Item, after: seq<Ddx.Event>, more: seq<Item>, rest: seq<Ddx.Event>)
    requires Divided(n) && AllDivided(more) && es == Events(n) + after && after == EventsOf(more) + rest
    ensures AllDivided([n] + more) && es == EventsOf([n] + more) + rest
  {
    assert ([n] + more)[1..] == more;
  }

  /** A start tag on a clean run is that of an element that may stand there. */
  lemma CleanStart(p: Parser, es: seq<Ddx.Event>) returns (q: Parser)
    requires Ready(p) && Clean(Run(p, es)) && es != [] && es[0].Start?
    ensures var tag, attrs := es[0].tag, es[0].attrs;
      Clean(q) && q.s == p.s + [ContentState(tag, attrs)] && Run(q, es[1..]) == Run(p, es) &&
      (IsFlat(tag) || Sibling.IsOtherXml(tag, attrs) || Ready(q))
  {
    var tag, attrs := es[0].tag, es[0].attrs;
    assert es == [es[0]] + es[1..];
    CleanBefore(p, [es[0]], es[1..]);
    RunOne(p, es[0]);
    q := Step(p, es[0]);
    StartFollowsGrammar(p, tag, attrs);
    StartKeepsValid(p, tag, attrs);
    OpenedIsReady(p, q, tag, attrs);
  }

  /** The markup of an OtherXML attribute and what is behind its end tag; None if there is none. */
  lemma MarkupAhead(q: Parser, es: seq<Ddx.Event>) returns (split: Option<(seq<Ddx.Event>, seq<Ddx.Event>)>)
    requires Clean(q) && Top(q.s).InsideOtherXml? && Clean(Run(q, es))
    ensures split.Some? ==>
      (forall e :: e in split.value.0 ==> Sibling.IsMarkup(e)) &&
      es == split.value.0 + [Ddx.End(AttributeTag, false)] + split.value.1
    ensures split.None? ==> Run(q, es).s == q.s
  {
    CleanHasNoComplaint(q, es);
    var k := Sibling.FirstEnd(es);
    var markup := es[..k];
    assert forall e :: e in markup ==> e in es;
    if k == |es| {
      assert markup == es;
      MarkupRuns(q, es);
      split := None;
    } else {
      split := Some((markup, es[k + 1..]));
    }
  }

  /** The body of a flat element, its end tag and what is behind it. */
  lemma BodyAhead(q: Parser, es: seq<Ddx.Event>) returns (split: Option<(seq<Ddx.Event>, Ddx.Event, seq<Ddx.Event>)>)
    requires Clean(q) && (Top(q.s).InsideAttributeValue? || Top(q.s).InsideEnumConst?) && Clean(Run(q, es))
    ensures split.Some? ==>
      (forall e :: e in split.value.0 ==> !e.End? && !e.Complaint?) && split.value.1.End? &&
      es == split.value.0 + [split.value.1] + split.value.2
    ensures split.None? ==> Run(q, es).s == q.s
  {
    CleanHasNoComplaint(q, es);
    var k := FirstAnyEnd(es);
    var body := es[..k];
    assert forall e :: e in body ==> e in es;
    if k == |es| {
      assert body == es;
      FlatRuns(q, es);
      split := None;
    } else {
      split := Some((body, es[k], es[k + 1..]));
    }
  }

  /** A clean run is over items, up to an end tag that closes none of them; unless it ends inside an element. */
  lemma {:induction false} Divide(p: Parser, es: seq<Ddx.Event>) returns (ns: seq<Item>, rest: seq<Ddx.Event>)
    requires Ready(p) && Clean(Run(p, es))
    ensures AllDivided(ns) && es == EventsOf(ns) + rest
    ensures rest == [] || rest[0].End? || |Run(p, es).s| > |p.s|
    decreases |es|
  {
    if es == [] || es[0].End? {
      return [], es;
    }
    var n, after := DivideOne(p, es);
    match n
    case None =>
      ns, rest := [], es;
    case Some(n) =>
      var q := PastItem(p, n, after);
      var more: seq<Item>;
      more, rest := Divide(q, after);
      ns := [n] + more;
      OneMoreItem(es, n, after, more, rest);
  }

  /** The item at the head of the events; none if it is not closed. */
  lemma {:induction false} DivideOne(p: Parser, es: seq<Ddx.Event>) returns (n: Option<Item>, rest: seq<Ddx.Event>)
    requires Ready(p) && Clean(Run(p, es)) && es != [] && !es[0].End?
    ensures n.Some? ==> Divided(n.value) && es == Events(n.value) + rest && |rest| < |es|
    ensures n.None? ==> |Run(p, es).s| > |p.s|
    decreases |es|, 1
  {
    if !es[0].Start? {
      assert es == [es[0]] + es[1..];
      CleanHasNoComplaint(p, es);
      n, rest := Some(Data(es[0])), es[1..];
    } else if Sibling.IsOtherXml(es[0].tag, es[0].attrs) {
      n, rest := DivideOtherXml(p, es);
    } else if IsFlat(es[0].tag) {
      n, rest := DivideFlat(p, es);
    } else {
      n, rest := DivideParent(p, es);
    }
  }

  lemma DivideOtherXml(p: Parser, es: seq<Ddx.Event>) returns (n: Option<Item>, rest: seq<Ddx.Event>)
    requires Ready(p) && Clean(Run(p, es))
    requires es != [] && es[0].Start? && Sibling.IsOtherXml(es[0].tag, es[0].attrs)
    ensures n.Some? ==> Divided(n.value) && es == Events(n.value) + rest && |rest| < |es|
    ensures n.None? ==> |Run(p, es).s| > |p.s|
  {
    var attrs := es[0].attrs;
    Sibling.TypeIsThere(attrs);
    assert ContentState(AttributeTag, attrs) == InsideOtherXml;
    var q := CleanStart(p, es);
    var split := MarkupAhead(q, es[1..]);
    match split
    case None => n, rest := None, es;
    case Some((markup, after)) =>
      n, rest := Some(OtherXml(attrs, markup)), after;
      Sibling.Regroup(es, markup, Ddx.End(AttributeTag, false), after);
  }

  lemma DivideFlat(p: Parser, es: seq<Ddx.Event>) returns (n: Option<Item>, rest: seq<Ddx.Event>)
    requires Ready(p) && Clean(Run(p, es)) && es != [] && es[0].Start? && IsFlat(es[0].tag)
    ensures n.Some? ==> Divided(n.value) && es == Events(n.value) + rest && |rest| < |es|
    ensures n.None? ==> |Run(p, es).s| > |p.s|
  {
    var q := CleanStart(p, es);
    var split := BodyAhead(q, es[1..]);
    match split
    case None => n, rest := None, es;
    case Some((body, end, after)) =>
      n, rest := Some(Flat(es[0].tag, es[0].attrs, body, end.tag, end.foreign)), after;
      Sibling.Regroup(es, body, end, after);
  }

  lemma {:induction false} DivideParent(p: Parser, es: seq<Ddx.Event>) returns (n: Option<Item>, rest: seq<Ddx.Event>)
    requires Ready(p) && Clean(Run(p, es))
    requires es != [] && es[0].Start? && !Sibling.IsOtherXml(es[0].tag, es[0].attrs) && !IsFlat(es[0].tag)
    ensures n.Some? ==> Divided(n.value) && es == Events(n.value) + rest && |rest| < |es|
    ensures n.None? ==> |Run(p, es).s| > |p.s|
    decreases |es|, 0
  {
    var tag, attrs := es[0].tag, es[0].attrs;
    var q := CleanStart(p, es);
    var content, after := Divide(q, es[1..]);
    if after != [] && after[0].End? {
      n, rest := Some(Parent(tag, attrs, content, after[0].tag, after[0].foreign)), after[1..];
      WholeParent(es, n.value, after);
    } else {
      n, rest := None, es;
      if after == [] { NeverLeft(q, content, es[1..]); }
    }
  }

  lemma WholeParent(es: seq<Ddx.Event>, n: Item, after: seq<Ddx.Event>)
    requires n.Parent? && es != [] && es[0] == Ddx.Start(n.tag, n.attrs)
    requires es[1..] == EventsOf(n.content) + after && after != [] && after[0] == Ddx.End(n.endTag, n.foreign)
    ensures es == Events(n) + after[1..] && |after[1..]| < |es|
  {
    assert after == [after[0]] + after[1..];
    Sibling.Regroup(es, EventsOf(n.content), after[0], after[1..]);
  }

  lemma NeverLeft(q: Parser, content: seq<Item>, es: seq<Ddx.Event>)
    requires Ready(q) && AllDivided(content) && es == EventsOf(content) + [] && Clean(Run(q, es))
    ensures Run(q, es).s == q.s
  {
    assert es == EventsOf(content);
    ItemsFollow(q, content);
  }

  lemma InitialIsReady()
    ensures Ready(Initial()) && ModelOf(Initial()) == OfDocument
  {
    assert Ddx.Below([ParserStart]) == [];
  }

  /** At the bottom an end tag is an error. */
  lemma NothingLeft(q: Parser, rest: seq<Ddx.Event>)
    requires q.s == [ParserStart] && Clean(q) && Clean(Run(q, rest)) && (rest != [] ==> rest[0].End?)
    ensures rest == []
  {
    if rest != [] {
      assert rest == [rest[0]] + rest[1..];
      CleanBefore(q, [rest[0]], rest[1..]);
      RunOne(q, rest[0]);
      ErrorOnTop(q.s, []);
    }
  }

  /** For all sequences of callbacks: they are accepted exactly when no callback throws and they are the events
      of a member of the grammar. */
  lemma AcceptedIff(es: seq<Ddx.Event>)
    ensures Accepts(Run(Initial(), es)) <==>
              !Run(Initial(), es).thrown && exists ns: seq<Item> :: IsMember(ns) && EventsOf(ns) == es
  {
    InitialIsReady();
    var p := Initial();
    if Accepts(Run(p, es)) {
      AcceptedIsSound(es, |es|);
      assert es[..|es|] == es;
      var ns, rest := Divide(p, es);
      CleanBefore(p, EventsOf(ns), rest);
      ItemsFollow(p, ns);
      NothingLeft(Run(p, EventsOf(ns)), rest);
      assert EventsOf(ns) + [] == EventsOf(ns);
      assert IsMember(ns);
    }
    if ns: seq<Item> :| IsMember(ns) && EventsOf(ns) == es {
      ItemsFollow(p, ns);
    }
  }

  // ---------------------------------------------------------------------------------------------
  // States that no document leads to
  // ---------------------------------------------------------------------------------------------

  /** A Grid is declared nowhere, an Array and a Map only in a Grid, and a dimension only in these. */
  predicate NeverOpened(st: State) {
    st.InsideGrid? || st.InsideArray? || st.InsideMap? || st.InsideDimension?
  }

  predicate NoneOpened(s: seq<State>) {
    forall i :: 0 <= i < |s| ==> !NeverOpened(s[i])
  }

  lemma NotOpened(st: State, tag: Tag)
    requires !NeverOpened(st)
    ensures var o := OpeningOf(st, tag); !o.OpensDimension? && (o.OpensVariable? ==> !NeverOpened(o.state))
  {}

  lemma OpeningOpensNone(p: Parser, o: Opening, attrs: map<Key, string>)
    requires NoneOpened(p.s) && !o.OpensDimension? && (o.OpensVariable? ==> !NeverOpened(o.state))
    ensures NoneOpened(PerformOpening(p, o, attrs).s)
  {
    match o
    case OpensAttribute => AttributeOpensNone(p, attrs);
    case OpensEnumDef => EnumOpensNone(p, attrs);
    case OpensEnumConst => EnumOpensNone(p, attrs);
    case OpensVariable(ty, st) => RequireOpensNone(Push(p, st), attrs, NameKey);
    case OpensRoot => RequireOpensNone(Push(p, InsideGroup), attrs, NameKey);
    case _ =>
  }

  lemma RequireOpensNone(p: Parser, attrs: map<Key, string>, key: Key)
    requires NoneOpened(p.s)
    ensures NoneOpened(Require(p, attrs, key).s)
  {}

  lemma AttributeOpensNone(p: Parser, attrs: map<Key, string>)
    requires NoneOpened(p.s)
    ensures NoneOpened(ProcessAttribute(p, attrs).s)
  {
    RequireOpensNone(p, attrs, NameKey);
    RequireOpensNone(Require(p, attrs, NameKey), attrs, TypeKey);
  }

  lemma EnumOpensNone(p: Parser, attrs: map<Key, string>)
    requires NoneOpened(p.s)
    ensures NoneOpened(ProcessEnumDef(p, attrs).s) && NoneOpened(ProcessEnumConst(p, attrs).s)
  {
    var p1 := Require(p, attrs, NameKey);
    RequireOpensNone(p, attrs, NameKey);
    RequireOpensNone(p1, attrs, BaseTypeKey);
    RequireOpensNone(p1, attrs, ValueKey);
  }

  lemma GivingOpensNone(p: Parser, v: Var)
    requires NoneOpened(p.s)
    ensures NoneOpened(GiveToParent(p, v).s)
  {}

  lemma ClosingOpensNone(p: Parser, c: Closing)
    requires NoneOpened(p.s)
    ensures NoneOpened(PerformClosing(p, c).s)
  {
    match c
    case ClosesSimple => GivingOpensNone(PopVariable(p), FinishedVar(p));
    case ClosesVariable(ty) => GivingOpensNone(PopVariable(p), FinishedVar(p));
    case ClosesValue => RecordPushes(PopState(p), p.charData);
    case ClosesOtherXml => RecordPushes(PopState(p), p.otherXml);
    case _ =>
  }

  lemma {:induction false} RunOpensNone(p: Parser, es: seq<Ddx.Event>)
    requires NoneOpened(p.s)
    ensures NoneOpened(Run(p, es).s)
    decreases |es|
  {
    if es != [] {
      match es[0] {
        case Start(tag, attrs) =>
          NotOpened(Top(p.s), tag);
          OpeningOpensNone(p, OpeningOf(Top(p.s), tag), attrs);
        case End(tag, foreign) => ClosingOpensNone(p, ClosingOf(Top(p.s), tag, foreign));
        case _ =>
      }
      RunOpensNone(Step(p, es[0]), es[1..]);
    }
  }

  /** In no run, of any events, is the parser ever inside a Grid, an array, a map or a dimension: every such
      element outside OtherXML, a value or a constant is refused. */
  lemma ArraysAreNeverRead(es: seq<Ddx.Event>)
    ensures NoneOpened(Run(Initial(), es).s)
  {
    RunOpensNone(Initial(), es);
  }
}
