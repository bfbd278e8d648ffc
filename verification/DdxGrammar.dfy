/** The documents the parsing machine accepts: a grammar of document trees, and the proof that acceptance
    of a tree's events is membership in it. */
module DdxGrammar {
  import opened Text
  import opened Types
  import opened Attributes
  import opened Variables
  import opened DdxMachine
  import opened DdxInvariant

  /** A well-formed document as a tree. An element is foreign when its namespace is not the root's. */
  datatype Node =
    | Element(tag: Tag, attrs: map<Key, string>, foreign: bool, content: seq<Node>)
    | Text(text: string)
    | Space(text: string)
    | CdataSection(text: string)

  function Flatten(n: Node): seq<Event> {
    match n
    case Element(tag, attrs, foreign, content) => [Start(tag, attrs)] + FlattenAll(content) + [End(tag, foreign)]
    case Text(text) => [Chars(text)]
    case Space(text) => [IgnorableWhitespace(text)]
    case CdataSection(text) => [Cdata(text)]
  }

  function FlattenAll(ns: seq<Node>): seq<Event> {
    if ns == [] then [] else Flatten(ns[0]) + FlattenAll(ns[1..])
  }

  // ---------------------------------------------------------------------------------------------
  // The grammar
  // ---------------------------------------------------------------------------------------------

  /** What the content of an element may be. */
  datatype Model =
    | OfDocument | OfDataset | OfContainer | OfAttribute | OfMarkup | OfText | OfScalar | OfRecord
    | OfArray | OfMap | OfGrid

  predicate TakesAttributes(m: Model) {
    !m.OfDocument? && !m.OfMarkup? && !m.OfText?
  }

  predicate TakesVariable(m: Model, ty: Type) {
    match m
    case OfDataset => true
    case OfRecord => true
    case OfArray => !ty.ArrayType?
    case OfMap => !ty.ArrayType? && !ty.Sequence? && !ty.Grid?
    case OfGrid => ty.ArrayType?
    case _ => false
  }

  /** The names of the element's XML attributes that have to be there. */
  predicate HasRequired(m: Model, tag: Tag, attrs: map<Key, string>) {
    match tag
    case AttributeTag => NameKey in attrs && TypeKey in attrs
    case AliasTag => NameKey in attrs && AliasKey in attrs
    case DimensionTag => SizeKey in attrs
    case BlobTag => HrefKey in attrs
    case DataBlobTag => HrefKey in attrs
    case ValueTag => true
    case TypeTag(_) => NameKey in attrs || m.OfArray? || m.OfMap?
    case _ => NameKey in attrs
  }

  /** May the element stand there, whatever its XML attributes? */
  predicate Placed(m: Model, tag: Tag) {
    match tag
    case DatasetTag => m.OfDocument?
    case AttributeTag => TakesAttributes(m)
    case AliasTag => TakesAttributes(m)
    case ValueTag => m.OfAttribute?
    case DimensionTag => m.OfArray? || m.OfMap?
    case BlobTag => m.OfDataset?
    case DataBlobTag => m.OfDataset?
    case MapTag => m.OfGrid?
    case TypeTag(ty) => TakesVariable(m, ty) && InFactory(ty)
    case _ => false
  }

  function ContentModel(tag: Tag, attrs: map<Key, string>): Model {
    match tag
    case DatasetTag => OfDataset
    case AttributeTag =>
      var ty := Lookup(attrs, TypeKey);
      if ty == "Container" then OfContainer else if ty == "OtherXML" then OfMarkup else OfAttribute
    case MapTag => OfMap
    case TypeTag(ty) =>
      if ty == ArrayType then OfArray else if ty == Grid then OfGrid
      else if IsConstructor(ty) then OfRecord else OfScalar
    case _ => OfText
  }

  function DimensionElements(ns: seq<Node>): nat {
    if ns == [] then 0
    else DimensionElements(ns[1..]) + if ns[0].Element? && ns[0].tag == DimensionTag then 1 else 0
  }

  /** The dimensions that the nodes add to the variable whose content they are. */
  function DimensionsIn(m: Model, ns: seq<Node>): nat {
    if m.OfArray? || m.OfMap? then DimensionElements(ns) else 0
  }

  /** Is the node part of the grammar there? Inside OtherXML anything goes, except an Attribute element of
      the document's own namespace. */
  predicate Fits(m: Model, n: Node)
    decreases n
  {
    match n
    case Text(_) => true
    case Space(_) => true
    case CdataSection(_) => m.OfMarkup?
    case Element(tag, attrs, foreign, content) =>
      if m.OfMarkup? then (tag.AttributeTag? ==> foreign) && AllFit(OfMarkup, content)
      else
        Placed(m, tag) && HasRequired(m, tag, attrs) && AllFit(ContentModel(tag, attrs), content) &&
        EndFits(tag, attrs, foreign, content)
  }

  /** An array and a map need a dimension, and an OtherXML attribute the document's namespace. */
  predicate EndFits(tag: Tag, attrs: map<Key, string>, foreign: bool, content: seq<Node>) {
    (tag.MapTag? || tag == TypeTag(ArrayType) ==> DimensionElements(content) > 0) &&
    (tag.AttributeTag? && Lookup(attrs, TypeKey) == "OtherXML" ==> !foreign)
  }

  predicate AllFit(m: Model, ns: seq<Node>)
    decreases ns
  {
    ns == [] || (Fits(m, ns[0]) && AllFit(m, ns[1..]))
  }

  /** No Attribute element of the document's own namespace occurs within an OtherXML attribute. */
  predicate Tame(n: Node, markup: bool) {
    n.Element? ==>
      (markup && n.tag.AttributeTag? ==> n.foreign) &&
      AllTame(n.content, markup || (n.tag.AttributeTag? && Lookup(n.attrs, TypeKey) == "OtherXML"))
  }

  predicate AllTame(ns: seq<Node>, markup: bool) {
    ns == [] || (Tame(ns[0], markup) && AllTame(ns[1..], markup))
  }

  // ---------------------------------------------------------------------------------------------
  // Acceptance is membership
  // ---------------------------------------------------------------------------------------------

  function ModelOf(st: State): Model {
    match st
    case ParserStart => OfDocument
    case InsideDataset => OfDataset
    case InsideAttributeContainer => OfContainer
    case InsideAttribute => OfAttribute
    case InsideOtherXml => OfMarkup
    case InsideSimpleType => OfScalar
    case InsideArray => OfArray
    case InsideMap => OfMap
    case InsideGrid => OfGrid
    case InsideStructure => OfRecord
    case InsideSequence => OfRecord
    case _ => OfText
  }

  /** The machine between two nodes of a document, with no error so far. */
  predicate Ready(p: Parser) {
    Valid(p) && !p.thrown && !HasError(p.s)
  }

  /** No markup of an earlier OtherXML attribute is left open. */
  predicate NothingOpen(p: Parser) {
    p.otherXmlDepth > 0 ==> Top(p.s).InsideOtherXml?
  }

  /** The machine is back where it was; at most the variable and the table on top have changed. */
  predicate Returned(p: Parser, q: Parser, dims: nat) {
    q.s == p.s && q.otherXmlDepth == p.otherXmlDepth && Below(q.bt) == Below(p.bt) &&
    |TopVar(q.bt).dims| == |TopVar(p.bt).dims| + dims
  }

  /** What the events of one or more nodes do to the machine. */
  predicate Outcome(p: Parser, q: Parser, fits: bool, dims: nat) {
    q.thrown || (fits && Ready(q) && Returned(p, q, dims)) || (!fits && HasError(q.s))
  }

  lemma ErrorOnTop(s: seq<State>)
    ensures HasError(s + [ParserError])
  {
    assert (s + [ParserError])[|s|] == ParserError;
  }

  lemma NoErrorPushed(s: seq<State>, st: State)
    ensures HasError(s + [st]) <==> HasError(s) || st.ParserError?
  {}

  /** The state that an element's content is read in. */
  function ContentState(tag: Tag, attrs: map<Key, string>): State {
    match tag
    case DatasetTag => InsideDataset
    case AttributeTag =>
      var ty := Lookup(attrs, TypeKey);
      if ty == "Container" then InsideAttributeContainer
      else if ty == "OtherXML" then InsideOtherXml else InsideAttribute
    case AliasTag => InsideAlias
    case ValueTag => InsideAttributeValue
    case DimensionTag => InsideDimension
    case MapTag => InsideMap
    case TypeTag(ty) => StateOfType(ty)
    case _ => InsideBlobHref
  }

  /** What the start tag of an element that fits leads to. */
  predicate Opened(p: Parser, q: Parser, tag: Tag, attrs: map<Key, string>) {
    q.s == p.s + [ContentState(tag, attrs)] && q.otherXmlDepth == p.otherXmlDepth && !q.thrown &&
    if tag.TypeTag? || tag.MapTag? then
      q.bt == p.bt + [TopVar(q.bt)] && TopVar(q.bt).dims == []
    else
      Returned(p, q.(s := p.s), if tag.DimensionTag? then 1 else 0)
  }

  predicate Opening(p: Parser, q: Parser, tag: Tag, attrs: map<Key, string>, fits: bool) {
    q.thrown || (fits && Opened(p, q, tag, attrs)) || (!fits && HasError(q.s))
  }

  lemma RequireFails(p: Parser, attrs: map<Key, string>, key: Key)
    ensures key in attrs ==> Require(p, attrs, key) == p
    ensures key !in attrs ==> HasError(Require(p, attrs, key).s)
    ensures HasError(p.s) ==> HasError(Require(p, attrs, key).s)
  {
    ErrorOnTop(p.s);
    NoErrorPushed(p.s, ParserError);
  }

  lemma AttributeOpens(p: Parser, attrs: map<Key, string>)
    requires Ready(p)
    ensures Opening(p, ProcessAttributeElement(p, attrs), AttributeTag, attrs, NameKey in attrs && TypeKey in attrs)
  {
    var p1 := Require(p, attrs, NameKey);
    RequireFails(p, attrs, NameKey);
    var p2 := Require(p1, attrs, TypeKey);
    RequireFails(p1, attrs, TypeKey);
    NoErrorPushed(p2.s, ContentState(AttributeTag, attrs));
  }

  lemma AliasOpens(p: Parser, attrs: map<Key, string>)
    requires Ready(p)
    ensures Opening(p, ProcessAlias(p, attrs), AliasTag, attrs, NameKey in attrs && AliasKey in attrs)
  {
    var p1 := Require(p, attrs, NameKey);
    RequireFails(p, attrs, NameKey);
    var p2 := Require(p1, attrs, AliasKey);
    RequireFails(p1, attrs, AliasKey);
    NoErrorPushed(p2.s, InsideAlias);
  }

  lemma DimensionOpens(p: Parser, attrs: map<Key, string>)
    requires Ready(p) && TopVar(p.bt).ty == ArrayType && p.bt != []
    ensures Opening(p, ProcessDimension(p, attrs), DimensionTag, attrs, SizeKey in attrs)
  {
    var p1 := Require(p, attrs, SizeKey);
    RequireFails(p, attrs, SizeKey);
    NoErrorPushed(p1.s, InsideDimension);
  }

  lemma BlobOpens(p: Parser, attrs: map<Key, string>, tag: Tag)
    requires Ready(p) && (tag == BlobTag || tag == DataBlobTag)
    ensures Opening(p, ProcessBlob(p, attrs), tag, attrs, HrefKey in attrs)
  {
    var p1 := Require(p, attrs, HrefKey);
    RequireFails(p, attrs, HrefKey);
    NoErrorPushed(p1.s, InsideBlobHref);
  }

  lemma RootOpens(p: Parser, attrs: map<Key, string>)
    requires Ready(p)
    ensures Opening(p, StartRoot(p, attrs), DatasetTag, attrs, NameKey in attrs)
  {
    RequireFails(Push(p, InsideDataset), attrs, NameKey);
  }

  lemma VariableOpens(p: Parser, ty: Type, st: State, attrs: map<Key, string>, tag: Tag)
    requires Ready(p) && (tag.TypeTag? || tag.MapTag?) && st == ContentState(tag, attrs)
    ensures Opening(p, ProcessVariable(p, ty, st, attrs), tag, attrs,
                    (NameKey in attrs || TopVar(p.bt).ty == ArrayType) && InFactory(ty))
  {
    var p1 := Push(p, st);
    RequireFails(p1, attrs, NameKey);
    var p2 := if TopVar(p1.bt).ty == ArrayType then p1 else Require(p1, attrs, NameKey);
    ErrorOnTop(p2.s);
    NoErrorPushed(p2.s, ParserError);
  }

  /** The variable whose content is being read is an array exactly inside an Array or a Map element. */
  lemma ArrayOnTop(p: Parser)
    requires Ready(p) && (IsVariableState(Top(p.s)) || Top(p.s).InsideDataset?)
    ensures p.bt != []
    ensures TopVar(p.bt).ty == ArrayType <==> ModelOf(Top(p.s)).OfArray? || ModelOf(Top(p.s)).OfMap?
  {
    TopMatches(p);
    ParentOnTop(p);
    if Top(p.s).InsideDataset? { BottomOfStacks(p); }
  }

  /** The branches of the start-element callback follow the grammar. */
  lemma OpeningFollowsGrammar(st: State, tag: Tag, attrs: map<Key, string>)
    requires !st.InsideOtherXml? && !st.ParserUnknown? && !st.ParserError?
    ensures var o, m := OpeningOf(st, tag), ModelOf(st);
            match o
            case Refused => !Placed(m, tag)
            case OpensRoot => tag.DatasetTag? && Placed(m, tag)
            case OpensAttribute => tag.AttributeTag? && Placed(m, tag)
            case OpensAlias => tag.AliasTag? && Placed(m, tag)
            case OpensValue => tag.ValueTag? && Placed(m, tag)
            case OpensVariable(ty, state) =>
              (tag.TypeTag? || tag.MapTag?) && state == ContentState(tag, attrs) &&
              (Placed(m, tag) <==> InFactory(ty)) && (IsVariableState(st) || st.InsideDataset?)
            case OpensDimension => tag.DimensionTag? && Placed(m, tag) && (st.InsideArray? || st.InsideMap?)
            case OpensBlob => (tag.BlobTag? || tag.DataBlobTag?) && Placed(m, tag)
            case _ => false
  {}

  /** A start tag outside OtherXML raises no error exactly when the element fits there. */
  lemma StartFollowsGrammar(p: Parser, tag: Tag, attrs: map<Key, string>)
    requires Ready(p) && !Top(p.s).InsideOtherXml?
    ensures var m := ModelOf(Top(p.s));
            Opening(p, StartElement(p, tag, attrs), tag, attrs, Placed(m, tag) && HasRequired(m, tag, attrs))
  {
    TopMatches(p);
    NoErrorOnTop(p.s);
    OpeningFollowsGrammar(Top(p.s), tag, attrs);
    match OpeningOf(Top(p.s), tag)
    case Refused => ErrorOnTop(p.s);
    case OpensRoot => RootOpens(p, attrs);
    case OpensAttribute => AttributeOpens(p, attrs);
    case OpensAlias => AliasOpens(p, attrs);
    case OpensValue =>
    case OpensVariable(ty, st) => ArrayOnTop(p); VariableOpens(p, ty, st, attrs, tag);
    case OpensDimension => ArrayOnTop(p); DimensionOpens(p, attrs);
    case OpensBlob => BlobOpens(p, attrs, tag);
    case _ =>
  }

  lemma NoErrorOnTop(s: seq<State>)
    requires s != [] && !HasError(s)
    ensures !Top(s).ParserError?
  {}

  // ---------------------------------------------------------------------------------------------
  // End tags
  // ---------------------------------------------------------------------------------------------

  /** The machine at the end tag of an element that opened from p, its content done. */
  predicate Closing(p: Parser, q: Parser, tag: Tag, attrs: map<Key, string>, dims: nat) {
    Ready(p) && !Top(p.s).InsideOtherXml? && Ready(q) && p.bt != [] &&
    q.s == p.s + [ContentState(tag, attrs)] && q.otherXmlDepth == p.otherXmlDepth &&
    if tag.TypeTag? || tag.MapTag? then
      q.bt == p.bt + [TopVar(q.bt)] && |TopVar(q.bt).dims| == dims
    else
      Returned(p, q.(s := p.s), if tag.DimensionTag? then 1 else 0)
  }

  lemma BelowPush<T>(s: seq<T>, x: T)
    ensures Below(s + [x]) == s
  {}

  lemma AddVarKeepsDims(parent: Var, v: Var)
    requires AddVar(parent, v).Some? && !(parent.ty == ArrayType && v.ty == ArrayType)
    ensures AddVar(parent, v).value.dims == parent.dims
  {}

  /** Popping the finished variable and giving it to its parent brings the machine back. */
  lemma GivingReturns(p: Parser, q: Parser, st: State, v: Var)
    requires Valid(p) && Valid(q) && p.bt != [] && !q.thrown && IsVariableState(st)
    requires q.s == p.s + [st] && q.bt == p.bt + [v] && q.otherXmlDepth == p.otherXmlDepth
    requires !(TopVar(p.bt).ty == ArrayType && v.ty == ArrayType)
    ensures var r := GiveToParent(PopVariable(q), FinishedVar(q));
            Returned(p, r, 0) && !r.thrown
  {
    BelowPush(p.s, st);
    BelowPush(p.bt, v);
    ParentTakesVariable(q);
    AddVarKeepsDims(TopVar(p.bt), FinishedVar(q));
  }

  lemma NoArrayInArray(p: Parser, q: Parser, st: State, v: Var)
    requires Ready(p) && Valid(q) && IsVariableState(st)
    requires q.s == p.s + [st] && q.bt == p.bt + [v]
    requires IsVariableState(Top(p.s)) || Top(p.s).InsideDataset?
    ensures !(TopVar(p.bt).ty == ArrayType && v.ty == ArrayType)
    ensures Describes(st, v.ty)
  {
    TopMatches(q);
    PopVariableKeepsValid(q);
    BelowPush(p.s, st);
    ArrayOnTop(p);
    TopMatches(p);
  }

  /** The end tag of a variable's own element closes it. */
  lemma VariableTagCloses(tag: Tag, attrs: map<Key, string>, foreign: bool)
    requires (tag.TypeTag? && InFactory(tag.ty)) || tag.MapTag?
    ensures var st := ContentState(tag, attrs); var c := ClosingOf(st, tag, foreign);
            IsVariableState(st) && (c.ClosesSimple? <==> st.InsideSimpleType?) &&
            (!st.InsideSimpleType? ==> c.ClosesVariable? && Describes(st, c.ty)) &&
            (c == ClosesVariable(ArrayType) <==> tag.MapTag? || tag == TypeTag(ArrayType))
  {}

  lemma DescribesOne(st: State, a: Type, b: Type)
    requires Describes(st, a) && Describes(st, b) && !st.InsideSimpleType?
    ensures a == b
  {}

  lemma FinishReturns(p: Parser, q: Parser, st: State, v: Var, ty: Type)
    requires Valid(p) && Valid(q) && p.bt != [] && !q.thrown && IsVariableState(st) && v.ty == ty
    requires q.s == p.s + [st] && q.bt == p.bt + [v] && q.otherXmlDepth == p.otherXmlDepth
    requires !(TopVar(p.bt).ty == ArrayType && ty == ArrayType)
    ensures var r := FinishVariable(q, ty);
            if ty == ArrayType && v.dims == [] then HasError(r.s) else Returned(p, r, 0) && !r.thrown
  {
    GivingReturns(p, q, st, v);
    ErrorOnTop(PopVariable(q).s);
  }

  lemma VariableCloses(p: Parser, q: Parser, tag: Tag, attrs: map<Key, string>, foreign: bool, dims: nat)
    requires Closing(p, q, tag, attrs, dims) && (tag.TypeTag? || tag.MapTag?)
    requires Placed(ModelOf(Top(p.s)), tag)
    ensures var r := EndElement(q, tag, foreign);
            if (tag.MapTag? || tag == TypeTag(ArrayType)) && dims == 0 then HasError(r.s)
            else Returned(p, r, 0) && !r.thrown
  {
    var st, v := ContentState(tag, attrs), TopVar(q.bt);
    VariableTagCloses(tag, attrs, foreign);
    NoArrayInArray(p, q, st, v);
    BelowPush(p.s, st);
    assert Top(q.s) == st;
    match ClosingOf(st, tag, foreign)
    case ClosesVariable(ty) =>
      DescribesOne(st, v.ty, ty);
      FinishReturns(p, q, st, v, ty);
    case _ =>
      GivingReturns(p, q, st, v);
  }

  lemma AttributeCloses(p: Parser, q: Parser, attrs: map<Key, string>, foreign: bool)
    requires Closing(p, q, AttributeTag, attrs, 0) && (foreign ==> NothingOpen(p))
    ensures var r := EndElement(q, AttributeTag, foreign);
            r.thrown || (if Lookup(attrs, TypeKey) == "OtherXML" && foreign then HasError(r.s) else Returned(p, r, 0))
  {
    BelowPush(p.s, ContentState(AttributeTag, attrs));
    ErrorOnTop(q.s);
  }

  lemma OtherCloses(p: Parser, q: Parser, tag: Tag, attrs: map<Key, string>, foreign: bool)
    requires Closing(p, q, tag, attrs, 0) && Placed(ModelOf(Top(p.s)), tag)
    requires !tag.TypeTag? && !tag.MapTag? && !tag.AttributeTag?
    ensures var r := EndElement(q, tag, foreign);
            r.thrown || Returned(p, r, if tag.DimensionTag? then 1 else 0)
  {
    BelowPush(p.s, ContentState(tag, attrs));
  }

  /** An end tag raises no error exactly when EndFits. */
  lemma EndFollowsGrammar(p: Parser, q: Parser, tag: Tag, attrs: map<Key, string>, foreign: bool, content: seq<Node>)
    requires Placed(ModelOf(Top(p.s)), tag)
    requires Closing(p, q, tag, attrs, DimensionsIn(ContentModel(tag, attrs), content)) && NothingOpen(p)
    ensures Outcome(p, EndElement(q, tag, foreign), EndFits(tag, attrs, foreign, content),
                    if tag.DimensionTag? then 1 else 0)
  {
    EndKeepsValid(q, tag, foreign);
    if tag.TypeTag? || tag.MapTag? {
      VariableCloses(p, q, tag, attrs, foreign, DimensionsIn(ContentModel(tag, attrs), content));
    } else if tag.AttributeTag? {
      AttributeCloses(p, q, attrs, foreign);
    } else {
      OtherCloses(p, q, tag, attrs, foreign);
    }
  }

  // ---------------------------------------------------------------------------------------------
  // Whole documents
  // ---------------------------------------------------------------------------------------------

  lemma RunParts(p: Parser, first: Event, body: seq<Event>, last: Event)
    ensures Run(p, [first] + body + [last]) == Step(Run(Step(p, first), body), last)
  {
    assert [first] + body + [last] == [first] + (body + [last]);
    RunApart(p, [first], body + [last]);
    RunApart(Step(p, first), body, [last]);
    RunOne(p, first);
    RunOne(Run(Step(p, first), body), last);
  }

  lemma RunOne(p: Parser, e: Event)
    ensures Run(p, [e]) == Step(p, e)
  {
    assert [e][1..] == [];
  }

  lemma ContentIsOfModel(tag: Tag, attrs: map<Key, string>)
    requires tag != TypeTag(Group)
    ensures ModelOf(ContentState(tag, attrs)) == ContentModel(tag, attrs)
  {}

  /** The machine at the end tag, given what the content did. */
  lemma ContentDone(p: Parser, q1: Parser, q2: Parser, tag: Tag, attrs: map<Key, string>, dims: nat)
    requires Ready(p) && !Top(p.s).InsideOtherXml? && Placed(ModelOf(Top(p.s)), tag)
    requires Opened(p, q1, tag, attrs) && Ready(q2) && Returned(q1, q2, dims)
    requires dims > 0 ==> tag.TypeTag? || tag.MapTag?
    ensures Closing(p, q2, tag, attrs, dims)
  {
    BelowPush(p.bt, TopVar(q1.bt));
    if tag.TypeTag? || tag.MapTag? {
      assert q2.bt == Below(q2.bt) + [TopVar(q2.bt)];
    }
  }

  /** An error that has come up by the end of the content is there after the end tag. */
  lemma ErrorAtEnd(q: Parser, e: Event)
    ensures HasError(q.s) ==> HasError(Step(q, e).s)
  {
    ErrorReachesEnd(q, [e]);
    RunOne(q, e);
  }

  lemma OpenedIsReady(p: Parser, q: Parser, tag: Tag, attrs: map<Key, string>)
    requires Ready(p) && !Top(p.s).InsideOtherXml? && Placed(ModelOf(Top(p.s)), tag)
    requires Opened(p, q, tag, attrs) && Valid(q)
    ensures Ready(q) && ModelOf(Top(q.s)) == ContentModel(tag, attrs)
  {
    NoErrorPushed(p.s, ContentState(tag, attrs));
    ContentIsOfModel(tag, attrs);
  }

  /** An element that may stand there and has what it requires: the rest is up to its content and its end. */
  lemma PlacedElement(p: Parser, n: Node, q1: Parser, q2: Parser)
    requires Ready(p) && NothingOpen(p) && !Top(p.s).InsideOtherXml? && n.Element?
    requires Placed(ModelOf(Top(p.s)), n.tag) && HasRequired(ModelOf(Top(p.s)), n.tag, n.attrs)
    requires Opened(p, q1, n.tag, n.attrs) && !q2.thrown
    requires var m := ContentModel(n.tag, n.attrs); Outcome(q1, q2, AllFit(m, n.content), DimensionsIn(m, n.content))
    ensures Outcome(p, EndElement(q2, n.tag, n.foreign), Fits(ModelOf(Top(p.s)), n),
                    if n.tag.DimensionTag? then 1 else 0)
  {
    var m := ContentModel(n.tag, n.attrs);
    if AllFit(m, n.content) {
      ContentDone(p, q1, q2, n.tag, n.attrs, DimensionsIn(m, n.content));
      EndFollowsGrammar(p, q2, n.tag, n.attrs, n.foreign, n.content);
    } else {
      ErrorAtEnd(q2, End(n.tag, n.foreign));
      assert Step(q2, End(n.tag, n.foreign)) == EndElement(q2, n.tag, n.foreign);
    }
  }

  lemma OneDimension(m: Model, n: Node)
    requires n.Element? && Fits(m, n) && !m.OfMarkup?
    ensures DimensionsIn(m, [n]) == if n.tag.DimensionTag? then 1 else 0
  {
    assert [n][1..] == [] && DimensionElements([]) == 0;
    assert DimensionElements([n]) == if n.tag.DimensionTag? then 1 else 0;
    assert Placed(m, n.tag);
  }

  /** The events of an element outside OtherXML, given what its start tag and its content do. */
  lemma ElementFollowsGrammar(p: Parser, n: Node, q1: Parser, q2: Parser, r: Parser)
    requires Ready(p) && NothingOpen(p) && !Top(p.s).InsideOtherXml? && n.Element?
    requires var m := ModelOf(Top(p.s));
             Opening(p, q1, n.tag, n.attrs, Placed(m, n.tag) && HasRequired(m, n.tag, n.attrs))
    requires q1.thrown || Valid(q1)
    requires !q2.thrown ==> r == EndElement(q2, n.tag, n.foreign)
    requires q1.thrown ==> q2.thrown
    requires q2.thrown ==> r.thrown
    requires HasError(q1.s) ==> HasError(r.s)
    requires Ready(q1) ==>
               Outcome(q1, q2, AllFit(ModelOf(Top(q1.s)), n.content), DimensionsIn(ModelOf(Top(q1.s)), n.content))
    ensures Outcome(p, r, Fits(ModelOf(Top(p.s)), n), DimensionsIn(ModelOf(Top(p.s)), [n]))
  {
    var m := ModelOf(Top(p.s));
    if !q2.thrown && Placed(m, n.tag) && HasRequired(m, n.tag, n.attrs) {
      OpenedIsReady(p, q1, n.tag, n.attrs);
      PlacedElement(p, n, q1, q2);
      if Fits(m, n) { OneDimension(m, n); }
    }
  }

  /** Inside OtherXML: the markup nests, and leaves the depth as it was. */
  predicate InMarkup(p: Parser) {
    Ready(p) && Top(p.s).InsideOtherXml?
  }

  lemma MarkupElement(p: Parser, n: Node, q2: Parser)
    requires InMarkup(p) && n.Element? && (n.tag.AttributeTag? ==> n.foreign)
    requires var q1 := StartElement(p, n.tag, n.attrs);
             Outcome(q1, q2, AllFit(OfMarkup, n.content), 0)
    ensures Outcome(p, Step(q2, End(n.tag, n.foreign)), Fits(OfMarkup, n), 0)
  {
    var q1 := StartElement(p, n.tag, n.attrs);
    assert q1 == p.(otherXmlDepth := p.otherXmlDepth + 1, otherXml := p.otherXml + "<>");
    ErrorAtEnd(q2, End(n.tag, n.foreign));
    if !q2.thrown && AllFit(OfMarkup, n.content) {
      assert EndElement(q2, n.tag, n.foreign) == EndForeign(q2);
    }
  }

  /** Content read as OtherXML is the content of an OtherXML attribute. */
  lemma OpenedStaysTame(p: Parser, q: Parser, n: Node)
    requires Ready(p) && !Top(p.s).InsideOtherXml? && n.Element? && Tame(n, false)
    requires Opening(p, q, n.tag, n.attrs, Placed(ModelOf(Top(p.s)), n.tag) && HasRequired(ModelOf(Top(p.s)), n.tag, n.attrs))
    requires Ready(q)
    ensures AllTame(n.content, Top(q.s).InsideOtherXml?)
  {}

  lemma NoDimension(m: Model, n: Node)
    requires !n.Element? || m.OfMarkup?
    ensures DimensionsIn(m, [n]) == 0
  {
    assert [n][1..] == [] && DimensionElements([]) == 0;
  }

  /** Character data never fails, and a CDATA section only outside OtherXML. */
  lemma CharactersFollowGrammar(p: Parser, e: Event)
    requires Ready(p) && (e.Chars? || e.IgnorableWhitespace? || e.Cdata?)
    ensures Outcome(p, Step(p, e), e.Cdata? ==> Top(p.s).InsideOtherXml?, 0)
  {
    TopMatches(p);
    if e.Cdata? {
      ErrorOnTop(p.s);
    } else {
      assert Step(p, e) == p.(charData := Step(p, e).charData, otherXml := Step(p, e).otherXml);
    }
  }

  lemma LeafFollowsGrammar(p: Parser, n: Node)
    requires Ready(p) && !n.Element?
    ensures Outcome(p, Run(p, Flatten(n)), Fits(ModelOf(Top(p.s)), n), 0)
  {
    RunOne(p, Flatten(n)[0]);
    CharactersFollowGrammar(p, Flatten(n)[0]);
  }

  /** What happens from the start tag on, in three legs. */
  lemma Legs(p: Parser, n: Node, q1: Parser, q2: Parser)
    requires n.Element? && !p.thrown
    requires q1 == StartElement(p, n.tag, n.attrs) && q2 == Run(q1, FlattenAll(n.content))
    ensures Run(p, Flatten(n)) == Step(q2, End(n.tag, n.foreign))
    ensures q1.thrown ==> q2.thrown
    ensures HasError(q1.s) ==> HasError(q2.s) && HasError(Step(q2, End(n.tag, n.foreign)).s)
  {
    RunParts(p, Start(n.tag, n.attrs), FlattenAll(n.content), End(n.tag, n.foreign));
    if q1.thrown { ThrownStays(q1, FlattenAll(n.content)); }
    ErrorReachesEnd(q1, FlattenAll(n.content));
    ErrorAtEnd(q2, End(n.tag, n.foreign));
  }

  lemma {:induction false} NodeFollowsGrammar(p: Parser, n: Node)
    requires Ready(p) && NothingOpen(p) && Tame(n, Top(p.s).InsideOtherXml?)
    ensures Outcome(p, Run(p, Flatten(n)), Fits(ModelOf(Top(p.s)), n), DimensionsIn(ModelOf(Top(p.s)), [n]))
    decreases n
  {
    if !n.Element? {
      LeafFollowsGrammar(p, n);
      NoDimension(ModelOf(Top(p.s)), n);
    } else {
      var q1 := StartElement(p, n.tag, n.attrs);
      var q2 := Run(q1, FlattenAll(n.content));
      Legs(p, n, q1, q2);
      if Top(p.s).InsideOtherXml? {
        NodesFollowGrammar(q1, n.content);
        MarkupElement(p, n, q2);
        NoDimension(OfMarkup, n);
      } else {
        StartFollowsGrammar(p, n.tag, n.attrs);
        StartKeepsValid(p, n.tag, n.attrs);
        if Ready(q1) {
          OpenedStaysTame(p, q1, n);
          NodesFollowGrammar(q1, n.content);
        }
        ElementFollowsGrammar(p, n, q1, q2, Step(q2, End(n.tag, n.foreign)));
      }
    }
  }

  lemma OutcomesCompose(p: Parser, q: Parser, r: Parser, f: bool, d: nat, g: bool, e: nat)
    requires Outcome(p, q, f, d)
    requires q.thrown ==> r.thrown
    requires HasError(q.s) ==> HasError(r.s)
    requires Ready(q) && f ==> Outcome(q, r, g, e)
    ensures Outcome(p, r, f && g, d + e)
  {}

  lemma DimensionsApart(m: Model, ns: seq<Node>)
    requires ns != []
    ensures DimensionsIn(m, ns) == DimensionsIn(m, [ns[0]]) + DimensionsIn(m, ns[1..])
  {
    assert [ns[0]][1..] == [] && DimensionElements([]) == 0;
  }

  lemma {:induction false} NodesFollowGrammar(p: Parser, ns: seq<Node>)
    requires Ready(p) && NothingOpen(p) && AllTame(ns, Top(p.s).InsideOtherXml?)
    ensures Outcome(p, Run(p, FlattenAll(ns)), AllFit(ModelOf(Top(p.s)), ns), DimensionsIn(ModelOf(Top(p.s)), ns))
    decreases ns
  {
    if ns != [] {
      var m, q, r := ModelOf(Top(p.s)), Run(p, Flatten(ns[0])), Run(p, FlattenAll(ns));
      NodeFollowsGrammar(p, ns[0]);
      RunApart(p, Flatten(ns[0]), FlattenAll(ns[1..]));
      assert r == Run(q, FlattenAll(ns[1..]));
      DimensionsApart(m, ns);
      if q.thrown { ThrownStays(q, FlattenAll(ns[1..])); }
      ErrorReachesEnd(q, FlattenAll(ns[1..]));
      if Ready(q) && Fits(m, ns[0]) {
        NodesFollowGrammar(q, ns[1..]);
      }
      OutcomesCompose(p, q, r, Fits(m, ns[0]), DimensionsIn(m, [ns[0]]), AllFit(m, ns[1..]), DimensionsIn(m, ns[1..]));
    }
  }

  /** A document is accepted exactly when it is in the grammar and no attribute of it clashes with another.
      The one requirement is that an OtherXML attribute does not hold an Attribute element of the
      document's own namespace. */
  lemma AcceptanceIsMembership(root: Node)
    requires root.Element? && Tame(root, false)
    ensures AcceptsDocument(Flatten(root)) <==>
              Fits(OfDocument, root) && !Run(Initial(), Flatten(root)).thrown
  {
    InitialIsValid();
    NodeFollowsGrammar(Initial(), root);
    var q := Run(Initial(), Flatten(root));
    if AcceptsDocument(Flatten(root)) {
      assert Flatten(root)[..|Flatten(root)|] == Flatten(root);
      AcceptedRunIsClean(Flatten(root), |Flatten(root)|);
    }
  }

  // ---------------------------------------------------------------------------------------------
  // Why the requirement cannot be dropped
  // ---------------------------------------------------------------------------------------------

  const NESTED_ATTRIBUTE := Element(AttributeTag, map[], false, [])

  const FOREIGN_ATTRIBUTE :=
    Element(AttributeTag, map[NameKey := "o", TypeKey := "OtherXML"], true, [])

  const OTHER_XML :=
    Element(AttributeTag, map[NameKey := "o", TypeKey := "OtherXML"], false, [NESTED_ATTRIBUTE, FOREIGN_ATTRIBUTE])

  const CONTAINER := Element(AttributeTag, map[NameKey := "c", TypeKey := "Container"], false, [OTHER_XML])

  const UNTAME := Element(DatasetTag, map[NameKey := "d"], false, [CONTAINER])

  lemma RunNodes(p: Parser, n: Node, ns: seq<Node>)
    ensures Run(p, FlattenAll([n] + ns)) == Run(Run(p, Flatten(n)), FlattenAll(ns))
  {
    assert ([n] + ns)[1..] == ns;
    RunApart(p, Flatten(n), FlattenAll(ns));
  }

  lemma RunElement(p: Parser, n: Node)
    requires n.Element? && n.content == []
    ensures Run(p, Flatten(n)) == Step(Step(p, Start(n.tag, n.attrs)), End(n.tag, n.foreign))
  {
    RunParts(p, Start(n.tag, n.attrs), [], End(n.tag, n.foreign));
  }

  lemma RunParent(p: Parser, n: Node, child: Node)
    requires n.Element? && n.content == [child]
    ensures Run(p, Flatten(n)) ==
            Step(Run(Step(p, Start(n.tag, n.attrs)), Flatten(child)), End(n.tag, n.foreign))
  {
    RunParts(p, Start(n.tag, n.attrs), FlattenAll([child]), End(n.tag, n.foreign));
    RunNodes(Step(p, Start(n.tag, n.attrs)), child, []);
    assert [child] + [] == [child];
  }

  const OTHER_ATTRS := map[NameKey := "o", TypeKey := "OtherXML"]

  lemma OtherXmlOpens(p: Parser)
    requires Top(p.s).InsideAttributeContainer?
    ensures StartElement(p, AttributeTag, OTHER_ATTRS) ==
            p.(s := p.s + [InsideOtherXml], attrName := "o", attrType := "OtherXML")
  {
    assert OpeningOf(InsideAttributeContainer, AttributeTag) == OpensAttribute;
    assert Lookup(OTHER_ATTRS, NameKey) == "o" && Lookup(OTHER_ATTRS, TypeKey) == "OtherXML";
    assert "OtherXML"[0] != "Container"[0];
  }

  /** The table on top, with nothing but values of the OtherXML attribute in it. */
  predicate OnlyOther(p: Parser) {
    p.at != [] &&
    var t := TopTable(p.at).table;
    t == [] || (|t| == 1 && t[0].Plain? && t[0].name == DecodeSpaces("o") && t[0].ty == AttrOtherXml)
  }

  lemma OtherXmlCloses(p: Parser)
    requires Top(p.s).InsideOtherXml? && !p.thrown && OnlyOther(p)
    requires p.attrName == "o" && p.attrType == "OtherXML"
    ensures var q := EndElement(p, AttributeTag, false);
            !q.thrown && q.s == Below(p.s) && |q.at| == |p.at| && OnlyOther(q) && q.otherXmlDepth == p.otherXmlDepth
  {
    AttrTypeOfName(AttrOtherXml);
    var q := PopState(p);
    var t := TopTable(q.at).table;
    assert AppendAttr(t, "o", "OtherXML", p.otherXml).Some?;
    assert EndElement(p, AttributeTag, false) == RecordAttr(q, p.otherXml).(otherXml := "");
  }

  /** Inside a container with a table of that kind on top. */
  predicate InContainer(p: Parser, s: seq<State>, tables: nat, depth: nat) {
    !p.thrown && p.s == s && |p.at| == tables && p.otherXmlDepth == depth && OnlyOther(p) &&
    Top(s).InsideAttributeContainer?
  }

  /** An attribute element within OtherXML ends the attribute early. */
  lemma EndsEarly(p: Parser, s: seq<State>, tables: nat)
    requires InContainer(p, s, tables, 0)
    ensures var p1 := StartElement(p, AttributeTag, OTHER_ATTRS); var p2 := StartElement(p1, AttributeTag, map[]);
            !p1.thrown && !p2.thrown && InContainer(EndElement(p2, AttributeTag, false), s, tables, 1)
  {
    BelowPush(p.s, InsideOtherXml);
    OtherXmlOpens(p);
    var p1 := StartElement(p, AttributeTag, OTHER_ATTRS);
    var p2 := StartElement(p1, AttributeTag, map[]);
    assert p2 == p1.(otherXmlDepth := 1, otherXml := p1.otherXml + "<>");
    OtherXmlCloses(p2);
  }

  /** A foreign one can then make up for the end tag that is left over. */
  lemma MakesUp(p: Parser, s: seq<State>, tables: nat)
    requires InContainer(p, s, tables, 1)
    ensures var p4 := StartElement(p, AttributeTag, OTHER_ATTRS); var p5 := EndElement(p4, AttributeTag, true);
            !p4.thrown && !p5.thrown && InContainer(EndElement(p5, AttributeTag, false), s, tables, 0)
  {
    BelowPush(p.s, InsideOtherXml);
    OtherXmlOpens(p);
    var p4 := StartElement(p, AttributeTag, OTHER_ATTRS);
    var p5 := EndElement(p4, AttributeTag, true);
    assert p5 == p4.(otherXmlDepth := 0, otherXml := p4.otherXml + "</>");
    OtherXmlCloses(p5);
  }

  lemma OtherXmlRun(p: Parser, s: seq<State>, tables: nat)
    requires InContainer(p, s, tables, 0)
    ensures InContainer(Run(p, Flatten(OTHER_XML)), s, tables, 0)
  {
    var p1 := StartElement(p, AttributeTag, OTHER_ATTRS);
    var p2 := StartElement(p1, AttributeTag, map[]);
    EndsEarly(p, s, tables);
    var p3 := EndElement(p2, AttributeTag, false);
    var p4 := StartElement(p3, AttributeTag, OTHER_ATTRS);
    MakesUp(p3, s, tables);
    OtherXmlEvents(p, p1, p2, p3, p4, EndElement(p4, AttributeTag, true));
  }

  lemma OtherXmlEvents(p: Parser, p1: Parser, p2: Parser, p3: Parser, p4: Parser, p5: Parser)
    requires p1 == Step(p, Start(AttributeTag, OTHER_ATTRS)) && p2 == Step(p1, Start(AttributeTag, map[]))
    requires p3 == Step(p2, End(AttributeTag, false)) && p4 == Step(p3, Start(AttributeTag, OTHER_ATTRS))
    requires p5 == Step(p4, End(AttributeTag, true))
    ensures Run(p, Flatten(OTHER_XML)) == Step(p5, End(AttributeTag, false))
  {
    RunParts(p, Start(AttributeTag, OTHER_ATTRS), FlattenAll(OTHER_XML.content), End(AttributeTag, false));
    RunNodes(p1, NESTED_ATTRIBUTE, [FOREIGN_ATTRIBUTE]);
    RunElement(p1, NESTED_ATTRIBUTE);
    RunNodes(p3, FOREIGN_ATTRIBUTE, []);
    RunElement(p3, FOREIGN_ATTRIBUTE);
    assert [NESTED_ATTRIBUTE] + [FOREIGN_ATTRIBUTE] == OTHER_XML.content;
    assert [FOREIGN_ATTRIBUTE] + [] == [FOREIGN_ATTRIBUTE];
  }

  lemma ContainerOpens(p: Parser)
    requires p.at == [OpenTable("", [])] && p.s == [ParserStart, InsideDataset] && !p.thrown
    ensures var q := StartElement(p, AttributeTag, CONTAINER.attrs);
            q.s == p.s + [InsideAttributeContainer] && !q.thrown && |q.at| == 2 && OnlyOther(q) &&
            q.otherXmlDepth == p.otherXmlDepth
  {
    var attrs := CONTAINER.attrs;
    assert OpeningOf(InsideDataset, AttributeTag) == OpensAttribute;
    assert Lookup(attrs, NameKey) == "c" && Lookup(attrs, TypeKey) == "Container";
    assert AppendContainer([], "c", []).Some?;
  }

  lemma RootOpensOnly(p: Parser)
    requires p == Initial()
    ensures var q := StartElement(p, DatasetTag, UNTAME.attrs);
            q.s == [ParserStart, InsideDataset] && q.at == p.at && !q.thrown && q.otherXmlDepth == 0
  {
    assert OpeningOf(ParserStart, DatasetTag) == OpensRoot;
  }

  lemma UntameIsNoMember()
    ensures !Fits(OfDocument, UNTAME)
  {
    assert !Fits(OfMarkup, NESTED_ATTRIBUTE);
    assert !AllFit(OfMarkup, OTHER_XML.content);
    assert ContentModel(AttributeTag, OTHER_ATTRS) == OfMarkup by {
      assert "OtherXML"[0] != "Container"[0];
    }
    assert !Fits(OfContainer, OTHER_XML);
    assert !AllFit(OfContainer, CONTAINER.content);
    assert !Fits(OfDataset, CONTAINER);
    assert !AllFit(OfDataset, UNTAME.content);
  }

  lemma ContainerRun(p: Parser)
    requires p.at == [OpenTable("", [])] && p.s == [ParserStart, InsideDataset] && !p.thrown && p.otherXmlDepth == 0
    ensures var q := Run(p, Flatten(CONTAINER)); !q.thrown && q.s == p.s
  {
    ContainerOpens(p);
    BelowPush(p.s, InsideAttributeContainer);
    var q := StartElement(p, AttributeTag, CONTAINER.attrs);
    OtherXmlRun(q, q.s, 2);
    RunParent(p, CONTAINER, OTHER_XML);
    var r := Run(q, Flatten(OTHER_XML));
    assert EndElement(r, AttributeTag, false) == CloseContainer(r);
  }

  /** A document outside the grammar that the parser accepts. */
  lemma UntameDocumentIsAccepted()
    ensures AcceptsDocument(Flatten(UNTAME)) && !Fits(OfDocument, UNTAME)
  {
    UntameIsNoMember();
    RootOpensOnly(Initial());
    var p := StartElement(Initial(), DatasetTag, UNTAME.attrs);
    ContainerRun(p);
    RunParent(Initial(), UNTAME, CONTAINER);
    var q := Run(p, Flatten(CONTAINER));
    assert EndElement(q, DatasetTag, false) == PopState(q);
  }
}
