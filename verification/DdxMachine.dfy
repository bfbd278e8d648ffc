/** The pushdown machine that reads a dataset description back: what each parser callback does to the
    state, the variable and the attribute-table stack. */
module DdxMachine {
  import opened Wrappers
  import opened Text
  import opened Types
  import opened Attributes
  import opened Variables
  import opened DdxPrinter

  datatype State =
    | ParserStart | InsideDataset | InsideAttributeContainer | InsideAttribute | InsideAttributeValue
    | InsideOtherXml | InsideAlias | InsideSimpleType | InsideArray | InsideDimension | InsideGrid
    | InsideMap | InsideStructure | InsideSequence | InsideBlobHref | ParserUnknown | ParserError

  /** What the XML library reports. An end tag is foreign when its namespace is not that of the
      document's root element. Complaint stands for the library's warning and error callbacks. */
  datatype Event =
    | Start(tag: Tag, attrs: map<Key, string>)
    | End(tag: Tag, foreign: bool)
    | Chars(text: string)
    | IgnorableWhitespace(text: string)
    | Cdata(text: string)
    | Complaint

  /** The parser object. The last element of a stack is its top. Thrown tells that a callback has thrown
      an exception, which ends the parse. */
  datatype Parser = Parser(
    s: seq<State>,
    bt: seq<Var>,
    at: seq<OpenTable>,
    otherXml: string,
    otherXmlDepth: nat,
    attrName: string,
    attrType: string,
    charData: string,
    datasetName: string,
    dapVersion: string,
    blobHref: string,
    thrown: bool)

  function Top(s: seq<State>): State {
    if s == [] then ParserUnknown else s[|s| - 1]
  }

  function TopVar(bt: seq<Var>): Var {
    if bt == [] then NewVar(NullType, "") else bt[|bt| - 1]
  }

  function TopTable(at: seq<OpenTable>): OpenTable {
    if at == [] then OpenTable("", []) else at[|at| - 1]
  }

  function Below<T>(s: seq<T>): seq<T> {
    if s == [] then [] else s[..|s| - 1]
  }

  function Push(p: Parser, state: State): Parser {
    p.(s := p.s + [state])
  }

  /** ddx_fatal_error */
  function Fatal(p: Parser): Parser {
    Push(p, ParserError)
  }

  /** check_required_attribute: records the error but lets its caller carry on. */
  function Require(p: Parser, attrs: map<Key, string>, key: Key): Parser {
    if key in attrs then p else Fatal(p)
  }

  /** attribute_table[key]: the empty string for an attribute that is missing. */
  function Lookup(attrs: map<Key, string>, key: Key): string {
    if key in attrs then attrs[key] else ""
  }

  function SetTopVar(p: Parser, v: Var): Parser {
    p.(bt := Below(p.bt) + [v])
  }

  function SetTopTable(p: Parser, t: Table): Parser {
    p.(at := Below(p.at) + [OpenTable(TopTable(p.at).name, t)])
  }

  function ProcessAttributeElement(p: Parser, attrs: map<Key, string>): Parser {
    var p := Require(Require(p, attrs, NameKey), attrs, TypeKey);
    var name, ty := Lookup(attrs, NameKey), Lookup(attrs, TypeKey);
    if ty == "Container" then
      var p := Push(p, InsideAttributeContainer);
      if AppendContainer(TopTable(p.at).table, name, []).None? then p.(thrown := true)
      else p.(at := p.at + [OpenTable(DecodeSpaces(name), [])])
    else Push(p, if ty == "OtherXML" then InsideOtherXml else InsideAttribute).(attrName := name, attrType := ty)
  }

  /** An alias for a container in the table on top; the exception of attr_alias ends the parse. */
  function ProcessAlias(p: Parser, attrs: map<Key, string>): Parser {
    var p := Push(Require(Require(p, attrs, NameKey), attrs, AliasKey), InsideAlias);
    match AttrAlias(TopTable(p.at), Lookup(attrs, NameKey), Lookup(attrs, AliasKey))
    case Some(t) => SetTopTable(p, t)
    case None => p.(thrown := true)
  }

  /** A new variable and its table on top of the stacks. For a type that the factory does not know an
      error is recorded, and a null pointer takes the place of the variable. */
  function Declare(p: Parser, ty: Type, name: string): Parser {
    (if InFactory(ty) then p else Fatal(p)).(
      bt := p.bt + [NewVar(if InFactory(ty) then ty else NullType, name)],
      at := p.at + [OpenTable("", [])])
  }

  function ProcessVariable(p: Parser, ty: Type, state: State, attrs: map<Key, string>): Parser {
    var p := Push(p, state);
    Declare(if TopVar(p.bt).ty == ArrayType then p else Require(p, attrs, NameKey), ty, Lookup(attrs, NameKey))
  }

  function ProcessDimension(p: Parser, attrs: map<Key, string>): Parser {
    var p := Push(Require(p, attrs, SizeKey), InsideDimension);
    var v := TopVar(p.bt);
    if v.ty != ArrayType then Fatal(p) else
    SetTopVar(p, v.(dims := v.dims +
      [NewDimension(Atoi(Lookup(attrs, SizeKey)), Www2id(Lookup(attrs, NameKey), 0))]))
  }

  function ProcessBlob(p: Parser, attrs: map<Key, string>): Parser {
    Push(Require(p, attrs, HrefKey), InsideBlobHref).(blobHref := Lookup(attrs, HrefKey))
  }

  predicate IsVariableTag(tag: Tag) {
    IsSimple(GetType(tag)) || tag in {TypeTag(ArrayType), TypeTag(Structure), TypeTag(Sequence), TypeTag(Grid)}
  }

  function StateOfType(ty: Type): State {
    match ty
    case ArrayType => InsideArray
    case Structure => InsideStructure
    case Sequence => InsideSequence
    case Grid => InsideGrid
    case _ => InsideSimpleType
  }

  /** What a start tag is taken for. */
  datatype Opening =
    | Refused | OpensRoot | OpensAttribute | OpensAlias | OpensValue | OpensVariable(ty: Type, state: State)
    | OpensDimension | OpensBlob | OpensForeign | OpensUnknown | Ignored

  function OpensVariableTag(tag: Tag): Opening {
    OpensVariable(GetType(tag), StateOfType(GetType(tag)))
  }

  /** The branches of ddx_sax2_start_element, is_attribute_or_alias and is_variable. */
  function OpeningOf(state: State, tag: Tag): Opening {
    match state
    case ParserStart => if tag == DatasetTag then OpensRoot else Refused
    case InsideOtherXml => OpensForeign
    case ParserUnknown => OpensUnknown
    case ParserError => Ignored
    case InsideAttributeValue => Refused
    case InsideAlias => Refused
    case InsideDimension => Refused
    case InsideBlobHref => Refused
    case _ =>
      if tag == AttributeTag then OpensAttribute
      else if tag == AliasTag then OpensAlias
      else match state
      case InsideDataset =>
        if IsVariableTag(tag) then OpensVariableTag(tag)
        else if tag == BlobTag || tag == DataBlobTag then OpensBlob else Refused
      case InsideAttribute => if tag == ValueTag then OpensValue else Refused
      case InsideArray =>
        if tag != TypeTag(ArrayType) && IsVariableTag(tag) then OpensVariableTag(tag)
        else if tag == DimensionTag then OpensDimension else Refused
      case InsideStructure => if IsVariableTag(tag) then OpensVariableTag(tag) else Refused
      case InsideSequence => if IsVariableTag(tag) then OpensVariableTag(tag) else Refused
      case InsideGrid =>
        if tag == TypeTag(ArrayType) then OpensVariable(ArrayType, InsideArray)
        else if tag == MapTag then OpensVariable(ArrayType, InsideMap) else Refused
      case InsideMap =>
        if tag !in {TypeTag(ArrayType), TypeTag(Sequence), TypeTag(Grid)} && IsVariableTag(tag)
        then OpensVariableTag(tag)
        else if tag == DimensionTag then OpensDimension else Refused
      case _ => Refused
  }

  function StartRoot(p: Parser, attrs: map<Key, string>): Parser {
    var p := Require(Push(p, InsideDataset), attrs, NameKey);
    p.(datasetName := Lookup(attrs, NameKey),
       dapVersion := if DapVersionKey in attrs then attrs[DapVersionKey] else p.dapVersion)
  }

  function PerformOpening(p: Parser, o: Opening, attrs: map<Key, string>): Parser {
    match o
    case Refused => Fatal(p)
    case OpensRoot => StartRoot(p, attrs)
    case OpensAttribute => ProcessAttributeElement(p, attrs)
    case OpensAlias => ProcessAlias(p, attrs)
    case OpensValue => Push(p, InsideAttributeValue)
    case OpensVariable(ty, state) => ProcessVariable(p, ty, state, attrs)
    case OpensDimension => ProcessDimension(p, attrs)
    case OpensBlob => ProcessBlob(p, attrs)
    case OpensForeign => p.(otherXmlDepth := p.otherXmlDepth + 1, otherXml := p.otherXml + "<>")
    case OpensUnknown => Push(p, ParserUnknown)
    case Ignored => p
  }

  /** ddx_sax2_start_element */
  function StartElement(p: Parser, tag: Tag, attrs: map<Key, string>): Parser {
    PerformOpening(p, OpeningOf(Top(p.s), tag), attrs)
  }

  function PopState(p: Parser): Parser {
    p.(s := Below(p.s))
  }

  /** Vector::add_var: the template and the array end up with the same name, that of the template unless
      it is empty. */
  function SetTemplate(parent: Var, v: Var): Var {
    if v.name != "" then
      var name := Www2id(v.name, 0);
      parent.(name := name, kids := [v.(name := name)])
    else parent.(kids := [v.(name := Www2id(parent.name, 0))])
  }

  function AppendedDimensions(ds: seq<Dimension>): seq<Dimension> {
    seq(|ds|, i requires 0 <= i < |ds| => NewDimension(ds[i].size, Www2id(ds[i].name, 0)))
  }

  /** add_var of the parent's class; None stands for the exception of a Grid whose first part is not an
      array. */
  function AddVar(parent: Var, v: Var): Option<Var> {
    if parent.ty == ArrayType then
      if v.ty != ArrayType then Some(SetTemplate(parent, v))
      else
        var grown := if v.kids == [] then parent.(kids := []) else SetTemplate(parent, v.kids[0]);
        Some(grown.(dims := grown.dims + AppendedDimensions(v.dims)))
    else if parent.ty == Grid && parent.kids == [] && v.ty != ArrayType then None
    else Some(parent.(kids := parent.kids + [v]))
  }

  /** Take a finished variable off the stacks and give it to its parent. */
  function GiveToParent(p: Parser, v: Var): Parser {
    var parent := TopVar(p.bt);
    if parent.ty == ArrayType || IsConstructor(parent.ty) then
      match AddVar(parent, v)
      case Some(parent) => SetTopVar(p, parent)
      case None => p.(thrown := true)
    else Fatal(p)
  }

  /** The variable on top of the stack, with the attributes collected for it. */
  function FinishedVar(p: Parser): Var {
    TopVar(p.bt).(attrs := TopTable(p.at).table)
  }

  function PopVariable(p: Parser): Parser {
    p.(s := Below(p.s), bt := Below(p.bt), at := Below(p.at))
  }

  /** finish_variable, once the tag has turned out to be the expected one. */
  function FinishVariable(p: Parser, ty: Type): Parser {
    var v := FinishedVar(p);
    var p := PopVariable(p);
    if v.ty != ty then Fatal(p)
    else if ty == ArrayType && v.dims == [] then Fatal(p)
    else GiveToParent(p, v)
  }

  /** Record the value just read; the exception of append_attr ends the parse. */
  function RecordAttr(p: Parser, value: string): Parser {
    match AppendAttr(TopTable(p.at).table, p.attrName, p.attrType, value)
    case Some(t) => SetTopTable(p, t)
    case None => p.(thrown := true)
  }

  function CloseContainer(p: Parser): Parser {
    var child := TopTable(p.at);
    var p := p.(s := Below(p.s), at := Below(p.at));
    SetTopTable(p, TopTable(p.at).table + [Container(child.name, child.table)])
  }

  /** What an end tag is taken for. */
  datatype Closing =
    | Unexpected | Leaves | ClosesContainer | ClosesValue | ClosesOtherXml | ClosesForeign
    | ClosesSimple | ClosesVariable(ty: Type) | Passed

  /** The branches of ddx_sax2_end_element and the tag test of finish_variable. */
  function ClosingOf(state: State, tag: Tag, foreign: bool): Closing {
    match state
    case ParserStart => Unexpected
    case InsideDataset => if tag == DatasetTag then Leaves else Unexpected
    case InsideAttributeContainer => if tag == AttributeTag then ClosesContainer else Unexpected
    case InsideAttribute => if tag == AttributeTag then Leaves else Unexpected
    case InsideAttributeValue => if tag == ValueTag then ClosesValue else Unexpected
    case InsideOtherXml => if tag == AttributeTag && !foreign then ClosesOtherXml else ClosesForeign
    case InsideAlias => Leaves
    case InsideSimpleType => if IsSimple(GetType(tag)) then ClosesSimple else Unexpected
    case InsideArray => if tag == TypeTag(ArrayType) then ClosesVariable(ArrayType) else Unexpected
    case InsideDimension => if tag == DimensionTag then Leaves else Unexpected
    case InsideStructure => if tag == TypeTag(Structure) then ClosesVariable(Structure) else Unexpected
    case InsideSequence => if tag == TypeTag(Sequence) then ClosesVariable(Sequence) else Unexpected
    case InsideGrid => if tag == TypeTag(Grid) then ClosesVariable(Grid) else Unexpected
    case InsideMap => if tag == MapTag then ClosesVariable(ArrayType) else Unexpected
    case InsideBlobHref => if tag == BlobTag || tag == DataBlobTag then Leaves else Unexpected
    case ParserUnknown => Leaves
    case ParserError => Passed
  }

  /** An end tag inside the markup of an OtherXML attribute. The depth is decremented even after the
      error; the unsigned counter then wraps. */
  function EndForeign(p: Parser): Parser {
    var p := if p.otherXmlDepth == 0 then Fatal(p).(otherXmlDepth := 0xFFFF_FFFF)
             else p.(otherXmlDepth := p.otherXmlDepth - 1);
    p.(otherXml := p.otherXml + "</>")
  }

  function PerformClosing(p: Parser, c: Closing): Parser {
    match c
    case Unexpected => Fatal(p)
    case Leaves => PopState(p)
    case ClosesContainer => CloseContainer(p)
    case ClosesValue => RecordAttr(PopState(p), p.charData).(charData := "")
    case ClosesOtherXml => RecordAttr(PopState(p), p.otherXml).(otherXml := "")
    case ClosesForeign => EndForeign(p)
    case ClosesSimple => GiveToParent(PopVariable(p), FinishedVar(p))
    case ClosesVariable(ty) => FinishVariable(p, ty)
    case Passed => p
  }

  /** ddx_sax2_end_element */
  function EndElement(p: Parser, tag: Tag, foreign: bool): Parser {
    PerformClosing(p, ClosingOf(Top(p.s), tag, foreign))
  }

  /** The callbacks for character data, ignorable white space and CDATA sections. */
  function GetCharacters(p: Parser, text: string): Parser {
    match Top(p.s)
    case InsideAttributeValue => p.(charData := p.charData + text)
    case InsideOtherXml => p.(otherXml := p.otherXml + text)
    case _ => p
  }

  function GetWhitespace(p: Parser, text: string): Parser {
    if Top(p.s) == InsideOtherXml then p.(otherXml := p.otherXml + text) else p
  }

  function GetCdata(p: Parser, text: string): Parser {
    match Top(p.s)
    case InsideOtherXml => p.(otherXml := p.otherXml + text)
    case ParserUnknown => p
    case _ => Fatal(p)
  }

  function Step(p: Parser, e: Event): Parser {
    if p.thrown then p else
    match e
    case Start(tag, attrs) => StartElement(p, tag, attrs)
    case End(tag, foreign) => EndElement(p, tag, foreign)
    case Chars(text) => GetCharacters(p, text)
    case IgnorableWhitespace(text) => GetWhitespace(p, text)
    case Cdata(text) => GetCdata(p, text)
    case Complaint => Fatal(p)
  }

  function Run(p: Parser, es: seq<Event>): Parser
    decreases |es|
  {
    if es == [] then p else Run(Step(p, es[0]), es[1..])
  }

  /** ddx_start_document: a stand-in Structure collects the top-level variables. */
  function Initial(): Parser {
    Parser([ParserStart], [NewVar(Structure, "dummy_dds")], [OpenTable("", [])],
           "", 0, "", "", "", "", "", "", false)
  }

  /** ddx_end_document and the verdict of cleanup_parse. */
  function EndDocument(p: Parser): Parser {
    if Top(p.s) != ParserStart then Fatal(p) else p
  }

  predicate Accepts(p: Parser) {
    !p.thrown && Top(EndDocument(p).s) != ParserError
  }

  /** What an accepted parse has built. */
  function Result(p: Parser): Dataset {
    Dataset(p.datasetName, if p.at == [] then [] else p.at[0].table, TopVar(p.bt).kids)
  }

  predicate AcceptsDocument(es: seq<Event>) {
    Accepts(Run(Initial(), es))
  }

  lemma {:induction false} RunApart(p: Parser, a: seq<Event>, b: seq<Event>)
    ensures Run(p, a + b) == Run(Run(p, a), b)
    decreases |a|
  {
    if a == [] {
      assert a + b == b;
    } else {
      assert (a + b)[1..] == a[1..] + b;
      RunApart(Step(p, a[0]), a[1..], b);
    }
  }
}
