/** The DAP4 sibling of the dataset parser: a pushdown machine of the same kind, with enumerations whose
    constants are checked against their base type. */
module Dap4Machine {
  import opened Wrappers
  import opened Text
  import opened Types
  import opened Attributes
  import opened Variables
  import Ddx = DdxMachine

  datatype State =
    | ParserStart | InsideGroup | InsideAttributeContainer | InsideAttribute | InsideAttributeValue | InsideOtherXml
    | InsideEnumDef | InsideEnumConst | InsideSimpleType | InsideArray | InsideDimension | InsideGrid | InsideMap
    | InsideConstructor | InsideSequence | ParserUnknown | ParserError

  datatype Const = Const(name: string, value: int)

  datatype EnumDef = EnumDef(name: string, ty: Type, values: seq<Const>)

  /** The parser object. A group's own enumerations are collected in enums. */
  datatype Parser = Parser(
    s: seq<State>,
    bt: seq<Var>,
    at: seq<OpenTable>,
    otherXml: string,
    otherXmlDepth: nat,
    attrName: string,
    attrType: string,
    charData: string,
    enumDef: EnumDef,
    enums: seq<EnumDef>,
    thrown: bool)

  function Top(s: seq<State>): State {
    if s == [] then ParserUnknown else s[|s| - 1]
  }

  function Push(p: Parser, state: State): Parser {
    p.(s := p.s + [state])
  }

  function Fatal(p: Parser): Parser {
    Push(p, ParserError)
  }

  function Require(p: Parser, attrs: map<Key, string>, key: Key): Parser {
    if key in attrs then p else Fatal(p)
  }

  // ---------------------------------------------------------------------------------------------
  // Enumerations
  // ---------------------------------------------------------------------------------------------

  const LLONG_LIMIT := 0x8000_0000_0000_0000

  /** The number of digits s starts with. */
  function LeadingDigits(s: string): (n: nat)
    ensures n <= |s|
  {
    if s != "" && IsDigit(s[0]) then 1 + LeadingDigits(s[1..]) else 0
  }

  /** Reading a long long from a string stream; what follows the number does not matter. */
  function ReadLongLong(s: string): Option<int> {
    ReadNumber(SkipSpaces(s))
  }

  function ReadNumber(t: string): Option<int> {
    var signed := t != "" && (t[0] == '-' || t[0] == '+');
    var u := if signed then t[1..] else t;
    var n := LeadingDigits(u);
    var magnitude: int := Digits(u[..n], 0, 0);
    var value := if signed && t[0] == '-' then -magnitude else magnitude;
    if n == 0 || !(-LLONG_LIMIT <= value < LLONG_LIMIT) then None else Some(value)
  }

  /** is_valid_enum_value, for a value of type long long. */
  predicate IsValidEnumValue(t: Type, value: int) {
    match t
    case Int8 => -0x80 <= value <= 0x7F
    case Byte => 0 <= value <= 0xFF
    case UInt8 => 0 <= value <= 0xFF
    case Int16 => -0x8000 <= value <= 0x7FFF
    case UInt16 => 0 <= value <= 0xFFFF
    case Int32 => -0x8000_0000 <= value <= 0x7FFF_FFFF
    case UInt32 => 0 <= value <= 0xFFFF_FFFF
    case Int64 => -LLONG_LIMIT <= value < LLONG_LIMIT
    case UInt64 => 0 <= value < 2 * LLONG_LIMIT
    case _ => false
  }

  function GetTypeByName(name: string): Type {
    if name == "Byte" then Byte else if name == "Int8" then Int8 else if name == "UInt8" then UInt8
    else if name == "Int16" then Int16 else if name == "UInt16" then UInt16
    else if name == "Int32" then Int32 else if name == "UInt32" then UInt32
    else if name == "Int64" then Int64 else if name == "UInt64" then UInt64 else NullType
  }

  /** process_enum_def_helper. A base type that is no integer is an error, and the parse goes on with UInt64. */
  function ProcessEnumDef(p: Parser, attrs: map<Key, string>): Parser {
    var p := Require(Require(p, attrs, NameKey), attrs, BaseTypeKey);
    var t := GetTypeByName(Ddx.Lookup(attrs, BaseTypeKey));
    var p := if IsInteger(t) then p else Fatal(p);
    Push(p.(enumDef := EnumDef(Ddx.Lookup(attrs, NameKey), if IsInteger(t) then t else UInt64, [])), InsideEnumDef)
  }

  /** process_enum_const_helper */
  function ProcessEnumConst(p: Parser, attrs: map<Key, string>): Parser {
    var p := Require(Require(p, attrs, NameKey), attrs, ValueKey);
    var value := ReadLongLong(Ddx.Lookup(attrs, ValueKey));
    var p :=
      if value.None? || !IsValidEnumValue(p.enumDef.ty, value.value) then Fatal(p)
      else p.(enumDef := p.enumDef.(values := p.enumDef.values + [Const(Ddx.Lookup(attrs, NameKey), value.value)]));
    Push(p, InsideEnumConst)
  }

  // ---------------------------------------------------------------------------------------------
  // Start tags
  // ---------------------------------------------------------------------------------------------

  function ProcessAttribute(p: Parser, attrs: map<Key, string>): Parser {
    var p := Require(Require(p, attrs, NameKey), attrs, TypeKey);
    var name, ty := Ddx.Lookup(attrs, NameKey), Ddx.Lookup(attrs, TypeKey);
    if ty == "Container" then
      var p := Push(p, InsideAttributeContainer);
      if AppendContainer(Ddx.TopTable(p.at).table, name, []).None? then p.(thrown := true)
      else p.(at := p.at + [OpenTable(DecodeSpaces(name), [])])
    else Push(p, if ty == "OtherXML" then InsideOtherXml else InsideAttribute).(attrName := name, attrType := ty)
  }

  function Declare(p: Parser, ty: Type, name: string): Parser {
    (if ty != NullType then p else Fatal(p)).(bt := p.bt + [NewVar(ty, name)], at := p.at + [OpenTable("", [])])
  }

  function ProcessVariable(p: Parser, ty: Type, state: State, attrs: map<Key, string>): Parser {
    Declare(Require(Push(p, state), attrs, NameKey), ty, Ddx.Lookup(attrs, NameKey))
  }

  function ProcessDimension(p: Parser, attrs: map<Key, string>): Parser {
    var p := Push(Require(p, attrs, SizeKey), InsideDimension);
    var v := Ddx.TopVar(p.bt);
    if v.ty != ArrayType then Fatal(p) else
    p.(bt := Ddx.Below(p.bt) + [v.(dims := v.dims +
      [NewDimension(Atoi(Ddx.Lookup(attrs, SizeKey)), Www2id(Ddx.Lookup(attrs, NameKey), 0))])])
  }

  /** The first element of a document becomes the root group. */
  function StartRoot(p: Parser, attrs: map<Key, string>): Parser {
    Declare(Require(Push(p, InsideGroup), attrs, NameKey), Group, "root")
  }

  /** The elements that declare variables: not arrays, which only a Grid can hold. */
  predicate IsVariableTag(tag: Tag) {
    IsSimple(GetType(tag)) || tag == TypeTag(Structure) || tag == TypeTag(Sequence)
  }

  datatype Opening =
    | Refused | OpensRoot | OpensAttribute | OpensValue | OpensVariable(ty: Type, state: State) | OpensDimension
    | OpensEnumDef | OpensEnumConst | OpensForeign | OpensUnknown | Ignored

  function OpensVariableTag(tag: Tag): Opening {
    var ty := GetType(tag);
    OpensVariable(ty, if ty == Structure then InsideConstructor else if ty == Sequence then InsideSequence
                      else InsideSimpleType)
  }

  /** The branches of ddx_start_element. Elements within a value and within an enumeration constant are passed
      over. */
  function OpeningOf(state: State, tag: Tag): Opening {
    match state
    case ParserStart => if tag == TypeTag(Group) then OpensRoot else Refused
    case InsideAttributeValue => Ignored
    case InsideOtherXml => OpensForeign
    case InsideEnumDef => if tag == EnumConstTag then OpensEnumConst else Refused
    case InsideEnumConst => Ignored
    case InsideDimension => Refused
    case ParserUnknown => OpensUnknown
    case ParserError => Ignored
    case _ =>
      if tag == AttributeTag then OpensAttribute
      else match state
      case InsideGroup =>
        if IsVariableTag(tag) then OpensVariableTag(tag)
        else if tag == EnumerationTag then OpensEnumDef else Refused
      case InsideAttribute => if tag == ValueTag then OpensValue else Refused
      case InsideArray =>
        if IsVariableTag(tag) then OpensVariableTag(tag)
        else if tag == DimensionTag then OpensDimension else Refused
      case InsideConstructor => if IsVariableTag(tag) then OpensVariableTag(tag) else Refused
      case InsideSequence => if IsVariableTag(tag) then OpensVariableTag(tag) else Refused
      case InsideGrid =>
        if tag == TypeTag(ArrayType) then OpensVariable(ArrayType, InsideArray)
        else if tag == MapTag then OpensVariable(ArrayType, InsideMap) else Refused
      case InsideMap =>
        if tag != TypeTag(Sequence) && IsVariableTag(tag) then OpensVariableTag(tag)
        else if tag == DimensionTag then OpensDimension else Refused
      case _ => Refused
  }

  function PerformOpening(p: Parser, o: Opening, attrs: map<Key, string>): Parser {
    match o
    case Refused => Fatal(p)
    case OpensRoot => StartRoot(p, attrs)
    case OpensAttribute => ProcessAttribute(p, attrs)
    case OpensValue => Push(p, InsideAttributeValue)
    case OpensVariable(ty, state) => ProcessVariable(p, ty, state, attrs)
    case OpensDimension => ProcessDimension(p, attrs)
    case OpensEnumDef => ProcessEnumDef(p, attrs)
    case OpensEnumConst => ProcessEnumConst(p, attrs)
    case OpensForeign => p.(otherXmlDepth := p.otherXmlDepth + 1, otherXml := p.otherXml + "<>")
    case OpensUnknown => Push(p, ParserUnknown)
    case Ignored => p
  }

  // ---------------------------------------------------------------------------------------------
  // End tags
  // ---------------------------------------------------------------------------------------------

  function PopState(p: Parser): Parser {
    p.(s := Ddx.Below(p.s))
  }

  function RecordAttr(p: Parser, value: string): Parser {
    match AppendAttr(Ddx.TopTable(p.at).table, p.attrName, p.attrType, value)
    case Some(t) => p.(at := Ddx.Below(p.at) + [OpenTable(Ddx.TopTable(p.at).name, t)])
    case None => p.(thrown := true)
  }

  function CloseContainer(p: Parser): Parser {
    var child := Ddx.TopTable(p.at);
    var p := p.(s := Ddx.Below(p.s), at := Ddx.Below(p.at));
    var parent := Ddx.TopTable(p.at);
    p.(at := Ddx.Below(p.at) + [OpenTable(parent.name, parent.table + [Container(child.name, child.table)])])
  }

  function GiveToParent(p: Parser, v: Var): Parser {
    var parent := Ddx.TopVar(p.bt);
    if parent.ty == ArrayType || IsConstructor(parent.ty) then
      match Ddx.AddVar(parent, v)
      case Some(grown) => p.(bt := Ddx.Below(p.bt) + [grown])
      case None => p.(thrown := true)
    else Fatal(p)
  }

  function FinishedVar(p: Parser): Var {
    Ddx.TopVar(p.bt).(attrs := Ddx.TopTable(p.at).table)
  }

  function PopVariable(p: Parser): Parser {
    p.(s := Ddx.Below(p.s), bt := Ddx.Below(p.bt), at := Ddx.Below(p.at))
  }

  function FinishVariable(p: Parser, ty: Type): Parser {
    var v := FinishedVar(p);
    var p := PopVariable(p);
    if v.ty != ty || (ty == ArrayType && v.dims == []) then Fatal(p) else GiveToParent(p, v)
  }

  /** The enumeration goes to the group on top, if that is where the parser is. */
  function FinishEnum(p: Parser): Parser {
    if Ddx.TopVar(p.bt).ty != Group then Fatal(p) else PopState(p.(enums := p.enums + [p.enumDef]))
  }

  function EndForeign(p: Parser): Parser {
    var p := if p.otherXmlDepth == 0 then Fatal(p).(otherXmlDepth := 0xFFFF_FFFF)
             else p.(otherXmlDepth := p.otherXmlDepth - 1);
    p.(otherXml := p.otherXml + "</>")
  }

  datatype Closing =
    | Unexpected | Leaves | ClosesContainer | ClosesValue | ClosesOtherXml | ClosesForeign | ClosesEnum
    | ClosesSimple | ClosesVariable(ty: Type) | Passed

  /** The branches of ddx_end_element. */
  function ClosingOf(state: State, tag: Tag, foreign: bool): Closing {
    match state
    case ParserStart => Unexpected
    case InsideGroup => if tag == TypeTag(Group) then Leaves else Unexpected
    case InsideAttributeContainer => if tag == AttributeTag then ClosesContainer else Unexpected
    case InsideAttribute => if tag == AttributeTag then Leaves else Unexpected
    case InsideAttributeValue => if tag == ValueTag then ClosesValue else Unexpected
    case InsideOtherXml => if tag == AttributeTag && !foreign then ClosesOtherXml else ClosesForeign
    case InsideEnumDef => if tag == EnumerationTag then ClosesEnum else Unexpected
    case InsideEnumConst => if tag == EnumConstTag then Leaves else Unexpected
    case InsideSimpleType => if IsSimple(GetType(tag)) then ClosesSimple else Unexpected
    case InsideArray => if tag == TypeTag(ArrayType) then ClosesVariable(ArrayType) else Unexpected
    case InsideDimension => if tag == DimensionTag then Leaves else Unexpected
    case InsideConstructor => if tag == TypeTag(Structure) then ClosesVariable(Structure) else Unexpected
    case InsideSequence => if tag == TypeTag(Sequence) then ClosesVariable(Sequence) else Unexpected
    case InsideGrid => if tag == TypeTag(Grid) then ClosesVariable(Grid) else Unexpected
    case InsideMap => if tag == MapTag then ClosesVariable(ArrayType) else Unexpected
    case ParserUnknown => Leaves
    case ParserError => Passed
  }

  function PerformClosing(p: Parser, c: Closing): Parser {
    match c
    case Unexpected => Fatal(p)
    case Leaves => PopState(p)
    case ClosesContainer => CloseContainer(p)
    case ClosesValue => RecordAttr(PopState(p), p.charData).(charData := "")
    case ClosesOtherXml => RecordAttr(PopState(p), p.otherXml).(otherXml := "")
    case ClosesForeign => EndForeign(p)
    case ClosesEnum => FinishEnum(p)
    case ClosesSimple => GiveToParent(PopVariable(p), FinishedVar(p))
    case ClosesVariable(ty) => FinishVariable(p, ty)
    case Passed => p
  }

  // ---------------------------------------------------------------------------------------------
  // Runs
  // ---------------------------------------------------------------------------------------------

  function Characters(p: Parser, text: string): Parser {
    match Top(p.s)
    case InsideAttributeValue => p.(charData := p.charData + text)
    case InsideOtherXml => p.(otherXml := p.otherXml + text)
    case _ => p
  }

  function Step(p: Parser, e: Ddx.Event): Parser {
    if p.thrown then p else
    match e
    case Start(tag, attrs) => PerformOpening(p, OpeningOf(Top(p.s), tag), attrs)
    case End(tag, foreign) => PerformClosing(p, ClosingOf(Top(p.s), tag, foreign))
    case Chars(text) => Characters(p, text)
    case IgnorableWhitespace(text) => if Top(p.s).InsideOtherXml? then p.(otherXml := p.otherXml + text) else p
    case Cdata(text) =>
      if Top(p.s).InsideOtherXml? then p.(otherXml := p.otherXml + text)
      else if Top(p.s).ParserUnknown? then p else Fatal(p)
    case Complaint => Fatal(p)
  }

  function Run(p: Parser, es: seq<Ddx.Event>): Parser
    decreases |es|
  {
    if es == [] then p else Run(Step(p, es[0]), es[1..])
  }

  function Initial(): Parser {
    Parser([ParserStart], [], [], "", 0, "", "", "", EnumDef("", UInt64, []), [], false)
  }

  predicate Accepts(p: Parser) {
    !p.thrown && Top(p.s).ParserStart?
  }

  // ---------------------------------------------------------------------------------------------
  // Errors stay
  // ---------------------------------------------------------------------------------------------

  lemma {:induction false} RunApart(p: Parser, a: seq<Ddx.Event>, b: seq<Ddx.Event>)
    ensures Run(p, a + b) == Run(Run(p, a), b)
    decreases |a|
  {
    if a == [] {
      assert a + b == b;
    } else {
      assert (a + b)[1..] == a[1..] + b;
      RunApart(Step(p, a[0]), a[1..], b);
    }
  }

  lemma RequirePushes(p: Parser, attrs: map<Key, string>, key: Key)
    ensures Require(p, attrs, key) == p || Require(p, attrs, key) == p.(s := p.s + [ParserError])
  {}

  lemma EnumPushes(p: Parser, attrs: map<Key, string>)
    ensures p.s <= ProcessEnumDef(p, attrs).s && p.s <= ProcessEnumConst(p, attrs).s
  {
    RequirePushes(p, attrs, NameKey);
    RequirePushes(Require(p, attrs, NameKey), attrs, BaseTypeKey);
    RequirePushes(Require(p, attrs, NameKey), attrs, ValueKey);
  }

  lemma AttributePushes(p: Parser, attrs: map<Key, string>)
    ensures p.s <= ProcessAttribute(p, attrs).s
  {
    RequirePushes(p, attrs, NameKey);
    RequirePushes(Require(p, attrs, NameKey), attrs, TypeKey);
  }

  lemma OpeningPushes(p: Parser, o: Opening, attrs: map<Key, string>)
    ensures p.s <= PerformOpening(p, o, attrs).s
  {
    match o
    case OpensAttribute => AttributePushes(p, attrs);
    case OpensEnumDef => EnumPushes(p, attrs);
    case OpensEnumConst => EnumPushes(p, attrs);
    case OpensVariable(ty, st) => RequirePushes(Push(p, st), attrs, NameKey);
    case OpensDimension => RequirePushes(p, attrs, SizeKey);
    case OpensRoot => RequirePushes(Push(p, InsideGroup), attrs, NameKey);
    case _ =>
  }

  lemma GivingPushes(p: Parser, v: Var)
    ensures p.s <= GiveToParent(p, v).s
  {}

  lemma RecordPushes(p: Parser, value: string)
    ensures RecordAttr(p, value).s == p.s
  {}

  lemma ClosingShape(p: Parser, c: Closing)
    ensures p.s <= PerformClosing(p, c).s || Ddx.Below(p.s) <= PerformClosing(p, c).s
  {
    match c
    case ClosesValue => RecordPushes(PopState(p), p.charData);
    case ClosesOtherXml => RecordPushes(PopState(p), p.otherXml);
    case ClosesSimple => GivingPushes(PopVariable(p), FinishedVar(p));
    case ClosesVariable(ty) => GivingPushes(PopVariable(p), FinishedVar(p));
    case _ =>
  }

  lemma ErrorClosesNothing(p: Parser, tag: Tag, foreign: bool)
    requires Top(p.s).ParserError?
    ensures p.s <= PerformClosing(p, ClosingOf(Top(p.s), tag, foreign)).s
  {
    var c := ClosingOf(ParserError, tag, foreign);
    assert c == Passed || c == Unexpected;
  }

  /** A step only pushes states, or first pops one that is not the error state. */
  lemma StepShape(p: Parser, e: Ddx.Event)
    ensures p.s <= Step(p, e).s || (!Top(p.s).ParserError? && Ddx.Below(p.s) <= Step(p, e).s)
  {
    match e
    case Start(tag, attrs) => OpeningPushes(p, OpeningOf(Top(p.s), tag), attrs);
    case End(tag, foreign) =>
      if Top(p.s).ParserError? { ErrorClosesNothing(p, tag, foreign); }
      else { ClosingShape(p, ClosingOf(Top(p.s), tag, foreign)); }
    case _ =>
  }

  lemma KeptPrefix(s: seq<State>, s': seq<State>, k: nat)
    requires k < |s| && s[k] == ParserError
    requires s <= s' || (Top(s) != ParserError && Ddx.Below(s) <= s')
    ensures s[..k + 1] <= s'
  {
    if s <= s' {
      assert s[..k + 1] <= s;
    } else {
      assert k != |s| - 1;
      assert s[..k + 1] <= Ddx.Below(s);
    }
  }

  lemma {:induction false} ErrorStaysForever(p: Parser, es: seq<Ddx.Event>, k: nat)
    requires k < |p.s| && p.s[k] == ParserError
    ensures p.s[..k + 1] <= Run(p, es).s
    decreases |es|
  {
    if es == [] {
      assert p.s[..k + 1] <= p.s;
    } else {
      StepShape(p, es[0]);
      var q := Step(p, es[0]);
      KeptPrefix(p.s, q.s, k);
      assert q.s[..k + 1] == p.s[..k + 1];
      ErrorStaysForever(q, es[1..], k);
    }
  }

  /** Once an error has been recorded, even one that further states have been pushed upon, the document is not
      accepted: the errors and what is below them stay where they are. */
  lemma ErrorIsNeverLost(p: Parser, es: seq<Ddx.Event>)
    requires ParserError in p.s
    ensures ParserError in Run(p, es).s
  {
    var k :| 0 <= k < |p.s| && p.s[k] == ParserError;
    ErrorStaysForever(p, es, k);
    assert Run(p, es).s[k] == p.s[..k + 1][k];
  }

  // ---------------------------------------------------------------------------------------------
  // What the stacks hold
  // ---------------------------------------------------------------------------------------------

  predicate IsVariableState(st: State) {
    st.InsideSimpleType? || st.InsideArray? || st.InsideGrid? || st.InsideMap? || st.InsideConstructor? ||
    st.InsideSequence?
  }

  function VariableCount(s: seq<State>): nat {
    if s == [] then 0 else VariableCount(Ddx.Below(s)) + (if IsVariableState(Top(s)) then 1 else 0)
  }

  function Containers(s: seq<State>): nat {
    if s == [] then 0 else Containers(Ddx.Below(s)) + (if Top(s).InsideAttributeContainer? then 1 else 0)
  }

  lemma {:induction false} CountsOfPush(s: seq<State>, st: State)
    ensures VariableCount(s + [st]) == VariableCount(s) + if IsVariableState(st) then 1 else 0
    ensures Containers(s + [st]) == Containers(s) + if st.InsideAttributeContainer? then 1 else 0
  {
    assert Ddx.Below(s + [st]) == s;
  }

  /** The start state is at the bottom, and the root group or nothing but errors above it. */
  predicate Grounded(s: seq<State>) {
    |s| > 0 && s[0] == ParserStart && (forall i :: 0 < i < |s| ==> s[i] != ParserStart && s[i] != ParserUnknown) &&
    (|s| > 1 && s[1] != InsideGroup ==> forall i :: 0 < i < |s| ==> s[i] == ParserError) &&
    (forall i :: 1 < i < |s| ==> s[i] != InsideGroup)
  }

  predicate HasGroup(s: seq<State>) {
    |s| > 1 && s[1] == InsideGroup
  }

  /** There is a group below the variables; the tables exceed the variables by one for every open container. */
  predicate InStep(s: seq<State>, vars: nat, tables: nat) {
    Grounded(s) && tables == vars + Containers(s) && vars >= VariableCount(s) + (if HasGroup(s) then 1 else 0)
  }

  predicate Valid(p: Parser) {
    InStep(p.s, |p.bt|, |p.at|)
  }

  lemma GroundedPush(s: seq<State>, st: State)
    requires s != []
    ensures Grounded(s + [st]) <==>
              Grounded(s) && !st.ParserStart? && !st.ParserUnknown? && (st.InsideGroup? ==> |s| == 1) &&
              (!HasGroup(s) && !st.InsideGroup? ==> st.ParserError?)
    ensures HasGroup(s + [st]) <==> HasGroup(s) || (|s| == 1 && st.InsideGroup?)
  {
    var t := s + [st];
    assert forall i :: 0 <= i < |s| ==> t[i] == s[i];
    assert t[|s|] == st;
  }

  /** A state on top of the others, with as many variables and tables more as go with it. */
  lemma OnTop(s: seq<State>, st: State, vars: nat, tables: nat)
    requires s != [] && (IsVariableState(st) || st.InsideAttributeContainer? ==> HasGroup(s))
    requires !st.ParserStart? && !st.ParserUnknown? && !st.InsideGroup? && (HasGroup(s) || st.ParserError?)
    ensures var v, c := if IsVariableState(st) then 1 else 0, if st.InsideAttributeContainer? then 1 else 0;
            InStep(s + [st], vars + v, tables + v + c) <==> InStep(s, vars, tables)
  {
    CountsOfPush(s, st);
    GroundedPush(s, st);
  }

  lemma FatalKeepsValid(p: Parser)
    requires Valid(p)
    ensures Valid(Fatal(p))
  {
    OnTop(p.s, ParserError, |p.bt|, |p.at|);
  }

  lemma RequireKeepsValid(p: Parser, attrs: map<Key, string>, key: Key)
    requires Valid(p)
    ensures Valid(Require(p, attrs, key))
    ensures HasGroup(p.s) ==> HasGroup(Require(p, attrs, key).s)
  {
    FatalKeepsValid(p);
  }

  lemma PushKeepsValid(p: Parser, st: State)
    requires Valid(p) && HasGroup(p.s) && !IsVariableState(st) && !st.InsideAttributeContainer?
    requires !st.ParserStart? && !st.ParserUnknown? && !st.InsideGroup?
    ensures Valid(Push(p, st)) && HasGroup(Push(p, st).s)
  {
    OnTop(p.s, st, |p.bt|, |p.at|);
  }

  lemma ContainerKeepsValid(p: Parser, t: OpenTable)
    requires Valid(p) && HasGroup(p.s)
    ensures Valid(Push(p, InsideAttributeContainer).(at := p.at + [t]))
  {
    OnTop(p.s, InsideAttributeContainer, |p.bt|, |p.at|);
  }

  lemma PushAttributeKeepsValid(p: Parser, st: State, name: string, ty: string)
    requires Valid(p) && HasGroup(p.s) && (st.InsideOtherXml? || st.InsideAttribute?)
    ensures Valid(Push(p, st).(attrName := name, attrType := ty))
  {
    PushKeepsValid(p, st);
  }

  lemma AttributeKeepsValid(p: Parser, attrs: map<Key, string>)
    requires Valid(p) && HasGroup(p.s)
    ensures ProcessAttribute(p, attrs).thrown || Valid(ProcessAttribute(p, attrs))
  {
    var p1 := Require(p, attrs, NameKey);
    RequireKeepsValid(p, attrs, NameKey);
    RequireKeepsValid(p1, attrs, TypeKey);
    var p2 := Require(p1, attrs, TypeKey);
    var name, ty := Ddx.Lookup(attrs, NameKey), Ddx.Lookup(attrs, TypeKey);
    if ty == "Container" {
      ContainerKeepsValid(p2, OpenTable(DecodeSpaces(name), []));
    } else {
      PushAttributeKeepsValid(p2, if ty == "OtherXML" then InsideOtherXml else InsideAttribute, name, ty);
    }
  }

  lemma EnumDefKeepsValid(p: Parser, attrs: map<Key, string>)
    requires Valid(p) && HasGroup(p.s)
    ensures Valid(ProcessEnumDef(p, attrs))
  {
    RequireKeepsValid(p, attrs, NameKey);
    var p1 := Require(p, attrs, NameKey);
    RequireKeepsValid(p1, attrs, BaseTypeKey);
    var p2 := Require(p1, attrs, BaseTypeKey);
    FatalKeepsValid(p2);
    EnumStateKeepsValid(p2, InsideEnumDef);
    EnumStateKeepsValid(Fatal(p2), InsideEnumDef);
  }

  lemma EnumConstKeepsValid(p: Parser, attrs: map<Key, string>)
    requires Valid(p) && HasGroup(p.s)
    ensures Valid(ProcessEnumConst(p, attrs))
  {
    RequireKeepsValid(p, attrs, NameKey);
    var p1 := Require(p, attrs, NameKey);
    RequireKeepsValid(p1, attrs, ValueKey);
    var p2 := Require(p1, attrs, ValueKey);
    FatalKeepsValid(p2);
    EnumStateKeepsValid(p2, InsideEnumConst);
    EnumStateKeepsValid(Fatal(p2), InsideEnumConst);
  }

  lemma EnumStateKeepsValid(p: Parser, st: State)
    requires Valid(p) && (st.InsideEnumDef? || st.InsideEnumConst?) && HasGroup(p.s)
    ensures InStep(p.s + [st], |p.bt|, |p.at|)
  {
    OnTop(p.s, st, |p.bt|, |p.at|);
  }

  lemma VariableKeepsValid(p: Parser, ty: Type, st: State, attrs: map<Key, string>)
    requires Valid(p) && HasGroup(p.s) && IsVariableState(st)
    ensures Valid(ProcessVariable(p, ty, st, attrs))
  {
    var q := Push(p, st).(bt := p.bt + [NewVar(ty, Ddx.Lookup(attrs, NameKey))], at := p.at + [OpenTable("", [])]);
    OnTop(p.s, st, |p.bt|, |p.at|);
    FatalKeepsValid(q);
    FatalKeepsValid(Fatal(q));
  }

  lemma RootKeepsValid(p: Parser, attrs: map<Key, string>)
    requires Valid(p) && |p.s| == 1
    ensures Valid(StartRoot(p, attrs))
  {
    CountsOfPush(p.s, InsideGroup);
    GroundedPush(p.s, InsideGroup);
    NothingInStart(p);
    var q := Push(p, InsideGroup).(bt := p.bt + [NewVar(Group, "root")], at := p.at + [OpenTable("", [])]);
    FatalKeepsValid(q);
  }

  lemma NothingInStart(p: Parser)
    requires Valid(p) && |p.s| == 1
    ensures VariableCount(p.s) == 0 && Containers(p.s) == 0 && p.s == [ParserStart]
  {
    assert Ddx.Below([ParserStart]) == [] && p.s == [ParserStart];
  }

  lemma DimensionKeepsValid(p: Parser, attrs: map<Key, string>)
    requires Valid(p) && HasGroup(p.s)
    ensures Valid(ProcessDimension(p, attrs))
  {
    RequireKeepsValid(p, attrs, SizeKey);
    var p1 := Require(p, attrs, SizeKey);
    PushKeepsValid(p1, InsideDimension);
    FatalKeepsValid(Push(p1, InsideDimension));
  }

  lemma TopOfGrounded(s: seq<State>)
    requires Grounded(s)
    ensures s == Ddx.Below(s) + [Top(s)] && !Top(s).ParserUnknown? && (Top(s).ParserStart? <==> |s| == 1)
    ensures !Top(s).ParserStart? && !Top(s).ParserError? ==> HasGroup(s)
  {}

  /** What a valid state has on top: whatever is about to be popped has something to pop, and a parent below. */
  lemma TopMatches(p: Parser)
    requires Valid(p)
    ensures p.s == Ddx.Below(p.s) + [Top(p.s)] && !Top(p.s).ParserUnknown?
    ensures Top(p.s).ParserStart? <==> |p.s| == 1
    ensures !Top(p.s).ParserStart? && !Top(p.s).ParserError? ==> HasGroup(p.s)
    ensures IsVariableState(Top(p.s)) ==> |p.bt| >= 2 && |p.at| >= 2
    ensures Top(p.s).InsideAttributeContainer? ==> |p.at| >= 2
  {
    TopOfGrounded(p.s);
    assert IsVariableState(Top(p.s)) ==> VariableCount(p.s) >= 1;
    assert Top(p.s).InsideAttributeContainer? ==> Containers(p.s) >= 1;
  }

  lemma VariableHasParent(p: Parser)
    requires Valid(p) && IsVariableState(Top(p.s))
    ensures |p.bt| >= 2 && |p.at| >= 2
  {
    TopMatches(p);
  }

  lemma OpenedWithin(top: State, tag: Tag)
    ensures var o := OpeningOf(top, tag);
            (o.OpensVariable? ==> IsVariableState(o.state)) && (o.OpensRoot? ==> top.ParserStart?) &&
            (o.OpensUnknown? ==> top.ParserUnknown?) &&
            (!o.Refused? && !o.Ignored? && !o.OpensRoot? ==> !top.ParserStart? && !top.ParserError?)
  {}

  lemma StartKeepsValid(p: Parser, tag: Tag, attrs: map<Key, string>)
    requires Valid(p)
    ensures var q := PerformOpening(p, OpeningOf(Top(p.s), tag), attrs); q.thrown || Valid(q)
  {
    TopMatches(p);
    OpenedWithin(Top(p.s), tag);
    match OpeningOf(Top(p.s), tag)
    case Refused => FatalKeepsValid(p);
    case OpensRoot => RootKeepsValid(p, attrs);
    case OpensAttribute => AttributeKeepsValid(p, attrs);
    case OpensValue => PushKeepsValid(p, InsideAttributeValue);
    case OpensVariable(ty, st) => VariableKeepsValid(p, ty, st, attrs);
    case OpensDimension => DimensionKeepsValid(p, attrs);
    case OpensEnumDef => EnumDefKeepsValid(p, attrs);
    case OpensEnumConst => EnumConstKeepsValid(p, attrs);
    case _ =>
  }

  lemma PopKeepsValid(p: Parser)
    requires Valid(p) && |p.s| > 1 && !IsVariableState(Top(p.s)) && !Top(p.s).InsideAttributeContainer?
    ensures Valid(PopState(p))
  {
    TopMatches(p);
    CountsOfPush(Ddx.Below(p.s), Top(p.s));
    GroundedPush(Ddx.Below(p.s), Top(p.s));
  }

  lemma CloseKeepsValid(p: Parser)
    requires Valid(p) && Top(p.s).InsideAttributeContainer?
    ensures Valid(CloseContainer(p))
  {
    TopMatches(p);
    CountsOfPush(Ddx.Below(p.s), Top(p.s));
    GroundedPush(Ddx.Below(p.s), Top(p.s));
  }

  lemma PopVariableKeepsValid(p: Parser)
    requires Valid(p) && IsVariableState(Top(p.s))
    ensures Valid(PopVariable(p))
  {
    TopMatches(p);
    CountsOfPush(Ddx.Below(p.s), Top(p.s));
    GroundedPush(Ddx.Below(p.s), Top(p.s));
  }

  lemma GivingKeepsValid(p: Parser, v: Var)
    requires Valid(p) && p.bt != []
    ensures GiveToParent(p, v).thrown || Valid(GiveToParent(p, v))
  {
    FatalKeepsValid(p);
  }

  lemma RecordKeepsValid(p: Parser, value: string)
    requires Valid(p) && p.at != []
    ensures RecordAttr(p, value).thrown || Valid(RecordAttr(p, value))
  {}

  lemma ClosedOnTop(top: State, tag: Tag, foreign: bool)
    ensures var c := ClosingOf(top, tag, foreign);
            (c.ClosesSimple? || c.ClosesVariable? ==> IsVariableState(top)) &&
            (c.ClosesContainer? ==> top.InsideAttributeContainer?)
  {}

  lemma LeftOnTop(top: State, tag: Tag, foreign: bool)
    ensures var c := ClosingOf(top, tag, foreign);
            c.Leaves? || c.ClosesValue? || c.ClosesOtherXml? || c.ClosesEnum? ==>
              !IsVariableState(top) && !top.InsideAttributeContainer? && !top.ParserStart? && !top.ParserError?
  {}

  lemma FinishKeepsValid(p: Parser, ty: Type)
    requires Valid(p) && IsVariableState(Top(p.s))
    ensures FinishVariable(p, ty).thrown || Valid(FinishVariable(p, ty))
    ensures var q := GiveToParent(PopVariable(p), FinishedVar(p)); q.thrown || Valid(q)
  {
    TopMatches(p);
    PopVariableKeepsValid(p);
    FatalKeepsValid(PopVariable(p));
    GivingKeepsValid(PopVariable(p), FinishedVar(p));
  }

  lemma EndKeepsValid(p: Parser, tag: Tag, foreign: bool)
    requires Valid(p)
    ensures var q := PerformClosing(p, ClosingOf(Top(p.s), tag, foreign)); q.thrown || Valid(q)
  {
    TopMatches(p);
    ClosedOnTop(Top(p.s), tag, foreign);
    LeftOnTop(Top(p.s), tag, foreign);
    FatalKeepsValid(p);
    match ClosingOf(Top(p.s), tag, foreign)
    case Leaves => PopKeepsValid(p);
    case ClosesContainer => CloseKeepsValid(p);
    case ClosesValue => PopKeepsValid(p); RecordKeepsValid(PopState(p), p.charData);
    case ClosesOtherXml => PopKeepsValid(p); RecordKeepsValid(PopState(p), p.otherXml);
    case ClosesEnum => PopKeepsValid(p);
    case ClosesSimple => FinishKeepsValid(p, NullType);
    case ClosesVariable(ty) => FinishKeepsValid(p, ty);
    case _ =>
  }

  lemma StepKeepsValid(p: Parser, e: Ddx.Event)
    requires Valid(p)
    ensures Step(p, e).thrown || Valid(Step(p, e))
  {
    match e
    case Start(tag, attrs) => StartKeepsValid(p, tag, attrs);
    case End(tag, foreign) => EndKeepsValid(p, tag, foreign);
    case Cdata(_) => FatalKeepsValid(p);
    case Complaint => FatalKeepsValid(p);
    case _ =>
  }

  // ---------------------------------------------------------------------------------------------
  // Enumeration constants
  // ---------------------------------------------------------------------------------------------

  /** The constants of an enumeration are within its base type, and that is an integer type. */
  predicate EnumOk(d: EnumDef) {
    IsInteger(d.ty) && forall i :: 0 <= i < |d.values| ==> IsValidEnumValue(d.ty, d.values[i].value)
  }

  predicate EnumsOk(p: Parser) {
    EnumOk(p.enumDef) && forall i :: 0 <= i < |p.enums| ==> EnumOk(p.enums[i])
  }

  lemma ConstKeepsEnums(p: Parser, attrs: map<Key, string>)
    requires EnumsOk(p)
    ensures EnumsOk(ProcessEnumConst(p, attrs))
  {}

  lemma DefKeepsEnums(p: Parser, attrs: map<Key, string>)
    requires EnumsOk(p)
    ensures EnumsOk(ProcessEnumDef(p, attrs))
  {}

  lemma OpeningKeepsEnums(p: Parser, o: Opening, attrs: map<Key, string>)
    requires EnumsOk(p)
    ensures EnumsOk(PerformOpening(p, o, attrs))
  {
    if o.OpensEnumConst? { ConstKeepsEnums(p, attrs); }
    if o.OpensEnumDef? { DefKeepsEnums(p, attrs); }
  }

  lemma ClosingKeepsEnums(p: Parser, c: Closing)
    requires EnumsOk(p)
    ensures EnumsOk(PerformClosing(p, c))
  {
    if c.ClosesEnum? { assert EnumsOk(FinishEnum(p)); }
  }

  lemma StepKeepsEnums(p: Parser, e: Ddx.Event)
    requires EnumsOk(p)
    ensures EnumsOk(Step(p, e))
  {
    match e
    case Start(tag, attrs) => OpeningKeepsEnums(p, OpeningOf(Top(p.s), tag), attrs);
    case End(tag, foreign) => ClosingKeepsEnums(p, ClosingOf(Top(p.s), tag, foreign));
    case _ =>
  }

  lemma {:induction false} ThrownStays(p: Parser, es: seq<Ddx.Event>)
    requires p.thrown
    ensures Run(p, es) == p
    decreases |es|
  {
    if es != [] { ThrownStays(p, es[1..]); }
  }

  lemma {:induction false} RunIsSound(p: Parser, es: seq<Ddx.Event>)
    requires (p.thrown || Valid(p)) && EnumsOk(p)
    ensures (Run(p, es).thrown || Valid(Run(p, es))) && EnumsOk(Run(p, es))
    decreases |es|
  {
    if es != [] {
      if !p.thrown { StepKeepsValid(p, es[0]); }
      StepKeepsEnums(p, es[0]);
      RunIsSound(Step(p, es[0]), es[1..]);
    }
  }

  /** After an accepted document: no error has ever been recorded, the states are back at the bottom, and every
      enumeration has an integer base type and only constants of that type. */
  lemma AcceptedIsSound(es: seq<Ddx.Event>, k: nat)
    requires Accepts(Run(Initial(), es)) && k <= |es|
    ensures var p := Run(Initial(), es);
            p.s == [ParserStart] && |p.at| == |p.bt| && EnumsOk(p) && ParserError !in Run(Initial(), es[..k]).s
  {
    assert Ddx.Below([ParserStart]) == [];
    RunIsSound(Initial(), es);
    var p := Run(Initial(), es);
    TopMatches(p);
    NothingInStart(p);
    assert es == es[..k] + es[k..];
    RunApart(Initial(), es[..k], es[k..]);
    var q := Run(Initial(), es[..k]);
    if ParserError in q.s { ErrorIsNeverLost(q, es[k..]); }
  }

  lemma {:induction false} LeadingDigitsAre(digits: string, rest: string)
    requires (forall c :: c in digits ==> IsDigit(c)) && (rest != "" ==> !IsDigit(rest[0]))
    ensures LeadingDigits(digits + rest) == |digits|
  {
    if digits == "" {
      assert digits + rest == rest;
    } else {
      assert IsDigit(digits[0]) && (digits + rest)[1..] == digits[1..] + rest;
      LeadingDigitsAre(digits[1..], rest);
    }
  }

  lemma {:induction false} LeadingZeros(zeros: string, digits: string, i: nat)
    requires i <= |zeros| && forall c :: c in zeros ==> c == '0'
    ensures Digits(zeros + digits, i, 0) == Digits(digits, 0, 0)
    decreases |zeros| - i
  {
    if i < |zeros| {
      assert (zeros + digits)[i] == zeros[i] && zeros[i] in zeros;
      LeadingZeros(zeros, digits, i + 1);
    } else {
      DigitsBehind(zeros, digits, 0, 0);
    }
  }

  /** The signs a number may start with: none, plus or minus. */
  predicate IsSign(sign: string) {
    sign in {"", "+", "-"}
  }

  function Signed(sign: string, magnitude: nat): int {
    if sign == "-" then 0 - magnitude else magnitude
  }

  /** What the decimal number of a given sign and magnitude may look like, with white space in front, leading
      zeros and something behind it that does not continue it. */
  ghost predicate Writes(text: string, sign: string, magnitude: nat) {
    exists white: string, zeros: string, suffix: string ::
      text == white + (sign + ((zeros + Decimal(magnitude)) + suffix)) && IsSign(sign) &&
      (forall c :: c in white ==> IsSpace(c)) && (forall c :: c in zeros ==> c == '0') &&
      (suffix != "" ==> !IsDigit(suffix[0]))
  }

  lemma NumberIsReadFrom(white: string, sign: string, digits: string, suffix: string)
    requires digits != "" && (forall c :: c in digits ==> IsDigit(c)) && (suffix != "" ==> !IsDigit(suffix[0]))
    requires IsSign(sign) && forall c :: c in white ==> IsSpace(c)
    ensures var v := Signed(sign, Digits(digits, 0, 0));
      ReadLongLong(white + (sign + (digits + suffix))) == if -LLONG_LIMIT <= v < LLONG_LIMIT then Some(v) else None
  {
    var u := digits + suffix;
    assert u[0] == digits[0] && digits[0] in digits && IsDigit(u[0]);
    assert (sign + u)[0] == if sign == "" then u[0] else sign[0];
    SpacesAreSkipped(white, sign + u);
    NumberIsReadAtOnce(sign, digits, suffix);
  }

  lemma NumberIsReadAtOnce(sign: string, digits: string, suffix: string)
    requires digits != "" && (forall c :: c in digits ==> IsDigit(c)) && (suffix != "" ==> !IsDigit(suffix[0]))
    requires IsSign(sign)
    ensures var v := Signed(sign, Digits(digits, 0, 0));
      ReadNumber(sign + (digits + suffix)) == if -LLONG_LIMIT <= v < LLONG_LIMIT then Some(v) else None
  {
    var u := digits + suffix;
    var t := sign + u;
    assert u[0] == digits[0] && digits[0] in digits && IsDigit(u[0]);
    assert t[0] == if sign == "" then u[0] else sign[0];
    assert sign == "" ==> t == u;
    assert sign != "" ==> t[1..] == u;
    LeadingDigitsAre(digits, suffix);
    assert u[..|digits|] == digits;
  }

  /** The stream reads the number written, if a long long holds it. */
  lemma NumberIsRead(text: string, sign: string, magnitude: nat)
    requires Writes(text, sign, magnitude)
    ensures var v := Signed(sign, magnitude);
      ReadLongLong(text) == if -LLONG_LIMIT <= v < LLONG_LIMIT then Some(v) else None
  {
    var white: string, zeros: string, suffix: string :|
      text == white + (sign + ((zeros + Decimal(magnitude)) + suffix)) && IsSign(sign) &&
      (forall c :: c in white ==> IsSpace(c)) && (forall c :: c in zeros ==> c == '0') &&
      (suffix != "" ==> !IsDigit(suffix[0]));
    DigitsOfDecimal(magnitude);
    var digits := zeros + Decimal(magnitude);
    assert forall c :: c in digits ==> IsDigit(c);
    NumberIsReadFrom(white, sign, digits, suffix);
    LeadingZeros(zeros, Decimal(magnitude), 0);
  }

  /** Text in which no digit follows the white space and the sign is no number. */
  lemma NoNumberIsRead(white: string, sign: string, rest: string)
    requires IsSign(sign) && forall c :: c in white ==> IsSpace(c)
    requires rest != "" ==> !IsDigit(rest[0]) && (sign == "" ==> !IsSpace(rest[0]) && !IsSign([rest[0]]))
    ensures ReadLongLong(white + (sign + rest)).None?
  {
    SpacesAreSkipped(white, sign + rest);
    assert sign == "" ==> sign + rest == rest;
    assert sign != "" ==> (sign + rest)[1..] == rest;
  }

  /** A constant is recorded, and no error with it, exactly when the number its text writes fits the base type
      and a long long. */
  lemma ConstRecordedIff(p: Parser, attrs: map<Key, string>, sign: string, magnitude: nat)
    requires NameKey in attrs && ValueKey in attrs && Writes(attrs[ValueKey], sign, magnitude)
    ensures var v, q := Signed(sign, magnitude), ProcessEnumConst(p, attrs);
      if IsValidEnumValue(p.enumDef.ty, v) && v < LLONG_LIMIT
      then q == p.(s := p.s + [InsideEnumConst],
                   enumDef := p.enumDef.(values := p.enumDef.values + [Const(attrs[NameKey], v)]))
      else q == p.(s := p.s + [ParserError, InsideEnumConst])
  {
    NumberIsRead(attrs[ValueKey], sign, magnitude);
    assert p.s + [ParserError] + [InsideEnumConst] == p.s + [ParserError, InsideEnumConst];
  }

  /** The values a UInt64 enumeration may take but the parser refuses are those from 2^63 on; no other base
      type loses any. */
  lemma RefusedThoughValidIff(p: Parser, attrs: map<Key, string>, sign: string, magnitude: nat)
    requires NameKey in attrs && ValueKey in attrs && Writes(attrs[ValueKey], sign, magnitude)
    requires IsValidEnumValue(p.enumDef.ty, Signed(sign, magnitude))
    ensures ParserError in ProcessEnumConst(p, attrs).s[|p.s|..]
       <==> p.enumDef.ty == UInt64 && sign != "-" && magnitude >= LLONG_LIMIT
  {
    ConstRecordedIff(p, attrs, sign, magnitude);
    var added := ProcessEnumConst(p, attrs).s[|p.s|..];
    if IsValidEnumValue(p.enumDef.ty, Signed(sign, magnitude)) &&
       (Signed(sign, magnitude)) < LLONG_LIMIT {
      assert added == [InsideEnumConst];
    } else {
      assert added == [ParserError, InsideEnumConst];
    }
  }

  lemma LimitBegins(front: string)
    requires front == "9223372036"
    ensures Digits(front, 0, 0) == 9223372036
  {
    assert Digits("9223372036", 5, 92233) == 9223372036;
  }

  lemma LimitEnds(limit: string)
    requires limit == "9223372036854775808"
    ensures Digits(limit, 10, 9223372036) == LLONG_LIMIT
  {
    assert Digits("9223372036854775808", 15, 922337203685477) == LLONG_LIMIT;
  }

  lemma LimitInDecimal(limit: string)
    requires limit == "9223372036854775808"
    ensures Digits(limit, 0, 0) == LLONG_LIMIT && forall c :: c in limit ==> IsDigit(c)
  {
    LimitEnds(limit);
    var front, back := limit[..10], limit[10..];
    assert front == "9223372036" && front + back == limit;
    LimitBegins(front);
    DigitsSplit(front, back, 0, 0);
  }

  /** The first of them: 2^63 under UInt64. */
  lemma LargeConstIsRefused(p: Parser, attrs: map<Key, string>)
    requires p.enumDef.ty == UInt64 && NameKey in attrs
    requires ValueKey in attrs && attrs[ValueKey] == "9223372036854775808"
    ensures IsValidEnumValue(p.enumDef.ty, 9223372036854775808)
    ensures ProcessEnumConst(p, attrs) == p.(s := p.s + [ParserError, InsideEnumConst])
  {
    var limit := attrs[ValueKey];
    LimitInDecimal(limit);
    NumberIsReadFrom("", "", limit, "");
    assert "" + ("" + (limit + "")) == limit;
    assert p.s + [ParserError] + [InsideEnumConst] == p.s + [ParserError, InsideEnumConst];
  }
}
