/** The DAP4 parser object: its callbacks update the stacks and the enumeration in place, and do to them what
    the machine does. */
module Dap4Parser {
  import opened Wrappers
  import opened Text
  import opened Types
  import opened Attributes
  import opened Variables
  import opened Dap4Machine
  import Ddx = DdxMachine

  class D4ParserSax2 {
    var s: seq<State>
    var btStack: seq<Var>
    var atStack: seq<OpenTable>
    var otherXml: string
    var otherXmlDepth: nat
    var dodsAttrName: string
    var dodsAttrType: string
    var charData: string
    var enumDef: EnumDef
    var enums: seq<EnumDef>
    var thrown: bool

    function View(): Parser
      reads this
    {
      Parser(s, btStack, atStack, otherXml, otherXmlDepth, dodsAttrName, dodsAttrType, charData, enumDef, enums, thrown)
    }

    ghost predicate Valid()
      reads this
    {
      !thrown && Dap4Machine.Valid(View())
    }

    /** ddx_start_document */
    constructor ()
      ensures Valid() && View() == Initial()
    {
      s, btStack, atStack := [ParserStart], [], [];
      otherXml, otherXmlDepth, dodsAttrName, dodsAttrType, charData := "", 0, "", "", "";
      enumDef, enums, thrown := EnumDef("", UInt64, []), [], false;
      new;
      assert Ddx.Below([ParserStart]) == [];
    }

    method SetState(state: State)
      modifies this`s
      ensures View() == Push(old(View()), state)
    {
      s := s + [state];
    }

    method PopState()
      requires s != []
      modifies this`s
      ensures View() == Dap4Machine.PopState(old(View()))
    {
      s := s[..|s| - 1];
    }

    method FatalError()
      modifies this`s
      ensures View() == Fatal(old(View()))
    {
      SetState(ParserError);
    }

    method CheckRequiredAttribute(attrs: map<Key, string>, key: Key) returns (ok: bool)
      modifies this`s
      ensures ok && View() == Require(old(View()), attrs, key)
    {
      if key !in attrs { FatalError(); }
      return true;
    }

    method ProcessAttributeHelper(attrs: map<Key, string>)
      requires !thrown && atStack != []
      modifies this
      ensures View() == Dap4Machine.ProcessAttribute(old(View()), attrs)
    {
      var ok := CheckRequiredAttribute(attrs, NameKey);
      if ok { ok := CheckRequiredAttribute(attrs, TypeKey); }
      if !ok { return; }
      if Ddx.Lookup(attrs, TypeKey) == "Container" {
        SetState(InsideAttributeContainer);
        var name := Ddx.Lookup(attrs, NameKey);
        if AppendContainer(atStack[|atStack| - 1].table, name, []).None? {
          thrown := true;
          return;
        }
        atStack := atStack + [OpenTable(DecodeSpaces(name), [])];
      } else {
        if Ddx.Lookup(attrs, TypeKey) == "OtherXML" { SetState(InsideOtherXml); } else { SetState(InsideAttribute); }
        dodsAttrName, dodsAttrType := Ddx.Lookup(attrs, NameKey), Ddx.Lookup(attrs, TypeKey);
      }
    }

    method ProcessAttribute(tag: Tag, attrs: map<Key, string>) returns (taken: bool)
      requires !thrown && atStack != []
      modifies this
      ensures taken <==> tag == AttributeTag
      ensures View() == if taken then PerformOpening(old(View()), OpensAttribute, attrs) else old(View())
    {
      if tag == AttributeTag {
        ProcessAttributeHelper(attrs);
        return true;
      }
      return false;
    }

    method ProcessEnumDef(attrs: map<Key, string>)
      modifies this
      ensures View() == PerformOpening(old(View()), OpensEnumDef, attrs)
    {
      var ok := CheckRequiredAttribute(attrs, NameKey);
      if ok { ok := CheckRequiredAttribute(attrs, BaseTypeKey); }
      if !ok { return; }
      var t := GetTypeByName(Ddx.Lookup(attrs, BaseTypeKey));
      if !IsInteger(t) {
        FatalError();
        t := UInt64; // so that the parse can continue
      }
      enumDef := EnumDef(Ddx.Lookup(attrs, NameKey), t, []);
      SetState(InsideEnumDef);
    }

    method ProcessEnumConst(attrs: map<Key, string>)
      modifies this
      ensures View() == PerformOpening(old(View()), OpensEnumConst, attrs)
    {
      var ok := CheckRequiredAttribute(attrs, NameKey);
      if ok { ok := CheckRequiredAttribute(attrs, ValueKey); }
      if !ok { return; }
      var value := ReadLongLong(Ddx.Lookup(attrs, ValueKey));
      if value.None? {
        FatalError();
      } else if !IsValidEnumValue(enumDef.ty, value.value) {
        FatalError();
      } else {
        enumDef := enumDef.(values := enumDef.values + [Const(Ddx.Lookup(attrs, NameKey), value.value)]);
      }
      SetState(InsideEnumConst);
    }

    /** The factory makes the variable, or nothing. */
    method PushVariable(ty: Type, name: string)
      modifies this
      ensures View() == Declare(old(View()), ty, name)
    {
      if ty == NullType { FatalError(); }
      btStack := btStack + [NewVar(ty, name)];
      atStack := atStack + [OpenTable("", [])];
    }

    method ProcessVariableHelper(ty: Type, state: State, attrs: map<Key, string>)
      modifies this
      ensures View() == PerformOpening(old(View()), OpensVariable(ty, state), attrs)
    {
      SetState(state);
      var ok := CheckRequiredAttribute(attrs, NameKey);
      if ok { PushVariable(ty, Ddx.Lookup(attrs, NameKey)); }
    }

    method ProcessVariable(tag: Tag, attrs: map<Key, string>) returns (taken: bool)
      modifies this
      ensures taken <==> IsVariableTag(tag)
      ensures View() == if taken then PerformOpening(old(View()), OpensVariableTag(tag), attrs) else old(View())
    {
      var t := GetType(tag);
      if IsSimple(t) {
        ProcessVariableHelper(t, InsideSimpleType, attrs);
        return true;
      } else if tag == TypeTag(Structure) {
        ProcessVariableHelper(Structure, InsideConstructor, attrs);
        return true;
      } else if tag == TypeTag(Sequence) {
        ProcessVariableHelper(Sequence, InsideSequence, attrs);
        return true;
      }
      return false;
    }

    method ProcessDimension(attrs: map<Key, string>)
      requires btStack != []
      modifies this
      ensures View() == PerformOpening(old(View()), OpensDimension, attrs)
    {
      var ok := CheckRequiredAttribute(attrs, SizeKey);
      if ok {
        SetState(InsideDimension);
        var ap := btStack[|btStack| - 1];
        if ap.ty != ArrayType {
          FatalError();
          return;
        }
        var d := NewDimension(Atoi(Ddx.Lookup(attrs, SizeKey)), Www2id(Ddx.Lookup(attrs, NameKey), 0));
        btStack := btStack[..|btStack| - 1] + [ap.(dims := ap.dims + [d])];
      }
    }

    method Refuse(attrs: map<Key, string>)
      modifies this`s
      ensures View() == PerformOpening(old(View()), Refused, attrs)
    {
      FatalError();
    }

    // The branches of ddx_start_element, by the state they are taken in.

    method StartRoot(tag: Tag, attrs: map<Key, string>)
      requires Valid() && Top(s).ParserStart?
      modifies this
      ensures View() == PerformOpening(old(View()), OpeningOf(ParserStart, tag), attrs)
    {
      if tag == TypeTag(Group) {
        SetState(InsideGroup);
        var ok := CheckRequiredAttribute(attrs, NameKey);
        PushVariable(Group, "root");
      } else {
        Refuse(attrs);
      }
    }

    method StartInGroup(tag: Tag, attrs: map<Key, string>)
      requires Valid() && Top(s).InsideGroup?
      modifies this
      ensures View() == PerformOpening(old(View()), OpeningOf(InsideGroup, tag), attrs)
    {
      var taken := ProcessAttribute(tag, attrs);
      if !taken { taken := ProcessVariable(tag, attrs); }
      if !taken {
        if tag == EnumerationTag { ProcessEnumDef(attrs); } else { Refuse(attrs); }
      }
    }

    method StartInTable(tag: Tag, attrs: map<Key, string>)
      requires Valid() && (Top(s).InsideAttributeContainer? || Top(s).InsideSimpleType?)
      modifies this
      ensures View() == PerformOpening(old(View()), OpeningOf(Top(old(s)), tag), attrs)
    {
      var taken := ProcessAttribute(tag, attrs);
      if !taken { Refuse(attrs); }
    }

    method StartInAttribute(tag: Tag, attrs: map<Key, string>)
      requires Valid() && Top(s).InsideAttribute?
      modifies this
      ensures View() == PerformOpening(old(View()), OpeningOf(InsideAttribute, tag), attrs)
    {
      var taken := ProcessAttribute(tag, attrs);
      if !taken {
        if tag == ValueTag { SetState(InsideAttributeValue); } else { Refuse(attrs); }
      }
    }

    method StartInEnumDef(tag: Tag, attrs: map<Key, string>)
      requires Valid() && Top(s).InsideEnumDef?
      modifies this
      ensures View() == PerformOpening(old(View()), OpeningOf(InsideEnumDef, tag), attrs)
    {
      if tag == EnumConstTag { ProcessEnumConst(attrs); } else { Refuse(attrs); }
    }

    method StartInArray(tag: Tag, attrs: map<Key, string>)
      requires Valid() && Top(s).InsideArray?
      modifies this
      ensures View() == PerformOpening(old(View()), OpeningOf(InsideArray, tag), attrs)
    {
      assert OpeningOf(InsideArray, tag) ==
        if tag == AttributeTag then OpensAttribute else if IsVariableTag(tag) then OpensVariableTag(tag)
        else if tag == DimensionTag then OpensDimension else Refused;
      var taken := ProcessAttribute(tag, attrs);
      if !taken && tag != TypeTag(ArrayType) { taken := ProcessVariable(tag, attrs); }
      if !taken {
        if tag == DimensionTag { ProcessDimension(attrs); } else { Refuse(attrs); }
      }
    }

    method StartInConstructor(tag: Tag, attrs: map<Key, string>)
      requires Valid() && Top(s).InsideConstructor?
      modifies this
      ensures View() == PerformOpening(old(View()), OpeningOf(InsideConstructor, tag), attrs)
    {
      assert OpeningOf(InsideConstructor, tag) ==
        if tag == AttributeTag then OpensAttribute else if IsVariableTag(tag) then OpensVariableTag(tag) else Refused;
      var taken := ProcessAttribute(tag, attrs);
      if !taken { taken := ProcessVariable(tag, attrs); }
      if !taken { Refuse(attrs); }
    }

    method StartInSequence(tag: Tag, attrs: map<Key, string>)
      requires Valid() && Top(s).InsideSequence?
      modifies this
      ensures View() == PerformOpening(old(View()), OpeningOf(InsideSequence, tag), attrs)
    {
      assert OpeningOf(InsideSequence, tag) ==
        if tag == AttributeTag then OpensAttribute else if IsVariableTag(tag) then OpensVariableTag(tag) else Refused;
      var taken := ProcessAttribute(tag, attrs);
      if !taken { taken := ProcessVariable(tag, attrs); }
      if !taken { Refuse(attrs); }
    }

    method StartInGrid(tag: Tag, attrs: map<Key, string>)
      requires Valid() && Top(s).InsideGrid?
      modifies this
      ensures View() == PerformOpening(old(View()), OpeningOf(InsideGrid, tag), attrs)
    {
      var taken := ProcessAttribute(tag, attrs);
      if !taken {
        if tag == TypeTag(ArrayType) {
          ProcessVariableHelper(ArrayType, InsideArray, attrs);
        } else if tag == MapTag {
          ProcessVariableHelper(ArrayType, InsideMap, attrs);
        } else {
          Refuse(attrs);
        }
      }
    }

    method StartInMap(tag: Tag, attrs: map<Key, string>)
      requires Valid() && Top(s).InsideMap?
      modifies this
      ensures View() == PerformOpening(old(View()), OpeningOf(InsideMap, tag), attrs)
    {
      assert OpeningOf(InsideMap, tag) ==
        if tag == AttributeTag then OpensAttribute
        else if tag != TypeTag(Sequence) && IsVariableTag(tag) then OpensVariableTag(tag)
        else if tag == DimensionTag then OpensDimension else Refused;
      var taken := ProcessAttribute(tag, attrs);
      if !taken && tag != TypeTag(ArrayType) && tag != TypeTag(Sequence) && tag != TypeTag(Grid) {
        taken := ProcessVariable(tag, attrs);
      }
      if !taken {
        if tag == DimensionTag { ProcessDimension(attrs); } else { Refuse(attrs); }
      }
    }

    /** ddx_start_element */
    method StartElement(tag: Tag, attrs: map<Key, string>)
      requires Valid()
      modifies this
      ensures View() == PerformOpening(old(View()), OpeningOf(Top(old(s)), tag), attrs)
    {
      match s[|s| - 1]
      case ParserStart => StartRoot(tag, attrs);
      case InsideGroup => StartInGroup(tag, attrs);
      case InsideAttributeContainer => StartInTable(tag, attrs);
      case InsideAttribute => StartInAttribute(tag, attrs);
      case InsideAttributeValue =>
      case InsideOtherXml =>
        otherXmlDepth := otherXmlDepth + 1;
        otherXml := otherXml + "<>";
      case InsideEnumDef => StartInEnumDef(tag, attrs);
      case InsideEnumConst =>
      case InsideSimpleType => StartInTable(tag, attrs);
      case InsideArray => StartInArray(tag, attrs);
      case InsideDimension => Refuse(attrs);
      case InsideConstructor => StartInConstructor(tag, attrs);
      case InsideSequence => StartInSequence(tag, attrs);
      case InsideGrid => StartInGrid(tag, attrs);
      case InsideMap => StartInMap(tag, attrs);
      case ParserUnknown => assert false;
      case ParserError =>
    }

    method PopVariable() returns (btp: Var)
      requires s != [] && btStack != [] && atStack != []
      modifies this
      ensures btp == FinishedVar(old(View())) && View() == Dap4Machine.PopVariable(old(View()))
    {
      PopState();
      btp := btStack[|btStack| - 1].(attrs := atStack[|atStack| - 1].table);
      btStack := btStack[..|btStack| - 1];
      atStack := atStack[..|atStack| - 1];
    }

    method AddToParent(btp: Var)
      requires btStack != []
      modifies this
      ensures View() == GiveToParent(old(View()), btp)
    {
      var parent := btStack[|btStack| - 1];
      if parent.ty == ArrayType || IsConstructor(parent.ty) {
        match Ddx.AddVar(parent, btp)
        case Some(grown) => btStack := btStack[..|btStack| - 1] + [grown];
        case None => thrown := true;
      } else {
        FatalError();
      }
    }

    method FinishVariable(tag: Tag, ty: Type, expected: Tag)
      requires s != [] && |btStack| >= 2 && atStack != []
      modifies this
      ensures View() == PerformClosing(old(View()), if tag == expected then ClosesVariable(ty) else Unexpected)
    {
      if tag != expected {
        FatalError();
        return;
      }
      var btp := PopVariable();
      if btp.ty != ty {
        FatalError();
        return;
      }
      if ty == ArrayType && |btp.dims| == 0 {
        FatalError();
        return;
      }
      AddToParent(btp);
    }

    method Record(value: string)
      requires atStack != []
      modifies this
      ensures View() == RecordAttr(old(View()), value)
    {
      var atp := atStack[|atStack| - 1];
      match AppendAttr(atp.table, dodsAttrName, dodsAttrType, value)
      case Some(t) => atStack := atStack[..|atStack| - 1] + [OpenTable(atp.name, t)];
      case None => thrown := true;
    }

    // The branches of ddx_end_element.

    method EndContainer(tag: Tag)
      requires Valid() && Top(s).InsideAttributeContainer?
      modifies this
      ensures View() == PerformClosing(old(View()), ClosingOf(InsideAttributeContainer, tag, false))
    {
      TopMatches(View());
      if tag != AttributeTag {
        FatalError();
        return;
      }
      PopState();
      var child := atStack[|atStack| - 1];
      var parent := atStack[|atStack| - 2];
      atStack := atStack[..|atStack| - 2] +
                 [OpenTable(parent.name, parent.table + [Container(child.name, child.table)])];
    }

    method EndValue(tag: Tag)
      requires Valid() && Top(s).InsideAttributeValue?
      modifies this
      ensures View() == PerformClosing(old(View()), ClosingOf(InsideAttributeValue, tag, false))
    {
      TopMatches(View());
      if tag == ValueTag {
        PopState();
        Record(charData);
        charData := "";
      } else {
        FatalError();
      }
    }

    method EndInOtherXml(tag: Tag, foreign: bool)
      requires Valid() && Top(s).InsideOtherXml?
      modifies this
      ensures View() == PerformClosing(old(View()), ClosingOf(InsideOtherXml, tag, foreign))
    {
      TopMatches(View());
      if tag == AttributeTag && !foreign {
        PopState();
        Record(otherXml);
        otherXml := "";
      } else {
        if otherXmlDepth == 0 { FatalError(); }
        otherXmlDepth := if otherXmlDepth == 0 then 0xFFFF_FFFF else otherXmlDepth - 1;
        otherXml := otherXml + "</>";
      }
    }

    /** The group takes the enumeration over. */
    method TakeEnum()
      requires s != [] && btStack != []
      modifies this
      ensures View() == FinishEnum(old(View()))
    {
      if btStack[|btStack| - 1].ty != Group {
        FatalError();
      } else {
        enums := enums + [enumDef];
        PopState();
      }
    }

    method EndEnumDef(tag: Tag)
      requires Valid() && Top(s).InsideEnumDef?
      modifies this
      ensures View() == PerformClosing(old(View()), ClosingOf(InsideEnumDef, tag, false))
    {
      TopMatches(View());
      if tag == EnumerationTag { TakeEnum(); } else { FatalError(); }
    }

    method EndSimple(tag: Tag)
      requires Valid() && Top(s).InsideSimpleType?
      modifies this
      ensures View() == PerformClosing(old(View()), ClosingOf(InsideSimpleType, tag, false))
    {
      TopMatches(View());
      if IsSimple(GetType(tag)) {
        var btp := PopVariable();
        AddToParent(btp);
      } else {
        FatalError();
      }
    }

    method EndVariable(tag: Tag)
      requires Valid() && IsVariableState(Top(s)) && !Top(s).InsideSimpleType?
      modifies this
      ensures View() == PerformClosing(old(View()), ClosingOf(Top(old(s)), tag, false))
    {
      VariableHasParent(View());
      var ty, expected := Structure, TypeTag(Structure);
      match s[|s| - 1] {
        case InsideArray => ty, expected := ArrayType, TypeTag(ArrayType);
        case InsideConstructor =>
        case InsideSequence => ty, expected := Sequence, TypeTag(Sequence);
        case InsideGrid => ty, expected := Grid, TypeTag(Grid);
        case InsideMap => ty, expected := ArrayType, MapTag;
      }
      FinishVariable(tag, ty, expected);
    }

    method EndPlain(right: bool)
      requires s != []
      modifies this
      ensures View() == PerformClosing(old(View()), if right then Leaves else Unexpected)
    {
      if right { PopState(); } else { FatalError(); }
    }

    /** The states that end with the right tag, and take nothing off the other stacks. */
    method EndHere(tag: Tag)
      requires Valid()
      requires Top(s).InsideGroup? || Top(s).InsideAttribute? || Top(s).InsideEnumConst? || Top(s).InsideDimension?
      modifies this
      ensures View() == PerformClosing(old(View()), ClosingOf(Top(old(s)), tag, false))
    {
      match s[|s| - 1]
      case InsideGroup => EndPlain(tag == TypeTag(Group));
      case InsideAttribute => EndPlain(tag == AttributeTag);
      case InsideEnumConst => EndPlain(tag == EnumConstTag);
      case InsideDimension => EndPlain(tag == DimensionTag);
    }

    /** ddx_end_element */
    method EndElement(tag: Tag, foreign: bool)
      requires Valid()
      modifies this
      ensures View() == PerformClosing(old(View()), ClosingOf(Top(old(s)), tag, foreign))
    {
      NamespaceMattersInOtherXml(s[|s| - 1], tag, foreign);
      match s[|s| - 1]
      case ParserStart => FatalError();
      case InsideGroup => EndHere(tag);
      case InsideAttributeContainer => EndContainer(tag);
      case InsideAttribute => EndHere(tag);
      case InsideAttributeValue => EndValue(tag);
      case InsideOtherXml => EndInOtherXml(tag, foreign);
      case InsideEnumDef => EndEnumDef(tag);
      case InsideEnumConst => EndHere(tag);
      case InsideSimpleType => EndSimple(tag);
      case InsideDimension => EndHere(tag);
      case ParserUnknown => assert false;
      case ParserError =>
      case InsideArray => EndVariable(tag);
      case InsideConstructor => EndVariable(tag);
      case InsideSequence => EndVariable(tag);
      case InsideGrid => EndVariable(tag);
      case InsideMap => EndVariable(tag);
    }

    /** The callbacks for character data, ignorable white space and CDATA sections. */
    method GetCharacters(text: string)
      requires Valid()
      modifies this
      ensures View() == Step(old(View()), Ddx.Chars(text)) && Valid()
    {
      match s[|s| - 1]
      case InsideAttributeValue => charData := charData + text;
      case InsideOtherXml => otherXml := otherXml + text;
      case _ =>
    }

    method IgnorableWhitespace(text: string)
      requires Valid()
      modifies this
      ensures View() == Step(old(View()), Ddx.IgnorableWhitespace(text)) && Valid()
    {
      if s[|s| - 1].InsideOtherXml? { otherXml := otherXml + text; }
    }

    method GetCdata(text: string)
      requires Valid()
      modifies this
      ensures View() == Step(old(View()), Ddx.Cdata(text)) && Valid()
    {
      FatalKeepsValid(View());
      TopMatches(View());
      if s[|s| - 1].InsideOtherXml? { otherXml := otherXml + text; } else { FatalError(); }
    }

    /** The parse of a whole document, ddx_end_document and the verdict of cleanup_parse. */
    method Parse(es: seq<Ddx.Event>) returns (accepted: bool)
      requires Valid() && View() == Initial()
      modifies this
      ensures accepted <==> Accepts(Run(Initial(), es))
      ensures accepted ==> View() == Run(Initial(), es)
    {
      var i := 0;
      assert es[0..] == es;
      while i < |es| && !thrown
        invariant i <= |es| && (thrown || Valid())
        invariant Run(View(), es[i..]) == Run(Initial(), es)
      {
        RunUnfolds(View(), es, i);
        Callback(es[i]);
        i := i + 1;
      }
      if thrown {
        ThrownStays(View(), es[i..]);
        return false;
      }
      assert es[i..] == [];
      accepted := s[|s| - 1] == ParserStart;
    }

    method Callback(e: Ddx.Event)
      requires Valid()
      modifies this
      ensures View() == Step(old(View()), e)
      ensures thrown || Valid()
    {
      StepKeepsValid(View(), e);
      match e
      case Start(tag, attrs) => StartElement(tag, attrs);
      case End(tag, foreign) => EndElement(tag, foreign);
      case Chars(text) => GetCharacters(text);
      case IgnorableWhitespace(text) => IgnorableWhitespace(text);
      case Cdata(text) => GetCdata(text);
      case Complaint => FatalError();
    }
  }

  /** Only an end tag within OtherXML is looked at for its namespace. */
  lemma NamespaceMattersInOtherXml(st: State, tag: Tag, foreign: bool)
    ensures !st.InsideOtherXml? ==> ClosingOf(st, tag, foreign) == ClosingOf(st, tag, false)
  {}

  lemma RunUnfolds(p: Parser, es: seq<Ddx.Event>, i: nat)
    requires i < |es|
    ensures Run(p, es[i..]) == Run(Step(p, es[i]), es[i + 1..])
  {
    assert es[i..][1..] == es[i + 1..];
  }
}
