/** The parser object itself: its callbacks update the stacks in place, and do to them what the machine
    does. Every pop and every look at the top of a stack is shown to find an entry there. */
module DdxParser {
  import opened Wrappers
  import opened Text
  import opened Types
  import opened Attributes
  import opened Variables
  import opened DdxMachine
  import Invariant = DdxInvariant

  class DDXParser {
    var s: seq<State>
    var btStack: seq<Var>
    var atStack: seq<OpenTable>
    var otherXml: string
    var otherXmlDepth: nat
    var dodsAttrName: string
    var dodsAttrType: string
    var charData: string
    var datasetName: string
    var dapVersion: string
    var blobHref: string
    var thrown: bool

    function View(): Parser
      reads this
    {
      Parser(s, btStack, atStack, otherXml, otherXmlDepth, dodsAttrName, dodsAttrType, charData, datasetName,
             dapVersion, blobHref, thrown)
    }

    /** Between two callbacks. After an exception there is no next callback. */
    ghost predicate Valid()
      reads this
    {
      !thrown && Invariant.Valid(View())
    }

    /** ddx_start_document */
    constructor ()
      ensures Valid() && View() == Initial()
    {
      s := [ParserStart];
      btStack := [NewVar(Structure, "dummy_dds")];
      atStack := [OpenTable("", [])];
      otherXml, otherXmlDepth, dodsAttrName, dodsAttrType, charData := "", 0, "", "", "";
      datasetName, dapVersion, blobHref, thrown := "", "", "", false;
      new;
      Invariant.InitialIsValid();
    }

    method SetState(state: State)
      modifies this`s
      ensures View() == Push(old(View()), state)
    {
      s := s + [state];
    }

    method PopState()
      requires s != []
      modifies this`s
      ensures View() == DdxMachine.PopState(old(View()))
    {
      s := s[..|s| - 1];
    }

    method FatalError()
      modifies this`s
      ensures View() == Fatal(old(View()))
    {
      SetState(ParserError);
    }

    method CheckRequiredAttribute(attrs: map<Key, string>, key: Key) returns (ok: bool)
      modifies this`s
      ensures ok && View() == Require(old(View()), attrs, key)
    {
      if key !in attrs { FatalError(); }
      return true;
    }

    method ProcessAttributeElement(attrs: map<Key, string>)
      requires !thrown && atStack != []
      modifies this
      ensures View() == DdxMachine.ProcessAttributeElement(old(View()), attrs)
    {
      var ok := CheckRequiredAttribute(attrs, NameKey);
      if ok { ok := CheckRequiredAttribute(attrs, TypeKey); }
      if !ok { return; }
      if Lookup(attrs, TypeKey) == "Container" {
        SetState(InsideAttributeContainer);
        var name := Lookup(attrs, NameKey);
        if AppendContainer(atStack[|atStack| - 1].table, name, []).None? {
          thrown := true;
          return;
        }
        atStack := atStack + [OpenTable(DecodeSpaces(name), [])];
      } else if Lookup(attrs, TypeKey) == "OtherXML" {
        SetState(InsideOtherXml);
        dodsAttrName, dodsAttrType := Lookup(attrs, NameKey), Lookup(attrs, TypeKey);
      } else {
        SetState(InsideAttribute);
        dodsAttrName, dodsAttrType := Lookup(attrs, NameKey), Lookup(attrs, TypeKey);
      }
    }

    method ProcessAttributeAlias(attrs: map<Key, string>)
      requires !thrown && atStack != []
      modifies this
      ensures View() == ProcessAlias(old(View()), attrs)
    {
      var ok := CheckRequiredAttribute(attrs, NameKey);
      if ok { ok := CheckRequiredAttribute(attrs, AliasKey); }
      if ok {
        SetState(InsideAlias);
        AddAlias(Lookup(attrs, NameKey), Lookup(attrs, AliasKey));
      }
    }

    /** attr_alias of the table on top. */
    method AddAlias(name: string, source: string)
      requires !thrown && atStack != []
      modifies this
      ensures View() == match AttrAlias(TopTable(old(atStack)), name, source)
                        case Some(t) => SetTopTable(old(View()), t)
                        case None => old(View()).(thrown := true)
    {
      var atp := atStack[|atStack| - 1];
      match AttrAlias(atp, name, source)
      case Some(t) => atStack := atStack[..|atStack| - 1] + [OpenTable(atp.name, t)];
      case None => thrown := true;
    }

    /** The factory makes the variable, or nothing. */
    method PushVariable(ty: Type, name: string)
      modifies this
      ensures View() == Declare(old(View()), ty, name)
    {
      var btp := if InFactory(ty) then NewVar(ty, name) else NewVar(NullType, name);
      if !InFactory(ty) { FatalError(); }
      btStack := btStack + [btp];
      atStack := atStack + [OpenTable("", [])];
    }

    /** The element template of an array needs no name. */
    method CheckName(attrs: map<Key, string>) returns (ok: bool)
      requires btStack != []
      modifies this`s
      ensures ok
      ensures View() == if TopVar(btStack).ty == ArrayType then old(View()) else Require(old(View()), attrs, NameKey)
    {
      ok := btStack[|btStack| - 1].ty == ArrayType;
      if !ok { ok := CheckRequiredAttribute(attrs, NameKey); }
    }

    method ProcessVariable(ty: Type, state: State, attrs: map<Key, string>)
      requires btStack != []
      modifies this
      ensures View() == PerformOpening(old(View()), OpensVariable(ty, state), attrs)
    {
      SetState(state);
      var ok := CheckName(attrs);
      if ok { PushVariable(ty, Lookup(attrs, NameKey)); }
    }

    method ProcessDimension(attrs: map<Key, string>)
      requires btStack != []
      modifies this
      ensures View() == PerformOpening(old(View()), OpensDimension, attrs)
    {
      var ok := CheckRequiredAttribute(attrs, SizeKey);
      if ok {
        SetState(InsideDimension);
        var ap := btStack[|btStack| - 1];
        if ap.ty != ArrayType {
          FatalError();
          return;
        }
        var d := NewDimension(Atoi(Lookup(attrs, SizeKey)), Www2id(Lookup(attrs, NameKey), 0));
        btStack := btStack[..|btStack| - 1] + [ap.(dims := ap.dims + [d])];
      }
    }

    method ProcessBlob(attrs: map<Key, string>)
      modifies this
      ensures View() == PerformOpening(old(View()), OpensBlob, attrs)
    {
      var ok := CheckRequiredAttribute(attrs, HrefKey);
      if ok {
        SetState(InsideBlobHref);
        blobHref := Lookup(attrs, HrefKey);
      }
    }

    method IsAttributeOrAlias(tag: Tag, attrs: map<Key, string>) returns (taken: bool)
      requires !thrown && atStack != []
      modifies this
      ensures taken <==> tag == AttributeTag || tag == AliasTag
      ensures View() == if tag == AttributeTag then PerformOpening(old(View()), OpensAttribute, attrs)
                        else if tag == AliasTag then PerformOpening(old(View()), OpensAlias, attrs)
                        else old(View())
    {
      if tag == AttributeTag {
        ProcessAttributeElement(attrs);
        return true;
      } else if tag == AliasTag {
        ProcessAttributeAlias(attrs);
        return true;
      }
      return false;
    }

    method IsVariable(tag: Tag, attrs: map<Key, string>) returns (taken: bool)
      requires btStack != []
      modifies this
      ensures taken <==> IsVariableTag(tag)
      ensures View() == if taken then PerformOpening(old(View()), OpensVariableTag(tag), attrs) else old(View())
    {
      var t := GetType(tag);
      if IsSimple(t) {
        ProcessVariable(t, InsideSimpleType, attrs);
        return true;
      } else if tag == TypeTag(ArrayType) {
        ProcessVariable(ArrayType, InsideArray, attrs);
        return true;
      } else if tag == TypeTag(Structure) {
        ProcessVariable(Structure, InsideStructure, attrs);
        return true;
      } else if tag == TypeTag(Sequence) {
        ProcessVariable(Sequence, InsideSequence, attrs);
        return true;
      } else if tag == TypeTag(Grid) {
        ProcessVariable(Grid, InsideGrid, attrs);
        return true;
      }
      return false;
    }

    /** Take the finished variable off the stacks, with the attributes collected for it. */
    method PopVariable() returns (btp: Var)
      requires s != [] && btStack != [] && atStack != []
      modifies this
      ensures btp == FinishedVar(old(View())) && View() == DdxMachine.PopVariable(old(View()))
    {
      PopState();
      btp := btStack[|btStack| - 1].(attrs := atStack[|atStack| - 1].table);
      btStack := btStack[..|btStack| - 1];
      atStack := atStack[..|atStack| - 1];
    }

    method AddToParent(btp: Var)
      requires btStack != []
      modifies this
      ensures View() == GiveToParent(old(View()), btp)
    {
      var parent := btStack[|btStack| - 1];
      if parent.ty == ArrayType || IsConstructor(parent.ty) {
        match AddVar(parent, btp)
        case Some(grown) => btStack := btStack[..|btStack| - 1] + [grown];
        case None => thrown := true;
      } else {
        FatalError();
      }
    }

    /** The complaint about a start tag that does not belong where it is. */
    method Refuse(attrs: map<Key, string>)
      modifies this`s
      ensures View() == PerformOpening(old(View()), Refused, attrs)
    {
      FatalError();
    }

    method FinishVariable(tag: Tag, ty: Type, expected: Tag)
      requires s != [] && |btStack| >= 2 && atStack != []
      modifies this
      ensures View() == PerformClosing(old(View()), if tag == expected then ClosesVariable(ty) else Unexpected)
    {
      if tag != expected {
        FatalError();
        return;
      }
      var btp := PopVariable();
      if btp.ty != ty {
        FatalError();
        return;
      }
      if ty == ArrayType && |btp.dims| == 0 {
        FatalError();
        return;
      }
      AddToParent(btp);
    }

    /** append_attr of the table on top, with the name and type read last. */
    method Record(value: string)
      requires atStack != []
      modifies this
      ensures View() == RecordAttr(old(View()), value)
    {
      var atp := atStack[|atStack| - 1];
      match AppendAttr(atp.table, dodsAttrName, dodsAttrType, value)
      case Some(t) => atStack := atStack[..|atStack| - 1] + [OpenTable(atp.name, t)];
      case None => thrown := true;
    }

    method PopContainer()
      requires s != [] && |atStack| >= 2
      modifies this
      ensures View() == CloseContainer(old(View()))
    {
      PopState();
      var child := atStack[|atStack| - 1];
      var parent := atStack[|atStack| - 2];
      atStack := atStack[..|atStack| - 2] + [OpenTable(parent.name, parent.table + [Container(child.name, child.table)])];
    }

    // The branches of ddx_sax2_start_element, by the state they are taken in.

    method StartRoot(tag: Tag, attrs: map<Key, string>)
      requires Valid() && Top(s).ParserStart?
      modifies this
      ensures View() == PerformOpening(old(View()), OpeningOf(Top(old(s)), tag), attrs)
    {
      if tag == DatasetTag {
        SetState(InsideDataset);
        var ok := CheckRequiredAttribute(attrs, NameKey);
        if ok { datasetName := Lookup(attrs, NameKey); }
        if DapVersionKey in attrs { dapVersion := attrs[DapVersionKey]; }
      } else {
        Refuse(attrs);
      }
    }

    method StartInDataset(tag: Tag, attrs: map<Key, string>)
      requires Valid() && Top(s).InsideDataset?
      modifies this
      ensures View() == PerformOpening(old(View()), OpeningOf(Top(old(s)), tag), attrs)
    {
      var taken := IsAttributeOrAlias(tag, attrs);
      if !taken { taken := IsVariable(tag, attrs); }
      if !taken {
        if tag == BlobTag || tag == DataBlobTag { ProcessBlob(attrs); } else { Refuse(attrs); }
      }
    }

    method StartInTable(tag: Tag, attrs: map<Key, string>)
      requires Valid() && (Top(s).InsideAttributeContainer? || Top(s).InsideSimpleType?)
      modifies this
      ensures View() == PerformOpening(old(View()), OpeningOf(Top(old(s)), tag), attrs)
    {
      var taken := IsAttributeOrAlias(tag, attrs);
      if !taken { Refuse(attrs); }
    }

    method StartInAttribute(tag: Tag, attrs: map<Key, string>)
      requires Valid() && Top(s).InsideAttribute?
      modifies this
      ensures View() == PerformOpening(old(View()), OpeningOf(Top(old(s)), tag), attrs)
    {
      var taken := IsAttributeOrAlias(tag, attrs);
      if !taken {
        if tag == ValueTag { SetState(InsideAttributeValue); } else { Refuse(attrs); }
      }
    }

    method StartInStructure(tag: Tag, attrs: map<Key, string>)
      requires Valid() && Top(s).InsideStructure?
      modifies this
      ensures View() == PerformOpening(old(View()), OpeningOf(Top(old(s)), tag), attrs)
    {
      assert OpeningOf(InsideStructure, tag) ==
        if tag == AttributeTag then OpensAttribute else if tag == AliasTag then OpensAlias
        else if IsVariableTag(tag) then OpensVariableTag(tag) else Refused;
      var taken := IsAttributeOrAlias(tag, attrs);
      if !taken { taken := IsVariable(tag, attrs); }
      if !taken { Refuse(attrs); }
    }

    method StartInSequence(tag: Tag, attrs: map<Key, string>)
      requires Valid() && Top(s).InsideSequence?
      modifies this
      ensures View() == PerformOpening(old(View()), OpeningOf(Top(old(s)), tag), attrs)
    {
      assert OpeningOf(InsideSequence, tag) ==
        if tag == AttributeTag then OpensAttribute else if tag == AliasTag then OpensAlias
        else if IsVariableTag(tag) then OpensVariableTag(tag) else Refused;
      var taken := IsAttributeOrAlias(tag, attrs);
      if !taken { taken := IsVariable(tag, attrs); }
      if !taken { Refuse(attrs); }
    }

    method StartInArray(tag: Tag, attrs: map<Key, string>)
      requires Valid() && Top(s).InsideArray?
      modifies this
      ensures View() == PerformOpening(old(View()), OpeningOf(Top(old(s)), tag), attrs)
    {
      assert OpeningOf(InsideArray, tag) ==
        if tag == AttributeTag then OpensAttribute else if tag == AliasTag then OpensAlias
        else if tag != TypeTag(ArrayType) && IsVariableTag(tag) then OpensVariableTag(tag)
        else if tag == DimensionTag then OpensDimension else Refused;
      var taken := IsAttributeOrAlias(tag, attrs);
      if !taken && tag != TypeTag(ArrayType) { taken := IsVariable(tag, attrs); }
      if !taken {
        if tag == DimensionTag { ProcessDimension(attrs); } else { Refuse(attrs); }
      }
    }

    method StartInGrid(tag: Tag, attrs: map<Key, string>)
      requires Valid() && Top(s).InsideGrid?
      modifies this
      ensures View() == PerformOpening(old(View()), OpeningOf(Top(old(s)), tag), attrs)
    {
      var taken := IsAttributeOrAlias(tag, attrs);
      if !taken {
        if tag == TypeTag(ArrayType) {
          ProcessVariable(ArrayType, InsideArray, attrs);
        } else if tag == MapTag {
          ProcessVariable(ArrayType, InsideMap, attrs);
        } else {
          Refuse(attrs);
        }
      }
    }

    method StartInMap(tag: Tag, attrs: map<Key, string>)
      requires Valid() && Top(s).InsideMap?
      modifies this
      ensures View() == PerformOpening(old(View()), OpeningOf(Top(old(s)), tag), attrs)
    {
      assert OpeningOf(InsideMap, tag) ==
        if tag == AttributeTag then OpensAttribute else if tag == AliasTag then OpensAlias
        else if tag !in {TypeTag(ArrayType), TypeTag(Sequence), TypeTag(Grid)} && IsVariableTag(tag)
        then OpensVariableTag(tag) else if tag == DimensionTag then OpensDimension else Refused;
      var taken := IsAttributeOrAlias(tag, attrs);
      if !taken && tag != TypeTag(ArrayType) && tag != TypeTag(Sequence) && tag != TypeTag(Grid) {
        taken := IsVariable(tag, attrs);
      }
      if !taken {
        if tag == DimensionTag { ProcessDimension(attrs); } else { Refuse(attrs); }
      }
    }

    method StartInOtherXml(attrs: map<Key, string>)
      modifies this
      ensures View() == PerformOpening(old(View()), OpensForeign, attrs)
    {
      otherXmlDepth := otherXmlDepth + 1;
      otherXml := otherXml + "<>";
    }

    method StartInVariable(tag: Tag, attrs: map<Key, string>)
      requires Valid() && Invariant.IsVariableState(Top(s))
      modifies this
      ensures View() == PerformOpening(old(View()), OpeningOf(Top(old(s)), tag), attrs)
    {
      match s[|s| - 1]
      case InsideSimpleType => StartInTable(tag, attrs);
      case InsideArray => StartInArray(tag, attrs);
      case InsideStructure => StartInStructure(tag, attrs);
      case InsideSequence => StartInSequence(tag, attrs);
      case InsideGrid => StartInGrid(tag, attrs);
      case InsideMap => StartInMap(tag, attrs);
    }

    /** ddx_sax2_start_element */
    method StartElement(tag: Tag, attrs: map<Key, string>)
      requires Valid()
      modifies this
      ensures View() == DdxMachine.StartElement(old(View()), tag, attrs)
    {
      Invariant.TopMatches(View());
      match s[|s| - 1]
      case ParserStart => StartRoot(tag, attrs);
      case InsideDataset => StartInDataset(tag, attrs);
      case InsideAttributeContainer => StartInTable(tag, attrs);
      case InsideAttribute => StartInAttribute(tag, attrs);
      case InsideAttributeValue => Refuse(attrs);
      case InsideOtherXml => StartInOtherXml(attrs);
      case InsideAlias => Refuse(attrs);
      case InsideDimension => Refuse(attrs);
      case InsideBlobHref => Refuse(attrs);
      case ParserUnknown => assert false;
      case ParserError =>
      case InsideSimpleType => StartInVariable(tag, attrs);
      case InsideArray => StartInVariable(tag, attrs);
      case InsideStructure => StartInVariable(tag, attrs);
      case InsideSequence => StartInVariable(tag, attrs);
      case InsideGrid => StartInVariable(tag, attrs);
      case InsideMap => StartInVariable(tag, attrs);
    }

    // The branches of ddx_sax2_end_element.

    method EndValue(tag: Tag)
      requires Valid() && Top(s).InsideAttributeValue?
      modifies this
      ensures View() == PerformClosing(old(View()), ClosingOf(InsideAttributeValue, tag, false))
    {
      if tag == ValueTag {
        PopState();
        Record(charData);
        charData := "";
      } else {
        FatalError();
      }
    }

    method EndInOtherXml(tag: Tag, foreign: bool)
      requires Valid() && Top(s).InsideOtherXml?
      modifies this
      ensures View() == PerformClosing(old(View()), ClosingOf(InsideOtherXml, tag, foreign))
    {
      if tag == AttributeTag && !foreign {
        PopState();
        Record(otherXml);
        otherXml := "";
      } else {
        EndMarkup();
      }
    }

    method EndMarkup()
      modifies this
      ensures View() == PerformClosing(old(View()), ClosesForeign)
    {
      if otherXmlDepth == 0 { FatalError(); }
      otherXmlDepth := if otherXmlDepth == 0 then 0xFFFF_FFFF else otherXmlDepth - 1;
      otherXml := otherXml + "</>";
    }

    method EndSimple(tag: Tag)
      requires Valid() && Top(s).InsideSimpleType?
      modifies this
      ensures View() == PerformClosing(old(View()), ClosingOf(InsideSimpleType, tag, false))
    {
      Invariant.TopMatches(View());
      if IsSimple(GetType(tag)) { FinishSimple(); } else { FatalError(); }
    }

    method FinishSimple()
      requires s != [] && |btStack| >= 2 && atStack != []
      modifies this
      ensures View() == PerformClosing(old(View()), ClosesSimple)
    {
      var btp := PopVariable();
      AddToParent(btp);
    }

    /** A state that ends with the right tag, and takes nothing off the other stacks. */
    method EndPlain(right: bool)
      requires s != []
      modifies this
      ensures View() == PerformClosing(old(View()), if right then Leaves else Unexpected)
    {
      if right { PopState(); } else { FatalError(); }
    }

    method EndVariable(tag: Tag)
      requires Valid() && Invariant.IsVariableState(Top(s)) && !Top(s).InsideSimpleType?
      modifies this
      ensures View() == PerformClosing(old(View()), ClosingOf(Top(old(s)), tag, false))
    {
      Invariant.TopMatches(View());
      match s[|s| - 1]
      case InsideArray => FinishVariable(tag, ArrayType, TypeTag(ArrayType));
      case InsideStructure => FinishVariable(tag, Structure, TypeTag(Structure));
      case InsideSequence => FinishVariable(tag, Sequence, TypeTag(Sequence));
      case InsideGrid => FinishVariable(tag, Grid, TypeTag(Grid));
      case InsideMap => FinishVariable(tag, ArrayType, MapTag);
    }

    method EndContainer(tag: Tag)
      requires Valid() && Top(s).InsideAttributeContainer?
      modifies this
      ensures View() == PerformClosing(old(View()), ClosingOf(InsideAttributeContainer, tag, false))
    {
      Invariant.TopMatches(View());
      if tag == AttributeTag { PopContainer(); } else { FatalError(); }
    }

    /** ddx_sax2_end_element */
    method EndElement(tag: Tag, foreign: bool)
      requires Valid()
      modifies this
      ensures View() == DdxMachine.EndElement(old(View()), tag, foreign)
    {
      NamespaceMattersInOtherXml(s[|s| - 1], tag, foreign);
      match s[|s| - 1]
      case ParserStart => FatalError();
      case InsideDataset => EndPlain(tag == DatasetTag);
      case InsideAttributeContainer => EndContainer(tag);
      case InsideAttribute => EndPlain(tag == AttributeTag);
      case InsideAttributeValue => EndValue(tag);
      case InsideOtherXml => EndInOtherXml(tag, foreign);
      case InsideAlias => PopState();
      case InsideSimpleType => EndSimple(tag);
      case InsideArray => EndVariable(tag);
      case InsideDimension => EndPlain(tag == DimensionTag);
      case InsideStructure => EndVariable(tag);
      case InsideSequence => EndVariable(tag);
      case InsideGrid => EndVariable(tag);
      case InsideMap => EndVariable(tag);
      case InsideBlobHref => EndPlain(tag == BlobTag || tag == DataBlobTag);
      case ParserUnknown => assert false;
      case ParserError =>
    }

    /** ddx_get_characters */
    method GetCharacters(text: string)
      requires Valid()
      modifies this
      ensures View() == DdxMachine.GetCharacters(old(View()), text) && Valid()
    {
      match s[|s| - 1]
      case InsideAttributeValue => charData := charData + text;
      case InsideOtherXml => otherXml := otherXml + text;
      case _ =>
    }

    /** ddx_ignoreable_whitespace */
    method IgnorableWhitespace(text: string)
      requires Valid()
      modifies this
      ensures View() == GetWhitespace(old(View()), text) && Valid()
    {
      match s[|s| - 1]
      case InsideOtherXml => otherXml := otherXml + text;
      case _ =>
    }

    /** ddx_get_cdata */
    method GetCdata(text: string)
      requires Valid()
      modifies this
      ensures View() == DdxMachine.GetCdata(old(View()), text) && Valid()
    {
      Invariant.FatalKeepsValid(View());
      match s[|s| - 1]
      case InsideOtherXml => otherXml := otherXml + text;
      case ParserUnknown =>
      case _ => FatalError();
    }

    /** One callback. */
    method Callback(e: Event)
      requires Valid()
      modifies this
      ensures View() == Step(old(View()), e)
      ensures thrown || Valid()
    {
      Invariant.StepKeepsValid(View(), e);
      match e
      case Start(tag, attrs) => StartElement(tag, attrs);
      case End(tag, foreign) => EndElement(tag, foreign);
      case Chars(text) => GetCharacters(text);
      case IgnorableWhitespace(text) => IgnorableWhitespace(text);
      case Cdata(text) => GetCdata(text);
      case Complaint => FatalError();
    }

    /** The parse of a whole document: one callback after the other, until one throws, and then
        ddx_end_document and the verdict of cleanup_parse. */
    method Parse(es: seq<Event>) returns (accepted: bool)
      requires Valid() && View() == Initial()
      modifies this
      ensures accepted <==> AcceptsDocument(es)
      ensures accepted ==> View() == Run(Initial(), es)
    {
      var i := 0;
      assert es[0..] == es;
      while i < |es| && !thrown
        invariant i <= |es| && (thrown || Valid())
        invariant Run(View(), es[i..]) == Run(Initial(), es)
      {
        RunUnfolds(View(), es, i);
        Callback(es[i]);
        i := i + 1;
      }
      if thrown {
        Invariant.ThrownStays(View(), es[i..]);
        return false;
      }
      accepted := s[|s| - 1] == ParserStart;
      EndIsVerdict(View(), es, i);
    }
  }

  /** Only an end tag within OtherXML is looked at for its namespace. */
  lemma NamespaceMattersInOtherXml(st: State, tag: Tag, foreign: bool)
    ensures !st.InsideOtherXml? ==> ClosingOf(st, tag, foreign) == ClosingOf(st, tag, false)
  {}

  lemma RunUnfolds(p: Parser, es: seq<Event>, i: nat)
    requires i < |es|
    ensures Run(p, es[i..]) == Run(Step(p, es[i]), es[i + 1..])
  {
    assert es[i..][1..] == es[i + 1..];
  }

  lemma EndIsVerdict(p: Parser, es: seq<Event>, i: nat)
    requires i == |es| && Run(p, es[i..]) == Run(Initial(), es) && !p.thrown
    ensures p == Run(Initial(), es) && (AcceptsDocument(es) <==> Top(p.s) == ParserStart)
  {
    assert Top(Fatal(p).s) == ParserError;
  }
}
