/** What every run of the parsing machine keeps, for any sequence of events, well formed or not. */
module DdxInvariant {
  import opened Text
  import opened Types
  import opened Attributes
  import opened Variables
  import opened DdxMachine

  // ---------------------------------------------------------------------------------------------
  // Errors stay
  // ---------------------------------------------------------------------------------------------

  predicate HasError(s: seq<State>) {
    ParserError in s
  }

  lemma RequirePushes(p: Parser, attrs: map<Key, string>, key: Key)
    ensures Require(p, attrs, key) == p || Require(p, attrs, key) == p.(s := p.s + [ParserError])
  {}

  lemma AttributePushes(p: Parser, attrs: map<Key, string>)
    ensures p.s <= ProcessAttributeElement(p, attrs).s && p.s <= ProcessAlias(p, attrs).s
  {
    RequirePushes(p, attrs, NameKey);
    RequirePushes(Require(p, attrs, NameKey), attrs, TypeKey);
    RequirePushes(Require(p, attrs, NameKey), attrs, AliasKey);
  }

  lemma VariablePushes(p: Parser, ty: Type, st: State, attrs: map<Key, string>)
    ensures p.s <= ProcessVariable(p, ty, st, attrs).s
  {
    RequirePushes(Push(p, st), attrs, NameKey);
  }

  lemma DimensionPushes(p: Parser, attrs: map<Key, string>)
    ensures p.s <= ProcessDimension(p, attrs).s && p.s <= ProcessBlob(p, attrs).s
  {
    RequirePushes(p, attrs, SizeKey);
    RequirePushes(p, attrs, HrefKey);
  }

  lemma OpeningPushes(p: Parser, o: Opening, attrs: map<Key, string>)
    ensures p.s <= PerformOpening(p, o, attrs).s
  {
    match o
    case OpensAttribute => AttributePushes(p, attrs);
    case OpensAlias => AttributePushes(p, attrs);
    case OpensVariable(ty, st) => VariablePushes(p, ty, st, attrs);
    case OpensDimension => DimensionPushes(p, attrs);
    case OpensBlob => DimensionPushes(p, attrs);
    case OpensRoot => RequirePushes(Push(p, InsideDataset), attrs, NameKey);
    case _ =>
  }

  lemma GivingPushes(p: Parser, v: Var)
    ensures p.s <= GiveToParent(p, v).s
  {}

  lemma RecordPushes(p: Parser, value: string)
    ensures RecordAttr(p, value).s == p.s
  {}

  lemma ClosingShape(p: Parser, c: Closing)
    ensures p.s <= PerformClosing(p, c).s || Below(p.s) <= PerformClosing(p, c).s
  {
    match c
    case ClosesValue => RecordPushes(PopState(p), p.charData);
    case ClosesOtherXml => RecordPushes(PopState(p), p.otherXml);
    case ClosesSimple => GivingPushes(PopVariable(p), FinishedVar(p));
    case ClosesVariable(ty) => GivingPushes(PopVariable(p), FinishedVar(p));
    case _ =>
  }

  /** A step only pushes states, or first pops one that is not the error state. */
  lemma StepShape(p: Parser, e: Event)
    ensures p.s <= Step(p, e).s || (Top(p.s) != ParserError && Below(p.s) <= Step(p, e).s)
  {
    match e
    case Start(tag, attrs) => OpeningPushes(p, OpeningOf(Top(p.s), tag), attrs);
    case End(tag, foreign) => ClosingShape(p, ClosingOf(Top(p.s), tag, foreign));
    case _ =>
  }

  /** An error state is never removed, even after further states have been pushed on top of it. */
  lemma ErrorStays(p: Parser, e: Event, k: nat)
    requires k < |p.s| && p.s[k] == ParserError
    ensures p.s[..k + 1] <= Step(p, e).s
  {
    StepShape(p, e);
    KeptPrefix(p.s, Step(p, e).s, k);
  }

  lemma KeptPrefix(s: seq<State>, s': seq<State>, k: nat)
    requires k < |s| && s[k] == ParserError
    requires s <= s' || (Top(s) != ParserError && Below(s) <= s')
    ensures s[..k + 1] <= s'
  {
    if s <= s' {
      assert s[..k + 1] <= s;
    } else {
      assert k != |s| - 1;
      assert s[..k + 1] <= Below(s);
    }
  }

  lemma {:induction false} ErrorStaysForever(p: Parser, es: seq<Event>, k: nat)
    requires k < |p.s| && p.s[k] == ParserError
    ensures p.s[..k + 1] <= Run(p, es).s
    decreases |es|
  {
    if es == [] {
      assert p.s[..k + 1] <= p.s;
    } else {
      ErrorStays(p, es[0], k);
      var q := Step(p, es[0]);
      assert q.s[..k + 1] == p.s[..k + 1];
      ErrorStaysForever(q, es[1..], k);
    }
  }

  /** Once an error has been recorded, every later state of the run still holds it. */
  lemma ErrorReachesEnd(p: Parser, es: seq<Event>)
    ensures HasError(p.s) ==> HasError(Run(p, es).s)
  {
    if HasError(p.s) {
      var k :| 0 <= k < |p.s| && p.s[k] == ParserError;
      ErrorStaysForever(p, es, k);
      assert Run(p, es).s[k] == p.s[..k + 1][k];
    }
  }

  // ---------------------------------------------------------------------------------------------
  // The stacks stay in step
  // ---------------------------------------------------------------------------------------------

  predicate IsVariableState(st: State) {
    st.InsideSimpleType? || st.InsideArray? || st.InsideGrid? || st.InsideMap? || st.InsideStructure? ||
    st.InsideSequence?
  }

  function VariableStates(s: seq<State>): seq<State> {
    if s == [] then []
    else if IsVariableState(Top(s)) then VariableStates(Below(s)) + [Top(s)]
    else VariableStates(Below(s))
  }

  function Containers(s: seq<State>): nat {
    if s == [] then 0 else Containers(Below(s)) + (if Top(s).InsideAttributeContainer? then 1 else 0)
  }

  /** The type of the variable that a variable state is about. A type the factory does not know leaves
      no variable behind. */
  predicate Describes(st: State, ty: Type) {
    match st
    case InsideSimpleType => IsSimple(ty) || ty.NullType?
    case InsideArray => ty.ArrayType?
    case InsideMap => ty.ArrayType?
    case InsideGrid => ty.Grid?
    case InsideStructure => ty.Structure?
    case InsideSequence => ty.Sequence?
    case _ => false
  }

  /** May a variable in state b sit directly inside one in state a? */
  predicate MayHold(a: State, b: State) {
    !a.InsideSimpleType? &&
    (a.InsideGrid? ==> b.InsideArray? || b.InsideMap?) &&
    (a.InsideArray? || a.InsideMap? ==> !b.InsideArray? && !b.InsideMap?)
  }

  predicate StacksMatch(vs: seq<State>, bt: seq<Var>) {
    |bt| == 1 + |vs| && bt[0].ty == Structure &&
    (forall i :: 0 <= i < |vs| ==> Describes(vs[i], bt[i + 1].ty)) &&
    (forall i :: 0 < i < |vs| ==> MayHold(vs[i - 1], vs[i]))
  }

  /** The start state is at the bottom, the dataset state right above it, and nowhere else. */
  predicate Grounded(s: seq<State>) {
    |s| > 0 && s[0] == ParserStart &&
    (forall i :: 0 < i < |s| ==> s[i] != ParserStart && s[i] != ParserUnknown) &&
    (forall i :: 1 < i < |s| ==> s[i] != InsideDataset)
  }

  /** The variable stack has one entry more than there are variable states, of matching types; the table
      stack has a further entry for every open attribute container. */
  predicate InStep(s: seq<State>, bt: seq<Var>, tables: nat) {
    Grounded(s) && StacksMatch(VariableStates(s), bt) && tables == |bt| + Containers(s)
  }

  predicate Valid(p: Parser) {
    InStep(p.s, p.bt, |p.at|)
  }

  lemma {:induction false} CountsOfPush(s: seq<State>, st: State)
    ensures VariableStates(s + [st]) == if IsVariableState(st) then VariableStates(s) + [st] else VariableStates(s)
    ensures Containers(s + [st]) == Containers(s) + if st.InsideAttributeContainer? then 1 else 0
  {
    assert Below(s + [st]) == s;
  }

  lemma GroundedPush(s: seq<State>, st: State)
    requires s != []
    ensures Grounded(s + [st]) <==>
              Grounded(s) && !st.ParserStart? && !st.ParserUnknown? && (st.InsideDataset? ==> |s| == 1)
  {
    var t := s + [st];
    assert forall i :: 0 <= i < |s| ==> t[i] == s[i];
    assert t[|s|] == st;
  }

  lemma MatchPush(vs: seq<State>, bt: seq<Var>, st: State, v: Var)
    requires bt != []
    ensures StacksMatch(vs + [st], bt + [v]) <==>
              StacksMatch(vs, bt) && Describes(st, v.ty) && (vs != [] ==> MayHold(Top(vs), st))
  {
    var ws, ct := vs + [st], bt + [v];
    assert forall i :: 0 <= i < |vs| ==> ws[i] == vs[i];
    assert forall i :: 0 <= i < |bt| ==> ct[i] == bt[i];
    if StacksMatch(ws, ct) {
      assert Describes(ws[|vs|], ct[|vs| + 1].ty);
      assert vs != [] ==> MayHold(ws[|vs| - 1], ws[|vs|]);
    }
  }

  /** Pushing or popping a state that is neither about a variable nor a container. */
  lemma PlainState(s: seq<State>, bt: seq<Var>, tables: nat, st: State)
    requires s != [] && !IsVariableState(st) && !st.InsideAttributeContainer?
    ensures InStep(s + [st], bt, tables) <==>
              InStep(s, bt, tables) && !st.ParserStart? && !st.ParserUnknown? && (st.InsideDataset? ==> |s| == 1)
  {
    CountsOfPush(s, st);
    GroundedPush(s, st);
  }

  lemma ContainerState(s: seq<State>, bt: seq<Var>, tables: nat)
    requires s != []
    ensures InStep(s + [InsideAttributeContainer], bt, tables + 1) <==> InStep(s, bt, tables)
  {
    CountsOfPush(s, InsideAttributeContainer);
    GroundedPush(s, InsideAttributeContainer);
  }

  lemma VariableState(s: seq<State>, bt: seq<Var>, tables: nat, st: State, v: Var)
    requires s != [] && bt != [] && IsVariableState(st)
    ensures InStep(s + [st], bt + [v], tables + 1) <==>
              InStep(s, bt, tables) && Describes(st, v.ty) &&
              (VariableStates(s) != [] ==> MayHold(Top(VariableStates(s)), st))
  {
    CountsOfPush(s, st);
    GroundedPush(s, st);
    MatchPush(VariableStates(s), bt, st, v);
  }

  lemma NoVariableInStart()
    ensures VariableStates([ParserStart]) == [] && Containers([ParserStart]) == 0
  {
    assert Below([ParserStart]) == [];
  }

  lemma InitialIsValid()
    ensures Valid(Initial())
  {
    NoVariableInStart();
  }

  /** Replacing the top variable by one of the same type. */
  lemma ReplaceTop(p: Parser, v: Var)
    requires Valid(p) && v.ty == TopVar(p.bt).ty
    ensures Valid(SetTopVar(p, v))
  {
    var bt := Below(p.bt) + [v];
    forall i | 0 <= i < |bt| ensures bt[i].ty == p.bt[i].ty {}
  }

  lemma PushKeepsValid(p: Parser, st: State)
    requires Valid(p) && !st.ParserStart? && !st.ParserUnknown? && !IsVariableState(st)
    requires !st.InsideAttributeContainer? && !st.InsideDataset?
    ensures Valid(Push(p, st))
  {
    PlainState(p.s, p.bt, |p.at|, st);
  }

  lemma FatalKeepsValid(p: Parser)
    requires Valid(p)
    ensures Valid(Fatal(p))
  {
    PushKeepsValid(p, ParserError);
  }

  lemma RequireKeepsValid(p: Parser, attrs: map<Key, string>, key: Key)
    requires Valid(p)
    ensures Valid(Require(p, attrs, key))
  {
    FatalKeepsValid(p);
  }

  lemma ContainerKeepsValid(p: Parser, t: OpenTable)
    requires Valid(p)
    ensures Valid(Push(p, InsideAttributeContainer).(at := p.at + [t]))
  {
    ContainerState(p.s, p.bt, |p.at|);
  }

  lemma PushAttributeKeepsValid(p: Parser, st: State, name: string, ty: string)
    requires Valid(p) && (st.InsideOtherXml? || st.InsideAttribute?)
    ensures Valid(Push(p, st).(attrName := name, attrType := ty))
  {
    PushKeepsValid(p, st);
  }

  lemma AttributeKeepsValid(p: Parser, attrs: map<Key, string>)
    requires Valid(p)
    ensures ProcessAttributeElement(p, attrs).thrown || Valid(ProcessAttributeElement(p, attrs))
  {
    var p1 := Require(p, attrs, NameKey);
    RequireKeepsValid(p, attrs, NameKey);
    var p2 := Require(p1, attrs, TypeKey);
    RequireKeepsValid(p1, attrs, TypeKey);
    var name, ty := Lookup(attrs, NameKey), Lookup(attrs, TypeKey);
    if ty == "Container" {
      ContainerKeepsValid(p2, OpenTable(DecodeSpaces(name), []));
    } else {
      PushAttributeKeepsValid(p2, if ty == "OtherXML" then InsideOtherXml else InsideAttribute, name, ty);
    }
  }

  lemma AliasKeepsValid(p: Parser, attrs: map<Key, string>)
    requires Valid(p)
    ensures ProcessAlias(p, attrs).thrown || Valid(ProcessAlias(p, attrs))
  {
    var p1 := Require(p, attrs, NameKey);
    RequireKeepsValid(p, attrs, NameKey);
    RequireKeepsValid(p1, attrs, AliasKey);
    var p2 := Require(p1, attrs, AliasKey);
    PushKeepsValid(p2, InsideAlias);
    assert |Below(p2.at)| + 1 == |p2.at|;
  }

  lemma PushVariableKeepsValid(p: Parser, v: Var, st: State)
    requires Valid(p) && IsVariableState(st) && Describes(st, v.ty)
    requires VariableStates(p.s) != [] ==> MayHold(Top(VariableStates(p.s)), st)
    ensures Valid(Push(p, st).(bt := p.bt + [v], at := p.at + [OpenTable("", [])]))
  {
    VariableState(p.s, p.bt, |p.at|, st, v);
  }

  lemma VariableKeepsValid(p: Parser, ty: Type, st: State, attrs: map<Key, string>)
    requires Valid(p) && IsVariableState(st) && Describes(st, ty)
    requires VariableStates(p.s) != [] ==> MayHold(Top(VariableStates(p.s)), st)
    ensures Valid(ProcessVariable(p, ty, st, attrs))
  {
    var v := NewVar(if InFactory(ty) then ty else NullType, Lookup(attrs, NameKey));
    FactoryDescribes(st, ty);
    PushVariableKeepsValid(p, v, st);
    var q := Push(p, st).(bt := p.bt + [v], at := p.at + [OpenTable("", [])]);
    FatalKeepsValid(q);
    FatalKeepsValid(Fatal(q));
  }

  /** A type the factory does not know is a simple one. */
  lemma FactoryDescribes(st: State, ty: Type)
    requires Describes(st, ty)
    ensures Describes(st, if InFactory(ty) then ty else NullType)
  {}

  lemma DimensionKeepsValid(p: Parser, attrs: map<Key, string>)
    requires Valid(p)
    ensures Valid(ProcessDimension(p, attrs))
  {
    RequireKeepsValid(p, attrs, SizeKey);
    var p1 := Require(p, attrs, SizeKey);
    PushKeepsValid(p1, InsideDimension);
    var p2 := Push(p1, InsideDimension);
    FatalKeepsValid(p2);
    var v := TopVar(p2.bt);
    ReplaceTop(p2, v.(dims := v.dims + [NewDimension(Atoi(Lookup(attrs, SizeKey)), Www2id(Lookup(attrs, NameKey), 0))]));
  }

  lemma BlobKeepsValid(p: Parser, attrs: map<Key, string>)
    requires Valid(p)
    ensures Valid(ProcessBlob(p, attrs))
  {
    RequireKeepsValid(p, attrs, HrefKey);
    PushKeepsValid(Require(p, attrs, HrefKey), InsideBlobHref);
  }

  lemma RootKeepsValid(p: Parser, attrs: map<Key, string>)
    requires Valid(p) && |p.s| == 1
    ensures Valid(StartRoot(p, attrs))
  {
    PlainState(p.s, p.bt, |p.at|, InsideDataset);
    RequireKeepsValid(Push(p, InsideDataset), attrs, NameKey);
  }

  /** What is on top of the stacks in a valid state: a variable state has its variable and its table
      there, above their parents; a container has its table. */
  lemma TopMatches(p: Parser)
    requires Valid(p)
    ensures p.s == Below(p.s) + [Top(p.s)]
    ensures IsVariableState(Top(p.s)) ==>
              |p.bt| >= 2 && |p.at| >= 2 && VariableStates(p.s) == VariableStates(Below(p.s)) + [Top(p.s)] &&
              Describes(Top(p.s), TopVar(p.bt).ty)
    ensures Top(p.s).InsideAttributeContainer? ==> |p.at| >= 2
    ensures Top(p.s).ParserStart? <==> |p.s| == 1
    ensures !Top(p.s).ParserUnknown?
  {
    CountsOfPush(Below(p.s), Top(p.s));
    var vs := VariableStates(p.s);
    if IsVariableState(Top(p.s)) {
      assert Describes(vs[|vs| - 1], p.bt[|vs| - 1 + 1].ty);
    }
  }

  lemma BottomOfStacks(p: Parser)
    requires Valid(p) && (Top(p.s).InsideDataset? || Top(p.s).ParserStart?)
    ensures |p.bt| == 1 && |p.at| == 1 && VariableStates(p.s) == []
    ensures p.s == if Top(p.s).ParserStart? then [ParserStart] else [ParserStart, InsideDataset]
  {
    NoVariableInStart();
    CountsOfPush([ParserStart], InsideDataset);
    if Top(p.s).ParserStart? {
      assert p.s == [ParserStart];
    } else {
      assert p.s == [ParserStart] + [InsideDataset];
    }
  }

  /** A variable is declared only where its parent can hold it, and in the state its type asks for. */
  lemma DeclaredWhereHeld(top: State, tag: Tag)
    ensures var o := OpeningOf(top, tag);
            o.OpensVariable? ==>
              IsVariableState(o.state) && Describes(o.state, o.ty) &&
              (top.InsideDataset? || (IsVariableState(top) && MayHold(top, o.state)))
    ensures OpeningOf(top, tag).OpensRoot? ==> top.ParserStart?
    ensures OpeningOf(top, tag).OpensUnknown? ==> top.ParserUnknown?
  {}

  lemma StartKeepsValid(p: Parser, tag: Tag, attrs: map<Key, string>)
    requires Valid(p)
    ensures StartElement(p, tag, attrs).thrown || Valid(StartElement(p, tag, attrs))
  {
    TopMatches(p);
    DeclaredWhereHeld(Top(p.s), tag);
    match OpeningOf(Top(p.s), tag)
    case Refused => FatalKeepsValid(p);
    case OpensRoot => RootKeepsValid(p, attrs);
    case OpensAttribute => AttributeKeepsValid(p, attrs);
    case OpensAlias => AliasKeepsValid(p, attrs);
    case OpensValue => PushKeepsValid(p, InsideAttributeValue);
    case OpensVariable(ty, st) =>
      if Top(p.s).InsideDataset? { BottomOfStacks(p); }
      VariableKeepsValid(p, ty, st, attrs);
    case OpensDimension => DimensionKeepsValid(p, attrs);
    case OpensBlob => BlobKeepsValid(p, attrs);
    case _ =>
  }

  lemma PopKeepsValid(p: Parser)
    requires Valid(p) && |p.s| > 1 && !IsVariableState(Top(p.s)) && !Top(p.s).InsideAttributeContainer?
    ensures Valid(PopState(p))
  {
    TopMatches(p);
    PlainState(Below(p.s), p.bt, |p.at|, Top(p.s));
  }

  lemma CloseKeepsValid(p: Parser)
    requires Valid(p) && Top(p.s).InsideAttributeContainer?
    ensures Valid(CloseContainer(p))
  {
    TopMatches(p);
    ContainerState(Below(p.s), p.bt, |p.at| - 1);
  }

  lemma PopVariableKeepsValid(p: Parser)
    requires Valid(p) && IsVariableState(Top(p.s))
    ensures Valid(PopVariable(p))
    ensures VariableStates(Below(p.s)) != [] ==> MayHold(Top(VariableStates(Below(p.s))), Top(p.s))
  {
    TopMatches(p);
    assert p.bt == Below(p.bt) + [TopVar(p.bt)];
    VariableState(Below(p.s), Below(p.bt), |p.at| - 1, Top(p.s), TopVar(p.bt));
  }

  /** The variable a parent state is about, when there is one; the stand-in Structure otherwise. */
  lemma ParentOnTop(p: Parser)
    requires Valid(p)
    ensures VariableStates(p.s) == [] ==> TopVar(p.bt).ty == Structure
    ensures VariableStates(p.s) != [] ==> Describes(Top(VariableStates(p.s)), TopVar(p.bt).ty)
  {}

  lemma ParentAddsVariable(parent: Var, v: Var)
    requires parent.ty == ArrayType || IsConstructor(parent.ty)
    requires parent.ty == Grid ==> v.ty == ArrayType
    ensures AddVar(parent, v).Some? && AddVar(parent, v).value.ty == parent.ty
  {}

  /** Popping a finished variable leaves its parent on top, and the parent can hold it: neither the
      complaint about a non-constructor parent nor the exception of a Grid without an array comes up. */
  lemma ParentTakesVariable(p: Parser)
    requires Valid(p) && IsVariableState(Top(p.s))
    ensures var parent := TopVar(Below(p.bt));
            (parent.ty == ArrayType || IsConstructor(parent.ty)) && AddVar(parent, FinishedVar(p)).Some?
    ensures Valid(GiveToParent(PopVariable(p), FinishedVar(p)))
  {
    TopMatches(p);
    PopVariableKeepsValid(p);
    var q := PopVariable(p);
    ParentOnTop(q);
    ParentAddsVariable(TopVar(q.bt), FinishedVar(p));
    ReplaceTop(q, AddVar(TopVar(q.bt), FinishedVar(p)).value);
  }

  lemma FinishKeepsValid(p: Parser, ty: Type)
    requires Valid(p) && IsVariableState(Top(p.s))
    ensures Valid(FinishVariable(p, ty))
  {
    PopVariableKeepsValid(p);
    FatalKeepsValid(PopVariable(p));
    ParentTakesVariable(p);
  }

  lemma RecordKeepsValid(p: Parser, value: string)
    requires Valid(p)
    ensures RecordAttr(p, value).thrown || Valid(RecordAttr(p, value))
  {
    assert |Below(p.at)| + 1 == |p.at|;
  }

  /** A tag closes only what is on top. */
  lemma ClosedOnTop(top: State, tag: Tag, foreign: bool)
    ensures var c := ClosingOf(top, tag, foreign);
            (c.ClosesSimple? || c.ClosesVariable? ==> IsVariableState(top)) &&
            (c.ClosesContainer? <==> top.InsideAttributeContainer? && tag == AttributeTag) &&
            (c.Leaves? || c.ClosesValue? || c.ClosesOtherXml? ==>
               !IsVariableState(top) && !top.InsideAttributeContainer? && !top.ParserStart?)
  {}

  lemma EndKeepsValid(p: Parser, tag: Tag, foreign: bool)
    requires Valid(p)
    ensures EndElement(p, tag, foreign).thrown || Valid(EndElement(p, tag, foreign))
  {
    TopMatches(p);
    ClosedOnTop(Top(p.s), tag, foreign);
    match ClosingOf(Top(p.s), tag, foreign)
    case Unexpected => FatalKeepsValid(p);
    case Leaves => PopKeepsValid(p);
    case ClosesContainer => CloseKeepsValid(p);
    case ClosesValue => PopKeepsValid(p); RecordKeepsValid(PopState(p), p.charData);
    case ClosesOtherXml => PopKeepsValid(p); RecordKeepsValid(PopState(p), p.otherXml);
    case ClosesForeign => FatalKeepsValid(p);
    case ClosesSimple => ParentTakesVariable(p);
    case ClosesVariable(ty) => FinishKeepsValid(p, ty);
    case Passed =>
  }

  lemma StepKeepsValid(p: Parser, e: Event)
    requires Valid(p)
    ensures Step(p, e).thrown || Valid(Step(p, e))
  {
    match e
    case Start(tag, attrs) => StartKeepsValid(p, tag, attrs);
    case End(tag, foreign) => EndKeepsValid(p, tag, foreign);
    case Chars(_) =>
    case IgnorableWhitespace(_) =>
    case Cdata(_) => FatalKeepsValid(p);
    case Complaint => FatalKeepsValid(p);
  }

  lemma {:induction false} ThrownStays(p: Parser, es: seq<Event>)
    requires p.thrown
    ensures Run(p, es) == p
    decreases |es|
  {
    if es != [] { ThrownStays(p, es[1..]); }
  }

  lemma {:induction false} RunKeepsValid(p: Parser, es: seq<Event>)
    requires Valid(p)
    ensures Run(p, es).thrown || Valid(Run(p, es))
    decreases |es|
  {
    if es != [] {
      StepKeepsValid(p, es[0]);
      if Step(p, es[0]).thrown {
        ThrownStays(Step(p, es[0]), es[1..]);
      } else {
        RunKeepsValid(Step(p, es[0]), es[1..]);
      }
    }
  }

  /** In every state any document can drive the machine into: the stacks match the states, and no state
      that will pop one of them finds it without an entry to pop and a parent below. */
  lemma EveryRunIsValid(es: seq<Event>)
    ensures var p := Run(Initial(), es);
            p.thrown ||
            (Valid(p) && (IsVariableState(Top(p.s)) ==> |p.bt| >= 2 && |p.at| >= 2) &&
             (Top(p.s).InsideAttributeContainer? ==> |p.at| >= 2))
  {
    InitialIsValid();
    RunKeepsValid(Initial(), es);
    var p := Run(Initial(), es);
    if !p.thrown { TopMatches(p); }
  }

  /** An accepted parse is back at the bottom of its stacks. */
  lemma AcceptedRunIsBalanced(es: seq<Event>)
    requires AcceptsDocument(es)
    ensures var p := Run(Initial(), es); p.s == [ParserStart] && |p.bt| == 1 && |p.at| == 1
  {
    InitialIsValid();
    RunKeepsValid(Initial(), es);
    BottomOfStacks(Run(Initial(), es));
  }

  /** No error was recorded at any point of an accepted parse. */
  lemma AcceptedRunIsClean(es: seq<Event>, k: nat)
    requires AcceptsDocument(es) && k <= |es|
    ensures !HasError(Run(Initial(), es[..k]).s)
  {
    AcceptedRunIsBalanced(es);
    assert es == es[..k] + es[k..];
    RunApart(Initial(), es[..k], es[k..]);
    ErrorReachesEnd(Run(Initial(), es[..k]), es[k..]);
  }

  // ---------------------------------------------------------------------------------------------
  // Aliases
  // ---------------------------------------------------------------------------------------------

  /** An Alias element without the attribute the parser looks for, outside the markup of OtherXML. */
  lemma AliasFails(p: Parser, attrs: map<Key, string>)
    requires AliasKey !in attrs && !Top(p.s).InsideOtherXml? && !Top(p.s).ParserUnknown? && !p.thrown
    ensures HasError(Step(p, Start(AliasTag, attrs)).s)
  {
    var q := Step(p, Start(AliasTag, attrs));
    match OpeningOf(Top(p.s), AliasTag)
    case Refused => assert q.s[|q.s| - 1] == ParserError;
    case OpensAlias =>
      var r := Require(p, attrs, NameKey);
      assert q.s == r.s + [ParserError] + [InsideAlias];
      assert q.s[|r.s|] == ParserError;
    case Ignored => assert p.s[|p.s| - 1] == ParserError;
    case _ =>
  }

  /** Aliases do not survive a round trip: the printer names the source with another XML attribute than the
      one the parser requires, so a document with a printed alias anywhere outside OtherXML is rejected. */
  lemma PrintedAliasIsRejected(es: seq<Event>, k: nat, name: string, source: string)
    requires k < |es| && es[k] == Start(AliasTag, map[NameKey := name, CapitalAliasKey := source])
    requires !Top(Run(Initial(), es[..k]).s).InsideOtherXml?
    ensures !AcceptsDocument(es)
  {
    var p := Run(Initial(), es[..k]);
    assert es == es[..k] + es[k..] && es[k..][1..] == es[k + 1..];
    RunApart(Initial(), es[..k], es[k..]);
    if p.thrown {
      ThrownStays(p, es[k..]);
    } else {
      EveryRunIsValid(es[..k]);
      TopMatches(p);
      AliasFails(p, map[NameKey := name, CapitalAliasKey := source]);
      ErrorReachesEnd(Step(p, es[k]), es[k + 1..]);
      if AcceptsDocument(es) {
        AcceptedRunIsBalanced(es);
      }
    }
  }
}
