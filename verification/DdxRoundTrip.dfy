/** Printing a dataset and parsing what was printed: the parser rebuilds the declarations of the dataset,
    however the character data is cut up and whatever white space stands between the elements. */
module DdxRoundTrip {
  import opened Wrappers
  import opened Text
  import opened Types
  import opened Attributes
  import opened Variables
  import opened DdxPrinter
  import opened DdxMachine
  import Writer = DdxWriter

  // ---------------------------------------------------------------------------------------------
  // From tokens to events
  // ---------------------------------------------------------------------------------------------

  predicate IsFiller(e: Event) {
    e.Chars? || e.IgnorableWhitespace?
  }

  /** Can a parser report the written tokens as these events? Text may stand between the tokens, and the
      text of a value may arrive in any number of chunks. Raw markup is not covered. */
  predicate Renders(ts: seq<Token>, es: seq<Event>)
    decreases |es|
  {
    if es == [] then ts == []
    else if IsFiller(es[0]) then Renders(ts, es[1..])
    else
      ts != [] &&
      match ts[0]
      case Open(tag, attrs) => es[0] == Start(tag, attrs) && Renders(ts[1..], es[1..])
      case Close(tag) => es[0] == End(tag, false) && Renders(ts[1..], es[1..])
      case Leaf(text) => es[0] == Start(ValueTag, map[]) && RendersValue(text, ts[1..], es[1..])
      case Raw(_) => false
  }

  predicate RendersValue(text: string, ts: seq<Token>, es: seq<Event>)
    decreases |es|
  {
    es != [] &&
    match es[0]
    case Chars(chunk) => chunk <= text && RendersValue(text[|chunk|..], ts, es[1..])
    case End(tag, foreign) => tag == ValueTag && !foreign && text == "" && Renders(ts, es[1..])
    case _ => false
  }

  /** In these states the machine takes character data into account. */
  predicate Listens(st: State) {
    st.InsideAttributeValue? || st.InsideOtherXml?
  }

  function StepToken(p: Parser, t: Token): Parser {
    match t
    case Open(tag, attrs) => Step(p, Start(tag, attrs))
    case Close(tag) => Step(p, End(tag, false))
    case Leaf(text) => Step(Step(Step(p, Start(ValueTag, map[])), Chars(text)), End(ValueTag, false))
    case Raw(text) => p
  }

  /** The machine fed with tokens; None if it throws, comes to listen between two of them, or meets raw
      markup. */
  function Read(p: Parser, ts: seq<Token>): Option<Parser>
    decreases |ts|
  {
    if p.thrown || Listens(Top(p.s)) then None
    else if ts == [] then Some(p)
    else if ts[0].Raw? then None
    else Read(StepToken(p, ts[0]), ts[1..])
  }

  lemma {:induction false} ReadApart(p: Parser, a: seq<Token>, b: seq<Token>)
    ensures Read(p, a + b) == match Read(p, a) case Some(q) => Read(q, b) case None => None
    decreases |a|
  {
    if a == [] {
      assert a + b == b;
    } else {
      assert (a + b)[1..] == a[1..] + b;
      if !p.thrown && !Listens(Top(p.s)) && !a[0].Raw? { ReadApart(StepToken(p, a[0]), a[1..], b); }
    }
  }

  /** Text in two chunks is text in one. */
  lemma CharactersAddUp(p: Parser, a: string, b: string)
    ensures Step(Step(p, Chars(a)), Chars(b)) == Step(p, Chars(a + b))
    ensures Step(p, Chars("")) == p
  {
    assert p.charData + a + b == p.charData + (a + b) && p.charData + "" == p.charData;
    assert p.otherXml + a + b == p.otherXml + (a + b) && p.otherXml + "" == p.otherXml;
  }

  /** Every rendering of the tokens drives the machine to the same state. */
  lemma {:induction false} ReadIsRun(p: Parser, ts: seq<Token>, es: seq<Event>)
    requires Renders(ts, es) && Read(p, ts).Some?
    ensures Run(p, es) == Read(p, ts).value
    decreases |es|
  {
    if es == [] {
    } else if IsFiller(es[0]) {
      assert Step(p, es[0]) == p;
      ReadIsRun(p, ts, es[1..]);
    } else if ts[0].Leaf? {
      ReadValueIsRun(Step(p, Start(ValueTag, map[])), ts[0].text, ts[1..], es[1..]);
    } else {
      ReadIsRun(StepToken(p, ts[0]), ts[1..], es[1..]);
    }
  }

  lemma {:induction false} ReadValueIsRun(q: Parser, text: string, ts: seq<Token>, es: seq<Event>)
    requires RendersValue(text, ts, es)
    requires Read(Step(Step(q, Chars(text)), End(ValueTag, false)), ts).Some?
    ensures Run(q, es) == Read(Step(Step(q, Chars(text)), End(ValueTag, false)), ts).value
    decreases |es|
  {
    match es[0]
    case Chars(chunk) =>
      assert text == chunk + text[|chunk|..];
      CharactersAddUp(q, chunk, text[|chunk|..]);
      ReadValueIsRun(Step(q, es[0]), text[|chunk|..], ts, es[1..]);
    case End(_, _) =>
      CharactersAddUp(q, "", "");
      ReadIsRun(Step(q, es[0]), ts, es[1..]);
  }

  /** The plainest rendering: one event for a tag, three for a value. */
  function Events(ts: seq<Token>): seq<Event> {
    if ts == [] then [] else
    (match ts[0]
     case Open(tag, attrs) => [Start(tag, attrs)]
     case Close(tag) => [End(tag, false)]
     case Leaf(text) => [Start(ValueTag, map[]), Chars(text), End(ValueTag, false)]
     case Raw(text) => [Chars(text)]) + Events(ts[1..])
  }

  lemma {:induction false} EventsRender(p: Parser, ts: seq<Token>)
    requires Read(p, ts).Some?
    ensures Renders(ts, Events(ts))
    decreases |ts|
  {
    if ts != [] {
      EventsRender(StepToken(p, ts[0]), ts[1..]);
      var es, rest := Events(ts), Events(ts[1..]);
      match ts[0]
      case Leaf(text) =>
        assert es[1..][1..][1..] == rest;
        assert RendersValue(text[|text|..], ts[1..], es[1..][1..]);
        assert RendersValue(text, ts[1..], es[1..]);
      case Open(_, _) => assert es[1..] == rest;
      case Close(_) => assert es[1..] == rest;
      case Raw(_) =>
    }
  }

  // ---------------------------------------------------------------------------------------------
  // Attribute tables
  // ---------------------------------------------------------------------------------------------

  /** Attributes that print and re-read: the names in a table are distinct and free of %20, there is no
      OtherXML, whose values are written as raw markup, and no alias. */
  predicate GoodTable(t: Table)
    decreases t, 1
  {
    DistinctNames(t) && GoodEntries(t)
  }

  predicate GoodEntries(t: Table)
    decreases t, 0
  {
    t == [] || (GoodEntry(t[0]) && GoodEntries(t[1..]))
  }

  predicate GoodEntry(e: Entry)
    decreases e
  {
    !Occurs(e.name, "%20") &&
    match e
    case Alias(_, _, _) => false
    case Plain(_, ty, _) => ty != AttrContainer && ty != AttrOtherXml
    case Container(_, entries) => GoodTable(entries)
  }

  /** What is left of a table after printing and parsing: attributes without values are gone. */
  function Kept(t: Table): Table {
    if t == [] then [] else KeptEntry(t[0]) + Kept(t[1..])
  }

  function KeptEntry(e: Entry): Table {
    match e
    case Alias(_, _, _) => []
    case Plain(_, _, values) => if values == [] then [] else [e]
    case Container(name, entries) => [Container(name, Kept(entries))]
  }

  /** Equality but for the name and the type of the attribute read last. */
  predicate SameBut(q: Parser, p: Parser) {
    q == p.(attrName := q.attrName, attrType := q.attrType)
  }

  predicate TakesAttribute(p: Parser) {
    !p.thrown && p.at != [] && p.charData == "" &&
    (Top(p.s).InsideDataset? || Top(p.s).InsideAttributeContainer? || Top(p.s).InsideSimpleType? ||
     Top(p.s).InsideArray? || Top(p.s).InsideStructure? || Top(p.s).InsideSequence?)
  }

  lemma SetTopTableTwice(p: Parser, t: Table, u: Table)
    requires p.at != []
    ensures TopTable(SetTopTable(p, t).at) == OpenTable(TopTable(p.at).name, t)
    ensures SetTopTable(SetTopTable(p, t), u) == SetTopTable(p, u)
    ensures SetTopTable(p, TopTable(p.at).table) == p
  {
    assert Below(SetTopTable(p, t).at) == Below(p.at);
    assert p.at == Below(p.at) + [TopTable(p.at)];
  }

  /** Reading a value element appends the value to the attribute being read. */
  lemma ReadValue(p: Parser, value: string)
    requires !p.thrown && p.charData == "" && Top(p.s).InsideAttribute?
    ensures StepToken(p, Leaf(value)) == RecordAttr(p, value)
  {
    var q := Step(p, Start(ValueTag, map[]));
    assert q == Push(p, InsideAttributeValue);
    var r := Step(q, Chars(value));
    assert r == q.(charData := value);
    assert Below(q.s) == p.s;
    assert Step(r, End(ValueTag, false)) == RecordAttr(PopState(r), value).(charData := "");
  }

  /** A value for an attribute that the table has last, or does not have yet. */
  lemma AppendToLast(t: Table, name: string, ty: AttrType, values: seq<string>, value: string)
    requires ty != AttrContainer && !Occurs(name, "%20") && !HasName(t, name)
    ensures AppendAttr(t, name, AttrTypeName(ty), value) == Some(t + [Plain(name, ty, [value])])
    ensures AppendAttr(t + [Plain(name, ty, values)], name, AttrTypeName(ty), value) ==
            Some(t + [Plain(name, ty, values + [value])])
  {
    DecodeNothing(name);
    AttrTypeOfName(ty);
    FindIsMembership(t, name);
    var u := t + [Plain(name, ty, values)];
    FirstIsUnique(u, name, |t|);
    assert u[|t| := Plain(name, ty, values + [value])] == t + [Plain(name, ty, values + [value])];
  }

  /** The table under construction with the attribute's values so far. */
  function WithValues(t: Table, name: string, ty: AttrType, values: seq<string>): Table {
    if values == [] then t else t + [Plain(name, ty, values)]
  }

  /** The parser within an attribute element, with the values read so far in the table on top. */
  predicate ReadingAttr(p: Parser, t: Table, ty: AttrType, done: seq<string>) {
    !p.thrown && p.at != [] && p.charData == "" && Top(p.s).InsideAttribute? &&
    ty != AttrContainer && !Occurs(p.attrName, "%20") && !HasName(t, p.attrName) &&
    p.attrType == AttrTypeName(ty) && TopTable(p.at).table == WithValues(t, p.attrName, ty, done)
  }

  lemma ReadOneValue(p: Parser, t: Table, ty: AttrType, done: seq<string>, value: string)
    requires ReadingAttr(p, t, ty, done)
    ensures StepToken(p, Leaf(value)) == SetTopTable(p, WithValues(t, p.attrName, ty, done + [value]))
    ensures ReadingAttr(SetTopTable(p, WithValues(t, p.attrName, ty, done + [value])), t, ty, done + [value])
  {
    ReadValue(p, value);
    AppendToLast(t, p.attrName, ty, done, value);
    assert [] + [value] == [value];
    SetTopTableTwice(p, WithValues(t, p.attrName, ty, done + [value]), []);
  }

  lemma AppendFirst<T>(a: seq<T>, b: seq<T>)
    requires b != []
    ensures a + [b[0]] + b[1..] == a + b
  {}

  lemma {:induction false} ReadValues(p: Parser, t: Table, ty: AttrType, done: seq<string>, values: seq<string>)
    requires ReadingAttr(p, t, ty, done)
    ensures Read(p, PrintValues(values)) == Some(SetTopTable(p, WithValues(t, p.attrName, ty, done + values)))
    decreases |values|, 0
  {
    if values == [] {
      SetTopTableTwice(p, [], []);
      assert done + values == done;
    } else {
      var u := WithValues(t, p.attrName, ty, done + [values[0]]);
      ReadOneValue(p, t, ty, done, values[0]);
      ReadCons(p, Leaf(values[0]), PrintValues(values[1..]));
      ReadMoreValues(p, SetTopTable(p, u), t, ty, done + [values[0]], values[1..]);
      AppendFirst(done, values);
    }
  }

  lemma ReadMoreValues(p: Parser, q: Parser, t: Table, ty: AttrType, done: seq<string>, values: seq<string>)
    requires p.at != [] && q == SetTopTable(p, WithValues(t, p.attrName, ty, done)) && ReadingAttr(q, t, ty, done)
    ensures Read(q, PrintValues(values)) == Some(SetTopTable(p, WithValues(t, p.attrName, ty, done + values)))
    decreases |values|, 1
  {
    ReadValues(q, t, ty, done, values);
    SetTopTableTwice(p, WithValues(t, p.attrName, ty, done), WithValues(t, p.attrName, ty, done + values));
  }

  lemma ReadCons(p: Parser, t: Token, ts: seq<Token>)
    requires !p.thrown && !Listens(Top(p.s)) && !t.Raw?
    ensures Read(p, [t] + ts) == Read(StepToken(p, t), ts)
  {
    assert ([t] + ts)[1..] == ts;
  }

  // ---------------------------------------------------------------------------------------------

  /** The start tag of a plain attribute. */
  lemma OpenAttribute(p: Parser, name: string, ty: AttrType)
    requires TakesAttribute(p) && ty != AttrContainer && ty != AttrOtherXml
    ensures var attrs := map[NameKey := name, TypeKey := AttrTypeName(ty)];
            Step(p, Start(AttributeTag, attrs)) ==
            p.(s := p.s + [InsideAttribute], attrName := name, attrType := AttrTypeName(ty))
  {
    var attrs := map[NameKey := name, TypeKey := AttrTypeName(ty)];
    assert Lookup(attrs, NameKey) == name && Lookup(attrs, TypeKey) == AttrTypeName(ty);
    PlainTypeNames(ty);
    assert OpeningOf(Top(p.s), AttributeTag) == OpensAttribute;
  }

  lemma PlainTypeNames(ty: AttrType)
    requires ty != AttrContainer && ty != AttrOtherXml
    ensures AttrTypeName(ty) != "Container" && AttrTypeName(ty) != "OtherXML"
  {
    AttrTypeOfName(ty);
    AttrTypeOfName(AttrContainer);
    AttrTypeOfName(AttrOtherXml);
  }

  lemma ReadPlain(p: Parser, e: Entry)
    requires TakesAttribute(p) && e.Plain? && GoodEntry(e) && !HasName(TopTable(p.at).table, e.name)
    ensures Read(p, PrintEntry(e)).Some?
    ensures SameBut(Read(p, PrintEntry(e)).value, SetTopTable(p, TopTable(p.at).table + KeptEntry(e)))
  {
    var t := TopTable(p.at).table;
    OpenAttribute(p, e.name, e.ty);
    var q := p.(s := p.s + [InsideAttribute], attrName := e.name, attrType := AttrTypeName(e.ty));
    ReadValues(q, t, e.ty, [], e.values);
    assert [] + e.values == e.values;
    var r := SetTopTable(q, WithValues(t, e.name, e.ty, e.values));
    assert Below(q.s) == p.s;
    assert Step(r, End(AttributeTag, false)) == PopState(r);
    ReadParts(p, Open(AttributeTag, map[NameKey := e.name, TypeKey := AttrTypeName(e.ty)]), PrintValues(e.values),
              Close(AttributeTag), q, r, PopState(r));
    assert t + KeptEntry(e) == WithValues(t, e.name, e.ty, e.values);
  }

  /** Reading an element: its start tag, its content, its end tag. */
  lemma ReadParts(p: Parser, first: Token, body: seq<Token>, last: Token, q: Parser, r: Parser, done: Parser)
    requires !p.thrown && !Listens(Top(p.s)) && !done.thrown && !Listens(Top(done.s)) && !first.Raw? && !last.Raw?
    requires StepToken(p, first) == q && Read(q, body) == Some(r) && StepToken(r, last) == done
    ensures Read(p, [first] + body + [last]) == Some(done)
  {
    ReadAround(p, first, body, last);
    ReadEndsQuiet(q, body);
    ReadLast(r, last);
  }

  lemma {:induction false} ReadEndsQuiet(p: Parser, ts: seq<Token>)
    requires Read(p, ts).Some?
    ensures !Read(p, ts).value.thrown && !Listens(Top(Read(p, ts).value.s))
    decreases |ts|
  {
    if ts != [] { ReadEndsQuiet(StepToken(p, ts[0]), ts[1..]); }
  }

  lemma ReadAround(p: Parser, first: Token, body: seq<Token>, last: Token)
    requires !p.thrown && !Listens(Top(p.s)) && !first.Raw? && Read(StepToken(p, first), body).Some?
    ensures Read(p, [first] + body + [last]) == Read(Read(StepToken(p, first), body).value, [last])
  {
    ReadCons(p, first, body + [last]);
    assert [first] + body + [last] == [first] + (body + [last]);
    ReadApart(StepToken(p, first), body, [last]);
  }

  lemma ReadLast(p: Parser, t: Token)
    requires !p.thrown && !Listens(Top(p.s)) && !t.Raw?
    requires var q := StepToken(p, t); !q.thrown && !Listens(Top(q.s))
    ensures Read(p, [t]) == Some(StepToken(p, t))
  {
    assert [t][1..] == [];
  }

  lemma OpenContainer(p: Parser, name: string)
    requires TakesAttribute(p) && !Occurs(name, "%20") && !HasName(TopTable(p.at).table, name)
    ensures var attrs := map[NameKey := name, TypeKey := AttrTypeName(AttrContainer)];
            Step(p, Start(AttributeTag, attrs)) ==
            p.(s := p.s + [InsideAttributeContainer], at := p.at + [OpenTable(name, [])])
  {
    var attrs := map[NameKey := name, TypeKey := AttrTypeName(AttrContainer)];
    assert Lookup(attrs, NameKey) == name && Lookup(attrs, TypeKey) == "Container";
    DecodeNothing(name);
    FindIsMembership(TopTable(p.at).table, name);
    assert OpeningOf(Top(p.s), AttributeTag) == OpensAttribute;
  }

  /** The end tag of a container that was opened from p and has been filled. */
  lemma CloseFilledContainer(p: Parser, r: Parser, name: string, entries: Table)
    requires TakesAttribute(p)
    requires SameBut(r, p.(s := p.s + [InsideAttributeContainer], at := p.at + [OpenTable(name, entries)]))
    ensures SameBut(Step(r, End(AttributeTag, false)),
                    SetTopTable(p, TopTable(p.at).table + [Container(name, entries)]))
  {
    assert Below(r.s) == p.s && Below(r.at) == p.at;
    assert Step(r, End(AttributeTag, false)) == CloseContainer(r);
  }

  lemma {:induction false} ReadContainer(p: Parser, e: Entry)
    requires TakesAttribute(p) && e.Container? && GoodEntry(e) && !HasName(TopTable(p.at).table, e.name)
    ensures Read(p, PrintEntry(e)).Some?
    ensures SameBut(Read(p, PrintEntry(e)).value, SetTopTable(p, TopTable(p.at).table + KeptEntry(e)))
    decreases e, 0
  {
    OpenContainer(p, e.name);
    var q := p.(s := p.s + [InsideAttributeContainer], at := p.at + [OpenTable(e.name, [])]);
    ReadTable(q, e.entries);
    var r := Read(q, PrintTable(e.entries)).value;
    assert Below(q.at) == p.at && [] + Kept(e.entries) == Kept(e.entries);
    assert SetTopTable(q, [] + Kept(e.entries)).at == p.at + [OpenTable(e.name, Kept(e.entries))];
    CloseFilledContainer(p, r, e.name, Kept(e.entries));
    ReadParts(p, Open(AttributeTag, map[NameKey := e.name, TypeKey := AttrTypeName(AttrContainer)]),
              PrintTable(e.entries), Close(AttributeTag), q, r, Step(r, End(AttributeTag, false)));
  }

  predicate NoneIn(u: Table, t: Table) {
    forall i :: 0 <= i < |t| ==> !HasName(u, t[i].name)
  }

  lemma NoneInRest(u: Table, t: Table)
    requires t != [] && DistinctNames(t) && NoneIn(u, t)
    ensures NoneIn(u + KeptEntry(t[0]), t[1..]) && DistinctNames(t[1..])
  {
    forall i | 0 <= i < |t[1..]| ensures !HasName(u + KeptEntry(t[0]), t[1..][i].name) {
      assert t[0].name != t[i + 1].name && !HasName(u, t[i + 1].name);
    }
  }

  /** Reading a printed table adds its entries to the table on top, in order. */
  lemma {:induction false} ReadTable(p: Parser, t: Table)
    requires TakesAttribute(p) && GoodTable(t) && NoneIn(TopTable(p.at).table, t)
    ensures Read(p, PrintTable(t)).Some?
    ensures SameBut(Read(p, PrintTable(t)).value, SetTopTable(p, TopTable(p.at).table + Kept(t)))
    decreases t, 1
  {
    var u := TopTable(p.at).table;
    if t == [] {
      assert u + Kept(t) == u;
      SetTopTableTwice(p, u, u);
    } else {
      assert GoodEntry(t[0]);
      if t[0].Container? { ReadContainer(p, t[0]); } else { ReadPlain(p, t[0]); }
      var q := Read(p, PrintEntry(t[0])).value;
      NoneInRest(u, t);
      ReadRest(p, q, u + KeptEntry(t[0]), t[1..]);
      ReadApart(p, PrintEntry(t[0]), PrintTable(t[1..]));
      assert u + KeptEntry(t[0]) + Kept(t[1..]) == u + Kept(t);
    }
  }

  lemma {:induction false} ReadRest(p: Parser, q: Parser, u: Table, t: Table)
    requires TakesAttribute(p) && SameBut(q, SetTopTable(p, u)) && GoodTable(t) && NoneIn(u, t)
    ensures Read(q, PrintTable(t)).Some?
    ensures SameBut(Read(q, PrintTable(t)).value, SetTopTable(p, u + Kept(t)))
    decreases t, 2
  {
    ReadTable(q, t);
    SetTopTableTwice(p, u, u + Kept(t));
  }

  // ---------------------------------------------------------------------------------------------
  // Variables
  // ---------------------------------------------------------------------------------------------

  /** A name without WWW escapes, such as any name without a percent sign. */
  predicate Unescaped(name: string) {
    Www2id(name, 0) == name
  }

  /** Variables that print and re-read: scalars, Structures, Sequences, and Arrays of any of these whose
      element template goes by the name of the array. */
  predicate GoodVar(v: Var)
    decreases v
  {
    InFactory(v.ty) && !v.ty.Grid? && GoodTable(v.attrs) && GoodVars(v.kids) &&
    if v.ty.ArrayType? then GoodArray(v)
    else v.dims == [] && (IsSimple(v.ty) ==> v.kids == []) && Named(v.kids)
  }

  predicate GoodVars(vs: seq<Var>)
    decreases vs
  {
    vs == [] || (GoodVar(vs[0]) && GoodVars(vs[1..]))
  }

  predicate Named(vs: seq<Var>) {
    forall i :: 0 <= i < |vs| ==> vs[i].name != ""
  }

  predicate GoodArray(v: Var) {
    |v.kids| == 1 && !v.kids[0].ty.ArrayType? && v.kids[0].name == v.name && Unescaped(v.name) &&
    v.dims != [] && forall i :: 0 <= i < |v.dims| ==> Unescaped(v.dims[i].name)
  }

  /** What is left of a variable after printing and parsing. */
  function Reread(v: Var): Var {
    Var(v.ty, v.name, false, Kept(v.attrs), Rereads(v.kids), BareDimensions(v.dims), NoValue)
  }

  function Rereads(vs: seq<Var>): seq<Var> {
    if vs == [] then [] else [Reread(vs[0])] + Rereads(vs[1..])
  }

  /** The machine within a variable or the dataset, about to read a variable there. */
  predicate TakesVar(p: Parser) {
    !p.thrown && p.charData == "" && p.bt != [] && p.at != [] &&
    (Top(p.s).InsideDataset? || Top(p.s).InsideStructure? || Top(p.s).InsideSequence?) &&
    (TopVar(p.bt).ty.Structure? || TopVar(p.bt).ty.Sequence?)
  }

  predicate TakesTemplate(p: Parser) {
    !p.thrown && p.charData == "" && p.bt != [] && p.at != [] &&
    Top(p.s).InsideArray? && TopVar(p.bt).ty.ArrayType?
  }

  /** The machine that has read part of a variable inside p. */
  function Within(p: Parser, st: State, v: Var, t: Table): Parser {
    p.(s := p.s + [st], bt := p.bt + [v], at := p.at + [OpenTable("", t)])
  }

  lemma WithinParts(p: Parser, st: State, v: Var, t: Table)
    ensures var q := Within(p, st, v, t);
            Top(q.s) == st && TopVar(q.bt) == v && TopTable(q.at) == OpenTable("", t) &&
            Below(q.s) == p.s && Below(q.bt) == p.bt && Below(q.at) == p.at
  {}

  lemma SetWithin(p: Parser, q: Parser, st: State, v: Var, t: Table, w: Var, u: Table)
    requires SameBut(q, Within(p, st, v, t))
    ensures SameBut(SetTopVar(q, w), Within(p, st, w, t))
    ensures SameBut(SetTopTable(q, u), Within(p, st, v, u))
  {
    WithinParts(p, st, v, t);
  }

  lemma OpenVar(p: Parser, v: Var, template: bool)
    requires if template then TakesTemplate(p) && !v.ty.ArrayType? else TakesVar(p) && v.name != ""
    requires InFactory(v.ty)
    ensures var name := if template then "" else v.name;
            Step(p, Start(TypeTag(v.ty), NameAttr(name))) == Within(p, StateOfType(v.ty), NewVar(v.ty, name), [])
  {
    var name := if template then "" else v.name;
    assert Lookup(NameAttr(name), NameKey) == name;
    assert OpeningOf(Top(p.s), TypeTag(v.ty)) == OpensVariable(v.ty, StateOfType(v.ty));
  }

  lemma DimensionStart(p: Parser, d: Dimension)
    requires TakesTemplate(p) && Unescaped(d.name)
    ensures var v := TopVar(p.bt);
            Step(p, Start(DimensionTag, NameAttr(d.name)[SizeKey := Decimal(d.size)])) ==
            SetTopVar(Push(p, InsideDimension), v.(dims := v.dims + [NewDimension(d.size, d.name)]))
  {
    var attrs := NameAttr(d.name)[SizeKey := Decimal(d.size)];
    assert Lookup(attrs, NameKey) == d.name && Lookup(attrs, SizeKey) == Decimal(d.size);
    AtoiInvertsDecimal(d.size);
    assert OpeningOf(InsideArray, DimensionTag) == OpensDimension;
  }

  lemma DimensionEnd(p: Parser, v: Var)
    requires !p.thrown
    ensures Step(SetTopVar(Push(p, InsideDimension), v), End(DimensionTag, false)) == SetTopVar(p, v)
  {
    assert Below(p.s + [InsideDimension]) == p.s;
    assert ClosingOf(InsideDimension, DimensionTag, false) == Leaves;
  }

  lemma ReadDimension(p: Parser, d: Dimension)
    requires TakesTemplate(p) && Unescaped(d.name)
    ensures Read(p, PrintDimension(d, false)) ==
            Some(SetTopVar(p, TopVar(p.bt).(dims := TopVar(p.bt).dims + [NewDimension(d.size, d.name)])))
  {
    var attrs := NameAttr(d.name)[SizeKey := Decimal(d.size)];
    var w := TopVar(p.bt).(dims := TopVar(p.bt).dims + [NewDimension(d.size, d.name)]);
    DimensionStart(p, d);
    DimensionEnd(p, w);
    var q := SetTopVar(Push(p, InsideDimension), w);
    assert Read(q, []) == Some(q);
    ReadParts(p, Open(DimensionTag, attrs), [], Close(DimensionTag), q, q, SetTopVar(p, w));
    assert [Open(DimensionTag, attrs)] + [] + [Close(DimensionTag)] == PrintDimension(d, false);
  }

  lemma SetTopVarTwice(p: Parser, v: Var, w: Var)
    requires p.bt != []
    ensures TopVar(SetTopVar(p, v).bt) == v
    ensures SetTopVar(SetTopVar(p, v), w) == SetTopVar(p, w)
    ensures SetTopVar(p, TopVar(p.bt)) == p
  {
    assert Below(SetTopVar(p, v).bt) == Below(p.bt);
    assert p.bt == Below(p.bt) + [TopVar(p.bt)];
  }

  lemma BareDimensionsApart(ds: seq<Dimension>)
    requires ds != []
    ensures BareDimensions(ds) == [NewDimension(ds[0].size, ds[0].name)] + BareDimensions(ds[1..])
  {}

  lemma {:induction false} ReadDimensions(p: Parser, ds: seq<Dimension>)
    requires TakesTemplate(p) && forall i :: 0 <= i < |ds| ==> Unescaped(ds[i].name)
    ensures Read(p, PrintDimensions(ds, false)) ==
            Some(SetTopVar(p, TopVar(p.bt).(dims := TopVar(p.bt).dims + BareDimensions(ds))))
    decreases |ds|
  {
    var v := TopVar(p.bt);
    if ds == [] {
      assert v.dims + BareDimensions(ds) == v.dims;
      SetTopVarTwice(p, v, v);
    } else {
      ReadDimension(p, ds[0]);
      var w := v.(dims := v.dims + [NewDimension(ds[0].size, ds[0].name)]);
      ReadApart(p, PrintDimension(ds[0], false), PrintDimensions(ds[1..], false));
      BareDimensionsApart(ds);
      Associates(v.dims, [NewDimension(ds[0].size, ds[0].name)], BareDimensions(ds[1..]));
      SetTopVarTwice(p, w, v.(dims := v.dims + BareDimensions(ds)));
      ReadDimensions(SetTopVar(p, w), ds[1..]);
    }
  }

  /** What the parent looks like once it has taken the variable. */
  function Taken(parent: Var, v: Var, template: bool): Var {
    if template then parent.(kids := [v]) else parent.(kids := parent.kids + [v])
  }

  predicate Takes(p: Parser, v: Var, template: bool) {
    if template then TakesTemplate(p) && !v.ty.ArrayType? && v.name == TopVar(p.bt).name && Unescaped(v.name)
    else TakesVar(p) && v.name != ""
  }

  /** The parent's add_var gives an unnamed template the name of the array. */
  lemma ParentTakes(parent: Var, v: Var, template: bool)
    requires if template then parent.ty.ArrayType? && !v.ty.ArrayType? && v.name == parent.name && Unescaped(v.name)
             else parent.ty.Structure? || parent.ty.Sequence?
    ensures AddVar(parent, v.(name := if template then "" else v.name)) == Some(Taken(parent, v, template))
  {}

  lemma FinishedWithin(p: Parser, q: Parser, st: State, v: Var, t: Table)
    requires SameBut(q, Within(p, st, v, t))
    ensures FinishedVar(q) == v.(attrs := t) && SameBut(PopVariable(q), p)
  {
    WithinParts(p, st, v, t);
  }

  lemma GiveTaken(p: Parser, q: Parser, v: Var, template: bool)
    requires Takes(p, v, template) && SameBut(q, p)
    ensures var name := if template then "" else v.name;
            SameBut(GiveToParent(q, v.(name := name)), SetTopVar(p, Taken(TopVar(p.bt), v, template)))
  {
    ParentTakes(TopVar(p.bt), v, template);
  }

  /** The end tag of a variable that has been read completely. */
  lemma CloseVar(p: Parser, q: Parser, v: Var, template: bool)
    requires Takes(p, v, template) && GoodVar(v)
    requires var name := if template then "" else v.name;
             SameBut(q, Within(p, StateOfType(v.ty), Reread(v).(name := name, attrs := []), Kept(v.attrs)))
    ensures SameBut(Step(q, End(TypeTag(v.ty), false)), SetTopVar(p, Taken(TopVar(p.bt), Reread(v), template)))
  {
    var name := if template then "" else v.name;
    var st, w := StateOfType(v.ty), Reread(v).(name := name, attrs := []);
    WithinParts(p, st, w, Kept(v.attrs));
    FinishedWithin(p, q, st, w, Kept(v.attrs));
    assert w.(attrs := Kept(v.attrs)) == Reread(v).(name := name);
    GiveTaken(p, PopVariable(q), Reread(v), template);
    CloseFinished(q, v.ty);
  }

  lemma CloseFinished(q: Parser, ty: Type)
    requires InFactory(ty) && Top(q.s) == StateOfType(ty) && FinishedVar(q).ty == ty && !q.thrown
    requires ty.ArrayType? ==> FinishedVar(q).dims != []
    ensures Step(q, End(TypeTag(ty), false)) == GiveToParent(PopVariable(q), FinishedVar(q))
  {
    ClosingOfVar(ty);
  }

  lemma ClosingOfVar(ty: Type)
    requires InFactory(ty)
    ensures ClosingOf(StateOfType(ty), TypeTag(ty), false) == if IsSimple(ty) then ClosesSimple else ClosesVariable(ty)
  {}

  /** Reading a printed variable adds what is left of it to the variable on top. */
  lemma {:induction false} ReadVar(p: Parser, v: Var, template: bool)
    requires Takes(p, v, template) && GoodVar(v)
    ensures Read(p, PrintVar(v, template, false)).Some?
    ensures SameBut(Read(p, PrintVar(v, template, false)).value,
                    SetTopVar(p, Taken(TopVar(p.bt), Reread(v), template)))
    decreases v, 2
  {
    var name, st := if template then "" else v.name, StateOfType(v.ty);
    OpenVar(p, v, template);
    var q0 := Within(p, st, NewVar(v.ty, name), []);
    var q1 := ReadAttrs(p, q0, st, NewVar(v.ty, name), v.attrs);
    var q2 := ReadKids(p, q1, v, template);
    var q3 := ReadShape(p, q2, v, name);
    CloseVar(p, q3, v, template);
    var attrs, kids := PrintTable(v.attrs), PrintVars(v.kids, v.ty == ArrayType, false);
    var dims := if v.ty == ArrayType then PrintDimensions(v.dims, false) else [];
    ReadThree(q0, attrs, kids, dims);
    ReadParts(p, Open(TypeTag(v.ty), NameAttr(name)), attrs + kids + dims, Close(TypeTag(v.ty)), q0, q3,
              Step(q3, End(TypeTag(v.ty), false)));
    Regroup([Open(TypeTag(v.ty), NameAttr(name))], attrs, kids, dims, [Close(TypeTag(v.ty))]);
  }

  lemma Regroup<T>(a: seq<T>, b: seq<T>, c: seq<T>, d: seq<T>, e: seq<T>)
    ensures a + (b + c + d) + e == a + b + c + d + e
  {}

  lemma ReadThree(p: Parser, a: seq<Token>, b: seq<Token>, c: seq<Token>)
    requires Read(p, a).Some? && Read(Read(p, a).value, b).Some?
    ensures Read(p, a + b + c) == Read(Read(Read(p, a).value, b).value, c)
  {
    ReadApart(p, a + b, c);
    ReadApart(p, a, b);
  }

  lemma ReadAttrs(p: Parser, q0: Parser, st: State, v: Var, attrs: Table) returns (q1: Parser)
    requires !p.thrown && p.charData == "" && GoodTable(attrs)
    requires st.InsideSimpleType? || st.InsideArray? || st.InsideStructure? || st.InsideSequence?
    requires q0 == Within(p, st, v, [])
    ensures Read(q0, PrintTable(attrs)) == Some(q1) && SameBut(q1, Within(p, st, v, Kept(attrs)))
  {
    WithinParts(p, st, v, []);
    ReadTable(q0, attrs);
    q1 := Read(q0, PrintTable(attrs)).value;
    assert [] + Kept(attrs) == Kept(attrs);
  }

  lemma {:induction false} ReadKids(p: Parser, q1: Parser, v: Var, template: bool) returns (q2: Parser)
    requires Takes(p, v, template) && GoodVar(v)
    requires var name := if template then "" else v.name;
             SameBut(q1, Within(p, StateOfType(v.ty), NewVar(v.ty, name), Kept(v.attrs)))
    ensures Read(q1, PrintVars(v.kids, v.ty == ArrayType, false)) == Some(q2)
    ensures var name := if template then "" else v.name;
            SameBut(q2, Within(p, StateOfType(v.ty), NewVar(v.ty, name).(kids := Rereads(v.kids)), Kept(v.attrs)))
    decreases v, 1
  {
    var name, st := if template then "" else v.name, StateOfType(v.ty);
    var u := NewVar(v.ty, name);
    WithinParts(p, st, u, Kept(v.attrs));
    if v.ty.ArrayType? {
      ReadVar(q1, v.kids[0], true);
      OneTemplate(q1, v.kids);
    } else if IsSimple(v.ty) {
      SetTopVarTwice(q1, u, u);
    } else {
      ReadFields(q1, v.kids);
      assert [] + Rereads(v.kids) == Rereads(v.kids);
    }
    q2 := Read(q1, PrintVars(v.kids, v.ty == ArrayType, false)).value;
    SetWithin(p, q1, st, u, Kept(v.attrs), u.(kids := Rereads(v.kids)), []);
  }

  lemma OneTemplate(q: Parser, vs: seq<Var>)
    requires |vs| == 1
    ensures PrintVars(vs, true, false) == PrintVar(vs[0], true, false)
    ensures Rereads(vs) == [Reread(vs[0])]
  {
    assert PrintVars(vs[1..], true, false) == [];
  }

  lemma ReadShape(p: Parser, q2: Parser, v: Var, name: string) returns (q3: Parser)
    requires !p.thrown && p.charData == "" && GoodVar(v)
    requires SameBut(q2, Within(p, StateOfType(v.ty), NewVar(v.ty, name).(kids := Rereads(v.kids)), Kept(v.attrs)))
    ensures Read(q2, if v.ty == ArrayType then PrintDimensions(v.dims, false) else []) == Some(q3)
    ensures SameBut(q3, Within(p, StateOfType(v.ty), Reread(v).(name := name, attrs := []), Kept(v.attrs)))
  {
    var st, u := StateOfType(v.ty), NewVar(v.ty, name).(kids := Rereads(v.kids));
    WithinParts(p, st, u, Kept(v.attrs));
    if v.ty.ArrayType? {
      ReadDimensions(q2, v.dims);
      assert [] + BareDimensions(v.dims) == BareDimensions(v.dims);
      SetWithin(p, q2, st, u, Kept(v.attrs), Reread(v).(name := name, attrs := []), []);
      q3 := SetTopVar(q2, Reread(v).(name := name, attrs := []));
    } else {
      q3 := q2;
      assert u == Reread(v).(name := name, attrs := []);
    }
  }

  lemma {:induction false} ReadFields(p: Parser, vs: seq<Var>)
    requires TakesVar(p) && GoodVars(vs) && Named(vs)
    ensures Read(p, PrintVars(vs, false, false)).Some?
    ensures SameBut(Read(p, PrintVars(vs, false, false)).value,
                    SetTopVar(p, TopVar(p.bt).(kids := TopVar(p.bt).kids + Rereads(vs))))
    decreases vs, 1
  {
    var parent := TopVar(p.bt);
    if vs == [] {
      assert parent.kids + Rereads(vs) == parent.kids;
      SetTopVarTwice(p, parent, parent);
    } else {
      ReadVar(p, vs[0], false);
      var q := Read(p, PrintVar(vs[0], false, false)).value;
      ReadMoreFields(p, q, parent.(kids := parent.kids + [Reread(vs[0])]), vs[1..]);
      ReadApart(p, PrintVar(vs[0], false, false), PrintVars(vs[1..], false, false));
      Associates(parent.kids, [Reread(vs[0])], Rereads(vs[1..]));
    }
  }

  lemma {:induction false} ReadMoreFields(p: Parser, q: Parser, parent: Var, vs: seq<Var>)
    requires TakesVar(p) && SameBut(q, SetTopVar(p, parent)) && GoodVars(vs) && Named(vs)
    requires parent.ty == TopVar(p.bt).ty
    ensures Read(q, PrintVars(vs, false, false)).Some?
    ensures SameBut(Read(q, PrintVars(vs, false, false)).value,
                    SetTopVar(p, parent.(kids := parent.kids + Rereads(vs))))
    decreases vs, 2
  {
    SetTopVarTwice(p, parent, parent.(kids := parent.kids + Rereads(vs)));
    ReadFields(q, vs);
  }

  // ---------------------------------------------------------------------------------------------
  // Datasets
  // ---------------------------------------------------------------------------------------------

  predicate GoodDataset(d: Dataset) {
    GoodTable(d.attrs) && GoodVars(d.vars) && Named(d.vars)
  }

  /** Such a dataset can be written, under any constraint: no part of it stops the printer. */
  lemma GoodDatasetIsPrintable(d: Dataset, constrained: bool)
    requires GoodDataset(d)
    ensures Writer.Printable(d.attrs) && Writer.PrintableVars(d.vars, constrained)
  {
    GoodEntriesArePrintable(d.attrs);
    GoodVarsArePrintable(d.vars, constrained);
  }

  lemma {:induction false} GoodEntriesArePrintable(t: Table)
    requires GoodEntries(t)
    ensures Writer.Printable(t)
    decreases t
  {
    if t != [] {
      GoodEntriesArePrintable(t[1..]);
      match t[0]
      case Alias(_, _, _) =>
      case Plain(_, _, _) =>
      case Container(_, entries) =>
        assert GoodTable(entries);
        GoodEntriesArePrintable(entries);
    }
  }

  lemma {:induction false} GoodVarsArePrintable(vs: seq<Var>, constrained: bool)
    requires GoodVars(vs)
    ensures Writer.PrintableVars(vs, constrained)
    decreases vs
  {
    if vs != [] {
      GoodEntriesArePrintable(vs[0].attrs);
      GoodVarsArePrintable(vs[0].kids, constrained);
      GoodVarsArePrintable(vs[1..], constrained);
    }
  }

  function RereadDataset(d: Dataset): Dataset {
    Dataset(d.name, Kept(d.attrs), Rereads(d.vars))
  }

  /** The machine right after the start tag of the document. */
  function AfterRoot(name: string, version: Version): Parser {
    Initial().(s := [ParserStart, InsideDataset], datasetName := name,
               dapVersion := if version == Dap2 then "" else "3.2")
  }

  lemma OpenRoot(name: string, version: Version)
    ensures Step(Initial(), Start(DatasetTag, DatasetAttrs(name, version))) == AfterRoot(name, version)
  {
    var attrs := DatasetAttrs(name, version);
    assert Lookup(attrs, NameKey) == name;
    assert OpeningOf(ParserStart, DatasetTag) == OpensRoot;
  }

  lemma BlobEvents(p: Parser, tag: Tag, href: string)
    requires !p.thrown && Top(p.s).InsideDataset? && (tag.BlobTag? || tag.DataBlobTag?)
    ensures var q := p.(s := p.s + [InsideBlobHref], blobHref := href);
            Step(p, Start(tag, map[HrefKey := href])) == q && Step(q, End(tag, false)) == p.(blobHref := href)
  {
    assert Lookup(map[HrefKey := href], HrefKey) == href;
    assert OpeningOf(InsideDataset, tag) == OpensBlob;
    assert ClosingOf(InsideBlobHref, tag, false) == Leaves;
    assert Below(p.s + [InsideBlobHref]) == p.s;
  }

  lemma ReadBlobElement(p: Parser, tag: Tag, href: string)
    requires !p.thrown && Top(p.s).InsideDataset? && (tag.BlobTag? || tag.DataBlobTag?)
    ensures Read(p, [Open(tag, map[HrefKey := href])] + [] + [Close(tag)]) == Some(p.(blobHref := href))
  {
    BlobEvents(p, tag, href);
    var q := p.(s := p.s + [InsideBlobHref], blobHref := href);
    assert Read(q, []) == Some(q);
    ReadParts(p, Open(tag, map[HrefKey := href]), [], Close(tag), q, q, p.(blobHref := href));
  }

  lemma ReadBlob(p: Parser, version: Version, blob: string)
    requires !p.thrown && Top(p.s).InsideDataset?
    ensures Read(p, PrintBlob(version, blob)) == Some(p.(blobHref := BlobReference(version, blob)))
  {
    var tag, href := if version == Dap2 then DataBlobTag else BlobTag, BlobReference(version, blob);
    ReadBlobElement(p, tag, href);
    assert [Open(tag, map[HrefKey := href])] + [] + [Close(tag)] == PrintBlob(version, blob);
  }

  /** The dataset's own table and its variables, read on top of each other. */
  lemma ReadDatasetBody(d: Dataset, version: Version, blob: string) returns (r: Parser)
    requires GoodDataset(d)
    ensures Read(AfterRoot(d.name, version), PrintTable(d.attrs) + PrintVars(d.vars, false, false) + PrintBlob(version, blob)) ==
            Some(r)
    ensures !r.thrown && r.s == [ParserStart, InsideDataset]
    ensures Result(r) == RereadDataset(d) && r.blobHref == BlobReference(version, blob)
  {
    var p := AfterRoot(d.name, version);
    ReadTable(p, d.attrs);
    var q := Read(p, PrintTable(d.attrs)).value;
    assert [] + Kept(d.attrs) == Kept(d.attrs);
    assert q.at == [OpenTable("", Kept(d.attrs))];
    ReadFields(q, d.vars);
    var q' := Read(q, PrintVars(d.vars, false, false)).value;
    assert [] + Rereads(d.vars) == Rereads(d.vars);
    ReadBlob(q', version, blob);
    ReadThree(p, PrintTable(d.attrs), PrintVars(d.vars, false, false), PrintBlob(version, blob));
    r := q'.(blobHref := BlobReference(version, blob));
  }

  lemma ReadDataset(d: Dataset, version: Version, blob: string) returns (r: Parser)
    requires GoodDataset(d)
    ensures Read(Initial(), PrintDataset(d, version, blob, false)) == Some(r)
    ensures Accepts(r) && Result(r) == RereadDataset(d) && r.blobHref == BlobReference(version, blob)
  {
    var first, last := Open(DatasetTag, DatasetAttrs(d.name, version)), Close(DatasetTag);
    var attrs, vars, ref := PrintTable(d.attrs), PrintVars(d.vars, false, false), PrintBlob(version, blob);
    OpenRoot(d.name, version);
    var q := ReadDatasetBody(d, version, blob);
    r := Step(q, End(DatasetTag, false));
    assert r == q.(s := [ParserStart]);
    ReadParts(Initial(), first, attrs + vars + ref, last, AfterRoot(d.name, version), q, r);
    Regroup([first], attrs, vars, ref, [last]);
  }

  /** Parsing what was printed is accepted and rebuilds the dataset: the same variables, dimensions and
      attribute tables in the same order, but for attributes without values. */
  lemma RoundTrip(d: Dataset, version: Version, blob: string, es: seq<Event>)
    requires GoodDataset(d) && Renders(PrintDataset(d, version, blob, false), es)
    ensures AcceptsDocument(es)
    ensures Result(Run(Initial(), es)) == RereadDataset(d)
    ensures Run(Initial(), es).blobHref == BlobReference(version, blob)
  {
    var r := ReadDataset(d, version, blob);
    ReadIsRun(Initial(), PrintDataset(d, version, blob, false), es);
  }

  /** There is such a rendering of every dataset. */
  lemma DatasetRenders(d: Dataset, version: Version, blob: string)
    requires GoodDataset(d)
    ensures var ts := PrintDataset(d, version, blob, false); Renders(ts, Events(ts))
  {
    var r := ReadDataset(d, version, blob);
    EventsRender(Initial(), PrintDataset(d, version, blob, false));
  }

  // ---------------------------------------------------------------------------------------------
  // What gets lost, and projections
  // ---------------------------------------------------------------------------------------------

  /** Every attribute has a value, and there is no alias. */
  predicate HasValues(t: Table) {
    t == [] ||
    ((match t[0]
      case Plain(_, _, values) => values != []
      case Container(_, entries) => HasValues(entries)
      case Alias(_, _, _) => false) &&
     HasValues(t[1..]))
  }

  lemma {:induction false} KeptIff(t: Table)
    ensures |Kept(t)| <= |t|
    ensures Kept(t) == t <==> HasValues(t)
  {
    if t != [] {
      KeptIff(t[1..]);
      match t[0] {
        case Alias(_, _, _) => assert |Kept(t)| < |t|;
        case Plain(_, _, values) =>
          if values != [] { assert Kept(t)[1..] == Kept(t[1..]); } else { assert |Kept(t)| < |t|; }
        case Container(name, entries) =>
          KeptIff(entries);
          assert Kept(t)[1..] == Kept(t[1..]) && Kept(t)[0] == Container(name, Kept(entries));
      }
    }
  }

  predicate AllHaveValues(v: Var)
    decreases v
  {
    HasValues(v.attrs) && VarsHaveValues(v.kids)
  }

  predicate VarsHaveValues(vs: seq<Var>)
    decreases vs
  {
    vs == [] || (AllHaveValues(vs[0]) && VarsHaveValues(vs[1..]))
  }

  /** The declaration comes back unchanged exactly when none of its attributes lacks a value. */
  lemma {:induction false} RereadIsDeclarationIff(v: Var)
    ensures Reread(v) == Declaration(v) <==> AllHaveValues(v)
    decreases v
  {
    KeptIff(v.attrs);
    RereadsAreDeclarationsIff(v.kids);
  }

  lemma {:induction false} RereadsAreDeclarationsIff(vs: seq<Var>)
    ensures Rereads(vs) == Declarations(vs) <==> VarsHaveValues(vs)
    decreases vs
  {
    if vs != [] {
      RereadIsDeclarationIff(vs[0]);
      RereadsAreDeclarationsIff(vs[1..]);
      assert Rereads(vs)[0] == Reread(vs[0]) && Rereads(vs)[1..] == Rereads(vs[1..]);
      assert Declarations(vs)[0] == Declaration(vs[0]) && Declarations(vs)[1..] == Declarations(vs[1..]);
    }
  }

  /** The round trip restores the declarations of a dataset exactly when all its attributes have values. */
  lemma RoundTripIff(d: Dataset, version: Version, blob: string, es: seq<Event>)
    requires GoodDataset(d) && Renders(PrintDataset(d, version, blob, false), es)
    ensures Result(Run(Initial(), es)) == Dataset(d.name, d.attrs, Declarations(d.vars)) <==>
            HasValues(d.attrs) && VarsHaveValues(d.vars)
  {
    RoundTrip(d, version, blob, es);
    KeptIff(d.attrs);
    RereadsAreDeclarationsIff(d.vars);
  }

  /** Marking an array marks its element template. */
  predicate TemplatesSent(v: Var)
    decreases v
  {
    (v.ty.ArrayType? && v.send ==> forall i :: 0 <= i < |v.kids| ==> v.kids[i].send) && AllTemplatesSent(v.kids)
  }

  predicate AllTemplatesSent(vs: seq<Var>)
    decreases vs
  {
    vs == [] || (TemplatesSent(vs[0]) && AllTemplatesSent(vs[1..]))
  }

  lemma {:induction false} ProjectionIsGood(v: Var)
    requires GoodVar(v) && TemplatesSent(v) && v.send
    ensures GoodVar(Projection(v))
    decreases v, 1
  {
    ProjectionsAreGood(v.kids);
    if v.ty.ArrayType? {
      assert Projections(v.kids[1..]) == [];
      assert Projections(v.kids) == [Projection(v.kids[0])];
    } else if IsSimple(v.ty) {
      assert Projections(v.kids) == [];
    }
  }

  lemma {:induction false} ProjectionsAreGood(vs: seq<Var>)
    requires GoodVars(vs) && AllTemplatesSent(vs)
    ensures GoodVars(Projections(vs))
    ensures Named(vs) ==> Named(Projections(vs))
    decreases vs, 1
  {
    if vs != [] {
      ProjectionsAreGood(vs[1..]);
      if vs[0].send {
        ProjectionIsGood(vs[0]);
        assert Projections(vs)[1..] == Projections(vs[1..]);
      } else {
        assert Projections(vs) == Projections(vs[1..]);
      }
      if Named(vs) { NamedProjections(vs); }
    }
  }

  lemma {:induction false} NamedProjections(vs: seq<Var>)
    requires Named(vs)
    ensures Named(Projections(vs))
    decreases |vs|
  {
    if vs != [] {
      assert vs[0].name != "";
      forall i | 0 <= i < |vs[1..]| ensures vs[1..][i].name != "" {
        assert vs[1..][i] == vs[i + 1];
      }
      NamedProjections(vs[1..]);
    }
  }

  /** Printing under a constraint and parsing rebuilds the declarative projection. */
  lemma ConstrainedRoundTrip(d: Dataset, version: Version, blob: string, es: seq<Event>)
    requires GoodDataset(d) && AllTemplatesSent(d.vars)
    requires Renders(PrintDataset(d, version, blob, true), es)
    ensures AcceptsDocument(es)
    ensures Result(Run(Initial(), es)) == RereadDataset(ProjectedDataset(d))
  {
    ConstrainedDatasetIsProjection(d, version, blob);
    ProjectionsAreGood(d.vars);
    RoundTrip(ProjectedDataset(d), version, blob, es);
  }
}
