/** Every sequence of callbacks the parsing machine accepts, well formed or not. What an OtherXML attribute
    swallows need not nest: its markup ends at the first Attribute end tag of the document's namespace, and
    what is left open there goes into the next one. */
module DdxAcceptance {
  import opened Wrappers
  import opened Types
  import opened Variables
  import opened DdxMachine
  import opened DdxInvariant
  import opened DdxGrammar

  /** A part of a document as the machine divides it. An element may be closed by another tag than its own;
      the markup of an OtherXML attribute is a run of events that ends with the attribute. */
  datatype Item =
    | Parent(tag: Tag, attrs: map<Key, string>, content: seq<Item>, endTag: Tag, foreign: bool)
    | OtherXml(attrs: map<Key, string>, markup: seq<Event>)
    | Data(data: Event)

  function Events(n: Item): seq<Event> {
    match n
    case Parent(tag, attrs, content, endTag, foreign) => [Start(tag, attrs)] + EventsOf(content) + [End(endTag, foreign)]
    case OtherXml(attrs, markup) => [Start(AttributeTag, attrs)] + markup + [End(AttributeTag, false)]
    case Data(e) => [e]
  }

  function EventsOf(ns: seq<Item>): seq<Event> {
    if ns == [] then [] else Events(ns[0]) + EventsOf(ns[1..])
  }

  predicate IsOtherXml(tag: Tag, attrs: map<Key, string>) {
    tag.AttributeTag? && Lookup(attrs, TypeKey) == "OtherXML"
  }

  predicate IsMarkup(e: Event) {
    !e.Complaint? && e != End(AttributeTag, false)
  }

  /** Is the document divided the way the machine does it? */
  predicate Divided(n: Item)
    decreases n
  {
    match n
    case Parent(tag, attrs, content, _, _) => !IsOtherXml(tag, attrs) && AllDivided(content)
    case OtherXml(attrs, markup) => IsOtherXml(AttributeTag, attrs) && forall e :: e in markup ==> IsMarkup(e)
    case Data(e) => e.Chars? || e.IgnorableWhitespace? || e.Cdata?
  }

  predicate AllDivided(ns: seq<Item>)
    decreases ns
  {
    ns == [] || (Divided(ns[0]) && AllDivided(ns[1..]))
  }

  // ---------------------------------------------------------------------------------------------
  // The grammar
  // ---------------------------------------------------------------------------------------------

  /** The end tags that close an element. */
  predicate Closes(tag: Tag, endTag: Tag) {
    match tag
    case AliasTag => true
    case BlobTag => endTag.BlobTag? || endTag.DataBlobTag?
    case DataBlobTag => endTag.BlobTag? || endTag.DataBlobTag?
    case TypeTag(ty) => if StateOfType(ty).InsideSimpleType? then IsSimple(GetType(endTag)) else endTag == tag
    case _ => endTag == tag
  }

  function DimensionItems(ns: seq<Item>): nat {
    if ns == [] then 0
    else DimensionItems(ns[1..]) + if ns[0].Parent? && ns[0].tag == DimensionTag then 1 else 0
  }

  function DimensionsOf(m: Model, ns: seq<Item>): nat {
    if m.OfArray? || m.OfMap? then DimensionItems(ns) else 0
  }

  predicate Belongs(m: Model, n: Item)
    decreases n
  {
    match n
    case Parent(tag, attrs, content, endTag, foreign) =>
      Placed(m, tag) && HasRequired(m, tag, attrs) && AllBelong(ContentModel(tag, attrs), content) &&
      Closes(tag, endTag) && (tag.MapTag? || tag == TypeTag(ArrayType) ==> DimensionItems(content) > 0)
    case OtherXml(attrs, _) => TakesAttributes(m) && NameKey in attrs
    case Data(e) => !e.Cdata?
  }

  predicate AllBelong(m: Model, ns: seq<Item>)
    decreases ns
  {
    ns == [] || (Belongs(m, ns[0]) && AllBelong(m, ns[1..]))
  }

  /** How many elements of the markup read so far are open after some more of it; None if an end tag finds
      none open. */
  function DepthThrough(es: seq<Event>, depth: nat): Option<nat>
    decreases |es|
  {
    if es == [] then Some(depth) else
    match es[0]
    case Start(_, _) => DepthThrough(es[1..], depth + 1)
    case End(_, _) => if depth == 0 then None else DepthThrough(es[1..], depth - 1)
    case _ => DepthThrough(es[1..], depth)
  }

  /** The same through all the OtherXML attributes of an item: what one leaves open the next can close. */
  function Depth(n: Item, depth: nat): Option<nat>
    decreases n
  {
    match n
    case Parent(_, _, content, _, _) => DepthOfAll(content, depth)
    case OtherXml(_, markup) => DepthThrough(markup, depth)
    case Data(_) => Some(depth)
  }

  function DepthOfAll(ns: seq<Item>, depth: nat): Option<nat>
    decreases ns
  {
    if ns == [] then Some(depth) else
    match Depth(ns[0], depth)
    case None => None
    case Some(d) => DepthOfAll(ns[1..], d)
  }

  /** The documents without a fault other than a clash of attributes. */
  predicate IsMember(ns: seq<Item>) {
    AllDivided(ns) && AllBelong(OfDocument, ns) && DepthOfAll(ns, 0).Some?
  }

  // ---------------------------------------------------------------------------------------------
  // What the events of an item do
  // ---------------------------------------------------------------------------------------------

  /** The machine is back where it was but for the depth of the markup left open. */
  predicate Back(p: Parser, q: Parser, dims: nat) {
    Ready(q) && Returned(p, q.(otherXmlDepth := p.otherXmlDepth), dims)
  }

  predicate Effect(p: Parser, q: Parser, fits: bool, dims: nat, depth: Option<nat>) {
    q.thrown ||
    (if fits && depth.Some? then Back(p, q, dims) && q.otherXmlDepth == depth.value else HasError(q.s))
  }

  lemma DataStep(p: Parser, n: Item)
    requires Ready(p) && !Top(p.s).InsideOtherXml? && n.Data? && Divided(n)
    ensures Effect(p, Run(p, Events(n)), Belongs(ModelOf(Top(p.s)), n), 0, Depth(n, p.otherXmlDepth))
  {
    RunOne(p, n.data);
    CharactersFollowGrammar(p, n.data);
  }

  /** One event of markup. */
  lemma MarkupStep(p: Parser, e: Event)
    requires Ready(p) && Top(p.s).InsideOtherXml? && IsMarkup(e)
    ensures var q, d := Step(p, e), DepthThrough([e], p.otherXmlDepth);
      if d.Some? then q == p.(otherXmlDepth := d.value, otherXml := q.otherXml) && Ready(q) else HasError(q.s)
  {
    assert [e][1..] == [];
    ErrorOnTop(p.s);
  }

  lemma DepthApart(e: Event, es: seq<Event>, depth: nat)
    requires es != [] && es[0] == e
    ensures DepthThrough(es, depth) ==
      match DepthThrough([e], depth) case None => None case Some(d) => DepthThrough(es[1..], d)
  {
    assert [e][1..] == [];
  }

  lemma {:induction false} MarkupRuns(p: Parser, es: seq<Event>)
    requires Ready(p) && Top(p.s).InsideOtherXml? && forall e :: e in es ==> IsMarkup(e)
    ensures var q, d := Run(p, es), DepthThrough(es, p.otherXmlDepth);
      if d.Some? then q == p.(otherXmlDepth := d.value, otherXml := q.otherXml) && Ready(q) else HasError(q.s)
    decreases |es|
  {
    if es != [] {
      MarkupStep(p, es[0]);
      DepthApart(es[0], es, p.otherXmlDepth);
      var q := Step(p, es[0]);
      ErrorReachesEnd(q, es[1..]);
      if Ready(q) && DepthThrough([es[0]], p.otherXmlDepth).Some? { MarkupRuns(q, es[1..]); }
    }
  }

  /** Outside OtherXML, and at the end of it, the depth plays no part. */
  lemma DepthAside(q: Parser, d: nat, tag: Tag, foreign: bool)
    requires !Top(q.s).InsideOtherXml? || (tag.AttributeTag? && !foreign)
    ensures EndElement(q.(otherXmlDepth := d), tag, foreign) == EndElement(q, tag, foreign).(otherXmlDepth := d)
  {
    match ClosingOf(Top(q.s), tag, foreign)
    case ClosesVariable(ty) => FinishAside(q, d, ty);
    case ClosesSimple => GivingAside(PopVariable(q), d, FinishedVar(q));
    case ClosesValue => RecordAside(PopState(q), d, q.charData);
    case ClosesOtherXml => RecordAside(PopState(q), d, q.otherXml);
    case _ =>
  }

  lemma RecordAside(q: Parser, d: nat, value: string)
    ensures RecordAttr(q.(otherXmlDepth := d), value) == RecordAttr(q, value).(otherXmlDepth := d)
  {}

  lemma GivingAside(q: Parser, d: nat, v: Var)
    ensures GiveToParent(q.(otherXmlDepth := d), v) == GiveToParent(q, v).(otherXmlDepth := d)
  {}

  lemma FinishAside(q: Parser, d: nat, ty: Type)
    ensures FinishVariable(q.(otherXmlDepth := d), ty) == FinishVariable(q, ty).(otherXmlDepth := d)
  {
    GivingAside(PopVariable(q), d, FinishedVar(q));
  }

  /** An end tag that closes an element does what the element's own would do; any other is an error. */
  lemma ClosesIff(tag: Tag, attrs: map<Key, string>, m: Model, endTag: Tag, foreign: bool)
    requires Placed(m, tag) && !IsOtherXml(tag, attrs)
    ensures var st := ContentState(tag, attrs);
      if Closes(tag, endTag) then ClosingOf(st, endTag, foreign) == ClosingOf(st, tag, false)
      else ClosingOf(st, endTag, foreign) == Unexpected
  {}

  /** The machine at an item's end tag, its content done: as in Closing, but for the depth. */
  predicate AtEnd(p: Parser, q: Parser, tag: Tag, attrs: map<Key, string>, dims: nat) {
    DdxGrammar.Closing(p, q.(otherXmlDepth := p.otherXmlDepth), tag, attrs, dims) && Placed(ModelOf(Top(p.s)), tag)
  }

  /** Its own end tag closes the element unless a dimension is missing. */
  lemma OwnTagCloses(p: Parser, q: Parser, tag: Tag, attrs: map<Key, string>, dims: nat)
    requires AtEnd(p, q, tag, attrs, dims) && (dims > 0 ==> tag.TypeTag? || tag.MapTag?)
    ensures Effect(p, EndElement(q, tag, false), tag.MapTag? || tag == TypeTag(ArrayType) ==> dims > 0,
      if tag.DimensionTag? then 1 else 0, Some(q.otherXmlDepth))
  {
    var q' := q.(otherXmlDepth := p.otherXmlDepth);
    DepthAside(q', q.otherXmlDepth, tag, false);
    assert q'.(otherXmlDepth := q.otherXmlDepth) == q;
    EndKeepsValid(q', tag, false);
    if tag.TypeTag? || tag.MapTag? {
      VariableCloses(p, q', tag, attrs, false, dims);
    } else if tag.AttributeTag? {
      AttributeCloses(p, q', attrs, false);
    } else {
      OtherCloses(p, q', tag, attrs, false);
    }
  }

  lemma EndTagCloses(p: Parser, q: Parser, n: Item, dims: nat)
    requires n.Parent? && !IsOtherXml(n.tag, n.attrs)
    requires AtEnd(p, q, n.tag, n.attrs, dims) && (dims > 0 ==> n.tag.TypeTag? || n.tag.MapTag?)
    ensures Effect(p, EndElement(q, n.endTag, n.foreign),
      Closes(n.tag, n.endTag) && (n.tag.MapTag? || n.tag == TypeTag(ArrayType) ==> dims > 0),
      if n.tag.DimensionTag? then 1 else 0, Some(q.otherXmlDepth))
  {
    assert Top(q.s) == ContentState(n.tag, n.attrs);
    ClosesIff(n.tag, n.attrs, ModelOf(Top(p.s)), n.endTag, n.foreign);
    if Closes(n.tag, n.endTag) {
      assert EndElement(q, n.endTag, n.foreign) == EndElement(q, n.tag, false);
      OwnTagCloses(p, q, n.tag, n.attrs, dims);
    } else {
      ErrorOnTop(q.s);
    }
  }

  // ---------------------------------------------------------------------------------------------
  // Whole items
  // ---------------------------------------------------------------------------------------------

  /** From the start tag on, in three legs. */
  lemma ItemLegs(p: Parser, start: Event, body: seq<Event>, end: Event)
    ensures var q1 := Step(p, start); var q2 := Run(q1, body);
      Run(p, [start] + body + [end]) == Step(q2, end) && (q1.thrown ==> q2.thrown) &&
      (HasError(q1.s) ==> HasError(q2.s)) && (HasError(q2.s) ==> HasError(Step(q2, end).s))
  {
    RunParts(p, start, body, end);
    var q1 := Step(p, start);
    if q1.thrown { ThrownStays(q1, body); }
    ErrorReachesEnd(q1, body);
    ErrorAtEnd(Run(q1, body), end);
  }

  lemma OtherXmlFollows(p: Parser, n: Item)
    requires Ready(p) && !Top(p.s).InsideOtherXml? && n.OtherXml? && Divided(n)
    ensures Effect(p, Run(p, Events(n)), Belongs(ModelOf(Top(p.s)), n), 0, Depth(n, p.otherXmlDepth))
  {
    var start, end := Start(AttributeTag, n.attrs), End(AttributeTag, false);
    ItemLegs(p, start, n.markup, end);
    StartFollowsGrammar(p, AttributeTag, n.attrs);
    StartKeepsValid(p, AttributeTag, n.attrs);
    TypeIsThere(n.attrs);
    var q1 := Step(p, start);
    if !q1.thrown && Belongs(ModelOf(Top(p.s)), n) {
      OpenedIsReady(p, q1, AttributeTag, n.attrs);
      MarkupRuns(q1, n.markup);
      var q2 := Run(q1, n.markup);
      if DepthThrough(n.markup, p.otherXmlDepth).Some? {
        OwnTagCloses(p, q2, AttributeTag, n.attrs, 0);
      }
    }
  }

  lemma TypeIsThere(attrs: map<Key, string>)
    requires IsOtherXml(AttributeTag, attrs)
    ensures TypeKey in attrs && ContentState(AttributeTag, attrs) == InsideOtherXml
  {
    assert "OtherXML"[0] != "Container"[0];
  }

  lemma OpenedOutside(tag: Tag, attrs: map<Key, string>)
    requires !IsOtherXml(tag, attrs)
    ensures !ContentState(tag, attrs).InsideOtherXml?
  {}

  /** An element whose start tag has been accepted and whose content belongs there comes to its end tag. */
  lemma ItemAtEnd(p: Parser, q1: Parser, q2: Parser, n: Item, dims: nat)
    requires Ready(p) && !Top(p.s).InsideOtherXml? && n.Parent? && Placed(ModelOf(Top(p.s)), n.tag)
    requires Opened(p, q1, n.tag, n.attrs) && Back(q1, q2, dims)
    requires dims > 0 ==> n.tag.TypeTag? || n.tag.MapTag?
    ensures AtEnd(p, q2, n.tag, n.attrs, dims)
  {
    ContentDone(p, q1, q2.(otherXmlDepth := q1.otherXmlDepth), n.tag, n.attrs, dims);
  }

  /** What its content and its end tag make of an element whose start tag has been accepted. */
  lemma ParentEnds(p: Parser, n: Item, q1: Parser, q2: Parser)
    requires Ready(p) && !Top(p.s).InsideOtherXml? && n.Parent? && Divided(n)
    requires Placed(ModelOf(Top(p.s)), n.tag) && HasRequired(ModelOf(Top(p.s)), n.tag, n.attrs)
    requires Opened(p, q1, n.tag, n.attrs) && !q2.thrown
    requires var m := ContentModel(n.tag, n.attrs);
      Effect(q1, q2, AllBelong(m, n.content), DimensionsOf(m, n.content), DepthOfAll(n.content, q1.otherXmlDepth))
    requires HasError(q2.s) ==> HasError(Step(q2, End(n.endTag, n.foreign)).s)
    ensures Effect(p, Step(q2, End(n.endTag, n.foreign)), Belongs(ModelOf(Top(p.s)), n),
      if n.tag.DimensionTag? then 1 else 0, Depth(n, p.otherXmlDepth))
  {
    var m := ContentModel(n.tag, n.attrs);
    if AllBelong(m, n.content) && DepthOfAll(n.content, q1.otherXmlDepth).Some? {
      var dims := DimensionsOf(m, n.content);
      ItemAtEnd(p, q1, q2, n, dims);
      EndTagCloses(p, q2, n, dims);
    }
  }

  /** An element, given what its content does. */
  lemma ParentFollows(p: Parser, n: Item, q1: Parser, q2: Parser)
    requires Ready(p) && !Top(p.s).InsideOtherXml? && n.Parent? && Divided(n)
    requires q1 == Step(p, Start(n.tag, n.attrs)) && q2 == Run(q1, EventsOf(n.content))
    requires var m := ContentModel(n.tag, n.attrs);
      Ready(q1) && Opened(p, q1, n.tag, n.attrs) ==>
        Effect(q1, q2, AllBelong(m, n.content), DimensionsOf(m, n.content), DepthOfAll(n.content, q1.otherXmlDepth))
    ensures Effect(p, Run(p, Events(n)), Belongs(ModelOf(Top(p.s)), n), if n.tag.DimensionTag? then 1 else 0,
      Depth(n, p.otherXmlDepth))
  {
    ItemLegs(p, Start(n.tag, n.attrs), EventsOf(n.content), End(n.endTag, n.foreign));
    StartFollowsGrammar(p, n.tag, n.attrs);
    StartKeepsValid(p, n.tag, n.attrs);
    if !q2.thrown && Placed(ModelOf(Top(p.s)), n.tag) && HasRequired(ModelOf(Top(p.s)), n.tag, n.attrs) {
      OpenedIsReady(p, q1, n.tag, n.attrs);
      ParentEnds(p, n, q1, q2);
    }
  }

  lemma OneItem(m: Model, n: Item)
    requires n.Parent? ==> Belongs(m, n)
    ensures DimensionsOf(m, [n]) == if n.Parent? && n.tag.DimensionTag? then 1 else 0
  {
    assert [n][1..] == [] && DimensionItems([]) == 0;
    assert DimensionItems([n]) == if n.Parent? && n.tag == DimensionTag then 1 else 0;
    assert n.Parent? ==> Placed(m, n.tag);
  }

  lemma {:induction false} ItemFollows(p: Parser, n: Item)
    requires Ready(p) && !Top(p.s).InsideOtherXml? && Divided(n)
    ensures var m := ModelOf(Top(p.s));
      Effect(p, Run(p, Events(n)), Belongs(m, n), DimensionsOf(m, [n]), Depth(n, p.otherXmlDepth))
    decreases n
  {
    match n
    case Data(_) => DataStep(p, n); OneItem(ModelOf(Top(p.s)), n);
    case OtherXml(_, _) => OtherXmlFollows(p, n); OneItem(ModelOf(Top(p.s)), n);
    case Parent(tag, attrs, content, _, _) =>
      var q1 := Step(p, Start(tag, attrs));
      if Ready(q1) && Opened(p, q1, tag, attrs) {
        OpenedOutside(tag, attrs);
        StartFollowsGrammar(p, tag, attrs);
        OpenedIsReady(p, q1, tag, attrs);
        ItemsFollow(q1, content);
      }
      ParentFollows(p, n, q1, Run(q1, EventsOf(content)));
      if Belongs(ModelOf(Top(p.s)), n) { OneItem(ModelOf(Top(p.s)), n); }
  }

  lemma EffectsCompose(p: Parser, q: Parser, r: Parser, f: bool, d: nat, e: Option<nat>, g: bool, d': nat, e': Option<nat>)
    requires Effect(p, q, f, d, e)
    requires q.thrown ==> r.thrown
    requires HasError(q.s) ==> HasError(r.s)
    requires f && e.Some? && !q.thrown ==> Effect(q, r, g, d', e')
    ensures Effect(p, r, f && g, d + d', if e.Some? then e' else None)
  {}

  lemma ItemsApart(m: Model, ns: seq<Item>)
    requires ns != []
    ensures DimensionsOf(m, ns) == DimensionsOf(m, [ns[0]]) + DimensionsOf(m, ns[1..])
  {
    assert [ns[0]][1..] == [] && DimensionItems([]) == 0;
  }

  /** The events of some items leave the machine where it was exactly when the items belong there and the depth
      of the markup never falls below zero. */
  lemma {:induction false} ItemsFollow(p: Parser, ns: seq<Item>)
    requires Ready(p) && !Top(p.s).InsideOtherXml? && AllDivided(ns)
    ensures var m := ModelOf(Top(p.s));
      Effect(p, Run(p, EventsOf(ns)), AllBelong(m, ns), DimensionsOf(m, ns), DepthOfAll(ns, p.otherXmlDepth))
    decreases ns
  {
    if ns != [] {
      var m, q, r := ModelOf(Top(p.s)), Run(p, Events(ns[0])), Run(p, EventsOf(ns));
      ItemFollows(p, ns[0]);
      RunApart(p, Events(ns[0]), EventsOf(ns[1..]));
      ItemsApart(m, ns);
      if q.thrown { ThrownStays(q, EventsOf(ns[1..])); }
      ErrorReachesEnd(q, EventsOf(ns[1..]));
      var e := Depth(ns[0], p.otherXmlDepth);
      if Belongs(m, ns[0]) && e.Some? && !q.thrown {
        ItemsFollow(q, ns[1..]);
        EffectsCompose(p, q, r, true, DimensionsOf(m, [ns[0]]), e,
          AllBelong(m, ns[1..]), DimensionsOf(m, ns[1..]), DepthOfAll(ns[1..], e.value));
      }
    }
  }

  // ---------------------------------------------------------------------------------------------
  // Dividing an accepted document
  // ---------------------------------------------------------------------------------------------

  predicate Clean(p: Parser) {
    !p.thrown && !HasError(p.s)
  }

  lemma CleanBefore(p: Parser, a: seq<Event>, b: seq<Event>)
    requires Clean(Run(p, a + b))
    ensures Clean(Run(p, a)) && Run(Run(p, a), b) == Run(p, a + b)
  {
    RunApart(p, a, b);
    var q := Run(p, a);
    if q.thrown { ThrownStays(q, b); }
    ErrorReachesEnd(q, b);
  }

  lemma {:induction false} CleanHasNoComplaint(p: Parser, es: seq<Event>)
    requires Clean(Run(p, es))
    ensures forall e :: e in es ==> !e.Complaint?
    decreases |es|
  {
    if es != [] {
      assert es == [es[0]] + es[1..];
      CleanBefore(p, [es[0]], es[1..]);
      assert [] + es == es;
      CleanBefore(p, [], es);
      RunOne(p, es[0]);
      ErrorOnTop(p.s);
      CleanHasNoComplaint(Step(p, es[0]), es[1..]);
    }
  }

  /** The events before the first Attribute end tag of the document's namespace. */
  lemma {:induction false} FirstEnd(es: seq<Event>) returns (k: nat)
    ensures k <= |es| && (k < |es| ==> es[k] == End(AttributeTag, false))
    ensures forall e :: e in es[..k] ==> e != End(AttributeTag, false)
  {
    if es == [] || es[0] == End(AttributeTag, false) {
      k := 0;
    } else {
      var k' := FirstEnd(es[1..]);
      k := k' + 1;
      assert es[..k] == [es[0]] + es[1..][..k'];
    }
  }

  /** A clean run gets past an item to where it was. */
  lemma PastItem(p: Parser, n: Item, rest: seq<Event>)
    requires Ready(p) && !Top(p.s).InsideOtherXml? && Divided(n) && Clean(Run(p, Events(n) + rest))
    ensures var q := Run(p, Events(n)); Ready(q) && q.s == p.s && Run(q, rest) == Run(p, Events(n) + rest)
  {
    CleanBefore(p, Events(n), rest);
    ItemFollows(p, n);
  }

  lemma EventsOfMore(n: Item, ns: seq<Item>)
    ensures EventsOf([n] + ns) == Events(n) + EventsOf(ns)
    ensures AllDivided([n] + ns) <==> Divided(n) && AllDivided(ns)
  {
    assert ([n] + ns)[1..] == ns;
  }

  /** A start tag on a clean run is that of an element that may stand there. */
  lemma CleanStart(p: Parser, es: seq<Event>) returns (q: Parser)
    requires Ready(p) && !Top(p.s).InsideOtherXml? && Clean(Run(p, es)) && es != [] && es[0].Start?
    ensures Ready(q) && q.s == p.s + [ContentState(es[0].tag, es[0].attrs)] && Run(q, es[1..]) == Run(p, es)
  {
    var tag, attrs := es[0].tag, es[0].attrs;
    assert es == [es[0]] + es[1..];
    CleanBefore(p, [es[0]], es[1..]);
    RunOne(p, es[0]);
    q := Step(p, es[0]);
    StartFollowsGrammar(p, tag, attrs);
    StartKeepsValid(p, tag, attrs);
    OpenedIsReady(p, q, tag, attrs);
  }

  /** The markup of an OtherXML attribute and what is behind its end tag; None if there is none. */
  lemma MarkupAhead(q: Parser, es: seq<Event>) returns (split: Option<(seq<Event>, seq<Event>)>)
    requires Ready(q) && Top(q.s).InsideOtherXml? && Clean(Run(q, es))
    ensures split.Some? ==>
      (forall e :: e in split.value.0 ==> IsMarkup(e)) &&
      es == split.value.0 + [End(AttributeTag, false)] + split.value.1
    ensures split.None? ==> Run(q, es).s == q.s
  {
    CleanHasNoComplaint(q, es);
    var k := FirstEnd(es);
    var markup := es[..k];
    assert forall e :: e in markup ==> e in es;
    if k == |es| {
      assert markup == es;
      MarkupRuns(q, es);
      split := None;
    } else {
      split := Some((markup, es[k + 1..]));
    }
  }

  lemma Regroup(es: seq<Event>, body: seq<Event>, end: Event, after: seq<Event>)
    requires es != [] && es[1..] == body + [end] + after
    ensures es == [es[0]] + body + [end] + after && |after| < |es|
  {
    assert es == [es[0]] + es[1..];
  }

  /** The OtherXML attribute at the head of the events; none if it is not closed. */
  lemma DivideOtherXml(p: Parser, es: seq<Event>) returns (n: Option<Item>, rest: seq<Event>)
    requires Ready(p) && !Top(p.s).InsideOtherXml? && Clean(Run(p, es))
    requires es != [] && es[0].Start? && IsOtherXml(es[0].tag, es[0].attrs)
    ensures n.Some? ==> Divided(n.value) && es == Events(n.value) + rest && |rest| < |es|
    ensures n.None? ==> |Run(p, es).s| > |p.s|
  {
    var attrs := es[0].attrs;
    TypeIsThere(attrs);
    var q := CleanStart(p, es);
    var split := MarkupAhead(q, es[1..]);
    match split
    case None => n, rest := None, es;
    case Some((markup, after)) =>
      n, rest := Some(OtherXml(attrs, markup)), after;
      Regroup(es, markup, End(AttributeTag, false), after);
  }

  /** A clean run is over items, up to an end tag that closes none of them; unless it ends inside an element. */
  lemma {:induction false} Divide(p: Parser, es: seq<Event>) returns (ns: seq<Item>, rest: seq<Event>)
    requires Ready(p) && !Top(p.s).InsideOtherXml? && Clean(Run(p, es))
    ensures AllDivided(ns) && es == EventsOf(ns) + rest
    ensures rest == [] || rest[0].End? || |Run(p, es).s| > |p.s|
    decreases |es|
  {
    if es == [] || es[0].End? {
      return [], es;
    }
    var n, after := DivideOne(p, es);
    match n
    case None =>
      ns, rest := [], es;
    case Some(n) =>
      PastItem(p, n, after);
      var q := Run(p, Events(n));
      var more: seq<Item>;
      more, rest := Divide(q, after);
      ns := [n] + more;
      EventsOfMore(n, more);
      assert es == EventsOf(ns) + rest;
  }

  /** The item at the head of the events; none if it is not closed. */
  lemma {:induction false} DivideOne(p: Parser, es: seq<Event>) returns (n: Option<Item>, rest: seq<Event>)
    requires Ready(p) && !Top(p.s).InsideOtherXml? && Clean(Run(p, es)) && es != [] && !es[0].End?
    ensures n.Some? ==> Divided(n.value) && es == Events(n.value) + rest && |rest| < |es|
    ensures n.None? ==> |Run(p, es).s| > |p.s|
    decreases |es|, 1
  {
    assert es == [es[0]] + es[1..];
    if !es[0].Start? {
      CleanHasNoComplaint(p, es);
      n, rest := Some(Data(es[0])), es[1..];
    } else if IsOtherXml(es[0].tag, es[0].attrs) {
      n, rest := DivideOtherXml(p, es);
    } else {
      n, rest := DivideParent(p, es);
    }
  }

  lemma {:induction false} DivideParent(p: Parser, es: seq<Event>) returns (n: Option<Item>, rest: seq<Event>)
    requires Ready(p) && !Top(p.s).InsideOtherXml? && Clean(Run(p, es))
    requires es != [] && es[0].Start? && !IsOtherXml(es[0].tag, es[0].attrs)
    ensures n.Some? ==> Divided(n.value) && es == Events(n.value) + rest && |rest| < |es|
    ensures n.None? ==> |Run(p, es).s| > |p.s|
    decreases |es|, 0
  {
    var tag, attrs := es[0].tag, es[0].attrs;
    OpenedOutside(tag, attrs);
    var q := CleanStart(p, es);
    var content, after := Divide(q, es[1..]);
    if after != [] && after[0].End? {
      n, rest := Some(Parent(tag, attrs, content, after[0].tag, after[0].foreign)), after[1..];
      WholeParent(es, n.value, after);
    } else {
      n, rest := None, es;
      if after == [] { NeverLeft(q, content, es[1..]); }
    }
  }

  lemma WholeParent(es: seq<Event>, n: Item, after: seq<Event>)
    requires n.Parent? && es != [] && es[0] == Start(n.tag, n.attrs)
    requires es[1..] == EventsOf(n.content) + after && after != [] && after[0] == End(n.endTag, n.foreign)
    ensures es == Events(n) + after[1..] && |after[1..]| < |es|
  {
    assert after == [after[0]] + after[1..];
    Regroup(es, EventsOf(n.content), after[0], after[1..]);
  }

  lemma NeverLeft(q: Parser, content: seq<Item>, es: seq<Event>)
    requires Ready(q) && !Top(q.s).InsideOtherXml? && AllDivided(content) && es == EventsOf(content) + []
    requires Clean(Run(q, es))
    ensures Run(q, es).s == q.s
  {
    assert es == EventsOf(content);
    ItemsFollow(q, content);
  }

  /** For all sequences of callbacks: they are accepted exactly when no callback throws and they are the events
      of a member of the grammar. */
  lemma AcceptedIff(es: seq<Event>)
    ensures AcceptsDocument(es) <==>
              !Run(Initial(), es).thrown && exists ns: seq<Item> :: IsMember(ns) && EventsOf(ns) == es
  {
    InitialIsValid();
    var p, r := Initial(), Run(Initial(), es);
    if AcceptsDocument(es) {
      AcceptedRunIsBalanced(es);
      AcceptedRunIsClean(es, |es|);
      assert es[..|es|] == es;
      var ns, rest := Divide(p, es);
      CleanBefore(p, EventsOf(ns), rest);
      ItemsFollow(p, ns);
      NothingLeft(Run(p, EventsOf(ns)), rest);
      assert EventsOf(ns) + [] == EventsOf(ns);
      assert IsMember(ns);
    }
    if ns: seq<Item> :| IsMember(ns) && EventsOf(ns) == es {
      ItemsFollow(p, ns);
    }
  }

  /** At the bottom an end tag is an error. */
  lemma NothingLeft(q: Parser, rest: seq<Event>)
    requires q.s == [ParserStart] && Clean(q) && Clean(Run(q, rest)) && (rest != [] ==> rest[0].End?)
    ensures rest == []
  {
    if rest != [] {
      assert rest == [rest[0]] + rest[1..];
      CleanBefore(q, [rest[0]], rest[1..]);
      RunOne(q, rest[0]);
      ErrorOnTop(q.s);
    }
  }

  // ---------------------------------------------------------------------------------------------
  // There is one way to divide a document
  // ---------------------------------------------------------------------------------------------

  /** The events that can follow the items of an element's content. */
  predicate Follows(es: seq<Event>) {
    es != [] ==> es[0].End?
  }

  lemma MarkupHead(a: seq<Event>, x: seq<Event>)
    requires forall e :: e in a ==> IsMarkup(e)
    ensures var s := a + [End(AttributeTag, false)] + x;
      if a == [] then s[0] == End(AttributeTag, false) && s[1..] == x
      else s[0] == a[0] && s[0] != End(AttributeTag, false) && s[1..] == a[1..] + [End(AttributeTag, false)] + x
  {
    if a != [] { assert a[0] in a; }
  }

  lemma {:induction false} SameMarkup(a: seq<Event>, x: seq<Event>, b: seq<Event>, y: seq<Event>)
    requires (forall e :: e in a ==> IsMarkup(e)) && (forall e :: e in b ==> IsMarkup(e))
    requires a + [End(AttributeTag, false)] + x == b + [End(AttributeTag, false)] + y
    ensures a == b && x == y
  {
    MarkupHead(a, x);
    MarkupHead(b, y);
    if a != [] {
      SameMarkup(a[1..], x, b[1..], y);
      assert a == [a[0]] + a[1..] && b == [b[0]] + b[1..];
    }
  }

  lemma {:induction false} SameItem(a: Item, x: seq<Event>, b: Item, y: seq<Event>)
    requires Divided(a) && Divided(b) && Events(a) + x == Events(b) + y
    ensures a == b && x == y
    decreases a
  {
    var s, t := Events(a) + x, Events(b) + y;
    assert s[0] == Events(a)[0] && t[0] == Events(b)[0];
    match a
    case Data(_) =>
      assert s[1..] == x && t[1..] == y;
    case OtherXml(_, markup) =>
      assert b.OtherXml?;
      assert s[1..] == markup + [End(AttributeTag, false)] + x;
      assert t[1..] == b.markup + [End(AttributeTag, false)] + y;
      SameMarkup(markup, x, b.markup, y);
    case Parent(_, _, content, endTag, foreign) =>
      assert b.Parent?;
      var x', y' := [End(endTag, foreign)] + x, [End(b.endTag, b.foreign)] + y;
      assert s[1..] == EventsOf(content) + x' && t[1..] == EventsOf(b.content) + y';
      SameItems(content, x', b.content, y');
      assert x'[0] == y'[0] && x'[1..] == x && y'[1..] == y;
  }

  lemma ItemsHead(a: seq<Item>, x: seq<Event>)
    requires AllDivided(a) && Follows(x)
    ensures var s := EventsOf(a) + x;
      if a == [] then s == x
      else s != [] && !s[0].End? && s == Events(a[0]) + (EventsOf(a[1..]) + x)
  {
    if a != [] { assert !Events(a[0])[0].End?; }
  }

  lemma {:induction false} SameItems(a: seq<Item>, x: seq<Event>, b: seq<Item>, y: seq<Event>)
    requires AllDivided(a) && AllDivided(b) && Follows(x) && Follows(y) && EventsOf(a) + x == EventsOf(b) + y
    ensures a == b && x == y
    decreases a
  {
    ItemsHead(a, x);
    ItemsHead(b, y);
    if a != [] {
      SameItem(a[0], EventsOf(a[1..]) + x, b[0], EventsOf(b[1..]) + y);
      SameItems(a[1..], x, b[1..], y);
      assert a == [a[0]] + a[1..] && b == [b[0]] + b[1..];
    }
  }

  /** No document has two divisions. */
  lemma DivisionIsUnique(a: seq<Item>, b: seq<Item>)
    requires AllDivided(a) && AllDivided(b) && EventsOf(a) == EventsOf(b)
    ensures a == b
  {
    assert EventsOf(a) + [] == EventsOf(b) + [];
    SameItems(a, [], b, []);
  }
}
