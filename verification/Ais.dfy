/** The AIS database: which ancillary resources go with a primary one, writing the database as XML, and the
    state machine that reads it back. */
module Ais {
  import opened Wrappers

  datatype Rule = Overwrite | Replace | Fallback

  datatype Resource = Resource(url: string, rule: Rule)

  type Resources = seq<Resource>

  /** A regular expression with its resources. */
  datatype Pattern = Pattern(re: string, rv: Resources)

  /** The explicit entries by URL, and the patterns in the order in which they are tried. */
  datatype Database = Database(db: map<string, Resources>, re: seq<Pattern>)

  function AddUrl(d: Database, url: string, rv: Resources): Database {
    d.(db := d.db[url := (if url in d.db then d.db[url] else []) + rv])
  }

  function FindPattern(ps: seq<Pattern>, re: string): (i: nat)
    ensures i <= |ps| && (i < |ps| ==> ps[i].re == re) && forall j :: 0 <= j < i ==> ps[j].re != re
  {
    if ps == [] || ps[0].re == re then 0 else
    var i := FindPattern(ps[1..], re);
    assert forall j :: 0 < j < i + 1 ==> ps[j] == ps[1..][j - 1];
    i + 1
  }

  function AddRegexp(d: Database, re: string, rv: Resources): Database {
    var i := FindPattern(d.re, re);
    d.(re := if i == |d.re| then d.re + [Pattern(re, rv)] else d.re[i := Pattern(re, d.re[i].rv + rv)])
  }

  /** The resources under a URL and under a regular expression; none if it is not there. */
  function OfUrl(d: Database, url: string): Resources {
    if url in d.db then d.db[url] else []
  }

  function OfPattern(d: Database, re: string): Resources {
    var i := FindPattern(d.re, re);
    if i < |d.re| then d.re[i].rv else []
  }

  /** One addition to a database. */
  datatype Addition = Addition(regexp: bool, primary: string, rv: Resources)

  function AddAll(d: Database, es: seq<Addition>): Database
    decreases |es|
  {
    if es == [] then d
    else AddAll(if es[0].regexp then AddRegexp(d, es[0].primary, es[0].rv) else AddUrl(d, es[0].primary, es[0].rv), es[1..])
  }

  /** What the additions under a URL or an expression come to, in order. */
  function Gathered(es: seq<Addition>, regexp: bool, primary: string): Resources {
    if es == [] then []
    else (if es[0].regexp == regexp && es[0].primary == primary then es[0].rv else []) + Gathered(es[1..], regexp, primary)
  }

  lemma OneAddition(d: Database, e: Addition, primary: string)
    ensures var u := AddAll(d, [e]);
      OfUrl(u, primary) == OfUrl(d, primary) + (if !e.regexp && e.primary == primary then e.rv else []) &&
      OfPattern(u, primary) == OfPattern(d, primary) + (if e.regexp && e.primary == primary then e.rv else [])
  {
    assert [e][1..] == [];
    if e.regexp {
      var ps, i, j := AddRegexp(d, e.primary, e.rv).re, FindPattern(d.re, e.primary), FindPattern(d.re, primary);
      assert forall k :: 0 <= k < |d.re| ==> ps[k].re == d.re[k].re;
      FirstPattern(ps, primary, if j == |d.re| && (i < |d.re| || e.primary != primary) then |ps| else j);
    }
  }

  lemma FirstPattern(ps: seq<Pattern>, re: string, i: nat)
    requires i <= |ps| && (i < |ps| ==> ps[i].re == re) && forall j :: 0 <= j < i ==> ps[j].re != re
    ensures FindPattern(ps, re) == i
  {}

  /** Whatever is added to a database, in whatever order: under each URL and each expression are the resources it had
      and those added for it, in the order they were added. */
  lemma {:induction false} AdditionsGather(d: Database, es: seq<Addition>, primary: string)
    ensures OfUrl(AddAll(d, es), primary) == OfUrl(d, primary) + Gathered(es, false, primary)
    ensures OfPattern(AddAll(d, es), primary) == OfPattern(d, primary) + Gathered(es, true, primary)
    decreases |es|
  {
    if es != [] {
      var u := AddAll(d, [es[0]]);
      assert [es[0]][1..] == [];
      OneAddition(d, es[0], primary);
      AdditionsGather(u, es[1..], primary);
      GatheredApart(es, false, primary, OfUrl(d, primary));
      GatheredApart(es, true, primary, OfPattern(d, primary));
    }
  }

  lemma GatheredApart(es: seq<Addition>, regexp: bool, primary: string, before: Resources)
    requires es != []
    ensures before + Gathered(es, regexp, primary) ==
      before + (if es[0].regexp == regexp && es[0].primary == primary then es[0].rv else []) +
      Gathered(es[1..], regexp, primary)
  {}

  /** Expressions keep the order in which they were first added. */
  lemma PatternsKeepOrder(d: Database, re: string, rv: Resources)
    ensures var ps := AddRegexp(d, re, rv).re;
      (forall i :: 0 <= i < |d.re| ==> ps[i].re == d.re[i].re) &&
      if exists i :: 0 <= i < |d.re| && d.re[i].re == re then |ps| == |d.re|
      else |ps| == |d.re| + 1 && ps[|d.re|].re == re
  {}

  // ---------------------------------------------------------------------------------------------
  // XML
  // ---------------------------------------------------------------------------------------------

  datatype Tag = AisTag | EntryTag | PrimaryTag | AncillaryTag | OtherTag(text: string)

  datatype Key = UrlKey | RegexpKey | RuleKey | OtherKey(text: string)

  datatype Attr = Attr(key: Key, value: string)

  datatype Event = Start(tag: Tag, attrs: seq<Attr>) | End | Complaint

  function RuleName(r: Rule): string {
    match r
    case Overwrite => "overwrite"
    case Replace => "replace"
    case Fallback => "fallback"
  }

  function RuleOf(s: string): Option<Rule> {
    if s == "overwrite" then Some(Overwrite)
    else if s == "replace" then Some(Replace)
    else if s == "fallback" then Some(Fallback) else None
  }

  lemma RuleOfName(r: Rule)
    ensures RuleOf(RuleName(r)) == Some(r)
  {
    assert "overwrite"[0] == 'o' && "replace"[0] == 'r' && "fallback"[0] == 'f';
  }

  /** The default rule is not written. */
  function WriteResource(r: Resource): seq<Event> {
    [Start(AncillaryTag, (if r.rule.Overwrite? then [] else [Attr(RuleKey, RuleName(r.rule))]) + [Attr(UrlKey, r.url)]),
     End]
  }

  function WriteResources(rv: Resources): seq<Event> {
    if rv == [] then [] else WriteResource(rv[0]) + WriteResources(rv[1..])
  }

  function WriteEntry(key: Key, primary: string, rv: Resources): seq<Event> {
    [Start(EntryTag, []), Start(PrimaryTag, [Attr(key, primary)]), End] + WriteResources(rv) + [End]
  }

  function WritePatterns(ps: seq<Pattern>): seq<Event> {
    if ps == [] then [] else WriteEntry(RegexpKey, ps[0].re, ps[0].rv) + WritePatterns(ps[1..])
  }

  /** The explicit entries, in the order in which the map is walked. */
  function WriteUrls(db: map<string, Resources>, urls: seq<string>): seq<Event>
    requires forall i :: 0 <= i < |urls| ==> urls[i] in db
  {
    if urls == [] then [] else WriteEntry(UrlKey, urls[0], db[urls[0]]) + WriteUrls(db, urls[1..])
  }

  /** A walk over the map visits every key once. */
  predicate Walks(db: map<string, Resources>, urls: seq<string>) {
    db.Keys == (set u | u in urls) && forall i, j :: 0 <= i < j < |urls| ==> urls[i] != urls[j]
  }

  function WriteDatabase(d: Database, urls: seq<string>): seq<Event>
    requires Walks(d.db, urls)
  {
    [Start(AisTag, [Attr(OtherKey("xmlns"), "http://xml.opendap.org/ais")])] +
    WritePatterns(d.re) + WriteUrls(d.db, urls) + [End]
  }

  // ---------------------------------------------------------------------------------------------
  // The parser
  // ---------------------------------------------------------------------------------------------

  datatype State = ParserStart | ParserFinish | InAis | InEntry | InPrimary | InAncillary | ParserUnknown | ParserError

  datatype Parser = Parser(state: State, unknownDepth: int, regexp: bool, primary: string, rv: Resources, ais: Database)

  /** aisFatalError */
  function Fatal(p: Parser): Parser {
    p.(state := ParserError)
  }

  function LastValue(attrs: seq<Attr>, key: Key, otherwise: string): string {
    if attrs == [] then otherwise
    else
      var last := attrs[|attrs| - 1];
      if last.key == key then last.value else LastValue(attrs[..|attrs| - 1], key, otherwise)
  }

  function Unknown(p: Parser): Parser {
    p.(state := ParserUnknown, unknownDepth := p.unknownDepth + 1)
  }

  /** Only the first attribute of a primary element matters. */
  function StartPrimary(p: Parser, attrs: seq<Attr>): Parser {
    if attrs == [] then Fatal(p)
    else if attrs[0].key == UrlKey then p.(state := InPrimary, regexp := false, primary := attrs[0].value)
    else if attrs[0].key == RegexpKey then p.(state := InPrimary, regexp := true, primary := attrs[0].value)
    else p.(state := InPrimary)
  }

  function StartAncillary(p: Parser, attrs: seq<Attr>): Parser {
    var url, rule := LastValue(attrs, UrlKey, ""), RuleOf(LastValue(attrs, RuleKey, "overwrite"));
    if url == "" || rule.None? then Fatal(p)
    else p.(state := InAncillary, rv := p.rv + [Resource(url, rule.value)])
  }

  /** aisStartElement */
  function StartElement(p: Parser, tag: Tag, attrs: seq<Attr>): Parser {
    match p.state
    case ParserStart => p.(state := InAis)
    case InAis => if tag == EntryTag then p.(state := InEntry) else Unknown(p)
    case InEntry =>
      if tag == PrimaryTag then StartPrimary(p, attrs)
      else if tag == AncillaryTag then StartAncillary(p, attrs)
      else Unknown(p)
    case ParserUnknown => p.(unknownDepth := p.unknownDepth + 1)
    case _ => p
  }

  /** aisEndElement. The unknown state is never left. */
  function EndElement(p: Parser): Parser {
    match p.state
    case InAis => p.(state := ParserFinish)
    case InEntry =>
      p.(state := InAis, rv := [],
         ais := if p.regexp then AddRegexp(p.ais, p.primary, p.rv) else AddUrl(p.ais, p.primary, p.rv))
    case InPrimary => p.(state := InEntry)
    case InAncillary => p.(state := InEntry)
    case ParserUnknown => p.(unknownDepth := p.unknownDepth - 1)
    case _ => p
  }

  function Step(p: Parser, e: Event): Parser {
    match e
    case Start(tag, attrs) => StartElement(p, tag, attrs)
    case End => EndElement(p)
    case Complaint => Fatal(p)
  }

  function Run(p: Parser, es: seq<Event>): Parser
    decreases |es|
  {
    if es == [] then p else Run(Step(p, es[0]), es[1..])
  }

  /** aisStartDocument: the resources read are added to those there are. */
  function Initial(d: Database): Parser {
    Parser(ParserStart, 0, false, "", [], d)
  }

  /** aisEndDocument and the verdict of intern, for a well-formed document. */
  predicate Accepts(p: Parser) {
    !p.state.ParserError? && p.unknownDepth == 0
  }

  lemma {:induction false} RunApart(p: Parser, a: seq<Event>, b: seq<Event>)
    ensures Run(p, a + b) == Run(Run(p, a), b)
    decreases |a|
  {
    if a == [] {
      assert a + b == b;
    } else {
      assert (a + b)[1..] == a[1..] + b;
      RunApart(Step(p, a[0]), a[1..], b);
    }
  }

  lemma {:induction false} ErrorStays(p: Parser, es: seq<Event>)
    requires p.state.ParserError?
    ensures Run(p, es) == p
    decreases |es|
  {
    if es != [] { ErrorStays(p, es[1..]); }
  }

  // ---------------------------------------------------------------------------------------------
  // Writing and reading back
  // ---------------------------------------------------------------------------------------------

  predicate HaveUrls(rv: Resources) {
    forall i :: 0 <= i < |rv| ==> rv[i].url != ""
  }

  lemma ReadResource(p: Parser, r: Resource)
    requires p.state.InEntry?
    ensures Run(p, WriteResource(r)) == if r.url != "" then p.(rv := p.rv + [r]) else Fatal(p)
  {
    RuleOfName(r.rule);
    var es := WriteResource(r);
    var attrs := es[0].attrs;
    assert attrs[|attrs| - 1] == Attr(UrlKey, r.url);
    if !r.rule.Overwrite? {
      assert attrs[..1] == [Attr(RuleKey, RuleName(r.rule))];
      assert LastValue(attrs, RuleKey, "overwrite") == RuleName(r.rule);
    } else {
      assert attrs == [Attr(UrlKey, r.url)] && attrs[..0] == [];
    }
    assert es[1..] == [End] && [End][1..] == [];
  }

  lemma {:induction false} ReadResources(p: Parser, rv: Resources)
    requires p.state.InEntry?
    ensures var q := Run(p, WriteResources(rv));
            if HaveUrls(rv) then q == p.(rv := p.rv + rv) else q.state.ParserError?
    decreases |rv|
  {
    if rv == [] {
      assert p.rv + rv == p.rv;
    } else {
      ReadResource(p, rv[0]);
      RunApart(p, WriteResource(rv[0]), WriteResources(rv[1..]));
      if rv[0].url == "" {
        ErrorStays(Fatal(p), WriteResources(rv[1..]));
      } else {
        var q := p.(rv := p.rv + [rv[0]]);
        ReadResources(q, rv[1..]);
        assert HaveUrls(rv) <==> HaveUrls(rv[1..]) by {
          assert forall i :: 0 < i < |rv| ==> rv[i] == rv[1..][i - 1];
        }
        assert p.rv + [rv[0]] + rv[1..] == p.rv + rv;
      }
    }
  }

  function AddEntry(d: Database, key: Key, primary: string, rv: Resources): Database {
    if key.RegexpKey? then AddRegexp(d, primary, rv) else AddUrl(d, primary, rv)
  }

  /** Between two entries, with the resources of the last one handed over. */
  predicate BetweenEntries(p: Parser) {
    p.state.InAis? && p.rv == [] && p.unknownDepth == 0
  }

  function EntryHead(key: Key, primary: string): seq<Event> {
    [Start(EntryTag, []), Start(PrimaryTag, [Attr(key, primary)]), End]
  }

  lemma ReadHead(p: Parser, key: Key, primary: string)
    requires p.state.InAis? && (key.UrlKey? || key.RegexpKey?)
    ensures Run(p, EntryHead(key, primary)) == p.(state := InEntry, regexp := key.RegexpKey?, primary := primary)
  {
    var es := EntryHead(key, primary);
    var p1 := Step(p, es[0]);
    assert p1 == p.(state := InEntry);
    var p2 := Step(p1, es[1]);
    assert p2 == p.(state := InPrimary, regexp := key.RegexpKey?, primary := primary);
    assert es[1..][0] == es[1] && es[1..][1..] == [End] && [End][1..] == [];
    assert Run(p, es) == Run(p1, es[1..]) == Run(p2, [End]) == Run(Step(p2, End), []);
  }

  lemma RunLast(p: Parser, es: seq<Event>, e: Event)
    ensures Run(p, es + [e]) == Step(Run(p, es), e)
  {
    RunApart(p, es, [e]);
    assert [e][1..] == [];
  }

  lemma ReadEntry(p: Parser, key: Key, primary: string, rv: Resources)
    requires BetweenEntries(p) && (key.UrlKey? || key.RegexpKey?)
    ensures var q := Run(p, WriteEntry(key, primary, rv));
            if HaveUrls(rv) then BetweenEntries(q) && q.ais == AddEntry(p.ais, key, primary, rv)
            else q.state.ParserError?
  {
    var head := EntryHead(key, primary);
    var q := p.(state := InEntry, regexp := key.RegexpKey?, primary := primary);
    ReadHead(p, key, primary);
    ReadResources(q, rv);
    assert [] + rv == rv;
    RunApart(p, head, WriteResources(rv));
    RunLast(p, head + WriteResources(rv), End);
  }

  predicate PatternsHaveUrls(ps: seq<Pattern>) {
    forall i :: 0 <= i < |ps| ==> HaveUrls(ps[i].rv)
  }

  predicate DistinctPatterns(ps: seq<Pattern>) {
    forall i, j :: 0 <= i < j < |ps| ==> ps[i].re != ps[j].re
  }

  lemma {:induction false} ReadPatterns(p: Parser, ps: seq<Pattern>)
    requires BetweenEntries(p) && DistinctPatterns(p.ais.re + ps)
    ensures var q := Run(p, WritePatterns(ps));
            if PatternsHaveUrls(ps) then BetweenEntries(q) && q.ais == p.ais.(re := p.ais.re + ps)
            else q.state.ParserError?
    decreases |ps|
  {
    if ps == [] {
      assert p.ais.re + ps == p.ais.re;
    } else {
      ReadEntry(p, RegexpKey, ps[0].re, ps[0].rv);
      var q := Run(p, WriteEntry(RegexpKey, ps[0].re, ps[0].rv));
      RunApart(p, WriteEntry(RegexpKey, ps[0].re, ps[0].rv), WritePatterns(ps[1..]));
      assert PatternsHaveUrls(ps) <==> HaveUrls(ps[0].rv) && PatternsHaveUrls(ps[1..]) by {
        assert forall i :: 0 < i < |ps| ==> ps[i] == ps[1..][i - 1];
      }
      if HaveUrls(ps[0].rv) {
        NewPattern(p.ais, ps);
        assert p.ais.re + [ps[0]] + ps[1..] == p.ais.re + ps;
        ReadPatterns(q, ps[1..]);
      } else {
        ErrorStays(q, WritePatterns(ps[1..]));
      }
    }
  }

  lemma NewPattern(d: Database, ps: seq<Pattern>)
    requires ps != [] && DistinctPatterns(d.re + ps)
    ensures AddRegexp(d, ps[0].re, ps[0].rv) == d.(re := d.re + [ps[0]])
  {
    var all := d.re + ps;
    assert all[|d.re|] == ps[0] && forall i :: 0 <= i < |d.re| ==> all[i] == d.re[i];
  }

  predicate UrlsHaveUrls(db: map<string, Resources>, urls: seq<string>)
    requires forall i :: 0 <= i < |urls| ==> urls[i] in db
  {
    forall i :: 0 <= i < |urls| ==> HaveUrls(db[urls[i]])
  }

  /** The entries of those URLs, added to a map. */
  function Added(d: map<string, Resources>, db: map<string, Resources>, urls: seq<string>): map<string, Resources>
    requires forall i :: 0 <= i < |urls| ==> urls[i] in db
  {
    map u | u in d.Keys + (set x | x in urls) :: if u in d then d[u] else db[u]
  }

  lemma AddedOneByOne(d: map<string, Resources>, db: map<string, Resources>, urls: seq<string>)
    requires urls != [] && (forall i :: 0 <= i < |urls| ==> urls[i] in db) && urls[0] !in d
    ensures Added(d[urls[0] := db[urls[0]]], db, urls[1..]) == Added(d, db, urls)
    ensures AddUrl(Database(d, []), urls[0], db[urls[0]]).db == d[urls[0] := db[urls[0]]]
  {
    assert [] + db[urls[0]] == db[urls[0]];
    assert urls == [urls[0]] + urls[1..];
    assert forall x :: x in urls <==> x == urls[0] || x in urls[1..];
  }

  /** URLs of the map that are not among those read already. */
  predicate NewUrls(d: map<string, Resources>, db: map<string, Resources>, urls: seq<string>) {
    (forall i :: 0 <= i < |urls| ==> urls[i] in db && urls[i] !in d) &&
    forall i, j :: 0 <= i < j < |urls| ==> urls[i] != urls[j]
  }

  lemma NewUrlsRest(d: map<string, Resources>, db: map<string, Resources>, urls: seq<string>)
    requires urls != [] && NewUrls(d, db, urls)
    ensures NewUrls(d[urls[0] := db[urls[0]]], db, urls[1..])
    ensures UrlsHaveUrls(db, urls) <==> HaveUrls(db[urls[0]]) && UrlsHaveUrls(db, urls[1..])
  {
    var rest := urls[1..];
    assert forall i :: 0 <= i < |rest| ==> rest[i] == urls[i + 1];
    assert forall i :: 0 < i < |urls| ==> urls[i] == rest[i - 1];
  }

  lemma {:induction false} ReadUrls(p: Parser, db: map<string, Resources>, urls: seq<string>)
    requires BetweenEntries(p) && NewUrls(p.ais.db, db, urls)
    ensures var q := Run(p, WriteUrls(db, urls));
            if UrlsHaveUrls(db, urls) then BetweenEntries(q) && q.ais == p.ais.(db := Added(p.ais.db, db, urls))
            else q.state.ParserError?
    decreases |urls|
  {
    if urls == [] {
      assert Added(p.ais.db, db, urls) == p.ais.db;
    } else {
      ReadEntry(p, UrlKey, urls[0], db[urls[0]]);
      var q := Run(p, WriteEntry(UrlKey, urls[0], db[urls[0]]));
      NewUrlsRest(p.ais.db, db, urls);
      RunApart(p, WriteEntry(UrlKey, urls[0], db[urls[0]]), WriteUrls(db, urls[1..]));
      if HaveUrls(db[urls[0]]) {
        AddedOneByOne(p.ais.db, db, urls);
        ReadUrls(q, db, urls[1..]);
      } else {
        ErrorStays(q, WriteUrls(db, urls[1..]));
      }
    }
  }

  /** Does every resource of the database have a URL? */
  predicate Complete(d: Database, urls: seq<string>)
    requires Walks(d.db, urls)
  {
    PatternsHaveUrls(d.re) && UrlsHaveUrls(d.db, urls)
  }

  lemma WalkAddsAll(db: map<string, Resources>, urls: seq<string>)
    requires Walks(db, urls)
    ensures NewUrls(map[], db, urls) && Added(map[], db, urls) == db
  {
    assert forall i :: 0 <= i < |urls| ==> urls[i] in db.Keys;
  }

  /** The entries of a document, read into an empty database. */
  lemma ReadEntries(p: Parser, d: Database, urls: seq<string>)
    requires Walks(d.db, urls) && DistinctPatterns(d.re) && BetweenEntries(p) && p.ais == Database(map[], [])
    ensures var q := Run(p, WritePatterns(d.re) + WriteUrls(d.db, urls));
            if Complete(d, urls) then BetweenEntries(q) && q.ais == d else q.state.ParserError?
  {
    RunApart(p, WritePatterns(d.re), WriteUrls(d.db, urls));
    assert p.ais.re + d.re == d.re;
    ReadPatterns(p, d.re);
    WalkAddsAll(d.db, urls);
    var r := Run(p, WritePatterns(d.re));
    if PatternsHaveUrls(d.re) {
      ReadUrls(r, d.db, urls);
    } else {
      ErrorStays(r, WriteUrls(d.db, urls));
    }
  }

  /** Reading a database that was written rebuilds it, the same map and the same patterns in the same order,
      exactly when no resource lacks a URL; otherwise the document is rejected. */
  lemma RoundTripIff(d: Database, urls: seq<string>)
    requires Walks(d.db, urls) && DistinctPatterns(d.re)
    ensures var q := Run(Initial(Database(map[], [])), WriteDatabase(d, urls));
            if Complete(d, urls) then Accepts(q) && q.ais == d else !Accepts(q)
  {
    var p := Initial(Database(map[], []));
    var first := Start(AisTag, [Attr(OtherKey("xmlns"), "http://xml.opendap.org/ais")]);
    var body := WritePatterns(d.re) + WriteUrls(d.db, urls);
    ReadEntries(p.(state := InAis), d, urls);
    Associates([first], WritePatterns(d.re), WriteUrls(d.db, urls));
    RunLast(p, [first] + body, End);
    RunFirst(p, first, body);
  }

  lemma RunFirst(p: Parser, e: Event, es: seq<Event>)
    ensures Run(p, [e] + es) == Run(Step(p, e), es)
  {
    assert ([e] + es)[1..] == es;
  }

  // ---------------------------------------------------------------------------------------------
  // What a document means
  // ---------------------------------------------------------------------------------------------

  /** The last attribute of that key. */
  predicate SaidAt(attrs: seq<Attr>, key: Key, value: string, i: nat)
    requires i < |attrs|
  {
    attrs[i] == Attr(key, value) && forall j :: i < j < |attrs| ==> attrs[j].key != key
  }

  predicate SaysNothing(attrs: seq<Attr>, key: Key) {
    forall i :: 0 <= i < |attrs| ==> attrs[i].key != key
  }

  /** The last attribute of that key has the value; or there is none, and the value is the default one. */
  predicate Says(attrs: seq<Attr>, key: Key, otherwise: string, value: string) {
    (exists i :: 0 <= i < |attrs| && SaidAt(attrs, key, value, i)) || (value == otherwise && SaysNothing(attrs, key))
  }

  lemma {:induction false} LastValueIsSaid(attrs: seq<Attr>, key: Key, otherwise: string, value: string)
    ensures LastValue(attrs, key, otherwise) == value <==> Says(attrs, key, otherwise, value)
    decreases |attrs|
  {
    if attrs != [] && attrs[|attrs| - 1].key != key {
      LastValueIsSaid(attrs[..|attrs| - 1], key, otherwise, value);
      SaidBefore(attrs, key, otherwise, value);
    } else if attrs != [] {
      var last := |attrs| - 1;
      assert SaidAt(attrs, key, attrs[last].value, last);
    }
  }

  /** An attribute of another key at the end says nothing. */
  lemma {:induction false} SaidBefore(attrs: seq<Attr>, key: Key, otherwise: string, value: string)
    requires attrs != [] && attrs[|attrs| - 1].key != key
    ensures Says(attrs, key, otherwise, value) <==> Says(attrs[..|attrs| - 1], key, otherwise, value)
  {
    var front := attrs[..|attrs| - 1];
    if i :| 0 <= i < |front| && SaidAt(front, key, value, i) { SaidAtBefore(attrs, key, value, i); }
    if i :| 0 <= i < |attrs| && SaidAt(attrs, key, value, i) { SaidAtBefore(attrs, key, value, i); }
    if SaysNothing(front, key) { SaysNothingAfter(attrs, key); }
  }

  lemma SaysNothingAfter(attrs: seq<Attr>, key: Key)
    requires attrs != [] && attrs[|attrs| - 1].key != key && SaysNothing(attrs[..|attrs| - 1], key)
    ensures SaysNothing(attrs, key)
  {
    forall i | 0 <= i < |attrs| - 1 ensures attrs[i].key != key { assert attrs[i] == attrs[..|attrs| - 1][i]; }
  }

  lemma {:induction false} SaidAtBefore(attrs: seq<Attr>, key: Key, value: string, i: nat)
    requires attrs != [] && attrs[|attrs| - 1].key != key && i < |attrs|
    ensures SaidAt(attrs, key, value, i) <==> i < |attrs| - 1 && SaidAt(attrs[..|attrs| - 1], key, value, i)
  {
    var front := attrs[..|attrs| - 1];
    if i < |front| && SaidAt(front, key, value, i) {
      forall j | i < j < |attrs| ensures attrs[j].key != key {
        if j < |front| { assert front[j] == attrs[j]; }
      }
    }
  }

  /** An element without children in an entry. */
  datatype Item = Item(tag: Tag, attrs: seq<Attr>)

  function ItemEvents(it: Item): seq<Event> {
    [Start(it.tag, it.attrs), End]
  }

  /** Does an ancillary element with these attributes offer the resource? The URL is needed, the rule is not. */
  predicate Offers(attrs: seq<Attr>, r: Resource) {
    r.url != "" && Says(attrs, UrlKey, "", r.url) &&
    Says(attrs, RuleKey, "overwrite",
         match r.rule case Overwrite => "overwrite" case Replace => "replace" case Fallback => "fallback")
  }

  /** An ancillary element adds the resource that it offers; one that offers none is an error. */
  lemma AncillaryMeans(p: Parser, attrs: seq<Attr>, r: Resource)
    requires p.state.InEntry?
    ensures var q := Run(p, ItemEvents(Item(AncillaryTag, attrs)));
      (q == p.(rv := p.rv + [r]) <==> Offers(attrs, r)) &&
      (q.state.ParserError? || exists o :: Offers(attrs, o))
  {
    var url, rule := LastValue(attrs, UrlKey, ""), LastValue(attrs, RuleKey, "overwrite");
    var es := ItemEvents(Item(AncillaryTag, attrs));
    assert es[1..] == [End] && [End][1..] == [];
    LastValueIsSaid(attrs, UrlKey, "", r.url);
    LastValueIsSaid(attrs, RuleKey, "overwrite", RuleName(r.rule));
    if RuleOf(rule).Some? && url != "" {
      RuleOfName(r.rule);
      NameOfRule(rule);
      var o := Resource(url, RuleOf(rule).value);
      LastValueIsSaid(attrs, UrlKey, "", url);
      LastValueIsSaid(attrs, RuleKey, "overwrite", rule);
      assert Offers(attrs, o);
      assert Run(p, es) == p.(rv := p.rv + [o]);
      if p.rv + [o] == p.rv + [r] { assert (p.rv + [o])[|p.rv|] == (p.rv + [r])[|p.rv|]; }
    } else {
      RuleOfName(r.rule);
    }
  }

  lemma NameOfRule(s: string)
    ensures RuleOf(s).Some? ==> RuleName(RuleOf(s).value) == s
  {}

  /** What an entry is about: a URL or an expression. */
  datatype Subject = Subject(regexp: bool, primary: string)

  function SubjectOf(p: Parser): Subject {
    Subject(p.regexp, p.primary)
  }

  /** The last primary element whose first attribute is a url or a regexp decides; without one it is the subject
      of the entry before. */
  function SubjectAfter(items: seq<Item>, before: Subject): Subject {
    if items == [] then before
    else
      var last := items[|items| - 1];
      if last.tag == PrimaryTag && last.attrs != [] && last.attrs[0].key == UrlKey then Subject(false, last.attrs[0].value)
      else if last.tag == PrimaryTag && last.attrs != [] && last.attrs[0].key == RegexpKey then
        Subject(true, last.attrs[0].value)
      else SubjectAfter(items[..|items| - 1], before)
  }

  lemma {:induction false} SubjectApart(items: seq<Item>, before: Subject)
    requires items != []
    ensures SubjectAfter(items, before) == SubjectAfter(items[1..], SubjectAfter(items[..1], before))
    decreases |items|
  {
    assert items[..1][..0] == [] && items[..1][0] == items[0];
    if |items| > 1 {
      var front := items[..|items| - 1];
      assert items[1..][..|items| - 2] == front[1..] && front[..1] == items[..1];
      SubjectApart(front, before);
    } else {
      assert items[..1] == items && items[1..] == [];
    }
  }

  /** The resources the ancillary elements offer, in order. */
  ghost predicate Offered(items: seq<Item>, rv: Resources) {
    if items == [] then rv == []
    else if items[0].tag == AncillaryTag then rv != [] && Offers(items[0].attrs, rv[0]) && Offered(items[1..], rv[1..])
    else Offered(items[1..], rv)
  }

  /** The elements an entry may have. */
  ghost predicate GoodItem(it: Item) {
    (it.tag == PrimaryTag && it.attrs != []) || (it.tag == AncillaryTag && exists r :: Offers(it.attrs, r))
  }

  ghost predicate AllGood(items: seq<Item>) {
    forall i :: 0 <= i < |items| ==> GoodItem(items[i])
  }

  function ItemsEvents(items: seq<Item>): seq<Event> {
    if items == [] then [] else ItemEvents(items[0]) + ItemsEvents(items[1..])
  }

  /** Nothing that follows in a well-formed document makes up for it. */
  predicate Lost(p: Parser) {
    p.state.ParserError? || (p.state.ParserUnknown? && p.unknownDepth <= 0)
  }

  lemma LostInItem(p: Parser, it: Item)
    requires Lost(p)
    ensures Lost(Run(p, ItemEvents(it)))
  {
    assert ItemEvents(it)[1..] == [End] && [End][1..] == [];
  }

  lemma {:induction false} LostInItems(p: Parser, items: seq<Item>)
    requires Lost(p)
    ensures Lost(Run(p, ItemsEvents(items)))
    decreases |items|
  {
    if items != [] {
      RunApart(p, ItemEvents(items[0]), ItemsEvents(items[1..]));
      LostInItem(p, items[0]);
      LostInItems(Run(p, ItemEvents(items[0])), items[1..]);
    }
  }

  /** In an entry, nothing unknown met so far. */
  predicate AmongItems(p: Parser) {
    p.state.InEntry? && p.unknownDepth == 0
  }

  lemma ReadPrimary(p: Parser, attrs: seq<Attr>)
    requires AmongItems(p)
    ensures var q, s := Run(p, ItemEvents(Item(PrimaryTag, attrs))), SubjectAfter([Item(PrimaryTag, attrs)], SubjectOf(p));
      if attrs != [] then q == p.(regexp := s.regexp, primary := s.primary) else Lost(q)
  {
    var it := Item(PrimaryTag, attrs);
    assert ItemEvents(it)[1..] == [End] && [End][1..] == [];
    assert [it][..0] == [];
  }

  lemma ReadStranger(p: Parser, it: Item)
    requires AmongItems(p) && it.tag != PrimaryTag && it.tag != AncillaryTag
    ensures Lost(Run(p, ItemEvents(it)))
  {
    assert ItemEvents(it)[1..] == [End] && [End][1..] == [];
  }

  lemma ReadItem(p: Parser, it: Item)
    requires AmongItems(p)
    ensures var q, s := Run(p, ItemEvents(it)), SubjectAfter([it], SubjectOf(p));
      if GoodItem(it) then
        q == p.(regexp := s.regexp, primary := s.primary, rv := q.rv) &&
        if it.tag == AncillaryTag then q.rv != [] && q.rv == p.rv + [q.rv[|q.rv| - 1]] && Offers(it.attrs, q.rv[|q.rv| - 1])
        else q.rv == p.rv
      else Lost(q)
  {
    assert [it][..0] == [];
    if it.tag == AncillaryTag {
      AncillaryMeans(p, it.attrs, Resource("", Overwrite));
      if r :| Offers(it.attrs, r) { AncillaryMeans(p, it.attrs, r); }
    } else if it.tag == PrimaryTag {
      ReadPrimary(p, it.attrs);
    } else {
      ReadStranger(p, it);
    }
  }

  lemma {:induction false} ReadItems(p: Parser, items: seq<Item>)
    requires AmongItems(p)
    ensures var q := Run(p, ItemsEvents(items)); var s := SubjectAfter(items, SubjectOf(p));
      if AllGood(items) then
        p.rv <= q.rv && Offered(items, q.rv[|p.rv|..]) && q == p.(regexp := s.regexp, primary := s.primary, rv := q.rv)
      else Lost(q)
    decreases |items|
  {
    if items != [] {
      var it, rest := items[0], items[1..];
      var q := Run(p, ItemEvents(it));
      RunApart(p, ItemEvents(it), ItemsEvents(rest));
      SubjectApart(items, SubjectOf(p));
      assert items[..1] == [it] && [it][..0] == [];
      assert AllGood(items) <==> GoodItem(it) && AllGood(rest) by {
        assert forall i :: 0 < i < |items| ==> items[i] == rest[i - 1];
      }
      ReadItem(p, it);
      if !GoodItem(it) {
        LostInItems(q, rest);
      } else {
        ReadItems(q, rest);
        if AllGood(rest) && it.tag == AncillaryTag {
          FirstOffered(p.rv, q.rv[|p.rv|], Run(q, ItemsEvents(rest)).rv, items);
        }
      }
    }
  }

  lemma {:induction false} FirstOffered(before: Resources, r: Resource, after: Resources, items: seq<Item>)
    requires items != [] && items[0].tag == AncillaryTag && Offers(items[0].attrs, r)
    requires before + [r] <= after && Offered(items[1..], after[|before| + 1..])
    ensures before <= after && Offered(items, after[|before|..])
  {
    assert after[|before|] == (before + [r])[|before|] == r;
    assert after[|before|..][1..] == after[|before| + 1..];
    assert before == (before + [r])[..|before|];
  }

  /** An element below the root, with elements that have no children. */
  datatype Entry = Entry(tag: Tag, attrs: seq<Attr>, items: seq<Item>)

  function EntryEvents(e: Entry): seq<Event> {
    [Start(e.tag, e.attrs)] + ItemsEvents(e.items) + [End]
  }

  function EntriesEvents(es: seq<Entry>): seq<Event> {
    if es == [] then [] else EntryEvents(es[0]) + EntriesEvents(es[1..])
  }

  ghost predicate GoodEntry(e: Entry) {
    e.tag == EntryTag && AllGood(e.items)
  }

  ghost predicate GoodEntries(es: seq<Entry>) {
    forall i :: 0 <= i < |es| ==> GoodEntry(es[i])
  }

  /** Each entry adds what it offers under its subject, in order. */
  ghost predicate Adds(es: seq<Entry>, before: Subject, additions: seq<Addition>)
    decreases |es|
  {
    if es == [] then additions == []
    else
      var s := SubjectAfter(es[0].items, before);
      additions != [] && additions[0].regexp == s.regexp && additions[0].primary == s.primary &&
      Offered(es[0].items, additions[0].rv) && Adds(es[1..], s, additions[1..])
  }

  lemma LostAtEnd(p: Parser)
    requires Lost(p)
    ensures Lost(Step(p, End)) && !Accepts(Step(p, End))
  {}

  lemma StartOfEntry(p: Parser, e: Entry)
    ensures Run(p, EntryEvents(e)) == Step(Run(Step(p, Start(e.tag, e.attrs)), ItemsEvents(e.items)), End)
  {
    RunLast(p, [Start(e.tag, e.attrs)] + ItemsEvents(e.items), End);
    RunFirst(p, Start(e.tag, e.attrs), ItemsEvents(e.items));
  }

  lemma {:induction false} UnknownInItems(p: Parser, items: seq<Item>)
    requires p.state.ParserUnknown?
    ensures Run(p, ItemsEvents(items)) == p
  {
    if items != [] {
      RunApart(p, ItemEvents(items[0]), ItemsEvents(items[1..]));
      assert ItemEvents(items[0])[1..] == [End] && [End][1..] == [];
      UnknownInItems(p, items[1..]);
    }
  }

  lemma LostInEntry(p: Parser, e: Entry)
    requires Lost(p)
    ensures Lost(Run(p, EntryEvents(e)))
  {
    StartOfEntry(p, e);
    var q := Step(p, Start(e.tag, e.attrs));
    if p.state.ParserError? { ErrorStays(q, ItemsEvents(e.items)); } else { UnknownInItems(q, e.items); }
  }

  lemma {:induction false} LostInEntries(p: Parser, es: seq<Entry>)
    requires Lost(p)
    ensures Lost(Run(p, EntriesEvents(es)))
    decreases |es|
  {
    if es != [] {
      RunApart(p, EntryEvents(es[0]), EntriesEvents(es[1..]));
      LostInEntry(p, es[0]);
      LostInEntries(Run(p, EntryEvents(es[0])), es[1..]);
    }
  }

  lemma ReadOneEntry(p: Parser, e: Entry) returns (rv: Resources)
    requires BetweenEntries(p)
    ensures var q, s := Run(p, EntryEvents(e)), SubjectAfter(e.items, SubjectOf(p));
      if GoodEntry(e) then
        Offered(e.items, rv) &&
        q == p.(regexp := s.regexp, primary := s.primary, ais := AddAll(p.ais, [Addition(s.regexp, s.primary, rv)]))
      else Lost(q)
  {
    StartOfEntry(p, e);
    var q := Step(p, Start(e.tag, e.attrs));
    if e.tag != EntryTag {
      UnknownInItems(q, e.items);
      rv := [];
    } else {
      ReadItems(q, e.items);
      var r := Run(q, ItemsEvents(e.items));
      rv := r.rv;
      assert rv[|p.rv|..] == rv;
      if AllGood(e.items) { assert [Addition(r.regexp, r.primary, rv)][1..] == []; } else { LostAtEnd(r); }
    }
  }

  lemma {:induction false} ReadAllEntries(p: Parser, es: seq<Entry>) returns (additions: seq<Addition>)
    requires BetweenEntries(p)
    ensures var q := Run(p, EntriesEvents(es));
      if GoodEntries(es) then Adds(es, SubjectOf(p), additions) && BetweenEntries(q) && q.ais == AddAll(p.ais, additions)
      else Lost(q)
    decreases |es|
  {
    additions := [];
    if es != [] {
      var q := Run(p, EntryEvents(es[0]));
      RunApart(p, EntryEvents(es[0]), EntriesEvents(es[1..]));
      var rv := ReadOneEntry(p, es[0]);
      assert GoodEntries(es) <==> GoodEntry(es[0]) && GoodEntries(es[1..]) by {
        assert forall i :: 0 < i < |es| ==> es[i] == es[1..][i - 1];
      }
      if GoodEntry(es[0]) {
        var s := SubjectAfter(es[0].items, SubjectOf(p));
        var more := ReadAllEntries(q, es[1..]);
        additions := [Addition(s.regexp, s.primary, rv)] + more;
        AddFirst(p.ais, Addition(s.regexp, s.primary, rv), more);
        assert additions[1..] == more;
      } else {
        LostInEntries(q, es[1..]);
      }
    }
  }

  lemma AddFirst(d: Database, a: Addition, more: seq<Addition>)
    ensures AddAll(AddAll(d, [a]), more) == AddAll(d, [a] + more)
  {
    assert ([a] + more)[1..] == more && [a][1..] == [];
  }

  /** A document of two levels below its root is accepted exactly when there is nothing below the root but entries, and
      in them nothing but primary elements with an attribute and ancillary elements that offer a resource. What the
      root is called does not matter. Then each entry adds its resources to the database under its subject. */
  lemma DocumentMeans(d: Database, root: Tag, attrs: seq<Attr>, es: seq<Entry>) returns (additions: seq<Addition>)
    ensures var q := Run(Initial(d), [Start(root, attrs)] + EntriesEvents(es) + [End]);
      (Accepts(q) <==> GoodEntries(es)) &&
      (Accepts(q) ==> Adds(es, Subject(false, ""), additions) && q.ais == AddAll(d, additions))
  {
    var p := Step(Initial(d), Start(root, attrs));
    RunLast(Initial(d), [Start(root, attrs)] + EntriesEvents(es), End);
    RunFirst(Initial(d), Start(root, attrs), EntriesEvents(es));
    additions := ReadAllEntries(p, es);
    if !GoodEntries(es) { LostAtEnd(Run(p, EntriesEvents(es))); }
  }

  // ---------------------------------------------------------------------------------------------
  // The objects
  // ---------------------------------------------------------------------------------------------

  /** The first pattern that matches; the number of patterns when none does. */
  function FirstMatch(ps: seq<Pattern>, primary: string, matches: (string, string) -> bool): (i: nat)
    ensures i <= |ps| && (i < |ps| ==> matches(ps[i].re, primary))
    ensures forall j :: 0 <= j < i ==> !matches(ps[j].re, primary)
  {
    if ps == [] || matches(ps[0].re, primary) then 0 else
    var i := FirstMatch(ps[1..], primary, matches);
    assert forall j :: 0 < j < i + 1 ==> ps[j] == ps[1..][j - 1];
    i + 1
  }

  class AISResources {
    var db: map<string, Resources>
    var re: seq<Pattern>

    function View(): Database
      reads this
    {
      Database(db, re)
    }

    constructor ()
      ensures View() == Database(map[], [])
    {
      db, re := map[], [];
    }

    method AddUrlResource(url: string, rv: Resources)
      modifies this
      ensures View() == AddUrl(old(View()), url, rv)
    {
      if url !in db {
        assert [] + rv == rv;
        db := db[url := rv];
      } else {
        // there is an entry already, append to it
        var i := 0;
        ghost var before := db;
        assert before[url] + rv[..0] == before[url] && before[url := before[url]] == before;
        while i < |rv|
          invariant i <= |rv| && re == old(re) && db == before[url := before[url] + rv[..i]]
        {
          assert before[url] + rv[..i] + [rv[i]] == before[url] + rv[..i + 1];
          db := db[url := db[url] + [rv[i]]];
          i := i + 1;
        }
        assert rv[..i] == rv;
      }
    }

    method AddRegexpResource(pattern: string, rv: Resources)
      modifies this
      ensures View() == AddRegexp(old(View()), pattern, rv)
    {
      var pos := 0;
      while pos < |re| && re[pos].re != pattern
        invariant pos <= |re| && forall j :: 0 <= j < pos ==> re[j].re != pattern
      {
        pos := pos + 1;
      }
      if pos == |re| {
        re := re + [Pattern(pattern, rv)];
      } else {
        re := re[pos := Pattern(re[pos].re, re[pos].rv + rv)];
      }
    }

    /** find_if over the patterns, with the regular expression library's match. */
    method FindMatch(primary: string, matches: (string, string) -> bool) returns (pos: nat)
      ensures pos == FirstMatch(re, primary, matches)
    {
      pos := 0;
      while pos < |re| && !matches(re[pos].re, primary)
        invariant pos <= |re| && forall j :: 0 <= j < pos ==> !matches(re[j].re, primary)
      {
        pos := pos + 1;
      }
    }

    method HasResource(primary: string, matches: (string, string) -> bool) returns (has: bool)
      ensures has <==> primary in db || exists i :: 0 <= i < |re| && matches(re[i].re, primary)
    {
      var pos := FindMatch(primary, matches);
      has := primary in db || pos != |re|;
    }

    /** get_resource: those of the first pattern that matches, then the explicit ones; None stands for the
        exception when there are none at all. */
    method GetResource(primary: string, matches: (string, string) -> bool) returns (r: Option<Resources>)
      ensures var i := FirstMatch(re, primary, matches);
              var rv := (if i < |re| then re[i].rv else []) + (if primary in db then db[primary] else []);
              r == if rv == [] then None else Some(rv)
    {
      var rv: Resources := [];
      if primary in db { rv := db[primary]; }
      var j := FindMatch(primary, matches);
      if j != |re| { rv := re[j].rv + rv; }
      assert [] + rv == rv;
      r := if |rv| == 0 then None else Some(rv);
    }
  }

  /** The parser's state object: the callbacks update it, and the resources it fills. */
  class AISParserState {
    const ais: AISResources
    var state: State
    var unknownDepth: int
    var regexp: bool
    var primary: string
    var rv: Resources

    function View(): Parser
      reads this, ais
    {
      Parser(state, unknownDepth, regexp, primary, rv, ais.View())
    }

    constructor (ais: AISResources)
      ensures this.ais == ais && View() == Initial(ais.View())
    {
      this.ais := ais;
      state, unknownDepth, regexp, primary, rv := ParserStart, 0, false, "", [];
    }

    method OnStartElement(tag: Tag, attrs: seq<Attr>)
      modifies this
      ensures View() == StartElement(old(View()), tag, attrs)
    {
      match state
      case ParserStart => state := InAis;
      case InAis =>
        if tag == EntryTag {
          state := InEntry;
        } else {
          state, unknownDepth := ParserUnknown, unknownDepth + 1;
        }
      case InEntry =>
        if tag == PrimaryTag {
          state := InPrimary;
          if attrs != [] {
            if attrs[0].key == UrlKey {
              regexp, primary := false, attrs[0].value;
            } else if attrs[0].key == RegexpKey {
              regexp, primary := true, attrs[0].value;
            }
          } else {
            state := ParserError;
          }
        } else if tag == AncillaryTag {
          OnStartAncillary(attrs);
        } else {
          state, unknownDepth := ParserUnknown, unknownDepth + 1;
        }
      case ParserUnknown => unknownDepth := unknownDepth + 1;
      case _ =>
    }

    method OnStartAncillary(attrs: seq<Attr>)
      modifies this
      ensures View() == StartAncillary(old(View()), attrs)
    {
      state := InAncillary;
      var url, rule := "", "overwrite";
      var i := 0;
      while i < |attrs|
        invariant i <= |attrs|
        invariant url == LastValue(attrs[..i], UrlKey, "") && rule == LastValue(attrs[..i], RuleKey, "overwrite")
      {
        assert attrs[..i + 1][..i] == attrs[..i];
        if attrs[i].key == UrlKey { url := attrs[i].value; }
        else if attrs[i].key == RuleKey { rule := attrs[i].value; }
        i := i + 1;
      }
      assert attrs[..i] == attrs;
      if url == "" || RuleOf(rule).None? {
        state := ParserError;
        return;
      }
      rv := rv + [Resource(url, RuleOf(rule).value)];
    }

    method OnEndElement()
      modifies this, ais
      ensures View() == EndElement(old(View()))
    {
      match state
      case InAis => state := ParserFinish;
      case InEntry =>
        state := InAis;
        if regexp { ais.AddRegexpResource(primary, rv); } else { ais.AddUrlResource(primary, rv); }
        rv := [];
      case InPrimary => state := InEntry;
      case InAncillary => state := InEntry;
      case ParserUnknown => unknownDepth := unknownDepth - 1;
      case _ =>
    }
  }
}
