/** Attribute tables: the types of attribute values, the entries of a table, and the operations that
    append, alias, find and delete entries by name. */
module Attributes {
  import opened Wrappers
  import opened Text

  datatype AttrType =
    | AttrUnknown | AttrContainer | AttrByte | AttrInt16 | AttrUInt16 | AttrInt32 | AttrUInt32
    | AttrFloat32 | AttrFloat64 | AttrString | AttrUrl | AttrOtherXml

  function AttrTypeName(t: AttrType): string {
    match t
    case AttrContainer => "Container"
    case AttrByte => "Byte"
    case AttrInt16 => "Int16"
    case AttrUInt16 => "UInt16"
    case AttrInt32 => "Int32"
    case AttrUInt32 => "UInt32"
    case AttrFloat32 => "Float32"
    case AttrFloat64 => "Float64"
    case AttrString => "String"
    case AttrUrl => "Url"
    case AttrOtherXml => "OtherXML"
    case AttrUnknown => ""
  }

  function LowerCase(c: char): char {
    if 'A' <= c <= 'Z' then c - 'A' + 'a' else c
  }

  /** downcase */
  function Downcase(s: string): string {
    seq(|s|, i requires 0 <= i < |s| => LowerCase(s[i]))
  }

  /** String_to_AttrType: letter case does not matter. */
  function AttrTypeOf(s: string): AttrType {
    var t := Downcase(s);
    if t == "container" then AttrContainer
    else if t == "byte" then AttrByte
    else if t == "int16" then AttrInt16
    else if t == "uint16" then AttrUInt16
    else if t == "int32" then AttrInt32
    else if t == "uint32" then AttrUInt32
    else if t == "float32" then AttrFloat32
    else if t == "float64" then AttrFloat64
    else if t == "string" then AttrString
    else if t == "url" then AttrUrl
    else if t == "otherxml" then AttrOtherXml
    else AttrUnknown
  }

  lemma AttrTypeOfName(t: AttrType)
    ensures AttrTypeOf(AttrTypeName(t)) == t
  {
    match t
    case AttrContainer => assert Downcase("Container") == "container";
    case AttrByte => assert Downcase("Byte") == "byte";
    case AttrString => assert Downcase("String") == "string";
    case AttrUrl => assert Downcase("Url") == "url";
    case AttrOtherXml => assert Downcase("OtherXML") == "otherxml";
    case AttrUnknown =>
    case _ => NumberTypeOfName(t);
  }

  lemma NumberTypeOfName(t: AttrType)
    requires t.AttrInt16? || t.AttrUInt16? || t.AttrInt32? || t.AttrUInt32? || t.AttrFloat32? || t.AttrFloat64?
    ensures AttrTypeOf(AttrTypeName(t)) == t
  {
    match t
    case AttrInt16 => assert Downcase("Int16") == "int16";
    case AttrUInt16 => assert Downcase("UInt16") == "uint16";
    case AttrInt32 => assert Downcase("Int32") == "int32";
    case AttrUInt32 => assert Downcase("UInt32") == "uint32";
    case AttrFloat32 => assert Downcase("Float32") == "float32";
    case AttrFloat64 => assert Downcase("Float64") == "float64";
  }

  /** An entry of a table: an attribute with its values, a container with a table of its own, or an alias, a
      second name for one of these. */
  datatype Entry =
    | Plain(name: string, ty: AttrType, values: seq<string>)
    | Container(name: string, entries: seq<Entry>)
    | Alias(name: string, source: string, target: Entry)

  type Table = seq<Entry>

  /** A table with its own name: that of its container, or none for the table of a variable or a dataset. */
  datatype OpenTable = OpenTable(name: string, table: Table)

  /** The attribute or container that an entry stands for. */
  function Target(e: Entry): (r: Entry)
    ensures !r.Alias?
  {
    match e
    case Alias(_, _, target) => Target(target)
    case _ => e
  }

  function TypeOfEntry(e: Entry): AttrType {
    match Target(e)
    case Plain(_, ty, _) => ty
    case _ => AttrContainer
  }

  /** The number of values of the attribute an entry stands for. */
  function ValuesOf(e: Entry): nat {
    match Target(e)
    case Plain(_, _, values) => |values|
    case _ => 0
  }

  /** The entry with another value for the attribute it stands for. */
  function WithValue(e: Entry, value: string): (r: Entry)
    ensures r.name == e.name && TypeOfEntry(r) == TypeOfEntry(e)
  {
    match e
    case Plain(name, ty, values) => Plain(name, ty, values + [value])
    case Container(_, _) => e
    case Alias(name, source, target) => Alias(name, source, WithValue(target, value))
  }

  function WithoutValue(e: Entry, i: nat): (r: Entry)
    requires i < ValuesOf(e)
    ensures r.name == e.name && TypeOfEntry(r) == TypeOfEntry(e)
  {
    match e
    case Plain(name, ty, values) => Plain(name, ty, values[..i] + values[i + 1..])
    case Container(_, _) => e
    case Alias(name, source, target) => Alias(name, source, WithoutValue(target, i))
  }

  /** The index of the first entry with that name; the table's length when there is none. */
  function SimpleFind(t: Table, name: string): (i: nat)
    ensures i <= |t| && (i < |t| ==> t[i].name == name)
    ensures forall j :: 0 <= j < i ==> t[j].name != name
  {
    if t == [] || t[0].name == name then 0 else
    var i := SimpleFind(t[1..], name);
    assert forall j :: 0 < j < i + 1 ==> t[j] == t[1..][j - 1];
    i + 1
  }

  predicate HasName(t: Table, name: string) {
    exists i :: 0 <= i < |t| && t[i].name == name
  }

  predicate DistinctNames(t: Table) {
    forall i, j :: 0 <= i < j < |t| ==> t[i].name != t[j].name
  }

  /** append_attr: a further value for an attribute that is there already, or a new attribute. None
      stands for the Error thrown when the name is taken by something of another type. */
  function AppendAttr(t: Table, name: string, ty: string, value: string): Option<Table> {
    var lname := DecodeSpaces(name);
    var i := SimpleFind(t, lname);
    if i < |t| then
      if TypeOfEntry(t[i]) != AttrTypeOf(ty) || TypeOfEntry(t[i]) == AttrContainer then None
      else Some(t[i := WithValue(t[i], value)])
    else Some(t + [Plain(lname, AttrTypeOf(ty), [value])])
  }

  /** append_container: the search for an existing entry uses the name as given, while the new entry
      gets the decoded one. */
  function AppendContainer(t: Table, name: string, entries: Table): Option<Table> {
    if SimpleFind(t, name) < |t| then None else Some(t + [Container(DecodeSpaces(name), entries)])
  }

  /** add_container_alias and the last part of add_value_alias: a second name for an entry that has
      been found somewhere under the name source. */
  function AppendAlias(t: Table, name: string, source: string, found: Entry): Option<Table> {
    var lname := DecodeSpaces(name);
    if SimpleFind(t, lname) < |t| then None else Some(t + [Alias(lname, source, Target(found))])
  }

  /** What del_attr asserts of its index: -1 for the whole entry, or the position of a value. */
  predicate DeletesExistingValue(t: Table, name: string, i: int) {
    i >= -1 &&
    var k := SimpleFind(t, DecodeSpaces(name));
    k < |t| && TypeOfEntry(t[k]) != AttrContainer ==> i < ValuesOf(t[k])
  }

  /** del_attr: the whole entry, or one of the values of an attribute. */
  function DelAttr(t: Table, name: string, i: int): Table
    requires DeletesExistingValue(t, name, i)
  {
    var k := SimpleFind(t, DecodeSpaces(name));
    if k == |t| then t
    else if i == -1 then t[..k] + t[k + 1..]
    else if TypeOfEntry(t[k]) == AttrContainer then t
    else t[k := WithoutValue(t[k], i)]
  }

  /** del_attr_table: only containers can be deleted by their position. */
  function DelAttrTable(t: Table, k: nat): Table
    requires k < |t|
  {
    if TypeOfEntry(t[k]) == AttrContainer then t[..k] + t[k + 1..] else t
  }

  /** The values of the attribute an entry stands for. */
  function Values(e: Entry): seq<string> {
    match Target(e)
    case Plain(_, _, values) => values
    case Container(_, _) => []
  }

  /** The values that a table has under a name. */
  function ValuesNamed(t: Table, name: string): seq<string> {
    if SimpleFind(t, name) < |t| then Values(t[SimpleFind(t, name)]) else []
  }

  /** The same entry, perhaps with more values behind those it has. */
  predicate Extends(a: Entry, b: Entry) {
    b.name == a.name && TypeOfEntry(b) == TypeOfEntry(a) && Values(a) <= Values(b) &&
    (Target(a).Container? ==> b == a)
  }

  /** All entries are still there, in their places. */
  predicate Keeps(t: Table, u: Table) {
    |t| <= |u| && forall i :: 0 <= i < |t| ==> Extends(t[i], u[i])
  }

  lemma FindIsMembership(t: Table, name: string)
    ensures SimpleFind(t, name) < |t| <==> HasName(t, name)
  {}

  lemma DistinctWithLast(t: Table, e: Entry)
    requires DistinctNames(t)
    ensures DistinctNames(t + [e]) <==> !HasName(t, e.name)
  {
    var u := t + [e];
    forall i, j | 0 <= i < j < |u| && !HasName(t, e.name) ensures u[i].name != u[j].name {}
    if HasName(t, e.name) {
      var i :| 0 <= i < |t| && t[i].name == e.name;
      assert u[i].name == u[|t|].name;
    }
  }

  /** Appending an attribute keeps the names of a table distinct, whatever its name. */
  lemma AppendAttrKeepsDistinct(t: Table, name: string, ty: string, value: string)
    requires DistinctNames(t)
    ensures AppendAttr(t, name, ty, value).Some? ==> DistinctNames(AppendAttr(t, name, ty, value).value)
  {
    var lname := DecodeSpaces(name);
    FindIsMembership(t, lname);
    DistinctWithLast(t, Plain(lname, AttrTypeOf(ty), [value]));
  }

  lemma AppendAliasKeepsDistinct(t: Table, name: string, source: string, found: Entry)
    requires DistinctNames(t)
    ensures AppendAlias(t, name, source, found).Some? ==> DistinctNames(AppendAlias(t, name, source, found).value)
  {
    var lname := DecodeSpaces(name);
    FindIsMembership(t, lname);
    DistinctWithLast(t, Alias(lname, source, Target(found)));
  }

  lemma WithoutOne(t: Table, k: nat)
    requires DistinctNames(t) && k < |t|
    ensures DistinctNames(t[..k] + t[k + 1..]) && !HasName(t[..k] + t[k + 1..], t[k].name)
  {
    var u := t[..k] + t[k + 1..];
    forall a | 0 <= a < |u| ensures u[a] == if a < k then t[a] else t[a + 1] {}
  }

  lemma RenamedAsBefore(t: Table, k: nat, e: Entry)
    requires DistinctNames(t) && k < |t| && e.name == t[k].name
    ensures DistinctNames(t[k := e])
  {}

  lemma DelAttrKeepsDistinct(t: Table, name: string, i: int)
    requires DistinctNames(t)
    requires DeletesExistingValue(t, name, i)
    ensures DistinctNames(DelAttr(t, name, i))
    ensures i == -1 ==> !HasName(DelAttr(t, name, i), DecodeSpaces(name))
  {
    var k := SimpleFind(t, DecodeSpaces(name));
    if k < |t| {
      WithoutOne(t, k);
      if i >= 0 && TypeOfEntry(t[k]) != AttrContainer { RenamedAsBefore(t, k, WithoutValue(t[k], i)); }
    }
  }

  lemma DelAttrTableKeepsDistinct(t: Table, k: nat)
    requires DistinctNames(t) && k < |t|
    ensures DistinctNames(DelAttrTable(t, k))
    ensures TypeOfEntry(t[k]) == AttrContainer ==> !HasName(DelAttrTable(t, k), t[k].name)
  {
    WithoutOne(t, k);
  }

  /** Appending a container keeps the names distinct exactly when its decoded name is new. The guard
      tests the name as given, so a %20 can slip a duplicate past it. */
  lemma AppendContainerKeepsDistinctIff(t: Table, name: string, entries: Table)
    requires DistinctNames(t) && AppendContainer(t, name, entries).Some?
    ensures DistinctNames(AppendContainer(t, name, entries).value) <==> !HasName(t, DecodeSpaces(name))
    ensures !Occurs(name, "%20") ==> DistinctNames(AppendContainer(t, name, entries).value)
  {
    DistinctWithLast(t, Container(DecodeSpaces(name), entries));
    FindIsMembership(t, name);
    if !Occurs(name, "%20") { DecodeNothing(name); }
  }

  lemma ContainerSlipsPastGuard()
    ensures var t := [Container("a b", [])];
            DistinctNames(t) && AppendContainer(t, "a%20b", []).Some? &&
            !DistinctNames(AppendContainer(t, "a%20b", []).value)
  {
    var t := [Container("a b", [])];
    assert DecodeSpaces("a%20b") == "a b" by {
      var s := "a%20b";
      assert !OccursAt(s, "%20", 0) by { EscapeChars(s, 0); }
      var r := s[1..];
      assert r == "%20b" && OccursAt(r, "%20", 0) && r[3..] == "b";
      assert DecodeSpaces("b") == "b" by { assert !OccursAt("b", "%20", 0); }
    }
    assert t[0].name == "a b";
    AppendContainerKeepsDistinctIff(t, "a%20b", []);
  }

  lemma {:induction false} OneMoreValue(e: Entry, value: string)
    requires Target(e).Plain?
    ensures Values(WithValue(e, value)) == Values(e) + [value] && Target(WithValue(e, value)).Plain?
    decreases e
  {
    if e.Alias? { OneMoreValue(e.target, value); }
  }

  lemma {:induction false} OneValueLess(e: Entry, i: nat)
    requires i < ValuesOf(e)
    ensures Values(WithoutValue(e, i)) == Values(e)[..i] + Values(e)[i + 1..]
    decreases e
  {
    if e.Alias? { OneValueLess(e.target, i); }
  }

  /** A value appended is the last of its name; no other value, and no entry, is lost or moved. A new attribute is
      the last entry and has the type given. */
  lemma AppendedValue(t: Table, name: string, ty: string, value: string, other: string)
    requires AppendAttr(t, name, ty, value).Some?
    ensures var u, lname := AppendAttr(t, name, ty, value).value, DecodeSpaces(name);
      Keeps(t, u) && |u| == |t| + (if HasName(t, lname) then 0 else 1) &&
      (!HasName(t, lname) ==> u[|t|] == Plain(lname, AttrTypeOf(ty), [value])) &&
      ValuesNamed(u, other) == ValuesNamed(t, other) + if lname == other then [value] else []
  {
    var lname := DecodeSpaces(name);
    var u, i := AppendAttr(t, name, ty, value).value, SimpleFind(t, lname);
    FindIsMembership(t, lname);
    if i < |t| {
      if Target(t[i]).Plain? { OneMoreValue(t[i], value); }
      FirstIsUnique(u, other, SimpleFind(t, other));
    } else {
      assert forall j :: 0 <= j < |t| ==> u[j] == t[j];
      var j := SimpleFind(t, other);
      FirstIsUnique(u, other, if j < |t| then j else if lname == other then |t| else |t| + 1);
    }
  }

  /** Deleting one value of an attribute takes just that value from its place. */
  lemma DeletedValue(t: Table, name: string, i: nat)
    requires DeletesExistingValue(t, name, i)
    requires HasName(t, DecodeSpaces(name))
    ensures var k, u := SimpleFind(t, DecodeSpaces(name)), DelAttr(t, name, i);
      |u| == |t| && (forall j :: 0 <= j < |t| && j != k ==> u[j] == t[j]) &&
      u[k].name == t[k].name && TypeOfEntry(u[k]) == TypeOfEntry(t[k]) &&
      if TypeOfEntry(t[k]) == AttrContainer then u[k] == t[k] else Values(u[k]) == Values(t[k])[..i] + Values(t[k])[i + 1..]
  {
    FindIsMembership(t, DecodeSpaces(name));
    var k := SimpleFind(t, DecodeSpaces(name));
    if TypeOfEntry(t[k]) != AttrContainer { OneValueLess(t[k], i); }
  }

  /** In a table of distinct names a value is refused exactly when its name is taken by a container or by an attribute
      of another type. */
  lemma AppendThrowsIff(t: Table, name: string, ty: string, value: string)
    requires DistinctNames(t)
    ensures AppendAttr(t, name, ty, value).None? <==>
      exists i :: 0 <= i < |t| && t[i].name == DecodeSpaces(name) &&
                  (TypeOfEntry(t[i]) == AttrContainer || TypeOfEntry(t[i]) != AttrTypeOf(ty))
  {
    var i := SimpleFind(t, DecodeSpaces(name));
    assert forall j :: 0 <= j < |t| && t[j].name == DecodeSpaces(name) ==> j == i;
  }

  function NamesOf(t: Table): set<string> {
    set i | 0 <= i < |t| :: t[i].name
  }

  /** Deleting an attribute takes its entry out and leaves the others in order. */
  lemma DeletedEntry(t: Table, name: string)
    requires HasName(t, DecodeSpaces(name))
    ensures var k, lname := SimpleFind(t, DecodeSpaces(name)), DecodeSpaces(name);
      k < |t| && t[k].name == lname && DelAttr(t, name, -1) == t[..k] + t[k + 1..] && lname !in NamesOf(t[..k])
  {
    FindIsMembership(t, DecodeSpaces(name));
    assert t[SimpleFind(t, DecodeSpaces(name))].name == DecodeSpaces(name);
  }

  /** One edit of a table. An edit that throws, or that no iterator or index allows, leaves the table as it was. */
  datatype Edit =
    | PutValue(name: string, ty: string, value: string)
    | PutContainer(name: string, entries: Table)
    | PutAlias(name: string, source: string, found: Entry)
    | Remove(name: string, i: int)
    | RemoveTable(k: nat)

  function Edited(t: Table, e: Edit): Table {
    var result := match e
      case PutValue(name, ty, value) => AppendAttr(t, name, ty, value)
      case PutContainer(name, entries) => AppendContainer(t, name, entries)
      case PutAlias(name, source, found) => AppendAlias(t, name, source, found)
      case Remove(name, i) => if DeletesExistingValue(t, name, i) then Some(DelAttr(t, name, i)) else None
      case RemoveTable(k) => if k < |t| then Some(DelAttrTable(t, k)) else None;
    if result.Some? then result.value else t
  }

  function EditedBy(t: Table, es: seq<Edit>): Table
    decreases |es|
  {
    if es == [] then t else EditedBy(Edited(t, es[0]), es[1..])
  }

  /** Names stay pairwise distinct through every history of appends, aliases and deletions that names no
      container with a %20. */
  lemma {:induction false} HistoryKeepsDistinct(t: Table, es: seq<Edit>)
    requires DistinctNames(t)
    requires forall i :: 0 <= i < |es| && es[i].PutContainer? ==> !Occurs(es[i].name, "%20")
    ensures DistinctNames(EditedBy(t, es))
    decreases |es|
  {
    if es != [] {
      match es[0] {
        case PutValue(name, ty, value) => AppendAttrKeepsDistinct(t, name, ty, value);
        case PutContainer(name, entries) =>
          if AppendContainer(t, name, entries).Some? { AppendContainerKeepsDistinctIff(t, name, entries); }
        case PutAlias(name, source, found) => AppendAliasKeepsDistinct(t, name, source, found);
        case Remove(name, i) => if DeletesExistingValue(t, name, i) { DelAttrKeepsDistinct(t, name, i); }
        case RemoveTable(k) => if k < |t| { DelAttrTableKeepsDistinct(t, k); }
      }
      HistoryKeepsDistinct(Edited(t, es[0]), es[1..]);
    }
  }

  // ---------------------------------------------------------------------------------------------
  // Finding what an alias stands for
  // ---------------------------------------------------------------------------------------------

  /** recurrsive_find: the first entry of that name, looking into each container before going on behind it. */
  function RecursiveFind(t: Table, target: string): Option<Entry>
    decreases t
  {
    if t == [] then None
    else if t[0].name == target then Some(t[0])
    else
      match FindBelow(t[0], target)
      case Some(e) => Some(e)
      case None => RecursiveFind(t[1..], target)
  }

  function FindBelow(e: Entry, target: string): Option<Entry>
    decreases e
  {
    match e
    case Plain(_, _, _) => None
    case Container(_, entries) => RecursiveFind(entries, target)
    case Alias(_, _, t) => FindBelow(t, target)
  }

  /** All entries of a table and of the tables in it, a container before its content. */
  function Preorder(t: Table): seq<Entry>
    decreases t
  {
    if t == [] then [] else [t[0]] + EntriesBelow(t[0]) + Preorder(t[1..])
  }

  function EntriesBelow(e: Entry): seq<Entry>
    decreases e
  {
    match e
    case Plain(_, _, _) => []
    case Container(_, entries) => Preorder(entries)
    case Alias(_, _, t) => EntriesBelow(t)
  }

  function FirstOf(es: seq<Entry>, name: string): Option<Entry> {
    if SimpleFind(es, name) < |es| then Some(es[SimpleFind(es, name)]) else None
  }

  lemma {:induction false} FirstOfBoth(a: seq<Entry>, b: seq<Entry>, name: string)
    ensures FirstOf(a + b, name) == if FirstOf(a, name).Some? then FirstOf(a, name) else FirstOf(b, name)
  {
    if a == [] {
      assert a + b == b;
    } else if a[0].name != name {
      FirstOfBoth(a[1..], b, name);
      assert (a + b)[1..] == a[1..] + b;
    }
  }

  /** The recursive search finds the first entry of that name in this order, and so any there is. */
  lemma {:induction false} RecursiveFindIsFirst(t: Table, target: string)
    ensures RecursiveFind(t, target) == FirstOf(Preorder(t), target)
    decreases t
  {
    if t != [] {
      var head := [t[0]];
      FindBelowIsFirst(t[0], target);
      RecursiveFindIsFirst(t[1..], target);
      FirstOfBoth(head + EntriesBelow(t[0]), Preorder(t[1..]), target);
      FirstOfBoth(head, EntriesBelow(t[0]), target);
      assert head[0] == t[0];
      FirstIsUnique(head, target, if t[0].name == target then 0 else 1);
    }
  }

  lemma {:induction false} FindBelowIsFirst(e: Entry, target: string)
    ensures FindBelow(e, target) == FirstOf(EntriesBelow(e), target)
    decreases e
  {
    match e
    case Plain(_, _, _) =>
    case Container(_, entries) => RecursiveFindIsFirst(entries, target);
    case Alias(_, _, t) => FindBelowIsFirst(t, target);
  }

  /** The table of the first container of that name; a container without a table counts as none. */
  function FirstTable(t: Table, target: string): Option<OpenTable> {
    if t == [] then None
    else if TypeOfEntry(t[0]) == AttrContainer && t[0].name == target then
      match Target(t[0])
      case Container(name, entries) => Some(OpenTable(name, entries))
      case _ => None
    else FirstTable(t[1..], target)
  }

  /** simple_find_container: a table answers to its own name before its containers are asked. */
  function SimpleFindContainer(at: OpenTable, target: string): Option<OpenTable> {
    if at.name == target then Some(at) else FirstTable(at.table, target)
  }

  /** find_container, for a path of names with dots between them. */
  function FindContainer(at: OpenTable, path: string): Option<OpenTable>
    decreases |path|
  {
    var d := Dot(path);
    if d == |path| then SimpleFindContainer(at, path)
    else
      match SimpleFindContainer(at, path[..d])
      case Some(inner) => FindContainer(inner, path[d + 1..])
      case None => None
  }

  /** find: a name with dots is looked up in the container that the part before the last dot leads to, any
      other name everywhere in the table. */
  function FindEntry(at: OpenTable, target: string): Option<Entry> {
    var d := LastDot(target);
    if d == |target| then RecursiveFind(at.table, target)
    else
      match FindContainer(at, target[..d])
      case Some(a) => FirstOf(a.table, target[d + 1..])
      case None => None
  }

  /** attr_alias with the table itself to search, which is add_value_alias with the table in both roles: only a
      container can be aliased then. None stands for the Error thrown. */
  function AttrAlias(at: OpenTable, name: string, source: string): Option<Table> {
    match FindEntry(at, DecodeSpaces(source))
    case Some(e) =>
      if TypeOfEntry(e) != AttrContainer then None else AppendAlias(at.table, name, DecodeSpaces(source), e)
    case None => None
  }

  /** The container that a list of names leads to, one after the other. */
  function Walk(at: OpenTable, names: seq<string>): Option<OpenTable>
    decreases |names|
  {
    if names == [] then Some(at)
    else
      match SimpleFindContainer(at, names[0])
      case Some(inner) => Walk(inner, names[1..])
      case None => None
  }

  lemma {:induction false} FindContainerWalks(at: OpenTable, path: string)
    ensures FindContainer(at, path) == Walk(at, Parts(path))
    decreases |path|
  {
    var d := Dot(path);
    if d < |path| {
      assert Parts(path)[1..] == Parts(path[d + 1..]);
      var inner := SimpleFindContainer(at, path[..d]);
      if inner.Some? { FindContainerWalks(inner.value, path[d + 1..]); }
    } else {
      assert Parts(path)[1..] == [];
    }
  }

  /** What a source stands for: a single name for the first entry of that name, containers before their content;
      several for an entry of the container that all but the last lead to. */
  function Named(at: OpenTable, names: seq<string>): Option<Entry>
    requires names != []
  {
    var last := names[|names| - 1];
    if |names| == 1 then FirstOf(Preorder(at.table), last)
    else
      match Walk(at, names[..|names| - 1])
      case Some(a) => FirstOf(a.table, last)
      case None => None
  }

  lemma FindEntryIsNamed(at: OpenTable, target: string)
    ensures FindEntry(at, target) == Named(at, Parts(target))
  {
    if '.' in target {
      var front, last := PartsAtLastDot(target);
      FindContainerWalks(at, front);
      assert Parts(target)[..|Parts(target)| - 1] == Parts(front);
    } else {
      assert Dot(target) == |target|;
      RecursiveFindIsFirst(at.table, target);
    }
  }

  /** An alias is taken exactly when its source names a container and the alias has a new name; it is then the
      last entry, and the others are as they were. */
  lemma AttrAliasIff(at: OpenTable, name: string, source: string)
    ensures var e, r := Named(at, Parts(DecodeSpaces(source))), AttrAlias(at, name, source);
            (r.Some? <==> e.Some? && TypeOfEntry(e.value) == AttrContainer && !HasName(at.table, DecodeSpaces(name))) &&
            (r.Some? ==> r.value == at.table + [Alias(DecodeSpaces(name), DecodeSpaces(source), Target(e.value))])
  {
    FindEntryIsNamed(at, DecodeSpaces(source));
    FindIsMembership(at.table, DecodeSpaces(name));
  }

  lemma AttrAliasKeepsDistinct(at: OpenTable, name: string, source: string)
    requires DistinctNames(at.table)
    ensures AttrAlias(at, name, source).Some? ==> DistinctNames(AttrAlias(at, name, source).value)
  {
    var e := FindEntry(at, DecodeSpaces(source));
    if e.Some? { AppendAliasKeepsDistinct(at.table, name, DecodeSpaces(source), e.value); }
  }

  /** recurrsive_find as it is carried out. */
  method FindRecursively(t: Table, target: string) returns (e: Option<Entry>)
    ensures e == RecursiveFind(t, target)
    decreases t
  {
    var i := 0;
    while i < |t|
      invariant i <= |t| && RecursiveFind(t[i..], target) == RecursiveFind(t, target)
    {
      assert t[i..][1..] == t[i + 1..];
      if t[i].name == target { return Some(t[i]); }
      e := FindInEntry(t[i], target);
      if e.Some? { return; }
      i := i + 1;
    }
    return None;
  }

  method FindInEntry(e: Entry, target: string) returns (found: Option<Entry>)
    ensures found == FindBelow(e, target)
    decreases e
  {
    match e
    case Plain(_, _, _) => found := None;
    case Container(_, entries) => found := FindRecursively(entries, target);
    case Alias(_, _, t) => found := FindInEntry(t, target);
  }

  /** The table itself, whose entries the operations replace. */
  class AttrTable {
    const name: string
    var attrMap: Table

    constructor (name: string)
      ensures this.name == name && attrMap == []
    {
      this.name := name;
      attrMap := [];
    }

    function View(): OpenTable
      reads this
    {
      OpenTable(name, attrMap)
    }

    /** simple_find: walk over the entries up to the first with that name. */
    method Find(target: string) returns (i: nat)
      ensures i == SimpleFind(attrMap, target)
    {
      i := 0;
      while i < |attrMap| && attrMap[i].name != target
        invariant i <= |attrMap| && forall j :: 0 <= j < i ==> attrMap[j].name != target
      {
        i := i + 1;
      }
      FirstIsUnique(attrMap, target, i);
    }

    method Append(name: string, ty: string, value: string) returns (size: Option<nat>)
      modifies this
      ensures attrMap == match AppendAttr(old(attrMap), name, ty, value) case Some(t) => t case None => old(attrMap)
      ensures size.Some? <==> AppendAttr(old(attrMap), name, ty, value).Some?
    {
      var lname := RemoveSpaceEncoding(name);
      var iter := Find(lname);
      var t := AttrTypeOf(ty);
      if iter < |attrMap| && TypeOfEntry(attrMap[iter]) != t { return None; }
      if iter < |attrMap| && TypeOfEntry(attrMap[iter]) == AttrContainer { return None; }
      if iter < |attrMap| {
        attrMap := attrMap[iter := WithValue(attrMap[iter], value)];
        return Some(ValuesOf(attrMap[iter]));
      } else {
        attrMap := attrMap + [Plain(lname, t, [value])];
        return Some(1);
      }
    }

    method AppendTable(name: string, entries: Table) returns (ok: bool)
      modifies this
      ensures ok <==> AppendContainer(old(attrMap), name, entries).Some?
      ensures attrMap == if ok then AppendContainer(old(attrMap), name, entries).value else old(attrMap)
    {
      var lname := RemoveSpaceEncoding(name);
      var iter := Find(name);
      if iter != |attrMap| { return false; }
      attrMap := attrMap + [Container(lname, entries)];
      return true;
    }

    /** find */
    method FindTarget(target: string) returns (e: Option<Entry>)
      ensures e == FindEntry(View(), target)
    {
      var d := LastDot(target);
      if d == |target| {
        e := FindRecursively(attrMap, target);
      } else {
        match FindContainer(View(), target[..d])
        case Some(at) => e := FirstOf(at.table, target[d + 1..]);
        case None => e := None;
      }
    }

    /** attr_alias, for a name and a source in the same table */
    method AddAlias(alias: string, source: string) returns (ok: bool)
      modifies this
      ensures ok <==> AttrAlias(old(View()), alias, source).Some?
      ensures attrMap == if ok then AttrAlias(old(View()), alias, source).value else old(attrMap)
    {
      var lname := RemoveSpaceEncoding(alias);
      var lsource := RemoveSpaceEncoding(source);
      var found := FindTarget(lsource);
      if found.None? || TypeOfEntry(found.value) != AttrContainer { return false; }
      var iter := Find(lname);
      if iter != |attrMap| { return false; }
      attrMap := attrMap + [Alias(lname, lsource, Target(found.value))];
      return true;
    }

    /** del_attr_table */
    method DeleteTable(k: nat)
      requires k < |attrMap|
      modifies this
      ensures attrMap == DelAttrTable(old(attrMap), k)
    {
      if TypeOfEntry(attrMap[k]) == AttrContainer { attrMap := attrMap[..k] + attrMap[k + 1..]; }
    }

    method Delete(name: string, i: int)
      requires DeletesExistingValue(attrMap, name, i)
      modifies this
      ensures attrMap == DelAttr(old(attrMap), name, i)
    {
      var lname := RemoveSpaceEncoding(name);
      var iter := Find(lname);
      if iter < |attrMap| {
        if i == -1 {
          attrMap := attrMap[..iter] + attrMap[iter + 1..];
        } else {
          if TypeOfEntry(attrMap[iter]) == AttrContainer { return; }
          attrMap := attrMap[iter := WithoutValue(attrMap[iter], i)];
        }
      }
    }
  }

  lemma FirstIsUnique(t: Table, name: string, i: nat)
    requires i <= |t| && (i < |t| ==> t[i].name == name) && forall j :: 0 <= j < i ==> t[j].name != name
    ensures i == SimpleFind(t, name)
  {
    assert SimpleFind(t, name) <= i;
  }
}
