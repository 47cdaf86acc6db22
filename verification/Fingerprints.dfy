/** What schema discovery learns about a customer database (schemas/introspection.py). */
module SchemaMetadata {

  datatype Column = Column(name: string, sqlType: string, nullable: bool)

  datatype ForeignKey = ForeignKey(constraintName: string, columns: seq<string>,
                                   referencedTable: string, referencedColumns: seq<string>)

  datatype Table = Table(schemaName: string, name: string, kind: string, columns: seq<Column>, primaryKey: seq<string>,
                         foreignKeys: seq<ForeignKey>, uniqueConstraints: seq<seq<string>>)
  {
    function QualifiedName(): string {
      schemaName + "." + name
    }
  }

  datatype Introspection = Introspection(schemas: seq<string>, tables: seq<Table>)

  /** Dictionaries by name; the last of several entries of one name wins. */
  function TablesByName(tables: seq<Table>): (m: map<string, Table>)
    ensures forall name :: name in m ==> m[name] in tables && m[name].QualifiedName() == name
    ensures forall t :: t in tables ==> t.QualifiedName() in m
  {
    if tables == [] then map[]
    else
      var last := tables[|tables| - 1];
      assert tables == tables[..|tables| - 1] + [last];
      TablesByName(tables[..|tables| - 1])[last.QualifiedName() := last]
  }

  function ColumnsByName(columns: seq<Column>): (m: map<string, Column>)
    ensures forall name :: name in m ==> m[name] in columns && m[name].name == name
    ensures forall c :: c in columns ==> c.name in m
  {
    if columns == [] then map[]
    else
      var last := columns[|columns| - 1];
      assert columns == columns[..|columns| - 1] + [last];
      ColumnsByName(columns[..|columns| - 1])[last.name := last]
  }

  ghost predicate UniqueColumnNames(t: Table) {
    forall c, d :: c in t.columns && d in t.columns && c.name == d.name ==> c == d
  }
}

/** Shape fingerprints (schemas/fingerprint.py): hashes of normalised, sorted metadata. The hash and
    the string order behind `sorted` are parameters. */
module Fingerprints {
  import opened Common
  import opened Sorting
  import opened SchemaMetadata

  datatype Json = Text(s: string) | Flag(b: bool) | List(items: seq<Json>) | Object(members: map<string, Json>)

  datatype Hashing = Hashing(hash: Json -> string, rank: Ranking)

  ghost predicate CollisionFree(h: Hashing) {
    forall a, b :: h.hash(a) == h.hash(b) ==> a == b
  }

  function Texts(ss: seq<string>): (j: Json)
    ensures j.List? && |j.items| == |ss|
    ensures forall i :: 0 <= i < |ss| ==> j.items[i] == Text(ss[i])
  {
    List(Map(ss, s => Text(s)))
  }

  function SortedTexts(h: Hashing, ss: seq<string>): Json {
    Texts(Sort(h.rank, ss))
  }

  function FingerprintColumn(h: Hashing, c: Column): string {
    h.hash(Object(map["name" := Text(c.name), "type" := Text(c.sqlType), "nullable" := Flag(c.nullable)]))
  }

  function RelationshipObject(columns: Json, referencedTable: Json, referencedColumns: Json): Json {
    Object(map["columns" := columns, "referenced_table" := referencedTable, "referenced_columns" := referencedColumns])
  }

  function FingerprintRelationship(h: Hashing, fk: ForeignKey): string {
    h.hash(RelationshipObject(SortedTexts(h, fk.columns), Text(fk.referencedTable),
                              SortedTexts(h, fk.referencedColumns)))
  }

  function FingerprintUnique(h: Hashing, columns: seq<string>): string {
    h.hash(SortedTexts(h, columns))
  }

  function ColumnPrint(h: Hashing): Column -> string {
    c => FingerprintColumn(h, c)
  }

  function RelationshipPrint(h: Hashing): ForeignKey -> string {
    fk => FingerprintRelationship(h, fk)
  }

  function UniquePrint(h: Hashing): seq<string> -> string {
    columns => FingerprintUnique(h, columns)
  }

  function TableObject(schemaName: Json, name: Json, kind: Json, columns: Json, primaryKey: Json,
                       relationships: Json, uniques: Json): Json
  {
    Object(map["schema" := schemaName, "name" := name, "kind" := kind, "columns" := columns,
               "primary_key" := primaryKey, "relationships" := relationships, "unique_constraints" := uniques])
  }

  function TableDocument(h: Hashing, t: Table): Json {
    TableObject(Text(t.schemaName), Text(t.name), Text(t.kind),
                SortedTexts(h, Map(t.columns, ColumnPrint(h))),
                SortedTexts(h, t.primaryKey),
                SortedTexts(h, Map(t.foreignKeys, RelationshipPrint(h))),
                SortedTexts(h, Map(t.uniqueConstraints, UniquePrint(h))))
  }

  function FingerprintTable(h: Hashing, t: Table): string {
    h.hash(TableDocument(h, t))
  }

  function TableFingerprints(h: Hashing, r: Introspection): (prints: map<string, string>)
    ensures prints.Keys == TablesByName(r.tables).Keys
  {
    var byName := TablesByName(r.tables);
    map name | name in byName :: FingerprintTable(h, byName[name])
  }

  function TextObject(texts: map<string, string>): (j: Json)
    ensures j.Object? && j.members.Keys == texts.Keys
    ensures forall name :: name in texts ==> j.members[name] == Text(texts[name])
  {
    Object(map name | name in texts :: Text(texts[name]))
  }

  function SchemaObject(schemas: Json, tables: Json): Json {
    Object(map["schemas" := schemas, "tables" := tables])
  }

  function SchemaDocument(h: Hashing, r: Introspection): Json {
    SchemaObject(SortedTexts(h, r.schemas), TextObject(TableFingerprints(h, r)))
  }

  function SchemaFingerprint(h: Hashing, r: Introspection): string {
    h.hash(SchemaDocument(h, r))
  }

  // ---- what a fingerprint identifies -----------------------------------------------------------------

  function RelationshipShape(): ForeignKey -> (multiset<string>, string, multiset<string>) {
    (fk: ForeignKey) => (multiset(fk.columns), fk.referencedTable, multiset(fk.referencedColumns))
  }

  function UniqueShape(): seq<string> -> multiset<string> {
    (columns: seq<string>) => multiset(columns)
  }

  /** Equal up to the order of columns, keys and constraints, and up to the names of constraints. */
  ghost predicate SameShape(t: Table, u: Table) {
    && t.schemaName == u.schemaName && t.name == u.name && t.kind == u.kind
    && multiset(t.columns) == multiset(u.columns)
    && multiset(t.primaryKey) == multiset(u.primaryKey)
    && Image(t.foreignKeys, RelationshipShape()) == Image(u.foreignKeys, RelationshipShape())
    && Image(t.uniqueConstraints, UniqueShape()) == Image(u.uniqueConstraints, UniqueShape())
  }

  lemma SortedTextsForgetOnlyOrder(h: Hashing, a: seq<string>, b: seq<string>)
    requires Injective(h.rank)
    ensures SortedTexts(h, a) == SortedTexts(h, b) <==> multiset(a) == multiset(b)
  {
    SortForgetsOnlyOrder(h.rank, a, b);
    if SortedTexts(h, a) == SortedTexts(h, b) {
      var s, t := Sort(h.rank, a), Sort(h.rank, b);
      assert |Texts(s).items| == |Texts(t).items|;
      forall i | 0 <= i < |s|
        ensures s[i] == t[i]
      {
        assert Texts(s).items[i] == Texts(t).items[i];
      }
      assert s == t;
    }
  }

  /** Sorted lists of fingerprints agree exactly when the fingerprinted items have the same shapes up
      to order, provided single fingerprints tell apart exactly the shapes. */
  lemma SortedPrintsIdentifyShapes<T(!new), S>(h: Hashing, a: seq<T>, b: seq<T>, mark: T -> string, shape: T -> S)
    requires Injective(h.rank)
    requires forall x, y :: mark(x) == mark(y) <==> shape(x) == shape(y)
    ensures SortedTexts(h, Map(a, mark)) == SortedTexts(h, Map(b, mark)) <==> Image(a, shape) == Image(b, shape)
  {
    SortedTextsForgetOnlyOrder(h, Map(a, mark), Map(b, mark));
    ImageIsMultisetOfMap(a, mark);
    ImageIsMultisetOfMap(b, mark);
    if Image(a, mark) == Image(b, mark) {
      FinerImagesDecide(a, b, mark, shape);
    }
    if Image(a, shape) == Image(b, shape) {
      FinerImagesDecide(a, b, shape, mark);
    }
  }

  function Same<T>(): T -> T {
    x => x
  }

  lemma {:induction false} ImageOfSame<T>(s: seq<T>)
    ensures Image(s, Same()) == multiset(s)
  {
    if s != [] {
      ImageOfSame(s[1..]);
      assert s == [s[0]] + s[1..];
    }
  }

  lemma ColumnPrintIdentifies(h: Hashing, c: Column, d: Column)
    requires CollisionFree(h)
    ensures ColumnPrint(h)(c) == ColumnPrint(h)(d) <==> c == d
  {
    var a := map["name" := Text(c.name), "type" := Text(c.sqlType), "nullable" := Flag(c.nullable)];
    var b := map["name" := Text(d.name), "type" := Text(d.sqlType), "nullable" := Flag(d.nullable)];
    if FingerprintColumn(h, c) == FingerprintColumn(h, d) {
      assert Object(a) == Object(b);
      assert a["name"] == b["name"] && a["type"] == b["type"] && a["nullable"] == b["nullable"];
    }
  }

  lemma RelationshipPrintIdentifies(h: Hashing, f: ForeignKey, g: ForeignKey)
    requires CollisionFree(h) && Injective(h.rank)
    ensures RelationshipPrint(h)(f) == RelationshipPrint(h)(g) <==> RelationshipShape()(f) == RelationshipShape()(g)
  {
    SortedTextsForgetOnlyOrder(h, f.columns, g.columns);
    SortedTextsForgetOnlyOrder(h, f.referencedColumns, g.referencedColumns);
    RelationshipObjectIsInjective(SortedTexts(h, f.columns), Text(f.referencedTable),
                                  SortedTexts(h, f.referencedColumns), SortedTexts(h, g.columns),
                                  Text(g.referencedTable), SortedTexts(h, g.referencedColumns));
  }

  lemma RelationshipObjectIsInjective(a: Json, b: Json, c: Json, x: Json, y: Json, z: Json)
    ensures RelationshipObject(a, b, c) == RelationshipObject(x, y, z) <==> a == x && b == y && c == z
  {
    var m, n := RelationshipObject(a, b, c).members, RelationshipObject(x, y, z).members;
    if m == n {
      assert m["columns"] == n["columns"] && m["referenced_table"] == n["referenced_table"];
      assert m["referenced_columns"] == n["referenced_columns"];
    }
  }

  lemma TableObjectMembers(a: Json, b: Json, c: Json, d: Json, e: Json, f: Json, g: Json)
    ensures var m := TableObject(a, b, c, d, e, f, g).members;
            && m.Keys == {"schema", "name", "kind", "columns", "primary_key", "relationships", "unique_constraints"}
            && m["schema"] == a && m["name"] == b && m["kind"] == c && m["columns"] == d && m["primary_key"] == e
            && m["relationships"] == f && m["unique_constraints"] == g
  {
  }

  lemma TableObjectIsInjective(a: Json, b: Json, c: Json, d: Json, e: Json, f: Json, g: Json,
                               t: Json, u: Json, v: Json, w: Json, x: Json, y: Json, z: Json)
    ensures TableObject(a, b, c, d, e, f, g) == TableObject(t, u, v, w, x, y, z)
            <==> a == t && b == u && c == v && d == w && e == x && f == y && g == z
  {
    TableObjectMembers(a, b, c, d, e, f, g);
    TableObjectMembers(t, u, v, w, x, y, z);
  }

  lemma UniquePrintIdentifies(h: Hashing, a: seq<string>, b: seq<string>)
    requires CollisionFree(h) && Injective(h.rank)
    ensures UniquePrint(h)(a) == UniquePrint(h)(b) <==> UniqueShape()(a) == UniqueShape()(b)
  {
    SortedTextsForgetOnlyOrder(h, a, b);
  }

  /** The four sorted parts of a table's document agree exactly when the table's parts do. */
  lemma PartsIdentifyShape(h: Hashing, t: Table, u: Table)
    requires CollisionFree(h) && Injective(h.rank)
    ensures SortedTexts(h, Map(t.columns, ColumnPrint(h))) == SortedTexts(h, Map(u.columns, ColumnPrint(h)))
            <==> multiset(t.columns) == multiset(u.columns)
    ensures SortedTexts(h, t.primaryKey) == SortedTexts(h, u.primaryKey) <==>
              multiset(t.primaryKey) == multiset(u.primaryKey)
    ensures SortedTexts(h, Map(t.foreignKeys, RelationshipPrint(h)))
            == SortedTexts(h, Map(u.foreignKeys, RelationshipPrint(h)))
            <==> Image(t.foreignKeys, RelationshipShape()) == Image(u.foreignKeys, RelationshipShape())
    ensures SortedTexts(h, Map(t.uniqueConstraints, UniquePrint(h)))
            == SortedTexts(h, Map(u.uniqueConstraints, UniquePrint(h)))
            <==> Image(t.uniqueConstraints, UniqueShape()) == Image(u.uniqueConstraints, UniqueShape())
  {
    forall c, d
      ensures ColumnPrint(h)(c) == ColumnPrint(h)(d) <==> Same<Column>()(c) == Same<Column>()(d)
    {
      ColumnPrintIdentifies(h, c, d);
    }
    SortedPrintsIdentifyShapes(h, t.columns, u.columns, ColumnPrint(h), Same());
    ImageOfSame(t.columns);
    ImageOfSame(u.columns);
    SortedTextsForgetOnlyOrder(h, t.primaryKey, u.primaryKey);
    forall f, g
      ensures RelationshipPrint(h)(f) == RelationshipPrint(h)(g) <==> RelationshipShape()(f) == RelationshipShape()(g)
    {
      RelationshipPrintIdentifies(h, f, g);
    }
    SortedPrintsIdentifyShapes(h, t.foreignKeys, u.foreignKeys, RelationshipPrint(h), RelationshipShape());
    forall a, b
      ensures UniquePrint(h)(a) == UniquePrint(h)(b) <==> UniqueShape()(a) == UniqueShape()(b)
    {
      UniquePrintIdentifies(h, a, b);
    }
    SortedPrintsIdentifyShapes(h, t.uniqueConstraints, u.uniqueConstraints, UniquePrint(h), UniqueShape());
  }

  /** A table fingerprint ignores the order rows were returned in, and identifies everything else:
      with a collision-free hash two tables have the same fingerprint exactly when they have the same
      shape. */
  lemma TableFingerprintIsExact(h: Hashing, t: Table, u: Table)
    requires CollisionFree(h) && Injective(h.rank)
    ensures FingerprintTable(h, t) == FingerprintTable(h, u) <==> SameShape(t, u)
  {
    PartsIdentifyShape(h, t, u);
    TableObjectIsInjective(
      Text(t.schemaName), Text(t.name), Text(t.kind), SortedTexts(h, Map(t.columns, ColumnPrint(h))),
      SortedTexts(h, t.primaryKey), SortedTexts(h, Map(t.foreignKeys, RelationshipPrint(h))),
      SortedTexts(h, Map(t.uniqueConstraints, UniquePrint(h))),
      Text(u.schemaName), Text(u.name), Text(u.kind), SortedTexts(h, Map(u.columns, ColumnPrint(h))),
      SortedTexts(h, u.primaryKey), SortedTexts(h, Map(u.foreignKeys, RelationshipPrint(h))),
      SortedTexts(h, Map(u.uniqueConstraints, UniquePrint(h))));
  }

  /** The same schemas and tables up to order, and table by table the same shape. */
  ghost predicate SameSchema(r: Introspection, q: Introspection) {
    multiset(r.schemas) == multiset(q.schemas) && SameTables(TablesByName(r.tables), TablesByName(q.tables))
  }

  ghost predicate SameTables(tables: map<string, Table>, others: map<string, Table>) {
    tables.Keys == others.Keys && forall name :: name in tables ==> SameShape(tables[name], others[name])
  }

  lemma SchemaObjectIsInjective(a: Json, b: Json, c: Json, d: Json)
    ensures SchemaObject(a, b) == SchemaObject(c, d) <==> a == c && b == d
  {
    var m, n := SchemaObject(a, b).members, SchemaObject(c, d).members;
    assert m["schemas"] == a && m["tables"] == b && n["schemas"] == c && n["tables"] == d;
  }

  lemma TextObjectIsInjective(a: map<string, string>, b: map<string, string>)
    ensures TextObject(a) == TextObject(b) <==> a == b
  {
    var m, n := TextObject(a).members, TextObject(b).members;
    if m == n {
      assert a.Keys == b.Keys;
      forall name | name in a
        ensures a[name] == b[name]
      {
        assert m[name] == n[name];
      }
    }
  }

  lemma PrintsDecideTables(prints: map<string, string>, otherPrints: map<string, string>,
                           tables: map<string, Table>, others: map<string, Table>)
    requires prints.Keys == tables.Keys && otherPrints.Keys == others.Keys
    requires forall name :: name in prints && name in otherPrints ==>
               (prints[name] == otherPrints[name] <==> SameShape(tables[name], others[name]))
    ensures prints == otherPrints <==> SameTables(tables, others)
  {
  }

  lemma SameTablePrints(h: Hashing, r: Introspection, q: Introspection)
    requires CollisionFree(h) && Injective(h.rank)
    ensures TableFingerprints(h, r) == TableFingerprints(h, q) <==>
              SameTables(TablesByName(r.tables), TablesByName(q.tables))
  {
    var prints, otherPrints := TableFingerprints(h, r), TableFingerprints(h, q);
    forall name | name in prints && name in otherPrints
      ensures prints[name] == otherPrints[name] <==>
                SameShape(TablesByName(r.tables)[name], TablesByName(q.tables)[name])
    {
      PrintAt(h, r, q, name);
    }
    PrintsDecideTables(prints, otherPrints, TablesByName(r.tables), TablesByName(q.tables));
  }

  lemma PrintAt(h: Hashing, r: Introspection, q: Introspection, name: string)
    requires CollisionFree(h) && Injective(h.rank) && name in TablesByName(r.tables) && name in TablesByName(q.tables)
    ensures TableFingerprints(h, r)[name] == TableFingerprints(h, q)[name]
            <==> SameShape(TablesByName(r.tables)[name], TablesByName(q.tables)[name])
  {
    TableFingerprintIsExact(h, TablesByName(r.tables)[name], TablesByName(q.tables)[name]);
  }

  /** With a collision-free hash, schema fingerprints are equal exactly when the schemas agree up to order,
      the table names are the same and every table has the same shape. */
  lemma SchemaFingerprintIsExact(h: Hashing, r: Introspection, q: Introspection)
    requires CollisionFree(h) && Injective(h.rank)
    ensures SchemaFingerprint(h, r) == SchemaFingerprint(h, q) <==> SameSchema(r, q)
  {
    SchemaObjectIsInjective(SortedTexts(h, r.schemas), TextObject(TableFingerprints(h, r)),
                            SortedTexts(h, q.schemas), TextObject(TableFingerprints(h, q)));
    TextObjectIsInjective(TableFingerprints(h, r), TableFingerprints(h, q));
    SortedTextsForgetOnlyOrder(h, r.schemas, q.schemas);
    SameTablePrints(h, r, q);
  }

  ghost predicate UniqueTableNames(tables: seq<Table>) {
    forall t, u :: t in tables && u in tables && t.QualifiedName() == u.QualifiedName() ==> t == u
  }

  lemma SameTablesSameDictionary(tables: seq<Table>, others: seq<Table>)
    requires UniqueTableNames(tables) && forall t :: t in tables <==> t in others
    ensures TablesByName(tables) == TablesByName(others)
  {
    forall name | name in TablesByName(tables)
      ensures name in TablesByName(others) && TablesByName(others)[name] == TablesByName(tables)[name]
    {
      SameEntry(tables, others, name);
    }
    forall name | name in TablesByName(others)
      ensures name in TablesByName(tables)
    {
      assert TablesByName(others)[name] in tables;
    }
  }

  lemma SameEntry(tables: seq<Table>, others: seq<Table>, name: string)
    requires UniqueTableNames(tables) && forall t :: t in tables <==> t in others
    requires name in TablesByName(tables)
    ensures name in TablesByName(others) && TablesByName(others)[name] == TablesByName(tables)[name]
  {
    var t := TablesByName(tables)[name];
    assert t in others && t.QualifiedName() == name;
    assert TablesByName(others)[name] in tables;
  }

  lemma SameMultisetSameMembers(tables: seq<Table>, others: seq<Table>)
    requires multiset(tables) == multiset(others)
    ensures forall t :: t in tables <==> t in others
  {
    assert forall t :: t in tables <==> t in multiset(tables);
    assert forall t :: t in others <==> t in multiset(others);
  }

  /** So the order in which schemas and tables are found does not matter. */
  lemma SchemaFingerprintIgnoresOrder(h: Hashing, r: Introspection, q: Introspection)
    requires Injective(h.rank) && UniqueTableNames(r.tables)
    requires multiset(r.schemas) == multiset(q.schemas) && multiset(r.tables) == multiset(q.tables)
    ensures SchemaFingerprint(h, r) == SchemaFingerprint(h, q)
  {
    SameMultisetSameMembers(r.tables, q.tables);
    SameTablesSameDictionary(r.tables, q.tables);
    SortedTextsForgetOnlyOrder(h, r.schemas, q.schemas);
    assert TableFingerprints(h, r) == TableFingerprints(h, q);
  }
}
