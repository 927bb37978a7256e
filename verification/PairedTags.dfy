/**
 From struct tags to the join: a relation field gives a loader whose keys the meta schema has registered, and a
 one-to-many field with the many-to-one field that leads back gives two loaders that are each other's inverse.
 */
module PairedTags {
  import opened Wrappers
  import opened Strings
  import opened Sql
  import opened ScopeCaches
  import opened Joins
  import opened CacheContents
  import opened Includes
  import opened LoaderLists
  import opened EagerQueries
  import opened Meta
  import opened EntityPatches

  /** The relation a generated loader follows, by column names. */
  function RelationIn(owner: string, rel: Generated): Relation
    requires |rel.foreignKeys| == |rel.references|
  {
    Relation(owner, rel.field, rel.table,
             seq(|rel.references|, i requires 0 <= i < |rel.references| =>
               ColumnPair(rel.foreignKeys[i].column, rel.references[i].column)))
  }

  lemma {:induction false} ResolvedAt(snake: string -> string, fields: seq<Field>, names: seq<string>, i: nat)
    requires Resolved(snake, fields, names).Some? && i < |names|
    ensures |Resolved(snake, fields, names).value| == |names|
    ensures var first := First(fields, EqColumnName(snake, names[i]));
            first.Some? && Resolved(snake, fields, names).value[i] == RelColumn(names[i], first.value.name)
  {
    var n := |names| - 1;
    assert |Resolved(snake, fields, names[..n]).value| == n by {
      ResolvedNames(snake, fields, names[..n]);
      assert |RelNames(Resolved(snake, fields, names[..n]).value)| == n;
    }
    if i < n {
      ResolvedAt(snake, fields, names[..n], i);
    }
  }

  /** The pairs of the tag, in order, are the pairs of the relation. */
  lemma {:induction false} RelationPairs(snake: string -> string, decl: Decl, f: Field, refe: Decl)
    requires RelationOf(snake, decl, f, refe).Some?
    ensures var rel := RelationOf(snake, decl, f, refe).value;
            && |rel.foreignKeys| == |rel.references|
            && RelationIn(TableName(snake, decl), rel).pairs == PairsOf(f)
            && RelationIn(TableName(snake, decl), rel).Refs() == ReferenceKey(f)
            && rel.table == TableName(snake, refe)
  {
    var rel := RelationOf(snake, decl, f, refe).value;
    ResolvedNames(snake, Filter(decl.fields, IsColumn), ForeignKey(f));
    ResolvedNames(snake, Filter(refe.fields, IsColumn), ReferenceKey(f));
    hide Resolved, RelationOf, PairsOf;
    assert |RelNames(rel.foreignKeys)| == |rel.foreignKeys| && |RelNames(rel.references)| == |rel.references|;
    forall i | 0 <= i < |PairsOf(f)|
      ensures rel.foreignKeys[i].column == PairsOf(f)[i].fore && rel.references[i].column == PairsOf(f)[i].refe
    {
      assert RelNames(rel.foreignKeys)[i] == ForeignKey(f)[i];
      assert RelNames(rel.references)[i] == ReferenceKey(f)[i];
    }
  }

  // ----- records and rows

  /** The fields a scan fills from a row: for each column the first field that has it. */
  ghost predicate Scanned(snake: string -> string, decl: Decl, row: Row, v: map<string, Value>) {
    forall c ::
      match First(Filter(decl.fields, IsColumn), EqColumnName(snake, c))
      case Some(f) => At(v, f.name) == At(row, c)
      case None => true
  }

  lemma {:induction false} ForeOfRef(rel: Relation, i: nat)
    requires i < |rel.pairs| && Distinct(rel.Refs())
    ensures rel.Refs()[i] == rel.pairs[i].refe && rel.Fore(rel.Refs()[i]) == rel.pairs[i].fore
  {
    assert forall j | 0 <= j < |rel.pairs| :: rel.Refs()[j] == rel.pairs[j].refe;
    ForeOfPair(rel.pairs, i);
  }

  /** The key a loader builds from the fields of a scanned record is the relation's key of the row. */
  lemma {:induction false} LoaderKeyOfRow(snake: string -> string, decl: Decl, f: Field, refe: Decl, row: Row,
                                          v: map<string, Value>)
    requires RelationOf(snake, decl, f, refe).Some? && Distinct(ReferenceKey(f)) && Scanned(snake, decl, row, v)
    ensures var rel := RelationOf(snake, decl, f, refe).value;
            && |rel.foreignKeys| == |rel.references|
            && LoaderKey(rel, v) == RelationIn(TableName(snake, decl), rel).KeyFor(row)
  {
    var rel := RelationOf(snake, decl, f, refe).value;
    RelationPairs(snake, decl, f, refe);
    ResolvedNames(snake, Filter(refe.fields, IsColumn), ReferenceKey(f));
    var follows := RelationIn(TableName(snake, decl), rel);
    var names, vals := RelNames(rel.references), RelValues(rel.foreignKeys, v);
    FillAt(names, vals);
    forall i | 0 <= i < |names|
      ensures vals[i] == At(row, follows.Fore(names[i]))
    {
      ResolvedAt(snake, Filter(decl.fields, IsColumn), ForeignKey(f), i);
      ForeOfRef(follows, i);
    }
    hide Fill, Resolved, Scanned, RelationOf, Relation.Fore, RelNames, RelValues;
    SameKey(names, vals, follows, row);
  }

  lemma {:induction false} SameKey(names: seq<string>, vals: seq<Value>, rel: Relation, row: Row)
    requires |names| == |vals| && Distinct(names) && names == rel.Refs()
    requires forall i | 0 <= i < |names| :: vals[i] == At(row, rel.Fore(names[i]))
    ensures Fill(names, vals) == rel.KeyFor(row).key
  {
    hide Fill, Relation.Fore, Relation.Refs;
    FillAt(names, vals);
    forall c | c in Fill(names, vals)
      ensures Fill(names, vals)[c] == rel.KeyFor(row).key[c]
    {
      var i :| 0 <= i < |names| && names[i] == c;
    }
  }

  lemma {:induction false} KeyOfRow(sch: Schema, e: Entity, key: seq<MetaColumn>, u: map<string, Value>)
    requires Distinct(ColumnNames(key)) && forall i | 0 <= i < |key| :: At(u, key[i].field) == At(e.row, key[i].column)
    ensures EntityKey(e.table, key, u) == sch.KeyOf(e, ColumnNames(key))
  {
    var names, vals := ColumnNames(key), ValuesOf(key, u);
    FillAt(names, vals);
    hide Fill, ColumnNames, ValuesOf;
    assert forall i | 0 <= i < |names| :: vals[i] == At(e.row, names[i]);
    forall c | c in names
      ensures c in Fill(names, vals) && Fill(names, vals)[c] == At(e.row, c)
    {
      var i :| 0 <= i < |names| && names[i] == c;
    }
  }

  /** The reference key that the meta schema reads off the fields of a scanned record is its key by columns. */
  lemma {:induction false} EntityKeyOfRow(snake: string -> string, refe: Decl, names: seq<string>,
                                          sch: Schema, e: Entity, u: map<string, Value>)
    requires Resolved(snake, Filter(refe.fields, IsColumn), names).Some? && Distinct(names)
    requires forall c | c in names :: !Shadowed(snake, refe, c)
    requires Scanned(snake, refe, e.row, u)
    ensures var key := KeyColumns(snake, refe, names);
            ColumnNames(key) == names && EntityKey(e.table, key, u) == sch.KeyOf(e, ColumnNames(key))
  {
    var key := KeyColumns(snake, refe, names);
    KeyMatchesReferences(snake, refe, names);
    assert ColumnNames(key) == names;
    hide KeyColumns;
    forall i | 0 <= i < |key|
      ensures At(u, key[i].field) == At(e.row, key[i].column)
    {
      ResolvedAt(snake, Filter(refe.fields, IsColumn), names, i);
    }
    KeyOfRow(sch, e, key, u);
  }

  /** The same for the primary key of a struct whose columns have distinct names. */
  lemma {:induction false} PrimaryKeyOfRow(snake: string -> string, types: seq<Decl>, decl: Decl,
                                           sch: Schema, e: Entity, u: map<string, Value>)
    requires Distinct(ColumnNames(ColumnsOf(snake, Filter(decl.fields, IsColumn)))) && Scanned(snake, decl, e.row, u)
    ensures var key := MetaOf(snake, types, decl).primaryKey;
            EntityKey(e.table, key, u) == sch.KeyOf(e, ColumnNames(key))
  {
    var fields := Filter(decl.fields, IsColumn);
    var keys := Filter(fields, IsPrimaryKey);
    DistinctFiltered(snake, fields, IsPrimaryKey);
    Filtered(decl.fields, IsColumn);
    Filtered(fields, IsPrimaryKey);
    var key := ColumnsOf(snake, keys);
    forall i | 0 <= i < |key|
      ensures At(u, key[i].field) == At(e.row, key[i].column)
    {
      assert keys[i] in fields;
      var k :| 0 <= k < |fields| && fields[k] == keys[i];
      NamedFirst(snake, fields, k);
    }
    KeyOfRow(sch, e, key, u);
  }

  lemma {:induction false} NamedFirst(snake: string -> string, fields: seq<Field>, k: nat)
    requires k < |fields| && !IsIgnored(fields[k]) && Distinct(ColumnNames(ColumnsOf(snake, fields)))
    ensures First(fields, EqColumnName(snake, ColumnName(snake, fields[k]))) == Some(fields[k])
  {
    var names := ColumnNames(ColumnsOf(snake, fields));
    assert forall i | 0 <= i < |fields| :: names[i] == ColumnName(snake, fields[i]);
    hide ColumnName, First;
    FirstAt(fields, EqColumnName(snake, ColumnName(snake, fields[k])), k);
  }

  // ----- a field and its loader

  /** A relation field whose columns exist, are named once, and are not shadowed by another relation field. */
  ghost predicate Tagged(snake: string -> string, types: seq<Decl>, decl: Decl, f: Field, refe: Decl) {
    && decl in types && f in decl.fields && Refers(refe.name, f) && (IsOneToMany(f) || IsToOne(f))
    && RelationOf(snake, decl, f, refe).Some? && Distinct(ReferenceKey(f))
    && forall c | c in ReferenceKey(f) :: !Shadowed(snake, refe, c)
  }

  /** The loader generated for the field. */
  function LoaderOf(snake: string -> string, types: seq<Decl>, decl: Decl, f: Field, refe: Decl): (l: Loader)
    requires Tagged(snake, types, decl, f, refe)
    ensures l.rel.owner == TableName(snake, decl) && l.rel.field == f.name && l.rel.table == TableName(snake, refe)
    ensures l.rel.pairs == PairsOf(f) && l.rel.Refs() == ReferenceKey(f) && (l.Many? <==> IsOneToMany(f))
  {
    RelationPairs(snake, decl, f, refe);
    var rel := RelationIn(TableName(snake, decl), RelationOf(snake, decl, f, refe).value);
    if IsOneToMany(f) then Many(rel) else One(rel)
  }

  lemma {:induction false} KeyByName(snake: string -> string, refe: Decl, f: Field)
    requires Resolved(snake, Filter(refe.fields, IsColumn), ReferenceKey(f)).Some?
    requires forall c | c in ReferenceKey(f) :: !Shadowed(snake, refe, c)
    ensures ColumnNames(KeyColumns(snake, refe, ReferenceKey(f))) == ReferenceKey(f)
  {
    KeyMatchesReferences(snake, refe, ReferenceKey(f));
  }

  /** The meta schema has registered the key by which the loader looks for records. */
  lemma {:induction false} KeyLeads(snake: string -> string, types: seq<Decl>, decl: Decl, f: Field, refe: Decl)
    requires Tagged(snake, types, decl, f, refe)
    ensures var keys, l := KeysOfTable(MetaOf(snake, types, refe)), LoaderOf(snake, types, decl, f, refe);
            Leads(if l.Many? then keys.oneToMany else keys.manyToOne, l.rel)
  {
    KeyIsRegistered(snake, types, decl, f, refe);
    KeyByName(snake, refe, f);
    hide KeyColumns, RelationOf, Resolved, ReferenceKey, Shadowed, MetaOf, IsOneToMany, IsToOne, Refers;
    var key := KeyColumns(snake, refe, ReferenceKey(f));
    var l, m := LoaderOf(snake, types, decl, f, refe), MetaOf(snake, types, refe);
    NamedKeyLeads(if l.Many? then m.oneToMany else m.manyToOne, key, l.rel);
  }

  lemma {:induction false} NamedKeyLeads(keys: seq<seq<MetaColumn>>, key: seq<MetaColumn>, rel: Relation)
    requires key in keys && ColumnNames(key) == rel.Refs()
    ensures Leads(AllNames(keys), rel)
  {
    var k :| 0 <= k < |keys| && keys[k] == key;
    assert AllNames(keys)[k] == rel.Refs();
    assert ColumnSet(AllNames(keys)[k]) == rel.RefSet();
  }

  lemma {:induction false} RegularEnds(w: World, rel: Relation, rows: seq<Row>)
    requires w.Faithful() && w.RegularRows(rel.table, rows) && rel.table in w.sch.tables
    requires Leads(w.sch.tables[rel.table].oneToMany, rel) || Leads(w.sch.tables[rel.table].manyToOne, rel)
    ensures Based(w, rel, rows)
  {
    var t := w.sch.tables[rel.table];
    var keys := if Leads(t.oneToMany, rel) then t.oneToMany else t.manyToOne;
    var k :| 0 <= k < |keys| && ColumnSet(keys[k]) == rel.RefSet();
    forall i, c | 0 <= i < |rows| && c in rel.Refs()
      ensures At(rows[i], c) in w.vals
    {
      assert c in ColumnSet(keys[k]);
      assert World.KeyColumn(t, c);
      assert w.Regular(rel.table, rows[i]);
    }
  }

  /** With the meta schema computed from the tags, over rows that fit it, every generated loader is ready to run. */
  lemma {:induction false} TaggedLoaderReady(snake: string -> string, types: seq<Decl>, decl: Decl, f: Field,
                                             refe: Decl, w: World, db: Db)
    requires Tagged(snake, types, decl, f, refe) && w.Faithful()
    requires TableName(snake, refe) in w.sch.tables
    requires w.sch.tables[TableName(snake, refe)] == KeysOfTable(MetaOf(snake, types, refe))
    requires w.RegularRows(TableName(snake, refe), RowsIn(db, TableName(snake, refe)))
    requires AllStart(w, LoaderOf(snake, types, decl, f, refe).rel, RowsIn(db, TableName(snake, decl)))
    ensures LoaderReady(w, db, LoaderOf(snake, types, decl, f, refe))
  {
    KeyLeads(snake, types, decl, f, refe);
    hide Tagged, MetaOf, World.Faithful, World.RegularRows, AllStart, Leads, Based;
    var l := LoaderOf(snake, types, decl, f, refe);
    RegularEnds(w, l.rel, RowsIn(db, l.rel.table));
  }

  /** An object is filed once under the key of a field that is the only one-to-many field to lead to its struct. */
  lemma {:induction false} FiledOnce(snake: string -> string, types: seq<Decl>, decl: Decl, f: Field, refe: Decl,
                                     w: World)
    requires Tagged(snake, types, decl, f, refe) && Filter(Referring(types, refe.name), IsOneToMany) == [f]
    requires TableName(snake, refe) in w.sch.tables
    requires w.sch.tables[TableName(snake, refe)] == KeysOfTable(MetaOf(snake, types, refe))
    ensures Times(w, LoaderOf(snake, types, decl, f, refe).rel) == 1
  {
    KeyByName(snake, refe, f);
    var rel := LoaderOf(snake, types, decl, f, refe).rel;
    hide KeyColumns, RelationOf, Resolved, ReferenceKey, Shadowed, IsOneToMany, IsToOne, Refers, Filter, Referring,
         Tagged;
    var key := KeyColumns(snake, refe, ReferenceKey(f));
    assert KeysOf(snake, refe, [f]) == [key];
    assert AllNames([key]) == [ReferenceKey(f)];
    var keys := w.sch.tables[rel.table].oneToMany;
    var sets := seq(|keys|, i requires 0 <= i < |keys| => ColumnSet(keys[i]));
    assert sets == [rel.RefSet()] && sets[..0] == [];
    assert Count(sets, rel.RefSet()) == 1;
  }

  // ----- two fields that lead to each other

  /** A one-to-many and a many-to-one field that lead to each other's structs over the same columns. */
  ghost predicate Paired(snake: string -> string, types: seq<Decl>, parent: Decl, f: Field, child: Decl, g: Field) {
    && Tagged(snake, types, parent, f, child) && Tagged(snake, types, child, g, parent)
    && IsOneToMany(f) && IsToOne(g) && TableName(snake, parent) != TableName(snake, child)
    && (forall p | p in PairsOf(f) :: ColumnPair(p.refe, p.fore) in PairsOf(g))
    && (forall p | p in PairsOf(g) :: ColumnPair(p.refe, p.fore) in PairsOf(f))
  }

  /** The relations of the two loaders are each other's inverse. */
  lemma {:induction false} PairIsMirrored(snake: string -> string, types: seq<Decl>, parent: Decl, f: Field,
                                          child: Decl, g: Field)
    requires Paired(snake, types, parent, f, child, g)
    ensures Mirrored(LoaderOf(snake, types, parent, f, child).rel, LoaderOf(snake, types, child, g, parent).rel)
  {
    hide RelationOf, PairsOf, ReferenceKey, Shadowed, Refers, TableName, IsOneToMany, IsToOne;
  }

  lemma {:induction false} ForeIsRef(rel: Relation, back: Relation, c: string)
    requires c in rel.Refs() && forall p | p in rel.pairs :: ColumnPair(p.refe, p.fore) in back.pairs
    requires Distinct(rel.Refs())
    ensures rel.Fore(c) in back.Refs()
  {
    var i :| 0 <= i < |rel.pairs| && rel.Refs()[i] == c;
    ForeOfRef(rel, i);
    assert rel.pairs[i] in rel.pairs;
    var j :| 0 <= j < |back.pairs| && back.pairs[j] == ColumnPair(c, rel.pairs[i].fore);
    assert back.Refs()[j] == rel.Fore(c);
  }

  /** A relation starts from the columns at which its inverse ends. */
  lemma {:induction false} MirrorStarts(w: World, rel: Relation, back: Relation, rows: seq<Row>)
    requires Mirrored(rel, back) || Mirrored(back, rel)
    requires Based(w, back, rows)
    ensures AllStart(w, rel, rows)
  {
    forall i, c | 0 <= i < |rows| && c in rel.Refs()
      ensures At(rows[i], rel.Fore(c)) in w.vals
    {
      assert Ends(w, back, rows[i]);
      ForeIsRef(rel, back, c);
    }
  }

  /**
   What tags promise: with the computed meta schema and rows that fit it, the loaders of two paired fields, in
   either order, meet every premise of `QueryRecords` for queries of the one-to-many side, and lead back.
   */
  lemma {:induction false} PairedTagsJoin(snake: string -> string, types: seq<Decl>, parent: Decl, f: Field,
                                          child: Decl, g: Field,
                                          w: World, db: Db, loaders: seq<Loader>)
    requires Paired(snake, types, parent, f, child, g) && w.Faithful()
    requires TableName(snake, parent) in w.sch.tables && TableName(snake, child) in w.sch.tables
    requires w.sch.tables[TableName(snake, parent)] == KeysOfTable(MetaOf(snake, types, parent))
    requires w.sch.tables[TableName(snake, child)] == KeysOfTable(MetaOf(snake, types, child))
    requires w.RegularRows(TableName(snake, parent), RowsIn(db, TableName(snake, parent)))
    requires w.RegularRows(TableName(snake, child), RowsIn(db, TableName(snake, child)))
    requires var down, up := LoaderOf(snake, types, parent, f, child), LoaderOf(snake, types, child, g, parent);
             loaders == [down, up] || loaders == [up, down]
    ensures Setup(w, db, loaders) && forall selected :: Rooted(w, db, loaders, TableName(snake, parent), selected)
    ensures LeadsBack(loaders, TableName(snake, parent),
                      LoaderOf(snake, types, parent, f, child).rel, LoaderOf(snake, types, child, g, parent).rel)
  {
    PairIsMirrored(snake, types, parent, f, child, g);
    KeyLeads(snake, types, parent, f, child);
    KeyLeads(snake, types, child, g, parent);
    var down, up := LoaderOf(snake, types, parent, f, child), LoaderOf(snake, types, child, g, parent);
    assert down.Many? && up.One? && up.rel.table == TableName(snake, parent)
           && down.rel.table == TableName(snake, child);
    hide *;
    PairStarts(w, db, down.rel, up.rel);
    TaggedLoaderReady(snake, types, parent, f, child, w, db);
    TaggedLoaderReady(snake, types, child, g, parent, w, db);
    TwoLoaders(w, db, down, up, loaders);
  }

  lemma {:induction false} PairStarts(w: World, db: Db, many: Relation, one: Relation)
    requires Mirrored(many, one) && w.Faithful() && many.table in w.sch.tables && one.table in w.sch.tables
    requires Leads(w.sch.tables[many.table].oneToMany, many) && Leads(w.sch.tables[one.table].manyToOne, one)
    requires w.RegularRows(many.table, RowsIn(db, many.table)) && w.RegularRows(one.table, RowsIn(db, one.table))
    ensures AllStart(w, many, RowsIn(db, many.owner)) && AllStart(w, one, RowsIn(db, one.owner))
  {
    hide World.Faithful, World.RegularRows, Leads, Based, AllStart;
    RegularEnds(w, many, RowsIn(db, many.table));
    RegularEnds(w, one, RowsIn(db, one.table));
    MirrorStarts(w, many, one, RowsIn(db, one.table));
    MirrorStarts(w, one, many, RowsIn(db, many.table));
  }

  lemma {:induction false} TwoLoaders(w: World, db: Db, down: Loader, up: Loader, loaders: seq<Loader>)
    requires LoaderReady(w, db, down) && LoaderReady(w, db, up) && down.Many? && up.One? && Mirrored(down.rel, up.rel)
    requires loaders == [down, up] || loaders == [up, down]
    ensures Setup(w, db, loaders) && LeadsBack(loaders, up.rel.table, down.rel, up.rel)
    ensures forall selected :: Rooted(w, db, loaders, up.rel.table, selected)
  {
    hide LoaderReady;
    assert forall l :: l in loaders <==> l == down || l == up;
  }

  // ----- the two structs of test/multiref

  const KEY_TAG := map["foreign_key" := "parent_id,group_id"]

  const CHILDREN := Field("Children", Slice(Ptr(Struct("Child"))), KEY_TAG)

  const PARENT := Field("Parent", Ptr(Struct("Parent")), KEY_TAG)

  const PARENT_ID := Field("ParentID", Basic("uuid.UUID"), map["goen" := "", "table" := "parent", "primary_key" := ""])

  const CHILD_ID := Field("ChildID", Basic("uuid.UUID"), map["goen" := "", "table" := "child", "primary_key" := ""])

  const REFERRED_ID := Field("ParentID", Basic("uuid.UUID"), map[])

  const GROUP_ID := Field("GroupID", Basic("uuid.UUID"), map[])

  const MULTIREF_PARENT := Decl("Parent", [PARENT_ID, GROUP_ID, CHILDREN])

  const MULTIREF_CHILD := Decl("Child", [CHILD_ID, REFERRED_ID, GROUP_ID, PARENT])

  /** The conversion of the names in use. */
  ghost predicate SnakeCase(snake: string -> string) {
    && snake("ParentID") == "parent_id" && snake("ChildID") == "child_id" && snake("GroupID") == "group_id"
    && snake("Children") == "children" && snake("Parent") == "parent" && snake("Child") == "child"
  }

  lemma {:induction false} PlainParts()
    ensures PlainName("parent_id") && PlainName("group_id")
  {
  }

  lemma {:induction false} TwoColumns(a: string, b: string, f: Field)
    requires PlainName(a) && PlainName(b) && IsForeignKey(f) && f.tag["foreign_key"] == a + "," + b
    ensures PairsOf(f) == [ColumnPair(a, a), ColumnPair(b, b)]
    ensures ForeignKey(f) == [a, b] && ReferenceKey(f) == [a, b]
  {
    assert f.tag["foreign_key"] == a + [','] + b;
    SplitFirst(a, ',', b);
    SplitFree(b, ',');
    PairRoundTrip(ColumnPair(a, a), true);
    PairRoundTrip(ColumnPair(b, b), true);
    hide Split, PairOf;
    assert Split(f.tag["foreign_key"], ',') == [a, b];
  }

  lemma {:induction false} KeyTagPairs(f: Field)
    requires f.tag == KEY_TAG
    ensures PairsOf(f) == [ColumnPair("parent_id", "parent_id"), ColumnPair("group_id", "group_id")]
    ensures ForeignKey(f) == ["parent_id", "group_id"] && ReferenceKey(f) == ["parent_id", "group_id"]
  {
    hide PairsOf, ForeignKey, ReferenceKey, PlainName;
    PlainParts();
    assert f.tag["foreign_key"] == "parent_id" + "," + "group_id";
    TwoColumns("parent_id", "group_id", f);
  }

  lemma {:induction false} FilterOne(f: Field, fn: Field -> bool)
    ensures Filter([f], fn) == if fn(f) then [f] else []
  {
  }

  lemma {:induction false} FilterAll(fields: seq<Field>, fn: Field -> bool)
    requires forall f | f in fields :: fn(f)
    ensures Filter(fields, fn) == fields
  {
    if fields != [] {
      var n := |fields| - 1;
      FilterAll(fields[..n], fn);
      assert fields == fields[..n] + [fields[n]];
    }
  }

  lemma {:induction false} FilterNone(fields: seq<Field>, fn: Field -> bool)
    requires forall f | f in fields :: !fn(f)
    ensures Filter(fields, fn) == []
  {
    if fields != [] {
      var n := |fields| - 1;
      FilterNone(fields[..n], fn);
      assert fields == fields[..n] + [fields[n]];
    }
  }

  /** A struct's columns, when its last field is its only relation. */
  lemma {:induction false} ColumnsBefore(cols: seq<Field>, rel: Field)
    requires (forall f | f in cols :: IsColumn(f)) && !IsColumn(rel)
    ensures Filter(cols + [rel], IsColumn) == cols
  {
    FilterConcat(cols, [rel], IsColumn);
    FilterAll(cols, IsColumn);
    FilterOne(rel, IsColumn);
    assert cols + [] == cols;
  }

  lemma {:induction false} ReferringField(decl: Decl, cols: seq<Field>, rel: Field, name: string)
    requires decl.fields == cols + [rel] && forall c | c in cols :: IsColumn(c)
    requires IsForeignKey(rel) && !IsIgnored(rel)
    ensures Filter(decl.fields, f => Refers(name, f)) == if ElemType(rel.typ) == Struct(name) then [rel] else []
  {
    FilterConcat(cols, [rel], f => Refers(name, f));
    FilterNone(cols, f => Refers(name, f));
    FilterOne(rel, f => Refers(name, f));
  }

  lemma {:induction false} ReferringStep(types: seq<Decl>, decl: Decl, name: string)
    ensures Referring(types + [decl], name) == Referring(types, name) + Filter(decl.fields, f => Refers(name, f))
  {
  }

  /** The only relation field of two types that leads to one of them. */
  lemma {:induction false} OnlyReferring(a: Decl, b: Decl, colsA: seq<Field>, f: Field, colsB: seq<Field>, g: Field)
    requires a.fields == colsA + [f] && b.fields == colsB + [g] && a.name != b.name
    requires forall c | c in colsA || c in colsB :: IsColumn(c)
    requires IsForeignKey(f) && !IsIgnored(f) && ElemType(f.typ) == Struct(b.name)
    requires IsForeignKey(g) && !IsIgnored(g) && ElemType(g.typ) == Struct(a.name)
    ensures Referring([a, b], b.name) == [f] && Referring([a, b], a.name) == [g]
  {
    hide Filter, Refers, IsColumn;
    assert [a, b] == [a] + [b] && [a] == [] + [a];
    forall name | name == a.name || name == b.name
      ensures Referring([a, b], name) == (if name == b.name then [f] else []) + (if name == a.name then [g] else [])
    {
      ReferringStep([a], b, name);
      ReferringStep([], a, name);
      ReferringField(a, colsA, f, name);
      ReferringField(b, colsB, g, name);
    }
  }

  lemma {:induction false} FirstAt(fields: seq<Field>, fn: Field -> bool, k: nat)
    requires k < |fields| && fn(fields[k]) && forall i | 0 <= i < k :: !fn(fields[i])
    ensures First(fields, fn) == Some(fields[k])
  {
    if k > 0 {
      assert fields[1..][k - 1] == fields[k];
      FirstAt(fields[1..], fn, k - 1);
    }
  }

  lemma {:induction false} ColumnFound(snake: string -> string, decl: Decl, cols: seq<Field>, rel: Field, k: nat,
                                       name: string)
    requires decl.fields == cols + [rel] && (forall f | f in cols :: IsColumn(f)) && !IsColumn(rel)
    requires k < |cols| && ColumnName(snake, cols[k]) == name
    requires forall i | 0 <= i < k :: ColumnName(snake, cols[i]) != name
    ensures First(Filter(decl.fields, IsColumn), EqColumnName(snake, name)) == Some(cols[k])
    ensures !Shadowed(snake, decl, name)
  {
    hide ColumnName, Filter, IsColumn, First;
    ColumnsBefore(cols, rel);
    assert cols[k] in cols && forall i | 0 <= i < |cols| :: decl.fields[i] == cols[i];
    ColumnsAreNotIgnored(cols[k]);
    FirstAt(cols, EqColumnName(snake, name), k);
    FirstAt(decl.fields, EqColumnName(snake, name), k);
  }

  lemma {:induction false} ColumnsAreNotIgnored(f: Field)
    ensures IsColumn(f) ==> !IsIgnored(f)
  {
  }

  lemma {:induction false} ResolvedTwo(snake: string -> string, fields: seq<Field>, a: string, b: string)
    requires First(fields, EqColumnName(snake, a)).Some? && First(fields, EqColumnName(snake, b)).Some?
    ensures Resolved(snake, fields, [a, b]).Some?
  {
    hide First;
    assert [a, b][..1] == [a] && [a][..0] == [];
    assert Resolved(snake, fields, [a]).Some?;
  }

  lemma {:induction false} MultirefNames(snake: string -> string)
    requires SnakeCase(snake)
    ensures ColumnName(snake, PARENT_ID) == "parent_id" && ColumnName(snake, REFERRED_ID) == "parent_id"
    ensures ColumnName(snake, CHILD_ID) == "child_id" && ColumnName(snake, GROUP_ID) == "group_id"
    ensures TableName(snake, MULTIREF_PARENT) == "parent" && TableName(snake, MULTIREF_CHILD) == "child"
  {
  }

  lemma {:induction false} MultirefFields()
    ensures forall f | f in [PARENT_ID, GROUP_ID] || f in [CHILD_ID, REFERRED_ID, GROUP_ID] :: IsColumn(f)
    ensures !IsColumn(CHILDREN) && !IsColumn(PARENT) && !IsIgnored(CHILDREN) && !IsIgnored(PARENT)
    ensures MULTIREF_PARENT.fields == [PARENT_ID, GROUP_ID] + [CHILDREN]
    ensures MULTIREF_CHILD.fields == [CHILD_ID, REFERRED_ID, GROUP_ID] + [PARENT]
  {
  }

  lemma {:induction false} MultirefReferring()
    ensures var types := [MULTIREF_PARENT, MULTIREF_CHILD];
            Referring(types, MULTIREF_CHILD.name) == [CHILDREN] && Referring(types, MULTIREF_PARENT.name) == [PARENT]
    ensures IsOneToMany(CHILDREN) && IsToOne(PARENT)
  {
    MultirefFields();
    ElemOf(Slice(Ptr(Struct("Child"))), Struct("Child"));
    ElemOf(Ptr(Struct("Parent")), Struct("Parent"));
    hide IsColumn, Referring, ElemType;
    OnlyReferring(MULTIREF_PARENT, MULTIREF_CHILD, [PARENT_ID, GROUP_ID], CHILDREN, [CHILD_ID, REFERRED_ID, GROUP_ID],
                  PARENT);
  }

  lemma {:induction false} ElemOf(t: GoType, elem: GoType)
    requires elem.Struct? && (t == Slice(Ptr(elem)) || t == Ptr(elem))
    ensures ElemType(t) == elem
  {
    assert ElemType(Ptr(elem)) == ElemType(elem);
  }

  lemma {:induction false} MultirefLookups(snake: string -> string)
    requires SnakeCase(snake)
    ensures forall c | c in ["parent_id", "group_id"] ::
              && First(Filter(MULTIREF_PARENT.fields, IsColumn), EqColumnName(snake, c)).Some?
              && First(Filter(MULTIREF_CHILD.fields, IsColumn), EqColumnName(snake, c)).Some?
              && !Shadowed(snake, MULTIREF_PARENT, c) && !Shadowed(snake, MULTIREF_CHILD, c)
  {
    MultirefNames(snake);
    MultirefFields();
    hide ColumnName, Filter, IsColumn, First, Shadowed;
    ColumnFound(snake, MULTIREF_PARENT, [PARENT_ID, GROUP_ID], CHILDREN, 0, "parent_id");
    ColumnFound(snake, MULTIREF_PARENT, [PARENT_ID, GROUP_ID], CHILDREN, 1, "group_id");
    ColumnFound(snake, MULTIREF_CHILD, [CHILD_ID, REFERRED_ID, GROUP_ID], PARENT, 1, "parent_id");
    ColumnFound(snake, MULTIREF_CHILD, [CHILD_ID, REFERRED_ID, GROUP_ID], PARENT, 2, "group_id");
  }

  lemma {:induction false} MultirefRelations(snake: string -> string)
    requires SnakeCase(snake)
    ensures RelationOf(snake, MULTIREF_PARENT, CHILDREN, MULTIREF_CHILD).Some?
    ensures RelationOf(snake, MULTIREF_CHILD, PARENT, MULTIREF_PARENT).Some?
  {
    hide First, Filter, Resolved, ForeignKey, ReferenceKey, TableName, PairsOf, SnakeCase;
    MultirefLookups(snake);
    KeyTagPairs(CHILDREN);
    KeyTagPairs(PARENT);
    ResolvedTwo(snake, Filter(MULTIREF_PARENT.fields, IsColumn), "parent_id", "group_id");
    ResolvedTwo(snake, Filter(MULTIREF_CHILD.fields, IsColumn), "parent_id", "group_id");
  }

  /** The two structs are paired, so the theorem speaks about them. */
  lemma {:induction false} MultirefIsPaired(snake: string -> string)
    requires SnakeCase(snake)
    ensures Paired(snake, [MULTIREF_PARENT, MULTIREF_CHILD], MULTIREF_PARENT, CHILDREN, MULTIREF_CHILD, PARENT)
    ensures Filter(Referring([MULTIREF_PARENT, MULTIREF_CHILD], MULTIREF_CHILD.name), IsOneToMany) == [CHILDREN]
  {
    FilterOne(CHILDREN, IsOneToMany);
    hide PairsOf, ReferenceKey, TableName, Shadowed, Referring, RelationOf, IsOneToMany, IsToOne, SnakeCase;
    MultirefReferring();
    MultirefRelations(snake);
    MultirefLookups(snake);
    MultirefNames(snake);
    KeyTagPairs(CHILDREN);
    KeyTagPairs(PARENT);
  }

  // ----- the primary keys of the two structs

  lemma {:induction false} KeyFieldFirst(f: Field, rest: seq<Field>)
    requires IsPrimaryKey(f) && forall g | g in rest :: !IsPrimaryKey(g)
    ensures Filter([f] + rest, IsPrimaryKey) == [f]
  {
    FilterConcat([f], rest, IsPrimaryKey);
    FilterOne(f, IsPrimaryKey);
    FilterNone(rest, IsPrimaryKey);
    assert [f] + [] == [f];
  }

  /** A struct whose first field is its key and whose last field is its only relation. */
  lemma {:induction false} KeyOfStruct(snake: string -> string, types: seq<Decl>, decl: Decl, f: Field,
                                       rest: seq<Field>, rel: Field)
    requires decl.fields == [f] + rest + [rel] && IsPrimaryKey(f) && (forall g | g in rest :: !IsPrimaryKey(g))
    requires IsColumn(f) && (forall g | g in rest :: IsColumn(g)) && !IsColumn(rel)
    ensures MetaOf(snake, types, decl).primaryKey == ColumnsOf(snake, [f])
    ensures MetaOf(snake, types, decl).columns == ColumnsOf(snake, [f] + rest)
  {
    KeyFieldFirst(f, rest);
    ColumnsBefore([f] + rest, rel);
  }

  /** The primary keys of the two structs. */
  lemma {:induction false} MultirefKeys(snake: string -> string, types: seq<Decl>)
    requires SnakeCase(snake)
    ensures ColumnNames(MetaOf(snake, types, MULTIREF_PARENT).primaryKey) == ["parent_id"]
    ensures ColumnNames(MetaOf(snake, types, MULTIREF_CHILD).primaryKey) == ["child_id"]
    ensures ColumnNames(MetaOf(snake, types, MULTIREF_PARENT).columns) == ["parent_id", "group_id"]
    ensures ColumnNames(MetaOf(snake, types, MULTIREF_CHILD).columns) == ["child_id", "parent_id", "group_id"]
  {
    MultirefNames(snake);
    MultirefFields();
    hide ColumnName, Filter, Referring, TableName, SnakeCase, MetaOf, IsColumn;
    assert [PARENT_ID, GROUP_ID] == [PARENT_ID] + [GROUP_ID];
    assert [CHILD_ID, REFERRED_ID, GROUP_ID] == [CHILD_ID] + [REFERRED_ID, GROUP_ID];
    KeyOfStruct(snake, types, MULTIREF_PARENT, PARENT_ID, [GROUP_ID], CHILDREN);
    KeyOfStruct(snake, types, MULTIREF_CHILD, CHILD_ID, [REFERRED_ID, GROUP_ID], PARENT);
  }
}
