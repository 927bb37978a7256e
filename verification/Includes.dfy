/** The two include loaders of generated code, each on one slice of records. */
module Includes {
  import opened Wrappers
  import opened Strings
  import opened Dialects
  import opened Sql
  import opened RowKeys
  import opened KeyStrings
  import opened ScopeCaches
  import opened Joins
  import opened CacheContents

  /** A typed slice of records, as handed from round to round. */
  datatype Records = Records(kind: string, items: seq<Entity>)

  function RowsIn(db: Db, table: string): seq<Row> {
    if table in db then db[table].rows else []
  }

  /** Different objects of one table whose relation fields are still nil. */
  ghost predicate Blank(table: string, es: seq<Entity>)
    reads es
  {
    Distinct(es) && forall i | 0 <= i < |es| :: es[i].table == table && es[i].links == NO_LINKS
  }

  lemma {:induction false} NoneIsBlank(table: string)
    ensures Blank(table, [])
  {
  }

  /** ORDER BY, LIMIT and OFFSET choose among the selected rows. */
  ghost predicate Chooses(pick: seq<Row> -> seq<Row>) {
    forall rows, r | r in pick(rows) :: r in rows
  }

  /** SELECT and scan: a new object for every row that `pick` leaves of the selected ones, in its order. */
  method Query(db: Db, table: string, where: Cond, pick: seq<Row> -> seq<Row>) returns (ok: bool, es: seq<Entity>)
    ensures ok == (table in db && KnownCond(Plain, db[table], where))
    ensures ok ==> RowsOf(es) == pick(SelectRows(Plain, where, RowsIn(db, table)))
    ensures Blank(table, es) && forall i | 0 <= i < |es| :: fresh(es[i])
  {
    es := [];
    if table !in db || !KnownCond(Plain, db[table], where) {
      return false, es;
    }
    var rows := pick(SelectRows(Plain, where, db[table].rows));
    for i := 0 to |rows|
      invariant RowsOf(es) == rows[..i]
      invariant Blank(table, es) && forall i | 0 <= i < |es| :: fresh(es[i])
    {
      var e := new Entity(table, rows[i]);
      es := es + [e];
    }
    return true, es;
  }

  // ----- what both loaders share

  /** The rows whose keys are missing, in order. */
  ghost function Unknown(w: World, c: Cardinality, rel: Relation, data: Data, all: seq<Row>): seq<Row> {
    if all == [] then []
    else
      var n := |all| - 1;
      Unknown(w, c, rel, data, all[..n]) + if IsCached(w, c, rel, data, all[n]) then [] else [all[n]]
  }

  lemma {:induction false} UnknownRows(w: World, c: Cardinality, rel: Relation, data: Data, all: seq<Row>)
    ensures forall r :: r in Unknown(w, c, rel, data, all) <==> r in all && !IsCached(w, c, rel, data, r)
  {
    hide IsCached;
    if all != [] {
      UnknownRows(w, c, rel, data, all[..|all| - 1]);
      assert all == all[..|all| - 1] + [all[|all| - 1]];
    }
  }

  lemma {:induction false} UnknownStart(w: World, c: Cardinality, rel: Relation, data: Data, all: seq<Row>)
    requires AllStart(w, rel, all)
    ensures NoneCached(w, c, rel, data, Unknown(w, c, rel, data, all))
    ensures AllStart(w, rel, Unknown(w, c, rel, data, all))
  {
    hide IsCached, Unknown, World.Starts;
    UnknownRows(w, c, rel, data, all);
    var here := Unknown(w, c, rel, data, all);
    forall i | 0 <= i < |here|
      ensures !IsCached(w, c, rel, data, here[i]) && w.Starts(rel, here[i])
    {
      assert here[i] in here;
      var j :| 0 <= j < |all| && all[j] == here[i];
    }
  }

  function KeysOfRows(rel: Relation, rows: seq<Row>): seq<RowKey> {
    seq(|rows|, i requires 0 <= i < |rows| => rel.KeyFor(rows[i]))
  }

  /** The row keys of the entities that the cache does not know yet. */
  method Uncached(ghost w: World, c: Cardinality, rel: Relation, sc: ScopeCache, entities: seq<Entity>)
      returns (keys: seq<RowKey>)
    requires sc.Valid() && sc.sch == w.sch
    ensures keys == KeysOfRows(rel, Unknown(w, c, rel, sc.data, RowsOf(entities)))
  {
    hide CacheKey, Relation.KeyFor, ScopeCache.Valid;
    keys := [];
    for i := 0 to |entities|
      invariant keys == KeysOfRows(rel, Unknown(w, c, rel, sc.data, RowsOf(entities)[..i]))
    {
      assert RowsOf(entities)[..i + 1][..i] == RowsOf(entities)[..i];
      var key := rel.KeyFor(entities[i].row);
      var cached := sc.HasObject(c, key);
      assert cached == IsCached(w, c, rel, sc.data, entities[i].row);
      if !cached {
        keys := keys + [key];
      }
    }
    assert RowsOf(entities)[..|entities|] == RowsOf(entities);
  }

  lemma {:induction false} AddStep(sch: Schema, data: Data, es: seq<Entity>, n: nat)
    requires AllSafe(sch, es) && BucketsOnly(data) && n < |es|
    ensures AllSafe(sch, es[..n]) && AllSafe(sch, es[..n + 1])
    ensures Add(sch, AddAll(sch, data, es[..n]), es[n]) == Stored(AddAll(sch, data, es[..n + 1]), true)
  {
    hide CacheKey, Add;
    assert es[..n + 1][..n] == es[..n];
    AddAllBuckets(sch, data, es[..n]);
    AddAt(sch, AddAll(sch, data, es[..n]), es[n], CardinalityNone, sch.PrimaryId(es[n]));
  }

  /** Adds scanned objects to the cache, one after the other. */
  method AddObjects(ghost w: World, sc: ScopeCache, es: seq<Entity>)
    requires sc.Valid() && sc.sch == w.sch && AllSafe(w.sch, es) && BucketsOnly(sc.data)
    modifies sc
    ensures sc.Valid() && sc.data == AddAll(w.sch, old(sc.data), es) && BucketsOnly(sc.data)
  {
    for i := 0 to |es|
      invariant sc.Valid() && AllSafe(w.sch, es[..i]) && sc.data == AddAll(w.sch, old(sc.data), es[..i])
    {
      AddStep(w.sch, old(sc.data), es, i);
      var ok := sc.AddObject(es[i]);
      assert ok;  // the type assertion in the cache cannot fail
    }
    assert es[..|es|] == es;
    AddAllBuckets(w.sch, old(sc.data), es);
  }

  /** The table of a relation is regular, and its columns hold known values. */
  ghost predicate Ready(w: World, db: Db, rel: Relation) {
    Based(w, rel, RowsIn(db, rel.table)) && w.RegularRows(rel.table, RowsIn(db, rel.table))
  }

  ghost predicate Queryable(db: Db, rel: Relation) {
    rel.table in db && forall c | c in rel.Refs() :: c in db[rel.table].columns
  }

  /** Objects of the table `table`, holding rows of the database. */
  ghost predicate FromTable(db: Db, table: string, es: seq<Entity>) {
    forall i | 0 <= i < |es| :: es[i].table == table && es[i].row in RowsIn(db, table)
  }

  lemma {:induction false} FromTableIsSafe(w: World, db: Db, table: string, es: seq<Entity>)
    requires w.Faithful() && w.RegularRows(table, RowsIn(db, table)) && FromTable(db, table, es)
    ensures AllSafe(w.sch, es)
  {
    forall i | 0 <= i < |es|
      ensures w.sch.SafeEntity(es[i])
    {
      assert es[i].row in RowsIn(db, table);
      var j :| 0 <= j < |RowsIn(db, table)| && RowsIn(db, table)[j] == es[i].row;
      RegularIsSafe(w, es[i]);
    }
  }

  lemma {:induction false} SelectedFromTable(db: Db, table: string, where: Cond, pick: seq<Row> -> seq<Row>,
                                             es: seq<Entity>)
    requires RowsOf(es) == pick(SelectRows(Plain, where, RowsIn(db, table))) && Chooses(pick)
    requires forall i | 0 <= i < |es| :: es[i].table == table
    ensures FromTable(db, table, es)
  {
    hide Selects;
    SelectedRows(Plain, where, RowsIn(db, table));
    forall i | 0 <= i < |es|
      ensures es[i].row in RowsIn(db, table)
    {
      assert RowsOf(es)[i] in RowsOf(es);
    }
  }

  lemma {:induction false} KeyCondsKnown(db: Db, rel: Relation, here: seq<Row>)
    requires Queryable(db, rel)
    ensures KnownCond(Plain, db[rel.table], Or(KeyConds(rel, here)))
  {
  }

  /** One query for all the missing keys; what it brings goes into the cache and into the next round. */
  method LoadMissing(ghost w: World, db: Db, rel: Relation, keys: seq<RowKey>, ghost here: seq<Row>,
                     sc: ScopeCache, later: seq<Records>)
      returns (ok: bool, next: seq<Records>, loaded: seq<Entity>)
    requires Ready(w, db, rel) && sc.Valid() && sc.sch == w.sch && BucketsOnly(sc.data)
    requires keys == KeysOfRows(rel, here) && AllStart(w, rel, here)
    modifies sc
    ensures Queryable(db, rel) ==> ok
    ensures !ok ==> sc.data == old(sc.data)
    ensures sc.Valid() && Blank(rel.table, loaded) && forall i | 0 <= i < |loaded| :: fresh(loaded[i])
    ensures ok ==>
              && Load(w, rel, RowsIn(db, rel.table), here, loaded) && FromTable(db, rel.table, loaded)
              && sc.data == AddAll(w.sch, old(sc.data), loaded)
              && BucketsOnly(sc.data) && next == later + [Records(rel.table, loaded)]
  {
    hide CacheKey, Based, AllStart, SelectRows;
    var conds := [];
    for i := 0 to |keys|
      invariant |conds| == i && forall j | 0 <= j < i :: conds[j] == Eq(keys[j].key)
    {
      conds := conds + [Eq(keys[i].key)];
    }
    assert conds == KeyConds(rel, here);
    if Queryable(db, rel) {
      KeyCondsKnown(db, rel, here);
    }
    ok, loaded := Query(db, rel.table, Or(conds), rows => rows);
    if !ok {
      return false, later, loaded;
    }
    SelectedFromTable(db, rel.table, Or(conds), rows => rows, loaded);
    FaithfulIfBased(w, rel, RowsIn(db, rel.table));
    FromTableIsSafe(w, db, rel.table, loaded);
    AddObjects(w, sc, loaded);
    return true, later + [Records(rel.table, loaded)], loaded;
  }

  lemma {:induction false} NothingToLoad(w: World, rel: Relation, rows: seq<Row>)
    ensures Load(w, rel, rows, [], [])
  {
    SelectNothing(rows);
    assert KeyConds(rel, []) == [];
  }

  lemma {:induction false} SelectNothing(rows: seq<Row>)
    ensures SelectRows(Plain, Or([]), rows) == []
  {
    if rows != [] {
      SelectNothing(rows[..|rows| - 1]);
      OrSelects(Plain, [], rows[|rows| - 1]);
    }
  }

  /** The first half of both loaders: what was not cached is queried. */
  method LoadUncached(ghost w: World, db: Db, c: Cardinality, rel: Relation, sc: ScopeCache, entities: seq<Entity>,
                      later: seq<Records>)
      returns (ok: bool, next: seq<Records>, loaded: seq<Entity>)
    requires Ready(w, db, rel) && sc.Valid() && sc.sch == w.sch && BucketsOnly(sc.data)
    requires AllStart(w, rel, RowsOf(entities))
    modifies sc
    ensures Queryable(db, rel) ==> ok
    ensures !ok ==> sc.data == old(sc.data)
    ensures sc.Valid() && Blank(rel.table, loaded) && forall i | 0 <= i < |loaded| :: fresh(loaded[i])
    ensures ok ==>
              && Load(w, rel, RowsIn(db, rel.table), Unknown(w, c, rel, old(sc.data), RowsOf(entities)), loaded)
              && FromTable(db, rel.table, loaded)
              && sc.data == AddAll(w.sch, old(sc.data), loaded) && BucketsOnly(sc.data)
              && next == if Unknown(w, c, rel, old(sc.data), RowsOf(entities)) == [] then later
                         else later + [Records(rel.table, loaded)]
    ensures Unknown(w, c, rel, old(sc.data), RowsOf(entities)) == [] ==> ok && loaded == []
  {
    hide CacheKey, Ready, Queryable, BucketsOnly, SelectRows, ScopeCache.Valid, Schema.SafeEntity, Unknown, AllStart;
    ghost var here := Unknown(w, c, rel, sc.data, RowsOf(entities));
    UnknownStart(w, c, rel, sc.data, RowsOf(entities));
    var keys := Uncached(w, c, rel, sc, entities);
    if |keys| > 0 {
      ok, next, loaded := LoadMissing(w, db, rel, keys, here, sc, later);
    } else {
      NothingToLoad(w, rel, RowsIn(db, rel.table));
      ok, next, loaded := true, later, [];
    }
  }

  // ----- one-to-many

  /** What the cache holds for the row key of `row`. */
  ghost function BucketOf(w: World, data: Data, rel: Relation, row: Row): seq<Entity> {
    BucketIn(Lookup(data, CacheKey(CardinalityOneToMany, w.IdFor(rel, row))))
  }

  /**
   The bucket is the row's side of the join, each row as often as the table has the key, and no object twice if it has
   it once.
   */
  ghost predicate HoldsJoin(w: World, db: Db, rel: Relation, data: Data, row: Row) {
    var bucket := BucketOf(w, data, rel, row);
    && RowsOf(bucket) == Stutter(Joined(rel, RowsIn(db, rel.table), row), Times(w, rel))
    && (Times(w, rel) == 1 ==> Distinct(bucket))
  }

  function LinksOf(es: seq<Entity>): seq<Links>
    reads es
  {
    seq(|es|, i requires 0 <= i < |es| reads es => es[i].links)
  }

  method Append(entity: Entity, field: string, refes: seq<Entity>)
    modifies entity
    ensures entity.links.Children(field) == old(entity.links.Children(field)) + refes
    ensures forall f | f != field :: entity.links.Children(f) == old(entity.links.Children(f))
    ensures entity.links.one == old(entity.links.one)
  {
    for k := 0 to |refes|
      invariant entity.links.Children(field) == old(entity.links.Children(field)) + refes[..k]
      invariant forall f | f != field :: entity.links.Children(f) == old(entity.links.Children(f))
      invariant entity.links.one == old(entity.links.one)
    {
      var many := entity.links.many[field := entity.links.Children(field) + [refes[k]]];
      entity.links := entity.links.(many := many);
      assert refes[..k + 1] == refes[..k] + [refes[k]];
    }
    assert refes[..|refes|] == refes;
  }

  /** The field of the relation is extended by what the cache holds; other fields are untouched. */
  ghost predicate Appended(w: World, rel: Relation, data: Data, row: Row, before: Links, after: Links) {
    && after.Children(rel.field) == before.Children(rel.field) + BucketOf(w, data, rel, row)
    && (forall f | f != rel.field :: after.Children(f) == before.Children(f))
    && after.one == before.one
  }

  method FillManyAt(ghost w: World, rel: Relation, sc: ScopeCache, entity: Entity)
    requires sc.Valid() && sc.sch == w.sch
    modifies entity
    ensures Appended(w, rel, sc.data, entity.row, old(entity.links), entity.links)
  {
    hide CacheKey;
    var raw := sc.GetObject(CardinalityOneToMany, rel.KeyFor(entity.row));
    if raw.Some? && raw.value.Bucket? {
      Append(entity, rel.field, raw.value.es);
    }
  }

  ghost predicate AllAppended(w: World, rel: Relation, data: Data, rows: seq<Row>, before: seq<Links>,
                              after: seq<Links>) {
    |rows| == |before| == |after|
    && forall i | 0 <= i < |rows| :: Appended(w, rel, data, rows[i], before[i], after[i])
  }

  ghost predicate AllHoldJoin(w: World, db: Db, rel: Relation, data: Data, rows: seq<Row>) {
    forall i | 0 <= i < |rows| :: HoldsJoin(w, db, rel, data, rows[i])
  }

  /** Appends to each entity the objects cached under its key. */
  method FillMany(ghost w: World, rel: Relation, sc: ScopeCache, entities: seq<Entity>)
    requires sc.Valid() && sc.sch == w.sch && Distinct(entities)
    modifies entities
    ensures AllAppended(w, rel, sc.data, RowsOf(entities), old(LinksOf(entities)), LinksOf(entities))
  {
    hide Appended, ScopeCache.Valid;
    for i := 0 to |entities|
      invariant sc.Valid()
      invariant forall j | 0 <= j < i ::
                  Appended(w, rel, sc.data, entities[j].row, old(entities[j].links), entities[j].links)
      invariant forall j | i <= j < |entities| :: entities[j].links == old(entities[j].links)
    {
      FillManyAt(w, rel, sc, entities[i]);
    }
  }

  lemma {:induction false} KeyIsFiled(w: World, rel: Relation, row: Row)
    requires w.Faithful() && rel.table in w.sch.tables && w.Starts(rel, row)
    requires forall c | c in rel.Refs() :: SafeColumn(c)
    ensures Files(rel, w.IdFor(rel, row))
  {
  }

  lemma {:induction false} SafeRefs(w: World, rel: Relation, keys: seq<seq<string>>)
    requires w.Faithful() && rel.table in w.sch.tables && Leads(keys, rel)
    requires keys == w.sch.tables[rel.table].oneToMany || keys == w.sch.tables[rel.table].manyToOne
    ensures forall c | c in rel.Refs() :: SafeColumn(c)
  {
    var k :| 0 <= k < |keys| && ColumnSet(keys[k]) == rel.RefSet();
    forall c | c in rel.Refs()
      ensures SafeColumn(c)
    {
      assert c in ColumnSet(keys[k]);
      assert World.KeyColumn(w.sch.tables[rel.table], c);
    }
  }

  /** What a one-to-many loader relies on and keeps. */
  ghost predicate ManyReady(w: World, db: Db, rel: Relation, data: Data) {
    && Ready(w, db, rel) && Leads(w.sch.tables[rel.table].oneToMany, rel)
    && BucketsOnly(data) && Complete(w, data, rel, RowsIn(db, rel.table))
  }

  /** After a load each row's bucket is its side of the join, be it cached before or just loaded. */
  lemma {:induction false} LoadedBucket(w: World, db: Db, rel: Relation, data: Data, here: seq<Row>, es: seq<Entity>,
                                        row: Row)
    requires ManyReady(w, db, rel, data) && Load(w, rel, RowsIn(db, rel.table), here, es) && w.Starts(rel, row)
    requires NoneCached(w, CardinalityOneToMany, rel, data, here)
    requires row in here || IsCached(w, CardinalityOneToMany, rel, data, row)
    ensures HoldsJoin(w, db, rel, AddAll(w.sch, data, es), row)
  {
    hide CacheKey, AddAll, Matching, Joined, Times, Stutter, All, NoneCached, SelectRows, KeyConds, World.RegularRows;
    var rows, id := RowsIn(db, rel.table), w.IdFor(rel, row);
    SafeRefs(w, rel, w.sch.tables[rel.table].oneToMany);
    KeyIsFiled(w, rel, row);
    assert CompleteAt(w, data, rel, rows, id);
    if row in here {
      var i :| 0 <= i < |here| && here[i] == row;
      assert IdsFor(w, rel, here)[i] == id;
    }
    LoadFills(w, data, rel, rows, here, es, id);
    LoadedFor(w, rel, rows, here, es, id);
    MatchingIsJoin(w, rel, rows, row);
    assert |RowsOf(All(w.sch, es, id))| == |All(w.sch, es, id)|;
    hide Files, World.Starts, IdsFor, World.IdFor, World.IdIn, Based, Load;
  }

  /** What a load left behind: `loaded` came from the table and was added to the cache, and goes to the next round. */
  ghost predicate Loaded(w: World, db: Db, rel: Relation, data: Data, data': Data,
                         later: seq<Records>, next: seq<Records>, loaded: seq<Entity>) {
    && AllSafe(w.sch, loaded) && data' == AddAll(w.sch, data, loaded) && FromTable(db, rel.table, loaded)
    && ((next == later && loaded == []) || next == later + [Records(rel.table, loaded)])
  }

  lemma {:induction false} AfterLoadingMany(w: World, db: Db, rel: Relation, data: Data, all: seq<Row>, es: seq<Entity>)
    requires ManyReady(w, db, rel, data) && AllStart(w, rel, all)
    requires Load(w, rel, RowsIn(db, rel.table), Unknown(w, CardinalityOneToMany, rel, data, all), es)
    ensures ManyReady(w, db, rel, AddAll(w.sch, data, es))
    ensures Stable(CardinalityOneToMany, rel, data, AddAll(w.sch, data, es))
    ensures AllHoldJoin(w, db, rel, AddAll(w.sch, data, es), all)
  {
    hide CacheKey, IsCached, NoneCached, Load, AddAll, HoldsJoin, Complete, Stable, World.Starts, World.Faithful,
         Unknown;
    var here := Unknown(w, CardinalityOneToMany, rel, data, all);
    UnknownRows(w, CardinalityOneToMany, rel, data, all);
    UnknownStart(w, CardinalityOneToMany, rel, data, all);
    SafeIfLoad(w, rel, RowsIn(db, rel.table), here, es);
    AddAllBuckets(w.sch, data, es);
    LoadKeepsComplete(w, data, rel, RowsIn(db, rel.table), here, es);
    forall i | 0 <= i < |all|
      ensures HoldsJoin(w, db, rel, AddAll(w.sch, data, es), all[i])
    {
      LoadedBucket(w, db, rel, data, here, es, all[i]);
    }
  }

  lemma {:induction false} SafeIfLoad(w: World, rel: Relation, rows: seq<Row>, here: seq<Row>, es: seq<Entity>)
    requires Load(w, rel, rows, here, es)
    ensures AllSafe(w.sch, es)
  {
  }

  method IncludeManyInto(ghost w: World, db: Db, rel: Relation, later: seq<Records>, sc: ScopeCache,
                         entities: seq<Entity>)
      returns (ok: bool, next: seq<Records>, ghost loaded: seq<Entity>)
    requires ManyReady(w, db, rel, sc.data) && sc.Valid() && sc.sch == w.sch && Distinct(entities)
    requires AllStart(w, rel, RowsOf(entities))
    modifies sc, entities
    ensures Queryable(db, rel) ==> ok
    ensures sc.Valid() && Blank(rel.table, loaded) && forall i | 0 <= i < |loaded| :: fresh(loaded[i])
    ensures ok ==>
              && Loaded(w, db, rel, old(sc.data), sc.data, later, next, loaded) && ManyReady(w, db, rel, sc.data)
              && Stable(CardinalityOneToMany, rel, old(sc.data), sc.data)
              && AllAppended(w, rel, sc.data, RowsOf(entities), old(LinksOf(entities)), LinksOf(entities))
              && AllHoldJoin(w, db, rel, sc.data, RowsOf(entities))
  {
    hide *;
    ghost var data, all := sc.data, RowsOf(entities);
    ManyIsReady(w, db, rel, data);
    var es;
    ok, next, es := LoadUncached(w, db, CardinalityOneToMany, rel, sc, entities, later);
    loaded := es;
    if ok {
      WasLoaded(w, db, rel, data, Unknown(w, CardinalityOneToMany, rel, data, all), later, next, es);
      AfterLoadingMany(w, db, rel, data, all, es);
      assert forall i | 0 <= i < |es| :: es[i] !in entities;
      FillMany(w, rel, sc, entities);
    }
  }

  lemma {:induction false} ManyIsReady(w: World, db: Db, rel: Relation, data: Data)
    requires ManyReady(w, db, rel, data)
    ensures Ready(w, db, rel) && BucketsOnly(data) && rel.table in w.sch.tables
  {
  }

  lemma {:induction false} WasLoaded(w: World, db: Db, rel: Relation, data: Data, here: seq<Row>,
                                     later: seq<Records>, next: seq<Records>, es: seq<Entity>)
    requires Load(w, rel, RowsIn(db, rel.table), here, es) && FromTable(db, rel.table, es)
    requires next == if here == [] then later else later + [Records(rel.table, es)]
    ensures AllSafe(w.sch, es) && Loaded(w, db, rel, data, AddAll(w.sch, data, es), later, next, es)
  {
    NothingLoaded(w, rel, RowsIn(db, rel.table), here, es);
  }

  lemma {:induction false} NothingLoaded(w: World, rel: Relation, rows: seq<Row>, here: seq<Row>, es: seq<Entity>)
    requires Load(w, rel, rows, here, es)
    ensures here == [] ==> es == []
  {
    if here == [] {
      SelectNothing(rows);
      assert KeyConds(rel, here) == [];
      assert |RowsOf(es)| == |es|;
    }
  }

  /** `includeChildren`: the one-to-many loader, which passes over records of another type. */
  method IncludeMany(ghost w: World, db: Db, rel: Relation, later: seq<Records>, sc: ScopeCache, records: Records)
      returns (ok: bool, next: seq<Records>, ghost loaded: seq<Entity>)
    requires ManyReady(w, db, rel, sc.data) && sc.Valid() && sc.sch == w.sch && Distinct(records.items)
    requires records.kind == rel.owner ==> AllStart(w, rel, RowsOf(records.items))
    modifies sc, records.items
    ensures Queryable(db, rel) ==> ok
    ensures sc.Valid() && Blank(rel.table, loaded) && forall i | 0 <= i < |loaded| :: fresh(loaded[i])
    ensures records.kind != rel.owner ==>
              && ok && next == later && loaded == [] && sc.data == old(sc.data)
              && LinksOf(records.items) == old(LinksOf(records.items))
    ensures ok && records.kind == rel.owner ==>
              && Loaded(w, db, rel, old(sc.data), sc.data, later, next, loaded) && ManyReady(w, db, rel, sc.data)
              && Stable(CardinalityOneToMany, rel, old(sc.data), sc.data)
              && AllAppended(w, rel, sc.data, RowsOf(records.items),
                             old(LinksOf(records.items)), LinksOf(records.items))
              && AllHoldJoin(w, db, rel, sc.data, RowsOf(records.items))
  {
    hide *;
    if records.kind != rel.owner {
      NoneIsBlank(rel.table);
      return true, later, [];
    }
    ok, next, loaded := IncludeManyInto(w, db, rel, later, sc, records.items);
  }

  // ----- many-to-one

  /** The object of the relation's type that the cache holds for the row key of `row`. */
  ghost function ObjectOf(w: World, data: Data, rel: Relation, row: Row): Option<Entity> {
    match Lookup(data, CacheKey(CardinalityManyToOne, w.IdFor(rel, row)))
    case Some(Obj(e)) => if e.table == rel.table then Some(e) else None
    case _ => None
  }

  /** What a many-to-one loader relies on and keeps. */
  ghost predicate OneReady(w: World, db: Db, rel: Relation, data: Data) {
    && Ready(w, db, rel) && Leads(w.sch.tables[rel.table].manyToOne, rel)
    && BucketsOnly(data) && Sound(w, data, rel, RowsIn(db, rel.table))
  }

  /** The object holds a row of the database that `row` refers to. */
  ghost predicate RefersTo(db: Db, rel: Relation, row: Row, e: Entity) {
    e.table == rel.table && e.row in RowsIn(db, rel.table) && Belongs(rel, row, e.row)
  }

  ghost predicate NoReferent(db: Db, rel: Relation, row: Row) {
    forall r | r in RowsIn(db, rel.table) :: !Belongs(rel, row, r)
  }

  /** The cache leads to a referent when there is one. */
  ghost predicate FindsReferent(w: World, db: Db, rel: Relation, data: Data, row: Row) {
    match ObjectOf(w, data, rel, row)
    case Some(e) => RefersTo(db, rel, row, e)
    case None => NoReferent(db, rel, row)
  }

  /** The field of the relation is set to the cached object, if there is one; other fields are untouched. */
  ghost predicate Linked(w: World, rel: Relation, data: Data, row: Row, before: Links, after: Links) {
    && after.Parent(rel.field) ==
       (match ObjectOf(w, data, rel, row) case Some(p) => Some(p) case None => before.Parent(rel.field))
    && (forall f | f != rel.field :: after.Parent(f) == before.Parent(f))
    && after.many == before.many
  }

  method FillOneAt(ghost w: World, rel: Relation, sc: ScopeCache, entity: Entity)
    requires sc.Valid() && sc.sch == w.sch
    modifies entity
    ensures Linked(w, rel, sc.data, entity.row, old(entity.links), entity.links)
  {
    hide CacheKey;
    var raw := sc.GetObject(CardinalityManyToOne, rel.KeyFor(entity.row));
    if raw.Some? && raw.value.Obj? && raw.value.e.table == rel.table {
      entity.links := entity.links.(one := entity.links.one[rel.field := raw.value.e]);
    }
  }

  ghost predicate AllLinked(w: World, rel: Relation, data: Data, rows: seq<Row>, before: seq<Links>,
                            after: seq<Links>) {
    |rows| == |before| == |after|
    && forall i | 0 <= i < |rows| :: Linked(w, rel, data, rows[i], before[i], after[i])
  }

  ghost predicate AllFindReferent(w: World, db: Db, rel: Relation, data: Data, rows: seq<Row>) {
    forall i | 0 <= i < |rows| :: FindsReferent(w, db, rel, data, rows[i])
  }

  method FillOne(ghost w: World, rel: Relation, sc: ScopeCache, entities: seq<Entity>)
    requires sc.Valid() && sc.sch == w.sch && Distinct(entities)
    modifies entities
    ensures AllLinked(w, rel, sc.data, RowsOf(entities), old(LinksOf(entities)), LinksOf(entities))
  {
    hide Linked, ScopeCache.Valid;
    for i := 0 to |entities|
      invariant sc.Valid()
      invariant forall j | 0 <= j < i ::
                  Linked(w, rel, sc.data, entities[j].row, old(entities[j].links), entities[j].links)
      invariant forall j | i <= j < |entities| :: entities[j].links == old(entities[j].links)
    {
      FillOneAt(w, rel, sc, entities[i]);
    }
  }

  lemma {:induction false} OneIsReady(w: World, db: Db, rel: Relation, data: Data)
    requires OneReady(w, db, rel, data)
    ensures Ready(w, db, rel) && BucketsOnly(data) && rel.table in w.sch.tables
  {
  }

  /** A cached object that has the key of a row is what the row refers to. */
  lemma {:induction false} SoundRefers(w: World, db: Db, rel: Relation, data: Data, row: Row)
    requires OneReady(w, db, rel, data) && w.Starts(rel, row)
    ensures ObjectOf(w, data, rel, row).Some? ==> RefersTo(db, rel, row, ObjectOf(w, data, rel, row).value)
    ensures ObjectOf(w, data, rel, row).Some? <==> IsCached(w, CardinalityManyToOne, rel, data, row)
  {
    hide CacheKey, World.IdIn, World.IdFor, Leads, World.RegularRows;
    var rows, id := RowsIn(db, rel.table), w.IdFor(rel, row);
    SafeRefs(w, rel, w.sch.tables[rel.table].manyToOne);
    KeyIsFiled(w, rel, row);
    assert SoundAt(w, data, rel, rows, id);
    if ObjectOf(w, data, rel, row).Some? {
      var e := ObjectOf(w, data, rel, row).value;
      var i :| 0 <= i < |rows| && rows[i] == e.row;
      BelongsById(w, rel, row, e.row);
    }
  }

  lemma {:induction false} ReferentIsLoaded(w: World, db: Db, rel: Relation, here: seq<Row>, es: seq<Entity>, row: Row,
                                            r: Row)
    requires Ready(w, db, rel) && Leads(w.sch.tables[rel.table].manyToOne, rel)
    requires Load(w, rel, RowsIn(db, rel.table), here, es) && row in here && w.Starts(rel, row)
    requires r in RowsIn(db, rel.table) && Belongs(rel, row, r)
    ensures Last(w.sch, es, CardinalityManyToOne, w.IdFor(rel, row)).Some?
  {
    hide CacheKey, World.IdIn, World.IdFor, Leads, World.RegularRows, Last, Schema.SafeEntity;
    var rows, id := RowsIn(db, rel.table), w.IdFor(rel, row);
    var j :| 0 <= j < |rows| && rows[j] == r;
    BelongsById(w, rel, row, r);
    var i :| 0 <= i < |here| && here[i] == row;
    assert IdsFor(w, rel, here)[i] == id;
    CondSelects(w, rel, here, r);
    SelectedRows(Plain, Or(KeyConds(rel, here)), rows);
    var k :| 0 <= k < |RowsOf(es)| && RowsOf(es)[k] == r;
    assert w.IdIn(rel, es[k].row) == id;
    IdKeys(w, rel, row);
    LastOf(w, rel, es, id);
  }

  lemma {:induction false} IdKeys(w: World, rel: Relation, row: Row)
    ensures w.IdFor(rel, row).cols.Keys == rel.RefSet() && w.IdFor(rel, row).table == rel.table
  {
  }

  /** After loading, a row's key is cached exactly when its referent exists, and leads to it. */
  lemma {:induction false} ReferentFound(w: World, db: Db, rel: Relation, data: Data, here: seq<Row>, es: seq<Entity>,
                                         row: Row)
    requires OneReady(w, db, rel, data) && Load(w, rel, RowsIn(db, rel.table), here, es) && w.Starts(rel, row)
    requires OneReady(w, db, rel, AddAll(w.sch, data, es)) && NoneCached(w, CardinalityManyToOne, rel, data, here)
    requires row in here || IsCached(w, CardinalityManyToOne, rel, data, row)
    ensures FindsReferent(w, db, rel, AddAll(w.sch, data, es), row)
  {
    var data', id := AddAll(w.sch, data, es), w.IdFor(rel, row);
    SafeRefs(w, rel, w.sch.tables[rel.table].manyToOne);
    KeyIsFiled(w, rel, row);
    SoundRefers(w, db, rel, data', row);
    AddAllAt(w.sch, data, es, CardinalityManyToOne, id);
    hide CacheKey, AddAll, World.IdIn, World.IdFor, Leads, World.RegularRows, Last, Sound, Load, RefersTo, NoneCached,
         Files;
    if ObjectOf(w, data', rel, row).None? {
      forall r | r in RowsIn(db, rel.table)
        ensures !Belongs(rel, row, r)
      {
        if Belongs(rel, row, r) {
          ReferentIsLoaded(w, db, rel, here, es, row, r);
        }
      }
    }
  }

  lemma {:induction false} AfterLoadingOne(w: World, db: Db, rel: Relation, data: Data, all: seq<Row>, es: seq<Entity>)
    requires OneReady(w, db, rel, data) && AllStart(w, rel, all) && FromTable(db, rel.table, es)
    requires Load(w, rel, RowsIn(db, rel.table), Unknown(w, CardinalityManyToOne, rel, data, all), es)
    ensures OneReady(w, db, rel, AddAll(w.sch, data, es))
    ensures Stable(CardinalityManyToOne, rel, data, AddAll(w.sch, data, es))
    ensures AllFindReferent(w, db, rel, AddAll(w.sch, data, es), all)
  {
    hide CacheKey, IsCached, NoneCached, Load, AddAll, FindsReferent, Sound, Stable, World.Starts, World.Faithful,
         Unknown;
    var here := Unknown(w, CardinalityManyToOne, rel, data, all);
    UnknownRows(w, CardinalityManyToOne, rel, data, all);
    UnknownStart(w, CardinalityManyToOne, rel, data, all);
    SafeIfLoad(w, rel, RowsIn(db, rel.table), here, es);
    AddAllBuckets(w.sch, data, es);
    LoadKeepsSound(w, data, rel, RowsIn(db, rel.table), es);
    LoadKeepsObjects(w, data, rel, RowsIn(db, rel.table), here, es);
    forall i | 0 <= i < |all|
      ensures FindsReferent(w, db, rel, AddAll(w.sch, data, es), all[i])
    {
      ReferentFound(w, db, rel, data, here, es, all[i]);
    }
  }

  method IncludeOneInto(ghost w: World, db: Db, rel: Relation, later: seq<Records>, sc: ScopeCache,
                        entities: seq<Entity>)
      returns (ok: bool, next: seq<Records>, ghost loaded: seq<Entity>)
    requires OneReady(w, db, rel, sc.data) && sc.Valid() && sc.sch == w.sch && Distinct(entities)
    requires AllStart(w, rel, RowsOf(entities))
    modifies sc, entities
    ensures Queryable(db, rel) ==> ok
    ensures sc.Valid() && Blank(rel.table, loaded) && forall i | 0 <= i < |loaded| :: fresh(loaded[i])
    ensures ok ==>
              && Loaded(w, db, rel, old(sc.data), sc.data, later, next, loaded) && OneReady(w, db, rel, sc.data)
              && Stable(CardinalityManyToOne, rel, old(sc.data), sc.data)
              && AllLinked(w, rel, sc.data, RowsOf(entities), old(LinksOf(entities)), LinksOf(entities))
              && AllFindReferent(w, db, rel, sc.data, RowsOf(entities))
    ensures Unknown(w, CardinalityManyToOne, rel, old(sc.data), RowsOf(entities)) == [] ==>
              ok && next == later && loaded == [] && sc.data == old(sc.data)
  {
    hide *;
    ghost var data, all := sc.data, RowsOf(entities);
    OneIsReady(w, db, rel, data);
    var es;
    ok, next, es := LoadUncached(w, db, CardinalityManyToOne, rel, sc, entities, later);
    loaded := es;
    if ok {
      WasLoaded(w, db, rel, data, Unknown(w, CardinalityManyToOne, rel, data, all), later, next, es);
      AfterLoadingOne(w, db, rel, data, all, es);
      AddNothing(w.sch, data, es);
      assert forall i | 0 <= i < |es| :: es[i] !in entities;
      FillOne(w, rel, sc, entities);
    }
  }

  lemma {:induction false} AddNothing(sch: Schema, data: Data, es: seq<Entity>)
    requires AllSafe(sch, es)
    ensures es == [] ==> AddAll(sch, data, es) == data
  {
  }

  /** `includeParent`: the many-to-one loader, which passes over records of another type. */
  method IncludeOne(ghost w: World, db: Db, rel: Relation, later: seq<Records>, sc: ScopeCache, records: Records)
      returns (ok: bool, next: seq<Records>, ghost loaded: seq<Entity>)
    requires OneReady(w, db, rel, sc.data) && sc.Valid() && sc.sch == w.sch && Distinct(records.items)
    requires records.kind == rel.owner ==> AllStart(w, rel, RowsOf(records.items))
    modifies sc, records.items
    ensures Queryable(db, rel) ==> ok
    ensures sc.Valid() && Blank(rel.table, loaded) && forall i | 0 <= i < |loaded| :: fresh(loaded[i])
    ensures records.kind != rel.owner ==>
              && ok && next == later && loaded == [] && sc.data == old(sc.data)
              && LinksOf(records.items) == old(LinksOf(records.items))
    ensures ok && records.kind == rel.owner ==>
              && Loaded(w, db, rel, old(sc.data), sc.data, later, next, loaded) && OneReady(w, db, rel, sc.data)
              && Stable(CardinalityManyToOne, rel, old(sc.data), sc.data)
              && AllLinked(w, rel, sc.data, RowsOf(records.items),
                           old(LinksOf(records.items)), LinksOf(records.items))
              && AllFindReferent(w, db, rel, sc.data, RowsOf(records.items))
    ensures Unknown(w, CardinalityManyToOne, rel, old(sc.data), RowsOf(records.items)) == [] ==>
              ok && next == later && loaded == [] && sc.data == old(sc.data)
  {
    hide *;
    if records.kind != rel.owner {
      NoneIsBlank(rel.table);
      return true, later, [];
    }
    ok, next, loaded := IncludeOneInto(w, db, rel, later, sc, records.items);
  }
}
