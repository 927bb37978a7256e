/**
 Cache contents that stand for rows of the database, and what a load of further objects does to them: one-to-many
 buckets stay complete, many-to-one entries stay sound. `Includes` holds the loaders.
 */
module CacheContents {
  import opened Wrappers
  import opened Strings
  import opened Dialects
  import opened Sql
  import opened KeyStrings
  import opened ScopeCaches
  import opened Joins

  // ----- adding many objects

  ghost function AddAll(sch: Schema, data: Data, es: seq<Entity>): Data
    requires AllSafe(sch, es)
  {
    if es == [] then data
    else Add(sch, AddAll(sch, data, es[..|es| - 1]), es[|es| - 1]).data
  }

  /** One-to-many keys never hold single objects. */
  ghost predicate BucketsOnly(data: Data) {
    forall k | SafeId(k) :: !IsObject(Lookup(data, CacheKey(CardinalityOneToMany, k)))
  }

  function Extended(entry: Option<Entry>, es: seq<Entity>): Option<Entry> {
    if es == [] then entry
    else
      match entry
      case Some(Bucket(before)) => Some(Bucket(before + es))
      case _ => Some(Bucket(es))
  }

  lemma {:induction false} EnlargedExtends(entry: Option<Entry>, es: seq<Entity>, e: Entity, n: nat)
    requires !IsObject(entry)
    ensures Enlarged(Extended(entry, es), e, n) == Extended(entry, es + Repeat(e, n))
  {
    assert es + Repeat(e, 0) == es;
    assert [] + Repeat(e, n) == Repeat(e, n);
    if entry.Some? {
      assert entry.value.es + es + Repeat(e, n) == entry.value.es + (es + Repeat(e, n));
    }
  }

  lemma {:induction false} AddAllAt(sch: Schema, data: Data, es: seq<Entity>, c: Cardinality, id: KeyId)
    requires AllSafe(sch, es) && BucketsOnly(data) && SafeId(id)
    ensures Lookup(AddAll(sch, data, es), CacheKey(c, id)) ==
            if c.CardinalityOneToMany? then Extended(Lookup(data, CacheKey(c, id)), All(sch, es, id))
            else if Last(sch, es, c, id).Some? then Last(sch, es, c, id)
            else Lookup(data, CacheKey(c, id))
  {
    if es != [] {
      var n := |es| - 1;
      AddAllAt(sch, data, es[..n], c, id);
      AddAllBuckets(sch, data, es[..n]);
      AddAt(sch, AddAll(sch, data, es[..n]), es[n], c, id);
      if c.CardinalityOneToMany? {
        var times := Count(sch.OneToManyIds(es[n]), id);
        EnlargedExtends(Lookup(data, CacheKey(c, id)), All(sch, es[..n], id), es[n], times);
      }
    }
  }

  lemma {:induction false} AddAllBuckets(sch: Schema, data: Data, es: seq<Entity>)
    requires AllSafe(sch, es) && BucketsOnly(data)
    ensures BucketsOnly(AddAll(sch, data, es))
  {
    if es != [] {
      var n := |es| - 1;
      AddAllBuckets(sch, data, es[..n]);
      forall k | SafeId(k)
        ensures !IsObject(Lookup(AddAll(sch, data, es), CacheKey(CardinalityOneToMany, k)))
      {
        AddAt(sch, AddAll(sch, data, es[..n]), es[n], CardinalityOneToMany, k);
      }
    }
  }

  // ----- the objects of one key

  /** The ids under which a relation files the rows of its table. */
  predicate Files(rel: Relation, id: KeyId) {
    SafeId(id) && id.table == rel.table && id.cols.Keys == rel.RefSet()
  }

  function ColumnSet(key: seq<string>): set<string> {
    set c | c in key
  }

  /** How many keys of a table have the columns of the relation: so often a bucket gets each object. */
  function Times(w: World, rel: Relation): nat {
    var keys := if rel.table in w.sch.tables then w.sch.tables[rel.table].oneToMany else [];
    Count(seq(|keys|, i requires 0 <= i < |keys| => ColumnSet(keys[i])), rel.RefSet())
  }

  /** Every row `n` times. */
  function Stutter(rows: seq<Row>, n: nat): seq<Row> {
    if rows == [] then [] else Stutter(rows[..|rows| - 1], n) + seq(n, i => rows[|rows| - 1])
  }

  lemma {:induction false} StutterStep(rows: seq<Row>, row: Row, n: nat)
    ensures Stutter(rows + [row], n) == Stutter(rows, n) + seq(n, i => row)
  {
    assert (rows + [row])[..|rows|] == rows;
  }

  lemma {:induction false} StutterOnce(rows: seq<Row>)
    ensures Stutter(rows, 1) == rows
  {
    if rows != [] {
      var row := rows[|rows| - 1];
      StutterOnce(rows[..|rows| - 1]);
      assert seq(1, i => row) == [row];
    }
  }

  lemma {:induction false} StutterLength(rows: seq<Row>, n: nat)
    ensures |Stutter(rows, n)| == |rows| * n
    ensures n > 0 ==> (Stutter(rows, n) == [] <==> rows == [])
  {
    if rows != [] {
      StutterLength(rows[..|rows| - 1], n);
      assert |rows| * n == (|rows| - 1) * n + n;
    }
  }

  lemma {:induction false} IdByColumns(w: World, rel: Relation, e: Entity, key: seq<string>, id: KeyId)
    requires e.table == rel.table && id.cols.Keys == rel.RefSet()
    ensures w.sch.Id(e, key) == id <==> ColumnSet(key) == rel.RefSet() && w.IdIn(rel, e.row) == id
  {
    var a, b := w.sch.Id(e, key), w.IdIn(rel, e.row);
    assert a.cols.Keys == ColumnSet(key) && b.cols.Keys == rel.RefSet();
    assert forall c | c in a.cols :: a.cols[c] == w.sch.render(At(e.row, c));
    assert forall c | c in b.cols :: b.cols[c] == w.sch.render(At(e.row, c));
    hide Relation.RefSet, ColumnSet, At;
    if ColumnSet(key) == rel.RefSet() {
      assert a.cols == b.cols;
    }
  }

  /** How often an object goes into the bucket of a key. */
  lemma {:induction false} TimesFiled(w: World, rel: Relation, e: Entity, id: KeyId)
    requires e.table == rel.table && w.sch.Registered(e) && id.cols.Keys == rel.RefSet()
    ensures Count(w.sch.OneToManyIds(e), id) == if w.IdIn(rel, e.row) == id then Times(w, rel) else 0
  {
    hide World.IdIn, Schema.Id, Relation.RefSet, ColumnSet;
    var keys := w.sch.tables[rel.table].oneToMany;
    var sets := seq(|keys|, i requires 0 <= i < |keys| => ColumnSet(keys[i]));
    forall i | 0 <= i < |keys|
      ensures w.sch.OneToManyIds(e)[i] == id <==> w.IdIn(rel, e.row) == id && sets[i] == rel.RefSet()
    {
      IdByColumns(w, rel, e, keys[i], id);
    }
    CountAlike(w.sch.OneToManyIds(e), id, sets, rel.RefSet(), w.IdIn(rel, e.row) == id);
  }

  lemma {:induction false} RegisteredIfSafe(sch: Schema, e: Entity)
    requires sch.SafeEntity(e)
    ensures sch.Registered(e)
  {
  }

  /** What `All` collects for a key: the objects whose rows match it, each as often as it is filed. */
  lemma {:induction false} AllMatching(w: World, rel: Relation, es: seq<Entity>, id: KeyId)
    requires AllSafe(w.sch, es) && id.cols.Keys == rel.RefSet() && rel.table in w.sch.tables
    requires forall i | 0 <= i < |es| :: es[i].table == rel.table
    ensures RowsOf(All(w.sch, es, id)) == Stutter(Matching(w, rel, RowsOf(es), id), Times(w, rel))
    ensures forall x | x in All(w.sch, es, id) :: x in es
  {
    hide World.IdIn, Schema.SafeEntity, Schema.OneToManyIds, Count, Times, Matching, Stutter, Relation.RefSet;
    if es == [] {
      NothingMatches(w, rel, id);
    } else {
      var n := |es| - 1;
      var e := es[n];
      var before := All(w.sch, es[..n], id);
      AllMatching(w, rel, es[..n], id);
      assert w.sch.SafeEntity(e);
      RegisteredIfSafe(w.sch, e);
      TimesFiled(w, rel, e, id);
      assert RowsOf(es) == RowsOf(es[..n]) + [e.row];
      MatchingStep(w, rel, RowsOf(es[..n]), e.row, id);
      var added := if w.IdIn(rel, e.row) == id then Repeat(e, Times(w, rel)) else [];
      assert All(w.sch, es, id) == before + added by {
        assert Repeat(e, 0) == [];
      }
      assert RowsOf(before + added) == RowsOf(before) + RowsOf(added);
      StutterStep(Matching(w, rel, RowsOf(es[..n]), id), e.row, Times(w, rel));
      assert RowsOf(Repeat(e, Times(w, rel))) == seq(Times(w, rel), i => e.row);
      assert RowsOf(before) + [] == RowsOf(before);
      assert Matching(w, rel, RowsOf(es[..n]), id) + [] == Matching(w, rel, RowsOf(es[..n]), id);
    }
  }

  lemma {:induction false} NothingMatches(w: World, rel: Relation, id: KeyId)
    requires rel.table in w.sch.tables
    ensures RowsOf([]) == [] && Stutter(Matching(w, rel, [], id), Times(w, rel)) == []
  {
  }

  lemma {:induction false} NothingOfOtherTable(sch: Schema, es: seq<Entity>, id: KeyId)
    requires AllSafe(sch, es) && forall i | 0 <= i < |es| :: es[i].table != id.table
    ensures All(sch, es, id) == [] && Last(sch, es, CardinalityManyToOne, id) == None
  {
    if es != [] {
      var n := |es| - 1;
      NothingOfOtherTable(sch, es[..n], id);
      var ids := sch.OneToManyIds(es[n]);
      assert forall i | 0 <= i < |ids| :: ids[i].table == es[n].table;
      CountNone(ids, id);
    }
  }

  lemma {:induction false} CountNone<T>(s: seq<T>, x: T)
    requires x !in s
    ensures Count(s, x) == 0
  {
    if s != [] {
      CountNone(s[..|s| - 1], x);
    }
  }

  // ----- what the cache says about a relation

  /** The entry is missing, or it is a bucket of objects of `table` that hold `rows`. */
  ghost predicate Stands(entry: Option<Entry>, table: string, rows: seq<Row>) {
    match entry
    case None => true
    case Some(Obj(_)) => false
    case Some(Bucket(es)) => es != [] && RowsOf(es) == rows && forall i | 0 <= i < |es| :: es[i].table == table
  }

  /** The bucket of an entry, empty when there is none. */
  function BucketIn(entry: Option<Entry>): seq<Entity> {
    match entry
    case Some(Bucket(es)) => es
    case _ => []
  }

  /**
   A bucket that is present holds all the rows of its key, in database order; filed once, no object is in it twice.
   */
  ghost predicate CompleteAt(w: World, data: Data, rel: Relation, rows: seq<Row>, id: KeyId) {
    var entry := Lookup(data, CacheKey(CardinalityOneToMany, id));
    && Stands(entry, rel.table, Stutter(Matching(w, rel, rows, id), Times(w, rel)))
    && (Times(w, rel) == 1 ==> Distinct(BucketIn(entry)))
  }

  ghost predicate Complete(w: World, data: Data, rel: Relation, rows: seq<Row>) {
    forall id | Files(rel, id) :: CompleteAt(w, data, rel, rows, id)
  }

  /** A many-to-one entry holds a row of the database that has the key it is filed under. */
  ghost predicate SoundAt(w: World, data: Data, rel: Relation, rows: seq<Row>, id: KeyId) {
    match Lookup(data, CacheKey(CardinalityManyToOne, id))
    case None => true
    case Some(Bucket(_)) => false
    case Some(Obj(e)) => e.table == rel.table && e.row in rows && w.IdIn(rel, e.row) == id
  }

  ghost predicate Sound(w: World, data: Data, rel: Relation, rows: seq<Row>) {
    forall id | Files(rel, id) :: SoundAt(w, data, rel, rows, id)
  }

  /** What is filed for a relation stays filed as it is. */
  ghost predicate Stable(c: Cardinality, rel: Relation, data: Data, data': Data) {
    forall id | Files(rel, id) && Lookup(data, CacheKey(c, id)).Some? ::
      Lookup(data', CacheKey(c, id)) == Lookup(data, CacheKey(c, id))
  }

  /** The table has a key with the columns of the relation. */
  ghost predicate Leads(keys: seq<seq<string>>, rel: Relation) {
    exists k | 0 <= k < |keys| :: ColumnSet(keys[k]) == rel.RefSet()
  }

  lemma {:induction false} LeadsTimes(w: World, rel: Relation)
    requires rel.table in w.sch.tables && Leads(w.sch.tables[rel.table].oneToMany, rel)
    ensures Times(w, rel) > 0
  {
    var keys := w.sch.tables[rel.table].oneToMany;
    var sets := seq(|keys|, i requires 0 <= i < |keys| => ColumnSet(keys[i]));
    var k :| 0 <= k < |keys| && ColumnSet(keys[k]) == rel.RefSet();
    CountSome(sets, k);
  }

  /** The last object filed under a many-to-one key has that key; it is missing only when none has it. */
  lemma {:induction false} LastOf(w: World, rel: Relation, es: seq<Entity>, id: KeyId)
    requires AllSafe(w.sch, es) && id.cols.Keys == rel.RefSet() && rel.table in w.sch.tables
    requires forall i | 0 <= i < |es| :: es[i].table == rel.table
    ensures match Last(w.sch, es, CardinalityManyToOne, id)
            case None => Leads(w.sch.tables[rel.table].manyToOne, rel) ==>
                           forall i | 0 <= i < |es| :: w.IdIn(rel, es[i].row) != id
            case Some(entry) => entry.Obj? && entry.e in es && w.IdIn(rel, entry.e.row) == id
  {
    hide World.IdIn, Schema.SafeEntity, Schema.ManyToOneIds, Leads;
    if es != [] {
      var n := |es| - 1;
      var e := es[n];
      LastOf(w, rel, es[..n], id);
      assert w.sch.SafeEntity(e);
      RegisteredIfSafe(w.sch, e);
      FiledByColumns(w, rel, e, id);
    }
  }

  lemma {:induction false} FiledByColumns(w: World, rel: Relation, e: Entity, id: KeyId)
    requires e.table == rel.table && w.sch.Registered(e) && id.cols.Keys == rel.RefSet()
    ensures id in w.sch.ManyToOneIds(e) ==> w.IdIn(rel, e.row) == id
    ensures Leads(w.sch.tables[rel.table].manyToOne, rel) && w.IdIn(rel, e.row) == id ==> id in w.sch.ManyToOneIds(e)
  {
    hide World.IdIn, Schema.Id, Relation.RefSet, ColumnSet;
    var keys, ids := w.sch.tables[rel.table].manyToOne, w.sch.ManyToOneIds(e);
    forall i | 0 <= i < |keys|
      ensures ids[i] == id <==> ColumnSet(keys[i]) == rel.RefSet() && w.IdIn(rel, e.row) == id
    {
      IdByColumns(w, rel, e, keys[i], id);
    }
    if Leads(keys, rel) && w.IdIn(rel, e.row) == id {
      var k :| 0 <= k < |keys| && ColumnSet(keys[k]) == rel.RefSet();
      assert ids[k] == id;
    }
  }

  // ----- a load: one query for the rows `here`, whose keys were missing

  ghost predicate Based(w: World, rel: Relation, rows: seq<Row>) {
    w.Faithful() && rel.table in w.sch.tables && forall i | 0 <= i < |rows| :: Ends(w, rel, rows[i])
  }

  lemma {:induction false} FaithfulIfBased(w: World, rel: Relation, rows: seq<Row>)
    requires Based(w, rel, rows)
    ensures w.Faithful() && rel.table in w.sch.tables
  {
  }

  ghost predicate AllStart(w: World, rel: Relation, rows: seq<Row>) {
    forall i | 0 <= i < |rows| :: w.Starts(rel, rows[i])
  }

  ghost predicate Load(w: World, rel: Relation, rows: seq<Row>, here: seq<Row>, es: seq<Entity>) {
    && AllSafe(w.sch, es) && Distinct(es) && (forall i | 0 <= i < |es| :: es[i].table == rel.table)
    && RowsOf(es) == SelectRows(Plain, Or(KeyConds(rel, here)), rows) && AllStart(w, rel, here)
  }

  ghost predicate IsCached(w: World, c: Cardinality, rel: Relation, data: Data, row: Row) {
    CacheKey(c, w.IdFor(rel, row)) in data
  }

  ghost predicate NoneCached(w: World, c: Cardinality, rel: Relation, data: Data, here: seq<Row>) {
    forall i | 0 <= i < |here| :: !IsCached(w, c, rel, data, here[i])
  }

  lemma {:induction false} MissingKey(w: World, c: Cardinality, rel: Relation, data: Data, here: seq<Row>, id: KeyId)
    requires NoneCached(w, c, rel, data, here) && id in IdsFor(w, rel, here)
    ensures Lookup(data, CacheKey(c, id)) == None
  {
    hide CacheKey;
    var i :| 0 <= i < |here| && IdsFor(w, rel, here)[i] == id;
    assert !IsCached(w, c, rel, data, here[i]);
  }

  /** What a load brings for a key: all of its rows when it was asked for, and nothing otherwise. */
  lemma {:induction false} LoadedFor(w: World, rel: Relation, rows: seq<Row>, here: seq<Row>, es: seq<Entity>,
                                     id: KeyId)
    requires Based(w, rel, rows) && Load(w, rel, rows, here, es) && Files(rel, id)
    ensures var n := Times(w, rel);
            RowsOf(All(w.sch, es, id)) ==
            Stutter(if id in IdsFor(w, rel, here) then Matching(w, rel, rows, id) else [], n)
    ensures forall i | 0 <= i < |All(w.sch, es, id)| :: All(w.sch, es, id)[i].table == rel.table
  {
    hide Matching, SelectRows, IdsFor, KeyConds, Times, Stutter, All;
    AllMatching(w, rel, es, id);
    FetchedMatching(w, rel, here, rows, id);
    var found := All(w.sch, es, id);
    forall i | 0 <= i < |found|
      ensures found[i].table == rel.table
    {
      assert found[i] in found;
    }
  }

  lemma {:induction false} AllDistinct(w: World, rel: Relation, es: seq<Entity>, id: KeyId)
    requires AllSafe(w.sch, es) && Distinct(es) && id.cols.Keys == rel.RefSet() && rel.table in w.sch.tables
    requires Times(w, rel) == 1 && forall i | 0 <= i < |es| :: es[i].table == rel.table
    ensures Distinct(All(w.sch, es, id))
  {
    hide World.IdIn, Schema.SafeEntity, Schema.OneToManyIds, Count, Times, Relation.RefSet;
    if es != [] {
      var n := |es| - 1;
      var e, before := es[n], All(w.sch, es[..n], id);
      AllDistinct(w, rel, es[..n], id);
      AllMatching(w, rel, es[..n], id);
      assert w.sch.SafeEntity(e);
      RegisteredIfSafe(w.sch, e);
      TimesFiled(w, rel, e, id);
      forall i | 0 <= i < |before|
        ensures before[i] != e
      {
        assert before[i] in es[..n];
      }
    }
  }

  /** Caching what the query brought keeps a bucket complete, and fills that of a missing key. */
  lemma {:induction false} LoadFills(w: World, data: Data, rel: Relation, rows: seq<Row>, here: seq<Row>,
                                     es: seq<Entity>, id: KeyId)
    requires Based(w, rel, rows) && Load(w, rel, rows, here, es) && BucketsOnly(data) && Files(rel, id)
    requires NoneCached(w, CardinalityOneToMany, rel, data, here) && CompleteAt(w, data, rel, rows, id)
    ensures CompleteAt(w, AddAll(w.sch, data, es), rel, rows, id)
    ensures var key, loaded := CacheKey(CardinalityOneToMany, id), All(w.sch, es, id);
            Lookup(AddAll(w.sch, data, es), key) ==
            if id !in IdsFor(w, rel, here) then Lookup(data, key)
            else if loaded == [] then None
            else Some(Bucket(loaded))
  {
    hide CacheKey, Based, AddAll, All, Matching, Times, IdsFor;
    var loaded := All(w.sch, es, id);
    AddAllAt(w.sch, data, es, CardinalityOneToMany, id);
    LoadedFor(w, rel, rows, here, es, id);
    if Times(w, rel) == 1 {
      FaithfulIfBased(w, rel, rows);
      AllDistinct(w, rel, es, id);
    }
    assert |RowsOf(loaded)| == |loaded|;
    if id in IdsFor(w, rel, here) {
      MissingKey(w, CardinalityOneToMany, rel, data, here, id);
    }
  }

  /** Caching what the query brought keeps every bucket of the relation complete, and changes none. */
  lemma {:induction false} LoadKeepsComplete(w: World, data: Data, rel: Relation, rows: seq<Row>, here: seq<Row>,
                                             es: seq<Entity>)
    requires Based(w, rel, rows) && Load(w, rel, rows, here, es) && BucketsOnly(data)
    requires NoneCached(w, CardinalityOneToMany, rel, data, here) && Complete(w, data, rel, rows)
    ensures Complete(w, AddAll(w.sch, data, es), rel, rows)
    ensures Stable(CardinalityOneToMany, rel, data, AddAll(w.sch, data, es))
  {
    hide CacheKey, AddAll, All, NoneCached, CompleteAt, SelectRows, KeyConds, World.Faithful;
    forall id | Files(rel, id)
      ensures CompleteAt(w, AddAll(w.sch, data, es), rel, rows, id)
      ensures var key := CacheKey(CardinalityOneToMany, id);
              Lookup(data, key).Some? ==> Lookup(AddAll(w.sch, data, es), key) == Lookup(data, key)
    {
      LoadFills(w, data, rel, rows, here, es, id);
      if id in IdsFor(w, rel, here) {
        MissingKey(w, CardinalityOneToMany, rel, data, here, id);
      }
    }
  }

  /** Caching rows of the table keeps the many-to-one entries sound. */
  lemma {:induction false} LoadKeepsSound(w: World, data: Data, rel: Relation, rows: seq<Row>, es: seq<Entity>)
    requires AllSafe(w.sch, es) && BucketsOnly(data) && Sound(w, data, rel, rows) && rel.table in w.sch.tables
    requires forall i | 0 <= i < |es| :: es[i].table == rel.table && es[i].row in rows
    ensures Sound(w, AddAll(w.sch, data, es), rel, rows)
  {
    hide CacheKey, AddAll, World.IdIn;
    forall id | Files(rel, id)
      ensures SoundAt(w, AddAll(w.sch, data, es), rel, rows, id)
    {
      assert SoundAt(w, data, rel, rows, id);
      AddAllAt(w.sch, data, es, CardinalityManyToOne, id);
      LastOf(w, rel, es, id);
    }
  }

  /** Loading rows for missing many-to-one keys changes no entry that was there. */
  lemma {:induction false} LoadKeepsObjects(w: World, data: Data, rel: Relation, rows: seq<Row>, here: seq<Row>,
                                            es: seq<Entity>)
    requires Based(w, rel, rows) && Load(w, rel, rows, here, es) && BucketsOnly(data)
    requires NoneCached(w, CardinalityManyToOne, rel, data, here)
    ensures Stable(CardinalityManyToOne, rel, data, AddAll(w.sch, data, es))
  {
    hide CacheKey, AddAll, World.IdIn, NoneCached, Last;
    forall id | Files(rel, id) && Lookup(data, CacheKey(CardinalityManyToOne, id)).Some?
      ensures Lookup(AddAll(w.sch, data, es), CacheKey(CardinalityManyToOne, id)) ==
              Lookup(data, CacheKey(CardinalityManyToOne, id))
    {
      AddAllAt(w.sch, data, es, CardinalityManyToOne, id);
      LastOf(w, rel, es, id);
      if Last(w.sch, es, CardinalityManyToOne, id).Some? {
        LoadedRowAskedFor(w, rel, rows, here, es, Last(w.sch, es, CardinalityManyToOne, id).value.e);
        MissingKey(w, CardinalityManyToOne, rel, data, here, id);
      }
    }
  }

  lemma {:induction false} LoadedRowAskedFor(w: World, rel: Relation, rows: seq<Row>, here: seq<Row>, es: seq<Entity>,
                                             e: Entity)
    requires Based(w, rel, rows) && Load(w, rel, rows, here, es) && e in es
    ensures w.IdIn(rel, e.row) in IdsFor(w, rel, here) && e.row in rows
  {
    hide World.IdIn, IdsFor, KeyConds, World.Faithful;
    var i :| 0 <= i < |es| && es[i] == e;
    assert RowsOf(es)[i] == e.row && e.row in RowsOf(es);
    SelectedRows(Plain, Or(KeyConds(rel, here)), rows);
    var j :| 0 <= j < |rows| && rows[j] == e.row;
    CondSelects(w, rel, here, e.row);
  }

  /** Objects of other tables leave everything that is filed for a relation alone. */
  lemma {:induction false} OthersKeep(w: World, c: Cardinality, data: Data, rel: Relation, es: seq<Entity>)
    requires AllSafe(w.sch, es) && BucketsOnly(data) && !c.CardinalityNone?
    requires forall i | 0 <= i < |es| :: es[i].table != rel.table
    ensures forall id | Files(rel, id) ::
              Lookup(AddAll(w.sch, data, es), CacheKey(c, id)) == Lookup(data, CacheKey(c, id))
  {
    forall id | Files(rel, id)
      ensures Lookup(AddAll(w.sch, data, es), CacheKey(c, id)) == Lookup(data, CacheKey(c, id))
    {
      AddAllAt(w.sch, data, es, c, id);
      NothingOfOtherTable(w.sch, es, id);
    }
  }

  // ----- the objects in a cache

  ghost predicate EntryKnown(entry: Entry, es: set<Entity>) {
    match entry
    case Obj(e) => e in es
    case Bucket(b) => forall i | 0 <= i < |b| :: b[i] in es
  }

  /** The cache holds no other objects. */
  ghost predicate HoldsOnly(data: Data, es: set<Entity>) {
    forall key | key in data :: EntryKnown(data[key], es)
  }

  lemma {:induction false} PutBucketsKnown(data: Data, keys: seq<string>, e: Entity, es: set<Entity>)
    requires HoldsOnly(data, es) && e in es
    ensures HoldsOnly(PutBuckets(data, keys, e).data, es)
  {
    if keys != [] {
      PutBucketsKnown(data, keys[..|keys| - 1], e, es);
    }
  }

  lemma {:induction false} PutObjectsKnown(data: Data, keys: seq<string>, e: Entity, es: set<Entity>)
    requires HoldsOnly(data, es) && e in es
    ensures HoldsOnly(PutObjects(data, keys, e), es)
  {
    if keys != [] {
      PutObjectsKnown(data, keys[..|keys| - 1], e, es);
    }
  }

  lemma {:induction false} AddKnown(sch: Schema, data: Data, e: Entity, es: set<Entity>)
    requires HoldsOnly(data, es) && e in es && sch.Registered(e)
    ensures HoldsOnly(Add(sch, data, e).data, es)
  {
    hide CacheKey;
    var own := data[CacheKey(CardinalityNone, sch.PrimaryId(e)) := Obj(e)];
    var keys := KeysFor(CardinalityOneToMany, sch.OneToManyIds(e));
    PutBucketsKnown(own, keys, e, es);
    PutObjectsKnown(PutBuckets(own, keys, e).data, KeysFor(CardinalityManyToOne, sch.ManyToOneIds(e)), e, es);
  }

  lemma {:induction false} AddAllAmong(sch: Schema, data: Data, added: seq<Entity>, es: set<Entity>)
    requires AllSafe(sch, added) && HoldsOnly(data, es) && forall i | 0 <= i < |added| :: added[i] in es
    ensures HoldsOnly(AddAll(sch, data, added), es)
  {
    hide Add, HoldsOnly;
    if added != [] {
      var n := |added| - 1;
      AddAllAmong(sch, data, added[..n], es);
      AddKnown(sch, AddAll(sch, data, added[..n]), added[n], es);
    }
  }

  lemma {:induction false} AmongMore(data: Data, es: set<Entity>, more: set<Entity>)
    requires HoldsOnly(data, es) && es <= more
    ensures HoldsOnly(data, more)
  {
  }

  // ----- a second one-to-many key

  /** Of the rows with this key, `some` has all, in the order of `all`, or none. */
  ghost predicate WholeKey(w: World, rel: Relation, some: seq<Row>, all: seq<Row>, id: KeyId) {
    Matching(w, rel, some, id) in {[], Matching(w, rel, all, id)}
  }

  lemma {:induction false} MatchingSelected(w: World, rel: Relation, where: Cond, rows: seq<Row>, id: KeyId)
    ensures var some, all := Matching(w, rel, SelectRows(Plain, where, rows), id), Matching(w, rel, rows, id);
            && |some| <= |all|
            && (|some| == |all| <==>
                  forall i | 0 <= i < |rows| && w.IdIn(rel, rows[i]) == id :: Selects(Plain, where, rows[i]))
            && (|some| == |all| ==> some == all)
  {
    hide Selects, World.IdIn;
    if rows != [] {
      var n := |rows| - 1;
      MatchingSelected(w, rel, where, rows[..n], id);
      MatchingStep(w, rel, SelectRows(Plain, where, rows[..n]), rows[n], id);
      MatchingStep(w, rel, rows[..n], rows[n], id);
      assert rows == rows[..n] + [rows[n]];
      assert SelectRows(Plain, where, rows[..n]) + [] == SelectRows(Plain, where, rows[..n]);
      hide Matching, SelectRows;
      assert forall i | 0 <= i < n :: rows[..n][i] == rows[i];
    }
  }

  lemma {:induction false} StutterSame(a: seq<Row>, b: seq<Row>, n: nat)
    requires n > 0 && Stutter(a, n) == Stutter(b, n)
    ensures a == b
  {
    StutterLength(a, n);
    StutterLength(b, n);
    if a != [] {
      var s, t := Stutter(a[..|a| - 1], n), Stutter(b[..|b| - 1], n);
      assert |s| == |Stutter(a, n)| - n == |t|;
      assert Stutter(a, n)[..|s|] == s && Stutter(b, n)[..|t|] == t;
      assert Stutter(a, n)[|s|] == a[|a| - 1] && Stutter(b, n)[|t|] == b[|b| - 1];
      StutterSame(a[..|a| - 1], b[..|b| - 1], n);
      assert a == a[..|a| - 1] + [a[|a| - 1]] && b == b[..|b| - 1] + [b[|b| - 1]];
    }
  }

  lemma {:induction false} MatchingNone(w: World, rel: Relation, rows: seq<Row>, id: KeyId)
    ensures Matching(w, rel, rows, id) == [] <==> forall i | 0 <= i < |rows| :: w.IdIn(rel, rows[i]) != id
  {
    hide World.IdIn;
    if rows != [] {
      var n := |rows| - 1;
      MatchingNone(w, rel, rows[..n], id);
      assert forall i | 0 <= i < n :: rows[..n][i] == rows[i];
    }
  }

  /** Filing objects under a new key makes a complete bucket exactly when they hold all rows with the key, or none. */
  lemma {:induction false} NewBucket(w: World, data: Data, rel: Relation, rows: seq<Row>, es: seq<Entity>, id: KeyId)
    requires AllSafe(w.sch, es) && Distinct(es) && (forall i | 0 <= i < |es| :: es[i].table == rel.table)
    requires BucketsOnly(data) && rel.table in w.sch.tables && Leads(w.sch.tables[rel.table].oneToMany, rel)
    requires Files(rel, id) && Lookup(data, CacheKey(CardinalityOneToMany, id)) == None
    ensures CompleteAt(w, AddAll(w.sch, data, es), rel, rows, id)
       <==> WholeKey(w, rel, RowsOf(es), rows, id)
  {
    hide CacheKey, AddAll, Matching, World.IdIn, Times, Stutter, All, Leads;
    var n := Times(w, rel);
    var loaded := All(w.sch, es, id);
    LeadsTimes(w, rel);
    AddAllAt(w.sch, data, es, CardinalityOneToMany, id);
    AllMatching(w, rel, es, id);
    if n == 1 {
      AllDistinct(w, rel, es, id);
    }
    StutterLength(Matching(w, rel, RowsOf(es), id), n);
    assert forall i | 0 <= i < |loaded| :: loaded[i] in loaded;
    assert |RowsOf(loaded)| == |loaded|;
    if Stutter(Matching(w, rel, RowsOf(es), id), n) == Stutter(Matching(w, rel, rows, id), n) {
      StutterSame(Matching(w, rel, RowsOf(es), id), Matching(w, rel, rows, id), n);
    }
  }

  /**
   Why no other loader may lead to the table of a one-to-many relation: what is loaded through `rel` also starts
   buckets for `other`, and such a bucket is complete exactly when all rows with its key were loaded, or none.
   */
  lemma {:induction false} OtherKeyBucket(w: World, data: Data, rel: Relation, other: Relation,
                                          rows: seq<Row>, here: seq<Row>, es: seq<Entity>, id: KeyId)
    requires Load(w, rel, rows, here, es) && BucketsOnly(data)
    requires other.table == rel.table && rel.table in w.sch.tables && Leads(w.sch.tables[rel.table].oneToMany, other)
    requires Files(other, id) && Lookup(data, CacheKey(CardinalityOneToMany, id)) == None
    ensures CompleteAt(w, AddAll(w.sch, data, es), other, rows, id)
       <==> || (forall i | 0 <= i < |es| :: w.IdIn(other, es[i].row) != id)
            || (forall i | 0 <= i < |rows| && w.IdIn(other, rows[i]) == id ::
                  Selects(Plain, Or(KeyConds(rel, here)), rows[i]))
  {
    hide CacheKey, AddAll, Matching, World.IdIn, Selects, SelectRows, KeyConds, Leads, CompleteAt, Files;
    NewBucket(w, data, other, rows, es, id);
    MatchingSelected(w, other, Or(KeyConds(rel, here)), rows, id);
    MatchingNone(w, other, RowsOf(es), id);
    assert forall i | 0 <= i < |es| :: RowsOf(es)[i] == es[i].row;
  }

  // ----- such a table

  const REL := Relation("p", "As", "c", [ColumnPair("k", "a")])

  const OTHER := Relation("q", "Bs", "c", [ColumnPair("k", "b")])

  function Child(a: int, b: int): Row {
    map["a" := Int(a), "b" := Int(b)]
  }

  function Holder(k: int): Row {
    map["k" := Int(k)]
  }

  ghost predicate TwoKeys(w: World) {
    && w.Faithful() && {Int(1), Int(2), Int(7)} <= w.vals
    && "c" in w.sch.tables && w.sch.tables["c"] == TableKeys([], [["a"], ["b"]], [["a"], ["b"]], [])
  }

  lemma {:induction false} OneColumn(rel: Relation, fore: string, refe: string, here: Row, there: Row)
    requires rel.pairs == [ColumnPair(fore, refe)]
    ensures rel.Refs() == [refe] && rel.RefSet() == {refe} && rel.Fore(refe) == fore
    ensures Belongs(rel, here, there) <==> At(there, refe) == At(here, fore)
  {
  }

  lemma {:induction false} TwoChildrenJoined()
    ensures Joined(OTHER, [Child(1, 7), Child(2, 7)], Holder(7)) == [Child(1, 7), Child(2, 7)]
    ensures SelectRows(Plain, Or(KeyConds(REL, [Holder(1)])), [Child(1, 7), Child(2, 7)]) == [Child(1, 7)]
  {
    var rows := [Child(1, 7), Child(2, 7)];
    var where := Or(KeyConds(REL, [Holder(1)]));
    assert rows[..1] == [Child(1, 7)] && rows[..1][..0] == [];
    forall i | 0 <= i < 2
      ensures Belongs(OTHER, Holder(7), rows[i])
      ensures Selects(Plain, where, rows[i]) <==> i == 0
    {
      OneColumn(OTHER, "k", "b", Holder(7), rows[i]);
      OneColumn(REL, "k", "a", Holder(1), rows[i]);
      BelongsBySql(REL, Holder(1), rows[i]);
      OrSelects(Plain, KeyConds(REL, [Holder(1)]), rows[i]);
      assert KeyConds(REL, [Holder(1)])[0] == Eq(REL.KeyFor(Holder(1)).key);
    }
    hide Selects, Belongs, Child, Holder;
    assert Joined(OTHER, rows[..1], Holder(7)) == [rows[0]];
    assert SelectRows(Plain, where, rows[..1]) == [rows[0]];
    assert [rows[0]] + [] == [rows[0]];
  }

  lemma {:induction false} ChildIsSafe(w: World, e: Entity)
    requires TwoKeys(w) && e.table == "c" && e.row == Child(1, 7)
    ensures AllSafe(w.sch, [e])
  {
    var keys := w.sch.tables["c"];
    forall c | World.KeyColumn(keys, c)
      ensures At(e.row, c) in w.vals
    {
      assert c == "a" || c == "b";
    }
    RegularIsSafe(w, e);
  }

  lemma {:induction false} OtherOnce(w: World)
    requires TwoKeys(w)
    ensures Times(w, OTHER) == 1
  {
    OneColumn(OTHER, "k", "b", map[], map[]);
    var keys := w.sch.tables["c"].oneToMany;
    var sets := seq(|keys|, i requires 0 <= i < |keys| => ColumnSet(keys[i]));
    assert ColumnSet(["a"]) == {"a"} && ColumnSet(["b"]) == {"b"};
    assert sets == [{"a"}, {"b"}];
    assert "a" !in {"b"} by {
      assert "a"[0] != "b"[0];
    }
    assert sets[..1] == [{"a"}] && sets[..1][..0] == [];
    assert Count(sets[..1], {"b"}) == 0;
    assert Count(sets, {"b"}) == 1;
    assert Times(w, OTHER) == Count(sets, OTHER.RefSet());
  }

  /**
   The child that one loader brought for its holder 1 is all that the other loader, which finds a bucket and does not
   query, gives to its holder 7; a second child belongs to that holder as well.
   */
  lemma {:induction false} PartialBucketExample(w: World, e: Entity)
    requires TwoKeys(w) && e.table == "c" && e.row == Child(1, 7)
    ensures AllSafe(w.sch, [e])
    ensures RowsOf([e]) == SelectRows(Plain, Or(KeyConds(REL, [Holder(1)])), [Child(1, 7), Child(2, 7)])
    ensures Lookup(AddAll(w.sch, map[], [e]), CacheKey(CardinalityOneToMany, w.IdFor(OTHER, Holder(7)))) ==
            Some(Bucket([e]))
    ensures Joined(OTHER, [Child(1, 7), Child(2, 7)], Holder(7)) == [Child(1, 7), Child(2, 7)]
  {
    ChildIsSafe(w, e);
    TwoChildrenJoined();
    OtherOnce(w);
    HolderFiles(w, e);
    hide *;
    BucketOfOne(w, OTHER, e, w.IdFor(OTHER, Holder(7)));
    RowOfOne(e);
  }

  lemma {:induction false} RowOfOne(e: Entity)
    ensures RowsOf([e]) == [e.row]
  {
  }

  lemma {:induction false} HolderFiles(w: World, e: Entity)
    requires TwoKeys(w) && e.table == "c" && e.row == Child(1, 7)
    ensures Files(OTHER, w.IdFor(OTHER, Holder(7))) && w.IdIn(OTHER, e.row) == w.IdFor(OTHER, Holder(7))
    ensures OTHER.table in w.sch.tables && e.table == OTHER.table && RowsOf([e]) == [Child(1, 7)]
  {
    OneColumn(OTHER, "k", "b", Holder(7), e.row);
    assert SafeColumn("b") by {
      assert World.KeyColumn(w.sch.tables["c"], "b") by {
        assert "b" in w.sch.tables["c"].oneToMany[1];
      }
    }
    BelongsById(w, OTHER, Holder(7), e.row);
    assert w.sch.render(Int(7)) == w.sch.render(At(Holder(7), "k"));
  }

  lemma {:induction false} BucketOfOne(w: World, rel: Relation, e: Entity, id: KeyId)
    requires AllSafe(w.sch, [e]) && Files(rel, id) && w.IdIn(rel, e.row) == id
    requires rel.table in w.sch.tables && e.table == rel.table && Times(w, rel) == 1
    ensures Lookup(AddAll(w.sch, map[], [e]), CacheKey(CardinalityOneToMany, id)) == Some(Bucket([e]))
  {
    hide CacheKey, Times, Add, World.IdIn, Schema.SafeEntity;
    var data: Data := map[];
    AddAllAt(w.sch, data, [e], CardinalityOneToMany, id);
    AllMatching(w, rel, [e], id);
    RowOfOne(e);
    MatchingStep(w, rel, [], e.row, id);
    assert [] + [e.row] == [e.row];
    StutterOnce([e.row]);
    var all := All(w.sch, [e], id);
    assert |all| == |RowsOf(all)| == 1;
    assert all[0] in all;
    assert all == [e];
  }
}
