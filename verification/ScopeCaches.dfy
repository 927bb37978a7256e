/**
 The scope cache (scope_cache.go): one string-keyed map that holds three indexes at once.

 It is compared with a plain log of what was added and removed.
 */
module ScopeCaches {
  import opened Wrappers
  import opened Sql
  import opened RowKeys
  import opened KeyStrings

  /** The relation fields of a record, by the names of the struct fields; one that is missing is nil. */
  datatype Links = Links(many: map<string, seq<Entity>>, one: map<string, Entity>) {

    function Children(field: string): seq<Entity> {
      if field in many then many[field] else []
    }

    function Parent(field: string): Option<Entity> {
      if field in one then Some(one[field]) else None
    }
  }

  const NO_LINKS := Links(map[], map[])

  /** A loaded record. Its columns are fixed by the scan; its relation fields are filled in by the include loaders. */
  class Entity {
    const table: string
    const row: Row
    var links: Links

    constructor (table: string, row: Row)
      ensures this.table == table && this.row == row && links == NO_LINKS
    {
      this.table, this.row, links := table, row, NO_LINKS;
    }
  }

  /** The key columns of a table: primary, referenced by others, and these split by cardinality. */
  datatype TableKeys =
    TableKeys(primary: seq<string>, refs: seq<seq<string>>, oneToMany: seq<seq<string>>, manyToOne: seq<seq<string>>)

  /** The meta schema of the registered types, and the rendering of values. */
  datatype Schema = Schema(render: Value -> string, tables: map<string, TableKeys>) {

    function KeyOf(e: Entity, cols: seq<string>): RowKey {
      MapRowKey(e.table, map c | c in cols :: At(e.row, c))
    }

    function Id(e: Entity, cols: seq<string>): KeyId {
      IdOf(render, KeyOf(e, cols))
    }

    function Ids(e: Entity, keys: seq<seq<string>>): seq<KeyId> {
      seq(|keys|, i requires 0 <= i < |keys| => Id(e, keys[i]))
    }

    /** The table of an entity, which must be registered. */
    predicate Registered(e: Entity) {
      e.table in tables
    }

    function PrimaryId(e: Entity): KeyId
      requires Registered(e)
    {
      Id(e, tables[e.table].primary)
    }

    function ReferenceIds(e: Entity): seq<KeyId>
      requires Registered(e)
    {
      Ids(e, tables[e.table].refs)
    }

    function OneToManyIds(e: Entity): seq<KeyId>
      requires Registered(e)
    {
      Ids(e, tables[e.table].oneToMany)
    }

    function ManyToOneIds(e: Entity): seq<KeyId>
      requires Registered(e)
    {
      Ids(e, tables[e.table].manyToOne)
    }

    /** What removing `e` touches. */
    predicate Touches(e: Entity, id: KeyId)
      requires Registered(e)
    {
      id == PrimaryId(e) || id in ReferenceIds(e)
    }

    /** None of the keys of `e` contains a separator. */
    predicate SafeEntity(e: Entity) {
      && Registered(e)
      && SafeId(PrimaryId(e))
      && (forall i | 0 <= i < |ReferenceIds(e)| :: SafeId(ReferenceIds(e)[i]))
      && (forall i | 0 <= i < |OneToManyIds(e)| :: SafeId(OneToManyIds(e)[i]))
      && (forall i | 0 <= i < |ManyToOneIds(e)| :: SafeId(ManyToOneIds(e)[i]))
    }

    /** The reference keys cover the keys of both cardinalities. */
    ghost predicate Covers() {
      forall t | t in tables ::
        forall k | k in tables[t].oneToMany || k in tables[t].manyToOne :: k in tables[t].refs
    }
  }

  /** Under one-to-many keys the map holds buckets, under the others single objects. */
  datatype Entry = Obj(e: Entity) | Bucket(es: seq<Entity>)

  type Data = map<string, Entry>

  function Lookup(data: Data, key: string): Option<Entry> {
    if key in data then Some(data[key]) else None
  }

  // ----- the log

  datatype Event = Added(e: Entity) | Removed(e: Entity)

  ghost predicate SafeLog(sch: Schema, log: seq<Event>) {
    forall i | 0 <= i < |log| :: sch.SafeEntity(log[i].e)
  }

  /** The objects added since the last removal that touches `id`, in order. */
  ghost function Since(sch: Schema, log: seq<Event>, id: KeyId): seq<Entity>
    requires SafeLog(sch, log)
  {
    if log == [] then []
    else
      var before := Since(sch, log[..|log| - 1], id);
      match log[|log| - 1]
      case Added(e) => before + [e]
      case Removed(e) => if sch.Touches(e, id) then [] else before
  }

  ghost predicate AllSafe(sch: Schema, es: seq<Entity>) {
    forall i | 0 <= i < |es| :: sch.SafeEntity(es[i])
  }

  /** The last of `es` that has the primary key `id`, or that is referenced through it. */
  ghost function Last(sch: Schema, es: seq<Entity>, c: Cardinality, id: KeyId): Option<Entry>
    requires AllSafe(sch, es)
  {
    if es == [] then None
    else
      var e := es[|es| - 1];
      if (if c.CardinalityNone? then sch.PrimaryId(e) == id else id in sch.ManyToOneIds(e)) then Some(Obj(e))
      else Last(sch, es[..|es| - 1], c, id)
  }

  function Count<T(==)>(s: seq<T>, x: T): nat {
    if s == [] then 0 else Count(s[..|s| - 1], x) + if s[|s| - 1] == x then 1 else 0
  }

  function Repeat(e: Entity, n: nat): seq<Entity> {
    seq(n, i => e)
  }

  /** All of `es` in order, each as often as it has a one-to-many key `id`. */
  ghost function All(sch: Schema, es: seq<Entity>, id: KeyId): seq<Entity>
    requires AllSafe(sch, es)
  {
    if es == [] then []
    else
      var e := es[|es| - 1];
      All(sch, es[..|es| - 1], id) + Repeat(e, Count(sch.OneToManyIds(e), id))
  }

  ghost function Found(sch: Schema, es: seq<Entity>, c: Cardinality, id: KeyId): Option<Entry>
    requires AllSafe(sch, es)
  {
    if c.CardinalityOneToMany? then
      if All(sch, es, id) == [] then None else Some(Bucket(All(sch, es, id)))
    else
      Last(sch, es, c, id)
  }

  lemma {:induction false} SinceIsSafe(sch: Schema, log: seq<Event>, id: KeyId)
    requires SafeLog(sch, log)
    ensures AllSafe(sch, Since(sch, log, id))
  {
    if log != [] {
      SinceIsSafe(sch, log[..|log| - 1], id);
    }
  }

  /** What a lookup ought to find. */
  ghost function Expected(sch: Schema, log: seq<Event>, c: Cardinality, id: KeyId): Option<Entry>
    requires SafeLog(sch, log)
  {
    SinceIsSafe(sch, log, id);
    Found(sch, Since(sch, log, id), c, id)
  }

  ghost predicate Refines(sch: Schema, data: Data, log: seq<Event>)
    requires SafeLog(sch, log)
  {
    forall c, id | SafeId(id) :: Lookup(data, CacheKey(c, id)) == Expected(sch, log, c, id)
  }

  // ----- the map

  ghost function KeysFor(c: Cardinality, ids: seq<KeyId>): seq<string> {
    seq(|ids|, i requires 0 <= i < |ids| => CacheKey(c, ids[i]))
  }

  /** A map, or a failed type assertion that leaves a map behind. */
  datatype Stored = Stored(data: Data, ok: bool)

  /** Appends `e` to the bucket at every key; a single object at such a key fails the type assertion. */
  function PutBuckets(data: Data, keys: seq<string>, e: Entity): Stored {
    if keys == [] then Stored(data, true)
    else
      var key := keys[|keys| - 1];
      var before := PutBuckets(data, keys[..|keys| - 1], e);
      if !before.ok then before
      else if key !in before.data then Stored(before.data[key := Bucket([e])], true)
      else
        match before.data[key]
        case Obj(_) => Stored(before.data, false)
        case Bucket(es) => Stored(before.data[key := Bucket(es + [e])], true)
  }

  function PutObjects(data: Data, keys: seq<string>, e: Entity): Data {
    if keys == [] then data
    else PutObjects(data, keys[..|keys| - 1], e)[keys[|keys| - 1] := Obj(e)]
  }

  ghost function Add(sch: Schema, data: Data, e: Entity): Stored
    requires sch.Registered(e)
  {
    var own := data[CacheKey(CardinalityNone, sch.PrimaryId(e)) := Obj(e)];
    var buckets := PutBuckets(own, KeysFor(CardinalityOneToMany, sch.OneToManyIds(e)), e);
    if !buckets.ok then buckets
    else Stored(PutObjects(buckets.data, KeysFor(CardinalityManyToOne, sch.ManyToOneIds(e)), e), true)
  }

  ghost function KeySet(ids: seq<KeyId>): set<string> {
    set c: Cardinality, i | 0 <= i < |ids| :: CacheKey(c, ids[i])
  }

  ghost function Remove(sch: Schema, data: Data, e: Entity): Data
    requires sch.Registered(e)
  {
    data - KeySet(sch.ReferenceIds(e) + [sch.PrimaryId(e)])
  }

  // ----- adding

  ghost predicate SafeIds(ids: seq<KeyId>) {
    forall i | 0 <= i < |ids| :: SafeId(ids[i])
  }

  function Enlarged(entry: Option<Entry>, e: Entity, n: nat): Option<Entry> {
    if n == 0 then entry
    else
      match entry
      case Some(Bucket(es)) => Some(Bucket(es + Repeat(e, n)))
      case _ => Some(Bucket(Repeat(e, n)))
  }

  predicate IsObject(entry: Option<Entry>) {
    entry.Some? && entry.value.Obj?
  }

  lemma {:induction false} PutBucketsAt(data: Data, keys: seq<string>, e: Entity, key: string)
    requires forall i | 0 <= i < |keys| :: !IsObject(Lookup(data, keys[i]))
    ensures PutBuckets(data, keys, e).ok
    ensures Lookup(PutBuckets(data, keys, e).data, key) == Enlarged(Lookup(data, key), e, Count(keys, key))
  {
    if keys != [] {
      var n := |keys| - 1;
      PutBucketsAt(data, keys[..n], e, key);
      PutBucketsAt(data, keys[..n], e, keys[n]);
      if key == keys[n] {
        EnlargedOnce(Lookup(data, key), e, Count(keys[..n], key));
        assert Repeat(e, 1) == [e];
      }
    }
  }

  lemma {:induction false} EnlargedOnce(entry: Option<Entry>, e: Entity, n: nat)
    requires !IsObject(entry)
    ensures Enlarged(Enlarged(entry, e, n), e, 1) == Enlarged(entry, e, n + 1)
  {
    assert Repeat(e, n) + Repeat(e, 1) == Repeat(e, n + 1);
    if entry.Some? {
      assert entry.value.es + Repeat(e, n) + Repeat(e, 1) == entry.value.es + Repeat(e, n + 1);
    }
  }

  lemma {:induction false} PutObjectsAt(data: Data, keys: seq<string>, e: Entity, key: string)
    ensures Lookup(PutObjects(data, keys, e), key) == if key in keys then Some(Obj(e)) else Lookup(data, key)
  {
    if keys != [] {
      var n := |keys| - 1;
      PutObjectsAt(data, keys[..n], e, key);
      assert keys == keys[..n] + [keys[n]];
    }
  }

  lemma {:induction false} CountAlike<S, T>(s: seq<S>, x: S, t: seq<T>, y: T, alike: bool)
    requires |s| == |t| && forall i | 0 <= i < |s| :: s[i] == x <==> alike && t[i] == y
    ensures Count(s, x) == if alike then Count(t, y) else 0
  {
    if s != [] {
      CountAlike(s[..|s| - 1], x, t[..|t| - 1], y, alike);
    }
  }

  lemma {:induction false} KeysAlike(d: Cardinality, ids: seq<KeyId>, c: Cardinality, id: KeyId)
    requires SafeIds(ids) && SafeId(id)
    ensures forall i | 0 <= i < |ids| :: KeysFor(d, ids)[i] == CacheKey(c, id) <==> c == d && ids[i] == id
  {
    forall i | 0 <= i < |ids|
      ensures KeysFor(d, ids)[i] == CacheKey(c, id) <==> c == d && ids[i] == id
    {
      CacheKeyInjective(d, ids[i], c, id);
    }
  }

  /** A key string occurs among those of `ids` as often as its own id does. */
  lemma {:induction false} CountKeys(d: Cardinality, ids: seq<KeyId>, c: Cardinality, id: KeyId)
    requires SafeIds(ids) && SafeId(id)
    ensures Count(KeysFor(d, ids), CacheKey(c, id)) == if c == d then Count(ids, id) else 0
    ensures CacheKey(c, id) in KeysFor(d, ids) <==> c == d && id in ids
  {
    KeysAlike(d, ids, c, id);
    CountAlike(KeysFor(d, ids), CacheKey(c, id), ids, id, c == d);
  }

  /** The three indexes in one map do not disturb each other. */
  lemma {:induction false} AddAt(sch: Schema, data: Data, e: Entity, c: Cardinality, id: KeyId)
    requires sch.SafeEntity(e) && SafeId(id)
    requires forall k | SafeId(k) :: !IsObject(Lookup(data, CacheKey(CardinalityOneToMany, k)))
    ensures Add(sch, data, e).ok
    ensures Lookup(Add(sch, data, e).data, CacheKey(c, id)) ==
            match c
            case CardinalityNone => if id == sch.PrimaryId(e) then Some(Obj(e)) else Lookup(data, CacheKey(c, id))
            case CardinalityOneToMany => Enlarged(Lookup(data, CacheKey(c, id)), e, Count(sch.OneToManyIds(e), id))
            case CardinalityManyToOne =>
              if id in sch.ManyToOneIds(e) then Some(Obj(e)) else Lookup(data, CacheKey(c, id))
  {
    var pk, otm, mto := sch.PrimaryId(e), sch.OneToManyIds(e), sch.ManyToOneIds(e);
    var key, keys := CacheKey(c, id), KeysFor(CardinalityOneToMany, otm);
    var own := data[CacheKey(CardinalityNone, pk) := Obj(e)];
    OwnAt(data, e, pk, c, id);
    forall i | 0 <= i < |keys|
      ensures !IsObject(Lookup(own, keys[i]))
    {
      OwnAt(data, e, pk, CardinalityOneToMany, otm[i]);
    }
    PutBucketsAt(own, keys, e, key);
    CountKeys(CardinalityOneToMany, otm, c, id);
    PutObjectsAt(PutBuckets(own, keys, e).data, KeysFor(CardinalityManyToOne, mto), e, key);
    CountKeys(CardinalityManyToOne, mto, c, id);
  }

  lemma {:induction false} OwnAt(data: Data, e: Entity, pk: KeyId, c: Cardinality, id: KeyId)
    requires SafeId(pk) && SafeId(id)
    ensures Lookup(data[CacheKey(CardinalityNone, pk) := Obj(e)], CacheKey(c, id)) ==
            if c.CardinalityNone? && id == pk then Some(Obj(e)) else Lookup(data, CacheKey(c, id))
  {
    CacheKeyInjective(CardinalityNone, pk, c, id);
  }

  lemma {:induction false} RefinesBuckets(sch: Schema, data: Data, log: seq<Event>)
    requires SafeLog(sch, log) && Refines(sch, data, log)
    ensures forall k | SafeId(k) :: !IsObject(Lookup(data, CacheKey(CardinalityOneToMany, k)))
  {
  }

  lemma {:induction false} ExpectedAfterAdd(sch: Schema, log: seq<Event>, e: Entity, c: Cardinality, id: KeyId)
    requires SafeLog(sch, log) && sch.SafeEntity(e)
    ensures SafeLog(sch, log + [Added(e)])
    ensures Expected(sch, log + [Added(e)], c, id) ==
            match c
            case CardinalityNone => if id == sch.PrimaryId(e) then Some(Obj(e)) else Expected(sch, log, c, id)
            case CardinalityOneToMany => Enlarged(Expected(sch, log, c, id), e, Count(sch.OneToManyIds(e), id))
            case CardinalityManyToOne => if id in sch.ManyToOneIds(e) then Some(Obj(e)) else Expected(sch, log, c, id)
  {
    var log' := log + [Added(e)];
    assert log'[..|log|] == log;
    SinceIsSafe(sch, log, id);
    var es := Since(sch, log, id);
    assert Since(sch, log', id) == es + [e];
    assert (es + [e])[..|es|] == es;
    var n := Count(sch.OneToManyIds(e), id);
    assert All(sch, es + [e], id) == All(sch, es, id) + Repeat(e, n);
    assert Found(sch, es + [e], c, id) == Expected(sch, log', c, id);
    if c.CardinalityOneToMany? {
      assert All(sch, es, id) + Repeat(e, 0) == All(sch, es, id);
      assert [] + Repeat(e, n) == Repeat(e, n);
    }
  }

  /** Adding keeps the map in step with the log, and the type assertion never fails. */
  lemma {:induction false} AddRefines(sch: Schema, data: Data, log: seq<Event>, e: Entity)
    requires SafeLog(sch, log) && Refines(sch, data, log) && sch.SafeEntity(e)
    ensures SafeLog(sch, log + [Added(e)])
    ensures Add(sch, data, e).ok && Refines(sch, Add(sch, data, e).data, log + [Added(e)])
  {
    hide CacheKey, Add, Expected, Enlarged, Schema.PrimaryId, Schema.OneToManyIds, Schema.ManyToOneIds;
    RefinesBuckets(sch, data, log);
    assert SafeId(sch.PrimaryId(e));
    AddAt(sch, data, e, CardinalityNone, sch.PrimaryId(e));
    forall c, id | SafeId(id)
      ensures Lookup(Add(sch, data, e).data, CacheKey(c, id)) == Expected(sch, log + [Added(e)], c, id)
    {
      AddAt(sch, data, e, c, id);
      ExpectedAfterAdd(sch, log, e, c, id);
    }
  }

  // ----- removing

  lemma {:induction false} RemoveAt(sch: Schema, data: Data, e: Entity, c: Cardinality, id: KeyId)
    requires sch.SafeEntity(e) && SafeId(id)
    ensures Lookup(Remove(sch, data, e), CacheKey(c, id)) ==
            if sch.Touches(e, id) then None else Lookup(data, CacheKey(c, id))
  {
    var ids := sch.ReferenceIds(e) + [sch.PrimaryId(e)];
    if sch.Touches(e, id) {
      assert id in ids;
      var i :| 0 <= i < |ids| && ids[i] == id;
      assert CacheKey(c, ids[i]) in KeySet(ids);
    } else if CacheKey(c, id) in KeySet(ids) {
      var d: Cardinality, i :| 0 <= i < |ids| && CacheKey(c, id) == CacheKey(d, ids[i]);
      CacheKeyInjective(c, id, d, ids[i]);
    }
  }

  lemma {:induction false} RemoveRefines(sch: Schema, data: Data, log: seq<Event>, e: Entity)
    requires SafeLog(sch, log) && Refines(sch, data, log) && sch.SafeEntity(e)
    ensures SafeLog(sch, log + [Removed(e)])
    ensures Refines(sch, Remove(sch, data, e), log + [Removed(e)])
  {
    var log' := log + [Removed(e)];
    assert log'[..|log|] == log;
    forall c, id | SafeId(id)
      ensures Lookup(Remove(sch, data, e), CacheKey(c, id)) == Expected(sch, log', c, id)
    {
      RemoveAt(sch, data, e, c, id);
    }
  }

  /** After a removal every lookup by a key of the object misses, whatever the cardinality; other keys are untouched. */
  lemma {:induction false} RemoveLeavesNoTrace(sch: Schema, data: Data, e: Entity, c: Cardinality, id: KeyId)
    requires sch.Covers() && sch.SafeEntity(e) && SafeId(id)
    ensures id == sch.PrimaryId(e) || id in sch.ReferenceIds(e) || id in sch.OneToManyIds(e)
            || id in sch.ManyToOneIds(e)
            ==> Lookup(Remove(sch, data, e), CacheKey(c, id)) == None
    ensures id != sch.PrimaryId(e) && id !in sch.ReferenceIds(e)
            ==> Lookup(Remove(sch, data, e), CacheKey(c, id)) == Lookup(data, CacheKey(c, id))
  {
    RemoveAt(sch, data, e, c, id);
    CoveredId(sch, e, id);
  }

  lemma {:induction false} CoveredId(sch: Schema, e: Entity, id: KeyId)
    requires sch.Covers() && sch.Registered(e)
    ensures id in sch.OneToManyIds(e) || id in sch.ManyToOneIds(e) ==> id in sch.ReferenceIds(e)
  {
    var keys := sch.tables[e.table];
    if id in sch.OneToManyIds(e) || id in sch.ManyToOneIds(e) {
      var cols;
      if id in sch.OneToManyIds(e) {
        var i :| 0 <= i < |keys.oneToMany| && sch.OneToManyIds(e)[i] == id;
        cols := keys.oneToMany[i];
      } else {
        var i :| 0 <= i < |keys.manyToOne| && sch.ManyToOneIds(e)[i] == id;
        cols := keys.manyToOne[i];
      }
      assert cols in keys.oneToMany || cols in keys.manyToOne;
      assert cols in keys.refs;
      var j :| 0 <= j < |keys.refs| && keys.refs[j] == cols;
      assert sch.ReferenceIds(e)[j] == id;
    }
  }

  // ----- found and gone, by the columns of the meta schema

  lemma {:induction false} IdsHave(sch: Schema, e: Entity, keys: seq<seq<string>>, k: seq<string>)
    requires k in keys
    ensures sch.Id(e, k) in sch.Ids(e, keys) && Count(sch.Ids(e, keys), sch.Id(e, k)) > 0
  {
    var i :| 0 <= i < |keys| && keys[i] == k;
    assert sch.Ids(e, keys)[i] == sch.Id(e, k);
    CountSome(sch.Ids(e, keys), i);
  }

  lemma {:induction false} CountSome<T>(s: seq<T>, k: nat)
    requires k < |s|
    ensures Count(s, s[k]) > 0
  {
    if k < |s| - 1 {
      CountSome(s[..|s| - 1], k);
    }
  }

  lemma {:induction false} SafeAmong(ids: seq<KeyId>, id: KeyId)
    requires SafeIds(ids) && id in ids
    ensures SafeId(id)
  {
  }

  /** The key of an entity, spelled out by its columns. */
  lemma {:induction false} IdSpelled(sch: Schema, e: Entity, cols: seq<string>)
    ensures sch.Id(e, cols) ==
            KeyId(e.table, map c | c in cols :: sch.render(if c in e.row then e.row[c] else Null))
  {
  }

  lemma {:induction false} OwnKeysAreSafe(sch: Schema, e: Entity, cols: seq<string>)
    requires sch.SafeEntity(e)
    ensures var t, id := sch.tables[e.table], sch.Id(e, cols);
            && (cols == t.primary ==> SafeId(id) && id == sch.PrimaryId(e))
            && (cols in t.manyToOne ==> SafeId(id) && id in sch.ManyToOneIds(e))
            && (cols in t.oneToMany ==> SafeId(id) && Count(sch.OneToManyIds(e), id) > 0)
  {
    var t, id := sch.tables[e.table], sch.Id(e, cols);
    hide Schema.Id, SafeId;
    if cols in t.manyToOne {
      IdsHave(sch, e, t.manyToOne, cols);
      SafeAmong(sch.ManyToOneIds(e), id);
    }
    if cols in t.oneToMany {
      IdsHave(sch, e, t.oneToMany, cols);
      SafeAmong(sch.OneToManyIds(e), id);
    }
  }

  /**
   An object that was added is found: by its primary key, at the end of the bucket of each of its one-to-many keys, and
   alone under each of its many-to-one keys.
   */
  lemma {:induction false} AddedIsFound(sch: Schema, data: Data, e: Entity, cols: seq<string>)
    requires sch.SafeEntity(e)
    requires forall k | SafeId(k) :: !IsObject(Lookup(data, CacheKey(CardinalityOneToMany, k)))
    ensures var t, data' := sch.tables[e.table], Add(sch, data, e).data;
            var id := KeyId(e.table, map c | c in cols :: sch.render(if c in e.row then e.row[c] else Null));
            && (cols == t.primary ==> Lookup(data', CacheKey(CardinalityNone, id)) == Some(Obj(e)))
            && (cols in t.manyToOne ==> Lookup(data', CacheKey(CardinalityManyToOne, id)) == Some(Obj(e)))
            && (cols in t.oneToMany ==>
                  match Lookup(data', CacheKey(CardinalityOneToMany, id))
                  case Some(Bucket(es)) => es != [] && es[|es| - 1] == e
                  case _ => false)
  {
    IdSpelled(sch, e, cols);
    OwnKeysAreSafe(sch, e, cols);
    var id := sch.Id(e, cols);
    if SafeId(id) {
      AddAt(sch, data, e, CardinalityNone, id);
      AddAt(sch, data, e, CardinalityManyToOne, id);
      AddAt(sch, data, e, CardinalityOneToMany, id);
    }
    hide CacheKey, Add, Schema.Id, Schema.Ids, Schema.SafeEntity, SafeId, Count;
  }

  /** An object that was removed is gone: under its primary key and its reference keys, and whatever the cardinality. */
  lemma {:induction false} RemovedIsGone(sch: Schema, data: Data, e: Entity, cols: seq<string>, c: Cardinality)
    requires sch.SafeEntity(e) && (cols == sch.tables[e.table].primary || cols in sch.tables[e.table].refs)
    ensures var id := KeyId(e.table, map c | c in cols :: sch.render(if c in e.row then e.row[c] else Null));
            Lookup(Remove(sch, data, e), CacheKey(c, id)) == None
  {
    IdSpelled(sch, e, cols);
    var t, id := sch.tables[e.table], sch.Id(e, cols);
    hide CacheKey, Remove, Schema.Id, SafeId;
    if cols in t.refs {
      IdsHave(sch, e, t.refs, cols);
      SafeAmong(sch.ReferenceIds(e), id);
    }
    RemoveAt(sch, data, e, c, id);
  }

  // ----- adding and removing again

  lemma {:induction false} PutBucketsElsewhere(data: Data, keys: seq<string>, e: Entity, all: set<string>)
    requires forall i | 0 <= i < |keys| :: keys[i] in all
    ensures PutBuckets(data, keys, e).data - all == data - all
  {
    if keys != [] {
      PutBucketsElsewhere(data, keys[..|keys| - 1], e, all);
    }
  }

  lemma {:induction false} PutObjectsElsewhere(data: Data, keys: seq<string>, e: Entity, all: set<string>)
    requires forall i | 0 <= i < |keys| :: keys[i] in all
    ensures PutObjects(data, keys, e) - all == data - all
  {
    if keys != [] {
      PutObjectsElsewhere(data, keys[..|keys| - 1], e, all);
    }
  }

  /** Adding an object to a cache without entries at its keys, and removing it again, restores the cache exactly. */
  lemma {:induction false} AddThenRemove(sch: Schema, data: Data, e: Entity)
    requires sch.Covers() && sch.SafeEntity(e)
    requires data.Keys !! KeySet(sch.ReferenceIds(e) + [sch.PrimaryId(e)])
    ensures Remove(sch, Add(sch, data, e).data, e) == data
  {
    var ids := sch.ReferenceIds(e) + [sch.PrimaryId(e)];
    var all := KeySet(ids);
    var own := data[CacheKey(CardinalityNone, sch.PrimaryId(e)) := Obj(e)];
    var otm := KeysFor(CardinalityOneToMany, sch.OneToManyIds(e));
    var mto := KeysFor(CardinalityManyToOne, sch.ManyToOneIds(e));
    CoveredKeys(sch, e);
    assert CacheKey(CardinalityNone, ids[|ids| - 1]) in all;
    assert own - all == data;
    PutBucketsElsewhere(own, otm, e, all);
    PutObjectsElsewhere(PutBuckets(own, otm, e).data, mto, e, all);
  }

  lemma {:induction false} CoveredKeys(sch: Schema, e: Entity)
    requires sch.Covers() && sch.Registered(e)
    ensures var all := KeySet(sch.ReferenceIds(e) + [sch.PrimaryId(e)]);
            var otm, mto := sch.OneToManyIds(e), sch.ManyToOneIds(e);
            && (forall i | 0 <= i < |otm| :: KeysFor(CardinalityOneToMany, otm)[i] in all)
            && (forall i | 0 <= i < |mto| :: KeysFor(CardinalityManyToOne, mto)[i] in all)
  {
    var ids := sch.ReferenceIds(e) + [sch.PrimaryId(e)];
    forall c: Cardinality, id | id in sch.ReferenceIds(e)
      ensures CacheKey(c, id) in KeySet(ids)
    {
      assert id in ids;
      var j :| 0 <= j < |ids| && ids[j] == id;
    }
    forall i | 0 <= i < |sch.OneToManyIds(e)|
      ensures sch.OneToManyIds(e)[i] in sch.ReferenceIds(e)
    {
      CoveredId(sch, e, sch.OneToManyIds(e)[i]);
    }
    forall i | 0 <= i < |sch.ManyToOneIds(e)|
      ensures sch.ManyToOneIds(e)[i] in sch.ReferenceIds(e)
    {
      CoveredId(sch, e, sch.ManyToOneIds(e)[i]);
    }
  }

  // ----- the cache

  class ScopeCache {
    const sch: Schema
    var data: Data
    ghost var log: seq<Event>

    /** As long as no key contains a separator, the map answers as the log does. */
    ghost predicate Valid()
      reads this
    {
      SafeLog(sch, log) ==> Refines(sch, data, log)
    }

    constructor (sch: Schema)
      ensures Valid() && log == [] && data == map[] && this.sch == sch
    {
      this.sch, data, log := sch, map[], [];
    }

    method GetObject(c: Cardinality, rowKey: RowKey) returns (r: Option<Entry>)
      requires Valid()
      ensures r == Lookup(data, CacheKey(c, IdOf(sch.render, rowKey)))
      ensures SafeLog(sch, log) && SafeId(IdOf(sch.render, rowKey)) ==>
              r == Expected(sch, log, c, IdOf(sch.render, rowKey))
    {
      var key := KeyStringFromRowKey(sch.render, rowKey);
      r := Lookup(data, ToCacheKey(c, key));
    }

    method HasObject(c: Cardinality, rowKey: RowKey) returns (ok: bool)
      requires Valid()
      ensures ok == (CacheKey(c, IdOf(sch.render, rowKey)) in data)
      ensures SafeLog(sch, log) && SafeId(IdOf(sch.render, rowKey)) ==>
                ok == Expected(sch, log, c, IdOf(sch.render, rowKey)).Some?
    {
      var r := GetObject(c, rowKey);
      ok := r.Some?;
    }

    method AddOneToMany(v: Entity) returns (ok: bool)
      requires sch.Registered(v)
      modifies this`data
      ensures Stored(data, ok) == PutBuckets(old(data), KeysFor(CardinalityOneToMany, sch.OneToManyIds(v)), v)
    {
      var refes := sch.tables[v.table].oneToMany;
      ghost var keys := KeysFor(CardinalityOneToMany, sch.OneToManyIds(v));
      for i := 0 to |refes|
        invariant PutBuckets(old(data), keys[..i], v) == Stored(data, true)
      {
        assert keys[..i + 1][..i] == keys[..i];
        var key := KeyStringFromRowKey(sch.render, sch.KeyOf(v, refes[i]));
        var refeKey := ToCacheKey(CardinalityOneToMany, key);
        assert refeKey == keys[i];
        var slice := [];
        if refeKey in data {
          if data[refeKey].Obj? {
            Failed(old(data), keys, v, i + 1);
            return false;
          }
          slice := data[refeKey].es;
        }
        assert slice == [] ==> slice + [v] == [v];
        data := data[refeKey := Bucket(slice + [v])];
      }
      assert keys[..|keys|] == keys;
      return true;
    }

    method AddManyToOne(v: Entity)
      requires sch.Registered(v)
      modifies this`data
      ensures data == PutObjects(old(data), KeysFor(CardinalityManyToOne, sch.ManyToOneIds(v)), v)
    {
      var refes := sch.tables[v.table].manyToOne;
      ghost var keys := KeysFor(CardinalityManyToOne, sch.ManyToOneIds(v));
      for i := 0 to |refes|
        invariant data == PutObjects(old(data), keys[..i], v)
      {
        assert keys[..i + 1][..i] == keys[..i];
        var key := KeyStringFromRowKey(sch.render, sch.KeyOf(v, refes[i]));
        data := data[ToCacheKey(CardinalityManyToOne, key) := Obj(v)];
      }
      assert keys[..|keys|] == keys;
    }

    /** False: the type assertion on a bucket failed. */
    method AddObject(v: Entity) returns (ok: bool)
      requires Valid() && sch.Registered(v)
      modifies this
      ensures Valid() && log == old(log) + [Added(v)]
      ensures Stored(data, ok) == Add(sch, old(data), v)
      ensures SafeLog(sch, log) ==> ok
    {
      if SafeLog(sch, log + [Added(v)]) {
        SafePrefix(sch, log, Added(v));
        AddRefines(sch, data, log, v);
      }
      log := log + [Added(v)];
      var key := KeyStringFromRowKey(sch.render, sch.KeyOf(v, sch.tables[v.table].primary));
      data := data[ToCacheKey(CardinalityNone, key) := Obj(v)];
      ok := AddOneToMany(v);
      if !ok {
        return;
      }
      AddManyToOne(v);
    }

    method RemoveObject(v: Entity)
      requires Valid() && sch.Registered(v)
      modifies this
      ensures Valid() && log == old(log) + [Removed(v)]
      ensures data == Remove(sch, old(data), v)
    {
      if SafeLog(sch, log + [Removed(v)]) {
        SafePrefix(sch, log, Removed(v));
        RemoveRefines(sch, data, log, v);
      }
      log := log + [Removed(v)];
      var keys := [];
      var refs := sch.tables[v.table].refs;
      for i := 0 to |refs|
        invariant |keys| == i && forall j | 0 <= j < i :: keys[j] == sch.KeyOf(v, refs[j])
      {
        keys := keys + [sch.KeyOf(v, refs[i])];
      }
      keys := keys + [sch.KeyOf(v, sch.tables[v.table].primary)];
      DeleteKeys(keys, sch.ReferenceIds(v) + [sch.PrimaryId(v)]);
    }

    method DeleteKeys(keys: seq<RowKey>, ghost ids: seq<KeyId>)
      requires |ids| == |keys| && forall i | 0 <= i < |keys| :: ids[i] == IdOf(sch.render, keys[i])
      modifies this`data
      ensures data == old(data) - KeySet(ids)
    {
      for i := 0 to |keys|
        invariant data == old(data) - KeySet(ids[..i])
      {
        DeleteKey(keys[i]);
        KeySetGrows(ids, i);
        Minus(old(data), KeySet(ids[..i]), set c: Cardinality :: CacheKey(c, ids[i]));
      }
      assert ids[..|ids|] == ids;
    }

    /** Deletes what is filed under one row key, for every cardinality. */
    method DeleteKey(rowKey: RowKey)
      modifies this`data
      ensures data == old(data) - set c: Cardinality :: CacheKey(c, IdOf(sch.render, rowKey))
    {
      var key := KeyStringFromRowKey(sch.render, rowKey);
      ThreeKeys(IdOf(sch.render, rowKey));
      data := data - {ToCacheKey(CardinalityNone, key)};
      data := data - {ToCacheKey(CardinalityOneToMany, key)};
      data := data - {ToCacheKey(CardinalityManyToOne, key)};
    }
  }

  lemma {:induction false} Minus(data: Data, a: set<string>, b: set<string>)
    ensures (data - a) - b == data - (a + b)
  {
  }

  lemma {:induction false} SafePrefix(sch: Schema, log: seq<Event>, event: Event)
    requires SafeLog(sch, log + [event])
    ensures SafeLog(sch, log) && sch.SafeEntity(event.e)
  {
    var all := log + [event];
    assert all[|log|] == event && forall i | 0 <= i < |log| :: all[i] == log[i];
  }

  /** Once the type assertion has failed, nothing more is stored. */
  lemma {:induction false} Failed(data: Data, keys: seq<string>, e: Entity, n: nat)
    requires n <= |keys| && !PutBuckets(data, keys[..n], e).ok
    ensures PutBuckets(data, keys, e) == PutBuckets(data, keys[..n], e)
    decreases |keys|
  {
    if n == |keys| {
      assert keys[..n] == keys;
    } else {
      var m := |keys| - 1;
      assert keys[..m][..n] == keys[..n];
      Failed(data, keys[..m], e, n);
    }
  }

  lemma {:induction false} ThreeKeys(id: KeyId)
    ensures (set c: Cardinality :: CacheKey(c, id)) ==
            {CacheKey(CardinalityNone, id), CacheKey(CardinalityOneToMany, id), CacheKey(CardinalityManyToOne, id)}
  {
  }

  lemma {:induction false} KeySetGrows(ids: seq<KeyId>, i: nat)
    requires i < |ids|
    ensures KeySet(ids[..i + 1]) == KeySet(ids[..i]) + set c: Cardinality :: CacheKey(c, ids[i])
  {
    var more, fewer := ids[..i + 1], ids[..i];
    forall key | key in KeySet(more)
      ensures key in KeySet(fewer) || exists c: Cardinality :: key == CacheKey(c, ids[i])
    {
      var c: Cardinality, j :| 0 <= j < |more| && key == CacheKey(c, more[j]);
      if j < i {
        assert more[j] == fewer[j];
        assert CacheKey(c, fewer[j]) in KeySet(fewer);
      }
    }
    forall key | key in KeySet(fewer)
      ensures key in KeySet(more)
    {
      var c: Cardinality, j :| 0 <= j < |fewer| && key == CacheKey(c, fewer[j]);
      assert key == CacheKey(c, more[j]);
    }
    forall c: Cardinality
      ensures CacheKey(c, ids[i]) in KeySet(more)
    {
      assert more[i] == ids[i];
    }
  }
}
