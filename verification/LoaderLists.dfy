/**
 What a list of loaders keeps, whichever of them runs on whichever slice: the cache invariants of all of them, what
 they filed before, and the relation fields they filled before.
 */
module LoaderLists {
  import opened Wrappers
  import opened Strings
  import opened Sql
  import opened KeyStrings
  import opened ScopeCaches
  import opened Joins
  import opened CacheContents
  import opened Includes

  datatype Loader = Many(rel: Relation) | One(rel: Relation)

  /** Different loaders fill different fields, and a one-to-many loader shares its table with no other. */
  predicate Apart(l: Loader, k: Loader) {
    && (l.rel.owner != k.rel.owner || l.rel.field != k.rel.field)
    && (l.Many? || k.Many? ==> l.rel.table != k.rel.table)
  }

  ghost predicate LoaderReady(w: World, db: Db, l: Loader) {
    && Ready(w, db, l.rel) && AllStart(w, l.rel, RowsIn(db, l.rel.owner))
    && Leads(if l.Many? then w.sch.tables[l.rel.table].oneToMany else w.sch.tables[l.rel.table].manyToOne, l.rel)
  }

  /** A list of loaders over a regular database; a loader may stand in it more than once. */
  ghost predicate Setup(w: World, db: Db, loaders: seq<Loader>) {
    && (forall l | l in loaders :: LoaderReady(w, db, l))
    && (forall l, k | l in loaders && k in loaders && l != k :: Apart(l, k))
  }

  /** No other loader leads to its table. */
  ghost predicate Alone(loaders: seq<Loader>, l: Loader) {
    forall k | k in loaders && k != l :: k.rel.table != l.rel.table
  }

  // ----- the cache

  ghost predicate LoaderOk(w: World, db: Db, l: Loader, data: Data) {
    match l
    case Many(rel) => Complete(w, data, rel, RowsIn(db, rel.table))
    case One(rel) => Sound(w, data, rel, RowsIn(db, rel.table))
  }

  ghost predicate CacheOk(w: World, db: Db, loaders: seq<Loader>, data: Data) {
    BucketsOnly(data) && forall l | l in loaders :: LoaderOk(w, db, l, data)
  }

  ghost predicate LoaderStable(loaders: seq<Loader>, l: Loader, data: Data, data': Data) {
    match l
    case Many(rel) => Stable(CardinalityOneToMany, rel, data, data')
    case One(rel) => Alone(loaders, l) ==> Stable(CardinalityManyToOne, rel, data, data')
  }

  /** What is filed for a loader stays as it is, unless two many-to-one loaders share a table. */
  ghost predicate AllStable(loaders: seq<Loader>, data: Data, data': Data) {
    forall l | l in loaders :: LoaderStable(loaders, l, data, data')
  }

  lemma {:induction false} StableSame(loaders: seq<Loader>, data: Data)
    ensures AllStable(loaders, data, data)
  {
  }

  lemma {:induction false} StableTwice(loaders: seq<Loader>, a: Data, b: Data, c: Data)
    requires AllStable(loaders, a, b) && AllStable(loaders, b, c)
    ensures AllStable(loaders, a, c)
  {
    hide CacheKey, Files, Alone;
    forall l | l in loaders
      ensures LoaderStable(loaders, l, a, c)
    {
      assert LoaderStable(loaders, l, a, b) && LoaderStable(loaders, l, b, c);
    }
  }

  /** Loading objects of another table keeps what a loader relies on. */
  lemma {:induction false} OtherLoadKeeps(w: World, db: Db, loaders: seq<Loader>, k: Loader, data: Data,
                                          es: seq<Entity>)
    requires AllSafe(w.sch, es) && BucketsOnly(data) && LoaderOk(w, db, k, data)
    requires forall i | 0 <= i < |es| :: es[i].table != k.rel.table
    ensures LoaderOk(w, db, k, AddAll(w.sch, data, es)) && LoaderStable(loaders, k, data, AddAll(w.sch, data, es))
  {
    hide CacheKey, AddAll, Files, Matching, Times, Stutter, World.IdIn, Stands;
    var c := if k.Many? then CardinalityOneToMany else CardinalityManyToOne;
    OthersKeep(w, c, data, k.rel, es);
    var data' := AddAll(w.sch, data, es);
    forall id | Files(k.rel, id)
      ensures k.Many? ==> CompleteAt(w, data', k.rel, RowsIn(db, k.rel.table), id)
      ensures k.One? ==> SoundAt(w, data', k.rel, RowsIn(db, k.rel.table), id)
    {
      assert Lookup(data', CacheKey(c, id)) == Lookup(data, CacheKey(c, id));
      assert k.Many? ==> CompleteAt(w, data, k.rel, RowsIn(db, k.rel.table), id);
      assert k.One? ==> SoundAt(w, data, k.rel, RowsIn(db, k.rel.table), id);
    }
  }

  /** One loader's load keeps the cache fit for every loader. */
  lemma {:induction false} LoadKeepsAll(w: World, db: Db, loaders: seq<Loader>, l: Loader, data: Data, es: seq<Entity>)
    requires Setup(w, db, loaders) && l in loaders && CacheOk(w, db, loaders, data)
    requires AllSafe(w.sch, es) && FromTable(db, l.rel.table, es)
    requires LoaderOk(w, db, l, AddAll(w.sch, data, es)) && BucketsOnly(AddAll(w.sch, data, es))
    requires var c := if l.Many? then CardinalityOneToMany else CardinalityManyToOne;
             Stable(c, l.rel, data, AddAll(w.sch, data, es))
    ensures CacheOk(w, db, loaders, AddAll(w.sch, data, es)) && AllStable(loaders, data, AddAll(w.sch, data, es))
  {
    hide CacheKey, AddAll, Complete, Sound, Stable, BucketsOnly, LoaderReady, Schema.SafeEntity;
    forall k | k in loaders
      ensures LoaderOk(w, db, k, AddAll(w.sch, data, es)) && LoaderStable(loaders, k, data, AddAll(w.sch, data, es))
    {
      assert LoaderOk(w, db, k, data) && LoaderReady(w, db, k);
      if k != l {
        assert Apart(l, k);
        if k.rel.table != l.rel.table {
          OtherLoadKeeps(w, db, loaders, k, data, es);
        } else {
          TableIsRegistered(w, db, k);
          LoadKeepsSound(w, data, k.rel, RowsIn(db, k.rel.table), es);
        }
      }
    }
  }

  lemma {:induction false} TableIsRegistered(w: World, db: Db, l: Loader)
    requires LoaderReady(w, db, l)
    ensures w.Faithful() && l.rel.table in w.sch.tables && Ready(w, db, l.rel)
  {
  }

  lemma {:induction false} ReadyForLoad(w: World, db: Db, loaders: seq<Loader>, l: Loader, data: Data)
    requires Setup(w, db, loaders) && l in loaders && CacheOk(w, db, loaders, data)
    ensures if l.Many? then ManyReady(w, db, l.rel, data) else OneReady(w, db, l.rel, data)
  {
    hide CacheKey, Complete, Sound, BucketsOnly, Ready, AllStart;
    assert LoaderReady(w, db, l) && LoaderOk(w, db, l, data);
    TableIsRegistered(w, db, l);
  }

  // ----- the relation fields of a record

  /** The bucket `n` times over, for a loader that has run so often. */
  function Copied(es: seq<Entity>, n: nat): seq<Entity> {
    if n == 0 then [] else Copied(es, n - 1) + es
  }

  /** What a loader has made of a record when those of `done` have run on it. */
  ghost predicate FilledBy(w: World, db: Db, done: seq<Loader>, loaders: seq<Loader>, l: Loader, data: Data, row: Row,
                           links: Links) {
    match l
    case Many(rel) =>
      && links.Children(rel.field) == Copied(BucketOf(w, data, rel, row), Count(done, l))
      && (Count(done, l) > 0 ==> HoldsJoin(w, db, rel, data, row))
    case One(rel) =>
      if Count(done, l) == 0 then links.Parent(rel.field) == None
      else
        && (match links.Parent(rel.field)
            case Some(p) => RefersTo(db, rel, row, p)
            case None => NoReferent(db, rel, row))
        && (Alone(loaders, l) ==> links.Parent(rel.field) == ObjectOf(w, data, rel, row))
  }

  ghost predicate Filled(w: World, db: Db, done: seq<Loader>, loaders: seq<Loader>, data: Data, kind: string, row: Row,
                         links: Links) {
    forall l | l in loaders && l.rel.owner == kind :: FilledBy(w, db, done, loaders, l, data, row, links)
  }

  lemma {:induction false} BlankIsFilled(w: World, db: Db, loaders: seq<Loader>, data: Data, kind: string, row: Row)
    ensures Filled(w, db, [], loaders, data, kind, row, NO_LINKS)
  {
  }

  lemma {:induction false} RowStarts(w: World, db: Db, l: Loader, row: Row)
    requires LoaderReady(w, db, l) && row in RowsIn(db, l.rel.owner)
    ensures w.Starts(l.rel, row) && Files(l.rel, w.IdFor(l.rel, row))
  {
    var rows := RowsIn(db, l.rel.owner);
    var i :| 0 <= i < |rows| && rows[i] == row;
    assert w.Starts(l.rel, rows[i]);
    SafeRefs(w, l.rel, if l.Many? then w.sch.tables[l.rel.table].oneToMany else w.sch.tables[l.rel.table].manyToOne);
    KeyIsFiled(w, l.rel, row);
  }

  /** A bucket that is the row's side of the join is not changed by later loads, not even if it is missing. */
  lemma {:induction false} BucketStays(w: World, db: Db, loaders: seq<Loader>, rel: Relation, data: Data, data': Data,
                                       row: Row)
    requires LoaderReady(w, db, Many(rel)) && LoaderOk(w, db, Many(rel), data') && row in RowsIn(db, rel.owner)
    requires Stable(CardinalityOneToMany, rel, data, data') && HoldsJoin(w, db, rel, data, row)
    ensures BucketOf(w, data', rel, row) == BucketOf(w, data, rel, row) && HoldsJoin(w, db, rel, data', row)
  {
    RowStarts(w, db, Many(rel), row);
    var rows, id := RowsIn(db, rel.table), w.IdFor(rel, row);
    assert CompleteAt(w, data', rel, rows, id);
    MatchingIsJoin(w, rel, rows, row);
    hide CacheKey, Matching, Joined, Times, Stutter, LoaderReady, World.IdFor, Complete, Files, Distinct;
    var before, after := BucketOf(w, data, rel, row), BucketOf(w, data', rel, row);
    assert |RowsOf(before)| == |before| && |RowsOf(after)| == |after|;
  }

  lemma {:induction false} ObjectStays(w: World, db: Db, loaders: seq<Loader>, rel: Relation, data: Data, data': Data,
                                       row: Row)
    requires LoaderReady(w, db, One(rel)) && row in RowsIn(db, rel.owner)
    requires LoaderOk(w, db, One(rel), data) && LoaderOk(w, db, One(rel), data') && BucketsOnly(data)
             && BucketsOnly(data')
    requires Stable(CardinalityManyToOne, rel, data, data') && FindsReferent(w, db, rel, data, row)
    ensures ObjectOf(w, data', rel, row) == ObjectOf(w, data, rel, row)
  {
    RowStarts(w, db, One(rel), row);
    hide CacheKey, LoaderReady, World.IdFor, World.Starts, Sound, Files, BucketsOnly, Belongs;
    ReadyForOne(w, db, rel, data);
    ReadyForOne(w, db, rel, data');
    SoundRefers(w, db, rel, data, row);
    SoundRefers(w, db, rel, data', row);
  }

  lemma {:induction false} ReadyForOne(w: World, db: Db, rel: Relation, data: Data)
    requires LoaderReady(w, db, One(rel)) && LoaderOk(w, db, One(rel), data) && BucketsOnly(data)
    ensures OneReady(w, db, rel, data)
  {
  }

  /** Later loads leave what a loader has filled as it should be. */
  lemma {:induction false} FilledByStays(w: World, db: Db, done: seq<Loader>, loaders: seq<Loader>, l: Loader,
                                         data: Data, data': Data, row: Row, links: Links)
    requires LoaderReady(w, db, l) && row in RowsIn(db, l.rel.owner)
    requires LoaderOk(w, db, l, data) && LoaderOk(w, db, l, data') && BucketsOnly(data) && BucketsOnly(data')
    requires LoaderStable(loaders, l, data, data') && FilledBy(w, db, done, loaders, l, data, row, links)
    ensures FilledBy(w, db, done, loaders, l, data', row, links)
  {
    hide LoaderReady, LoaderOk, BucketsOnly, Stable, BucketOf, ObjectOf, HoldsJoin, RefersTo, NoReferent, Alone;
    match l
    case Many(rel) =>
      if Count(done, l) > 0 {
        BucketStays(w, db, loaders, rel, data, data', row);
      }
    case One(rel) =>
      if Count(done, l) > 0 && Alone(loaders, l) {
        ObjectStays(w, db, loaders, rel, data, data', row);
      }
  }

  lemma {:induction false} FilledStays(w: World, db: Db, done: seq<Loader>, loaders: seq<Loader>,
                                       data: Data, data': Data, kind: string, row: Row, links: Links)
    requires Setup(w, db, loaders) && row in RowsIn(db, kind)
    requires CacheOk(w, db, loaders, data) && CacheOk(w, db, loaders, data') && AllStable(loaders, data, data')
    requires Filled(w, db, done, loaders, data, kind, row, links)
    ensures Filled(w, db, done, loaders, data', kind, row, links)
  {
    hide LoaderReady, LoaderOk, BucketsOnly, LoaderStable, FilledBy, Apart;
    forall l | l in loaders && l.rel.owner == kind
      ensures FilledBy(w, db, done, loaders, l, data', row, links)
    {
      assert LoaderReady(w, db, l) && LoaderOk(w, db, l, data) && LoaderOk(w, db, l, data');
      assert LoaderStable(loaders, l, data, data') && FilledBy(w, db, done, loaders, l, data, row, links);
      FilledByStays(w, db, done, loaders, l, data, data', row, links);
    }
  }

  lemma {:induction false} CountOneMore(done: seq<Loader>, l: Loader, k: Loader)
    ensures Count(done + [l], k) == Count(done, k) + if k == l then 1 else 0
  {
    assert (done + [l])[..|done|] == done;
  }

  /** A loader that passes over records of another type changes nothing about them. */
  lemma {:induction false} FilledPassing(w: World, db: Db, done: seq<Loader>, loaders: seq<Loader>, l: Loader,
                                         data: Data, kind: string, row: Row, links: Links)
    requires Filled(w, db, done, loaders, data, kind, row, links) && l.rel.owner != kind
    ensures Filled(w, db, done + [l], loaders, data, kind, row, links)
  {
    hide BucketOf, ObjectOf, HoldsJoin, RefersTo, NoReferent, Alone, Copied, Count;
    forall k | k in loaders && k.rel.owner == kind
      ensures FilledBy(w, db, done + [l], loaders, k, data, row, links)
    {
      CountOneMore(done, l, k);
      assert FilledBy(w, db, done, loaders, k, data, row, links);
    }
  }

  /** A loader leaves alone what the others fill. */
  lemma {:induction false} OtherFieldsKept(w: World, db: Db, done: seq<Loader>, loaders: seq<Loader>,
                                           l: Loader, k: Loader, data: Data, row: Row, before: Links, after: Links)
    requires k != l && FilledBy(w, db, done, loaders, k, data, row, before)
    requires k.Many? ==> after.Children(k.rel.field) == before.Children(k.rel.field)
    requires k.One? ==> after.Parent(k.rel.field) == before.Parent(k.rel.field)
    ensures FilledBy(w, db, done + [l], loaders, k, data, row, after)
  {
    hide BucketOf, ObjectOf, HoldsJoin, RefersTo, NoReferent, Alone, Copied, Count;
    CountOneMore(done, l, k);
  }

  lemma {:induction false} FilledMany(w: World, db: Db, done: seq<Loader>, loaders: seq<Loader>, rel: Relation,
                                      data: Data, row: Row, before: Links, after: Links)
    requires Setup(w, db, loaders) && Many(rel) in loaders
    requires Filled(w, db, done, loaders, data, rel.owner, row, before)
    requires Appended(w, rel, data, row, before, after) && HoldsJoin(w, db, rel, data, row)
    ensures Filled(w, db, done + [Many(rel)], loaders, data, rel.owner, row, after)
  {
    var l := Many(rel);
    hide BucketOf, HoldsJoin, LoaderReady, Count;
    CountOneMore(done, l, l);
    assert FilledBy(w, db, done, loaders, l, data, row, before);
    assert FilledBy(w, db, done + [l], loaders, l, data, row, after);
    hide FilledBy, Copied;
    forall k | k in loaders && k.rel.owner == rel.owner && k != l
      ensures FilledBy(w, db, done + [l], loaders, k, data, row, after)
    {
      assert Apart(l, k);
      OtherFieldsKept(w, db, done, loaders, l, k, data, row, before, after);
    }
  }

  lemma {:induction false} FilledOne(w: World, db: Db, done: seq<Loader>, loaders: seq<Loader>, rel: Relation,
                                     data: Data, row: Row, before: Links, after: Links)
    requires Setup(w, db, loaders) && One(rel) in loaders
    requires Filled(w, db, done, loaders, data, rel.owner, row, before)
    requires Linked(w, rel, data, row, before, after) && FindsReferent(w, db, rel, data, row)
    ensures Filled(w, db, done + [One(rel)], loaders, data, rel.owner, row, after)
  {
    var l := One(rel);
    hide ObjectOf, LoaderReady, Count, Belongs, Alone;
    CountOneMore(done, l, l);
    assert FilledBy(w, db, done, loaders, l, data, row, before);
    assert FilledBy(w, db, done + [l], loaders, l, data, row, after);
    hide FilledBy;
    forall k | k in loaders && k.rel.owner == rel.owner && k != l
      ensures FilledBy(w, db, done + [l], loaders, k, data, row, after)
    {
      assert Apart(l, k);
      OtherFieldsKept(w, db, done, loaders, l, k, data, row, before, after);
    }
  }

  // ----- all records of a slice

  ghost predicate AllFilled(w: World, db: Db, done: seq<Loader>, loaders: seq<Loader>, data: Data,
                            kind: string, rows: seq<Row>, links: seq<Links>) {
    |rows| == |links| && forall i | 0 <= i < |rows| :: Filled(w, db, done, loaders, data, kind, rows[i], links[i])
  }

  ghost predicate RowsFrom(db: Db, table: string, rows: seq<Row>) {
    forall i | 0 <= i < |rows| :: rows[i] in RowsIn(db, table)
  }

  lemma {:induction false} AllFilledStays(w: World, db: Db, done: seq<Loader>, loaders: seq<Loader>,
                                          data: Data, data': Data, kind: string, rows: seq<Row>, links: seq<Links>)
    requires Setup(w, db, loaders) && RowsFrom(db, kind, rows)
    requires CacheOk(w, db, loaders, data) && CacheOk(w, db, loaders, data') && AllStable(loaders, data, data')
    requires AllFilled(w, db, done, loaders, data, kind, rows, links)
    ensures AllFilled(w, db, done, loaders, data', kind, rows, links)
  {
    hide Setup, CacheOk, AllStable, Filled;
    forall i | 0 <= i < |rows|
      ensures Filled(w, db, done, loaders, data', kind, rows[i], links[i])
    {
      FilledStays(w, db, done, loaders, data, data', kind, rows[i], links[i]);
    }
  }

  lemma {:induction false} AllFilledPassing(w: World, db: Db, done: seq<Loader>, loaders: seq<Loader>, l: Loader,
                                            data: Data, kind: string, rows: seq<Row>, links: seq<Links>)
    requires AllFilled(w, db, done, loaders, data, kind, rows, links) && l.rel.owner != kind
    ensures AllFilled(w, db, done + [l], loaders, data, kind, rows, links)
  {
    hide Filled;
    forall i | 0 <= i < |rows|
      ensures Filled(w, db, done + [l], loaders, data, kind, rows[i], links[i])
    {
      FilledPassing(w, db, done, loaders, l, data, kind, rows[i], links[i]);
    }
  }

  lemma {:induction false} AllFilledMany(w: World, db: Db, done: seq<Loader>, loaders: seq<Loader>, rel: Relation,
                                         data: Data, rows: seq<Row>, before: seq<Links>, after: seq<Links>)
    requires Setup(w, db, loaders) && Many(rel) in loaders
    requires AllFilled(w, db, done, loaders, data, rel.owner, rows, before)
    requires AllAppended(w, rel, data, rows, before, after) && AllHoldJoin(w, db, rel, data, rows)
    ensures AllFilled(w, db, done + [Many(rel)], loaders, data, rel.owner, rows, after)
  {
    hide Setup, Filled, Appended, HoldsJoin;
    forall i | 0 <= i < |rows|
      ensures Filled(w, db, done + [Many(rel)], loaders, data, rel.owner, rows[i], after[i])
    {
      FilledMany(w, db, done, loaders, rel, data, rows[i], before[i], after[i]);
    }
  }

  lemma {:induction false} AllFilledOne(w: World, db: Db, done: seq<Loader>, loaders: seq<Loader>, rel: Relation,
                                        data: Data, rows: seq<Row>, before: seq<Links>, after: seq<Links>)
    requires Setup(w, db, loaders) && One(rel) in loaders
    requires AllFilled(w, db, done, loaders, data, rel.owner, rows, before)
    requires AllLinked(w, rel, data, rows, before, after) && AllFindReferent(w, db, rel, data, rows)
    ensures AllFilled(w, db, done + [One(rel)], loaders, data, rel.owner, rows, after)
  {
    hide Setup, Filled, Linked, FindsReferent;
    forall i | 0 <= i < |rows|
      ensures Filled(w, db, done + [One(rel)], loaders, data, rel.owner, rows[i], after[i])
    {
      FilledOne(w, db, done, loaders, rel, data, rows[i], before[i], after[i]);
    }
  }

  // ----- where the links lead

  ghost predicate LinksKnown(links: Links, es: set<Entity>) {
    && (forall f | f in links.many :: forall i | 0 <= i < |links.many[f]| :: links.many[f][i] in es)
    && (forall f | f in links.one :: links.one[f] in es)
  }

  ghost predicate AllLinksKnown(links: seq<Links>, es: set<Entity>) {
    forall i | 0 <= i < |links| :: LinksKnown(links[i], es)
  }

  lemma {:induction false} LinksKnownMore(links: seq<Links>, es: set<Entity>, more: set<Entity>)
    requires AllLinksKnown(links, es) && es <= more
    ensures AllLinksKnown(links, more)
  {
  }

  ghost predicate SeqKnown(s: seq<Entity>, es: set<Entity>) {
    forall i | 0 <= i < |s| :: s[i] in es
  }

  lemma {:induction false} LinksKnownByField(links: Links, es: set<Entity>)
    ensures LinksKnown(links, es) <==>
            && (forall f :: SeqKnown(links.Children(f), es))
            && (forall f | links.Parent(f).Some? :: links.Parent(f).value in es)
  {
    if && (forall f :: SeqKnown(links.Children(f), es))
      && (forall f | links.Parent(f).Some? :: links.Parent(f).value in es) {
      forall f | f in links.many
        ensures forall i | 0 <= i < |links.many[f]| :: links.many[f][i] in es
      {
        assert SeqKnown(links.Children(f), es);
      }
      forall f | f in links.one
        ensures links.one[f] in es
      {
        assert links.Parent(f) == Some(links.one[f]);
      }
    }
  }

  lemma {:induction false} AppendedKnown(w: World, rel: Relation, data: Data, row: Row, before: Links, after: Links,
                                         es: set<Entity>)
    requires Appended(w, rel, data, row, before, after) && LinksKnown(before, es) && HoldsOnly(data, es)
    ensures LinksKnown(after, es)
  {
    hide CacheKey, LinksKnown;
    LinksKnownByField(before, es);
    LinksKnownByField(after, es);
    assert SeqKnown(BucketOf(w, data, rel, row), es);
    forall f
      ensures SeqKnown(after.Children(f), es)
    {
      assert SeqKnown(before.Children(f), es);
    }
    forall f | after.Parent(f).Some?
      ensures after.Parent(f).value in es
    {
      assert before.Parent(f) == after.Parent(f);
    }
  }

  lemma {:induction false} LinkedKnown(w: World, rel: Relation, data: Data, row: Row, before: Links, after: Links,
                                       es: set<Entity>)
    requires Linked(w, rel, data, row, before, after) && LinksKnown(before, es) && HoldsOnly(data, es)
    ensures LinksKnown(after, es)
  {
    hide CacheKey, LinksKnown;
    LinksKnownByField(before, es);
    LinksKnownByField(after, es);
    forall f
      ensures SeqKnown(after.Children(f), es)
    {
      assert SeqKnown(before.Children(f), es) && before.Children(f) == after.Children(f);
    }
    forall f | after.Parent(f).Some?
      ensures after.Parent(f).value in es
    {
      assert f != rel.field ==> before.Parent(f) == after.Parent(f);
      assert before.Parent(f).Some? ==> before.Parent(f).value in es;
    }
  }

  lemma {:induction false} AllAppendedKnown(w: World, rel: Relation, data: Data, rows: seq<Row>,
                                            before: seq<Links>, after: seq<Links>, es: set<Entity>)
    requires AllAppended(w, rel, data, rows, before, after) && AllLinksKnown(before, es) && HoldsOnly(data, es)
    ensures AllLinksKnown(after, es)
  {
    hide Appended, LinksKnown, HoldsOnly;
    forall i | 0 <= i < |after|
      ensures LinksKnown(after[i], es)
    {
      AppendedKnown(w, rel, data, rows[i], before[i], after[i], es);
    }
  }

  lemma {:induction false} AllLinkedKnown(w: World, rel: Relation, data: Data, rows: seq<Row>,
                                          before: seq<Links>, after: seq<Links>, es: set<Entity>)
    requires AllLinked(w, rel, data, rows, before, after) && AllLinksKnown(before, es) && HoldsOnly(data, es)
    ensures AllLinksKnown(after, es)
  {
    hide Linked, LinksKnown, HoldsOnly;
    forall i | 0 <= i < |after|
      ensures LinksKnown(after[i], es)
    {
      LinkedKnown(w, rel, data, rows[i], before[i], after[i], es);
    }
  }

  // ----- one loader on one slice

  function Elements(es: seq<Entity>): set<Entity> {
    set i | 0 <= i < |es| :: es[i]
  }

  lemma {:induction false} RowsStart(w: World, db: Db, loaders: seq<Loader>, l: Loader, rows: seq<Row>)
    requires Setup(w, db, loaders) && l in loaders && RowsFrom(db, l.rel.owner, rows)
    ensures AllStart(w, l.rel, rows)
  {
    assert LoaderReady(w, db, l);
    hide LoaderReady, World.Starts;
    forall i | 0 <= i < |rows|
      ensures w.Starts(l.rel, rows[i])
    {
      RowStarts(w, db, l, rows[i]);
    }
  }

  /** What a run of a loader on a slice keeps, and what it adds. */
  ghost predicate Ran(w: World, db: Db, done: seq<Loader>, loaders: seq<Loader>, l: Loader, data: Data, data': Data,
                      kind: string, rows: seq<Row>, after: seq<Links>, es: set<Entity>,
                      later: seq<Records>, next: seq<Records>, loaded: seq<Entity>) {
    && CacheOk(w, db, loaders, data') && AllStable(loaders, data, data')
    && AllFilled(w, db, done + [l], loaders, data', kind, rows, after)
    && HoldsOnly(data', es + Elements(loaded)) && AllLinksKnown(after, es + Elements(loaded))
    && FromTable(db, l.rel.table, loaded)
    && ((next == later && loaded == []) || next == later + [Records(l.rel.table, loaded)])
  }

  /** The state before a run. */
  ghost predicate Runs(w: World, db: Db, done: seq<Loader>, loaders: seq<Loader>, l: Loader, data: Data,
                       kind: string, rows: seq<Row>, before: seq<Links>, es: set<Entity>) {
    && Setup(w, db, loaders) && l in loaders && CacheOk(w, db, loaders, data) && RowsFrom(db, kind, rows)
    && AllFilled(w, db, done, loaders, data, kind, rows, before)
    && HoldsOnly(data, es) && AllLinksKnown(before, es)
  }

  lemma {:induction false} LoadedAmong(w: World, db: Db, rel: Relation, data: Data, data': Data,
                                       later: seq<Records>, next: seq<Records>, loaded: seq<Entity>, es: set<Entity>)
    requires Loaded(w, db, rel, data, data', later, next, loaded) && HoldsOnly(data, es)
    ensures HoldsOnly(data', es + Elements(loaded))
  {
    hide HoldsOnly, Schema.SafeEntity;
    var more := es + Elements(loaded);
    AmongMore(data, es, more);
    AddAllAmong(w.sch, data, loaded, more);
  }

  lemma {:induction false} ManyRan(w: World, db: Db, done: seq<Loader>, loaders: seq<Loader>, rel: Relation,
                                   data: Data, data': Data, rows: seq<Row>, before: seq<Links>, after: seq<Links>,
                                   es: set<Entity>, later: seq<Records>, next: seq<Records>, loaded: seq<Entity>)
    requires Runs(w, db, done, loaders, Many(rel), data, rel.owner, rows, before, es)
    requires Loaded(w, db, rel, data, data', later, next, loaded) && ManyReady(w, db, rel, data')
    requires Stable(CardinalityOneToMany, rel, data, data')
    requires AllAppended(w, rel, data', rows, before, after) && AllHoldJoin(w, db, rel, data', rows)
    ensures Ran(w, db, done, loaders, Many(rel), data, data', rel.owner, rows, after, es, later, next, loaded)
  {
    hide Setup, CacheOk, AllFilled, HoldsOnly, AllLinksKnown, Stable, AllAppended, AllHoldJoin, AllStable,
         BucketsOnly, Complete, Ready, Schema.SafeEntity, Leads, AddAll;
    LoadKeepsAll(w, db, loaders, Many(rel), data, loaded);
    AllFilledStays(w, db, done, loaders, data, data', rel.owner, rows, before);
    AllFilledMany(w, db, done, loaders, rel, data', rows, before, after);
    LoadedAmong(w, db, rel, data, data', later, next, loaded, es);
    LinksKnownMore(before, es, es + Elements(loaded));
    AllAppendedKnown(w, rel, data', rows, before, after, es + Elements(loaded));
  }

  lemma {:induction false} OneRan(w: World, db: Db, done: seq<Loader>, loaders: seq<Loader>, rel: Relation,
                                  data: Data, data': Data, rows: seq<Row>, before: seq<Links>, after: seq<Links>,
                                  es: set<Entity>, later: seq<Records>, next: seq<Records>, loaded: seq<Entity>)
    requires Runs(w, db, done, loaders, One(rel), data, rel.owner, rows, before, es)
    requires Loaded(w, db, rel, data, data', later, next, loaded) && OneReady(w, db, rel, data')
    requires Stable(CardinalityManyToOne, rel, data, data')
    requires AllLinked(w, rel, data', rows, before, after) && AllFindReferent(w, db, rel, data', rows)
    ensures Ran(w, db, done, loaders, One(rel), data, data', rel.owner, rows, after, es, later, next, loaded)
  {
    hide Setup, CacheOk, AllFilled, HoldsOnly, AllLinksKnown, Stable, AllLinked, AllFindReferent, AllStable,
         BucketsOnly, Sound, Ready, Schema.SafeEntity, Leads, AddAll;
    LoadKeepsAll(w, db, loaders, One(rel), data, loaded);
    AllFilledStays(w, db, done, loaders, data, data', rel.owner, rows, before);
    AllFilledOne(w, db, done, loaders, rel, data', rows, before, after);
    LoadedAmong(w, db, rel, data, data', later, next, loaded, es);
    LinksKnownMore(before, es, es + Elements(loaded));
    AllLinkedKnown(w, rel, data', rows, before, after, es + Elements(loaded));
  }

  lemma {:induction false} PassedOver(w: World, db: Db, done: seq<Loader>, loaders: seq<Loader>, l: Loader, data: Data,
                                      kind: string, rows: seq<Row>, before: seq<Links>, es: set<Entity>,
                                      later: seq<Records>)
    requires Runs(w, db, done, loaders, l, data, kind, rows, before, es) && l.rel.owner != kind
    ensures Ran(w, db, done, loaders, l, data, data, kind, rows, before, es, later, later, [])
  {
    hide Setup, CacheOk, AllFilled, HoldsOnly, AllLinksKnown, AllStable;
    AllFilledPassing(w, db, done, loaders, l, data, kind, rows, before);
    StableSame(loaders, data);
    assert es + Elements([]) == es;
  }
}
