/**
 Eager queries: a root query, a scope cache, and rounds of loaders over what the previous round has loaded (generated
 `query`, IncludeContext in db_ctx.go). The records that come out are compared with the joins of the tables.
 */
module EagerQueries {
  import opened Wrappers
  import opened Strings
  import opened Dialects
  import opened Sql
  import opened KeyStrings
  import opened ScopeCaches
  import opened Joins
  import opened CacheContents
  import opened Includes
  import opened LoaderLists

  // ----- slices of records on the heap

  ghost function Items(rs: seq<Records>): set<Entity> {
    set i, j | 0 <= i < |rs| && 0 <= j < |rs[i].items| :: rs[i].items[j]
  }

  predicate Disjoint(a: seq<Entity>, b: seq<Entity>) {
    forall i | 0 <= i < |a| :: a[i] !in b
  }

  /** No record is in two slices. */
  predicate Separate(rs: seq<Records>) {
    forall i, j | 0 <= i < j < |rs| :: Disjoint(rs[i].items, rs[j].items)
  }

  /** Slices of scanned records whose relation fields are still nil. */
  ghost predicate Waiting(db: Db, rs: seq<Records>)
    reads Items(rs)
  {
    && Separate(rs)
    && forall i | 0 <= i < |rs| :: Blank(rs[i].kind, rs[i].items) && FromTable(db, rs[i].kind, rs[i].items)
  }

  lemma {:induction false} NothingWaits(db: Db)
    ensures Waiting(db, []) && Items([]) == {}
  {
  }

  lemma {:induction false} OneMoreWaits(db: Db, rs: seq<Records>, r: Records)
    requires Waiting(db, rs) && Blank(r.kind, r.items) && FromTable(db, r.kind, r.items)
    requires forall i | 0 <= i < |r.items| :: r.items[i] !in Items(rs)
    ensures Waiting(db, rs + [r]) && Items(rs + [r]) == Items(rs) + Elements(r.items)
  {
    var all := rs + [r];
    ItemsOfOneMore(rs, r);
    forall i | 0 <= i < |rs|
      ensures Disjoint(rs[i].items, r.items)
    {
      forall j | 0 <= j < |rs[i].items|
        ensures rs[i].items[j] !in r.items
      {
        assert rs[i].items[j] in Items(rs);
      }
    }
    hide Blank, FromTable, Disjoint;
    assert forall i | 0 <= i < |rs| :: all[i] == rs[i];
  }

  lemma {:induction false} ItemsOfOneMore(rs: seq<Records>, r: Records)
    ensures Items(rs + [r]) == Items(rs) + Elements(r.items)
  {
    var all := rs + [r];
    forall x | x in Items(all)
      ensures x in Items(rs) + Elements(r.items)
    {
      var i, j :| 0 <= i < |all| && 0 <= j < |all[i].items| && x == all[i].items[j];
      if i < |rs| {
        assert x == rs[i].items[j];
      } else {
        assert x == r.items[j];
      }
    }
    forall x | x in Items(rs)
      ensures x in Items(all)
    {
      var i, j :| 0 <= i < |rs| && 0 <= j < |rs[i].items| && x == rs[i].items[j];
      assert x == all[i].items[j];
    }
    forall x | x in Elements(r.items)
      ensures x in Items(all)
    {
      var j :| 0 <= j < |r.items| && x == r.items[j];
      assert x == all[|rs|].items[j];
    }
  }

  // ----- one loader, and the list of loaders, on one slice

  lemma {:induction false} RunStarts(w: World, db: Db, done: seq<Loader>, loaders: seq<Loader>, l: Loader, data: Data,
                                     records: Records, before: seq<Links>, es: set<Entity>)
    requires Runs(w, db, done, loaders, l, data, records.kind, RowsOf(records.items), before, es)
    ensures records.kind == l.rel.owner ==> AllStart(w, l.rel, RowsOf(records.items))
    ensures if l.Many? then ManyReady(w, db, l.rel, data) else OneReady(w, db, l.rel, data)
  {
    hide Setup, CacheOk, RowsFrom, AllStart, ManyReady, OneReady;
    ReadyForLoad(w, db, loaders, l, data);
    if records.kind == l.rel.owner {
      RowsStart(w, db, loaders, l, RowsOf(records.items));
    }
  }

  method RunLoader(ghost w: World, db: Db, ghost done: seq<Loader>, ghost loaders: seq<Loader>, l: Loader,
                   sc: ScopeCache, later: seq<Records>, records: Records, ghost es: set<Entity>)
      returns (ok: bool, next: seq<Records>, ghost loaded: seq<Entity>)
    requires Runs(w, db, done, loaders, l, sc.data, records.kind, RowsOf(records.items), LinksOf(records.items), es)
    requires sc.Valid() && sc.sch == w.sch && Distinct(records.items)
    modifies sc, records.items
    ensures Queryable(db, l.rel) ==> ok
    ensures sc.Valid() && Blank(l.rel.table, loaded) && forall i | 0 <= i < |loaded| :: fresh(loaded[i])
    ensures ok ==> Ran(w, db, done, loaders, l, old(sc.data), sc.data, records.kind,
                       RowsOf(records.items), LinksOf(records.items), es, later, next, loaded)
  {
    hide *;
    ghost var data, rows, before := sc.data, RowsOf(records.items), LinksOf(records.items);
    RunStarts(w, db, done, loaders, l, data, records, before, es);
    match l
    case Many(rel) =>
      ok, next, loaded := IncludeMany(w, db, rel, later, sc, records);
      if records.kind != rel.owner {
        PassedOver(w, db, done, loaders, l, data, records.kind, rows, before, es, later);
      } else if ok {
        ManyRan(w, db, done, loaders, rel, data, sc.data, rows, before, LinksOf(records.items), es, later, next,
                loaded);
      }
    case One(rel) =>
      ok, next, loaded := IncludeOne(w, db, rel, later, sc, records);
      if records.kind != rel.owner {
        PassedOver(w, db, done, loaders, l, data, records.kind, rows, before, es, later);
      } else if ok {
        OneRan(w, db, done, loaders, rel, data, sc.data, rows, before, LinksOf(records.items), es, later, next, loaded);
      }
  }

  /** What the loaders of `done` have made of a slice, and added to the next round. */
  ghost predicate ListRan(w: World, db: Db, done: seq<Loader>, loaders: seq<Loader>, data: Data, data': Data,
                          kind: string, rows: seq<Row>, links: seq<Links>, es: set<Entity>, added: seq<Records>) {
    && CacheOk(w, db, loaders, data') && AllStable(loaders, data, data')
    && AllFilled(w, db, done, loaders, data', kind, rows, links)
    && HoldsOnly(data', es + Items(added)) && AllLinksKnown(links, es + Items(added))
  }

  lemma {:induction false} ListStarts(w: World, db: Db, loaders: seq<Loader>, data: Data, records: Records,
                                      es: set<Entity>)
    requires CacheOk(w, db, loaders, data) && HoldsOnly(data, es) && Blank(records.kind, records.items)
    ensures ListRan(w, db, [], loaders, data, data, records.kind, RowsOf(records.items), LinksOf(records.items), es, [])
  {
    hide CacheOk, HoldsOnly, Filled, AllStable;
    StableSame(loaders, data);
    assert es + Items([]) == es;
    forall i | 0 <= i < |records.items|
      ensures Filled(w, db, [], loaders, data, records.kind, RowsOf(records.items)[i], LinksOf(records.items)[i])
    {
      BlankIsFilled(w, db, loaders, data, records.kind, RowsOf(records.items)[i]);
    }
  }

  lemma {:induction false} FromTableRows(db: Db, table: string, es: seq<Entity>)
    requires FromTable(db, table, es)
    ensures RowsFrom(db, table, RowsOf(es))
  {
  }

  lemma {:induction false} RunsNext(w: World, db: Db, done: seq<Loader>, loaders: seq<Loader>, l: Loader,
                                    data: Data, data': Data, kind: string, rows: seq<Row>, links: seq<Links>,
                                    es: set<Entity>, added: seq<Records>)
    requires Setup(w, db, loaders) && l in loaders && RowsFrom(db, kind, rows)
    requires ListRan(w, db, done, loaders, data, data', kind, rows, links, es, added)
    ensures Runs(w, db, done, loaders, l, data', kind, rows, links, es + Items(added))
  {
  }

  /** The slices of the next round after one more loader. */
  function OneMore(added: seq<Records>, later: seq<Records>, next: seq<Records>): seq<Records> {
    if |next| > |later| then added + [next[|next| - 1]] else added
  }

  lemma {:induction false} ListStep(w: World, db: Db, done: seq<Loader>, loaders: seq<Loader>, l: Loader,
                                    data: Data, data1: Data, data2: Data, kind: string, rows: seq<Row>,
                                    before: seq<Links>, after: seq<Links>, es: set<Entity>, added: seq<Records>,
                                    later: seq<Records>, next: seq<Records>, loaded: seq<Entity>)
    requires ListRan(w, db, done, loaders, data, data1, kind, rows, before, es, added)
    requires Ran(w, db, done, loaders, l, data1, data2, kind, rows, after, es + Items(added), later, next, loaded)
    ensures ListRan(w, db, done + [l], loaders, data, data2, kind, rows, after, es, OneMore(added, later, next))
    ensures next == later + OneMore(added, later, next)[|added|..]
    ensures OneMore(added, later, next) == if next == later then added else added + [Records(l.rel.table, loaded)]
    ensures next == later ==> loaded == []
    ensures FromTable(db, l.rel.table, loaded)
  {
    hide CacheOk, HoldsOnly, AllFilled, AllStable, AllLinksKnown, FromTable, Items;
    StableTwice(loaders, data, data1, data2);
    if next == later {
      assert es + Items(added) + Elements([]) == es + Items(added);
    } else {
      assert |next| == |later| + 1;
      ItemsOfOneMore(added, Records(l.rel.table, loaded));
      assert es + Items(added) + Elements(loaded) == es + (Items(added) + Elements(loaded));
    }
  }

  /** All loaders, one after the other, on one slice of records. */
  method LoadAll(ghost w: World, db: Db, loaders: seq<Loader>, sc: ScopeCache, later: seq<Records>, records: Records,
                 ghost es: set<Entity>)
      returns (ok: bool, next: seq<Records>, ghost added: seq<Records>)
    requires Setup(w, db, loaders) && CacheOk(w, db, loaders, sc.data) && HoldsOnly(sc.data, es)
    requires Blank(records.kind, records.items) && FromTable(db, records.kind, records.items)
    requires sc.Valid() && sc.sch == w.sch
    modifies sc, records.items
    ensures (forall l | l in loaders :: Queryable(db, l.rel)) ==> ok
    ensures sc.Valid()
    ensures ok ==> ListRan(w, db, loaders, loaders, old(sc.data), sc.data, records.kind,
                           RowsOf(records.items), LinksOf(records.items), es, added)
    ensures ok ==> next == later + added && Waiting(db, added) && forall x | x in Items(added) :: fresh(x)
  {
    hide *;
    ghost var data, rows := sc.data, RowsOf(records.items);
    ListStarts(w, db, loaders, data, records, es);
    FromTableRows(db, records.kind, records.items);
    NothingWaits(db);
    DistinctIfBlank(records.kind, records.items);
    next, added := later, [];
    ghost var got: set<Entity> := {};
    for i := 0 to |loaders|
      invariant sc.Valid()
      invariant ListRan(w, db, loaders[..i], loaders, data, sc.data, records.kind, rows, LinksOf(records.items), es,
                        added)
      invariant next == later + added && Waiting(db, added) && Items(added) == got && forall x | x in got :: fresh(x)
    {
      ghost var data1, before, done := sc.data, LinksOf(records.items), loaders[..i];
      RunsNext(w, db, done, loaders, loaders[i], data, data1, records.kind, rows, before, es, added);
      var next';
      ghost var loaded;
      ok, next', loaded := RunLoader(w, db, done, loaders, loaders[i], sc, next, records, es + Items(added));
      if !ok {
        return;
      }
      ListStep(w, db, done, loaders, loaders[i], data, data1, sc.data, records.kind, rows, before,
               LinksOf(records.items),
               es, added, next, next', loaded);
      if next' != next {
        assert forall j | 0 <= j < |loaded| :: loaded[j] !in got;
        OneMoreWaits(db, added, Records(loaders[i].rel.table, loaded));
        ElementsAreIn(loaded);
        got := got + set x | x in loaded;
      }
      next, added := next', OneMore(added, next, next');
      assert loaders[..i + 1] == done + [loaders[i]];
    }
    assert loaders[..|loaders|] == loaders;
    ok := true;
  }

  lemma {:induction false} ElementsAreIn(es: seq<Entity>)
    ensures Elements(es) == set x | x in es
  {
  }

  lemma {:induction false} DistinctIfBlank(table: string, es: seq<Entity>)
    requires Blank(table, es)
    ensures Distinct(es)
  {
  }

  // ----- one round

  /** Every loader has run on the records of the slice. */
  ghost predicate SliceDone(w: World, db: Db, loaders: seq<Loader>, data: Data, r: Records)
    reads r.items
  {
    && Distinct(r.items) && FromTable(db, r.kind, r.items)
    && AllFilled(w, db, loaders, loaders, data, r.kind, RowsOf(r.items), LinksOf(r.items))
  }

  ghost predicate Done(w: World, db: Db, loaders: seq<Loader>, data: Data, rs: seq<Records>)
    reads Items(rs)
  {
    forall i | 0 <= i < |rs| :: SliceDone(w, db, loaders, data, rs[i])
  }

  /** The relation fields of the records lead to objects of `es` only. */
  ghost predicate LinkedTo(rs: seq<Records>, es: set<Entity>)
    reads Items(rs)
  {
    forall i | 0 <= i < |rs| :: AllLinksKnown(LinksOf(rs[i].items), es)
  }

  lemma {:induction false} SliceDoneStays(w: World, db: Db, loaders: seq<Loader>, data: Data, data': Data, r: Records)
    requires Setup(w, db, loaders) && CacheOk(w, db, loaders, data) && CacheOk(w, db, loaders, data')
    requires AllStable(loaders, data, data') && SliceDone(w, db, loaders, data, r)
    ensures SliceDone(w, db, loaders, data', r)
  {
    hide Setup, CacheOk, AllStable, AllFilled;
    FromTableRows(db, r.kind, r.items);
    AllFilledStays(w, db, loaders, loaders, data, data', r.kind, RowsOf(r.items), LinksOf(r.items));
  }

  lemma {:induction false} DoneStays(w: World, db: Db, loaders: seq<Loader>, data: Data, data': Data, rs: seq<Records>)
    requires Setup(w, db, loaders) && CacheOk(w, db, loaders, data) && CacheOk(w, db, loaders, data')
    requires AllStable(loaders, data, data') && Done(w, db, loaders, data, rs)
    ensures Done(w, db, loaders, data', rs)
  {
    hide Setup, CacheOk, AllStable, SliceDone;
    forall i | 0 <= i < |rs|
      ensures SliceDone(w, db, loaders, data', rs[i])
    {
      SliceDoneStays(w, db, loaders, data, data', rs[i]);
    }
  }

  lemma {:induction false} LinkedToMore(rs: seq<Records>, es: set<Entity>, more: set<Entity>)
    requires LinkedTo(rs, es) && es <= more
    ensures LinkedTo(rs, more)
  {
    hide AllLinksKnown;
    forall i | 0 <= i < |rs|
      ensures AllLinksKnown(LinksOf(rs[i].items), more)
    {
      LinksKnownMore(LinksOf(rs[i].items), es, more);
    }
  }

  lemma {:induction false} NothingDone(w: World, db: Db, loaders: seq<Loader>, data: Data, es: set<Entity>)
    ensures Done(w, db, loaders, data, []) && LinkedTo([], es) && Items([]) == {}
  {
  }

  lemma {:induction false} OneMoreDone(w: World, db: Db, loaders: seq<Loader>, data: Data, rs: seq<Records>, r: Records,
                                       es: set<Entity>)
    requires Done(w, db, loaders, data, rs) && SliceDone(w, db, loaders, data, r)
    requires LinkedTo(rs, es) && AllLinksKnown(LinksOf(r.items), es)
    ensures Done(w, db, loaders, data, rs + [r]) && LinkedTo(rs + [r], es)
            && Items(rs + [r]) == Items(rs) + Elements(r.items)
  {
    hide SliceDone, AllLinksKnown;
    ItemsOfOneMore(rs, r);
    var all := rs + [r];
    assert all[|rs|] == r && forall i | 0 <= i < |rs| :: all[i] == rs[i];
  }

  lemma {:induction false} ItemsOfBoth(a: seq<Records>, b: seq<Records>)
    ensures Items(a + b) == Items(a) + Items(b)
  {
    if b == [] {
      assert a + b == a;
    } else {
      var n := |b| - 1;
      hide Items;
      ItemsOfBoth(a, b[..n]);
      ItemsOfOneMore(a + b[..n], b[n]);
      ItemsOfOneMore(b[..n], b[n]);
      assert a + b == a + b[..n] + [b[n]] && b == b[..n] + [b[n]];
    }
  }

  lemma {:induction false} BothWait(db: Db, a: seq<Records>, b: seq<Records>)
    requires Waiting(db, a) && Waiting(db, b) && Items(a) !! Items(b)
    ensures Waiting(db, a + b) && Items(a + b) == Items(a) + Items(b)
  {
    ItemsOfBoth(a, b);
    hide Blank, FromTable;
    var all := a + b;
    forall i, j | 0 <= i < j < |all|
      ensures Disjoint(all[i].items, all[j].items)
    {
      if i < |a| <= j {
        var h := j - |a|;
        assert forall k | 0 <= k < |a[i].items| :: a[i].items[k] in Items(a);
        assert forall m | 0 <= m < |b[h].items| :: b[h].items[m] in Items(b);
      } else if j < |a| {
        assert Disjoint(a[i].items, a[j].items);
      } else {
        assert Disjoint(b[i - |a|].items, b[j - |a|].items);
      }
    }
  }

  /** The first slice that waits, and the others. */
  lemma {:induction false} FirstWaits(db: Db, rs: seq<Records>)
    requires Waiting(db, rs) && rs != []
    ensures Blank(rs[0].kind, rs[0].items) && FromTable(db, rs[0].kind, rs[0].items) && Waiting(db, rs[1..])
    ensures Items(rs) == Elements(rs[0].items) + Items(rs[1..]) && Elements(rs[0].items) !! Items(rs[1..])
  {
    assert rs == [rs[0]] + rs[1..];
    ItemsOfBoth([rs[0]], rs[1..]);
    ItemsOfOneMore([], rs[0]);
    assert [] + [rs[0]] == [rs[0]];
    assert Items([]) == {};
    hide Blank, FromTable;
    var rest := rs[1..];
    forall i, j | 0 <= i < |rest| && 0 <= j < |rest[i].items|
      ensures rest[i].items[j] !in Elements(rs[0].items)
    {
      assert rest[i] == rs[i + 1] && Disjoint(rs[0].items, rs[i + 1].items);
    }
  }

  /** One round: every loader on every slice of the frontier; what they load is the next frontier. */
  method Round(ghost w: World, db: Db, loaders: seq<Loader>, sc: ScopeCache, frontier: seq<Records>,
               ghost es: set<Entity>)
      returns (ok: bool, next: seq<Records>)
    requires Setup(w, db, loaders) && CacheOk(w, db, loaders, sc.data) && HoldsOnly(sc.data, es)
    requires Waiting(db, frontier) && sc.Valid() && sc.sch == w.sch
    modifies sc, Items(frontier)
    ensures (forall l | l in loaders :: Queryable(db, l.rel)) ==> ok
    ensures sc.Valid()
    ensures ok ==>
              && CacheOk(w, db, loaders, sc.data) && AllStable(loaders, old(sc.data), sc.data)
              && HoldsOnly(sc.data, es + Items(next))
              && Done(w, db, loaders, sc.data, frontier) && LinkedTo(frontier, es + Items(next))
              && Waiting(db, next) && forall x | x in Items(next) :: fresh(x)
  {
    hide *;
    ghost var data := sc.data;
    NothingDone(w, db, loaders, data, es);
    NothingWaits(db);
    StableSame(loaders, data);
    next := [];
    ghost var got: set<Entity> := {};
    ghost var todo, ran := Items(frontier), {};
    assert frontier[0..] == frontier && frontier[..0] == [];
    assert es + got == es;
    for i := 0 to |frontier|
      invariant sc.Valid() && CacheOk(w, db, loaders, sc.data) && AllStable(loaders, data, sc.data)
      invariant HoldsOnly(sc.data, es + got) && Items(next) == got && Waiting(db, next)
                && forall x | x in got :: fresh(x)
      invariant Waiting(db, frontier[i..]) && Items(frontier[i..]) == todo && todo + ran == Items(frontier)
                && todo !! ran
      invariant Done(w, db, loaders, sc.data, frontier[..i]) && LinkedTo(frontier[..i], es + got)
      invariant Items(frontier[..i]) == ran
    {
      ghost var before, r, done := sc.data, frontier[i], frontier[..i];
      assert frontier[i..][0] == r && frontier[i..][1..] == frontier[i + 1..] && frontier[..i + 1] == done + [r];
      FirstWaits(db, frontier[i..]);
      ElementsAreIn(r.items);
      DistinctIfBlank(r.kind, r.items);
      var next';
      ghost var added;
      ok, next', added := LoadAll(w, db, loaders, sc, next, frontier[i], es + got);
      if !ok {
        return;
      }
      SliceRan(w, db, loaders, before, sc.data, r, es + got, added);
      StableTwice(loaders, data, before, sc.data);
      DoneStays(w, db, loaders, before, sc.data, done);
      LinkedToMore(done, es + got, es + got + Items(added));
      OneMoreDone(w, db, loaders, sc.data, done, r, es + got + Items(added));
      BothWait(db, next, added);
      todo, ran := todo - (set x | x in r.items), ran + set x | x in r.items;
      assert es + got + Items(added) == es + (got + Items(added));
      got := got + Items(added);
      next := next';
    }
    assert frontier[..|frontier|] == frontier;
    ok := true;
  }

  lemma {:induction false} SliceRan(w: World, db: Db, loaders: seq<Loader>, data: Data, data': Data, r: Records,
                                    es: set<Entity>, added: seq<Records>)
    requires ListRan(w, db, loaders, loaders, data, data', r.kind, RowsOf(r.items), LinksOf(r.items), es, added)
    requires Distinct(r.items) && FromTable(db, r.kind, r.items)
    ensures CacheOk(w, db, loaders, data') && AllStable(loaders, data, data') && HoldsOnly(data', es + Items(added))
    ensures SliceDone(w, db, loaders, data', r) && AllLinksKnown(LinksOf(r.items), es + Items(added))
  {
  }

  // ----- all rounds

  function Flat(levels: seq<seq<Records>>): seq<Records> {
    if levels == [] then [] else Flat(levels[..|levels| - 1]) + levels[|levels| - 1]
  }

  lemma {:induction false} FlatMore(levels: seq<seq<Records>>, rs: seq<Records>)
    ensures Flat(levels + [rs]) == Flat(levels) + rs && Items(Flat(levels + [rs])) == Items(Flat(levels)) + Items(rs)
  {
    assert (levels + [rs])[..|levels|] == levels;
    ItemsOfBoth(Flat(levels), rs);
  }

  /** The records of the first `n` levels. */
  ghost function Upto(levels: seq<seq<Records>>, n: nat): set<Entity> {
    Items(Flat(if n < |levels| then levels[..n] else levels))
  }

  lemma {:induction false} LevelsUpto(levels: seq<seq<Records>>, n: nat)
    requires n <= |levels|
    ensures forall d | 0 <= d < n :: Items(levels[d]) <= Upto(levels, n)
    ensures Upto(levels, n) == Items(Flat(levels[..n]))
  {
    assert levels[..|levels|] == levels;
    if n > 0 {
      LevelsUpto(levels, n - 1);
      FlatMore(levels[..n - 1], levels[n - 1]);
      assert levels[..n] == levels[..n - 1] + [levels[n - 1]];
      hide Items, Flat;
    }
  }

  /** The records of a level lead to records of the levels up to the next one. */
  ghost predicate Closed(levels: seq<seq<Records>>, n: nat)
    requires n <= |levels|
    reads Upto(levels, n)
  {
    LevelsUpto(levels, n);
    forall d | 0 <= d < n :: LinkedTo(levels[d], Upto(levels, d + 2))
  }

  /** The first `n` levels have been through all loaders; the last level holds what was loaded last. */
  ghost predicate Explored(w: World, db: Db, loaders: seq<Loader>, data: Data, levels: seq<seq<Records>>, n: nat)
    reads Items(Flat(levels))
  {
    && |levels| == n + 1
    && assert levels[..n + 1] == levels; LevelsUpto(levels, n); LevelsUpto(levels, n + 1); UptoGrows(levels, n);
    && Waiting(db, levels[n]) && Items(levels[n]) !! Upto(levels, n)
    && Done(w, db, loaders, data, Flat(levels[..n])) && Closed(levels, n)
    && CacheOk(w, db, loaders, data) && HoldsOnly(data, Items(Flat(levels)))
  }

  lemma {:induction false} UptoGrows(levels: seq<seq<Records>>, n: nat)
    ensures Upto(levels, n) <= Upto(levels, n + 1)
  {
    if n < |levels| {
      FlatMore(levels[..n], levels[n]);
      assert levels[..n + 1] == levels[..n] + [levels[n]];
      assert levels[..|levels|] == levels;
      hide Items, Flat;
    }
  }

  lemma {:induction false} ExploredParts(w: World, db: Db, loaders: seq<Loader>, data: Data, levels: seq<seq<Records>>,
                                         n: nat)
    requires Explored(w, db, loaders, data, levels, n)
    ensures |levels| == n + 1 && Waiting(db, levels[n])
    ensures Items(Flat(levels)) == Upto(levels, n) + Items(levels[n]) && Items(levels[n]) !! Upto(levels, n)
    ensures Upto(levels, n) == Items(Flat(levels[..n]))
    ensures Done(w, db, loaders, data, Flat(levels[..n])) && Closed(levels, n)
    ensures CacheOk(w, db, loaders, data) && HoldsOnly(data, Items(Flat(levels)))
  {
    hide Items, Flat, Waiting, Done, Closed, CacheOk, HoldsOnly, Upto;
    LevelsUpto(levels, n);
    FlatMore(levels[..n], levels[n]);
    assert levels == levels[..n] + [levels[n]];
  }

  lemma {:induction false} ClosedStep(levels: seq<seq<Records>>, n: nat, next: seq<Records>)
    requires |levels| == n + 1 && Closed(levels, n)
    requires LinkedTo(levels[n], Items(Flat(levels)) + Items(next))
    ensures Closed(levels + [next], n + 1)
  {
    var all := levels + [next];
    LevelsUpto(all, n + 1);
    LevelsUpto(levels, n);
    FlatMore(levels, next);
    hide LinkedTo, Items, Flat;
    forall d | 0 <= d < n + 1
      ensures LinkedTo(all[d], Upto(all, d + 2))
    {
      if d < n {
        assert all[..d + 2] == levels[..d + 2] && levels[..|levels|] == levels;
        assert Upto(all, d + 2) == Upto(levels, d + 2);
        assert LinkedTo(levels[d], Upto(levels, d + 2));
      } else {
        assert Upto(all, n + 2) == Items(Flat(all));
      }
    }
  }

  lemma {:induction false} DoneBoth(w: World, db: Db, loaders: seq<Loader>, data: Data, a: seq<Records>,
                                    b: seq<Records>)
    requires Done(w, db, loaders, data, a) && Done(w, db, loaders, data, b)
    ensures Done(w, db, loaders, data, a + b)
  {
    hide SliceDone, Items;
    forall i | 0 <= i < |a + b|
      ensures SliceDone(w, db, loaders, data, (a + b)[i])
    {
      assert (a + b)[i] == if i < |a| then a[i] else b[i - |a|];
    }
  }

  /** A round explores the last level, and adds another. */
  lemma {:induction false} ExploredNext(w: World, db: Db, loaders: seq<Loader>, data: Data, data': Data,
                                        levels: seq<seq<Records>>, n: nat, next: seq<Records>)
    requires |levels| == n + 1 && Setup(w, db, loaders)
    requires CacheOk(w, db, loaders, data) && CacheOk(w, db, loaders, data') && AllStable(loaders, data, data')
    requires Done(w, db, loaders, data, Flat(levels[..n])) && Closed(levels, n)
    requires Done(w, db, loaders, data', levels[n]) && LinkedTo(levels[n], Items(Flat(levels)) + Items(next))
    requires Waiting(db, next) && Items(next) !! Items(Flat(levels))
             && HoldsOnly(data', Items(Flat(levels)) + Items(next))
    ensures Explored(w, db, loaders, data', levels + [next], n + 1)
  {
    var all := levels + [next];
    DoneStays(w, db, loaders, data, data', Flat(levels[..n]));
    DoneBoth(w, db, loaders, data', Flat(levels[..n]), levels[n]);
    FlatMore(levels[..n], levels[n]);
    FlatMore(levels, next);
    ClosedStep(levels, n, next);
    LevelsUpto(all, n + 1);
    assert levels == levels[..n] + [levels[n]] && all[..n + 1] == levels && all[n + 1] == next;
    hide Items, Flat, Waiting, Done, Closed, CacheOk, HoldsOnly, Upto, Setup, AllStable, LinkedTo;
  }

  lemma {:induction false} ExploredFirst(w: World, db: Db, loaders: seq<Loader>, data: Data, records: Records)
    requires Blank(records.kind, records.items) && FromTable(db, records.kind, records.items)
    requires CacheOk(w, db, loaders, data) && HoldsOnly(data, Elements(records.items))
    ensures Explored(w, db, loaders, data, [[records]], 0) && Items(Flat([[records]])) == Elements(records.items)
  {
    NothingWaits(db);
    OneMoreWaits(db, [], records);
    FlatMore([], [records]);
    LevelsUpto([[records]], 0);
    NothingDone(w, db, loaders, data, {});
    assert [] + [records] == [records] && [] + [[records]] == [[records]] && [[records]][..0] == [];
    assert {} + Elements(records.items) == Elements(records.items);
    hide Items, Waiting, Done, CacheOk, HoldsOnly, LinkedTo;
  }

  /** The rounds of a query; a limit that is not positive allows none. */
  method IncludeContext(ghost w: World, db: Db, loaders: seq<Loader>, sc: ScopeCache, records: Records, maxDepth: int)
      returns (ok: bool, ghost levels: seq<seq<Records>>, ghost rounds: nat)
    requires Setup(w, db, loaders) && CacheOk(w, db, loaders, sc.data) && HoldsOnly(sc.data, Elements(records.items))
    requires Blank(records.kind, records.items) && FromTable(db, records.kind, records.items)
    requires sc.Valid() && sc.sch == w.sch
    modifies sc, records.items
    ensures (forall l | l in loaders :: Queryable(db, l.rel)) ==> ok
    ensures ok ==>
              && Explored(w, db, loaders, sc.data, levels, rounds) && levels[0] == [records]
              && AllStable(loaders, old(sc.data), sc.data)
              && (rounds == (if maxDepth < 0 then 0 else maxDepth) || (rounds <= maxDepth && levels[rounds] == []))
  {
    hide *;
    ghost var data := sc.data;
    ExploredFirst(w, db, loaders, data, records);
    ElementsAreIn(records.items);
    StableSame(loaders, data);
    levels, rounds := [[records]], 0;
    ghost var known, roots := set x | x in records.items, set x | x in records.items;
    var frontier := [records];
    var depth := 0;
    while depth < maxDepth
      invariant 0 <= depth && rounds == depth && (depth <= maxDepth || depth == 0)
      invariant sc.Valid() && AllStable(loaders, data, sc.data)
      invariant Explored(w, db, loaders, sc.data, levels, depth) && Items(Flat(levels)) == known
      invariant |levels| == depth + 1 && levels[0] == [records] && frontier == levels[depth]
      invariant forall x | x in known :: x in roots || fresh(x)
    {
      ExploredParts(w, db, loaders, sc.data, levels, depth);
      ghost var before := sc.data;
      var next;
      ok, next := Round(w, db, loaders, sc, frontier, known);
      if !ok {
        return;
      }
      StableTwice(loaders, data, before, sc.data);
      ExploredNext(w, db, loaders, before, sc.data, levels, depth, next);
      FlatMore(levels, next);
      known := known + Items(next);
      levels, rounds := levels + [next], depth + 1;
      if next == [] {
        return;
      }
      frontier, depth := next, depth + 1;
    }
    ok := true;
  }

  // ----- the query

  /** Of the rows with one key of a one-to-many relation to the root table, the root query selects all or none. */
  ghost predicate Rooted(w: World, db: Db, loaders: seq<Loader>, root: string, selected: seq<Row>) {
    forall l, id | l in loaders && l.Many? && l.rel.table == root && Files(l.rel, id) ::
      WholeKey(w, l.rel, selected, RowsIn(db, root), id)
  }

  lemma {:induction false} EmptyOk(w: World, db: Db, loaders: seq<Loader>)
    ensures CacheOk(w, db, loaders, map[]) && HoldsOnly(map[], {})
  {
    hide CacheKey, Files, Matching, World.IdIn;
  }

  lemma {:induction false} RootBuckets(w: World, db: Db, loaders: seq<Loader>, l: Loader, root: string,
                                       roots: seq<Entity>)
    requires LoaderReady(w, db, l) && l.Many? && l.rel.table == root
    requires FromTable(db, root, roots) && Distinct(roots) && AllSafe(w.sch, roots)
    ensures LoaderOk(w, db, l, AddAll(w.sch, map[], roots))
       <==> forall id | Files(l.rel, id) :: WholeKey(w, l.rel, RowsOf(roots), RowsIn(db, root), id)
  {
    hide CacheKey, AddAll, Files, WholeKey, CompleteAt, Schema.SafeEntity;
    TableIsRegistered(w, db, l);
    var data: Data := map[];
    assert BucketsOnly(data);
    forall id | Files(l.rel, id)
      ensures CompleteAt(w, AddAll(w.sch, data, roots), l.rel, RowsIn(db, root), id)
         <==> WholeKey(w, l.rel, RowsOf(roots), RowsIn(db, root), id)
    {
      NewBucket(w, data, l.rel, RowsIn(db, root), roots, id);
    }
  }

  /** Caching the selected records keeps the cache fit for the loaders exactly when the root query splits no key. */
  lemma {:induction false} RootsOk(w: World, db: Db, loaders: seq<Loader>, root: string, roots: seq<Entity>)
    requires Setup(w, db, loaders) && FromTable(db, root, roots) && Distinct(roots) && AllSafe(w.sch, roots)
    ensures CacheOk(w, db, loaders, AddAll(w.sch, map[], roots)) <==> Rooted(w, db, loaders, root, RowsOf(roots))
    ensures HoldsOnly(AddAll(w.sch, map[], roots), Elements(roots))
  {
    hide CacheKey, AddAll, Complete, Sound, BucketsOnly, LoaderReady, HoldsOnly, Schema.SafeEntity, LoaderStable,
         WholeKey, Files;
    var data: Data := map[];
    EmptyOk(w, db, loaders);
    AddAllBuckets(w.sch, data, roots);
    AmongMore(data, {}, Elements(roots));
    AddAllAmong(w.sch, data, roots, Elements(roots));
    forall l | l in loaders
      ensures LoaderOk(w, db, l, AddAll(w.sch, data, roots))
         <==> (l.Many? && l.rel.table == root ==>
                 forall id | Files(l.rel, id) :: WholeKey(w, l.rel, RowsOf(roots), RowsIn(db, root), id))
    {
      assert LoaderOk(w, db, l, data) && LoaderReady(w, db, l);
      if l.rel.table != root {
        OtherLoadKeeps(w, db, loaders, l, data, roots);
      } else if l.Many? {
        RootBuckets(w, db, loaders, l, root, roots);
      } else {
        TableIsRegistered(w, db, l);
        LoadKeepsSound(w, data, l.rel, RowsIn(db, root), roots);
      }
    }
  }

  // ----- what the records then hold, without a cache

  /** `n` copies of a sequence, one after the other. */
  function CopiedRows(rows: seq<Row>, n: nat): seq<Row> {
    if n == 0 then [] else CopiedRows(rows, n - 1) + rows
  }

  /**
   One relation field is the join: for a one-to-many field the rows of the other table in its order, each as often as
   that table has the key, and all of them as often as the loader was given; for a many-to-one field a row that the
   record refers to, or nil when there is none.
   */
  ghost predicate FieldJoined(w: World, db: Db, loaders: seq<Loader>, l: Loader, row: Row, links: Links) {
    match l
    case Many(rel) =>
      var children, join := links.Children(rel.field), Joined(rel, RowsIn(db, rel.table), row);
      && RowsOf(children) == CopiedRows(Stutter(join, Times(w, rel)), Count(loaders, l))
      && (Times(w, rel) == 1 && Count(loaders, l) == 1 ==> RowsOf(children) == join && Distinct(children))
    case One(rel) =>
      match links.Parent(rel.field)
      case Some(p) => RefersTo(db, rel, row, p)
      case None => NoReferent(db, rel, row)
  }

  ghost predicate RecordsJoined(w: World, db: Db, loaders: seq<Loader>, rs: seq<Records>)
    reads Items(rs)
  {
    forall i, j, l | 0 <= i < |rs| && 0 <= j < |rs[i].items| && l in loaders && l.rel.owner == rs[i].kind ::
      FieldJoined(w, db, loaders, l, rs[i].items[j].row, rs[i].items[j].links)
  }

  lemma {:induction false} CopiedRowsOf(es: seq<Entity>, n: nat)
    ensures RowsOf(Copied(es, n)) == CopiedRows(RowsOf(es), n)
  {
    if n > 0 {
      CopiedRowsOf(es, n - 1);
      assert RowsOf(Copied(es, n - 1) + es) == RowsOf(Copied(es, n - 1)) + RowsOf(es);
    }
  }

  lemma {:induction false} FilledIsJoined(w: World, db: Db, loaders: seq<Loader>, l: Loader, data: Data, row: Row,
                                          links: Links)
    requires l in loaders && FilledBy(w, db, loaders, loaders, l, data, row, links)
    ensures FieldJoined(w, db, loaders, l, row, links)
  {
    hide BucketOf, ObjectOf, Joined, Times, Stutter, RefersTo, NoReferent, Alone, RowsOf;
    var k :| 0 <= k < |loaders| && loaders[k] == l;
    CountSome(loaders, k);
    match l
    case Many(rel) =>
      var bucket := BucketOf(w, data, rel, row);
      CopiedRowsOf(bucket, Count(loaders, l));
      if Times(w, rel) == 1 && Count(loaders, l) == 1 {
        StutterOnce(Joined(rel, RowsIn(db, rel.table), row));
        assert [] + bucket == bucket;
        assert Copied(bucket, 1) == Copied(bucket, 0) + bucket;
      }
    case One(rel) =>
  }

  lemma {:induction false} DoneIsJoined(w: World, db: Db, loaders: seq<Loader>, data: Data, rs: seq<Records>)
    requires Done(w, db, loaders, data, rs)
    ensures RecordsJoined(w, db, loaders, rs)
  {
    hide FilledBy, FieldJoined;
    forall i, j, l | 0 <= i < |rs| && 0 <= j < |rs[i].items| && l in loaders && l.rel.owner == rs[i].kind
      ensures FieldJoined(w, db, loaders, l, rs[i].items[j].row, rs[i].items[j].links)
    {
      assert SliceDone(w, db, loaders, data, rs[i]);
      assert Filled(w, db, loaders, loaders, data, rs[i].kind, RowsOf(rs[i].items)[j], LinksOf(rs[i].items)[j]);
      assert FilledBy(w, db, loaders, loaders, l, data, rs[i].items[j].row, rs[i].items[j].links);
      FilledIsJoined(w, db, loaders, l, data, rs[i].items[j].row, rs[i].items[j].links);
    }
  }

  // ----- two relations that are each other's inverse

  ghost predicate Mirrored(many: Relation, one: Relation) {
    && many.owner == one.table && many.table == one.owner && many.owner != many.table
    && Distinct(many.Refs()) && Distinct(one.Refs())
    && (forall p | p in many.pairs :: ColumnPair(p.refe, p.fore) in one.pairs)
    && (forall p | p in one.pairs :: ColumnPair(p.refe, p.fore) in many.pairs)
  }

  lemma {:induction false} ForeOfPair(pairs: seq<ColumnPair>, i: nat)
    requires i < |pairs| && forall j, k | 0 <= j < k < |pairs| :: pairs[j].refe != pairs[k].refe
    ensures Relation.ForeIn(pairs, pairs[i].refe) == pairs[i].fore
  {
    if i > 0 {
      ForeOfPair(pairs[1..], i - 1);
    }
  }

  /** The join condition, read off the pairs. */
  lemma {:induction false} BelongsByPairs(rel: Relation, here: Row, there: Row)
    requires Distinct(rel.Refs())
    ensures Belongs(rel, here, there) <==> forall p | p in rel.pairs :: At(there, p.refe) == At(here, p.fore)
  {
    var refs := rel.Refs();
    forall i | 0 <= i < |rel.pairs|
      ensures rel.Fore(rel.pairs[i].refe) == rel.pairs[i].fore && rel.pairs[i].refe in refs
    {
      assert forall j | 0 <= j < |refs| :: refs[j] == rel.pairs[j].refe;
      ForeOfPair(rel.pairs, i);
      assert refs[i] == rel.pairs[i].refe;
    }
    if Belongs(rel, here, there) {
      forall p | p in rel.pairs
        ensures At(there, p.refe) == At(here, p.fore)
      {
        var i :| 0 <= i < |rel.pairs| && rel.pairs[i] == p;
      }
    }
    if forall p | p in rel.pairs :: At(there, p.refe) == At(here, p.fore) {
      forall c | c in refs
        ensures At(there, c) == At(here, rel.Fore(c))
      {
        var i :| 0 <= i < |refs| && refs[i] == c;
        assert rel.pairs[i] in rel.pairs;
      }
    }
  }

  /** A child belongs to a parent exactly when the parent is what the child refers to. */
  lemma {:induction false} MirrorBelongs(many: Relation, one: Relation, parent: Row, child: Row)
    requires Mirrored(many, one)
    ensures Belongs(many, parent, child) <==> Belongs(one, child, parent)
  {
    BelongsByPairs(many, parent, child);
    BelongsByPairs(one, child, parent);
    if forall p | p in many.pairs :: At(child, p.refe) == At(parent, p.fore) {
      forall p | p in one.pairs
        ensures At(parent, p.refe) == At(child, p.fore)
      {
        var q := ColumnPair(p.refe, p.fore);
        assert q in many.pairs;
      }
    }
    if forall p | p in one.pairs :: At(parent, p.refe) == At(child, p.fore) {
      forall p | p in many.pairs
        ensures At(child, p.refe) == At(parent, p.fore)
      {
        var q := ColumnPair(p.refe, p.fore);
        assert q in one.pairs;
      }
    }
  }

  /** No two records have the same reference key. */
  ghost predicate DistinctKeys(w: World, one: Relation, es: seq<Entity>) {
    forall i, j | 0 <= i < j < |es| :: w.IdIn(one, es[i].row) != w.IdIn(one, es[j].row)
  }

  /** The record of a root query is filed under its key. */
  lemma {:induction false} RootFiled(w: World, one: Relation, roots: seq<Entity>, k: nat)
    requires w.Faithful() && AllSafe(w.sch, roots) && k < |roots| && DistinctKeys(w, one, roots)
    requires forall i | 0 <= i < |roots| :: roots[i].table == one.table
    requires one.table in w.sch.tables && Leads(w.sch.tables[one.table].manyToOne, one)
    requires Files(one, w.IdIn(one, roots[k].row))
    ensures Lookup(AddAll(w.sch, map[], roots), CacheKey(CardinalityManyToOne, w.IdIn(one, roots[k].row))) ==
            Some(Obj(roots[k]))
  {
    var id, data: Data := w.IdIn(one, roots[k].row), map[];
    assert BucketsOnly(data);
    hide CacheKey, AddAll, World.IdIn, Leads, Last, Schema.SafeEntity;
    AddAllAt(w.sch, data, roots, CardinalityManyToOne, id);
    LastOf(w, one, roots, id);
    var e := Last(w.sch, roots, CardinalityManyToOne, id).value.e;
    var i :| 0 <= i < |roots| && roots[i] == e;
    assert i == k;
  }

  /** A child finds, in any later cache, the very parent that it belongs to. */
  lemma {:induction false} ParentFound(w: World, db: Db, loaders: seq<Loader>, many: Relation, one: Relation,
                                       roots: seq<Entity>, data: Data, k: nat, child: Row)
    requires Mirrored(many, one) && Setup(w, db, loaders) && One(one) in loaders && Alone(loaders, One(one))
    requires FromTable(db, one.table, roots) && AllSafe(w.sch, roots) && DistinctKeys(w, one, roots) && k < |roots|
    requires AllStable(loaders, AddAll(w.sch, map[], roots), data)
    requires child in RowsIn(db, many.table) && Belongs(many, roots[k].row, child)
    ensures ObjectOf(w, data, one, child) == Some(roots[k])
  {
    hide CacheKey, AddAll, World.IdIn, World.IdFor, Leads, Schema.SafeEntity, Alone, DistinctKeys, Files, Apart,
         World.Starts;
    var rows := RowsIn(db, one.table);
    assert LoaderReady(w, db, One(one)) && LoaderStable(loaders, One(one), AddAll(w.sch, map[], roots), data);
    MirrorBelongs(many, one, roots[k].row, child);
    RowStarts(w, db, One(one), child);
    assert roots[k].row in rows;
    var i :| 0 <= i < |rows| && rows[i] == roots[k].row;
    BelongsById(w, one, child, roots[k].row);
    RootFiled(w, one, roots, k);
  }

  lemma {:induction false} InCopied(es: seq<Entity>, n: nat, x: Entity)
    requires x in Copied(es, n)
    ensures x in es && n > 0
  {
    if n > 0 && x !in es {
      InCopied(es, n - 1, x);
    }
  }

  lemma {:induction false} JoinedBelongs(rel: Relation, rows: seq<Row>, here: Row)
    ensures forall r | r in Joined(rel, rows, here) :: r in rows && Belongs(rel, here, r)
  {
    if rows != [] {
      JoinedBelongs(rel, rows[..|rows| - 1], here);
    }
  }

  lemma {:induction false} InStutter(rows: seq<Row>, n: nat)
    ensures forall r | r in Stutter(rows, n) :: r in rows
  {
    if rows != [] {
      InStutter(rows[..|rows| - 1], n);
    }
  }

  lemma {:induction false} BucketBelongs(w: World, db: Db, rel: Relation, data: Data, row: Row, x: Entity)
    requires LoaderReady(w, db, Many(rel)) && LoaderOk(w, db, Many(rel), data) && row in RowsIn(db, rel.owner)
    requires HoldsJoin(w, db, rel, data, row) && x in BucketOf(w, data, rel, row)
    ensures x.table == rel.table && x.row in RowsIn(db, rel.table) && Belongs(rel, row, x.row)
  {
    RowStarts(w, db, Many(rel), row);
    assert CompleteAt(w, data, rel, RowsIn(db, rel.table), w.IdFor(rel, row));
    hide CacheKey, Joined, Times, Stutter, LoaderReady, World.IdFor, Complete, Files, Distinct, Belongs, Matching;
    var bucket := BucketOf(w, data, rel, row);
    var i :| 0 <= i < |bucket| && bucket[i] == x;
    assert RowsOf(bucket)[i] == x.row && x.row in RowsOf(bucket);
    JoinedBelongs(rel, RowsIn(db, rel.table), row);
    InStutter(Joined(rel, RowsIn(db, rel.table), row), Times(w, rel));
  }

  lemma {:induction false} DoneRecord(w: World, db: Db, loaders: seq<Loader>, data: Data, rs: seq<Records>, x: Entity,
                                      l: Loader)
    requires Done(w, db, loaders, data, rs) && x in Items(rs) && l in loaders && l.rel.owner == x.table
    ensures FilledBy(w, db, loaders, loaders, l, data, x.row, x.links) && x.row in RowsIn(db, x.table)
  {
    hide FilledBy;
    var i, j :| 0 <= i < |rs| && 0 <= j < |rs[i].items| && rs[i].items[j] == x;
    assert SliceDone(w, db, loaders, data, rs[i]);
    assert Filled(w, db, loaders, loaders, data, rs[i].kind, RowsOf(rs[i].items)[j], LinksOf(rs[i].items)[j]);
  }

  /** Each loaded child of a record refers to that very record. */
  ghost predicate LinkedBack(many: Relation, one: Relation, roots: seq<Entity>, known: set<Entity>)
    reads roots, known
  {
    forall i, x | 0 <= i < |roots| && x in known && x in roots[i].links.Children(many.field) ::
      x.links.Parent(one.field) == Some(roots[i])
  }

  lemma {:induction false} ChildLinked(w: World, db: Db, loaders: seq<Loader>, many: Relation, one: Relation,
                                       roots: seq<Entity>, data: Data, k: nat, x: Entity)
    requires Mirrored(many, one) && Setup(w, db, loaders) && CacheOk(w, db, loaders, data)
    requires Many(many) in loaders && One(one) in loaders && Alone(loaders, One(one))
    requires FromTable(db, one.table, roots) && AllSafe(w.sch, roots) && DistinctKeys(w, one, roots) && k < |roots|
    requires AllStable(loaders, AddAll(w.sch, map[], roots), data)
    requires FilledBy(w, db, loaders, loaders, Many(many), data, roots[k].row, roots[k].links)
    requires x in roots[k].links.Children(many.field)
    requires x.table == many.table ==> FilledBy(w, db, loaders, loaders, One(one), data, x.row, x.links)
    ensures x.table == many.table && x.links.Parent(one.field) == Some(roots[k])
  {
    hide LoaderReady, Alone, DistinctKeys, HoldsJoin, AddAll, AllSafe, Schema.SafeEntity, BucketOf, ObjectOf,
         AllStable, Belongs, Complete, Sound, BucketsOnly, Apart, Copied;
    assert LoaderReady(w, db, Many(many)) && LoaderOk(w, db, Many(many), data);
    InCopied(BucketOf(w, data, many, roots[k].row), Count(loaders, Many(many)), x);
    assert roots[k].row in RowsIn(db, one.table);
    BucketBelongs(w, db, many, data, roots[k].row, x);
    ParentFound(w, db, loaders, many, one, roots, data, k, x.row);
    var i :| 0 <= i < |loaders| && loaders[i] == One(one);
    CountSome(loaders, i);
  }

  /** When the rounds got as far as the children, each of them refers to the very record it belongs to. */
  lemma {:induction false} ChildrenLinkBack(w: World, db: Db, loaders: seq<Loader>, many: Relation, one: Relation,
                                            roots: seq<Entity>, data: Data, levels: seq<seq<Records>>, n: nat)
    requires Explored(w, db, loaders, data, levels, n) && levels[0] == [Records(one.table, roots)]
    requires n >= 1 && (n >= 2 || levels[n] == [])
    requires Mirrored(many, one) && Setup(w, db, loaders)
    requires Many(many) in loaders && One(one) in loaders && Alone(loaders, One(one))
    requires FromTable(db, one.table, roots) && AllSafe(w.sch, roots) && DistinctKeys(w, one, roots)
    requires AllStable(loaders, AddAll(w.sch, map[], roots), data)
    ensures LinkedBack(many, one, roots, Items(Flat(levels)))
  {
    ExploredParts(w, db, loaders, data, levels, n);
    var done := Flat(levels[..n]);
    TwoLevelsDone(levels, n);
    LevelsUpto(levels, n);
    hide Done, CacheOk, Setup, AddAll, AllSafe, AllStable, DistinctKeys, Alone, Flat, Waiting, FilledBy;
    forall k, x | 0 <= k < |roots| && x in roots[k].links.Children(many.field)
      ensures x.links.Parent(one.field) == Some(roots[k])
    {
      assert LinkedTo(levels[0], Upto(levels, 2));
      assert levels[0][0].items[k] == roots[k] && roots[k] in Items(levels[0]);
      assert AllLinksKnown(LinksOf(levels[0][0].items), Upto(levels, 2)) && LinksOf(roots)[k] == roots[k].links;
      LinksKnownByField(roots[k].links, Upto(levels, 2));
      assert SeqKnown(roots[k].links.Children(many.field), Upto(levels, 2));
      assert x in Items(done);
      DoneRecord(w, db, loaders, data, done, roots[k], Many(many));
      if x.table == many.table {
        DoneRecord(w, db, loaders, data, done, x, One(one));
      }
      ChildLinked(w, db, loaders, many, one, roots, data, k, x);
    }
  }

  lemma {:induction false} TwoLevelsDone(levels: seq<seq<Records>>, n: nat)
    requires |levels| == n + 1 && n >= 1 && (n >= 2 || levels[n] == [])
    ensures Upto(levels, 2) <= Items(Flat(levels[..n])) && Items(levels[0]) <= Items(Flat(levels[..n]))
  {
    LevelsUpto(levels, n);
    hide Items;
    if n == 1 {
      FlatMore(levels[..1], levels[1]);
      assert levels == levels[..1] + [levels[1]];
      assert Flat(levels[..1]) + [] == Flat(levels[..1]);
    } else {
      LevelsGrow(levels, 2, n);
    }
  }

  lemma {:induction false} LevelsGrow(levels: seq<seq<Records>>, m: nat, n: nat)
    requires m <= n
    ensures Upto(levels, m) <= Upto(levels, n)
    decreases n - m
  {
    if m < n {
      hide Upto;
      UptoGrows(levels, m);
      LevelsGrow(levels, m + 1, n);
    }
  }

  /** As many rounds as the limit allows, or until a round loads nothing more. */
  predicate Limited(levels: seq<seq<Records>>, rounds: nat, maxDepth: int) {
    && |levels| == rounds + 1
    && (rounds == (if maxDepth < 0 then 0 else maxDepth) || (rounds <= maxDepth && levels[rounds] == []))
  }

  /** The inverse relation of a loader's, led to from the root table by no other loader. */
  ghost predicate LeadsBack(loaders: seq<Loader>, root: string, many: Relation, one: Relation) {
    && Many(many) in loaders && One(one) in loaders && Alone(loaders, One(one))
    && Mirrored(many, one) && one.table == root
  }

  /**
   Eager loading is joining. The records are the rows that the root query leaves; every relation field of every
   record that a round has reached is the join; what it leads to is reached by the next round; and when the selected
   records have different keys, the children of each refer to that very record.
   */
  method QueryRecords(ghost w: World, sch: Schema, db: Db, root: string, loaders: seq<Loader>,
                      where: Cond, pick: seq<Row> -> seq<Row>, maxDepth: int)
      returns (ok: bool, records: seq<Entity>, ghost levels: seq<seq<Records>>, ghost rounds: nat)
    requires sch == w.sch && w.Faithful() && Setup(w, db, loaders) && Chooses(pick)
    requires w.RegularRows(root, RowsIn(db, root))
    requires Rooted(w, db, loaders, root, pick(SelectRows(Plain, where, RowsIn(db, root))))
    ensures (forall l | l in loaders :: Queryable(db, l.rel)) && root in db && KnownCond(Plain, db[root], where) ==> ok
    ensures ok ==> RowsOf(records) == pick(SelectRows(Plain, where, RowsIn(db, root))) && Distinct(records)
    ensures ok ==> Limited(levels, rounds, maxDepth) && levels[0] == [Records(root, records)]
    ensures ok ==>
              && RecordsJoined(w, db, loaders, Flat(levels[..rounds])) && Closed(levels, rounds)
              && Waiting(db, levels[rounds])
    ensures ok && maxDepth >= 2 ==>
              forall many, one | LeadsBack(loaders, root, many, one) && DistinctKeys(w, one, records) ::
                LinkedBack(many, one, records, Items(Flat(levels)))
  {
    hide *;
    levels, rounds := [], 0;
    ok, records := Query(db, root, where, pick);
    if !ok {
      return;
    }
    SelectedRoots(db, root, where, pick, records);
    FromTableIsSafe(w, db, root, records);
    DistinctIfBlank(root, records);
    EmptyOk(w, db, loaders);
    OnlyBuckets(w, db, loaders, map[]);
    var sc := new ScopeCache(sch);
    AddObjects(w, sc, records);
    RootsOk(w, db, loaders, root, records);
    ghost var data := sc.data;
    ok, levels, rounds := IncludeContext(w, db, loaders, sc, Records(root, records), maxDepth);
    if ok {
      ExploredParts(w, db, loaders, sc.data, levels, rounds);
      DoneIsJoined(w, db, loaders, sc.data, Flat(levels[..rounds]));
      IsLimited(levels, rounds, maxDepth);
      if maxDepth >= 2 {
        forall many, one | LeadsBack(loaders, root, many, one) && DistinctKeys(w, one, records)
          ensures LinkedBack(many, one, records, Items(Flat(levels)))
        {
          LeadsBackParts(loaders, root, many, one);
          ChildrenLinkBack(w, db, loaders, many, one, records, sc.data, levels, rounds);
        }
      }
    }
  }

  lemma {:induction false} SelectedRoots(db: Db, root: string, where: Cond, pick: seq<Row> -> seq<Row>,
                                         records: seq<Entity>)
    requires RowsOf(records) == pick(SelectRows(Plain, where, RowsIn(db, root))) && Chooses(pick)
             && Blank(root, records)
    ensures FromTable(db, root, records)
  {
    SelectedFromTable(db, root, where, pick, records);
  }

  lemma {:induction false} OnlyBuckets(w: World, db: Db, loaders: seq<Loader>, data: Data)
    requires CacheOk(w, db, loaders, data)
    ensures BucketsOnly(data)
  {
  }

  lemma {:induction false} IsLimited(levels: seq<seq<Records>>, rounds: nat, maxDepth: int)
    requires |levels| == rounds + 1
    requires rounds == (if maxDepth < 0 then 0 else maxDepth) || (rounds <= maxDepth && levels[rounds] == [])
    ensures Limited(levels, rounds, maxDepth)
  {
  }

  lemma {:induction false} LeadsBackParts(loaders: seq<Loader>, root: string, many: Relation, one: Relation)
    requires LeadsBack(loaders, root, many, one)
    ensures Many(many) in loaders && One(one) in loaders && Alone(loaders, One(one))
    ensures Mirrored(many, one) && one.table == root
  {
  }
}
