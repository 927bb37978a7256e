/** Relations between tables, and the rows that belong together: by values, by the SQL condition, and by cache key. */
module Joins {
  import opened Dialects
  import opened Sql
  import opened RowKeys
  import opened KeyStrings
  import opened ScopeCaches

  datatype ColumnPair = ColumnPair(fore: string, refe: string)

  /**
   A relation of the table `owner`, through the struct field `field`, to the table `table`: each pair is a column here
   and a column there.
   */
  datatype Relation = Relation(owner: string, field: string, table: string, pairs: seq<ColumnPair>) {

    function Refs(): seq<string> {
      seq(|pairs|, i requires 0 <= i < |pairs| => pairs[i].refe)
    }

    function RefSet(): set<string> {
      set c | c in Refs()
    }

    /** The column here that is paired with column `c` there. */
    function Fore(c: string): string {
      ForeIn(pairs, c)
    }

    static function ForeIn(pairs: seq<ColumnPair>, c: string): string {
      if pairs == [] then c
      else if pairs[0].refe == c then pairs[0].fore
      else ForeIn(pairs[1..], c)
    }

    /** The row key, there, of the rows that belong to a row here. */
    function KeyFor(row: Row): RowKey {
      MapRowKey(table, map c | c in Refs() :: At(row, Fore(c)))
    }

    /** The same key read off a row there. */
    function KeyIn(row: Row): RowKey {
      MapRowKey(table, map c | c in Refs() :: At(row, c))
    }
  }

  /**
   `vals` are the values that may stand in key columns; rendering tells them apart and puts no separator into them.
   */
  datatype World = World(sch: Schema, vals: set<Value>) {

    ghost predicate Faithful() {
      && (forall v, u | v in vals && u in vals && sch.render(v) == sch.render(u) :: v == u)
      && (forall v | v in vals :: Safe(sch.render(v)))
      && (forall t | t in sch.tables :: Safe(t) && SafeTable(sch.tables[t]))
    }

    static ghost predicate SafeTable(keys: TableKeys) {
      forall c | KeyColumn(keys, c) :: SafeColumn(c)
    }

    static ghost predicate KeyColumn(keys: TableKeys, c: string) {
      || c in keys.primary
      || (exists i | 0 <= i < |keys.refs| :: c in keys.refs[i])
      || (exists i | 0 <= i < |keys.oneToMany| :: c in keys.oneToMany[i])
      || (exists i | 0 <= i < |keys.manyToOne| :: c in keys.manyToOne[i])
    }

    /** A row of a registered table whose key columns hold known values. */
    ghost predicate Regular(table: string, row: Row) {
      table in sch.tables && forall c | KeyColumn(sch.tables[table], c) :: At(row, c) in vals
    }

    ghost predicate RegularRows(table: string, rows: seq<Row>) {
      forall i | 0 <= i < |rows| :: Regular(table, rows[i])
    }

    /** The relation leads to a key of its table, with distinct columns, and starts from known values. */
    ghost predicate Starts(rel: Relation, row: Row) {
      forall c | c in rel.Refs() :: At(row, rel.Fore(c)) in vals
    }

    function IdFor(rel: Relation, row: Row): KeyId {
      IdOf(sch.render, rel.KeyFor(row))
    }

    function IdIn(rel: Relation, row: Row): KeyId {
      IdOf(sch.render, rel.KeyIn(row))
    }
  }

  /** Regular rows have separator-free keys. */
  lemma {:induction false} RegularIsSafe(w: World, e: Entity)
    requires w.Faithful() && w.Regular(e.table, e.row)
    ensures w.sch.SafeEntity(e)
  {
  }

  // ----- rows that belong together

  /** The join condition: every pair of columns holds equal values. */
  ghost predicate Belongs(rel: Relation, here: Row, there: Row) {
    forall c | c in rel.Refs() :: At(there, c) == At(here, rel.Fore(c))
  }

  /** The columns of a relation hold known values there. */
  ghost predicate Ends(w: World, rel: Relation, row: Row) {
    forall c | c in rel.Refs() :: At(row, c) in w.vals
  }

  /** Three ways to say that two rows belong together: by values, by the SQL condition, and by cache key. */
  lemma {:induction false} BelongsMeaning(w: World, rel: Relation, here: Row, there: Row)
    requires w.Faithful() && w.Starts(rel, here) && Ends(w, rel, there)
    ensures Belongs(rel, here, there) <==> Selects(Plain, Eq(rel.KeyFor(here).key), there)
    ensures Belongs(rel, here, there) <==> w.IdIn(rel, there) == w.IdFor(rel, here)
  {
    BelongsBySql(rel, here, there);
    BelongsById(w, rel, here, there);
  }

  lemma {:induction false} BelongsBySql(rel: Relation, here: Row, there: Row)
    ensures Belongs(rel, here, there) <==> Selects(Plain, Eq(rel.KeyFor(here).key), there)
  {
    hide Selects, At;
    var key := rel.KeyFor(here).key;
    EqSelects(Plain, key, there);
    assert forall c | c in key :: Name(Plain, c) == c;
    assert forall c :: c in key <==> c in rel.Refs();
    hide Relation.Fore, Relation.Refs;
    if forall c | c in key :: At(there, Name(Plain, c)) == key[c] {
      forall c | c in rel.Refs()
        ensures At(there, c) == At(here, rel.Fore(c))
      {
        assert c in key && Name(Plain, c) == c;
      }
    }
  }

  lemma {:induction false} RenderedApart(w: World, v: Value, u: Value)
    requires w.Faithful() && v in w.vals && u in w.vals
    ensures w.sch.render(v) == w.sch.render(u) <==> v == u
  {
  }

  lemma {:induction false} IdValues(w: World, rel: Relation, here: Row, there: Row)
    ensures w.IdIn(rel, there).table == w.IdFor(rel, here).table
    ensures var a, b := w.IdIn(rel, there).cols, w.IdFor(rel, here).cols;
            && a.Keys == b.Keys == (set c | c in rel.Refs())
            && (forall c | c in rel.Refs() :: a[c] == w.sch.render(At(there, c)))
            && (forall c | c in rel.Refs() :: b[c] == w.sch.render(At(here, rel.Fore(c))))
  {
    hide Relation.Fore, Relation.Refs, At;
  }

  lemma {:induction false} BelongsById(w: World, rel: Relation, here: Row, there: Row)
    requires w.Faithful() && w.Starts(rel, here) && Ends(w, rel, there)
    ensures Belongs(rel, here, there) <==> w.IdIn(rel, there) == w.IdFor(rel, here)
  {
    hide Relation.Fore, Relation.Refs, World.Faithful, At, World.IdIn, World.IdFor;
    IdValues(w, rel, here, there);
    forall c | c in rel.Refs()
      ensures w.IdIn(rel, there).cols[c] == w.IdFor(rel, here).cols[c] <==> At(there, c) == At(here, rel.Fore(c))
    {
      RenderedApart(w, At(there, c), At(here, rel.Fore(c)));
    }
    SameIds(w.IdIn(rel, there), w.IdFor(rel, here));
  }

  lemma {:induction false} SameIds(a: KeyId, b: KeyId)
    requires a.table == b.table && a.cols.Keys == b.cols.Keys
    ensures a == b <==> forall c | c in a.cols :: a.cols[c] == b.cols[c]
  {
  }

  /** The rows there with a given key, in database order: one side of the join. */
  function Matching(w: World, rel: Relation, rows: seq<Row>, id: KeyId): seq<Row> {
    if rows == [] then []
    else
      var n := |rows| - 1;
      Matching(w, rel, rows[..n], id) + if w.IdIn(rel, rows[n]) == id then [rows[n]] else []
  }

  /** The same by values: a nested loop over the table. */
  ghost function Joined(rel: Relation, rows: seq<Row>, here: Row): seq<Row> {
    if rows == [] then []
    else Joined(rel, rows[..|rows| - 1], here) + if Belongs(rel, here, rows[|rows| - 1]) then [rows[|rows| - 1]] else []
  }

  lemma {:induction false} MatchingIsJoin(w: World, rel: Relation, rows: seq<Row>, here: Row)
    requires w.Faithful() && w.Starts(rel, here) && forall i | 0 <= i < |rows| :: Ends(w, rel, rows[i])
    ensures Matching(w, rel, rows, w.IdFor(rel, here)) == Joined(rel, rows, here)
  {
    if rows != [] {
      MatchingIsJoin(w, rel, rows[..|rows| - 1], here);
      BelongsMeaning(w, rel, here, rows[|rows| - 1]);
    }
  }

  function RowsOf(es: seq<Entity>): seq<Row> {
    seq(|es|, i requires 0 <= i < |es| => es[i].row)
  }

  function KeyConds(rel: Relation, here: seq<Row>): seq<Cond> {
    seq(|here|, i requires 0 <= i < |here| => Eq(rel.KeyFor(here[i]).key))
  }

  function IdsFor(w: World, rel: Relation, here: seq<Row>): seq<KeyId> {
    seq(|here|, i requires 0 <= i < |here| => w.IdFor(rel, here[i]))
  }

  lemma {:induction false} CondSelects(w: World, rel: Relation, here: seq<Row>, row: Row)
    requires w.Faithful() && Ends(w, rel, row) && forall i | 0 <= i < |here| :: w.Starts(rel, here[i])
    ensures Selects(Plain, Or(KeyConds(rel, here)), row) <==> w.IdIn(rel, row) in IdsFor(w, rel, here)
  {
    var conds, ids := KeyConds(rel, here), IdsFor(w, rel, here);
    OrSelects(Plain, conds, row);
    forall i | 0 <= i < |here|
      ensures Selects(Plain, conds[i], row) <==> w.IdIn(rel, row) == ids[i]
    {
      BelongsMeaning(w, rel, here[i], row);
    }
    if w.IdIn(rel, row) in ids {
      var i :| 0 <= i < |ids| && ids[i] == w.IdIn(rel, row);
      assert Selects(Plain, conds[i], row);
    }
  }

  /** The one query for all uncached keys brings, for each of them, all of its rows, and no row of another key. */
  lemma {:induction false} FetchedMatching(w: World, rel: Relation, here: seq<Row>, rows: seq<Row>, id: KeyId)
    requires w.Faithful() && forall i | 0 <= i < |here| :: w.Starts(rel, here[i])
    requires forall i | 0 <= i < |rows| :: Ends(w, rel, rows[i])
    ensures Matching(w, rel, SelectRows(Plain, Or(KeyConds(rel, here)), rows), id) ==
            if id in IdsFor(w, rel, here) then Matching(w, rel, rows, id) else []
  {
    hide *;
    if rows == [] {
      FetchedNothing(w, rel, Or(KeyConds(rel, here)), id);
    } else {
      var n := |rows| - 1;
      var before := rows[..n];
      FetchedMatching(w, rel, here, before, id);
      CondSelects(w, rel, here, rows[n]);
      FetchedStep(w, rel, here, before, rows[n], id);
      assert before + [rows[n]] == rows;
    }
  }

  lemma {:induction false} FetchedNothing(w: World, rel: Relation, where: Cond, id: KeyId)
    ensures SelectRows(Plain, where, []) == [] && Matching(w, rel, [], id) == []
  {
  }

  lemma {:induction false} FetchedStep(w: World, rel: Relation, here: seq<Row>, rows: seq<Row>, row: Row, id: KeyId)
    requires Selects(Plain, Or(KeyConds(rel, here)), row) <==> w.IdIn(rel, row) in IdsFor(w, rel, here)
    requires Matching(w, rel, SelectRows(Plain, Or(KeyConds(rel, here)), rows), id) ==
             if id in IdsFor(w, rel, here) then Matching(w, rel, rows, id) else []
    ensures Matching(w, rel, SelectRows(Plain, Or(KeyConds(rel, here)), rows + [row]), id) ==
            if id in IdsFor(w, rel, here) then Matching(w, rel, rows + [row], id) else []
  {
    hide Selects, World.IdIn, IdsFor, KeyConds, Matching;
    var where := Or(KeyConds(rel, here));
    var before := SelectRows(Plain, where, rows);
    SelectStep(Plain, where, rows, row);
    MatchingStep(w, rel, before, row, id);
    MatchingStep(w, rel, rows, row, id);
    assert before + [] == before;
  }

  lemma {:induction false} SelectStep(d: Dialect, where: Cond, rows: seq<Row>, row: Row)
    ensures SelectRows(d, where, rows + [row]) ==
            SelectRows(d, where, rows) + if Selects(d, where, row) then [row] else []
  {
  }

  lemma {:induction false} MatchingStep(w: World, rel: Relation, rows: seq<Row>, row: Row, id: KeyId)
    ensures Matching(w, rel, rows + [row], id) ==
            Matching(w, rel, rows, id) + if w.IdIn(rel, row) == id then [row] else []
  {
  }

  lemma {:induction false} SelectedRows(d: Dialect, where: Cond, rows: seq<Row>)
    ensures forall r | r in SelectRows(d, where, rows) :: r in rows && Selects(d, where, r)
    ensures forall r | r in rows && Selects(d, where, r) :: r in SelectRows(d, where, rows)
  {
    if rows != [] {
      var n := |rows| - 1;
      SelectedRows(d, where, rows[..n]);
      assert rows == rows[..n] + [rows[n]];
    }
  }
}
