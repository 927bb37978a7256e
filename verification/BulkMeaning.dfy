/** The bulk compiler is an optimisation: its statements do what the statements of the default compiler do. */
module BulkMeaning {
  import opened Wrappers
  import opened Dialects
  import opened Sql
  import opened RowKeys
  import opened Compile

  // ----- laws of rows

  lemma {:induction false} AssignedIsNamed(d: Dialect, sets: seq<Assignment>, name: string)
    ensures Assigned(d, sets, name).Some? <==> name in Names(d, sets)
  {
    hide Name;
    if sets != [] {
      var n := |sets| - 1;
      AssignedIsNamed(d, sets[..n], name);
      assert forall i | 0 <= i < n :: sets[..n][i] == sets[i];
      if name in Names(d, sets[..n]) {
        var i :| 0 <= i < n && Name(d, sets[..n][i].col) == name;
        assert Name(d, sets[i].col) == name;
      }
      if name in Names(d, sets) && Name(d, sets[n].col) != name {
        var i :| 0 <= i < n && Name(d, sets[i].col) == name;
        assert Name(d, sets[..n][i].col) == name;
      }
    }
  }

  lemma {:induction false} OverwriteAt(d: Dialect, sets: seq<Assignment>, row: Row, name: string)
    ensures At(Overwrite(d, sets, row), name) ==
            match Assigned(d, sets, name) case Some(v) => v case None => At(row, name)
  {
    AssignedIsNamed(d, sets, name);
  }

  /** SET assigns constants, so doing it twice is doing it once. */
  lemma {:induction false} OverwriteTwice(d: Dialect, sets: seq<Assignment>, row: Row)
    ensures Overwrite(d, sets, Overwrite(d, sets, row)) == Overwrite(d, sets, row)
  {
  }

  // ----- one more part of a condition

  lemma {:induction false} OrGrows(d: Dialect, parts: seq<Cond>, cond: Cond, row: Row)
    ensures Selects(d, Or(parts + [cond]), row) <==> Selects(d, Or(parts), row) || Selects(d, cond, row)
  {
    var all := parts + [cond];
    assert all[..|all| - 1] == parts;
    assert EvalOr(d, all, row) == Or3(EvalOr(d, parts, row), Eval(d, cond, row));
    assert Eval(d, Or(all), row) == EvalOr(d, all, row);
  }

  lemma {:induction false} KnownGrows(d: Dialect, t: Table, parts: seq<Cond>, cond: Cond)
    ensures KnownCond(d, t, Or(parts + [cond])) <==> KnownCond(d, t, Or(parts)) && KnownCond(d, t, cond)
  {
    var all := parts + [cond];
    assert all[|parts|] == cond;
    assert forall i | 0 <= i < |parts| :: all[i] == parts[i];
    if KnownCond(d, t, Or(parts)) && KnownCond(d, t, cond) {
      forall i | 0 <= i < |all|
        ensures KnownCond(d, t, all[i])
      {
        assert i < |parts| ==> KnownCond(d, t, parts[i]);
      }
    }
    if KnownCond(d, t, Or(all)) {
      forall i | 0 <= i < |parts|
        ensures KnownCond(d, t, parts[i])
      {
        assert KnownCond(d, t, all[i]);
      }
    }
  }

  // ----- INSERT

  lemma {:induction false} PrefixConsistent(t: Table, a: seq<Row>, b: seq<Row>)
    requires Consistent(t.(rows := a + b))
    ensures Consistent(t.(rows := a))
  {
    assert forall i | 0 <= i < |a| :: (a + b)[i] == a[i];
  }

  lemma {:induction false} InsertGrows(d: Dialect, t: Table, name: string, cols: seq<string>, rows: seq<seq<Value>>,
                                       row: seq<Value>)
    ensures ExecOn(d, Insert(name, cols, rows + [row]), t) ==
            match ExecOn(d, Insert(name, cols, rows), t)
            case None => None
            case Some(t') => ExecOn(d, Insert(name, cols, [row]), t')
  {
    hide Overwrite;
    var all := rows + [row];
    assert all[|rows|] == row && forall i | 0 <= i < |rows| :: all[i] == rows[i];
    if KnownAll(d, t, cols) && |row| == |cols| && forall i | 0 <= i < |rows| :: |rows[i]| == |cols| {
      var some := t.rows + NewRows(d, t, cols, rows);
      assert t.rows + NewRows(d, t, cols, all) == some + NewRows(d, t.(rows := some), cols, [row]);
      assert t.rows + NewRows(d, t, cols, all) == some + NewRows(d, t, cols, [row]);
      if Consistent(t.(rows := t.rows + NewRows(d, t, cols, all))) {
        PrefixConsistent(t, some, NewRows(d, t, cols, [row]));
      }
    }
  }

  // ----- DELETE

  lemma {:induction false} DeletedRows(d: Dialect, where: Cond, rows: seq<Row>)
    ensures forall r | r in DeleteRows(d, where, rows) :: r in rows
  {
    if rows != [] {
      DeletedRows(d, where, rows[..|rows| - 1]);
    }
  }

  lemma {:induction false} DeleteKeepsConsistent(d: Dialect, where: Cond, t: Table)
    requires Consistent(t)
    ensures Consistent(t.(rows := DeleteRows(d, where, t.rows)))
    decreases |t.rows|
  {
    if t.rows != [] {
      var n := |t.rows| - 1;
      var last := t.rows[n];
      assert t.rows == t.rows[..n] + [last];
      PrefixConsistent(t, t.rows[..n], [last]);
      DeleteKeepsConsistent(d, where, t.(rows := t.rows[..n]));
      DeletedRows(d, where, t.rows[..n]);
      var rest := DeleteRows(d, where, t.rows[..n]);
      forall u, i | 0 <= u < |t.unique| && 0 <= i < |rest|
        ensures !Clash(t.unique[u], rest[i], last)
      {
        assert rest[i] in t.rows[..n];
      }
    }
  }

  lemma {:induction false} DeleteTwice(d: Dialect, parts: seq<Cond>, cond: Cond, rows: seq<Row>)
    ensures DeleteRows(d, cond, DeleteRows(d, Or(parts), rows)) == DeleteRows(d, Or(parts + [cond]), rows)
  {
    if rows != [] {
      var n := |rows| - 1;
      DeleteTwice(d, parts, cond, rows[..n]);
      OrGrows(d, parts, cond, rows[n]);
      var rest := DeleteRows(d, Or(parts), rows[..n]);
      assert (rest + [rows[n]])[..|rest|] == rest;
      assert rest + [] == rest;
    }
  }

  lemma {:induction false} DeleteGrows(d: Dialect, t: Table, name: string, parts: seq<Cond>, cond: Cond)
    requires Consistent(t)
    ensures ExecOn(d, Delete(name, Or(parts + [cond])), t) ==
            match ExecOn(d, Delete(name, Or(parts)), t)
            case None => None
            case Some(t') => ExecOn(d, Delete(name, cond), t')
  {
    KnownGrows(d, t, parts, cond);
    DeleteKeepsConsistent(d, Or(parts), t);
    DeleteTwice(d, parts, cond, t.rows);
    KnownSame(d, t, t.(rows := DeleteRows(d, Or(parts), t.rows)), cond);
  }

  lemma {:induction false} KnownSame(d: Dialect, t: Table, u: Table, cond: Cond)
    requires t.columns == u.columns
    ensures KnownCond(d, t, cond) == KnownCond(d, u, cond)
    decreases cond
  {
    match cond
    case Eq(key) => assert forall c | c in key :: Known(d, t, c) == Known(d, u, c);
    case Or(parts) =>
      forall i | 0 <= i < |parts|
        ensures KnownCond(d, t, parts[i]) == KnownCond(d, u, parts[i])
      {
        KnownSame(d, t, u, parts[i]);
      }
  }

  // ----- UPDATE

  /** A clash after updating fewer rows is still there, or was already there, after updating more of them. */
  lemma {:induction false} ClashRemains(d: Dialect, sets: seq<Assignment>, few: Cond, many: Cond, names: set<string>,
                                        r: Row, s: Row)
    requires Selects(d, few, r) ==> Selects(d, many, r)
    requires Selects(d, few, s) ==> Selects(d, many, s)
    requires Clash(names, UpdateRow(d, sets, few, r), UpdateRow(d, sets, few, s))
    ensures Clash(names, r, s) || Clash(names, UpdateRow(d, sets, many, r), UpdateRow(d, sets, many, s))
  {
  }

  /** So when the merged update is legal, every shorter one on the way is. */
  lemma {:induction false} FewerUpdatesConsistent(d: Dialect, sets: seq<Assignment>, few: Cond, many: Cond, t: Table)
    requires Consistent(t)
    requires forall i | 0 <= i < |t.rows| :: Selects(d, few, t.rows[i]) ==> Selects(d, many, t.rows[i])
    requires Consistent(t.(rows := UpdateRows(d, sets, many, t.rows)))
    ensures Consistent(t.(rows := UpdateRows(d, sets, few, t.rows)))
  {
    var a, b := UpdateRows(d, sets, few, t.rows), UpdateRows(d, sets, many, t.rows);
    forall i, c | 0 <= i < |a| && c in t.required
      ensures !At(a[i], c).Null?
    {
      assert a[i] == t.rows[i] || a[i] == b[i];
    }
    forall u, i, j | 0 <= u < |t.unique| && 0 <= i < j < |a|
      ensures !Clash(t.unique[u], a[i], a[j])
    {
      assert !Clash(t.unique[u], t.rows[i], t.rows[j]) && !Clash(t.unique[u], b[i], b[j]);
      if Clash(t.unique[u], a[i], a[j]) {
        ClashRemains(d, sets, few, many, t.unique[u], t.rows[i], t.rows[j]);
      }
    }
  }

  /** Also when SET overwrites a column that a row key tests: the rows it changed already hold the constants. */
  lemma {:induction false} UpdateTwice(d: Dialect, sets: seq<Assignment>, parts: seq<Cond>, cond: Cond, rows: seq<Row>)
    ensures UpdateRows(d, sets, cond, UpdateRows(d, sets, Or(parts), rows)) ==
            UpdateRows(d, sets, Or(parts + [cond]), rows)
  {
    forall i | 0 <= i < |rows|
      ensures UpdateRow(d, sets, cond, UpdateRow(d, sets, Or(parts), rows[i])) ==
              UpdateRow(d, sets, Or(parts + [cond]), rows[i])
    {
      OrGrows(d, parts, cond, rows[i]);
      OverwriteTwice(d, sets, rows[i]);
    }
  }

  lemma {:induction false} UpdateGrows(d: Dialect, t: Table, name: string, sets: seq<Assignment>, parts: seq<Cond>,
                                       cond: Cond)
    requires Consistent(t)
    ensures ExecOn(d, Update(name, sets, Or(parts + [cond])), t) ==
            match ExecOn(d, Update(name, sets, Or(parts)), t)
            case None => None
            case Some(t') => ExecOn(d, Update(name, sets, cond), t')
  {
    var some := t.(rows := UpdateRows(d, sets, Or(parts), t.rows));
    KnownGrows(d, t, parts, cond);
    KnownSame(d, t, some, cond);
    UpdateTwice(d, sets, parts, cond, t.rows);
    if Consistent(t.(rows := UpdateRows(d, sets, Or(parts + [cond]), t.rows))) {
      forall i | 0 <= i < |t.rows|
        ensures Selects(d, Or(parts), t.rows[i]) ==> Selects(d, Or(parts + [cond]), t.rows[i])
      {
        OrGrows(d, parts, cond, t.rows[i]);
      }
      FewerUpdatesConsistent(d, sets, Or(parts), Or(parts + [cond]), t);
    }
  }

  // ----- a chunk

  lemma {:induction false} UpdateNothing(d: Dialect, sets: seq<Assignment>, rows: seq<Row>)
    ensures UpdateRows(d, sets, Or([]), rows) == rows
  {
    hide Selects, Overwrite;
    forall i | 0 <= i < |rows|
      ensures UpdateRow(d, sets, Or([]), rows[i]) == rows[i]
    {
      OrSelects(d, [], rows[i]);
    }
  }

  /** An update or delete whose OR has one part is the one with that part. */
  lemma {:induction false} SingletonOr(d: Dialect, t: Table, name: string, sets: seq<Assignment>, cond: Cond)
    requires Consistent(t)
    ensures ExecOn(d, Update(name, sets, Or([cond])), t) == ExecOn(d, Update(name, sets, cond), t)
    ensures ExecOn(d, Delete(name, Or([cond])), t) == ExecOn(d, Delete(name, cond), t)
  {
    assert [] + [cond] == [cond];
    UpdateGrows(d, t, name, sets, [], cond);
    UpdateNothing(d, sets, t.rows);
    DeleteGrows(d, t, name, [], cond);
    DeleteNothing(d, t.rows);
    hide UpdateRows, DeleteRows, Consistent, KnownAll, Targets;
  }

  lemma {:induction false} SingletonChunk(d: Dialect, p: Patch, t: Table)
    requires WellFormed(p) && Consistent(t)
    ensures ExecOn(d, ChunkStatement(d, [p]), t) == ExecOn(d, PatchStatement(d, p), t)
  {
    hide ExecOn;
    assert CondsOf(d, [p]) == [RowKeyCond(d, p.rowKey)] && InsertedRows([p]) == [p.vals];
    var sets := if p.kind.PatchUpdate? then Pairs(Quotes(d, p.cols), p.vals) else [];
    SingletonOr(d, t, Quote(d, p.table), sets, RowKeyCond(d, p.rowKey));
  }

  lemma {:induction false} DeleteNothing(d: Dialect, rows: seq<Row>)
    ensures DeleteRows(d, Or([]), rows) == rows
  {
    if rows != [] {
      DeleteNothing(d, rows[..|rows| - 1]);
      OrSelects(d, [], rows[|rows| - 1]);
    }
  }

  lemma {:induction false} ChunkGrows(d: Dialect, ps: seq<Patch>, p: Patch, t: Table)
    requires ps != [] && WellFormed(ps[0]) && WellFormed(p) && Compat(ps[0], p) && Consistent(t)
    ensures ExecOn(d, ChunkStatement(d, ps + [p]), t) ==
            match ExecOn(d, ChunkStatement(d, ps), t)
            case None => None
            case Some(t') => ExecOn(d, PatchStatement(d, p), t')
  {
    var name := Quote(d, p.table);
    assert InsertedRows(ps + [p]) == InsertedRows(ps) + [p.vals];
    assert CondsOf(d, ps + [p]) == CondsOf(d, ps) + [RowKeyCond(d, p.rowKey)];
    match p.kind
    case PatchInsert => InsertGrows(d, t, name, Quotes(d, p.cols), InsertedRows(ps), p.vals);
    case PatchUpdate =>
      UpdateGrows(d, t, name, Pairs(Quotes(d, p.cols), p.vals), CondsOf(d, ps), RowKeyCond(d, p.rowKey));
    case PatchDelete => DeleteGrows(d, t, name, CondsOf(d, ps), RowKeyCond(d, p.rowKey));
  }

  lemma {:induction false} RunOne(d: Dialect, stmt: Statement, db: Db)
    ensures Run(d, [stmt], db) == Exec(d, stmt, db)
  {
  }

  lemma {:induction false} PatchStatementsConcat(d: Dialect, a: seq<Patch>, b: seq<Patch>)
    requires AllWellFormed(a + b)
    ensures AllWellFormed(a) && AllWellFormed(b)
    ensures PatchStatements(d, a + b) == PatchStatements(d, a) + PatchStatements(d, b)
  {
    hide PatchStatement, WellFormed;
    assert forall i | 0 <= i < |a| :: a[i] == (a + b)[i];
    assert forall i | 0 <= i < |b| :: b[i] == (a + b)[|a| + i];
  }

  lemma {:induction false} ExecNamed(d: Dialect, stmt: Statement, name: string, db: Db)
    requires stmt.table == Quote(d, name)
    ensures Exec(d, stmt, db) == if name in db then Put(db, name, ExecOn(d, stmt, db[name])) else None
  {
    ResolveOfQuote(d, name);
  }

  lemma {:induction false} ChunkGrowsDb(d: Dialect, ps: seq<Patch>, p: Patch, db: Db)
    requires ps != [] && WellFormed(ps[0]) && WellFormed(p) && Compat(ps[0], p) && ConsistentDb(db)
    ensures Exec(d, ChunkStatement(d, ps + [p]), db) ==
            match Exec(d, ChunkStatement(d, ps), db)
            case None => None
            case Some(db') => Exec(d, PatchStatement(d, p), db')
  {
    ExecNamed(d, ChunkStatement(d, ps), p.table, db);
    ExecNamed(d, ChunkStatement(d, ps + [p]), p.table, db);
    if p.table in db {
      ChunkGrows(d, ps, p, db[p.table]);
      match ExecOn(d, ChunkStatement(d, ps), db[p.table])
      case None =>
      case Some(t) =>
        ExecNamed(d, PatchStatement(d, p), p.table, db[p.table := t]);
        hide ExecOn, ChunkStatement, PatchStatement;
        PutTwice(db, p.table, t, ExecOn(d, PatchStatement(d, p), t));
    }
  }

  lemma {:induction false} SingletonMeaning(d: Dialect, p: Patch, db: Db)
    requires WellFormed(p) && ConsistentDb(db)
    ensures Exec(d, ChunkStatement(d, [p]), db) == Exec(d, PatchStatement(d, p), db)
  {
    ExecNamed(d, ChunkStatement(d, [p]), p.table, db);
    ExecNamed(d, PatchStatement(d, p), p.table, db);
    if p.table in db {
      SingletonChunk(d, p, db[p.table]);
    }
  }

  /** A chunk's one statement does what its patches do one after the other, and fails when one of them does. */
  lemma {:induction false} ChunkMeaning(d: Dialect, ps: seq<Patch>, db: Db)
    requires ps != [] && AllWellFormed(ps) && ConsistentDb(db)
    requires forall i | 0 <= i < |ps| :: Compat(ps[0], ps[i])
    ensures Exec(d, ChunkStatement(d, ps), db) == Run(d, PatchStatements(d, ps), db)
  {
    var n := |ps| - 1;
    var p, qs := ps[n], ps[..n];
    assert ps == qs + [p];
    hide Exec, ChunkStatement, PatchStatement, ConsistentDb, Compat, Run;
    PatchStatementsConcat(d, qs, [p]);
    assert PatchStatements(d, [p]) == [PatchStatement(d, p)];
    hide PatchStatements;
    if n == 0 {
      assert ps == [p];
      SingletonMeaning(d, p, db);
      RunOne(d, PatchStatement(d, p), db);
    } else {
      assert qs[0] == ps[0];
      ChunkMeaning(d, qs, db);
      ChunkGrowsDb(d, qs, p, db);
      RunConcat(d, PatchStatements(d, qs), [PatchStatement(d, p)], db);
      match Run(d, PatchStatements(d, qs), db)
      case None =>
      case Some(db') => RunOne(d, PatchStatement(d, p), db');
    }
  }

  lemma {:induction false} PutTwice(db: Db, name: string, t: Table, result: Option<Table>)
    ensures Put(db[name := t], name, result) == Put(db, name, result)
  {
    if result.Some? {
      assert db[name := t][name := result.value] == db[name := result.value];
    }
  }

  // ----- the whole list

  lemma {:induction false} TakeCompat(max: int, ps: seq<Patch>, n: nat)
    requires 0 < n <= |ps| && forall i | 0 <= i < n :: Compat(ps[0], ps[i])
    ensures forall i | 0 <= i < Take(max, ps, n) :: Compat(ps[0], ps[i])
    decreases |ps| - n
  {
    if CanTakeMore(max, n) && n < |ps| && Compat(ps[0], ps[n]) {
      TakeCompat(max, ps, n + 1);
    }
  }

  lemma {:induction false} HeadMeaning(d: Dialect, max: int, ps: seq<Patch>, db: Db)
    requires ps != [] && AllWellFormed(ps) && ConsistentDb(db)
    ensures AllWellFormed(ps[..ChunkLength(max, ps)])
    ensures Run(d, [ChunkStatement(d, ps[..ChunkLength(max, ps)])], db) ==
            Run(d, PatchStatements(d, ps[..ChunkLength(max, ps)]), db)
  {
    TakeCompat(max, ps, 1);
    var head := ps[..ChunkLength(max, ps)];
    ChunkMeaning(d, head, db);
    RunOne(d, ChunkStatement(d, head), db);
  }

  /**
   The main theorem. Whatever the default compiler accepts the bulk compiler accepts, and on every consistent
   database its statements run to completion exactly when the default ones do, ending in the same database.
   */
  lemma {:induction false} BulkPreservesMeaning(d: Dialect, max: int, ps: seq<Patch>, db: Db)
    requires DefaultCompile(d, ps).Ok? && ConsistentDb(db)
    ensures BulkCompile(d, max, ps).Ok?
    ensures Run(d, BulkCompile(d, max, ps).stmts, db) == Run(d, DefaultCompile(d, ps).stmts, db)
    decreases |ps|
  {
    if ps != [] {
      var n := ChunkLength(max, ps);
      var head, tail := ps[..n], ps[n..];
      assert ps == head + tail;
      PatchStatementsConcat(d, head, tail);
      HeadMeaning(d, max, ps, db);
      var one := [ChunkStatement(d, head)];
      hide Run, ChunkLength, ChunkStatement, PatchStatements, ConsistentDb;
      RunConcat(d, PatchStatements(d, head), PatchStatements(d, tail), db);
      BulkPreservesMeaning(d, max, tail, db);
      RunConcat(d, one, BulkCompile(d, max, tail).stmts, db);
      match Run(d, one, db)
      case None =>
      case Some(db') =>
        RunKeepsConsistent(d, one, db);
        BulkPreservesMeaning(d, max, tail, db');
    }
  }
}
