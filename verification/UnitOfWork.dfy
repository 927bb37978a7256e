/** The unit of work: a context buffers patches, compiles them once, and runs them, perhaps inside a transaction. */
module UnitOfWork {
  import opened Wrappers
  import opened Dialects
  import opened Sql
  import opened RowKeys
  import opened Compile
  import opened BulkMeaning
  import opened Chunking
  import opened PatchLists
  import opened Compilers

  // ----- what patches mean, without any compiler or dialect

  function ApplyPatch(p: Patch, db: Db): Option<Db> {
    if WellFormed(p) then Exec(Plain, PatchStatement(Plain, p), db) else None
  }

  /** All patches, one at a time, in order. */
  function ApplyAll(ps: seq<Patch>, db: Db): Option<Db> {
    if ps == [] then Some(db)
    else
      match ApplyAll(ps[..|ps| - 1], db)
      case None => None
      case Some(db') => ApplyPatch(ps[|ps| - 1], db')
  }

  lemma {:induction false} QuotedColumns(d: Dialect, t: Table, cols: seq<string>)
    ensures KnownAll(d, t, Quotes(d, cols)) == KnownAll(Plain, t, Quotes(Plain, cols))
    ensures forall i | 0 <= i < |cols| :: Name(d, Quotes(d, cols)[i]) == cols[i] == Name(Plain, Quotes(Plain, cols)[i])
  {
    var a, b := Quotes(d, cols), Quotes(Plain, cols);
    forall i | 0 <= i < |cols|
      ensures Resolve(d, a[i]) == Some(cols[i]) == Resolve(Plain, b[i])
    {
      ResolveOfQuote(d, cols[i]);
      ResolveOfQuote(Plain, cols[i]);
    }
    assert forall i | 0 <= i < |cols| :: Known(d, t, a[i]) == Known(Plain, t, b[i]);
  }

  lemma {:induction false} QuotedAssigned(d: Dialect, cols: seq<string>, vals: seq<Value>, name: string)
    requires |cols| == |vals|
    ensures Assigned(d, Pairs(Quotes(d, cols), vals), name) == Assigned(Plain, Pairs(Quotes(Plain, cols), vals), name)
  {
    if cols != [] {
      var n := |cols| - 1;
      QuotedAssigned(d, cols[..n], vals[..n], name);
      ResolveOfQuote(d, cols[n]);
      ResolveOfQuote(Plain, cols[n]);
      assert Pairs(Quotes(d, cols), vals)[..n] == Pairs(Quotes(d, cols[..n]), vals[..n]);
      assert Pairs(Quotes(Plain, cols), vals)[..n] == Pairs(Quotes(Plain, cols[..n]), vals[..n]);
    }
  }

  lemma {:induction false} QuotedOverwrite(d: Dialect, cols: seq<string>, vals: seq<Value>, row: Row)
    requires |cols| == |vals|
    ensures Overwrite(d, Pairs(Quotes(d, cols), vals), row) == Overwrite(Plain, Pairs(Quotes(Plain, cols), vals), row)
  {
    var a, b := Pairs(Quotes(d, cols), vals), Pairs(Quotes(Plain, cols), vals);
    forall name
      ensures Assigned(d, a, name) == Assigned(Plain, b, name)
      ensures name in Names(d, a) <==> name in Names(Plain, b)
    {
      QuotedAssigned(d, cols, vals, name);
      AssignedIsNamed(d, a, name);
      AssignedIsNamed(Plain, b, name);
    }
    assert Names(d, a) == Names(Plain, b);
  }

  lemma {:induction false} QuotedCond(d: Dialect, t: Table, rowKey: Option<RowKey>, row: Row)
    ensures KnownCond(d, t, RowKeyCond(d, rowKey)) == KnownCond(Plain, t, RowKeyCond(Plain, rowKey))
    ensures Selects(d, RowKeyCond(d, rowKey), row) == Selects(Plain, RowKeyCond(Plain, rowKey), row)
  {
    if rowKey.None? {
      EqSelects(d, map[], row);
      EqSelects(Plain, map[], row);
    } else {
      var key := rowKey.value.key;
      QuotingKeepsMeaning(d, key, row);
      QuotedPlain(key);
      forall c | c in key
        ensures Known(d, t, Quote(d, c)) == Known(Plain, t, c)
      {
        ResolveOfQuote(d, c);
      }
    }
  }

  lemma {:induction false} QuotedDelete(d: Dialect, t: Table, rowKey: Option<RowKey>, rows: seq<Row>)
    ensures DeleteRows(d, RowKeyCond(d, rowKey), rows) == DeleteRows(Plain, RowKeyCond(Plain, rowKey), rows)
  {
    if rows != [] {
      QuotedDelete(d, t, rowKey, rows[..|rows| - 1]);
      QuotedCond(d, t, rowKey, rows[|rows| - 1]);
    }
  }

  lemma {:induction false} QuotedInsert(d: Dialect, p: Patch, t: Table)
    requires WellFormed(p) && p.kind.PatchInsert?
    ensures ExecOn(d, PatchStatement(d, p), t) == ExecOn(Plain, PatchStatement(Plain, p), t)
  {
    QuotedColumns(d, t, p.cols);
    QuotedOverwrite(d, p.cols, p.vals, map c | c in t.columns :: Null);
    var a, b := PatchStatement(d, p), PatchStatement(Plain, p);
    assert Accepts(d, a, t) == Accepts(Plain, b, t);
    if Accepts(d, a, t) {
      assert RowsAfter(d, a, t) == RowsAfter(Plain, b, t);
    }
  }

  lemma {:induction false} QuotedUpdateRows(d: Dialect, p: Patch, t: Table)
    requires WellFormed(p)
    ensures UpdateRows(d, Pairs(Quotes(d, p.cols), p.vals), RowKeyCond(d, p.rowKey), t.rows)
         == UpdateRows(Plain, Pairs(Quotes(Plain, p.cols), p.vals), RowKeyCond(Plain, p.rowKey), t.rows)
  {
    forall i | 0 <= i < |t.rows|
      ensures UpdateRow(d, Pairs(Quotes(d, p.cols), p.vals), RowKeyCond(d, p.rowKey), t.rows[i])
           == UpdateRow(Plain, Pairs(Quotes(Plain, p.cols), p.vals), RowKeyCond(Plain, p.rowKey), t.rows[i])
    {
      QuotedOverwrite(d, p.cols, p.vals, t.rows[i]);
      QuotedCond(d, t, p.rowKey, t.rows[i]);
    }
  }

  lemma {:induction false} QuotedUpdate(d: Dialect, p: Patch, t: Table)
    requires WellFormed(p) && p.kind.PatchUpdate?
    ensures ExecOn(d, PatchStatement(d, p), t) == ExecOn(Plain, PatchStatement(Plain, p), t)
  {
    var a, b := PatchStatement(d, p), PatchStatement(Plain, p);
    assert Accepts(d, a, t) == Accepts(Plain, b, t) by {
      assert Targets(a.sets) == Quotes(d, p.cols) && Targets(b.sets) == Quotes(Plain, p.cols);
      QuotedColumns(d, t, p.cols);
      QuotedCond(d, t, p.rowKey, map[]);
    }
    QuotedUpdateRows(d, p, t);
  }

  lemma {:induction false} QuotedDeletes(d: Dialect, p: Patch, t: Table)
    requires WellFormed(p) && p.kind.PatchDelete?
    ensures ExecOn(d, PatchStatement(d, p), t) == ExecOn(Plain, PatchStatement(Plain, p), t)
  {
    QuotedCond(d, t, p.rowKey, map[]);
    QuotedDelete(d, t, p.rowKey, t.rows);
    hide RowKeyCond, DeleteRows, KnownCond, Selects, Consistent, Quotes, Quote;
  }

  lemma {:induction false} QuotedExecOn(d: Dialect, p: Patch, t: Table)
    requires WellFormed(p)
    ensures ExecOn(d, PatchStatement(d, p), t) == ExecOn(Plain, PatchStatement(Plain, p), t)
  {
    hide ExecOn, PatchStatement;
    match p.kind
    case PatchInsert => QuotedInsert(d, p, t);
    case PatchUpdate => QuotedUpdate(d, p, t);
    case PatchDelete => QuotedDeletes(d, p, t);
  }

  /** A dialect changes the text of the statements, never what they do. */
  lemma {:induction false} DialectKeepsMeaning(d: Dialect, ps: seq<Patch>, db: Db)
    requires AllWellFormed(ps)
    ensures Run(d, PatchStatements(d, ps), db) == ApplyAll(ps, db)
  {
    if ps != [] {
      var n := |ps| - 1;
      DialectKeepsMeaning(d, ps[..n], db);
      assert PatchStatements(d, ps)[..n] == PatchStatements(d, ps[..n]);
      ResolveOfQuote(d, ps[n].table);
      ResolveOfQuote(Plain, ps[n].table);
      match ApplyAll(ps[..n], db)
      case None =>
      case Some(db') =>
        if ps[n].table in db' {
          QuotedExecOn(d, ps[n], db'[ps[n].table]);
        }
    }
  }

  // ----- the compiler of a context

  datatype CompilerChoice = NoCompiler | DefaultCompiler | BulkCompiler(maxPatches: int)

  function CompileWith(c: CompilerChoice, d: Dialect, ps: seq<Patch>): Compiled {
    match c
    case BulkCompiler(max) => BulkCompile(d, max, ps)
    case _ => DefaultCompile(d, ps)
  }

  /** What a compiler may return: for row keys that are not clean its conditions are not fixed. */
  ghost predicate CompilesWith(c: CompilerChoice, d: Dialect, ps: seq<Patch>, r: Compiled) {
    match c
    case BulkCompiler(max) => BulkCompiles(d, max, ps, r)
    case _ => DefaultCompiles(d, ps, r)
  }

  lemma {:induction false} CompiledWith(c: CompilerChoice, d: Dialect, ps: seq<Patch>, r: Compiled)
    requires CompilesWith(c, d, ps, r)
    ensures r.Panic? <==> CompileWith(c, d, ps).Panic?
    ensures CleanKeys(d, ps) ==> r == CompileWith(c, d, ps)
  {
    hide BulkCompiles, DefaultCompiles, BulkCompile, DefaultCompile, CleanKeys;
    var max := if c.BulkCompiler? then c.maxPatches else 0;
    PanicsFixed(d, max, ps, r);
    if CleanKeys(d, ps) {
      CleanlyCompiled(d, max, ps, r);
    }
  }

  /** A context without a compiler emits a statement for each patch, and panics at any patch that is malformed. */
  lemma {:induction false} WithoutCompiler(d: Dialect, ps: seq<Patch>, r: Compiled)
    requires CompilesWith(NoCompiler, d, ps, r)
    ensures r.Panic? <==> exists i | 0 <= i < |ps| :: |ps[i].cols| != |ps[i].vals| || ps[i].kind.OtherKind?
    ensures r.Ok? ==>
              && |r.stmts| == |ps|
              && forall i | 0 <= i < |ps| ::
                   && (r.stmts[i].Insert? <==> ps[i].kind.PatchInsert?)
                   && (r.stmts[i].Update? <==> ps[i].kind.PatchUpdate?)
                   && r.stmts[i].table == Quote(d, ps[i].table)
                   && (r.stmts[i].Insert? ==> |r.stmts[i].rows| == 1) && (!r.stmts[i].Insert? ==> r.stmts[i].where.Eq?)
  {
    if r.Ok? {
      forall i | 0 <= i < |ps|
        ensures IsPatchStatement(d, ps[i], r.stmts[i])
      {
      }
    } else {
      var i :| 0 <= i < |ps| && !WellFormed(ps[i]);
    }
  }

  /** Either compiler's statements do what the patches do one at a time. */
  lemma {:induction false} CompiledMeaning(c: CompilerChoice, d: Dialect, ps: seq<Patch>, db: Db)
    requires AllWellFormed(ps) && ConsistentDb(db)
    ensures CompileWith(c, d, ps).Ok? && Run(d, CompileWith(c, d, ps).stmts, db) == ApplyAll(ps, db)
  {
    DialectKeepsMeaning(d, ps, db);
    if c.BulkCompiler? {
      BulkPreservesMeaning(d, c.maxPatches, ps, db);
    }
  }

  // ----- running statements up to a failure

  /** `done` statements ran, which left `db`. */
  datatype Progress = Progress(done: nat, db: Db)

  /**
   The run stops at the first statement that fails, be it by itself or because the driver gives up at number `fault`.
   */
  function RunUntil(d: Dialect, stmts: seq<Statement>, db: Db, fault: int): Progress {
    if stmts == [] then Progress(0, db)
    else
      var n := |stmts| - 1;
      var before := RunUntil(d, stmts[..n], db, fault);
      if before.done < n || fault == n then before
      else
        match Exec(d, stmts[n], before.db)
        case None => before
        case Some(db') => Progress(n + 1, db')
  }

  /** What ran is a prefix of the statements, and the one after it is the one that failed. */
  lemma {:induction false} RunsAPrefix(d: Dialect, stmts: seq<Statement>, db: Db, fault: int)
    ensures var p := RunUntil(d, stmts, db, fault);
            && p.done <= |stmts| && Run(d, stmts[..p.done], db) == Some(p.db)
            && (p.done < |stmts| ==> fault == p.done || Exec(d, stmts[p.done], p.db).None?)
            && (0 <= fault < |stmts| ==> p.done <= fault)
  {
    hide Exec;
    if stmts != [] {
      var n := |stmts| - 1;
      RunsAPrefix(d, stmts[..n], db, fault);
      var p, before := RunUntil(d, stmts, db, fault), RunUntil(d, stmts[..n], db, fault);
      assert stmts[..n][..before.done] == stmts[..before.done];
      if p.done == n + 1 {
        assert stmts[..n + 1] == stmts && stmts[..before.done] == stmts[..n];
      }
    }
  }

  /** Without a driver fault, all statements run exactly when `Run` succeeds. */
  lemma {:induction false} RunUntilTheEnd(d: Dialect, stmts: seq<Statement>, db: Db, fault: int)
    ensures var p := RunUntil(d, stmts, db, fault);
            p.done == |stmts| <==> Run(d, stmts, db).Some? && !(0 <= fault < |stmts|)
    ensures var p := RunUntil(d, stmts, db, fault); p.done == |stmts| ==> Run(d, stmts, db) == Some(p.db)
  {
    if stmts != [] {
      RunsAPrefix(d, stmts[..|stmts| - 1], db, fault);
      RunUntilTheEnd(d, stmts[..|stmts| - 1], db, fault);
    }
  }

  // ----- connections and transactions

  class Conn {
    var data: Db

    constructor (data: Db)
      ensures this.data == data
    {
      this.data := data;
    }
  }

  class Tx {
    const conn: Conn
    var work: Db
    var done: bool

    constructor Begin(conn: Conn)
      ensures this.conn == conn && work == conn.data && !done
    {
      this.conn, work, done := conn, conn.data, false;
    }

    /** `accepted` is the database's answer; either way the transaction is over. */
    method Commit(accepted: bool) returns (ok: bool)
      modifies this, conn
      ensures done && ok == (accepted && !old(done)) && work == old(work)
      ensures conn.data == if ok then work else old(conn.data)
    {
      ok := accepted && !done;
      if ok {
        conn.data := work;
      }
      done := true;
    }

    /** Has no effect on a transaction that is over. */
    method Rollback()
      modifies this`done
      ensures done
    {
      done := true;
    }
  }

  datatype Runner = OnDb(conn: Conn) | OnTx(tx: Tx)

  datatype Outcome = Saved | Failed | Panicking

  // ----- the context

  class DBContext {
    const dialect: Dialect
    const compiler: CompilerChoice
    const runner: Runner
    const patchBuffer: PatchList
    ghost var added: seq<Patch>     // every patch ever buffered here
    ghost var compiled: seq<Patch>  // every patch handed to a compiler

    /** Each buffered patch has been compiled once, or is still in the buffer, in order. */
    ghost predicate Valid()
      reads this, patchBuffer, patchBuffer.root, patchBuffer.elems
    {
      patchBuffer.Valid() && added == compiled + patchBuffer.values
    }

    constructor (dialect: Dialect, compiler: CompilerChoice, runner: Runner)
      ensures Valid() && added == [] && compiled == []
      ensures fresh(patchBuffer) && fresh(patchBuffer.root) && patchBuffer.elems == []
      ensures this.dialect == dialect && this.compiler == compiler && this.runner == runner
    {
      this.dialect, this.compiler, this.runner := dialect, compiler, runner;
      patchBuffer := new PatchList();
      added, compiled := [], [];
    }

    function Database(): Db
      reads if runner.OnTx? then {runner.tx} else {runner.conn}
    {
      if runner.OnTx? then runner.tx.work else runner.conn.data
    }

    /** Whether statements can still run. */
    predicate IsOpen()
      reads if runner.OnTx? then {runner.tx} else {}
    {
      runner.OnTx? ==> !runner.tx.done
    }

    method AddPatch(v: Patch)
      requires Valid()
      modifies this`added, patchBuffer, patchBuffer.root, patchBuffer.elems
      ensures Valid() && added == old(added) + [v] && compiled == old(compiled)
      ensures patchBuffer.values == old(patchBuffer.values) + [v]
    {
      patchBuffer.PushBack(v);
      added := added + [v];
    }

    method CompilePatch() returns (r: Compiled)
      requires Valid()
      modifies this`compiled, patchBuffer, patchBuffer.root
      ensures Valid() && patchBuffer.values == [] && patchBuffer.elems == []
      ensures added == old(added) && compiled == old(compiled) + old(patchBuffer.values)
      ensures CompilesWith(compiler, dialect, old(patchBuffer.values), r)
    {
      ghost var elems, ps := patchBuffer.elems, patchBuffer.values;
      var patches := Drain(patchBuffer);
      compiled := compiled + ps;
      match compiler
      case BulkCompiler(max) => r := CompileBulk(dialect, max, patches, patchBuffer, elems, ps);
      case _ => r := CompileDefault(dialect, patches, patchBuffer, elems, ps);
    }

    method ExecStatement(stmt: Statement, fault: bool) returns (ok: bool)
      modifies if runner.OnTx? then {runner.tx as object} else {runner.conn as object}
      ensures IsOpen() == old(IsOpen())
      ensures var result := Exec(dialect, stmt, old(Database()));
              && ok == (IsOpen() && !fault && result.Some?)
              && Database() == if ok then result.value else old(Database())
    {
      ok := false;
      match runner
      case OnDb(conn) =>
        var result := Exec(dialect, stmt, conn.data);
        if !fault && result.Some? {
          conn.data, ok := result.value, true;
        }
      case OnTx(tx) =>
        var result := Exec(dialect, stmt, tx.work);
        if !tx.done && !fault && result.Some? {
          tx.work, ok := result.value, true;
        }
    }

    /**
     Runs statements until one fails; `fault` is the number of the one at which the driver gives up, if there is one.
     On a finished transaction that is the first.
     */
    method ExecAll(stmts: seq<Statement>, fault: int) returns (ok: bool)
      modifies if runner.OnTx? then {runner.tx as object} else {runner.conn as object}
      ensures IsOpen() == old(IsOpen())
      ensures var p := RunUntil(dialect, stmts, old(Database()), if IsOpen() then fault else 0);
              Database() == p.db && ok == (p.done == |stmts|)
    {
      hide Exec;
      ghost var db := Database();
      ghost var stop := if IsOpen() then fault else 0;
      for i := 0 to |stmts|
        invariant IsOpen() == old(IsOpen())
        invariant RunUntil(dialect, stmts[..i], db, stop) == Progress(i, Database())
      {
        RunUntilTheEnd(dialect, stmts[..i], db, stop);
        ok := ExecStatement(stmts[i], fault == i);
        assert stmts[..i + 1][..i] == stmts[..i];
        if !ok {
          StopsHere(dialect, stmts, db, stop, i + 1);
          return false;
        }
      }
      assert stmts[..|stmts|] == stmts;
      return true;
    }

    /** Compiles the buffered patches and runs them. */
    method SaveChanges(fault: int) returns (outcome: Outcome, ghost stmts: seq<Statement>)
      requires Valid()
      modifies this`compiled, patchBuffer, patchBuffer.root,
               if runner.OnTx? then {runner.tx as object} else {runner.conn as object}
      ensures Valid() && patchBuffer.values == []
      ensures added == old(added) && compiled == old(compiled) + old(patchBuffer.values)
      ensures IsOpen() == old(IsOpen())
      ensures CompilesWith(compiler, dialect, old(patchBuffer.values), if outcome.Panicking? then Panic else Ok(stmts))
      ensures outcome.Panicking? ==> Database() == old(Database())
      ensures !outcome.Panicking? ==>
                var p := RunUntil(dialect, stmts, old(Database()), if IsOpen() then fault else 0);
                Database() == p.db && (outcome.Saved? <==> p.done == |stmts|)
    {
      hide CompilesWith;
      var r := CompilePatch();
      if r.Panic? {
        return Panicking, [];
      }
      stmts := r.stmts;
      var ok := ExecAll(r.stmts, fault);
      outcome := if ok then Saved else Failed;
    }

    /** A clone on the transaction, with its own copy of the buffer. */
    method UseTx(tx: Tx) returns (clone: DBContext)
      requires Valid()
      ensures Valid() && added == old(added) && compiled == old(compiled)
      ensures fresh(clone) && fresh(clone.patchBuffer) && fresh(clone.patchBuffer.root)
      ensures clone.Valid() && clone.runner == OnTx(tx) && clone.dialect == dialect && clone.compiler == compiler
      ensures clone.patchBuffer.values == patchBuffer.values && clone.compiled == []
    {
      clone := new DBContext(dialect, compiler, OnTx(tx));
      clone.patchBuffer.PushBackList(patchBuffer);
      clone.added := patchBuffer.values;
    }
  }

  /** Once stopped, the run stays stopped. */
  lemma {:induction false} StopsHere(d: Dialect, stmts: seq<Statement>, db: Db, fault: int, n: nat)
    requires 0 < n <= |stmts| && RunUntil(d, stmts[..n], db, fault).done < n
    ensures RunUntil(d, stmts, db, fault) == RunUntil(d, stmts[..n], db, fault)
    decreases |stmts|
  {
    if n == |stmts| {
      assert stmts[..n] == stmts;
    } else {
      var m := |stmts| - 1;
      assert stmts[..m][..n] == stmts[..n];
      StopsHere(d, stmts[..m], db, fault, n);
    }
  }

  // ----- transaction scope

  /** How the function of a scope ends. */
  datatype Ending = Returns(failed: bool) | Panics

  /** Whether the function itself ends the transaction. */
  datatype Closing = LeavesOpen | Commits(accepted: bool) | RollsBack

  datatype Effect = Effect(work: Db, closing: Closing, ending: Ending)

  /** What the scope does once its function is over; `accepted` is the database's answer to the commit. */
  method EndScope(tx: Tx, ending: Ending, accepted: bool) returns (outcome: Outcome)
    modifies tx, tx.conn
    ensures tx.done && tx.work == old(tx.work)
    ensures outcome.Saved? <==> ending == Returns(false) && accepted && !old(tx.done)
    ensures outcome.Panicking? <==> ending.Panics?
    ensures tx.conn.data == if outcome.Saved? then tx.work else old(tx.conn.data)
  {
    match ending
    case Panics =>
      tx.Rollback();
      return Panicking;
    case Returns(failed) =>
      var ok := false;
      if !failed {
        ok := tx.Commit(accepted);
      }
      tx.Rollback();
      return if ok then Saved else Failed;
  }

  /** The scope with a function given by what it does to the transaction. */
  method TxScope(tx: Tx, beginFailed: bool, fn: Db -> Effect, accepted: bool) returns (outcome: Outcome)
    requires !beginFailed ==> !tx.done && tx.work == tx.conn.data
    modifies tx, tx.conn
    ensures !beginFailed ==> tx.done
    ensures var effect := fn(old(tx.conn.data));
            && (outcome.Saved? <==>
                  !beginFailed && effect.ending == Returns(false) && effect.closing.LeavesOpen? && accepted)
            && (outcome.Panicking? <==> !beginFailed && effect.ending.Panics?)
            && tx.conn.data == if outcome.Saved? || (!beginFailed && effect.closing == Commits(true))
                               then effect.work else old(tx.conn.data)
  {
    if beginFailed {
      return Failed;
    }
    var effect := fn(tx.work);
    tx.work := effect.work;
    match effect.closing {
      case LeavesOpen =>
      case Commits(answer) => var _ := tx.Commit(answer);
      case RollsBack => tx.Rollback();
    }
    outcome := EndScope(tx, effect.ending, accepted);
  }

  /**
   Saving a context's patches inside a scope: either every compiled statement has run, or nothing has changed. For
   well-formed patches with clean row keys that is all of them, one at a time in order, or nothing.
   */
  method SaveInTx(dbc: DBContext, tx: Tx, beginFailed: bool, fault: int, accepted: bool)
      returns (outcome: Outcome, ghost stmts: seq<Statement>)
    requires dbc.Valid()
    requires !beginFailed ==> !tx.done && tx.work == tx.conn.data
    modifies tx, tx.conn
    ensures !beginFailed ==> tx.done
    ensures outcome.Panicking? <==>
            !beginFailed && CompileWith(dbc.compiler, dbc.dialect, dbc.patchBuffer.values).Panic?
    ensures !beginFailed && !outcome.Panicking? ==>
              && CompilesWith(dbc.compiler, dbc.dialect, dbc.patchBuffer.values, Ok(stmts))
              && (outcome.Saved? <==> && accepted && !(0 <= fault < |stmts|)
                                      && Run(dbc.dialect, stmts, old(tx.conn.data)).Some?)
    ensures if outcome.Saved? then Run(dbc.dialect, stmts, old(tx.conn.data)) == Some(tx.conn.data)
            else tx.conn.data == old(tx.conn.data)
    ensures AllWellFormed(dbc.patchBuffer.values) && CleanKeys(dbc.dialect, dbc.patchBuffer.values)
            && ConsistentDb(old(tx.conn.data)) && !beginFailed ==>
              && !outcome.Panicking?
              && Run(dbc.dialect, stmts, old(tx.conn.data)) == ApplyAll(dbc.patchBuffer.values, old(tx.conn.data))
  {
    hide CompileWith, CompilesWith, ApplyAll, Run, RunUntil, ConsistentDb, CleanKeys, AllWellFormed;
    ghost var ps, db := dbc.patchBuffer.values, tx.conn.data;
    stmts := [];
    if AllWellFormed(ps) && ConsistentDb(db) {
      CompiledMeaning(dbc.compiler, dbc.dialect, ps, db);
    }
    if beginFailed {
      return Failed, stmts;
    }
    var txc := dbc.UseTx(tx);
    outcome, stmts := txc.SaveChanges(fault);
    CompiledWith(dbc.compiler, dbc.dialect, ps, if outcome.Panicking? then Panic else Ok(stmts));
    RunUntilTheEnd(dbc.dialect, stmts, db, fault);
    outcome := EndScope(tx, if outcome.Panicking? then Panics else Returns(outcome.Failed?), accepted);
  }
}
