/**
 Statements as the compilers build them, and what a database does with them.

 Identifiers are kept as text and resolved by the dialect when a statement runs.
 A WHERE clause is three-valued (ISO/IEC 9075:1992 section 8.12): it selects a row only when it is true of it.
 */
module Sql {
  import opened Wrappers
  import opened Dialects

  datatype Value = Null | Int(n: int) | Text(s: string)

  /** The squirrel conditions in use: a conjunction of column tests, and a disjunction. */
  datatype Cond = Eq(key: map<string, Value>) | Or(parts: seq<Cond>)

  datatype Assignment = Assign(col: string, val: Value)

  datatype Statement =
    | Insert(table: string, cols: seq<string>, rows: seq<seq<Value>>)
    | Update(table: string, sets: seq<Assignment>, where: Cond)
    | Delete(table: string, where: Cond)

  // ----- three-valued logic

  datatype Truth = True | False | Unknown

  function Or3(a: Truth, b: Truth): Truth {
    if a.True? || b.True? then True else if a.Unknown? || b.Unknown? then Unknown else False
  }

  function And3(a: Truth, b: Truth): Truth {
    if a.False? || b.False? then False else if a.Unknown? || b.Unknown? then Unknown else True
  }

  // ----- rows

  type Row = map<string, Value>

  function At(row: Row, name: string): Value {
    if name in row then row[name] else Null
  }

  /** `column = want`, or `column IS NULL` when no value is wanted. */
  function Test(want: Value, have: Value): Truth {
    if want.Null? then (if have.Null? then True else False)
    else if have.Null? then Unknown
    else if want == have then True else False
  }

  /** The name behind an identifier; statements with an unreadable one never run. */
  function Name(d: Dialect, ident: string): string {
    match Resolve(d, ident)
    case Some(name) => name
    case None => ident
  }

  function TestAt(d: Dialect, key: map<string, Value>, ident: string, row: Row): Truth
    requires ident in key
  {
    Test(key[ident], At(row, Name(d, ident)))
  }

  /** A conjunction does not depend on the order of its tests; without any it is true. */
  function EvalEq(d: Dialect, key: map<string, Value>, row: Row): Truth {
    if exists c | c in key :: TestAt(d, key, c, row).False? then False
    else if exists c | c in key :: TestAt(d, key, c, row).Unknown? then Unknown
    else True
  }

  function Eval(d: Dialect, cond: Cond, row: Row): Truth {
    match cond
    case Eq(key) => EvalEq(d, key, row)
    case Or(parts) => EvalOr(d, parts, row)
  }

  function EvalOr(d: Dialect, parts: seq<Cond>, row: Row): Truth {
    if parts == [] then False
    else Or3(EvalOr(d, parts[..|parts| - 1], row), Eval(d, parts[|parts| - 1], row))
  }

  predicate Selects(d: Dialect, cond: Cond, row: Row) {
    Eval(d, cond, row).True?
  }

  // ----- tables

  /** `required` columns are NOT NULL; each set in `unique` is a uniqueness constraint. */
  datatype Table = Table(columns: set<string>, required: set<string>, unique: seq<set<string>>, rows: seq<Row>)

  type Db = map<string, Table>

  predicate Clash(names: set<string>, r: Row, s: Row) {
    forall c | c in names :: At(r, c) == At(s, c) && !At(r, c).Null?
  }

  predicate NotNull(required: set<string>, rows: seq<Row>) {
    forall i, c | 0 <= i < |rows| && c in required :: !At(rows[i], c).Null?
  }

  predicate Unique(unique: seq<set<string>>, rows: seq<Row>) {
    forall u, i, j | 0 <= u < |unique| && 0 <= i < j < |rows| :: !Clash(unique[u], rows[i], rows[j])
  }

  predicate Consistent(t: Table) {
    NotNull(t.required, t.rows) && Unique(t.unique, t.rows)
  }

  ghost predicate ConsistentDb(db: Db) {
    forall name | name in db :: Consistent(db[name])
  }

  // ----- running a statement

  predicate Known(d: Dialect, t: Table, ident: string) {
    Resolve(d, ident).Some? && Resolve(d, ident).value in t.columns
  }

  predicate KnownAll(d: Dialect, t: Table, idents: seq<string>) {
    && idents != []
    && (forall i | 0 <= i < |idents| :: Known(d, t, idents[i]))
    && (forall i, j | 0 <= i < j < |idents| :: Name(d, idents[i]) != Name(d, idents[j]))
  }

  predicate KnownCond(d: Dialect, t: Table, cond: Cond) {
    match cond
    case Eq(key) => forall c | c in key :: Known(d, t, c)
    case Or(parts) => forall i | 0 <= i < |parts| :: KnownCond(d, t, parts[i])
  }

  function Targets(sets: seq<Assignment>): seq<string> {
    seq(|sets|, i requires 0 <= i < |sets| => sets[i].col)
  }

  function Pairs(cols: seq<string>, vals: seq<Value>): seq<Assignment>
    requires |cols| == |vals|
  {
    seq(|cols|, i requires 0 <= i < |cols| => Assign(cols[i], vals[i]))
  }

  /** The value `sets` gives to a column. */
  function Assigned(d: Dialect, sets: seq<Assignment>, name: string): Option<Value> {
    if sets == [] then None
    else if Name(d, sets[|sets| - 1].col) == name then Some(sets[|sets| - 1].val)
    else Assigned(d, sets[..|sets| - 1], name)
  }

  function Names(d: Dialect, sets: seq<Assignment>): set<string> {
    set i | 0 <= i < |sets| :: Name(d, sets[i].col)
  }

  function Overwrite(d: Dialect, sets: seq<Assignment>, row: Row): Row {
    map c | c in row.Keys + Names(d, sets) :: match Assigned(d, sets, c) case Some(v) => v case None => At(row, c)
  }

  /** Columns an INSERT does not name are NULL. */
  function NewRow(d: Dialect, t: Table, cols: seq<string>, vals: seq<Value>): Row
    requires |cols| == |vals|
  {
    Overwrite(d, Pairs(cols, vals), map c | c in t.columns :: Null)
  }

  function NewRows(d: Dialect, t: Table, cols: seq<string>, rows: seq<seq<Value>>): seq<Row>
    requires forall i | 0 <= i < |rows| :: |rows[i]| == |cols|
  {
    seq(|rows|, i requires 0 <= i < |rows| => NewRow(d, t, cols, rows[i]))
  }

  function UpdateRow(d: Dialect, sets: seq<Assignment>, where: Cond, row: Row): Row {
    if Selects(d, where, row) then Overwrite(d, sets, row) else row
  }

  function UpdateRows(d: Dialect, sets: seq<Assignment>, where: Cond, rows: seq<Row>): seq<Row> {
    seq(|rows|, i requires 0 <= i < |rows| => UpdateRow(d, sets, where, rows[i]))
  }

  function DeleteRows(d: Dialect, where: Cond, rows: seq<Row>): seq<Row> {
    if rows == [] then []
    else
      var n := |rows| - 1;
      DeleteRows(d, where, rows[..n]) + if Selects(d, where, rows[n]) then [] else [rows[n]]
  }

  function SelectRows(d: Dialect, where: Cond, rows: seq<Row>): seq<Row> {
    if rows == [] then []
    else
      var n := |rows| - 1;
      SelectRows(d, where, rows[..n]) + if Selects(d, where, rows[n]) then [rows[n]] else []
  }

  /** What the statement asks of the table it names: readable, known, distinct columns and full rows. */
  predicate Accepts(d: Dialect, stmt: Statement, t: Table) {
    match stmt
    case Insert(_, cols, rows) => KnownAll(d, t, cols) && forall i | 0 <= i < |rows| :: |rows[i]| == |cols|
    case Update(_, sets, where) => KnownAll(d, t, Targets(sets)) && KnownCond(d, t, where)
    case Delete(_, where) => KnownCond(d, t, where)
  }

  function RowsAfter(d: Dialect, stmt: Statement, t: Table): seq<Row>
    requires Accepts(d, stmt, t)
  {
    match stmt
    case Insert(_, cols, rows) => t.rows + NewRows(d, t, cols, rows)
    case Update(_, sets, where) => UpdateRows(d, sets, where, t.rows)
    case Delete(_, where) => DeleteRows(d, where, t.rows)
  }

  /** Constraints are checked once, at the end of the statement. None: the statement fails. */
  function ExecOn(d: Dialect, stmt: Statement, t: Table): Option<Table> {
    if !Accepts(d, stmt, t) then None
    else
      var t' := t.(rows := RowsAfter(d, stmt, t));
      if Consistent(t') then Some(t') else None
  }

  function Exec(d: Dialect, stmt: Statement, db: Db): Option<Db> {
    match Resolve(d, stmt.table)
    case None => None
    case Some(name) => if name in db then Put(db, name, ExecOn(d, stmt, db[name])) else None
  }

  function Put(db: Db, name: string, result: Option<Table>): Option<Db> {
    match result
    case None => None
    case Some(t) => Some(db[name := t])
  }

  /** All of `stmts` in order; None when one of them fails. */
  function Run(d: Dialect, stmts: seq<Statement>, db: Db): Option<Db> {
    if stmts == [] then Some(db)
    else
      match Run(d, stmts[..|stmts| - 1], db)
      case None => None
      case Some(db') => Exec(d, stmts[|stmts| - 1], db')
  }

  lemma {:induction false} RunConcat(d: Dialect, a: seq<Statement>, b: seq<Statement>, db: Db)
    ensures Run(d, a + b, db) == match Run(d, a, db) case None => None case Some(db') => Run(d, b, db')
  {
    if b == [] {
      assert a + b == a;
    } else {
      RunConcat(d, a, b[..|b| - 1], db);
      assert (a + b)[..|a + b| - 1] == a + b[..|b| - 1];
    }
  }

  lemma {:induction false} RunKeepsConsistent(d: Dialect, stmts: seq<Statement>, db: Db)
    requires ConsistentDb(db)
    ensures Run(d, stmts, db).Some? ==> ConsistentDb(Run(d, stmts, db).value)
  {
    if stmts != [] {
      RunKeepsConsistent(d, stmts[..|stmts| - 1], db);
    }
  }

  // ----- laws of the semantics

  /** Folding the tests with a three-valued AND, in any order of the columns. */
  function FoldTests(d: Dialect, key: map<string, Value>, order: seq<string>, row: Row): Truth
    requires forall c | c in order :: c in key
  {
    if order == [] then True else And3(TestAt(d, key, order[0], row), FoldTests(d, key, order[1..], row))
  }

  lemma {:induction false} FoldTestsMeaning(d: Dialect, key: map<string, Value>, order: seq<string>, row: Row)
    requires forall c | c in order :: c in key
    ensures FoldTests(d, key, order, row) ==
            if exists c | c in order :: TestAt(d, key, c, row).False? then False
            else if exists c | c in order :: TestAt(d, key, c, row).Unknown? then Unknown
            else True
  {
    if order != [] {
      FoldTestsMeaning(d, key, order[1..], row);
      assert forall c :: c in order <==> c == order[0] || c in order[1..];
    }
  }

  /** A row key means the AND of its tests, whichever way its map is iterated. */
  lemma {:induction false} ConjunctionInAnyOrder(d: Dialect, key: map<string, Value>, order: seq<string>, row: Row)
    requires forall c :: c in order <==> c in key
    ensures Eval(d, Eq(key), row) == FoldTests(d, key, order, row)
  {
    FoldTestsMeaning(d, key, order, row);
  }

  /** A row key selects exactly the rows that hold its values, NULL included. */
  lemma {:induction false} EqSelects(d: Dialect, key: map<string, Value>, row: Row)
    ensures Selects(d, Eq(key), row) <==> forall c | c in key :: At(row, Name(d, c)) == key[c]
  {
  }

  lemma {:induction false} EvalOrIsTrue(d: Dialect, parts: seq<Cond>, row: Row)
    ensures EvalOr(d, parts, row).True? <==> exists i | 0 <= i < |parts| :: Eval(d, parts[i], row).True?
  {
    if parts != [] {
      var n := |parts| - 1;
      EvalOrIsTrue(d, parts[..n], row);
      assert forall i | 0 <= i < n :: parts[..n][i] == parts[i];
      if EvalOr(d, parts[..n], row).True? {
        var i :| 0 <= i < n && Eval(d, parts[..n][i], row).True?;
        assert Eval(d, parts[i], row).True?;
      }
      if i :| 0 <= i < n && Eval(d, parts[i], row).True? {
        assert Eval(d, parts[..n][i], row).True?;
      }
    }
  }

  /**
   An OR selects what one of its parts selects; a part that is unknown of a row does not keep another from being true.
   */
  lemma {:induction false} OrSelects(d: Dialect, parts: seq<Cond>, row: Row)
    ensures Selects(d, Or(parts), row) <==> exists i | 0 <= i < |parts| :: Selects(d, parts[i], row)
  {
    EvalOrIsTrue(d, parts, row);
    assert Eval(d, Or(parts), row) == EvalOr(d, parts, row);
    assert forall i | 0 <= i < |parts| :: Selects(d, parts[i], row) <==> Eval(d, parts[i], row).True?;
  }
}
