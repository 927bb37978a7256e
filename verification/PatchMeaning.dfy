/** What a patch does to the table it names, told without statements, conditions, dialects or compilers. */
module PatchMeaning {
  import opened Wrappers
  import opened Strings
  import opened Dialects
  import opened Sql
  import opened RowKeys
  import opened Compile
  import opened BulkMeaning
  import opened UnitOfWork

  /** The row holds the values of the row key; without a row key every row does. */
  predicate Hit(p: Patch, row: Row) {
    p.rowKey.Some? ==> forall c | c in p.rowKey.value.key :: At(row, c) == p.rowKey.value.key[c]
  }

  /** The values written into the row, one column after the other. */
  function PutAll(cols: seq<string>, vals: seq<Value>, row: Row): Row
    requires |cols| == |vals|
  {
    if cols == [] then row
    else var n := |cols| - 1; PutAll(cols[..n], vals[..n], row)[cols[n] := vals[n]]
  }

  /** The rows that are not hit, in order. */
  function Missed(p: Patch, rows: seq<Row>): seq<Row> {
    if rows == [] then []
    else
      var n := |rows| - 1;
      if Hit(p, rows[n]) then Missed(p, rows[..n]) else Missed(p, rows[..n]) + [rows[n]]
  }

  /** The rows of the table afterwards. */
  function Effect(p: Patch, t: Table): seq<Row>
    requires |p.cols| == |p.vals|
  {
    match p.kind
    case PatchInsert => t.rows + [PutAll(p.cols, p.vals, map c | c in t.columns :: Null)]
    case PatchUpdate =>
      seq(|t.rows|, i requires 0 <= i < |t.rows| =>
        if Hit(p, t.rows[i]) then PutAll(p.cols, p.vals, t.rows[i]) else t.rows[i])
    case PatchDelete => Missed(p, t.rows)
    case OtherKind(_) => t.rows
  }

  /** The table has the columns of the row key, and those to be written, of which there are some, each named once. */
  predicate Fits(p: Patch, t: Table) {
    && (!p.kind.PatchDelete? ==> p.cols != [] && Distinct(p.cols) && forall c | c in p.cols :: c in t.columns)
    && (!p.kind.PatchInsert? && p.rowKey.Some? ==> p.rowKey.value.key.Keys <= t.columns)
  }

  lemma {:induction false} OverwriteMore(sets: seq<Assignment>, a: Assignment, row: Row)
    ensures Overwrite(Plain, sets + [a], row) == Overwrite(Plain, sets, row)[a.col := a.val]
  {
    NamesGrow(sets, a);
    assert (sets + [a])[..|sets|] == sets;
    assert forall c :: Assigned(Plain, sets + [a], c) == if c == a.col then Some(a.val) else Assigned(Plain, sets, c);
    hide Names, Assigned;
  }

  lemma {:induction false} PutAllIsOverwrite(cols: seq<string>, vals: seq<Value>, row: Row)
    requires |cols| == |vals|
    ensures Overwrite(Plain, Pairs(Quotes(Plain, cols), vals), row) == PutAll(cols, vals, row)
  {
    var sets := Pairs(Quotes(Plain, cols), vals);
    if cols == [] {
      assert Names(Plain, sets) == {};
    } else {
      var n := |cols| - 1;
      var before := Pairs(Quotes(Plain, cols[..n]), vals[..n]);
      PutAllIsOverwrite(cols[..n], vals[..n], row);
      OverwriteMore(before, Assign(cols[n], vals[n]), row);
      hide Overwrite;
      assert sets == before + [Assign(cols[n], vals[n])];
    }
  }

  lemma {:induction false} NamesGrow(sets: seq<Assignment>, a: Assignment)
    ensures Names(Plain, sets + [a]) == Names(Plain, sets) + {a.col}
  {
    var all := sets + [a];
    assert forall i | 0 <= i < |sets| :: all[i] == sets[i];
    assert all[|sets|] == a;
  }

  /** Written columns hold their values, other columns what they held. */
  lemma {:induction false} PutAllAt(cols: seq<string>, vals: seq<Value>, row: Row)
    requires |cols| == |vals| && Distinct(cols)
    ensures forall i | 0 <= i < |cols| :: At(PutAll(cols, vals, row), cols[i]) == vals[i]
    ensures forall name | name !in cols :: At(PutAll(cols, vals, row), name) == At(row, name)
  {
    if cols != [] {
      var n := |cols| - 1;
      PutAllAt(cols[..n], vals[..n], row);
      assert cols == cols[..n] + [cols[n]];
      assert forall i | 0 <= i < n :: cols[..n][i] == cols[i] && vals[..n][i] == vals[i];
    }
  }

  lemma {:induction false} HitSelects(p: Patch, row: Row)
    ensures Selects(Plain, RowKeyCond(Plain, p.rowKey), row) <==> Hit(p, row)
  {
    var key := if p.rowKey.Some? then p.rowKey.value.key else map[];
    QuotedPlain(key);
    EqSelects(Plain, key, row);
    assert forall c :: Name(Plain, c) == c;
  }

  lemma {:induction false} MissedAreLeft(p: Patch, rows: seq<Row>)
    ensures DeleteRows(Plain, RowKeyCond(Plain, p.rowKey), rows) == Missed(p, rows)
  {
    hide Selects, Hit, RowKeyCond;
    if rows != [] {
      var n := |rows| - 1;
      MissedAreLeft(p, rows[..n]);
      HitSelects(p, rows[n]);
      assert Missed(p, rows[..n]) + [] == Missed(p, rows[..n]);
    }
  }

  lemma {:induction false} FitsWrites(cols: seq<string>, t: Table)
    ensures KnownAll(Plain, t, Quotes(Plain, cols)) <==>
            cols != [] && Distinct(cols) && forall c | c in cols :: c in t.columns
  {
    assert Quotes(Plain, cols) == cols;
    assert forall c :: Name(Plain, c) == c && (Known(Plain, t, c) <==> c in t.columns);
  }

  lemma {:induction false} FitsKey(p: Patch, t: Table)
    ensures KnownCond(Plain, t, RowKeyCond(Plain, p.rowKey)) <==>
            (p.rowKey.Some? ==> p.rowKey.value.key.Keys <= t.columns)
  {
    var key := if p.rowKey.Some? then p.rowKey.value.key else map[];
    QuotedPlain(key);
    assert forall c :: Known(Plain, t, c) <==> c in t.columns;
  }

  lemma {:induction false} AcceptsFitting(p: Patch, t: Table)
    requires WellFormed(p)
    ensures Accepts(Plain, PatchStatement(Plain, p), t) <==> Fits(p, t)
    ensures Fits(p, t) ==> RowsAfter(Plain, PatchStatement(Plain, p), t) == Effect(p, t)
  {
    FitsWrites(p.cols, t);
    FitsKey(p, t);
    hide KnownAll, KnownCond, RowKeyCond, Overwrite, Selects, Hit, PutAll;
    match p.kind
    case PatchInsert =>
      PutAllIsOverwrite(p.cols, p.vals, map c | c in t.columns :: Null);
    case PatchUpdate =>
      assert Targets(Pairs(Quotes(Plain, p.cols), p.vals)) == Quotes(Plain, p.cols);
      forall i | 0 <= i < |t.rows|
        ensures UpdateRow(Plain, Pairs(Quotes(Plain, p.cols), p.vals), RowKeyCond(Plain, p.rowKey), t.rows[i]) ==
                if Hit(p, t.rows[i]) then PutAll(p.cols, p.vals, t.rows[i]) else t.rows[i]
      {
        HitSelects(p, t.rows[i]);
        PutAllIsOverwrite(p.cols, p.vals, t.rows[i]);
      }
    case PatchDelete => MissedAreLeft(p, t.rows);
  }

  /**
   Exactly when a patch succeeds, and what it does then: an insert adds one row, which is NULL where it is not given a
   value; an update writes its values into the rows that hold its row key; a delete takes these rows away.
   */
  lemma {:induction false} PatchMeans(p: Patch, db: Db)
    ensures ApplyPatch(p, db) ==
            if && |p.cols| == |p.vals| && !p.kind.OtherKind? && p.table in db && Fits(p, db[p.table])
               && Consistent(db[p.table].(rows := Effect(p, db[p.table])))
            then Some(db[p.table := db[p.table].(rows := Effect(p, db[p.table]))]) else None
  {
    hide Fits, Effect, Accepts, RowsAfter, Consistent;
    if WellFormed(p) {
      ResolveOfQuote(Plain, p.table);
      if p.table in db {
        AcceptsFitting(p, db[p.table]);
      }
      assert PatchStatement(Plain, p).table == Quote(Plain, p.table);
    }
  }

  /** On a legal database a delete that fits its table never fails. */
  lemma {:induction false} DeleteSucceeds(p: Patch, db: Db)
    requires p.kind.PatchDelete? && |p.cols| == |p.vals| && ConsistentDb(db) && p.table in db && Fits(p, db[p.table])
    ensures ApplyPatch(p, db) == Some(db[p.table := db[p.table].(rows := Missed(p, db[p.table].rows))])
  {
    PatchMeans(p, db);
    MissedAreLeft(p, db[p.table].rows);
    hide Missed, DeleteRows, Consistent, ApplyPatch, Fits;
    DeleteKeepsConsistent(Plain, RowKeyCond(Plain, p.rowKey), db[p.table]);
  }

  /** A delete without a row key, or with one that names no column, empties its table. */
  lemma {:induction false} KeylessDelete(p: Patch, db: Db)
    requires p.kind.PatchDelete? && |p.cols| == |p.vals| && p.table in db
    requires p.rowKey.None? || p.rowKey.value.key == map[]
    ensures ApplyPatch(p, db) == Some(db[p.table := db[p.table].(rows := [])])
  {
    PatchMeans(p, db);
    NoneMissed(p, db[p.table].rows);
  }

  lemma {:induction false} NoneMissed(p: Patch, rows: seq<Row>)
    requires forall i | 0 <= i < |rows| :: Hit(p, rows[i])
    ensures Missed(p, rows) == []
  {
    if rows != [] {
      NoneMissed(p, rows[..|rows| - 1]);
    }
  }

  /** An update without a row key, or with one that names no column, writes every row. */
  lemma {:induction false} KeylessUpdate(p: Patch, db: Db)
    requires p.kind.PatchUpdate? && ApplyPatch(p, db).Some?
    requires p.rowKey.None? || p.rowKey.value.key == map[]
    ensures p.table in db && |p.cols| == |p.vals|
    ensures var rows, rows' := db[p.table].rows, ApplyPatch(p, db).value[p.table].rows;
            && |rows'| == |rows|
            && forall i | 0 <= i < |rows| ::
                 && (forall k | 0 <= k < |p.cols| :: At(rows'[i], p.cols[k]) == p.vals[k])
                 && (forall name | name !in p.cols :: At(rows'[i], name) == At(rows[i], name))
  {
    PatchMeans(p, db);
    hide PutAll, ApplyPatch;
    forall i | 0 <= i < |db[p.table].rows| {
      PutAllAt(p.cols, p.vals, db[p.table].rows[i]);
    }
  }
}
