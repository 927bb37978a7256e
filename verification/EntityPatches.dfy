/** Patches made from entities (meta.go), and what they do to a table. */
module EntityPatches {
  import opened Wrappers
  import opened Strings
  import opened Dialects
  import opened Sql
  import opened RowKeys
  import opened Compile
  import opened BulkMeaning
  import opened UnitOfWork
  import opened PatchMeaning
  import opened Meta
  import opened SchemaTags

  /** The zero values of Go that `omitempty` leaves out. */
  predicate IsEmptyValue(v: Value) {
    v == Null || v == Int(0) || v == Text("")
  }

  /** The columns a patch mentions: not the empty ones that may be omitted, and for updates not the primary key. */
  predicate Mentions(c: MetaColumn, v: map<string, Value>, update: bool) {
    !(update && c.primary) && !(c.omitEmpty && IsEmptyValue(At(v, c.field)))
  }

  function Mentioned(cols: seq<MetaColumn>, v: map<string, Value>, update: bool): seq<MetaColumn> {
    if cols == [] then []
    else
      var n := |cols| - 1;
      Mentioned(cols[..n], v, update) + if Mentions(cols[n], v, update) then [cols[n]] else []
  }

  function EntityInsert(m: MetaTable, v: map<string, Value>): Patch {
    var cols := Mentioned(m.columns, v, false);
    Patch(PatchInsert, m.table, None, ColumnNames(cols), ValuesOf(cols, v))
  }

  function EntityUpdate(m: MetaTable, v: map<string, Value>): Patch {
    var cols := Mentioned(m.columns, v, true);
    Patch(PatchUpdate, m.table, Some(EntityKey(m.table, m.primaryKey, v)), ColumnNames(cols), ValuesOf(cols, v))
  }

  function EntityDelete(m: MetaTable, v: map<string, Value>): Patch {
    Patch(PatchDelete, m.table, Some(EntityKey(m.table, m.primaryKey, v)), [], [])
  }

  method MentionedColumns(m: MetaTable, v: map<string, Value>, update: bool)
      returns (cols: seq<string>, vals: seq<Value>)
    ensures cols == ColumnNames(Mentioned(m.columns, v, update)) && vals == ValuesOf(Mentioned(m.columns, v, update), v)
  {
    hide Mentioned, Mentions;
    cols, vals := [], [];
    MentionedMore([], v, update, MetaColumn("", "", false, false));
    for i := 0 to |m.columns|
      invariant cols == ColumnNames(Mentioned(m.columns[..i], v, update))
      invariant vals == ValuesOf(Mentioned(m.columns[..i], v, update), v)
    {
      var c := m.columns[i];
      MentionedMore(m.columns[..i], v, update, c);
      assert m.columns[..i + 1] == m.columns[..i] + [c];
      if Mentions(c, v, update) {
        cols := cols + [c.column];
        vals := vals + [At(v, c.field)];
      }
    }
    assert m.columns[..|m.columns|] == m.columns;
  }

  method InsertPatchOf(m: MetaTable, v: map<string, Value>) returns (p: Patch)
    ensures p == EntityInsert(m, v) && WellFormed(p)
  {
    var cols, vals := MentionedColumns(m, v, false);
    p := Patch(PatchInsert, m.table, None, cols, vals);
  }

  method UpdatePatchOf(m: MetaTable, v: map<string, Value>) returns (p: Patch)
    ensures p == EntityUpdate(m, v) && WellFormed(p)
  {
    var cols, vals := MentionedColumns(m, v, true);
    var rowKey := PrimaryKeyOf(m, v);
    p := Patch(PatchUpdate, m.table, Some(rowKey), cols, vals);
  }

  method DeletePatchOf(m: MetaTable, v: map<string, Value>) returns (p: Patch)
    ensures p == EntityDelete(m, v) && WellFormed(p)
  {
    var rowKey := PrimaryKeyOf(m, v);
    p := Patch(PatchDelete, m.table, Some(rowKey), [], []);
  }

  /** The patch carries the columns at the places `at`, in order, each with the value of its field. */
  predicate Carries(m: MetaTable, v: map<string, Value>, p: Patch, at: seq<nat>) {
    && Ascending(at) && |at| == |p.cols| == |p.vals|
    && forall i | 0 <= i < |at| ::
         && at[i] < |m.columns|
         && p.cols[i] == m.columns[at[i]].column && p.vals[i] == At(v, m.columns[at[i]].field)
  }

  ghost predicate MentionedAt(cols: seq<MetaColumn>, v: map<string, Value>, update: bool, some: seq<MetaColumn>,
                              at: seq<nat>) {
    && Ascending(at) && |at| == |some|
    && (forall i | 0 <= i < |at| :: at[i] < |cols| && cols[at[i]] == some[i])
    && (forall k | 0 <= k < |cols| :: k in at <==> Mentions(cols[k], v, update))
  }

  lemma {:induction false} OneMoreMentioned(cols: seq<MetaColumn>, v: map<string, Value>, update: bool,
                                            some: seq<MetaColumn>, at: seq<nat>, c: MetaColumn)
    requires MentionedAt(cols, v, update, some, at)
    ensures if Mentions(c, v, update) then MentionedAt(cols + [c], v, update, some + [c], at + [|cols|])
            else MentionedAt(cols + [c], v, update, some, at)
  {
    hide Mentions;
    var n, all := |cols|, cols + [c];
    assert all[n] == c && forall k | 0 <= k < n :: all[k] == cols[k];
    assert forall i | 0 <= i < |at| :: at[i] < n;
    assert forall k :: k in at + [n] <==> k in at || k == n;
  }

  lemma {:induction false} MentionedMore(cols: seq<MetaColumn>, v: map<string, Value>, update: bool, c: MetaColumn)
    ensures Mentioned(cols + [c], v, update) ==
            if Mentions(c, v, update) then Mentioned(cols, v, update) + [c] else Mentioned(cols, v, update)
    ensures Mentioned([], v, update) == [] && MentionedAt([], v, update, [], [])
  {
    assert (cols + [c])[..|cols|] == cols;
  }

  lemma {:induction false} MentionedPlaces(cols: seq<MetaColumn>, v: map<string, Value>, update: bool)
      returns (at: seq<nat>)
    ensures MentionedAt(cols, v, update, Mentioned(cols, v, update), at)
  {
    hide *;
    if cols == [] {
      at := [];
      MentionedMore([], v, update, MetaColumn("", "", false, false));
    } else {
      var n := |cols| - 1;
      at := MentionedPlaces(cols[..n], v, update);
      OneMoreMentioned(cols[..n], v, update, Mentioned(cols[..n], v, update), at, cols[n]);
      MentionedMore(cols[..n], v, update, cols[n]);
      assert cols == cols[..n] + [cols[n]];
      at := if Mentions(cols[n], v, update) then at + [n] else at;
    }
  }

  /**
   What a patch carries: the insert all columns but those that may be left out and whose value is nil, zero or empty;
   the update the same without the primary key; each with the value of its field, in the order of the columns.
   */
  lemma {:induction false} PatchColumns(m: MetaTable, v: map<string, Value>)
    ensures EntityInsert(m, v).kind == PatchInsert && EntityInsert(m, v).rowKey == None
    ensures EntityUpdate(m, v).kind == PatchUpdate && EntityUpdate(m, v).table == EntityInsert(m, v).table == m.table
    ensures exists at :: Carries(m, v, EntityInsert(m, v), at) &&
              forall k | 0 <= k < |m.columns| ::
                k in at <==> !m.columns[k].omitEmpty || At(v, m.columns[k].field) !in {Null, Int(0), Text("")}
    ensures exists at :: Carries(m, v, EntityUpdate(m, v), at) &&
              forall k | 0 <= k < |m.columns| ::
                k in at <==> !m.columns[k].primary &&
                             (!m.columns[k].omitEmpty || At(v, m.columns[k].field) !in {Null, Int(0), Text("")})
  {
    var at := MentionedPlaces(m.columns, v, false);
    var bt := MentionedPlaces(m.columns, v, true);
    hide Mentioned;
    assert Carries(m, v, EntityInsert(m, v), at);
    assert Carries(m, v, EntityUpdate(m, v), bt);
  }

  // ----- tables with distinct column names

  ghost predicate Proper(m: MetaTable) {
    && Distinct(ColumnNames(m.columns)) && Distinct(ColumnNames(m.primaryKey))
    && (forall k | k in m.primaryKey :: k in m.columns && k.primary)
  }

  lemma {:induction false} DistinctFiltered(snake: string -> string, fields: seq<Field>, fn: Field -> bool)
    requires Distinct(ColumnNames(ColumnsOf(snake, fields)))
    ensures Distinct(ColumnNames(ColumnsOf(snake, Filter(fields, fn))))
  {
    if fields != [] {
      var n := |fields| - 1;
      var all := ColumnNames(ColumnsOf(snake, fields));
      var some := Filter(fields[..n], fn);
      assert forall i | 0 <= i < n :: ColumnNames(ColumnsOf(snake, fields[..n]))[i] == all[i];
      DistinctFiltered(snake, fields[..n], fn);
      Filtered(fields[..n], fn);
      forall i | 0 <= i < |some|
        ensures ColumnName(snake, some[i]) != ColumnName(snake, fields[n])
      {
        assert some[i] in fields[..n];
        var j :| 0 <= j < n && fields[j] == some[i];
        assert all[j] != all[n];
      }
      assert ColumnNames(ColumnsOf(snake, some + [fields[n]])) ==
             ColumnNames(ColumnsOf(snake, some)) + [ColumnName(snake, fields[n])];
      assert ColumnNames(ColumnsOf(snake, some + [])) == ColumnNames(ColumnsOf(snake, some));
    }
  }

  /** The meta table of a struct whose columns have distinct names is proper. */
  lemma {:induction false} MetaIsProper(snake: string -> string, types: seq<Decl>, decl: Decl)
    requires Distinct(ColumnNames(ColumnsOf(snake, Filter(decl.fields, IsColumn))))
    ensures Proper(MetaOf(snake, types, decl))
  {
    var fields := Filter(decl.fields, IsColumn);
    var keys := Filter(fields, IsPrimaryKey);
    DistinctFiltered(snake, fields, IsPrimaryKey);
    Filtered(fields, IsPrimaryKey);
    forall k | k in ColumnsOf(snake, keys)
      ensures k in ColumnsOf(snake, fields) && k.primary
    {
      var i :| 0 <= i < |keys| && ColumnsOf(snake, keys)[i] == k;
      assert keys[i] in fields;
      var j :| 0 <= j < |fields| && fields[j] == keys[i];
      assert ColumnsOf(snake, fields)[j] == k;
    }
  }

  lemma {:induction false} MentionedOnly(cols: seq<MetaColumn>, v: map<string, Value>, update: bool)
    ensures forall c :: c in Mentioned(cols, v, update) <==> c in cols && Mentions(c, v, update)
  {
    if cols != [] {
      var n := |cols| - 1;
      MentionedOnly(cols[..n], v, update);
      assert cols == cols[..n] + [cols[n]];
    }
  }

  lemma {:induction false} MentionedDistinct(cols: seq<MetaColumn>, v: map<string, Value>, update: bool)
    requires Distinct(ColumnNames(cols))
    ensures Distinct(ColumnNames(Mentioned(cols, v, update)))
  {
    hide Mentions;
    if cols != [] {
      var n := |cols| - 1;
      var some := Mentioned(cols[..n], v, update);
      assert forall i | 0 <= i < n :: ColumnNames(cols[..n])[i] == ColumnNames(cols)[i];
      MentionedDistinct(cols[..n], v, update);
      MentionedOnly(cols[..n], v, update);
      hide Mentioned;
      forall i | 0 <= i < |some|
        ensures some[i].column != cols[n].column
      {
        assert some[i] in cols[..n];
        var j :| 0 <= j < n && cols[j] == some[i];
        assert ColumnNames(cols)[j] != ColumnNames(cols)[n];
      }
      DistinctGrows(some, cols[n]);
      MentionedStep(cols, v, update);
    }
  }

  lemma {:induction false} DistinctGrows(some: seq<MetaColumn>, c: MetaColumn)
    requires Distinct(ColumnNames(some)) && forall i | 0 <= i < |some| :: some[i].column != c.column
    ensures Distinct(ColumnNames(some + [c]))
  {
    assert ColumnNames(some + [c]) == ColumnNames(some) + [c.column];
  }

  lemma {:induction false} MentionedStep(cols: seq<MetaColumn>, v: map<string, Value>, update: bool)
    requires cols != []
    ensures var before := Mentioned(cols[..|cols| - 1], v, update);
            Mentioned(cols, v, update) == before || Mentioned(cols, v, update) == before + [cols[|cols| - 1]]
  {
  }

  // ----- rows

  /** The row has the primary key of the entity. */
  ghost predicate HasKeyOf(m: MetaTable, v: map<string, Value>, row: Row) {
    forall i | 0 <= i < |m.primaryKey| :: At(row, m.primaryKey[i].column) == At(v, m.primaryKey[i].field)
  }

  lemma {:induction false} FilledHolds(names: seq<string>, vals: seq<Value>, row: Row)
    requires |names| == |vals| && Distinct(names)
    ensures (forall c | c in Fill(names, vals) :: At(row, c) == Fill(names, vals)[c])
       <==> forall i | 0 <= i < |names| :: At(row, names[i]) == vals[i]
  {
    hide Fill;
    FillAt(names, vals);
    var key := Fill(names, vals);
    assert forall i | 0 <= i < |names| :: names[i] in key && key[names[i]] == vals[i];
    if forall i | 0 <= i < |names| :: At(row, names[i]) == vals[i] {
      forall c | c in key
        ensures At(row, c) == key[c]
      {
        var i :| 0 <= i < |names| && names[i] == c;
      }
    }
  }

  lemma {:induction false} KeySelects(m: MetaTable, v: map<string, Value>, row: Row)
    requires Distinct(ColumnNames(m.primaryKey))
    ensures Selects(Plain, RowKeyCond(Plain, Some(EntityKey(m.table, m.primaryKey, v))), row) <==> HasKeyOf(m, v, row)
  {
    hide Selects, Fill, At;
    var names, vals := ColumnNames(m.primaryKey), ValuesOf(m.primaryKey, v);
    var key := Fill(names, vals);
    QuotedPlain(key);
    EqSelects(Plain, key, row);
    assert forall c | c in key :: Name(Plain, c) == c;
    FilledHolds(names, vals, row);
    assert forall i | 0 <= i < |names| :: names[i] == m.primaryKey[i].column && vals[i] == At(v, m.primaryKey[i].field);
  }

  lemma {:induction false} AssignedAt(cols: seq<string>, vals: seq<Value>, name: string)
    requires |cols| == |vals| && Distinct(cols)
    ensures match Assigned(Plain, Pairs(Quotes(Plain, cols), vals), name)
            case Some(x) => exists i | 0 <= i < |cols| :: cols[i] == name && vals[i] == x
            case None => name !in cols
  {
    if cols != [] {
      var n := |cols| - 1;
      AssignedAt(cols[..n], vals[..n], name);
      assert Pairs(Quotes(Plain, cols), vals)[..n] == Pairs(Quotes(Plain, cols[..n]), vals[..n]);
      assert cols == cols[..n] + [cols[n]];
      var found := Assigned(Plain, Pairs(Quotes(Plain, cols[..n]), vals[..n]), name);
      if i :| 0 <= i < n && cols[..n][i] == name && found == Some(vals[..n][i]) {
        assert cols[i] == name;
      }
    }
  }

  function EntitySets(m: MetaTable, v: map<string, Value>, update: bool): seq<Assignment> {
    var cols := Mentioned(m.columns, v, update);
    Pairs(Quotes(Plain, ColumnNames(cols)), ValuesOf(cols, v))
  }

  /** Writing an entity into a row gives its mentioned columns its values, ... */
  lemma {:induction false} WrittenAt(m: MetaTable, v: map<string, Value>, update: bool, row: Row, c: MetaColumn)
    requires Proper(m) && c in m.columns && Mentions(c, v, update)
    ensures At(Overwrite(Plain, EntitySets(m, v, update), row), c.column) == At(v, c.field)
  {
    var cols := Mentioned(m.columns, v, update);
    var names, vals := ColumnNames(cols), ValuesOf(cols, v);
    MentionedOnly(m.columns, v, update);
    MentionedDistinct(m.columns, v, update);
    AssignedAt(names, vals, c.column);
    OverwriteAt(Plain, EntitySets(m, v, update), row, c.column);
    var k :| 0 <= k < |cols| && cols[k] == c;
    assert names[k] == c.column;
    var x := Assigned(Plain, EntitySets(m, v, update), c.column).value;
    var i :| 0 <= i < |names| && names[i] == c.column && vals[i] == x;
    assert i == k;
  }

  /** ... and leaves every other column alone. */
  lemma {:induction false} KeptAt(m: MetaTable, v: map<string, Value>, update: bool, row: Row, name: string)
    requires Proper(m) && forall c | c in m.columns && c.column == name :: !Mentions(c, v, update)
    ensures At(Overwrite(Plain, EntitySets(m, v, update), row), name) == At(row, name)
  {
    var cols := Mentioned(m.columns, v, update);
    var names := ColumnNames(cols);
    MentionedOnly(m.columns, v, update);
    MentionedDistinct(m.columns, v, update);
    forall i | 0 <= i < |cols|
      ensures names[i] != name
    {
      assert cols[i] in cols;
    }
    AssignedAt(names, ValuesOf(cols, v), name);
    OverwriteAt(Plain, EntitySets(m, v, update), row, name);
  }

  // ----- what the patches do

  /** `row'` is `row` with the entity written into it, but for its key and what is empty and may be left out. */
  ghost predicate WrittenInto(m: MetaTable, v: map<string, Value>, row: Row, row': Row) {
    && (forall c | c in m.columns ::
          At(row', c.column) ==
          if c.primary || (c.omitEmpty && At(v, c.field) in {Null, Int(0), Text("")}) then At(row, c.column)
          else At(v, c.field))
    && (forall name | name !in ColumnNames(m.columns) :: At(row', name) == At(row, name))
  }

  lemma {:induction false} NamedOnce(m: MetaTable, c: MetaColumn, d: MetaColumn)
    requires Proper(m) && c in m.columns && d in m.columns && c.column == d.column
    ensures c == d
  {
    var i :| 0 <= i < |m.columns| && m.columns[i] == c;
    var j :| 0 <= j < |m.columns| && m.columns[j] == d;
    assert ColumnNames(m.columns)[i] == ColumnNames(m.columns)[j];
  }

  lemma {:induction false} WrittenOrKept(m: MetaTable, v: map<string, Value>, update: bool, row: Row, c: MetaColumn)
    requires Proper(m) && c in m.columns
    ensures At(Overwrite(Plain, EntitySets(m, v, update), row), c.column) ==
            if (update && c.primary) || (c.omitEmpty && At(v, c.field) in {Null, Int(0), Text("")})
            then At(row, c.column) else At(v, c.field)
  {
    hide Overwrite, EntitySets;
    if Mentions(c, v, update) {
      WrittenAt(m, v, update, row, c);
    } else {
      forall d | d in m.columns && d.column == c.column
        ensures !Mentions(d, v, update)
      {
        NamedOnce(m, c, d);
      }
      KeptAt(m, v, update, row, c.column);
    }
  }

  lemma {:induction false} OthersAreKept(m: MetaTable, v: map<string, Value>, update: bool, row: Row, name: string)
    requires Proper(m) && name !in ColumnNames(m.columns)
    ensures At(Overwrite(Plain, EntitySets(m, v, update), row), name) == At(row, name)
  {
    hide Overwrite, EntitySets;
    forall d | d in m.columns
      ensures d.column != name
    {
      var i :| 0 <= i < |m.columns| && m.columns[i] == d;
      assert ColumnNames(m.columns)[i] == d.column;
    }
    KeptAt(m, v, update, row, name);
  }

  lemma {:induction false} WritesInto(m: MetaTable, v: map<string, Value>, row: Row)
    requires Proper(m)
    ensures WrittenInto(m, v, row, Overwrite(Plain, EntitySets(m, v, true), row))
  {
    hide Overwrite, EntitySets, Proper;
    forall c | c in m.columns {
      WrittenOrKept(m, v, true, row, c);
    }
    forall name | name !in ColumnNames(m.columns) {
      OthersAreKept(m, v, true, row, name);
    }
  }

  /** An update never changes a primary key. */
  lemma {:induction false} KeyKept(m: MetaTable, v: map<string, Value>, u: map<string, Value>, row: Row, row': Row)
    requires Proper(m) && WrittenInto(m, v, row, row')
    ensures HasKeyOf(m, u, row') <==> HasKeyOf(m, u, row)
  {
  }

  function Updated(m: MetaTable, v: map<string, Value>, row: Row): Row {
    UpdateRow(Plain, EntitySets(m, v, true), RowKeyCond(Plain, EntityUpdate(m, v).rowKey), row)
  }

  lemma {:induction false} UpdatedRow(m: MetaTable, v: map<string, Value>, row: Row)
    requires Proper(m)
    ensures if HasKeyOf(m, v, row) then WrittenInto(m, v, row, Updated(m, v, row)) else Updated(m, v, row) == row
    ensures HasKeyOf(m, v, row) ==> Updated(m, v, row) == Overwrite(Plain, EntitySets(m, v, true), row)
    ensures forall u :: HasKeyOf(m, u, Updated(m, v, row)) <==> HasKeyOf(m, u, row)
  {
    KeySelects(m, v, row);
    WritesInto(m, v, row);
    hide Overwrite, HasKeyOf, WrittenInto;
    forall u
      ensures HasKeyOf(m, u, Updated(m, v, row)) <==> HasKeyOf(m, u, row)
    {
      if HasKeyOf(m, v, row) {
        KeyKept(m, v, u, row, Updated(m, v, row));
      }
    }
  }

  /** The table after an update, whether or not the constraints allow it. */
  function AfterUpdate(m: MetaTable, v: map<string, Value>, t: Table): Table {
    t.(rows := seq(|t.rows|, i requires 0 <= i < |t.rows| => Updated(m, v, t.rows[i])))
  }

  /** The table has the columns that the update names. */
  predicate Takes(m: MetaTable, v: map<string, Value>, t: Table) {
    Accepts(Plain, PatchStatement(Plain, EntityUpdate(m, v)), t)
  }

  /** Exactly when an update succeeds, and what it does then. */
  lemma {:induction false} ApplyUpdate(m: MetaTable, v: map<string, Value>, db: Db)
    ensures ApplyPatch(EntityUpdate(m, v), db) ==
            if m.table in db && Takes(m, v, db[m.table]) && Consistent(AfterUpdate(m, v, db[m.table]))
            then Some(db[m.table := AfterUpdate(m, v, db[m.table])]) else None
  {
    ResolveOfQuote(Plain, m.table);
    if m.table in db && Takes(m, v, db[m.table]) {
      var t := db[m.table];
      assert RowsAfter(Plain, PatchStatement(Plain, EntityUpdate(m, v)), t) == AfterUpdate(m, v, t).rows;
    }
  }

  lemma {:induction false} TakesByColumns(m: MetaTable, v: map<string, Value>, t: Table, t': Table)
    requires t.columns == t'.columns
    ensures Takes(m, v, t) == Takes(m, v, t')
  {
    var p := EntityUpdate(m, v);
    KnownSame(Plain, t, t', RowKeyCond(Plain, p.rowKey));
    hide RowKeyCond;
    assert forall ident :: Known(Plain, t, ident) == Known(Plain, t', ident);
  }

  /** An update patch writes the entity into the rows with its key, keeps their keys, and changes nothing else. */
  lemma {:induction false} UpdateActsOnItsRow(m: MetaTable, v: map<string, Value>, db: Db, i: nat)
    requires Proper(m) && ApplyPatch(EntityUpdate(m, v), db).Some?
    ensures m.table in db
    ensures var db' := ApplyPatch(EntityUpdate(m, v), db).value;
            && db'.Keys == db.Keys && (forall name | name in db && name != m.table :: db'[name] == db[name])
            && |db'[m.table].rows| == |db[m.table].rows|
            && (i < |db[m.table].rows| ==>
                  var row, row' := db[m.table].rows[i], db'[m.table].rows[i];
                  && (forall u :: HasKeyOf(m, u, row') <==> HasKeyOf(m, u, row))
                  && if HasKeyOf(m, v, row) then WrittenInto(m, v, row, row') else row' == row)
  {
    hide ApplyPatch, HasKeyOf, WrittenInto, UpdateRow, EntityUpdate, Proper;
    ApplyUpdate(m, v, db);
    if i < |db[m.table].rows| {
      UpdatedRow(m, v, db[m.table].rows[i]);
    }
  }

  ghost predicate DifferentKeys(m: MetaTable, v: map<string, Value>, u: map<string, Value>) {
    exists i | 0 <= i < |m.primaryKey| :: At(v, m.primaryKey[i].field) != At(u, m.primaryKey[i].field)
  }

  lemma {:induction false} RowUpdatesCommute(m: MetaTable, v: map<string, Value>, u: map<string, Value>, row: Row)
    requires Proper(m) && DifferentKeys(m, v, u)
    ensures Updated(m, u, Updated(m, v, row)) == Updated(m, v, Updated(m, u, row))
  {
    assert !(HasKeyOf(m, v, row) && HasKeyOf(m, u, row));
    hide Updated, HasKeyOf, WrittenInto;
    UpdatedRow(m, v, row);
    UpdatedRow(m, u, row);
    UpdatedRow(m, v, Updated(m, u, row));
    UpdatedRow(m, u, Updated(m, v, row));
  }

  /** What two updates do one after the other. */
  lemma {:induction false} ApplyBoth(m: MetaTable, v: map<string, Value>, u: map<string, Value>, db: Db)
    ensures ApplyAll([EntityUpdate(m, v), EntityUpdate(m, u)], db) ==
            if && m.table in db && Takes(m, v, db[m.table]) && Takes(m, u, db[m.table])
               && Consistent(AfterUpdate(m, v, db[m.table]))
               && Consistent(AfterUpdate(m, u, AfterUpdate(m, v, db[m.table])))
            then Some(db[m.table := AfterUpdate(m, u, AfterUpdate(m, v, db[m.table]))]) else None
  {
    hide ApplyPatch, ApplyAll, EntityUpdate, Takes, Consistent, Updated;
    ApplyTwo(EntityUpdate(m, v), EntityUpdate(m, u), db);
    ApplyUpdate(m, v, db);
    if m.table in db {
      var t := AfterUpdate(m, v, db[m.table]);
      TakesByColumns(m, u, db[m.table], t);
      ApplyUpdate(m, u, db[m.table := t]);
      assert db[m.table := t][m.table := AfterUpdate(m, u, t)] == db[m.table := AfterUpdate(m, u, t)];
    }
  }

  lemma {:induction false} SameFinalRows(m: MetaTable, v: map<string, Value>, u: map<string, Value>, t: Table)
    requires Proper(m) && DifferentKeys(m, v, u)
    ensures AfterUpdate(m, u, AfterUpdate(m, v, t)) == AfterUpdate(m, v, AfterUpdate(m, u, t))
  {
    hide Updated;
    forall i | 0 <= i < |t.rows|
      ensures Updated(m, u, Updated(m, v, t.rows[i])) == Updated(m, v, Updated(m, u, t.rows[i]))
    {
      RowUpdatesCommute(m, v, u, t.rows[i]);
    }
  }

  /**
   Updates of entities with different keys agree in both orders, failing together or ending in the same database,
   exactly when the final rows are illegal anyway or the first step of both orders is legal or illegal alike.
   */
  lemma {:induction false} UpdateOrdersAgree(m: MetaTable, v: map<string, Value>, u: map<string, Value>, db: Db)
    requires Proper(m) && DifferentKeys(m, v, u)
    ensures ApplyAll([EntityUpdate(m, v), EntityUpdate(m, u)], db) ==
            ApplyAll([EntityUpdate(m, u), EntityUpdate(m, v)], db)
       <==> (&& m.table in db && Takes(m, v, db[m.table]) && Takes(m, u, db[m.table])
             && Consistent(AfterUpdate(m, u, AfterUpdate(m, v, db[m.table])))
             ==> (Consistent(AfterUpdate(m, v, db[m.table])) <==> Consistent(AfterUpdate(m, u, db[m.table]))))
  {
    hide ApplyAll, EntityUpdate, Takes, Consistent, AfterUpdate, Proper, DifferentKeys;
    ApplyBoth(m, v, u, db);
    ApplyBoth(m, u, v, db);
    if m.table in db {
      SameFinalRows(m, v, u, db[m.table]);
    }
  }

  // ----- uniqueness constraints that no order of the updates can violate

  /** The constraint covers a key column that tells the entities apart. */
  ghost predicate TellsApart(m: MetaTable, v: map<string, Value>, u: map<string, Value>, names: set<string>) {
    exists i | 0 <= i < |m.primaryKey| ::
      m.primaryKey[i].column in names && At(v, m.primaryKey[i].field) != At(u, m.primaryKey[i].field)
  }

  /** The update writes no column of the constraint. */
  ghost predicate Spares(m: MetaTable, v: map<string, Value>, names: set<string>) {
    forall c | c in m.columns && c.column in names ::
      c.primary || (c.omitEmpty && At(v, c.field) in {Null, Int(0), Text("")})
  }

  ghost predicate Harmless(m: MetaTable, v: map<string, Value>, u: map<string, Value>, names: set<string>) {
    TellsApart(m, v, u, names) || (Spares(m, v, names) && Spares(m, u, names))
  }

  lemma {:induction false} SparedAt(m: MetaTable, v: map<string, Value>, row: Row, row': Row, names: set<string>,
                                    name: string)
    requires WrittenInto(m, v, row, row') && Spares(m, v, names) && name in names
    ensures At(row', name) == At(row, name)
  {
    if name in ColumnNames(m.columns) {
      var i :| 0 <= i < |m.columns| && ColumnNames(m.columns)[i] == name;
      assert m.columns[i] in m.columns && m.columns[i].column == name;
    }
  }

  /** The row that got the one entity does not clash with the row that is to get the other. */
  lemma {:induction false} NoClashBetween(m: MetaTable, v: map<string, Value>, u: map<string, Value>,
                                          names: set<string>, r: Row, s: Row)
    requires Proper(m) && Harmless(m, v, u, names) && HasKeyOf(m, v, r) && HasKeyOf(m, u, s) && !Clash(names, r, s)
    ensures !Clash(names, Updated(m, v, r), s)
  {
    hide Updated, WrittenInto, Proper;
    UpdatedRow(m, v, r);
    var r' := Updated(m, v, r);
    assert WrittenInto(m, v, r, r') && HasKeyOf(m, v, r');
    if TellsApart(m, v, u, names) {
      var i :| 0 <= i < |m.primaryKey|
            && m.primaryKey[i].column in names && At(v, m.primaryKey[i].field) != At(u, m.primaryKey[i].field);
      assert At(r', m.primaryKey[i].column) != At(s, m.primaryKey[i].column);
    } else {
      forall name | name in names
        ensures At(r', name) == At(r, name)
      {
        SparedAt(m, v, r, r', names, name);
      }
    }
  }

  lemma {:induction false} NotBoth(m: MetaTable, v: map<string, Value>, u: map<string, Value>, row: Row)
    requires DifferentKeys(m, v, u)
    ensures !(HasKeyOf(m, v, row) && HasKeyOf(m, u, row))
  {
  }

  /** Where a row stands between two updates: either it is final already, or it is untouched. */
  lemma {:induction false} BetweenUpdates(m: MetaTable, v: map<string, Value>, u: map<string, Value>, row: Row)
    requires Proper(m) && DifferentKeys(m, v, u)
    ensures !HasKeyOf(m, u, row) ==> Updated(m, u, Updated(m, v, row)) == Updated(m, v, row)
    ensures !HasKeyOf(m, v, row) ==> Updated(m, v, row) == row
  {
    UpdatedRow(m, v, row);
    UpdatedRow(m, u, Updated(m, v, row));
  }

  lemma {:induction false} NoClashOnTheWay(m: MetaTable, v: map<string, Value>, u: map<string, Value>,
                                           names: set<string>, r: Row, s: Row)
    requires Proper(m) && DifferentKeys(m, v, u) && Harmless(m, v, u, names) && !Clash(names, r, s)
    requires !Clash(names, Updated(m, u, Updated(m, v, r)), Updated(m, u, Updated(m, v, s)))
    ensures !Clash(names, Updated(m, v, r), Updated(m, v, s))
  {
    hide Updated, HasKeyOf, Harmless, Proper, DifferentKeys;
    BetweenUpdates(m, v, u, r);
    BetweenUpdates(m, v, u, s);
    NotBoth(m, v, u, r);
    NotBoth(m, v, u, s);
    if HasKeyOf(m, u, s) && HasKeyOf(m, v, r) {
      NoClashBetween(m, v, u, names, r, s);
    } else if HasKeyOf(m, u, r) && HasKeyOf(m, v, s) {
      NoClashBetween(m, v, u, names, s, r);
    }
  }

  /** A legal table, updated twice to a legal table by harmless updates, is legal in between. */
  lemma {:induction false} LegalInBetween(m: MetaTable, v: map<string, Value>, u: map<string, Value>, t: Table)
    requires Proper(m) && DifferentKeys(m, v, u) && Consistent(t)
    requires Consistent(AfterUpdate(m, u, AfterUpdate(m, v, t)))
    requires forall k | 0 <= k < |t.unique| :: Harmless(m, v, u, t.unique[k])
    ensures Consistent(AfterUpdate(m, v, t))
  {
    hide Updated, HasKeyOf, Harmless, Clash;
    var once := AfterUpdate(m, v, t).rows;
    var twice := AfterUpdate(m, u, AfterUpdate(m, v, t)).rows;
    forall i, c | 0 <= i < |once| && c in t.required
      ensures !At(once[i], c).Null?
    {
      NotBoth(m, v, u, t.rows[i]);
      BetweenUpdates(m, v, u, t.rows[i]);
      assert once[i] == twice[i] || once[i] == t.rows[i];
    }
    forall k, i, j | 0 <= k < |t.unique| && 0 <= i < j < |once|
      ensures !Clash(t.unique[k], once[i], once[j])
    {
      assert !Clash(t.unique[k], t.rows[i], t.rows[j]) && !Clash(t.unique[k], twice[i], twice[j]);
      NoClashOnTheWay(m, v, u, t.unique[k], t.rows[i], t.rows[j]);
    }
  }

  /**
   Updates of entities with different keys commute on every legal database each of whose uniqueness constraints
   covers a key column that tells them apart, or no column that they write.
   */
  lemma {:induction false} UpdatesCommute(m: MetaTable, v: map<string, Value>, u: map<string, Value>, db: Db)
    requires Proper(m) && DifferentKeys(m, v, u) && ConsistentDb(db)
    requires m.table in db ==>
               forall k | 0 <= k < |db[m.table].unique| :: Harmless(m, v, u, db[m.table].unique[k])
    ensures ApplyAll([EntityUpdate(m, v), EntityUpdate(m, u)], db) ==
            ApplyAll([EntityUpdate(m, u), EntityUpdate(m, v)], db)
  {
    UpdateOrdersAgree(m, v, u, db);
    hide ApplyAll, EntityUpdate, Takes, Consistent, AfterUpdate, Proper, Harmless;
    if m.table in db {
      var t := db[m.table];
      SameFinalRows(m, v, u, t);
      forall k | 0 <= k < |t.unique|
        ensures Harmless(m, u, v, t.unique[k])
      {
        HarmlessBothWays(m, v, u, t.unique[k]);
      }
      if Consistent(AfterUpdate(m, u, AfterUpdate(m, v, t))) {
        LegalInBetween(m, v, u, t);
        LegalInBetween(m, u, v, t);
      }
    }
  }

  lemma {:induction false} HarmlessBothWays(m: MetaTable, v: map<string, Value>, u: map<string, Value>,
                                            names: set<string>)
    ensures Harmless(m, v, u, names) == Harmless(m, u, v, names)
  {
  }

  // ----- an order that matters

  const ID := MetaColumn("ID", "id", false, true)

  const X := MetaColumn("X", "x", false, false)

  const NUMBERED := MetaTable("t", [ID], [ID, X], [], [], [])

  function Numbered(id: int, x: int): map<string, Value> {
    map["ID" := Int(id), "X" := Int(x)]
  }

  function RowOf(id: int, x: int): Row {
    map["id" := Int(id), "x" := Int(x)]
  }

  /** Two rows, `x` unique. */
  function TwoRows(x: int, y: int): Table {
    Table({"id", "x"}, {}, [{"x"}], [RowOf(1, x), RowOf(2, y)])
  }

  lemma {:induction false} NumberedIsProper()
    ensures Proper(NUMBERED)
  {
    assert ColumnNames(NUMBERED.columns) == ["id", "x"];
    assert "id"[0] != "x"[0];
  }

  lemma {:induction false} TwoRowsLegal(x: int, y: int)
    ensures Consistent(TwoRows(x, y)) <==> x != y
  {
    var t := TwoRows(x, y);
    assert Clash({"x"}, t.rows[0], t.rows[1]) <==> x == y by {
      assert At(t.rows[0], "x") == Int(x) && At(t.rows[1], "x") == Int(y);
    }
    assert t.unique[0] == {"x"};
  }

  lemma {:induction false} NumberedSets(id: int, x: int)
    ensures EntitySets(NUMBERED, Numbered(id, x), true) == [Assign("x", Int(x))]
  {
    var v := Numbered(id, x);
    assert [ID, X][..1] == [ID] && [ID][..0] == [];
    assert Mentioned([ID], v, true) == [];
    assert Mentioned([ID, X], v, true) == [X];
  }

  lemma {:induction false} OverwriteOne(col: string, val: Value, row: Row)
    requires col in row
    ensures Overwrite(Plain, [Assign(col, val)], row) == row[col := val]
  {
    var sets := [Assign(col, val)];
    assert Name(Plain, sets[0].col) == col && sets[..0] == [];
    forall c
      ensures Assigned(Plain, sets, c) == if c == col then Some(val) else None
    {
      assert Assigned(Plain, sets[..0], c) == None;
    }
    assert Names(Plain, sets) == {col};
  }

  lemma {:induction false} NumberedWritten(id: int, x: int, k: int, y: int)
    ensures Updated(NUMBERED, Numbered(id, x), RowOf(k, y)) == RowOf(k, if k == id then x else y)
  {
    var v, row := Numbered(id, x), RowOf(k, y);
    NumberedIsProper();
    UpdatedRow(NUMBERED, v, row);
    hide Updated, WrittenInto, Overwrite;
    assert HasKeyOf(NUMBERED, v, row) <==> k == id by {
      assert At(row, NUMBERED.primaryKey[0].column) == Int(k) && At(v, NUMBERED.primaryKey[0].field) == Int(id);
    }
    NumberedSets(id, x);
    OverwriteOne("x", Int(x), row);
    assert row["x" := Int(x)] == RowOf(k, x);
  }

  lemma {:induction false} NumberedTaken(id: int, x: int, t: Table)
    requires t.columns == {"id", "x"}
    ensures Takes(NUMBERED, Numbered(id, x), t)
  {
    NumberedSets(id, x);
    var names, vals := ColumnNames(NUMBERED.primaryKey), ValuesOf(NUMBERED.primaryKey, Numbered(id, x));
    assert names == ["id"];
    FillAt(names, vals);
    QuotedPlain(Fill(names, vals));
    assert Targets([Assign("x", Int(x))]) == ["x"];
    hide EntitySets, Mentioned, Fill;
  }

  lemma {:induction false} NumberedUpdates(x: int, y: int, z: int)
    ensures AfterUpdate(NUMBERED, Numbered(1, z), TwoRows(x, y)) == TwoRows(z, y)
    ensures AfterUpdate(NUMBERED, Numbered(2, z), TwoRows(x, y)) == TwoRows(x, z)
  {
    hide Updated;
    NumberedWritten(1, z, 1, x);
    NumberedWritten(1, z, 2, y);
    NumberedWritten(2, z, 1, x);
    NumberedWritten(2, z, 2, y);
  }

  /**
   With `x` unique, giving row 1 the number of row 2 fails before row 2 has changed its own, and succeeds afterwards.
   */
  lemma {:induction false} OrderMatters()
    ensures var db := map["t" := TwoRows(10, 20)];
            var v, u := EntityUpdate(NUMBERED, Numbered(1, 20)), EntityUpdate(NUMBERED, Numbered(2, 30));
            ApplyAll([v, u], db) == None && ApplyAll([u, v], db) == Some(map["t" := TwoRows(20, 30)])
  {
    BothOn(Numbered(1, 20), Numbered(2, 30), TwoRows(10, 20));
    BothOn(Numbered(2, 30), Numbered(1, 20), TwoRows(10, 20));
    NumberedTaken(1, 20, TwoRows(10, 20));
    NumberedTaken(2, 30, TwoRows(10, 20));
    hide *;
    NumberedUpdates(10, 20, 20);
    NumberedUpdates(10, 20, 30);
    NumberedUpdates(10, 30, 20);
    TwoRowsLegal(20, 20);
    TwoRowsLegal(10, 30);
    TwoRowsLegal(20, 30);
  }

  lemma {:induction false} BothOn(v: map<string, Value>, u: map<string, Value>, t: Table)
    ensures ApplyAll([EntityUpdate(NUMBERED, v), EntityUpdate(NUMBERED, u)], map["t" := t]) ==
            if && Takes(NUMBERED, v, t) && Takes(NUMBERED, u, t) && Consistent(AfterUpdate(NUMBERED, v, t))
               && Consistent(AfterUpdate(NUMBERED, u, AfterUpdate(NUMBERED, v, t)))
            then Some(map["t" := AfterUpdate(NUMBERED, u, AfterUpdate(NUMBERED, v, t))]) else None
  {
    ApplyBoth(NUMBERED, v, u, map["t" := t]);
    var t' := AfterUpdate(NUMBERED, u, AfterUpdate(NUMBERED, v, t));
    assert NUMBERED.table == "t";
    hide *;
    assert map["t" := t]["t" := t'] == map["t" := t'];
  }

  lemma {:induction false} ApplyTwo(p: Patch, q: Patch, db: Db)
    ensures ApplyAll([p, q], db) == match ApplyPatch(p, db) case None => None case Some(db') => ApplyPatch(q, db')
  {
    hide ApplyPatch;
    assert [p, q][..1] == [p] && [p][..0] == [];
    assert ApplyAll([p], db) == ApplyPatch(p, db);
  }

  lemma {:induction false} DeleteNone(d: Dialect, where: Cond, rows: seq<Row>)
    requires forall i | 0 <= i < |rows| :: !Selects(d, where, rows[i])
    ensures DeleteRows(d, where, rows) == rows
  {
    hide Selects;
    if rows != [] {
      DeleteNone(d, where, rows[..|rows| - 1]);
    }
  }

  /** The row that an insert patch adds has the key of its entity, unless an omitted column is part of the key. */
  lemma {:induction false} InsertedHasKey(m: MetaTable, v: map<string, Value>, row: Row)
    requires Proper(m) && forall k | k in m.primaryKey :: Mentions(k, v, false)
    ensures HasKeyOf(m, v, Overwrite(Plain, EntitySets(m, v, false), row))
  {
    hide Overwrite;
    forall i | 0 <= i < |m.primaryKey|
      ensures At(Overwrite(Plain, EntitySets(m, v, false), row), m.primaryKey[i].column) == At(v, m.primaryKey[i].field)
    {
      assert m.primaryKey[i] in m.primaryKey;
      WrittenAt(m, v, false, row, m.primaryKey[i]);
    }
  }

  /** The columns of the key are known to a table that accepts the insert. */
  lemma {:induction false} KeyKnown(m: MetaTable, v: map<string, Value>, t: Table)
    requires Proper(m) && forall k | k in m.primaryKey :: Mentions(k, v, false)
    requires KnownAll(Plain, t, Quotes(Plain, ColumnNames(Mentioned(m.columns, v, false))))
    ensures KnownCond(Plain, t, RowKeyCond(Plain, EntityDelete(m, v).rowKey))
  {
    var cols := Mentioned(m.columns, v, false);
    var idents := Quotes(Plain, ColumnNames(cols));
    var names := ColumnNames(m.primaryKey);
    var key := Fill(names, ValuesOf(m.primaryKey, v));
    FillAt(names, ValuesOf(m.primaryKey, v));
    QuotedPlain(key);
    MentionedOnly(m.columns, v, false);
    forall c | c in key
      ensures Known(Plain, t, c)
    {
      var i :| 0 <= i < |names| && names[i] == c;
      assert m.primaryKey[i] in m.primaryKey;
      assert m.primaryKey[i] in cols;
      var j :| 0 <= j < |cols| && cols[j] == m.primaryKey[i];
      assert Known(Plain, t, idents[j]) && idents[j] == c;
    }
  }

  lemma {:induction false} ApplyInsert(m: MetaTable, v: map<string, Value>, db: Db)
    requires ApplyPatch(EntityInsert(m, v), db).Some?
    ensures m.table in db
    ensures var t := db[m.table];
            var added := Overwrite(Plain, EntitySets(m, v, false), map c | c in t.columns :: Null);
            && KnownAll(Plain, t, Quotes(Plain, ColumnNames(Mentioned(m.columns, v, false))))
            && ApplyPatch(EntityInsert(m, v), db).value == db[m.table := t.(rows := t.rows + [added])]
  {
    ResolveOfQuote(Plain, m.table);
    var p, t := EntityInsert(m, v), db[m.table];
    var added := Overwrite(Plain, EntitySets(m, v, false), map c | c in t.columns :: Null);
    assert NewRows(Plain, t, Quotes(Plain, p.cols), [p.vals]) == [added];
  }

  lemma {:induction false} DeleteAdded(m: MetaTable, v: map<string, Value>, t: Table, added: Row)
    requires Proper(m) && Consistent(t) && HasKeyOf(m, v, added)
    requires forall i | 0 <= i < |t.rows| :: !HasKeyOf(m, v, t.rows[i])
    requires KnownCond(Plain, t, RowKeyCond(Plain, EntityDelete(m, v).rowKey))
    ensures ExecOn(Plain, PatchStatement(Plain, EntityDelete(m, v)), t.(rows := t.rows + [added])) == Some(t)
  {
    hide Selects, HasKeyOf, Consistent, KnownCond, RowKeyCond, DeleteRows;
    var where := RowKeyCond(Plain, EntityDelete(m, v).rowKey);
    KnownSame(Plain, t, t.(rows := t.rows + [added]), where);
    DeletesAdded(m, v, t.rows, added);
  }

  lemma {:induction false} DeletesAdded(m: MetaTable, v: map<string, Value>, rows: seq<Row>, added: Row)
    requires Proper(m) && HasKeyOf(m, v, added)
    requires forall i | 0 <= i < |rows| :: !HasKeyOf(m, v, rows[i])
    ensures DeleteRows(Plain, RowKeyCond(Plain, EntityDelete(m, v).rowKey), rows + [added]) == rows
  {
    hide Selects, HasKeyOf, RowKeyCond;
    var where := RowKeyCond(Plain, EntityDelete(m, v).rowKey);
    KeySelects(m, v, added);
    forall i | 0 <= i < |rows|
      ensures !Selects(Plain, where, rows[i])
    {
      KeySelects(m, v, rows[i]);
    }
    DeleteNone(Plain, where, rows);
    assert (rows + [added])[..|rows|] == rows;
    assert rows + [] == rows;
  }

  /** The row that an insert adds: the value of every field that is sent, NULL elsewhere. */
  lemma {:induction false} InsertAddsRow(m: MetaTable, v: map<string, Value>, db: Db)
    requires Proper(m) && ApplyPatch(EntityInsert(m, v), db).Some?
    ensures m.table in db
    ensures exists added :: ApplyPatch(EntityInsert(m, v), db).value ==
                              db[m.table := db[m.table].(rows := db[m.table].rows + [added])] &&
              (forall c | c in m.columns :: At(added, c.column) ==
                 if c.omitEmpty && At(v, c.field) in {Null, Int(0), Text("")} then Null else At(v, c.field)) &&
              forall name | name !in ColumnNames(m.columns) :: At(added, name) == Null
  {
    ApplyInsert(m, v, db);
    var t := db[m.table];
    var blank := map c | c in t.columns :: Null;
    var added := Overwrite(Plain, EntitySets(m, v, false), blank);
    hide Overwrite, EntitySets, ApplyPatch, Proper;
    forall c | c in m.columns
      ensures At(added, c.column) ==
              if c.omitEmpty && At(v, c.field) in {Null, Int(0), Text("")} then Null else At(v, c.field)
    {
      WrittenOrKept(m, v, false, blank, c);
    }
    forall name | name !in ColumnNames(m.columns)
      ensures At(added, name) == Null
    {
      OthersAreKept(m, v, false, blank, name);
    }
  }

  /** A delete takes away the rows with the key of the entity and keeps the others, in order. */
  lemma {:induction false} DeleteActsOnItsRow(m: MetaTable, v: map<string, Value>, db: Db)
    requires Proper(m) && ApplyPatch(EntityDelete(m, v), db).Some?
    ensures m.table in db
    ensures ApplyPatch(EntityDelete(m, v), db).value ==
            db[m.table := db[m.table].(rows := Missed(EntityDelete(m, v), db[m.table].rows))]
    ensures forall row :: Hit(EntityDelete(m, v), row) <==> HasKeyOf(m, v, row)
  {
    PatchMeans(EntityDelete(m, v), db);
    hide Hit, HasKeyOf, ApplyPatch, Missed, Proper;
    forall row
      ensures Hit(EntityDelete(m, v), row) <==> HasKeyOf(m, v, row)
    {
      KeyHits(m, v, row);
    }
  }

  lemma {:induction false} KeyHits(m: MetaTable, v: map<string, Value>, row: Row)
    requires Proper(m)
    ensures Hit(EntityDelete(m, v), row) <==> HasKeyOf(m, v, row)
  {
    KeySelects(m, v, row);
    HitSelects(EntityDelete(m, v), row);
    hide Selects, HasKeyOf, Hit, Fill;
  }

  lemma {:induction false} InsertDeleted(m: MetaTable, v: map<string, Value>, db: Db)
    requires Proper(m) && ConsistentDb(db) && m.table in db
    requires forall k | k in m.primaryKey :: Mentions(k, v, false)
    requires forall i | 0 <= i < |db[m.table].rows| :: !HasKeyOf(m, v, db[m.table].rows[i])
    requires ApplyPatch(EntityInsert(m, v), db).Some?
    ensures ApplyAll([EntityInsert(m, v), EntityDelete(m, v)], db) == Some(db)
  {
    hide Mentions, HasKeyOf, Proper, Overwrite, KnownCond;
    var t := db[m.table];
    var blank := map c | c in t.columns :: Null;
    var added := Overwrite(Plain, EntitySets(m, v, false), blank);
    var db' := db[m.table := t.(rows := t.rows + [added])];
    assert ApplyAll([EntityInsert(m, v), EntityDelete(m, v)], db) == ApplyPatch(EntityDelete(m, v), db') by {
      ApplyTwo(EntityInsert(m, v), EntityDelete(m, v), db);
      ApplyInsert(m, v, db);
    }
    assert ExecOn(Plain, PatchStatement(Plain, EntityDelete(m, v)), db'[m.table]) == Some(t) by {
      ApplyInsert(m, v, db);
      InsertedHasKey(m, v, blank);
      KeyKnown(m, v, t);
      DeleteAdded(m, v, t, added);
    }
    hide ExecOn;
    assert ApplyPatch(EntityDelete(m, v), db') == Put(db', m.table, Some(t)) by {
      ResolveOfQuote(Plain, m.table);
    }
    assert db'[m.table := t] == db;
  }

  /** Inserting an entity with a fresh key, none of it left out, and deleting it again restores the database. */
  lemma {:induction false} InsertThenDelete(m: MetaTable, v: map<string, Value>, db: Db)
    requires Proper(m) && ConsistentDb(db) && m.table in db
    requires forall k | k in m.primaryKey :: !k.omitEmpty || At(v, k.field) !in {Null, Int(0), Text("")}
    requires forall i | 0 <= i < |db[m.table].rows| :: !HasKeyOf(m, v, db[m.table].rows[i])
    requires ApplyPatch(EntityInsert(m, v), db).Some?
    ensures ApplyAll([EntityInsert(m, v), EntityDelete(m, v)], db) == Some(db)
  {
    assert forall k | k in m.primaryKey :: Mentions(k, v, false);
    hide *;
    InsertDeleted(m, v, db);
  }
}
