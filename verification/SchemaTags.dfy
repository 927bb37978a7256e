/** What the meta schema holds, told by the literal tags and types of the fields. */
module SchemaTags {
  import opened Strings
  import opened Sql
  import opened Meta

  // ----- the tags of columns and tables

  /**
   A column tag is a list: its first element is the name, if it is not empty, and `omitempty` counts in second place
   only. A `primary_key` tag goes before a `column` tag.
   */
  lemma {:induction false} ColumnTag(snake: string -> string, f: Field, key: string, parts: seq<string>)
    requires key == "primary_key" || (key == "column" && "primary_key" !in f.tag)
    requires parts != [] && forall i | 0 <= i < |parts| :: Free(',', parts[i])
    requires key in f.tag && f.tag[key] == Join(parts, ',')
    ensures ColumnName(snake, f) == if parts[0] != "" then parts[0] else snake(f.name)
    ensures OmitEmpty(f) <==> |parts| > 1 && parts[1] == "omitempty"
  {
    SplitOfJoin(parts, ',');
  }

  /** Without either tag the column has the name of the field and is never left out. */
  lemma {:induction false} UntaggedColumn(snake: string -> string, f: Field)
    requires "primary_key" !in f.tag && "column" !in f.tag
    ensures ColumnName(snake, f) == snake(f.name) && !OmitEmpty(f)
  {
  }

  /** A field that is ignored, or has neither of the tags that can name a table. */
  predicate NamesNoTable(f: Field) {
    "ignore" in f.tag || ("table" !in f.tag && "view" !in f.tag)
  }

  /** The first field with a table tag, or else a view tag, names the table; the name of the struct stands in. */
  lemma {:induction false} TableTag(snake: string -> string, decl: Decl, k: nat)
    requires k <= |decl.fields| && forall i | 0 <= i < k :: NamesNoTable(decl.fields[i])
    requires k < |decl.fields| ==> !NamesNoTable(decl.fields[k])
    ensures TableName(snake, decl) ==
            if k == |decl.fields| then snake(decl.name)
            else
              var tag := decl.fields[k].tag;
              var tv := if "table" in tag then tag["table"] else tag["view"];
              if tv != "" then tv else snake(decl.name)
  {
    TableTagIn(snake(decl.name), decl.fields, k);
  }

  lemma {:induction false} TableTagIn(name: string, fields: seq<Field>, k: nat)
    requires k <= |fields| && forall i | 0 <= i < k :: NamesNoTable(fields[i])
    requires k < |fields| ==> !NamesNoTable(fields[k])
    ensures TableNameIn(name, fields) ==
            if k == |fields| then name
            else
              var tv := if "table" in fields[k].tag then fields[k].tag["table"] else fields[k].tag["view"];
              if tv != "" then tv else name
  {
    if k > 0 {
      assert forall i | 0 <= i < |fields| - 1 :: fields[1..][i] == fields[i + 1];
      TableTagIn(name, fields[1..], k - 1);
    }
  }

  // ----- columns and primary key

  /** `at` lists places in increasing order. */
  predicate Ascending(at: seq<nat>) {
    forall i, j | 0 <= i < j < |at| :: at[i] < at[j]
  }

  /** `cols` describes the fields at the places `at`, in field order. */
  predicate Describes(snake: string -> string, fields: seq<Field>, cols: seq<MetaColumn>, at: seq<nat>) {
    && |at| == |cols| && Ascending(at)
    && forall i | 0 <= i < |at| ::
         && at[i] < |fields|
         && var f := fields[at[i]];
            cols[i] == MetaColumn(f.name, ColumnName(snake, f), OmitEmpty(f), "primary_key" in f.tag)
  }

  /** The places of the fields that a filter leaves. */
  ghost predicate Places(fields: seq<Field>, fn: Field -> bool, filtered: seq<Field>, at: seq<nat>) {
    && Ascending(at) && |at| == |filtered|
    && (forall i | 0 <= i < |at| :: at[i] < |fields| && fields[at[i]] == filtered[i])
    && (forall k | 0 <= k < |fields| :: k in at <==> fn(fields[k]))
  }

  lemma {:induction false} OneMorePlace(fields: seq<Field>, fn: Field -> bool, f: Field, filtered: seq<Field>,
                                        at: seq<nat>)
    requires Places(fields, fn, filtered, at)
    ensures fn(f) ==> Places(fields + [f], fn, filtered + [f], at + [|fields|])
    ensures !fn(f) ==> Places(fields + [f], fn, filtered, at)
  {
    var n, all := |fields|, fields + [f];
    assert all[n] == f && forall k | 0 <= k < n :: all[k] == fields[k];
    assert forall i | 0 <= i < |at| :: at[i] < n;
    assert forall k :: k in at + [n] <==> k in at || k == n;
  }

  lemma {:induction false} FilterMore(fields: seq<Field>, fn: Field -> bool, f: Field)
    ensures Filter(fields + [f], fn) == if fn(f) then Filter(fields, fn) + [f] else Filter(fields, fn)
  {
    assert (fields + [f])[..|fields|] == fields;
  }

  lemma {:induction false} NoPlaces(fn: Field -> bool)
    ensures Places([], fn, Filter([], fn), [])
  {
  }

  lemma {:induction false} FilterPlaces(fields: seq<Field>, fn: Field -> bool) returns (at: seq<nat>)
    ensures Places(fields, fn, Filter(fields, fn), at)
  {
    hide *;
    if fields == [] {
      at := [];
      NoPlaces(fn);
    } else {
      var n := |fields| - 1;
      var before := FilterPlaces(fields[..n], fn);
      at := if fn(fields[n]) then before + [n] else before;
      OneMorePlace(fields[..n], fn, fields[n], Filter(fields[..n], fn), before);
      FilterMore(fields[..n], fn, fields[n]);
      assert fields == fields[..n] + [fields[n]];
    }
  }

  predicate IsKeyColumn(f: Field) {
    IsColumn(f) && IsPrimaryKey(f)
  }

  lemma {:induction false} FilterTwice(fields: seq<Field>)
    ensures Filter(Filter(fields, IsColumn), IsPrimaryKey) == Filter(fields, IsKeyColumn)
  {
    if fields != [] {
      var n := |fields| - 1;
      var cols := Filter(fields[..n], IsColumn);
      FilterTwice(fields[..n]);
      assert Filter(fields, IsColumn) == cols + (if IsColumn(fields[n]) then [fields[n]] else []);
      FilterConcat(cols, if IsColumn(fields[n]) then [fields[n]] else [], IsPrimaryKey);
      assert Filter([fields[n]], IsPrimaryKey) == if IsPrimaryKey(fields[n]) then [fields[n]] else [];
    }
  }

  /**
   The columns of a struct are its fields that are neither ignored nor relations, and the primary key those of them
   that are marked as such: all of these and nothing else, in field order.
   */
  lemma {:induction false} ColumnsAndKey(snake: string -> string, types: seq<Decl>, decl: Decl)
    ensures exists at :: Describes(snake, decl.fields, MetaOf(snake, types, decl).columns, at) &&
              forall k | 0 <= k < |decl.fields| ::
                k in at <==> "ignore" !in decl.fields[k].tag && "foreign_key" !in decl.fields[k].tag
    ensures exists at :: Describes(snake, decl.fields, MetaOf(snake, types, decl).primaryKey, at) &&
              forall k | 0 <= k < |decl.fields| ::
                k in at <==> "ignore" !in decl.fields[k].tag && "foreign_key" !in decl.fields[k].tag
                             && "primary_key" in decl.fields[k].tag
  {
    FilterTwice(decl.fields);
    var at := FilterPlaces(decl.fields, IsColumn);
    var keys := FilterPlaces(decl.fields, IsKeyColumn);
    hide Filter, ColumnName, OmitEmpty;
    assert Describes(snake, decl.fields, MetaOf(snake, types, decl).columns, at);
    assert Describes(snake, decl.fields, MetaOf(snake, types, decl).primaryKey, keys);
  }

  // ----- the keys by which other structs refer to a struct

  /** A relation field of a registered type that leads to the struct, with its key. */
  ghost predicate LeadsBy(snake: string -> string, types: seq<Decl>, refe: Decl, f: Field, key: seq<MetaColumn>) {
    && (exists d | d in types :: f in d.fields)
    && "ignore" !in f.tag && "foreign_key" in f.tag && ElemType(f.typ) == Struct(refe.name)
    && key == KeyColumns(snake, refe, ReferenceKey(f))
  }

  lemma {:induction false} ReferringOnly(types: seq<Decl>, name: string, f: Field)
    ensures f in Referring(types, name) <==> Refers(name, f) && exists d | d in types :: f in d.fields
  {
    if types != [] {
      var n := |types| - 1;
      ReferringOnly(types[..n], name, f);
      Filtered(types[n].fields, x => Refers(name, x));
      assert types == types[..n] + [types[n]];
    }
  }

  lemma {:induction false} KeysOfOnly(snake: string -> string, decl: Decl, fields: seq<Field>, key: seq<MetaColumn>)
    ensures key in KeysOf(snake, decl, fields) <==>
            exists f | f in fields :: key == KeyColumns(snake, decl, ReferenceKey(f))
  {
    hide KeyColumns;
    if key in KeysOf(snake, decl, fields) {
      var i :| 0 <= i < |fields| && KeysOf(snake, decl, fields)[i] == key;
      assert fields[i] in fields;
    }
    if f :| f in fields && key == KeyColumns(snake, decl, ReferenceKey(f)) {
      KeyAmong(snake, decl, fields, f);
    }
  }

  /** The reference keys are those of the relation fields that lead to the struct, by cardinality, and no others. */
  lemma {:induction false} ReferenceKeys(snake: string -> string, types: seq<Decl>, refe: Decl, key: seq<MetaColumn>)
    ensures var m := MetaOf(snake, types, refe);
            && (key in m.refs <==> exists f :: LeadsBy(snake, types, refe, f, key))
            && (key in m.oneToMany <==> exists f :: LeadsBy(snake, types, refe, f, key) && IsOneToMany(f))
            && (key in m.manyToOne <==> exists f :: LeadsBy(snake, types, refe, f, key) && IsManyToOne(f))
  {
    var refs := Referring(types, refe.name);
    KeysOfOnly(snake, refe, refs, key);
    KeysOfOnly(snake, refe, Filter(refs, IsOneToMany), key);
    KeysOfOnly(snake, refe, Filter(refs, IsToOne), key);
    Filtered(refs, IsOneToMany);
    Filtered(refs, IsToOne);
    hide KeyColumns, KeysOf, Filter, Referring, IsOneToMany, IsManyToOne, ReferenceKey;
    forall f
      ensures f in refs && key == KeyColumns(snake, refe, ReferenceKey(f)) <==> LeadsBy(snake, types, refe, f, key)
    {
      ReferringOnly(types, refe.name, f);
    }
    forall f
      ensures IsManyToOne(f) <==> IsToOne(f)
    {
      OneCardinality(f);
    }
  }

  // ----- types of relation fields

  /** A struct behind slices (true) and references (false). */
  function Wrapped(layers: seq<bool>, name: string): GoType {
    if layers == [] then Struct(name)
    else if layers[0] then Slice(Wrapped(layers[1..], name))
    else Ptr(Wrapped(layers[1..], name))
  }

  lemma {:induction false} Layers(t: GoType) returns (layers: seq<bool>)
    ensures ElemType(t).Struct? ==> t == Wrapped(layers, ElemType(t).name)
    ensures Pointee(t).Struct? ==> true !in layers
    ensures t.Slice? ==> layers != [] && layers[0]
  {
    match t
    case Struct(_) => layers := [];
    case Basic(_) => layers := [];
    case Ptr(e) =>
      var rest := Layers(e);
      layers := [false] + rest;
    case Slice(e) =>
      var rest := Layers(e);
      layers := [true] + rest;
  }

  lemma {:induction false} WrappedEnds(layers: seq<bool>, name: string)
    ensures ElemType(Wrapped(layers, name)) == Struct(name)
    ensures Pointee(Wrapped(layers, name)).Struct? <==> true !in layers
  {
    if layers != [] {
      WrappedEnds(layers[1..], name);
      assert layers == [layers[0]] + layers[1..];
    }
  }

  lemma {:induction false} PointeeIsElem(t: GoType)
    ensures Pointee(t).Struct? ==> ElemType(t) == Pointee(t)
  {
    if t.Ptr? {
      PointeeIsElem(t.elem);
    }
  }

  /** To-many fields are slices that lead to a struct through any layers, to-one fields structs behind references. */
  lemma {:induction false} RelationTypes(f: Field)
    ensures IsOneToMany(f) <==> exists layers, name :: layers != [] && layers[0] && f.typ == Wrapped(layers, name)
    ensures IsManyToOne(f) <==> exists layers, name :: true !in layers && f.typ == Wrapped(layers, name)
  {
    var layers := Layers(f.typ);
    PointeeIsElem(f.typ);
    forall l, name | f.typ == Wrapped(l, name)
      ensures ElemType(f.typ) == Struct(name) && (Pointee(f.typ).Struct? <==> true !in l)
      ensures l != [] && l[0] ==> f.typ.Slice?
    {
      WrappedEnds(l, name);
    }
    hide ElemType, Pointee;
    if IsOneToMany(f) {
      assert f.typ == Wrapped(layers, ElemType(f.typ).name);
    }
    if IsManyToOne(f) {
      assert f.typ == Wrapped(layers, ElemType(f.typ).name);
    }
  }

  // ----- looking a column up

  /** The lookup finds the first field that is not ignored and has the column's name. */
  lemma {:induction false} ColumnLookup(snake: string -> string, fields: seq<Field>, name: string)
    ensures match First(fields, EqColumnName(snake, name))
            case Some(f) =>
              exists k | 0 <= k < |fields| ::
                && fields[k] == f && "ignore" !in f.tag && ColumnName(snake, f) == name
                && forall i | 0 <= i < k :: "ignore" in fields[i].tag || ColumnName(snake, fields[i]) != name
            case None =>
              forall i | 0 <= i < |fields| :: "ignore" in fields[i].tag || ColumnName(snake, fields[i]) != name
  {
    hide ColumnName;
    if fields != [] {
      var rest := fields[1..];
      ColumnLookup(snake, rest, name);
      assert forall i | 0 <= i < |rest| :: fields[i + 1] == rest[i];
      if !HasColumn(snake, name, fields[0]) && First(rest, EqColumnName(snake, name)).Some? {
        var f := First(rest, EqColumnName(snake, name)).value;
        var k :| 0 <= k < |rest|
              && rest[k] == f && "ignore" !in f.tag && ColumnName(snake, f) == name
              && forall i | 0 <= i < k :: "ignore" in rest[i].tag || ColumnName(snake, rest[i]) != name;
        assert fields[k + 1] == f;
        forall i | 0 <= i < k + 1
          ensures "ignore" in fields[i].tag || ColumnName(snake, fields[i]) != name
        {
          assert i > 0 ==> fields[i] == rest[i - 1];
        }
      }
    }
  }

  /** A field that is a column of that name. */
  predicate HoldsColumn(snake: string -> string, name: string, f: Field) {
    "ignore" !in f.tag && "foreign_key" !in f.tag && ColumnName(snake, f) == name
  }

  lemma {:induction false} ColumnAmong(snake: string -> string, fields: seq<Field>, name: string)
    ensures match First(Filter(fields, IsColumn), EqColumnName(snake, name))
            case Some(f) => f in fields && HoldsColumn(snake, name, f)
            case None => forall f | f in fields :: !HoldsColumn(snake, name, f)
  {
    FirstFound(Filter(fields, IsColumn), EqColumnName(snake, name));
    Filtered(fields, IsColumn);
    hide First, Filter, ColumnName;
  }

  lemma {:induction false} ResolvedMeans(snake: string -> string, fields: seq<Field>, names: seq<string>)
    ensures match Resolved(snake, Filter(fields, IsColumn), names)
            case None => exists c | c in names :: forall f | f in fields :: !HoldsColumn(snake, c, f)
            case Some(cols) =>
              && |cols| == |names|
              && forall i | 0 <= i < |names| ::
                   cols[i].column == names[i] &&
                   exists f | f in fields :: HoldsColumn(snake, names[i], f) && cols[i].field == f.name
  {
    hide First, Filter, HoldsColumn;
    if names != [] {
      var n := |names| - 1;
      ResolvedMeans(snake, fields, names[..n]);
      ColumnAmong(snake, fields, names[n]);
      assert names == names[..n] + [names[n]];
      if c :| c in names[..n] && forall f | f in fields :: !HoldsColumn(snake, c, f) {
        assert c in names;
      }
      assert names[n] in names;
    }
  }

  /**
   The relation that the generator writes out names the field, the table it leads to, and for each pair of the tag the
   two columns with fields that hold them; it panics exactly when some name has no column.
   */
  lemma {:induction false} RelationColumns(snake: string -> string, decl: Decl, f: Field, refe: Decl)
    ensures match RelationOf(snake, decl, f, refe)
            case None =>
              || (exists c | c in ForeignKey(f) :: forall g | g in decl.fields :: !HoldsColumn(snake, c, g))
              || (exists c | c in ReferenceKey(f) :: forall g | g in refe.fields :: !HoldsColumn(snake, c, g))
            case Some(rel) =>
              && rel.field == f.name && rel.table == TableName(snake, refe)
              && |rel.foreignKeys| == |rel.references| == |PairsOf(f)|
              && forall i | 0 <= i < |PairsOf(f)| ::
                   && rel.foreignKeys[i].column == PairsOf(f)[i].fore && rel.references[i].column == PairsOf(f)[i].refe
                   && (exists g | g in decl.fields ::
                         HoldsColumn(snake, PairsOf(f)[i].fore, g) && rel.foreignKeys[i].field == g.name)
                   && (exists g | g in refe.fields ::
                         HoldsColumn(snake, PairsOf(f)[i].refe, g) && rel.references[i].field == g.name)
  {
    ResolvedMeans(snake, decl.fields, ForeignKey(f));
    ResolvedMeans(snake, refe.fields, ReferenceKey(f));
    hide Resolved, Filter, HoldsColumn, PairsOf, TableName;
  }

  /** `key` describes, in order, the fields found for the names at the places `at`. */
  ghost predicate KeyDescribes(snake: string -> string, fields: seq<Field>, names: seq<string>, key: seq<MetaColumn>,
                               at: seq<nat>) {
    && Ascending(at) && |at| == |key|
    && (forall i | 0 <= i < |at| :: at[i] < |names| && FieldOfColumn(snake, fields, names[at[i]], key[i]))
    && (forall k | 0 <= k < |names| :: k in at <==> First(fields, EqColumnName(snake, names[k])).Some?)
  }

  ghost predicate FieldOfColumn(snake: string -> string, fields: seq<Field>, name: string, c: MetaColumn) {
    match First(fields, EqColumnName(snake, name))
    case Some(f) => c == MetaColumn(f.name, name, OmitEmpty(f), "primary_key" in f.tag)
    case None => false
  }

  lemma {:induction false} KeyDescribesMore(snake: string -> string, fields: seq<Field>, names: seq<string>,
                                            key: seq<MetaColumn>, at: seq<nat>, name: string)
    requires KeyDescribes(snake, fields, names, key, at)
    ensures match First(fields, EqColumnName(snake, name))
            case Some(f) =>
              KeyDescribes(snake, fields, names + [name], key + [ColumnOf(snake, f)], at + [|names|])
            case None => KeyDescribes(snake, fields, names + [name], key, at)
  {
    FirstFound(fields, EqColumnName(snake, name));
    hide First, ColumnName, OmitEmpty;
    var n, all := |names|, names + [name];
    assert all[n] == name && forall k | 0 <= k < n :: all[k] == names[k];
    assert forall i | 0 <= i < |at| :: at[i] < n;
    assert forall k :: k in at + [n] <==> k in at || k == n;
  }

  /** A key has a column for every name for which there is a field; the other names are passed over. */
  lemma {:induction false} KeyOfNames(snake: string -> string, decl: Decl, names: seq<string>)
    ensures exists at :: KeyDescribes(snake, decl.fields, names, KeyColumns(snake, decl, names), at)
  {
    hide KeyDescribes, First, ColumnOf;
    if names == [] {
      NoNames(snake, decl.fields);
      assert KeyColumns(snake, decl, names) == [];
      assert KeyDescribes(snake, decl.fields, names, [], []);
    } else {
      var n := |names| - 1;
      KeyOfNames(snake, decl, names[..n]);
      var before := KeyColumns(snake, decl, names[..n]);
      var at :| KeyDescribes(snake, decl.fields, names[..n], before, at);
      KeyDescribesMore(snake, decl.fields, names[..n], before, at, names[n]);
      assert names == names[..n] + [names[n]] && before + [] == before;
      match First(decl.fields, EqColumnName(snake, names[n]))
      case Some(f) =>
        assert KeyColumns(snake, decl, names) == before + [ColumnOf(snake, f)];
        assert KeyDescribes(snake, decl.fields, names, before + [ColumnOf(snake, f)], at + [n]);
      case None =>
        assert KeyColumns(snake, decl, names) == before;
        assert KeyDescribes(snake, decl.fields, names, before, at);
    }
  }

  lemma {:induction false} NoNames(snake: string -> string, fields: seq<Field>)
    ensures KeyDescribes(snake, fields, [], [], [])
  {
  }

  /** A row key has the named columns, and each the last value given for it. */
  lemma {:induction false} FilledLast(names: seq<string>, vals: seq<Value>, i: nat)
    requires |names| == |vals| && i < |names| && forall j | i < j < |names| :: names[j] != names[i]
    ensures names[i] in Fill(names, vals) && Fill(names, vals)[names[i]] == vals[i]
  {
    var n := |names| - 1;
    if i < n {
      FilledLast(names[..n], vals[..n], i);
    }
  }
}
