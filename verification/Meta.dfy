/**
 Struct tags, the meta schema computed from them (meta.go, internal/), and the relations the generator writes into
 the loaders (generator/generator.go). Tags are taken as maps; `snake` is the conversion of Go names.
 */
module Meta {
  import opened Wrappers
  import opened Strings
  import opened Sql
  import opened RowKeys
  import opened KeyStrings
  import opened ScopeCaches
  import opened Joins

  datatype GoType = Struct(name: string) | Basic(name: string) | Ptr(elem: GoType) | Slice(elem: GoType)

  datatype Field = Field(name: string, typ: GoType, tag: map<string, string>)

  datatype Decl = Decl(name: string, fields: seq<Field>)

  // ----- tags

  predicate IsIgnored(f: Field) {
    "ignore" in f.tag
  }

  predicate IsForeignKey(f: Field) {
    "foreign_key" in f.tag
  }

  predicate IsPrimaryKey(f: Field) {
    "primary_key" in f.tag
  }

  predicate IsColumn(f: Field) {
    !IsIgnored(f) && !IsForeignKey(f)
  }

  function StringAt(s: string, sep: char, i: nat): string {
    var eles := Split(s, sep);
    if i < |eles| then eles[i] else ""
  }

  function FirstLookup(tag: map<string, string>, a: string, b: string): Option<string> {
    if a in tag then Some(tag[a]) else if b in tag then Some(tag[b]) else None
  }

  function FirstNotEmpty(a: string, b: string): string {
    if a != "" then a else b
  }

  function ColumnName(snake: string -> string, f: Field): string {
    match FirstLookup(f.tag, "primary_key", "column")
    case Some(tv) => FirstNotEmpty(StringAt(tv, ',', 0), snake(f.name))
    case None => snake(f.name)
  }

  function OmitEmpty(f: Field): bool {
    match FirstLookup(f.tag, "primary_key", "column")
    case Some(tv) => StringAt(tv, ',', 1) == "omitempty"
    case None => false
  }

  /** The first field with a table or view tag names the table, unless the tag is empty. */
  function TableName(snake: string -> string, decl: Decl): string {
    TableNameIn(snake(decl.name), decl.fields)
  }

  function TableNameIn(name: string, fields: seq<Field>): string {
    if fields == [] then name
    else
      match FirstLookup(fields[0].tag, "table", "view")
      case Some(tv) => if IsIgnored(fields[0]) then TableNameIn(name, fields[1..]) else FirstNotEmpty(tv, name)
      case None => TableNameIn(name, fields[1..])
  }

  /** One element of a foreign key tag: `col`, or `col:other`. */
  function PairOf(ele: string): ColumnPair {
    ColumnPair(StringAt(ele, ':', 0), FirstNotEmpty(StringAt(ele, ':', 1), StringAt(ele, ':', 0)))
  }

  function PairsOf(f: Field): seq<ColumnPair> {
    if !IsForeignKey(f) then []
    else
      var eles := Split(f.tag["foreign_key"], ',');
      seq(|eles|, i requires 0 <= i < |eles| => PairOf(eles[i]))
  }

  function ForeignKey(f: Field): seq<string> {
    seq(|PairsOf(f)|, i requires 0 <= i < |PairsOf(f)| => PairsOf(f)[i].fore)
  }

  function ReferenceKey(f: Field): seq<string> {
    seq(|PairsOf(f)|, i requires 0 <= i < |PairsOf(f)| => PairsOf(f)[i].refe)
  }

  method ColPairs(f: Field) returns (pairs: seq<ColumnPair>)
    ensures pairs == PairsOf(f)
  {
    pairs := [];
    if "foreign_key" !in f.tag {
      return;
    }
    var eles := Split(f.tag["foreign_key"], ',');
    for i := 0 to |eles|
      invariant |pairs| == i && forall j | 0 <= j < i :: pairs[j] == PairOf(eles[j])
    {
      var pkey := StringAt(eles[i], ':', 0);
      var ckey := StringAt(eles[i], ':', 1);
      if ckey == "" {
        ckey := pkey;
      }
      pairs := pairs + [ColumnPair(pkey, ckey)];
    }
  }

  /** The columns on the side of the field's own struct. */
  method ParentKey(f: Field) returns (key: seq<string>)
    ensures key == ForeignKey(f)
  {
    var pairs := ColPairs(f);
    key := [];
    for i := 0 to |pairs|
      invariant |key| == i && forall j | 0 <= j < i :: key[j] == pairs[j].fore
    {
      key := key + [pairs[i].fore];
    }
  }

  /** The columns on the side of the struct the field leads to. */
  method ChildKey(f: Field) returns (key: seq<string>)
    ensures key == ReferenceKey(f)
  {
    var pairs := ColPairs(f);
    key := [];
    for i := 0 to |pairs|
      invariant |key| == i && forall j | 0 <= j < i :: key[j] == pairs[j].refe
    {
      key := key + [pairs[i].refe];
    }
  }

  predicate PlainName(s: string) {
    s != "" && Free(',', s) && Free(':', s)
  }

  /** The two ways to write a pair; the short one needs equal names. */
  function PairText(p: ColumnPair, short: bool): string {
    if short && p.fore == p.refe then p.fore else p.fore + ":" + p.refe
  }

  lemma {:induction false} PairRoundTrip(p: ColumnPair, short: bool)
    requires PlainName(p.fore) && PlainName(p.refe)
    ensures PairOf(PairText(p, short)) == p && Free(',', PairText(p, short))
  {
    if short && p.fore == p.refe {
      SplitFree(p.fore, ':');
    } else {
      assert PairText(p, short) == p.fore + [':'] + p.refe;
      SplitFirst(p.fore, ':', p.refe);
      SplitFree(p.refe, ':');
    }
  }

  /** A foreign key tag written for a list of column pairs is read back as that list. */
  lemma {:induction false} TagRoundTrip(pairs: seq<ColumnPair>, short: bool, f: Field)
    requires pairs != [] && forall i | 0 <= i < |pairs| :: PlainName(pairs[i].fore) && PlainName(pairs[i].refe)
    requires IsForeignKey(f)
    requires f.tag["foreign_key"] == Join(seq(|pairs|, i requires 0 <= i < |pairs| => PairText(pairs[i], short)), ',')
    ensures PairsOf(f) == pairs
  {
    var eles := seq(|pairs|, i requires 0 <= i < |pairs| => PairText(pairs[i], short));
    forall i | 0 <= i < |pairs|
      ensures PairOf(eles[i]) == pairs[i] && Free(',', eles[i])
    {
      PairRoundTrip(pairs[i], short);
    }
    SplitOfJoin(eles, ',');
  }

  // ----- finding fields

  function First(fields: seq<Field>, fn: Field -> bool): Option<Field> {
    if fields == [] then None
    else if fn(fields[0]) then Some(fields[0])
    else First(fields[1..], fn)
  }

  function Filter(fields: seq<Field>, fn: Field -> bool): seq<Field> {
    if fields == [] then []
    else Filter(fields[..|fields| - 1], fn) + if fn(fields[|fields| - 1]) then [fields[|fields| - 1]] else []
  }

  method FieldByFunc(fields: seq<Field>, fn: Field -> bool) returns (r: Option<Field>)
    ensures r == First(fields, fn)
  {
    for i := 0 to |fields|
      invariant First(fields, fn) == First(fields[i..], fn)
    {
      if fn(fields[i]) {
        return Some(fields[i]);
      }
      assert fields[i..][1..] == fields[i + 1..];
    }
    return None;
  }

  method FieldsByFunc(fields: seq<Field>, fn: Field -> bool) returns (filtered: seq<Field>)
    ensures filtered == Filter(fields, fn)
  {
    filtered := [];
    for i := 0 to |fields|
      invariant filtered == Filter(fields[..i], fn)
    {
      assert fields[..i + 1][..i] == fields[..i];
      if fn(fields[i]) {
        filtered := filtered + [fields[i]];
      }
    }
    assert fields[..|fields|] == fields;
  }

  predicate HasColumn(snake: string -> string, name: string, f: Field) {
    !IsIgnored(f) && ColumnName(snake, f) == name
  }

  function EqColumnName(snake: string -> string, name: string): Field -> bool {
    f => HasColumn(snake, name, f)
  }

  // ----- kinds of relations

  function ElemType(t: GoType): GoType {
    match t
    case Ptr(e) => ElemType(e)
    case Slice(e) => ElemType(e)
    case _ => t
  }

  function Pointee(t: GoType): GoType {
    if t.Ptr? then Pointee(t.elem) else t
  }

  predicate IsOneToMany(f: Field) {
    f.typ.Slice? && ElemType(f.typ).Struct?
  }

  predicate IsManyToOne(f: Field) {
    Pointee(f.typ).Struct?
  }

  /** The switch on cardinality: many-to-one is tried second. */
  predicate IsToOne(f: Field) {
    !IsOneToMany(f) && IsManyToOne(f)
  }

  method IsOneToManyField(f: Field) returns (r: bool)
    ensures r == IsOneToMany(f)
  {
    var typ := f.typ;
    if !typ.Slice? {
      return false;
    }
    while typ.Ptr? || typ.Slice?
      invariant ElemType(typ) == ElemType(f.typ)
      decreases typ
    {
      typ := typ.elem;
    }
    return typ.Struct?;
  }

  method IsManyToOneField(f: Field) returns (r: bool)
    ensures r == IsManyToOne(f)
  {
    var typ := f.typ;
    while typ.Ptr?
      invariant Pointee(typ) == Pointee(f.typ)
      decreases typ
    {
      typ := typ.elem;
    }
    return typ.Struct?;
  }

  /** No field is both. */
  lemma {:induction false} OneCardinality(f: Field)
    ensures !(IsOneToMany(f) && IsManyToOne(f))
  {
  }

  // ----- the meta schema

  datatype MetaColumn = MetaColumn(field: string, column: string, omitEmpty: bool, primary: bool)

  datatype MetaTable =
    MetaTable(table: string, primaryKey: seq<MetaColumn>, columns: seq<MetaColumn>,
              refs: seq<seq<MetaColumn>>, oneToMany: seq<seq<MetaColumn>>, manyToOne: seq<seq<MetaColumn>>)

  function ColumnOf(snake: string -> string, f: Field): MetaColumn {
    MetaColumn(f.name, ColumnName(snake, f), OmitEmpty(f), IsPrimaryKey(f))
  }

  function ColumnsOf(snake: string -> string, fields: seq<Field>): seq<MetaColumn> {
    seq(|fields|, i requires 0 <= i < |fields| => ColumnOf(snake, fields[i]))
  }

  /** The columns with the given names; a name without a column is skipped. */
  function KeyColumns(snake: string -> string, decl: Decl, names: seq<string>): seq<MetaColumn> {
    if names == [] then []
    else
      KeyColumns(snake, decl, names[..|names| - 1]) +
      match First(decl.fields, EqColumnName(snake, names[|names| - 1]))
      case Some(f) => [ColumnOf(snake, f)]
      case None => []
  }

  /** A relation field that leads to the struct `name`. */
  predicate Refers(name: string, f: Field) {
    !IsIgnored(f) && IsForeignKey(f) && ElemType(f.typ) == Struct(name)
  }

  /** All relation fields of the registered types that lead to `name`. */
  function Referring(types: seq<Decl>, name: string): seq<Field> {
    if types == [] then []
    else Referring(types[..|types| - 1], name) + Filter(types[|types| - 1].fields, f => Refers(name, f))
  }

  function KeysOf(snake: string -> string, decl: Decl, fields: seq<Field>): seq<seq<MetaColumn>> {
    seq(|fields|, i requires 0 <= i < |fields| => KeyColumns(snake, decl, ReferenceKey(fields[i])))
  }

  function MetaOf(snake: string -> string, types: seq<Decl>, decl: Decl): MetaTable {
    var cols := Filter(decl.fields, IsColumn);
    var refs := Referring(types, decl.name);
    MetaTable(TableName(snake, decl), ColumnsOf(snake, Filter(cols, IsPrimaryKey)), ColumnsOf(snake, cols),
              KeysOf(snake, decl, refs), KeysOf(snake, decl, Filter(refs, IsOneToMany)),
              KeysOf(snake, decl, Filter(refs, IsToOne)))
  }

  method KeyColumnsFor(snake: string -> string, decl: Decl, names: seq<string>) returns (key: seq<MetaColumn>)
    ensures key == KeyColumns(snake, decl, names)
  {
    key := [];
    for i := 0 to |names|
      invariant key == KeyColumns(snake, decl, names[..i])
    {
      assert names[..i + 1][..i] == names[..i];
      var f := FieldByFunc(decl.fields, EqColumnName(snake, names[i]));
      if f.Some? {
        key := key + [ColumnOf(snake, f.value)];
      }
    }
    assert names[..|names|] == names;
  }

  /** What the fields of one registered type add to what was collected before. */
  ghost predicate Collected(snake: string -> string, decl: Decl, fields: seq<Field>,
                            refs: seq<seq<MetaColumn>>, otm: seq<seq<MetaColumn>>, mto: seq<seq<MetaColumn>>,
                            refs': seq<seq<MetaColumn>>, otm': seq<seq<MetaColumn>>, mto': seq<seq<MetaColumn>>) {
    && refs' == refs + KeysOf(snake, decl, fields)
    && otm' == otm + KeysOf(snake, decl, Filter(fields, IsOneToMany))
    && mto' == mto + KeysOf(snake, decl, Filter(fields, IsToOne))
  }

  lemma {:induction false} CollectedStep(snake: string -> string, decl: Decl, fields: seq<Field>, i: nat,
                                         refs: seq<seq<MetaColumn>>, otm: seq<seq<MetaColumn>>,
                                         mto: seq<seq<MetaColumn>>, refs': seq<seq<MetaColumn>>,
                                         otm': seq<seq<MetaColumn>>, mto': seq<seq<MetaColumn>>)
    requires i < |fields| && Collected(snake, decl, fields[..i], refs, otm, mto, refs', otm', mto')
    ensures var key := KeyColumns(snake, decl, ReferenceKey(fields[i]));
            Collected(snake, decl, fields[..i + 1], refs, otm, mto, refs' + [key],
                      if IsOneToMany(fields[i]) then otm' + [key] else otm',
                      if IsToOne(fields[i]) then mto' + [key] else mto')
  {
    hide KeysOf, Filter, IsOneToMany, IsToOne, KeyColumns, ReferenceKey;
    KeysGrow(snake, decl, fields, i);
    var key := KeyColumns(snake, decl, ReferenceKey(fields[i]));
    AppendIf(refs, KeysOf(snake, decl, fields[..i]), key, true);
    AppendIf(otm, KeysOf(snake, decl, Filter(fields[..i], IsOneToMany)), key, IsOneToMany(fields[i]));
    AppendIf(mto, KeysOf(snake, decl, Filter(fields[..i], IsToOne)), key, IsToOne(fields[i]));
  }

  lemma {:induction false} AppendIf<T>(a: seq<T>, b: seq<T>, x: T, cond: bool)
    ensures (if cond then a + b + [x] else a + b) == a + (b + if cond then [x] else [])
  {
  }

  /** The keys by which the fields of one registered type lead to `decl`, appended to what was collected before. */
  method CollectKeys(snake: string -> string, decl: Decl, fields: seq<Field>,
                     refs: seq<seq<MetaColumn>>, otm: seq<seq<MetaColumn>>, mto: seq<seq<MetaColumn>>)
      returns (refs': seq<seq<MetaColumn>>, otm': seq<seq<MetaColumn>>, mto': seq<seq<MetaColumn>>)
    ensures Collected(snake, decl, fields, refs, otm, mto, refs', otm', mto')
  {
    refs', otm', mto' := refs, otm, mto;
    assert Collected(snake, decl, fields[..0], refs, otm, mto, refs', otm', mto');
    hide Collected, IsOneToMany, IsManyToOne;
    for i := 0 to |fields|
      invariant Collected(snake, decl, fields[..i], refs, otm, mto, refs', otm', mto')
    {
      var names := ChildKey(fields[i]);
      var key := KeyColumnsFor(snake, decl, names);
      CollectedStep(snake, decl, fields, i, refs, otm, mto, refs', otm', mto');
      var oneToMany := IsOneToManyField(fields[i]);
      var toOne := IsManyToOneField(fields[i]);
      if oneToMany {
        otm' := otm' + [key];
      } else if toOne {
        mto' := mto' + [key];
      }
      refs' := refs' + [key];
    }
    assert fields[..|fields|] == fields;
  }

  lemma {:induction false} KeysGrow(snake: string -> string, decl: Decl, fields: seq<Field>, i: nat)
    requires i < |fields|
    ensures var key := KeyColumns(snake, decl, ReferenceKey(fields[i]));
            && KeysOf(snake, decl, fields[..i + 1]) == KeysOf(snake, decl, fields[..i]) + [key]
            && KeysOf(snake, decl, Filter(fields[..i + 1], IsOneToMany)) ==
                 KeysOf(snake, decl, Filter(fields[..i], IsOneToMany)) + (if IsOneToMany(fields[i]) then [key] else [])
            && KeysOf(snake, decl, Filter(fields[..i + 1], IsToOne)) ==
                 KeysOf(snake, decl, Filter(fields[..i], IsToOne)) + (if IsToOne(fields[i]) then [key] else [])
  {
    var f := fields[i];
    assert fields[..i + 1][..i] == fields[..i] && fields[..i + 1] == fields[..i] + [f];
    KeysConcat(snake, decl, fields[..i], [f]);
    KeysConcat(snake, decl, Filter(fields[..i], IsOneToMany), [f]);
    KeysConcat(snake, decl, Filter(fields[..i], IsToOne), [f]);
    hide KeyColumns, IsOneToMany, IsManyToOne;
    assert KeysOf(snake, decl, [f]) == [KeyColumns(snake, decl, ReferenceKey(f))];
    var a, b := Filter(fields[..i], IsOneToMany), Filter(fields[..i], IsToOne);
    assert a + [] == a && b + [] == b;
    assert KeysOf(snake, decl, a) + [] == KeysOf(snake, decl, a)
           && KeysOf(snake, decl, b) + [] == KeysOf(snake, decl, b);
  }

  lemma {:induction false} KeysConcat(snake: string -> string, decl: Decl, a: seq<Field>, b: seq<Field>)
    ensures KeysOf(snake, decl, a + b) == KeysOf(snake, decl, a) + KeysOf(snake, decl, b)
  {
  }

  lemma {:induction false} FilterConcat(a: seq<Field>, b: seq<Field>, fn: Field -> bool)
    ensures Filter(a + b, fn) == Filter(a, fn) + Filter(b, fn)
  {
    if b == [] {
      assert a + b == a;
    } else {
      FilterConcat(a, b[..|b| - 1], fn);
      assert (a + b)[..|a + b| - 1] == a + b[..|b| - 1];
    }
  }

  /** The meta table of a struct: its own columns, and the keys by which all registered types refer to it. */
  method ComputeOf(snake: string -> string, types: seq<Decl>, decl: Decl) returns (tbl: MetaTable)
    ensures tbl == MetaOf(snake, types, decl)
  {
    var fields := FieldsByFunc(decl.fields, IsColumn);
    var columns, primaryKey := [], [];
    for i := 0 to |fields|
      invariant columns == ColumnsOf(snake, fields[..i])
      invariant primaryKey == ColumnsOf(snake, Filter(fields[..i], IsPrimaryKey))
    {
      assert fields[..i + 1][..i] == fields[..i];
      var col := ColumnOf(snake, fields[i]);
      if IsPrimaryKey(fields[i]) {
        primaryKey := primaryKey + [col];
      }
      columns := columns + [col];
    }
    assert fields[..|fields|] == fields;
    var refs, otm, mto := CollectAllKeys(snake, types, decl);
    return MetaTable(TableName(snake, decl), primaryKey, columns, refs, otm, mto);
  }

  method CollectAllKeys(snake: string -> string, types: seq<Decl>, decl: Decl)
      returns (refs: seq<seq<MetaColumn>>, otm: seq<seq<MetaColumn>>, mto: seq<seq<MetaColumn>>)
    ensures var fields := Referring(types, decl.name);
            && refs == KeysOf(snake, decl, fields)
            && otm == KeysOf(snake, decl, Filter(fields, IsOneToMany))
            && mto == KeysOf(snake, decl, Filter(fields, IsToOne))
  {
    hide IsOneToMany, IsToOne;
    refs, otm, mto := [], [], [];
    for i := 0 to |types|
      invariant refs == KeysOf(snake, decl, Referring(types[..i], decl.name))
      invariant otm == KeysOf(snake, decl, Filter(Referring(types[..i], decl.name), IsOneToMany))
      invariant mto == KeysOf(snake, decl, Filter(Referring(types[..i], decl.name), IsToOne))
    {
      var refeFields := FieldsByFunc(types[i].fields, f => Refers(decl.name, f));
      ghost var before := Referring(types[..i], decl.name);
      assert types[..i + 1][..i] == types[..i];
      assert Referring(types[..i + 1], decl.name) == before + refeFields;
      AllKeysGrow(snake, decl, before, refeFields);
      refs, otm, mto := CollectKeys(snake, decl, refeFields, refs, otm, mto);
    }
    assert types[..|types|] == types;
  }

  lemma {:induction false} AllKeysGrow(snake: string -> string, decl: Decl, a: seq<Field>, b: seq<Field>)
    ensures KeysOf(snake, decl, a + b) == KeysOf(snake, decl, a) + KeysOf(snake, decl, b)
    ensures KeysOf(snake, decl, Filter(a + b, IsOneToMany)) ==
            KeysOf(snake, decl, Filter(a, IsOneToMany)) + KeysOf(snake, decl, Filter(b, IsOneToMany))
    ensures KeysOf(snake, decl, Filter(a + b, IsToOne)) ==
            KeysOf(snake, decl, Filter(a, IsToOne)) + KeysOf(snake, decl, Filter(b, IsToOne))
  {
    hide KeyColumns;
    KeysConcat(snake, decl, a, b);
    FilterConcat(a, b, IsOneToMany);
    FilterConcat(a, b, IsToOne);
    KeysConcat(snake, decl, Filter(a, IsOneToMany), Filter(b, IsOneToMany));
    KeysConcat(snake, decl, Filter(a, IsToOne), Filter(b, IsToOne));
  }

  lemma {:induction false} Filtered(fields: seq<Field>, fn: Field -> bool)
    ensures forall f :: f in Filter(fields, fn) <==> f in fields && fn(f)
  {
    if fields != [] {
      Filtered(fields[..|fields| - 1], fn);
      assert fields == fields[..|fields| - 1] + [fields[|fields| - 1]];
    }
  }

  lemma {:induction false} KeyAmong(snake: string -> string, decl: Decl, fields: seq<Field>, f: Field)
    requires f in fields
    ensures KeyColumns(snake, decl, ReferenceKey(f)) in KeysOf(snake, decl, fields)
  {
    var i :| 0 <= i < |fields| && fields[i] == f;
    assert KeysOf(snake, decl, fields)[i] == KeyColumns(snake, decl, ReferenceKey(f));
  }

  // ----- the keys of a table, by column names

  function ColumnNames(key: seq<MetaColumn>): seq<string> {
    seq(|key|, i requires 0 <= i < |key| => key[i].column)
  }

  function AllNames(keys: seq<seq<MetaColumn>>): seq<seq<string>> {
    seq(|keys|, i requires 0 <= i < |keys| => ColumnNames(keys[i]))
  }

  function KeysOfTable(m: MetaTable): TableKeys {
    TableKeys(ColumnNames(m.primaryKey), AllNames(m.refs), AllNames(m.oneToMany), AllNames(m.manyToOne))
  }

  lemma {:induction false} FilteredKeys(snake: string -> string, decl: Decl, fields: seq<Field>, fn: Field -> bool,
                                        key: seq<string>)
    requires key in AllNames(KeysOf(snake, decl, Filter(fields, fn)))
    ensures key in AllNames(KeysOf(snake, decl, fields))
  {
    hide KeyColumns;
    var some := Filter(fields, fn);
    var keys := AllNames(KeysOf(snake, decl, some));
    var i :| 0 <= i < |keys| && keys[i] == key;
    Filtered(fields, fn);
    assert some[i] in some;
    var j :| 0 <= j < |fields| && fields[j] == some[i];
    assert AllNames(KeysOf(snake, decl, fields))[j] == key;
  }

  /** Every key of either cardinality is among the reference keys, so that removing an object clears both. */
  lemma {:induction false} MetaCovers(snake: string -> string, types: seq<Decl>, sch: Schema)
    requires forall t | t in sch.tables :: exists decl :: sch.tables[t] == KeysOfTable(MetaOf(snake, types, decl))
    ensures sch.Covers()
  {
    forall t, k | t in sch.tables && (k in sch.tables[t].oneToMany || k in sch.tables[t].manyToOne)
      ensures k in sch.tables[t].refs
    {
      var decl :| sch.tables[t] == KeysOfTable(MetaOf(snake, types, decl));
      var refs := Referring(types, decl.name);
      if k in sch.tables[t].oneToMany {
        FilteredKeys(snake, decl, refs, IsOneToMany, k);
      } else {
        FilteredKeys(snake, decl, refs, IsToOne, k);
      }
    }
  }

  // ----- the relations the generator writes out

  datatype RelColumn = RelColumn(column: string, field: string)

  datatype Generated = Generated(field: string, table: string, foreignKeys: seq<RelColumn>, references: seq<RelColumn>)

  /** Each name with the field that has it; None when a name has no field, where the generator panics. */
  function Resolved(snake: string -> string, fields: seq<Field>, names: seq<string>): Option<seq<RelColumn>> {
    if names == [] then Some([])
    else
      var n := |names| - 1;
      match (Resolved(snake, fields, names[..n]), First(fields, EqColumnName(snake, names[n])))
      case (Some(cols), Some(f)) => Some(cols + [RelColumn(names[n], f.name)])
      case _ => None
  }

  function RelationOf(snake: string -> string, decl: Decl, f: Field, refe: Decl): Option<Generated> {
    var cols, refeCols := Filter(decl.fields, IsColumn), Filter(refe.fields, IsColumn);
    match (Resolved(snake, cols, ForeignKey(f)), Resolved(snake, refeCols, ReferenceKey(f)))
    case (Some(fore), Some(back)) => Some(Generated(f.name, TableName(snake, refe), fore, back))
    case _ => None
  }

  method ResolveColumns(snake: string -> string, fields: seq<Field>, names: seq<string>)
      returns (r: Option<seq<RelColumn>>)
    ensures r == Resolved(snake, fields, names)
  {
    var cols := [];
    for i := 0 to |names|
      invariant Resolved(snake, fields, names[..i]) == Some(cols)
    {
      assert names[..i + 1][..i] == names[..i];
      var f := FieldByFunc(fields, EqColumnName(snake, names[i]));
      if f.None? {
        Unresolved(snake, fields, names, i + 1);
        return None;
      }
      cols := cols + [RelColumn(names[i], f.value.name)];
    }
    assert names[..|names|] == names;
    return Some(cols);
  }

  lemma {:induction false} Unresolved(snake: string -> string, fields: seq<Field>, names: seq<string>, n: nat)
    requires n <= |names| && Resolved(snake, fields, names[..n]) == None
    ensures Resolved(snake, fields, names) == None
    decreases |names|
  {
    if n == |names| {
      assert names[..n] == names;
    } else {
      assert names[..|names| - 1][..n] == names[..n];
      Unresolved(snake, fields, names[..|names| - 1], n);
    }
  }

  /** The part of `walkStruct` that pairs the columns of a relation. None: panic. */
  method WalkRelation(snake: string -> string, decl: Decl, f: Field, refe: Decl) returns (rel: Option<Generated>)
    ensures rel == RelationOf(snake, decl, f, refe)
  {
    var colFields := FieldsByFunc(decl.fields, IsColumn);
    var refeFields := FieldsByFunc(refe.fields, IsColumn);
    var foreNames := ParentKey(f);
    var fore := ResolveColumns(snake, colFields, foreNames);
    if fore.None? {
      return None;
    }
    var refeNames := ChildKey(f);
    var back := ResolveColumns(snake, refeFields, refeNames);
    if back.None? {
      return None;
    }
    return Some(Generated(f.name, TableName(snake, refe), fore.value, back.value));
  }

  // ----- keys of entities

  /** A row key filled column by column; a column named twice keeps the later value. */
  function Fill(names: seq<string>, vals: seq<Value>): map<string, Value>
    requires |names| == |vals|
  {
    if names == [] then map[]
    else var n := |names| - 1; Fill(names[..n], vals[..n])[names[n] := vals[n]]
  }

  function ValuesOf(key: seq<MetaColumn>, v: map<string, Value>): seq<Value> {
    seq(|key|, i requires 0 <= i < |key| => At(v, key[i].field))
  }

  /** The row key of an entity, given by its Go fields, under some key columns of its table. */
  function EntityKey(table: string, key: seq<MetaColumn>, v: map<string, Value>): RowKey {
    MapRowKey(table, Fill(ColumnNames(key), ValuesOf(key, v)))
  }

  method PrimaryKeyOf(m: MetaTable, v: map<string, Value>) returns (rowKey: RowKey)
    ensures rowKey == EntityKey(m.table, m.primaryKey, v)
  {
    rowKey := FilledKey(m.table, m.primaryKey, v);
  }

  method FilledKey(table: string, key: seq<MetaColumn>, v: map<string, Value>) returns (rowKey: RowKey)
    ensures rowKey == EntityKey(table, key, v)
  {
    var filled := map[];
    ghost var names, vals := ColumnNames(key), ValuesOf(key, v);
    for i := 0 to |key|
      invariant filled == Fill(names[..i], vals[..i])
    {
      assert names[..i + 1][..i] == names[..i] && vals[..i + 1][..i] == vals[..i];
      filled := filled[key[i].column := At(v, key[i].field)];
    }
    assert names[..|key|] == names && vals[..|key|] == vals;
    return MapRowKey(table, filled);
  }

  /** `ReferenceKeysOf` and its two siblings, which differ in the keys they read. */
  method ReferenceKeysOf(table: string, keys: seq<seq<MetaColumn>>, v: map<string, Value>) returns (refes: seq<RowKey>)
    ensures |refes| == |keys| && forall i | 0 <= i < |keys| :: refes[i] == EntityKey(table, keys[i], v)
  {
    refes := [];
    for i := 0 to |keys|
      invariant |refes| == i && forall j | 0 <= j < i :: refes[j] == EntityKey(table, keys[j], v)
    {
      var refe := FilledKey(table, keys[i], v);
      refes := refes + [refe];
    }
  }

  function RelNames(cols: seq<RelColumn>): seq<string> {
    seq(|cols|, i requires 0 <= i < |cols| => cols[i].column)
  }

  function RelValues(cols: seq<RelColumn>, v: map<string, Value>): seq<Value> {
    seq(|cols|, i requires 0 <= i < |cols| => At(v, cols[i].field))
  }

  /** The row key that the generated loader builds from an entity: columns there, fields here. */
  function LoaderKey(rel: Generated, v: map<string, Value>): RowKey
    requires |rel.references| == |rel.foreignKeys|
  {
    MapRowKey(rel.table, Fill(RelNames(rel.references), RelValues(rel.foreignKeys, v)))
  }

  lemma {:induction false} FillAt(names: seq<string>, vals: seq<Value>)
    requires |names| == |vals| && Distinct(names)
    ensures Fill(names, vals).Keys == set c | c in names
    ensures forall i | 0 <= i < |names| :: Fill(names, vals)[names[i]] == vals[i]
  {
    if names != [] {
      var n := |names| - 1;
      FillAt(names[..n], vals[..n]);
      assert names == names[..n] + [names[n]];
      assert forall i | 0 <= i < n :: names[..n][i] == names[i] && vals[..n][i] == vals[i];
    }
  }

  lemma {:induction false} FilledIds(render: Value -> string, table: string, names: seq<string>, a: seq<Value>,
                                     b: seq<Value>)
    requires |names| == |a| == |b| && Distinct(names)
    ensures IdOf(render, MapRowKey(table, Fill(names, a))) == IdOf(render, MapRowKey(table, Fill(names, b)))
       <==> forall i | 0 <= i < |names| :: render(a[i]) == render(b[i])
  {
    FillAt(names, a);
    FillAt(names, b);
    var x := IdOf(render, MapRowKey(table, Fill(names, a))).cols;
    var y := IdOf(render, MapRowKey(table, Fill(names, b))).cols;
    forall i | 0 <= i < |names|
      ensures names[i] in x && x[names[i]] == render(a[i]) && names[i] in y && y[names[i]] == render(b[i])
    {
      assert names[i] in names;
    }
    if forall i | 0 <= i < |names| :: render(a[i]) == render(b[i]) {
      forall c | c in x
        ensures x[c] == y[c]
      {
        var i :| 0 <= i < |names| && names[i] == c;
      }
    }
  }

  // ----- the loader and the meta schema look columns up in different places

  /** The first field with the column's name is a relation field, which the meta schema takes for the column. */
  predicate Shadowed(snake: string -> string, decl: Decl, name: string) {
    match First(decl.fields, EqColumnName(snake, name))
    case Some(f) => !IsColumn(f)
    case None => false
  }

  lemma {:induction false} FirstFound(fields: seq<Field>, fn: Field -> bool)
    ensures match First(fields, fn)
            case Some(f) => f in fields && fn(f)
            case None => forall f | f in fields :: !fn(f)
  {
    if fields != [] && !fn(fields[0]) {
      FirstFound(fields[1..], fn);
      assert fields == [fields[0]] + fields[1..];
    }
  }

  lemma {:induction false} FirstOfFiltered(fields: seq<Field>, p: Field -> bool, fn: Field -> bool)
    requires First(fields, fn).Some? && p(First(fields, fn).value)
    ensures First(Filter(fields, p), fn) == First(fields, fn)
  {
    var head, rest := fields[0], fields[1..];
    assert fields == [head] + rest;
    FilterConcat([head], rest, p);
    assert Filter([head], p) == if p(head) then [head] else [];
    if !fn(head) {
      FirstOfFiltered(rest, p, fn);
      assert [] + Filter(rest, p) == Filter(rest, p);
      assert ([head] + Filter(rest, p))[1..] == Filter(rest, p);
    } else {
      assert ([head] + Filter(rest, p))[0] == head;
    }
  }

  /** The generator and the meta schema find the same field for a column exactly when no relation field shadows it. */
  lemma {:induction false} LookupsAgree(snake: string -> string, decl: Decl, name: string)
    requires First(Filter(decl.fields, IsColumn), EqColumnName(snake, name)).Some?
    ensures First(decl.fields, EqColumnName(snake, name)) ==
            First(Filter(decl.fields, IsColumn), EqColumnName(snake, name))
       <==> !Shadowed(snake, decl, name)
  {
    var fn := EqColumnName(snake, name);
    FirstFound(Filter(decl.fields, IsColumn), fn);
    Filtered(decl.fields, IsColumn);
    FirstFound(decl.fields, fn);
    if !Shadowed(snake, decl, name) {
      FirstOfFiltered(decl.fields, IsColumn, fn);
    }
  }

  lemma {:induction false} KeyMatchesReferences(snake: string -> string, refe: Decl, names: seq<string>)
    requires Resolved(snake, Filter(refe.fields, IsColumn), names).Some?
    requires forall c | c in names :: !Shadowed(snake, refe, c)
    ensures var key := KeyColumns(snake, refe, names);
            var cols := Resolved(snake, Filter(refe.fields, IsColumn), names).value;
            && |key| == |cols| == |names|
            && forall i | 0 <= i < |names| ::
                 key[i].column == cols[i].column == names[i] && key[i].field == cols[i].field
  {
    if names != [] {
      var n := |names| - 1;
      var fn := EqColumnName(snake, names[n]);
      assert names == names[..n] + [names[n]];
      KeyMatchesReferences(snake, refe, names[..n]);
      LookupsAgree(snake, refe, names[n]);
      FirstFound(refe.fields, fn);
    }
  }

  lemma {:induction false} ResolvedNames(snake: string -> string, fields: seq<Field>, names: seq<string>)
    requires Resolved(snake, fields, names).Some?
    ensures RelNames(Resolved(snake, fields, names).value) == names
  {
    if names != [] {
      var n := |names| - 1;
      ResolvedNames(snake, fields, names[..n]);
      assert names == names[..n] + [names[n]];
    }
  }

  lemma {:induction false} ReferringHas(types: seq<Decl>, name: string, decl: Decl, f: Field)
    requires decl in types && f in decl.fields && Refers(name, f)
    ensures f in Referring(types, name)
  {
    var n := |types| - 1;
    Filtered(types[n].fields, x => Refers(name, x));
    if decl in types[..n] {
      ReferringHas(types[..n], name, decl, f);
    } else {
      assert types == types[..n] + [types[n]];
    }
  }

  /** The meta table of the referenced struct has the key of every relation field that leads to it. */
  lemma {:induction false} KeyIsRegistered(snake: string -> string, types: seq<Decl>, decl: Decl, f: Field, refe: Decl)
    requires decl in types && f in decl.fields && Refers(refe.name, f)
    ensures var key, m := KeyColumns(snake, refe, ReferenceKey(f)), MetaOf(snake, types, refe);
            key in m.refs && (IsOneToMany(f) ==> key in m.oneToMany) && (IsToOne(f) ==> key in m.manyToOne)
  {
    hide KeyColumns;
    var refs := Referring(types, refe.name);
    ReferringHas(types, refe.name, decl, f);
    KeyAmong(snake, refe, refs, f);
    Filtered(refs, IsOneToMany);
    Filtered(refs, IsToOne);
    if IsOneToMany(f) {
      KeyAmong(snake, refe, Filter(refs, IsOneToMany), f);
    }
    if IsToOne(f) {
      KeyAmong(snake, refe, Filter(refs, IsToOne), f);
    }
  }

  /**
   Generated keys meet cache keys: what a loader asks the cache for, and what the meta schema files an entity under,
   have the same table and columns, and are equal exactly when the paired fields render equally.
   */
  lemma {:induction false} GeneratedKeysMeet(snake: string -> string, render: Value -> string, decl: Decl, f: Field,
                                             refe: Decl,
                          v: map<string, Value>, u: map<string, Value>)
    requires RelationOf(snake, decl, f, refe).Some? && Distinct(ReferenceKey(f))
    requires forall c | c in ReferenceKey(f) :: !Shadowed(snake, refe, c)
    ensures var rel := RelationOf(snake, decl, f, refe).value;
            var key := KeyColumns(snake, refe, ReferenceKey(f));
            && |rel.foreignKeys| == |rel.references|
            && var a, b := LoaderKey(rel, v), EntityKey(TableName(snake, refe), key, u);
               && a.table == b.table && a.key.Keys == b.key.Keys
               && (IdOf(render, a) == IdOf(render, b) <==>
                     forall i | 0 <= i < |rel.references| ::
                       render(At(v, rel.foreignKeys[i].field)) == render(At(u, rel.references[i].field)))
  {
    var rel := RelationOf(snake, decl, f, refe).value;
    var names := ReferenceKey(f);
    var key := KeyColumns(snake, refe, names);
    KeyMatchesReferences(snake, refe, names);
    ResolvedNames(snake, Filter(decl.fields, IsColumn), ForeignKey(f));
    ResolvedNames(snake, Filter(refe.fields, IsColumn), names);
    assert |rel.foreignKeys| == |RelNames(rel.foreignKeys)| == |names|;
    assert ColumnNames(key) == names == RelNames(rel.references);
    hide Resolved, KeyColumns, Filter, Shadowed;
    KeysMeet(render, rel, key, v, u);
  }

  lemma {:induction false} KeysMeet(render: Value -> string, rel: Generated, key: seq<MetaColumn>,
                                    v: map<string, Value>, u: map<string, Value>)
    requires |rel.foreignKeys| == |rel.references| == |key| && ColumnNames(key) == RelNames(rel.references)
    requires Distinct(ColumnNames(key)) && forall i | 0 <= i < |key| :: key[i].field == rel.references[i].field
    ensures var a, b := LoaderKey(rel, v), EntityKey(rel.table, key, u);
            && a.table == b.table && a.key.Keys == b.key.Keys
            && (IdOf(render, a) == IdOf(render, b) <==>
                  forall i | 0 <= i < |rel.references| ::
                    render(At(v, rel.foreignKeys[i].field)) == render(At(u, rel.references[i].field)))
  {
    hide Fill, IdOf;
    var names, x, y := ColumnNames(key), RelValues(rel.foreignKeys, v), ValuesOf(key, u);
    FillAt(names, x);
    FillAt(names, y);
    FilledIds(render, rel.table, names, x, y);
    assert forall i | 0 <= i < |names| ::
             x[i] == At(v, rel.foreignKeys[i].field) && y[i] == At(u, rel.references[i].field);
    assert LoaderKey(rel, v) == MapRowKey(rel.table, Fill(names, x));
    assert EntityKey(rel.table, key, u) == MapRowKey(rel.table, Fill(names, y));
  }
}
