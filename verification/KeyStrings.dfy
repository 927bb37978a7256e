/** The strings under which the scope cache files objects (meta.go, scope_cache.go). */
module KeyStrings {
  import opened Strings
  import opened Sql
  import opened RowKeys

  datatype Cardinality = CardinalityNone | CardinalityOneToMany | CardinalityManyToOne

  /** What a key string stands for: a table, and a rendered value for each column. */
  datatype KeyId = KeyId(table: string, cols: map<string, string>)

  /** `render` is the text of a value: its marshaler's, or Go's default format. */
  function IdOf(render: Value -> string, rowKey: RowKey): KeyId {
    KeyId(rowKey.table, map c | c in rowKey.key :: render(rowKey.key[c]))
  }

  ghost function Params(cols: map<string, string>): seq<string> {
    var names := Sorted(cols.Keys);
    seq(|names|, i requires 0 <= i < |names| => Param(cols, names[i]))
  }

  function Param(cols: map<string, string>, c: string): string {
    c + "=" + if c in cols then cols[c] else ""
  }

  ghost function KeyString(id: KeyId): string {
    id.table + ";" + Join(Params(id.cols), ';')
  }

  function Tag(c: Cardinality): string {
    match c
    case CardinalityNone => ""
    case CardinalityOneToMany => "cardinality=OneToMany"
    case CardinalityManyToOne => "cardinality=ManyToOne"
  }

  function ToCacheKey(c: Cardinality, keyStr: string): string {
    if c.CardinalityNone? then keyStr else keyStr + ['#'] + Tag(c)
  }

  ghost function CacheKey(c: Cardinality, id: KeyId): string {
    ToCacheKey(c, KeyString(id))
  }

  lemma {:induction false} RenderedParams(render: Value -> string, rowKey: RowKey, cols: seq<string>, vals: seq<Value>,
                                          params: seq<string>)
    requires cols == Sorted(rowKey.key.Keys) && |vals| == |cols| == |params|
    requires forall i | 0 <= i < |cols| :: cols[i] in rowKey.key && vals[i] == rowKey.key[cols[i]]
    requires forall i | 0 <= i < |cols| :: params[i] == cols[i] + "=" + render(vals[i])
    ensures params == Params(IdOf(render, rowKey).cols)
  {
    var rendered := IdOf(render, rowKey).cols;
    assert rendered.Keys == rowKey.key.Keys;
    forall i | 0 <= i < |cols|
      ensures params[i] == Params(rendered)[i]
    {
      assert rendered[cols[i]] == render(vals[i]);
    }
  }

  /** Whatever order the key's map is iterated in, the string is the same. */
  method KeyStringFromRowKey(render: Value -> string, rowKey: RowKey) returns (s: string)
    ensures s == KeyString(IdOf(render, rowKey))
  {
    var cols, vals := Canonical(rowKey);
    var params := [];
    for i := 0 to |cols|
      invariant |params| == i && forall j | 0 <= j < i :: params[j] == cols[j] + "=" + render(vals[j])
    {
      params := params + [cols[i] + "=" + render(vals[i])];
    }
    RenderedParams(render, rowKey, cols, vals, params);
    return rowKey.table + ";" + Join(params, ';');
  }

  // ----- reading a key back

  /** Neither ends a part of a key string nor starts a cardinality. */
  predicate Safe(s: string) {
    Free(';', s) && Free('#', s)
  }

  /** A column name that also cannot be mistaken for one followed by a value. */
  predicate SafeColumn(s: string) {
    Safe(s) && Free('=', s)
  }

  /** Nothing in the key contains a separator; values and tables may contain an equals sign. */
  predicate SafeId(id: KeyId) {
    Safe(id.table) && forall c | c in id.cols :: SafeColumn(c) && Safe(id.cols[c])
  }

  lemma {:induction false} JoinFree(parts: seq<string>, sep: char, c: char)
    requires c != sep && forall i | 0 <= i < |parts| :: Free(c, parts[i])
    ensures Free(c, Join(parts, sep))
  {
    if |parts| > 1 {
      JoinFree(parts[1..], sep, c);
    }
  }

  lemma {:induction false} SafeParams(cols: map<string, string>)
    requires forall c | c in cols :: SafeColumn(c) && Safe(cols[c])
    ensures forall i | 0 <= i < |Params(cols)| ::
              var p := Params(cols)[i]; Free(';', p) && Free('#', p) && '=' in p
  {
  }

  lemma {:induction false} ParamsInjectiveAt(a: map<string, string>, b: map<string, string>, i: nat)
    requires forall c | c in a :: SafeColumn(c)
    requires forall c | c in b :: SafeColumn(c)
    requires Params(a) == Params(b) && i < |Params(a)|
    ensures var s, t := Sorted(a.Keys), Sorted(b.Keys);
            |s| == |t| && i < |s| && s[i] == t[i] && s[i] in a && s[i] in b && a[s[i]] == b[s[i]]
  {
    var s, t := Sorted(a.Keys), Sorted(b.Keys);
    assert |s| == |Params(a)| && |t| == |Params(b)|;
    assert s[i] in s && t[i] in t;
    assert Params(a)[i] == Param(a, s[i]) && Params(b)[i] == Param(b, t[i]);
    ParamInjective(a, s[i], b, t[i]);
  }

  lemma {:induction false} SortedAt(cols: map<string, string>, c: string) returns (i: nat)
    requires c in cols
    ensures i < |Params(cols)| == |Sorted(cols.Keys)| && Sorted(cols.Keys)[i] == c
  {
    assert c in Sorted(cols.Keys);
    i :| 0 <= i < |Sorted(cols.Keys)| && Sorted(cols.Keys)[i] == c;
  }

  lemma {:induction false} ParamsInjective(a: map<string, string>, b: map<string, string>)
    requires forall c | c in a :: SafeColumn(c)
    requires forall c | c in b :: SafeColumn(c)
    requires Params(a) == Params(b)
    ensures a == b
  {
    hide Params, SafeColumn;
    forall c | c in a
      ensures c in b && a[c] == b[c]
    {
      var i := SortedAt(a, c);
      ParamsInjectiveAt(a, b, i);
    }
    forall c | c in b
      ensures c in a
    {
      var i := SortedAt(b, c);
      ParamsInjectiveAt(b, a, i);
    }
  }

  lemma {:induction false} ParamInjective(a: map<string, string>, c: string, b: map<string, string>, d: string)
    requires Free('=', c) && Free('=', d) && c in a && d in b && Param(a, c) == Param(b, d)
    ensures c == d && a[c] == b[d]
  {
    var p, q := Param(a, c), Param(b, d);
    assert p == c + ['='] + a[c] && q == d + ['='] + b[d];
    SplitFirst(c, '=', a[c]);
    SplitFirst(d, '=', b[d]);
    assert Split(p, '=')[0] == c && Split(q, '=')[0] == d;
    assert p[|c| + 1..] == a[c] && q[|d| + 1..] == b[d];
  }

  lemma {:induction false} SplitKeyString(id: KeyId)
    requires SafeId(id)
    ensures Split(KeyString(id), ';') == [id.table] + if Params(id.cols) == [] then [""] else Params(id.cols)
  {
    var params := Params(id.cols);
    SafeParams(id.cols);
    assert KeyString(id) == id.table + [';'] + Join(params, ';');
    SplitFirst(id.table, ';', Join(params, ';'));
    if params == [] {
      assert Split("", ';') == [""];
    } else {
      SplitOfJoin(params, ';');
    }
  }

  lemma {:induction false} KeyStringInjective(a: KeyId, b: KeyId)
    requires SafeId(a) && SafeId(b) && KeyString(a) == KeyString(b)
    ensures a == b
  {
    SplitKeyString(a);
    SplitKeyString(b);
    SafeParams(a.cols);
    SafeParams(b.cols);
    var p, q := Params(a.cols), Params(b.cols);
    var s, t := if p == [] then [""] else p, if q == [] then [""] else q;
    assert ([a.table] + s)[0] == a.table && ([b.table] + t)[0] == b.table;
    assert ([a.table] + s)[1..] == s && ([b.table] + t)[1..] == t;
    assert s == t;
    assert p == [] <==> q == [] by {
      assert "" == s[0] <==> p == [];
      assert "" == t[0] <==> q == [];
    }
    ParamsInjective(a.cols, b.cols);
  }

  lemma {:induction false} TagsFree(c: Cardinality)
    ensures Free('#', Tag(c))
  {
  }

  lemma {:induction false} TagsDiffer()
    ensures Tag(CardinalityOneToMany) != Tag(CardinalityManyToOne)
  {
  }

  lemma {:induction false} SplitCacheKey(c: Cardinality, key: string)
    requires Free('#', key)
    ensures Split(ToCacheKey(c, key), '#') == if c.CardinalityNone? then [key] else [key, Tag(c)]
  {
    if c.CardinalityNone? {
      SplitFree(key, '#');
    } else {
      TagsFree(c);
      SplitFirst(key, '#', Tag(c));
      SplitFree(Tag(c), '#');
    }
  }

  lemma {:induction false} KeyStringFree(id: KeyId)
    requires SafeId(id)
    ensures Free('#', KeyString(id))
  {
    SafeParams(id.cols);
    JoinFree(Params(id.cols), ';', '#');
  }

  /** Without separators inside, a cache key is one cardinality, one table and one rendered value per column. */
  lemma {:induction false} CacheKeyInjective(c: Cardinality, a: KeyId, d: Cardinality, b: KeyId)
    requires SafeId(a) && SafeId(b)
    ensures CacheKey(c, a) == CacheKey(d, b) <==> c == d && a == b
  {
    if CacheKey(c, a) == CacheKey(d, b) {
      KeyStringFree(a);
      KeyStringFree(b);
      SplitCacheKey(c, KeyString(a));
      SplitCacheKey(d, KeyString(b));
      TagsDiffer();
      var s, t := Split(CacheKey(c, a), '#'), Split(CacheKey(d, b), '#');
      assert |s| == |t| && s[0] == t[0] && (|s| == 2 ==> s[1] == t[1]);
      KeyStringInjective(a, b);
    }
  }

  lemma {:induction false} ParamsOfOne(cols: map<string, string>, c: string)
    requires cols.Keys == {c}
    ensures Params(cols) == [Param(cols, c)]
  {
    IncreasingUnique(Sorted(cols.Keys), [c]);
  }

  lemma {:induction false} ParamsOfTwo(cols: map<string, string>, c: string, d: string)
    requires cols.Keys == {c, d} && Less(c, d)
    ensures Params(cols) == [Param(cols, c), Param(cols, d)]
  {
    IncreasingUnique(Sorted(cols.Keys), [c, d]);
  }

  lemma {:induction false} KeyOfTwo(t: string, c: string, d: string, x: string, y: string)
    requires Less(c, d)
    ensures KeyString(KeyId(t, map[d := y, c := x])) == t + ";" + (c + "=" + x + [';'] + (d + "=" + y))
  {
    LessTotal(c, d);
    var cols := map[d := y, c := x];
    ParamsOfTwo(cols, c, d);
    var a, b := Param(cols, c), Param(cols, d);
    hide Params, Param, Less;
    assert [a, b][1..] == [b];
    assert Join([b], ';') == b;
  }

  /** The key of two columns, in the order of their names, and its form in the three indexes. */
  lemma {:induction false} KeyStringExample(x: string, y: string)
    ensures var id := KeyId("t", map["b" := y, "a" := x]);
            var s := "t" + ";" + ("a" + "=" + x + ";" + ("b" + "=" + y));
            && CacheKey(CardinalityNone, id) == s
            && CacheKey(CardinalityOneToMany, id) == s + (['#'] + "cardinality=OneToMany")
            && CacheKey(CardinalityManyToOne, id) == s + (['#'] + "cardinality=ManyToOne")
  {
    assert Less("a", "b");
    KeyOfTwo("t", "a", "b", x, y);
    hide KeyString, Less;
    var s := "t" + ";" + ("a" + "=" + x + ";" + ("b" + "=" + y));
    HashTag(s, "cardinality=OneToMany");
    HashTag(s, "cardinality=ManyToOne");
  }

  lemma {:induction false} HashTag(s: string, tag: string)
    ensures s + ['#'] + tag == s + (['#'] + tag)
  {
  }

  /** A separator inside a value does make two different keys collide. */
  lemma {:induction false} SeparatorCollision(x: string, y: string)
    ensures var one, two := KeyId("t", map["a" := x + ";b=" + y]), KeyId("t", map["a" := x, "b" := y]);
            one != two && forall c :: CacheKey(c, one) == CacheKey(c, two)
  {
    var one, two := map["a" := x + ";b=" + y], map["a" := x, "b" := y];
    ParamsOfOne(one, "a");
    ParamsOfTwo(two, "a", "b");
    assert "b" !in one;
    assert Params(two)[1..] == [Param(two, "b")];
    assert Param(one, "a") == Param(two, "a") + [';'] + Param(two, "b");
    assert Join(Params(one), ';') == Param(one, "a");
    assert Join(Params(two), ';') == Param(two, "a") + [';'] + Join([Param(two, "b")], ';');
    assert KeyString(KeyId("t", one)) == KeyString(KeyId("t", two));
  }
}
