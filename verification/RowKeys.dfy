/** Row keys: the columns and values that pick rows of a table (row_key.go). */
module RowKeys {
  import opened Wrappers
  import opened Strings
  import opened Dialects
  import opened Sql

  datatype RowKey = MapRowKey(table: string, key: map<string, Value>)

  /** The canonical form: columns in increasing order, each beside its value. */
  method Canonical(rowKey: RowKey) returns (cols: seq<string>, vals: seq<Value>)
    ensures cols == Sorted(rowKey.key.Keys)
    ensures |vals| == |cols| && forall i | 0 <= i < |cols| :: cols[i] in rowKey.key && vals[i] == rowKey.key[cols[i]]
  {
    cols := [];
    var todo := rowKey.key.Keys;
    while todo != {}
      invariant todo <= rowKey.key.Keys
      invariant Enumerates(cols, rowKey.key.Keys - todo)
      decreases |todo|
    {
      var col :| col in todo;
      todo := todo - {col};
      cols := cols + [col];
    }
    SortSorts(cols);
    IncreasingUnique(Sort(cols), Sorted(rowKey.key.Keys));
    cols := Sort(cols);
    vals := [];
    for i := 0 to |cols|
      invariant |vals| == i
      invariant forall j | 0 <= j < i :: cols[j] in rowKey.key && vals[j] == rowKey.key[cols[j]]
    {
      assert cols[i] in cols;
      vals := vals + [rowKey.key[cols[i]]];
    }
  }

  // ----- quoting the columns, for any dialect whose quoting is injective and lengthens

  ghost predicate Quoting(quote: string -> string) {
    && (forall a, b | quote(a) == quote(b) :: a == b)
    && (forall a :: |quote(a)| > |a|)
  }

  /** What the renamed row key ought to be. */
  ghost predicate IsQuoted(quote: string -> string, key: map<string, Value>, eq: map<string, Value>) {
    && (forall c | c in key :: quote(c) in eq && eq[quote(c)] == key[c])
    && (forall q | q in eq :: exists c | c in key :: q == quote(c))
  }

  /** One turn of the renaming loop: take the entry out, put it back under its quoted column. */
  function Requoted(quote: string -> string, eq: map<string, Value>, col: string): map<string, Value> {
    (eq - {col})[quote(col) := At(eq, col)]
  }

  /** The map after the loop has visited `order`. */
  function RequotedAll(quote: string -> string, eq: map<string, Value>, order: seq<string>): map<string, Value> {
    if order == [] then eq
    else Requoted(quote, RequotedAll(quote, eq, order[..|order| - 1]), order[|order| - 1])
  }

  /** The renaming loop changes the map it ranges over; each original column is visited once, in any order. */
  method Requote(quote: string -> string, key: map<string, Value>)
      returns (eq: map<string, Value>, ghost order: seq<string>)
    requires Quoting(quote)
    ensures Enumerates(order, key.Keys) && eq == RequotedAll(quote, key, order)
    ensures CleanKey(quote, key) ==> IsQuoted(quote, key, eq)
  {
    eq := key;
    order := [];
    var todo := key.Keys;
    while todo != {}
      invariant todo <= key.Keys && Enumerates(order, key.Keys - todo)
      invariant eq == RequotedAll(quote, key, order)
      decreases |todo|
    {
      var col :| col in todo;
      todo := todo - {col};
      var val := At(eq, col);
      eq := eq - {col};
      eq := eq[quote(col) := val];
      order := order + [col];
      assert order[..|order| - 1] + [col] == order;
    }
    RequotingExact(quote, key, order);
  }

  /** A column the loop reaches after the column whose quoted form it is. */
  ghost predicate Overtaken(quote: string -> string, order: seq<string>) {
    exists i, j | 0 <= i < j < |order| :: order[j] == quote(order[i])
  }

  ghost predicate IsFrom(quote: string -> string, order: seq<string>, n: nat, q: string)
    requires n <= |order|
  {
    (exists i | 0 <= i < n :: q == quote(order[i])) || exists i | n <= i < |order| :: q == order[i]
  }

  /** After `n` turns: the columns visited so far are quoted, the others untouched, and nothing else is there. */
  ghost predicate Halfway(quote: string -> string, key: map<string, Value>, order: seq<string>, n: nat,
                          eq: map<string, Value>)
    requires n <= |order| && forall i | 0 <= i < |order| :: order[i] in key
  {
    && (forall i | 0 <= i < n :: quote(order[i]) in eq && eq[quote(order[i])] == key[order[i]])
    && (forall i | n <= i < |order| :: order[i] in eq && eq[order[i]] == key[order[i]])
    && (forall q | q in eq :: IsFrom(quote, order, n, q))
  }

  lemma {:induction false} HalfwayStep(quote: string -> string, key: map<string, Value>, order: seq<string>, n: nat,
                                       eq: map<string, Value>)
    requires Quoting(quote) && n < |order| && Distinct(order) && !Overtaken(quote, order)
    requires forall i | 0 <= i < |order| :: order[i] in key
    requires Halfway(quote, key, order, n, eq)
    ensures Halfway(quote, key, order, n + 1, Requoted(quote, eq, order[n]))
  {
    hide IsFrom;
    var col := order[n];
    var after := Requoted(quote, eq, col);
    assert At(eq, col) == key[col];
    forall i | 0 <= i < n + 1
      ensures quote(order[i]) in after && after[quote(order[i])] == key[order[i]]
    {
      if i < n {
        assert quote(order[i]) != col;
        assert order[i] != order[n];
      }
    }
    forall i | n + 1 <= i < |order|
      ensures order[i] in after && after[order[i]] == key[order[i]]
    {
      assert order[i] != quote(col) && order[i] != col;
    }
    NothingElse(quote, key, order, n, eq);
  }

  lemma {:induction false} NothingElse(quote: string -> string, key: map<string, Value>, order: seq<string>, n: nat,
                                       eq: map<string, Value>)
    requires n < |order| && forall i | 0 <= i < |order| :: order[i] in key
    requires Halfway(quote, key, order, n, eq)
    ensures forall q | q in Requoted(quote, eq, order[n]) :: IsFrom(quote, order, n + 1, q)
  {
  }

  lemma {:induction false} RequotedHalfway(quote: string -> string, key: map<string, Value>, order: seq<string>, n: nat)
    requires Quoting(quote) && n <= |order| && Distinct(order) && !Overtaken(quote, order)
    requires forall i | 0 <= i < |order| :: order[i] in key
    requires forall c | c in key :: c in order
    ensures Halfway(quote, key, order, n, RequotedAll(quote, key, order[..n]))
  {
    if n == 0 {
      assert order[..n] == [];
      forall q | q in key
        ensures IsFrom(quote, order, n, q)
      {
        assert q in order;
      }
    } else {
      var before := RequotedAll(quote, key, order[..n - 1]);
      assert RequotedAll(quote, key, order[..n]) == Requoted(quote, before, order[n - 1]) by {
        assert order[..n][..n - 1] == order[..n - 1];
      }
      RequotedHalfway(quote, key, order, n - 1);
      HalfwayStep(quote, key, order, n - 1, before);
    }
  }

  lemma {:induction false} OvertakenIsLost(quote: string -> string, key: map<string, Value>, order: seq<string>, i: nat,
                                           j: nat, n: nat)
    requires Quoting(quote) && Distinct(order) && i < j < n <= |order| && order[j] == quote(order[i])
    ensures order[j] !in RequotedAll(quote, key, order[..n])
  {
    assert order[..n][..n - 1] == order[..n - 1];
    if n > j + 1 {
      OvertakenIsLost(quote, key, order, i, j, n - 1);
    }
  }

  /** For one visiting order: every column ends up quoted, once, exactly when no quoted form is overtaken. */
  lemma {:induction false} RequotingExact(quote: string -> string, key: map<string, Value>, order: seq<string>)
    requires Quoting(quote) && Enumerates(order, key.Keys)
    ensures IsQuoted(quote, key, RequotedAll(quote, key, order)) <==> !Overtaken(quote, order)
    ensures CleanKey(quote, key) ==> !Overtaken(quote, order)
  {
    assert order[..|order|] == order;
    assert forall i | 0 <= i < |order| :: order[i] in order;
    if Overtaken(quote, order) {
      var i, j :| 0 <= i < j < |order| && order[j] == quote(order[i]);
      OvertakenIsLost(quote, key, order, i, j, |order|);
      assert order[i] in key && order[j] in key;
      assert quote(order[i]) !in RequotedAll(quote, key, order);
    } else {
      RequotedHalfway(quote, key, order, |order|);
      HalfwayIsQuoted(quote, key, order, RequotedAll(quote, key, order));
    }
  }

  lemma {:induction false} HalfwayIsQuoted(quote: string -> string, key: map<string, Value>, order: seq<string>,
                                           eq: map<string, Value>)
    requires forall i | 0 <= i < |order| :: order[i] in key
    requires forall c | c in key :: c in order
    requires Halfway(quote, key, order, |order|, eq)
    ensures IsQuoted(quote, key, eq)
  {
  }

  /** No column of the key is the quoted form of one of its columns. */
  ghost predicate CleanKey(quote: string -> string, key: map<string, Value>) {
    forall a, b | a in key && b in key :: b != quote(a)
  }

  /** Whatever order the runtime picks, the loop is right: exactly for the clean keys. */
  lemma {:induction false} RequotingAlwaysRight(quote: string -> string, key: map<string, Value>)
    requires Quoting(quote)
    ensures CleanKey(quote, key)
       <==> forall order | Enumerates(order, key.Keys) :: IsQuoted(quote, key, RequotedAll(quote, key, order))
  {
    forall order | Enumerates(order, key.Keys) && CleanKey(quote, key)
      ensures IsQuoted(quote, key, RequotedAll(quote, key, order))
    {
      RequotingExact(quote, key, order);
    }
    if !CleanKey(quote, key) {
      var a, b :| a in key && b in key && b == quote(a);
      UncleanOrder(quote, key, a, b);
    }
  }

  lemma {:induction false} UncleanOrder(quote: string -> string, key: map<string, Value>, a: string, b: string)
    requires Quoting(quote) && a in key && b in key && b == quote(a)
    ensures exists order :: Enumerates(order, key.Keys) && !IsQuoted(quote, key, RequotedAll(quote, key, order))
  {
    hide IsQuoted, RequotedAll;
    var rest := Listed(key.Keys - {a});
    var order := [a] + rest;
    assert b in rest;
    var j :| 0 <= j < |rest| && rest[j] == b;
    assert order[0] == a && order[j + 1] == b;
    assert Distinct(order) by {
      assert a !in rest;
    }
    assert Enumerates(order, key.Keys);
    RequotingExact(quote, key, order);
  }

  /**
   A loop that also visits an entry it inserted itself, which the Go specification leaves open, loses that column:
   its name ends up quoted twice.
   */
  lemma {:induction false} RevisitQuotesTwice(quote: string -> string, key: map<string, Value>, order: seq<string>,
                                              col: string)
    requires Quoting(quote) && Enumerates(order, key.Keys) && col in key
    ensures !IsQuoted(quote, key, RequotedAll(quote, key, order + [quote(col)]))
  {
  }

  // ----- the dialects

  function Quoter(d: Dialect): string -> string {
    s => Quote(d, s)
  }

  lemma {:induction false} DialectQuotes(d: Dialect)
    requires !d.Plain?
    ensures Quoting(Quoter(d))
  {
    forall a, b: string | Quote(d, a) == Quote(d, b)
      ensures a == b
    {
      QuoteInjective(d, a, b);
    }
    forall a: string
      ensures |Quote(d, a)| > |a|
    {
      QuoteLengthens(d, a);
    }
  }

  /** No column of the key is the quoted form of one of its columns; without a dialect nothing is renamed. */
  ghost predicate Clean(d: Dialect, key: map<string, Value>) {
    d.Plain? || CleanKey(Quoter(d), key)
  }

  lemma {:induction false} QuoteInjectiveOn(d: Dialect, names: set<string>)
    ensures forall a, b | a in names && b in names && Quote(d, a) == Quote(d, b) :: a == b
  {
    forall a, b | a in names && b in names && Quote(d, a) == Quote(d, b)
      ensures a == b
    {
      QuoteInjective(d, a, b);
    }
  }

  /** The row key under its quoted columns. */
  function QuotedKey(d: Dialect, key: map<string, Value>): (quoted: map<string, Value>)
    ensures forall c | c in key :: Quote(d, c) in quoted && quoted[Quote(d, c)] == key[c]
    ensures forall q | q in quoted :: exists c | c in key :: q == Quote(d, c)
  {
    QuoteInjectiveOn(d, key.Keys);
    map c | c in key :: Quote(d, c) := key[c]
  }

  /** The condition for a row key; a missing row key, like one without columns, is always true. */
  function RowKeyCond(d: Dialect, rowKey: Option<RowKey>): Cond {
    match rowKey
    case None => Eq(map[])
    case Some(rk) => Eq(QuotedKey(d, rk.key))
  }

  /**
   The conditions a row key may become: without a dialect itself, else what the renaming loop leaves for some order.
   */
  ghost predicate IsCond(d: Dialect, rowKey: Option<RowKey>, cond: Cond) {
    match rowKey
    case None => cond == Eq(map[])
    case Some(rk) =>
      if d.Plain? then cond == Eq(rk.key)
      else exists order :: Enumerates(order, rk.key.Keys) && cond == Eq(RequotedAll(Quoter(d), rk.key, order))
  }

  method RowKeyToSqlizer(d: Dialect, rowKey: Option<RowKey>) returns (cond: Cond)
    ensures IsCond(d, rowKey, cond)
  {
    if rowKey.None? {
      return Eq(map[]);
    }
    var key := rowKey.value.key;
    if d.Plain? {
      return Eq(key);
    }
    DialectQuotes(d);
    var eq, order := Requote(Quoter(d), key);
    return Eq(eq);
  }

  /** A clean row key becomes one condition only: its quoted columns with their values. */
  lemma {:induction false} CleanCond(d: Dialect, rowKey: Option<RowKey>, cond: Cond)
    requires IsCond(d, rowKey, cond) && (rowKey.Some? ==> Clean(d, rowKey.value.key))
    ensures cond == RowKeyCond(d, rowKey)
  {
    if rowKey.Some? {
      var key := rowKey.value.key;
      if d.Plain? {
        QuotedPlain(key);
      } else {
        DialectQuotes(d);
        var order :| Enumerates(order, key.Keys) && cond == Eq(RequotedAll(Quoter(d), key, order));
        RequotingExact(Quoter(d), key, order);
        QuotedIsUnique(d, key, cond.key);
      }
    }
  }

  lemma {:induction false} QuotedIsUnique(d: Dialect, key: map<string, Value>, eq: map<string, Value>)
    requires IsQuoted(Quoter(d), key, eq)
    ensures eq == QuotedKey(d, key)
  {
    assert forall c :: Quoter(d)(c) == Quote(d, c);
    hide Quote, Quoter;
    assert eq.Keys == QuotedKey(d, key).Keys;
  }

  lemma {:induction false} QuotedPlain(key: map<string, Value>)
    ensures QuotedKey(Plain, key) == key
  {
  }

  /** Quoting keeps the meaning: the quoted key has the truth value of the unquoted one on every row. */
  lemma {:induction false} QuotingKeepsMeaning(d: Dialect, key: map<string, Value>, row: Row)
    ensures Eval(d, Eq(QuotedKey(d, key)), row) == Eval(Plain, Eq(key), row)
  {
    hide Quote, Test;
    var quoted := QuotedKey(d, key);
    forall c | c in key
      ensures TestAt(d, quoted, Quote(d, c), row) == TestAt(Plain, key, c, row)
    {
      ResolveOfQuote(d, c);
      assert Name(d, Quote(d, c)) == c && Name(Plain, c) == c;
    }
  }

  /** A condition for no row key, or for one without columns, is true of every row. */
  lemma {:induction false} KeylessSelects(d: Dialect, rowKey: Option<RowKey>, cond: Cond, row: Row)
    requires IsCond(d, rowKey, cond) && (rowKey.None? || rowKey.value.key == map[])
    ensures Selects(d, cond, row)
  {
    if rowKey.Some? && !d.Plain? {
      var key := rowKey.value.key;
      var order :| Enumerates(order, key.Keys) && cond == Eq(RequotedAll(Quoter(d), key, order));
      HasElement(order);
    }
    EqSelects(d, map[], row);
  }

  /** A condition for a clean row key is true of the rows that hold its values, a nil value standing for NULL. */
  lemma {:induction false} CleanSelects(d: Dialect, rowKey: RowKey, cond: Cond, row: Row)
    requires IsCond(d, Some(rowKey), cond) && Clean(d, rowKey.key)
    ensures Selects(d, cond, row) <==> forall c | c in rowKey.key :: At(row, c) == rowKey.key[c]
  {
    hide IsCond, Clean;
    CleanCond(d, Some(rowKey), cond);
    QuotingKeepsMeaning(d, rowKey.key, row);
    EqSelects(Plain, rowKey.key, row);
  }
}
