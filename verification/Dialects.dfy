/**
 Identifier quoting of the two shipped dialects, next to a scanner for delimited identifiers.

 `Plain` stands for a compiler without a dialect, which leaves every name alone.
 */
module Dialects {
  import opened Wrappers

  datatype Dialect = Plain | Postgres | Sqlite3

  /** The character that delimits an identifier. */
  function Mark(d: Dialect): char {
    if d.Sqlite3? then '`' else '"'
  }

  /** Every `q` in `s` written twice. */
  function Doubled(q: char, s: string): string {
    if s == "" then ""
    else (if s[0] == q then [q, q] else [s[0]]) + Doubled(q, s[1..])
  }

  function Quote(d: Dialect, s: string): string {
    if d.Plain? then s else [Mark(d)] + Doubled(Mark(d), s) + [Mark(d)]
  }

  /** What a scanner reads: the name of the identifier and the text that follows it. */
  datatype Token = Token(name: string, rest: string)

  /** Reads up to the closing mark; two marks in a row stand for one. */
  function ScanBody(q: char, t: string): Option<Token> {
    if t == "" then None
    else if t[0] != q then Prepend(t[0], ScanBody(q, t[1..]))
    else if |t| > 1 && t[1] == q then Prepend(q, ScanBody(q, t[2..]))
    else Some(Token("", t[1..]))
  }

  function Prepend(c: char, token: Option<Token>): Option<Token> {
    match token
    case None => None
    case Some(Token(name, rest)) => Some(Token([c] + name, rest))
  }

  /** The delimited identifier at the start of `t`. */
  function Scan(d: Dialect, t: string): Option<Token> {
    if t == "" || t[0] != Mark(d) then None else ScanBody(Mark(d), t[1..])
  }

  /** The name a database finds behind an identifier; None is a syntax error. */
  function Resolve(d: Dialect, ident: string): Option<string> {
    if d.Plain? then Some(ident)
    else
      match Scan(d, ident)
      case Some(Token(name, rest)) => if rest == "" then Some(name) else None
      case None => None
  }

  predicate Continues(q: char, rest: string) {
    rest != "" && rest[0] == q
  }

  lemma {:induction false} ScanStep(q: char, c: char, tail: string)
    ensures ScanBody(q, (if c == q then [q, q] else [c]) + tail) == Prepend(c, ScanBody(q, tail))
  {
  }

  lemma {:induction false} DoubledStep(q: char, s: string, more: string)
    requires s != ""
    ensures Doubled(q, s) + more == (if s[0] == q then [q, q] else [s[0]]) + (Doubled(q, s[1..]) + more)
  {
  }

  lemma {:induction false} ScanEnd(q: char, rest: string)
    requires !Continues(q, rest)
    ensures ScanBody(q, Doubled(q, "") + ([q] + rest)) == Some(Token("", rest))
  {
    assert Doubled(q, "") + ([q] + rest) == [q] + rest && ([q] + rest)[1..] == rest;
  }

  lemma {:induction false} Prepended(s: string, rest: string)
    requires s != ""
    ensures Prepend(s[0], Some(Token(s[1..], rest))) == Some(Token(s, rest))
  {
    assert [s[0]] + s[1..] == s;
  }

  lemma {:induction false} ScanBodyOfDoubled(q: char, s: string, rest: string)
    requires !Continues(q, rest)
    ensures ScanBody(q, Doubled(q, s) + ([q] + rest)) == Some(Token(s, rest))
  {
    hide *;
    if s == "" {
      ScanEnd(q, rest);
    } else {
      ScanBodyOfDoubled(q, s[1..], rest);
      ScanStep(q, s[0], Doubled(q, s[1..]) + ([q] + rest));
      DoubledStep(q, s, [q] + rest);
      Prepended(s, rest);
    }
  }

  lemma {:induction false} ScannedBodyIsDoubled(q: char, t: string)
    requires ScanBody(q, t).Some?
    ensures var Token(name, rest) := ScanBody(q, t).value;
            t == Doubled(q, name) + [q] + rest && !Continues(q, rest)
  {
    var Token(name, rest) := ScanBody(q, t).value;
    if t[0] != q {
      ScannedBodyIsDoubled(q, t[1..]);
      assert name[1..] == ScanBody(q, t[1..]).value.name;
      assert t == [t[0]] + t[1..];
    } else if |t| > 1 && t[1] == q {
      ScannedBodyIsDoubled(q, t[2..]);
      assert name[1..] == ScanBody(q, t[2..]).value.name;
      assert t == [q, q] + t[2..];
    } else {
      assert t == [q] + t[1..];
    }
  }

  lemma {:induction false} ScanOfQuote(d: Dialect, s: string, rest: string)
    requires !d.Plain? && !Continues(Mark(d), rest)
    ensures Scan(d, Quote(d, s) + rest) == Some(Token(s, rest))
  {
    hide Doubled, ScanBody, Mark;
    var q := Mark(d);
    var body := Doubled(q, s) + ([q] + rest);
    ScanBodyOfDoubled(q, s, rest);
    assert Quote(d, s) + rest == [q] + body;
    assert ([q] + body)[1..] == body;
  }

  lemma {:induction false} QuoteOfScan(d: Dialect, t: string)
    requires !d.Plain? && Scan(d, t).Some?
    ensures var Token(name, rest) := Scan(d, t).value;
            t == Quote(d, name) + rest && !Continues(Mark(d), rest)
  {
    var q := Mark(d);
    ScannedBodyIsDoubled(q, t[1..]);
    var Token(name, rest) := Scan(d, t).value;
    assert t == [q] + t[1..];
    assert Quote(d, name) + rest == [q] + (Doubled(q, name) + [q] + rest);
  }

  /** Quoting and scanning are inverse to each other, in both directions. */
  lemma {:induction false} ScanInvertsQuote(d: Dialect, t: string, s: string, rest: string)
    requires !d.Plain?
    ensures Scan(d, t) == Some(Token(s, rest)) <==> t == Quote(d, s) + rest && !Continues(Mark(d), rest)
  {
    if Scan(d, t) == Some(Token(s, rest)) {
      QuoteOfScan(d, t);
    }
    if t == Quote(d, s) + rest && !Continues(Mark(d), rest) {
      ScanOfQuote(d, s, rest);
    }
  }

  /**
   The marks of the two dialects: PostgreSQL delimits identifiers by double quotes, as the standard does, SQLite by
   backquotes, and a name is read back from its quoted form up to the closing mark. Without a dialect nothing is quoted.
   */
  lemma {:induction false} ShippedMarks(s: string, rest: string)
    ensures var t := Quote(Postgres, s);
            t != "" && t[0] == '"' &&
            (rest == "" || rest[0] != '"' ==> ScanBody('"', t[1..] + rest) == Some(Token(s, rest)))
    ensures var t := Quote(Sqlite3, s);
            t != "" && t[0] == '`' &&
            (rest == "" || rest[0] != '`' ==> ScanBody('`', t[1..] + rest) == Some(Token(s, rest)))
    ensures Quote(Plain, s) == s
  {
    ReadBack(Postgres, '"', s, rest);
    ReadBack(Sqlite3, '`', s, rest);
  }

  lemma {:induction false} ReadBack(d: Dialect, q: char, s: string, rest: string)
    requires !d.Plain? && Mark(d) == q
    ensures var t := Quote(d, s);
            t != "" && t[0] == q && (!Continues(q, rest) ==> ScanBody(q, t[1..] + rest) == Some(Token(s, rest)))
  {
    hide Doubled, ScanBody, Mark;
    var t := Quote(d, s);
    assert t == [q] + (Doubled(q, s) + [q]);
    assert t[1..] + rest == Doubled(q, s) + ([q] + rest);
    if !Continues(q, rest) {
      ScanBodyOfDoubled(q, s, rest);
    }
  }

  lemma {:induction false} ResolveOfQuote(d: Dialect, s: string)
    ensures Resolve(d, Quote(d, s)) == Some(s)
  {
    if !d.Plain? {
      ScanOfQuote(d, s, "");
      assert Quote(d, s) + "" == Quote(d, s);
    }
  }

  lemma {:induction false} QuoteInjective(d: Dialect, s: string, t: string)
    ensures Quote(d, s) == Quote(d, t) <==> s == t
  {
    ResolveOfQuote(d, s);
    ResolveOfQuote(d, t);
  }

  lemma {:induction false} DoubledLengthens(q: char, s: string)
    ensures |Doubled(q, s)| >= |s|
  {
    if s != "" {
      DoubledLengthens(q, s[1..]);
    }
  }

  /** No chain of quotings leads back to a name, in particular none is its own quoted form. */
  lemma {:induction false} QuoteLengthens(d: Dialect, s: string)
    requires !d.Plain?
    ensures |Quote(d, s)| >= |s| + 2
  {
    DoubledLengthens(Mark(d), s);
  }
}
