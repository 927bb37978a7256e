/** The string functions of Go's standard library that the program leans on. */
module Strings {

  predicate Free(c: char, s: string) {
    c !in s
  }

  // ----- strings.Split with a one-character separator, and strings.Join

  function Split(s: string, sep: char): (parts: seq<string>)
    ensures parts != []
  {
    if s == "" then [""]
    else if s[0] == sep then [""] + Split(s[1..], sep)
    else var parts := Split(s[1..], sep); [[s[0]] + parts[0]] + parts[1..]
  }

  function Join(parts: seq<string>, sep: char): string {
    if parts == [] then ""
    else if |parts| == 1 then parts[0]
    else parts[0] + [sep] + Join(parts[1..], sep)
  }

  lemma {:induction false} SplitFree(s: string, sep: char)
    requires Free(sep, s)
    ensures Split(s, sep) == [s]
  {
    if s != "" {
      SplitFree(s[1..], sep);
      assert [s[0]] + s[1..] == s;
    }
  }

  lemma {:induction false} SplitFirst(s: string, sep: char, rest: string)
    requires Free(sep, s)
    ensures Split(s + [sep] + rest, sep) == [s] + Split(rest, sep)
  {
    var t := s + [sep] + rest;
    if s == "" {
      assert t == [sep] + rest;
      assert t[1..] == rest;
    } else {
      SplitFirst(s[1..], sep, rest);
      assert t[1..] == s[1..] + [sep] + rest;
      assert [s[0]] + s[1..] == s;
    }
  }

  lemma {:induction false} SplitOfJoin(parts: seq<string>, sep: char)
    requires parts != [] && forall i | 0 <= i < |parts| :: Free(sep, parts[i])
    ensures Split(Join(parts, sep), sep) == parts
  {
    if |parts| == 1 {
      SplitFree(parts[0], sep);
    } else {
      SplitOfJoin(parts[1..], sep);
      SplitFirst(parts[0], sep, Join(parts[1..], sep));
    }
  }

  // ----- sort.Strings

  /** The order of Go strings. */
  predicate Less(a: string, b: string) {
    if b == "" then false
    else if a == "" then true
    else if a[0] != b[0] then a[0] < b[0]
    else Less(a[1..], b[1..])
  }

  lemma {:induction false} LessTotal(a: string, b: string)
    ensures !(Less(a, b) && Less(b, a))
    ensures Less(a, b) || Less(b, a) || a == b
    ensures a == b ==> !Less(a, b)
  {
    if a != "" && b != "" && a[0] == b[0] {
      LessTotal(a[1..], b[1..]);
      assert a == [a[0]] + a[1..] && b == [b[0]] + b[1..];
    }
  }

  lemma {:induction false} LessTransitive(a: string, b: string, c: string)
    requires Less(a, b) && Less(b, c)
    ensures Less(a, c)
  {
    if a != "" && a[0] == b[0] == c[0] {
      LessTransitive(a[1..], b[1..], c[1..]);
    }
  }

  predicate Increasing(s: seq<string>) {
    forall i, j | 0 <= i < j < |s| :: Less(s[i], s[j])
  }

  predicate Distinct<T(==)>(s: seq<T>) {
    forall i, j | 0 <= i < j < |s| :: s[i] != s[j]
  }

  function Insert(c: string, s: seq<string>): seq<string> {
    if s == [] || Less(c, s[0]) then [c] + s else [s[0]] + Insert(c, s[1..])
  }

  function Sort(s: seq<string>): seq<string> {
    if s == [] then [] else Insert(s[0], Sort(s[1..]))
  }

  lemma {:induction false} InsertSorts(c: string, s: seq<string>)
    requires Increasing(s) && c !in s
    ensures Increasing(Insert(c, s))
    ensures forall x :: x in Insert(c, s) <==> x == c || x in s
  {
    if s == [] {
    } else if Less(c, s[0]) {
      forall i | 0 < i < |s|
        ensures Less(c, s[i])
      {
        LessTransitive(c, s[0], s[i]);
      }
    } else {
      LessTotal(c, s[0]);
      InsertSorts(c, s[1..]);
      var t := Insert(c, s[1..]);
      assert s == [s[0]] + s[1..];
      forall i | 0 <= i < |t|
        ensures Less(s[0], t[i])
      {
        assert t[i] in t;
      }
    }
  }

  lemma {:induction false} SortSorts(s: seq<string>)
    requires Distinct(s)
    ensures Increasing(Sort(s))
    ensures forall x :: x in Sort(s) <==> x in s
  {
    if s != [] {
      SortSorts(s[1..]);
      assert s == [s[0]] + s[1..];
      InsertSorts(s[0], Sort(s[1..]));
    }
  }

  lemma {:induction false} HasElement(s: seq<string>)
    ensures s != [] ==> exists x :: x in s
  {
    if s != [] {
      assert s[0] in s;
    }
  }

  /** Only one increasing sequence holds a given set of strings. */
  lemma {:induction false} IncreasingUnique(a: seq<string>, b: seq<string>)
    requires Increasing(a) && Increasing(b)
    requires forall x :: x in a <==> x in b
    ensures a == b
  {
    HasElement(b);
    if a != [] {
      assert a[0] in b && b[0] in a;
      LessTotal(a[0], b[0]);
      assert a[0] == b[0];
      forall x
        ensures x in a[1..] <==> x in b[1..]
      {
        LessTotal(a[0], a[0]);
        assert x in a <==> x == a[0] || x in a[1..];
        assert x in b <==> x == b[0] || x in b[1..];
        assert a[0] !in a[1..] && b[0] !in b[1..];
      }
      IncreasingUnique(a[1..], b[1..]);
    }
  }

  // ----- enumerations of a set

  ghost predicate Enumerates<T(!new)>(s: seq<T>, items: set<T>) {
    Distinct(s) && forall x :: x in s <==> x in items
  }

  ghost function Listed<T(!new)>(items: set<T>): (s: seq<T>)
    ensures Enumerates(s, items)
  {
    if items == {} then []
    else
      var x :| x in items;
      [x] + Listed(items - {x})
  }

  ghost function Sorted(items: set<string>): (s: seq<string>)
    ensures Increasing(s) && forall x :: x in s <==> x in items
  {
    SortSorts(Listed(items));
    Sort(Listed(items))
  }
}
