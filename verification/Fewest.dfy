/**
 How few statements there are: no list of statements that is made of the same parts, within the same limit, is shorter
 than what the bulk compiler emits, unless deletes differ in columns that they do not use.
 */
module Fewest {
  import opened Wrappers
  import opened Dialects
  import opened Sql
  import opened RowKeys
  import opened Compile
  import opened Chunking
  import opened UnitOfWork

  /** Taken apart, `stmts` are the statements of the patches one at a time; none is empty or above the limit. */
  ghost predicate Merges(d: Dialect, max: int, ps: seq<Patch>, stmts: seq<Statement>)
    requires AllWellFormed(ps)
  {
    && ExplodeAll(stmts) == PatchStatements(d, ps)
    && forall i | 0 <= i < |stmts| :: |Explode(stmts[i])| > 0 && (max > 0 ==> |Explode(stmts[i])| <= max)
  }

  lemma {:induction false} ChunkSize(d: Dialect, chunk: seq<Patch>, stmt: Statement)
    requires chunk != [] && WellFormed(chunk[0]) && IsChunkStatement(d, chunk, stmt)
    ensures |Explode(stmt)| == |chunk|
  {
  }

  lemma {:induction false} ChunkIsItsStatement(d: Dialect, chunk: seq<Patch>)
    requires chunk != [] && WellFormed(chunk[0])
    ensures |Explode(ChunkStatement(d, chunk))| == |chunk|
  {
  }

  /** What the bulk compiler emits for well-formed patches. */
  lemma {:induction false} BulkMerges(d: Dialect, max: int, ps: seq<Patch>)
    requires AllWellFormed(ps)
    ensures BulkCompile(d, max, ps).Ok? && Merges(d, max, ps, BulkCompile(d, max, ps).stmts)
    ensures |BulkCompile(d, max, ps).stmts| == |Chunks(max, ps)|
  {
    StatementsConserve(d, max, ps);
    OneStatementPerChunk(d, max, ps);
    ChunksConserve(max, ps);
    hide BulkCompile, Chunks, ExplodeAll, Explode, PatchStatements, ChunkStatement, WellFormed, Compat;
    var chunks := Chunks(max, ps);
    forall i | 0 <= i < |chunks|
      ensures |Explode(ChunkStatement(d, chunks[i]))| == |chunks[i]|
    {
      ChunkIsItsStatement(d, chunks[i]);
    }
  }

  // ----- deletes carry columns that no statement shows

  /** The patch without columns that its statement does not use. */
  function Bare(p: Patch): Patch {
    if p.kind.PatchDelete? then p.(cols := [], vals := []) else p
  }

  function Bares(ps: seq<Patch>): seq<Patch> {
    seq(|ps|, i requires 0 <= i < |ps| => Bare(ps[i]))
  }

  lemma {:induction false} SameStatements(d: Dialect, ps: seq<Patch>)
    requires AllWellFormed(ps)
    ensures AllWellFormed(Bares(ps)) && PatchStatements(d, Bares(ps)) == PatchStatements(d, ps)
  {
    assert forall i | 0 <= i < |ps| :: WellFormed(ps[i]);
    hide RowKeyCond, Quote, Quotes;
    assert forall i | 0 <= i < |ps| :: PatchStatement(d, Bares(ps)[i]) == PatchStatement(d, ps[i]);
  }

  // ----- statements that can be merged come from compatible patches

  /** Equal but for the row or the condition. */
  predicate SameShape(a: Statement, b: Statement) {
    match (a, b)
    case (Insert(t, cols, _), Insert(u, cols', _)) => t == u && cols == cols'
    case (Update(t, sets, _), Update(u, sets', _)) => t == u && sets == sets'
    case (Delete(t, _), Delete(u, _)) => t == u
    case _ => false
  }

  lemma {:induction false} PartsHaveOneShape(stmt: Statement, i: nat, j: nat)
    requires i < |Explode(stmt)| && j < |Explode(stmt)|
    ensures SameShape(Explode(stmt)[i], Explode(stmt)[j])
  {
  }

  lemma {:induction false} QuotesInjective(d: Dialect, a: seq<string>, b: seq<string>)
    ensures Quotes(d, a) == Quotes(d, b) <==> a == b
  {
    if Quotes(d, a) == Quotes(d, b) {
      assert |a| == |Quotes(d, a)| == |b|;
      forall i | 0 <= i < |a|
        ensures a[i] == b[i]
      {
        assert Quotes(d, a)[i] == Quotes(d, b)[i];
        QuoteInjective(d, a[i], b[i]);
      }
    }
  }

  lemma {:induction false} PairsInjective(cols: seq<string>, vals: seq<Value>, cols': seq<string>, vals': seq<Value>)
    requires |cols| == |vals| && |cols'| == |vals'| && Pairs(cols, vals) == Pairs(cols', vals')
    ensures cols == cols' && vals == vals'
  {
    assert |cols| == |Pairs(cols, vals)| == |cols'|;
    forall i | 0 <= i < |cols|
      ensures cols[i] == cols'[i] && vals[i] == vals'[i]
    {
      assert Pairs(cols, vals)[i] == Pairs(cols', vals')[i];
    }
  }

  lemma {:induction false} ShapeIsCompat(d: Dialect, p: Patch, q: Patch)
    requires WellFormed(p) && WellFormed(q) && p == Bare(p) && q == Bare(q)
    requires SameShape(PatchStatement(d, p), PatchStatement(d, q))
    ensures Compat(p, q)
  {
    QuoteInjective(d, p.table, q.table);
    QuotesInjective(d, p.cols, q.cols);
    assert |Quotes(d, p.cols)| == |p.cols| && |Quotes(d, q.cols)| == |q.cols|;
    hide Quotes, Quote, RowKeyCond, Pairs;
    if p.kind.PatchUpdate? {
      PairsInjective(Quotes(d, p.cols), p.vals, Quotes(d, q.cols), q.vals);
    }
  }

  lemma {:induction false} MergedIsChunk(d: Dialect, max: int, ps: seq<Patch>, stmt: Statement)
    requires AllWellFormed(ps) && ps == Bares(ps) && Explode(stmt) == PatchStatements(d, ps)
    requires ps != [] && (max > 0 ==> |ps| <= max)
    ensures IsChunk(max, ps)
  {
    hide Explode, Compat, PatchStatement, SameShape, WellFormed;
    forall i, j | 0 <= i < |ps| && 0 <= j < |ps|
      ensures Compat(ps[i], ps[j])
    {
      PartsHaveOneShape(stmt, i, j);
      assert Explode(stmt)[i] == PatchStatement(d, ps[i]) && Explode(stmt)[j] == PatchStatement(d, ps[j]);
      assert ps[i] == Bares(ps)[i] && ps[j] == Bares(ps)[j];
      ShapeIsCompat(d, ps[i], ps[j]);
    }
  }

  lemma {:induction false} FirstMerged(d: Dialect, max: int, ps: seq<Patch>, stmts: seq<Statement>)
    requires AllWellFormed(ps) && ps == Bares(ps) && stmts != [] && Merges(d, max, ps, stmts)
    ensures var n := |Explode(stmts[0])|;
            && 0 < n <= |ps| && IsChunk(max, ps[..n])
            && AllWellFormed(ps[n..]) && ps[n..] == Bares(ps[n..]) && Merges(d, max, ps[n..], stmts[1..])
  {
    hide Explode, IsChunk, PatchStatement, WellFormed, Bare;
    var n := |Explode(stmts[0])|;
    var all := PatchStatements(d, ps);
    assert all == Explode(stmts[0]) + ExplodeAll(stmts[1..]);
    assert |all| == |ps|;
    assert ps[..n] == Bares(ps[..n]) by {
      assert forall i | 0 <= i < n :: ps[..n][i] == Bares(ps)[i];
    }
    assert ps[n..] == Bares(ps[n..]) by {
      assert forall i | 0 <= i < |ps| - n :: ps[n..][i] == Bares(ps)[n + i];
    }
    assert PatchStatements(d, ps[..n]) == all[..n] == Explode(stmts[0]);
    assert PatchStatements(d, ps[n..]) == all[n..] == ExplodeAll(stmts[1..]);
    MergedIsChunk(d, max, ps[..n], stmts[0]);
    assert forall i | 0 <= i < |stmts| - 1 :: stmts[1..][i] == stmts[i + 1];
  }

  /** A list of merged statements cuts the patches into chunks. */
  lemma {:induction false} MergesSplit(d: Dialect, max: int, ps: seq<Patch>, stmts: seq<Statement>)
      returns (split: seq<seq<Patch>>)
    requires AllWellFormed(ps) && ps == Bares(ps) && Merges(d, max, ps, stmts)
    ensures |split| == |stmts| && IsSplit(max, ps, split)
    decreases |stmts|
  {
    if stmts == [] {
      assert |PatchStatements(d, ps)| == |ps|;
      split := [];
    } else {
      FirstMerged(d, max, ps, stmts);
      hide Merges, Explode, IsChunk, AllWellFormed, Bares;
      var n := |Explode(stmts[0])|;
      var rest := MergesSplit(d, max, ps[n..], stmts[1..]);
      split := [ps[..n]] + rest;
      assert split[1..] == rest;
      assert ps[..n] + ps[n..] == ps;
    }
  }

  /** The number of statements that cannot be undercut: that of the bulk compiler for the bare patches. */
  lemma {:induction false} NoFewer(d: Dialect, max: int, ps: seq<Patch>, stmts: seq<Statement>)
    requires AllWellFormed(ps) && Merges(d, max, ps, stmts)
    ensures |Chunks(max, Bares(ps))| <= |stmts|
  {
    SameStatements(d, ps);
    assert Bares(Bares(ps)) == Bares(ps);
    assert KnownKinds(Bares(ps));
    hide PatchStatements, Chunks, ExplodeAll, Explode, AllWellFormed, Bares, KnownKinds;
    var split := MergesSplit(d, max, Bares(ps), stmts);
    GreedyIsOptimal(max, Bares(ps), split);
  }

  /** The bulk compiler emits as few statements as can be exactly when it emits as many for the bare patches. */
  lemma {:induction false} FewestExactly(d: Dialect, max: int, ps: seq<Patch>)
    requires AllWellFormed(ps)
    ensures BulkCompile(d, max, ps).Ok? && AllWellFormed(Bares(ps)) && BulkCompile(d, max, Bares(ps)).Ok?
    ensures (forall stmts | Merges(d, max, ps, stmts) :: |BulkCompile(d, max, ps).stmts| <= |stmts|)
       <==> |BulkCompile(d, max, ps).stmts| == |BulkCompile(d, max, Bares(ps)).stmts|
  {
    SameStatements(d, ps);
    BulkMerges(d, max, ps);
    BulkMerges(d, max, Bares(ps));
    hide PatchStatements, Chunks, ExplodeAll, Explode, AllWellFormed, Bares, BulkCompile;
    var least := BulkCompile(d, max, Bares(ps)).stmts;
    assert Merges(d, max, ps, least);
    NoFewer(d, max, ps, BulkCompile(d, max, ps).stmts);
    forall stmts | Merges(d, max, ps, stmts)
      ensures |least| <= |stmts|
    {
      NoFewer(d, max, ps, stmts);
    }
  }

  // ----- when that is

  /** Not two deletes of one table that name different columns. */
  predicate Even(p: Patch, q: Patch) {
    p.kind.PatchDelete? && q.kind.PatchDelete? && p.table == q.table ==> p.cols == q.cols
  }

  /** Deletes of one table that follow each other name the same columns. */
  predicate EvenDeletes(ps: seq<Patch>) {
    forall i | 0 < i < |ps| :: Even(ps[i - 1], ps[i])
  }

  lemma {:induction false} SameTake(max: int, ps: seq<Patch>, n: nat)
    requires KnownKinds(ps) && EvenDeletes(ps) && 0 < n <= |ps| && Compat(ps[0], ps[n - 1])
    ensures Take(max, ps, n) == Take(max, Bares(ps), n)
    decreases |ps| - n
  {
    if CanTakeMore(max, n) && n < |ps| {
      assert Compat(ps[0], ps[n]) <==> Compat(Bares(ps)[0], Bares(ps)[n]);
      if Compat(ps[0], ps[n]) {
        SameTake(max, ps, n + 1);
      }
    }
  }

  lemma {:induction false} SameChunks(max: int, ps: seq<Patch>)
    requires KnownKinds(ps) && EvenDeletes(ps)
    ensures |Chunks(max, ps)| == |Chunks(max, Bares(ps))|
  {
    if ps != [] {
      SameTake(max, ps, 1);
      var n := ChunkLength(max, ps);
      assert ChunkLength(max, Bares(ps)) == n;
      assert Bares(ps)[n..] == Bares(ps[n..]);
      assert forall i | 0 <= i < |ps| - n :: ps[n..][i] == ps[n + i];
      SameChunks(max, ps[n..]);
    }
  }

  /**
   Bulk compilation merges all that can be merged: unless neighbouring deletes name different columns, which their
   statements do not show, no list of statements with the same parts and within the limit is shorter.
   */
  lemma {:induction false} NoListIsShorter(d: Dialect, max: int, ps: seq<Patch>, stmts: seq<Statement>)
    requires AllWellFormed(ps) && EvenDeletes(ps) && Merges(d, max, ps, stmts)
    ensures BulkCompile(d, max, ps).Ok? && |BulkCompile(d, max, ps).stmts| <= |stmts|
  {
    BulkMerges(d, max, ps);
    assert KnownKinds(ps);
    hide PatchStatements, Chunks, ExplodeAll, Explode, AllWellFormed, Bares, BulkCompile, EvenDeletes, KnownKinds;
    NoFewer(d, max, ps, stmts);
    SameChunks(max, ps);
  }

  /** How often a patch cannot join its predecessor. */
  function Breaks(ps: seq<Patch>): nat {
    if |ps| < 2 then 0
    else Breaks(ps[1..]) + if Compat(ps[0], ps[1]) then 0 else 1
  }

  lemma {:induction false} BreaksAt(ps: seq<Patch>, n: nat)
    requires 0 < n <= |ps| && forall i | 0 <= i < n :: Compat(ps[0], ps[i])
    requires n < |ps| ==> !Compat(ps[0], ps[n])
    ensures Breaks(ps) == if n == |ps| then 0 else 1 + Breaks(ps[n..])
    decreases n
  {
    if n > 1 {
      assert forall i | 0 <= i < |ps| - 1 :: ps[1..][i] == ps[i + 1];
      BreaksAt(ps[1..], n - 1);
      assert ps[1..][n - 1..] == ps[n..];
    }
  }

  /** Without a limit there is a chunk for each run of patches that can join their predecessors. */
  lemma {:induction false} ChunksAreRuns(max: int, ps: seq<Patch>)
    requires max <= 0 && KnownKinds(ps) && ps != []
    ensures |Chunks(max, ps)| == 1 + Breaks(ps)
    decreases |ps|
  {
    var n := ChunkLength(max, ps);
    TakeStops(max, ps, 1);
    BreaksAt(ps, n);
    if n < |ps| {
      ChunksAreRuns(max, ps[n..]);
    } else {
      assert ps[n..] == [];
    }
  }

  lemma {:induction false} BareBreaks(ps: seq<Patch>)
    requires KnownKinds(ps)
    ensures Breaks(Bares(ps)) <= Breaks(ps)
    ensures Breaks(Bares(ps)) == Breaks(ps) <==> EvenDeletes(ps)
  {
    if |ps| >= 2 {
      assert forall i | 0 <= i < |ps| - 1 :: ps[1..][i] == ps[i + 1];
      BareBreaks(ps[1..]);
      assert Bares(ps)[1..] == Bares(ps[1..]);
      EvenTail(ps);
    }
  }

  lemma {:induction false} EvenTail(ps: seq<Patch>)
    requires |ps| >= 2
    ensures EvenDeletes(ps) <==> EvenDeletes(ps[1..]) && Even(ps[0], ps[1])
  {
    var tail := ps[1..];
    if EvenDeletes(ps) {
      forall i | 0 < i < |tail|
        ensures Even(tail[i - 1], tail[i])
      {
        assert tail[i - 1] == ps[i] && tail[i] == ps[i + 1];
      }
    }
    if EvenDeletes(tail) && Even(ps[0], ps[1]) {
      forall i | 0 < i < |ps|
        ensures Even(ps[i - 1], ps[i])
      {
        assert ps[i] == tail[i - 1];
        if i > 1 {
          assert ps[i - 1] == tail[i - 2] && Even(tail[i - 2], tail[i - 1]);
        }
      }
    }
  }

  /** Without a limit that condition is exact. */
  lemma {:induction false} FewestUnlimited(d: Dialect, max: int, ps: seq<Patch>)
    requires AllWellFormed(ps) && max <= 0
    ensures BulkCompile(d, max, ps).Ok?
    ensures (forall stmts | Merges(d, max, ps, stmts) :: |BulkCompile(d, max, ps).stmts| <= |stmts|)
       <==> EvenDeletes(ps)
  {
    FewestExactly(d, max, ps);
    BulkMerges(d, max, ps);
    BulkMerges(d, max, Bares(ps));
    assert KnownKinds(ps) && KnownKinds(Bares(ps));
    hide PatchStatements, ExplodeAll, Explode, AllWellFormed, BulkCompile, EvenDeletes, KnownKinds, Breaks, Merges;
    if ps == [] {
      assert Bares(ps) == ps;
      assert EvenDeletes(ps) by {
        BareBreaks(ps);
      }
    } else {
      ChunksAreRuns(max, ps);
      ChunksAreRuns(max, Bares(ps));
      BareBreaks(ps);
    }
  }

  /** Two deletes whose patches name different columns stay apart, although one statement would do. */
  lemma {:induction false} OddDeletesExample(d: Dialect)
    ensures var ps := [Patch(PatchDelete, "t", None, ["c"], [Null]), Patch(PatchDelete, "t", None, [], [])];
            && AllWellFormed(ps) && BulkCompile(d, 0, ps).Ok? && |BulkCompile(d, 0, ps).stmts| == 2
            && Merges(d, 0, ps, [Delete(Quote(d, "t"), Or([Eq(map[]), Eq(map[])]))])
  {
    var ps := [Patch(PatchDelete, "t", None, ["c"], [Null]), Patch(PatchDelete, "t", None, [], [])];
    BulkMerges(d, 0, ps);
    ChunksAreRuns(0, ps);
    assert Breaks(ps[1..]) == 0;
    var stmt := Delete(Quote(d, "t"), Or([Eq(map[]), Eq(map[])]));
    hide Quote, BulkCompile, Chunks;
    assert Explode(stmt) == PatchStatements(d, ps);
    assert [stmt][1..] == [];
    assert ExplodeAll([stmt]) == Explode(stmt) + [];
  }

  /** Patches of one kind, table and column list, for updates with one list of values, are one statement. */
  lemma {:induction false} AlikeAreOne(d: Dialect, max: int, ps: seq<Patch>)
    requires ps != [] && AllWellFormed(ps) && (max > 0 ==> |ps| <= max)
    requires forall i | 0 <= i < |ps| ::
               && ps[i].kind == ps[0].kind && ps[i].table == ps[0].table && ps[i].cols == ps[0].cols
               && (ps[0].kind.PatchUpdate? ==> ps[i].vals == ps[0].vals)
    ensures BulkCompile(d, max, ps).Ok? && |BulkCompile(d, max, ps).stmts| == 1
  {
    BulkMerges(d, max, ps);
    TakeIsGreedy(max, ps, 1, |ps|);
    assert ChunkLength(max, ps) == |ps|;
    assert ps[|ps|..] == [];
    assert Chunks(max, []) == [];
  }

  /** A context with a bulk compiler keeps its limit, whatever the row keys, and needs as few statements. */
  lemma {:induction false} ContextKeepsLimit(d: Dialect, max: int, ps: seq<Patch>, r: Compiled)
    requires AllWellFormed(ps) && CompilesWith(BulkCompiler(max), d, ps, r)
    ensures r.Ok?
    ensures forall i | 0 <= i < |r.stmts| ::
              |Explode(r.stmts[i])| > 0 && (max > 0 ==> |Explode(r.stmts[i])| <= max)
    ensures EvenDeletes(ps) ==> forall stmts | Merges(d, max, ps, stmts) :: |r.stmts| <= |stmts|
  {
    BulkMerges(d, max, ps);
    CompiledWith(BulkCompiler(max), d, ps, r);
    ChunksConserve(max, ps);
    hide Chunks, ExplodeAll, Explode, PatchStatements, BulkCompile, WellFormed, Compat, EvenDeletes, Merges,
         IsChunkStatement, CleanKeys;
    var chunks := Chunks(max, ps);
    assert |r.stmts| == |chunks|;
    forall i | 0 <= i < |chunks|
      ensures |Explode(r.stmts[i])| == |chunks[i]|
    {
      ChunkSize(d, chunks[i], r.stmts[i]);
    }
    if EvenDeletes(ps) {
      forall stmts | Merges(d, max, ps, stmts)
        ensures |r.stmts| <= |stmts|
      {
        NoListIsShorter(d, max, ps, stmts);
      }
    }
  }
}
