/**
 How the bulk compiler cuts the patch list: nothing is lost, and no other way of cutting it needs fewer statements.
 */
module Chunking {
  import opened Wrappers
  import opened Dialects
  import opened Sql
  import opened RowKeys
  import opened Compile
  import opened BulkMeaning

  function Concat<T>(parts: seq<seq<T>>): seq<T> {
    if parts == [] then [] else parts[0] + Concat(parts[1..])
  }

  predicate WithinLimit(max: int, n: nat) {
    max <= 0 || n <= max
  }

  /** A chunk the bulk compiler may build: some patches, within the limit, each compatible with each. */
  predicate IsChunk(max: int, chunk: seq<Patch>) {
    && chunk != []
    && WithinLimit(max, |chunk|)
    && forall i, j | 0 <= i < |chunk| && 0 <= j < |chunk| :: Compat(chunk[i], chunk[j])
  }

  /** An order-preserving way to cut `ps` into chunks. */
  predicate IsSplit(max: int, ps: seq<Patch>, split: seq<seq<Patch>>) {
    Concat(split) == ps && forall i | 0 <= i < |split| :: IsChunk(max, split[i])
  }

  lemma {:induction false} TakeWithinLimit(max: int, ps: seq<Patch>, n: nat)
    requires 0 < n <= |ps| && WithinLimit(max, n)
    ensures WithinLimit(max, Take(max, ps, n))
    decreases |ps| - n
  {
    if CanTakeMore(max, n) && n < |ps| && Compat(ps[0], ps[n]) {
      TakeWithinLimit(max, ps, n + 1);
    }
  }

  lemma {:induction false} TakeIsGreedy(max: int, ps: seq<Patch>, n: nat, goal: nat)
    requires 0 < n <= goal <= |ps| && WithinLimit(max, goal)
    requires forall i | 0 <= i < goal :: Compat(ps[0], ps[i])
    ensures Take(max, ps, n) >= goal
    decreases |ps| - n
  {
    if n < goal {
      TakeIsGreedy(max, ps, n + 1, goal);
    }
  }

  lemma {:induction false} HeadIsChunk(max: int, ps: seq<Patch>)
    requires ps != []
    ensures IsChunk(max, ps[..ChunkLength(max, ps)])
  {
    if !ps[0].kind.OtherKind? {
      TakeCompat(max, ps, 1);
      TakeWithinLimit(max, ps, 1);
    }
  }

  /** The chunks read in order are the patch list; each is non-empty, within the limit and compatible throughout. */
  lemma {:induction false} ChunksConserve(max: int, ps: seq<Patch>)
    ensures IsSplit(max, ps, Chunks(max, ps))
  {
    if ps != [] {
      var n := ChunkLength(max, ps);
      HeadIsChunk(max, ps);
      ChunksConserve(max, ps[n..]);
      assert ps[..n] + ps[n..] == ps;
      assert Chunks(max, ps)[1..] == Chunks(max, ps[n..]);
    }
  }

  predicate KnownKinds(ps: seq<Patch>) {
    forall i | 0 <= i < |ps| :: !ps[i].kind.OtherKind?
  }

  /** Starting later in the list never costs an extra chunk. */
  lemma {:induction false} SuffixNeedsNoMore(max: int, ps: seq<Patch>, k: nat)
    requires KnownKinds(ps) && k <= |ps|
    ensures |Chunks(max, ps[k..])| <= |Chunks(max, ps)|
    decreases |ps|
  {
    if k == 0 {
      assert ps[k..] == ps;
    } else {
      var n := ChunkLength(max, ps);
      if n <= k {
        assert ps[n..][k - n..] == ps[k..];
        SuffixNeedsNoMore(max, ps[n..], k - n);
      } else {
        var qs := ps[k..];
        HeadIsChunk(max, ps);
        assert forall i | 0 <= i < n - k :: qs[i] == ps[..n][k + i];
        TakeIsGreedy(max, qs, 1, n - k);
        var m := ChunkLength(max, qs);
        assert ps[n..][k + m - n..] == qs[m..];
        SuffixNeedsNoMore(max, ps[n..], k + m - n);
      }
    }
  }

  lemma {:induction false} AnyChunkFits(max: int, chunk: seq<Patch>, more: seq<Patch>)
    requires IsChunk(max, chunk) && !chunk[0].kind.OtherKind?
    ensures ChunkLength(max, chunk + more) >= |chunk|
  {
    assert forall i | 0 <= i < |chunk| :: (chunk + more)[i] == chunk[i];
    TakeIsGreedy(max, chunk + more, 1, |chunk|);
  }

  /** The first chunk of a split, and the split of what follows it. */
  lemma {:induction false} SplitTail(max: int, ps: seq<Patch>, split: seq<seq<Patch>>)
    requires ps != [] && IsSplit(max, ps, split)
    ensures split != [] && IsChunk(max, split[0]) && |split[0]| <= |ps|
    ensures ps[..|split[0]|] == split[0] && IsSplit(max, ps[|split[0]|..], split[1..])
  {
  }

  /** Greedy chunking is optimal. */
  lemma {:induction false} GreedyIsOptimal(max: int, ps: seq<Patch>, split: seq<seq<Patch>>)
    requires KnownKinds(ps) && IsSplit(max, ps, split)
    ensures |Chunks(max, ps)| <= |split|
    decreases |split|
  {
    if ps != [] {
      SplitTail(max, ps, split);
      GreedyIsOptimal(max, ps[|split[0]|..], split[1..]);
      GreedyStep(max, ps, |split[0]|);
    }
  }

  lemma {:induction false} GreedyStep(max: int, ps: seq<Patch>, k: nat)
    requires KnownKinds(ps) && k <= |ps| && IsChunk(max, ps[..k])
    ensures |Chunks(max, ps)| <= 1 + |Chunks(max, ps[k..])|
  {
    var n := ChunkLength(max, ps);
    assert ps[..k] + ps[k..] == ps;
    AnyChunkFits(max, ps[..k], ps[k..]);
    hide IsChunk, ChunkLength;
    assert ps[k..][n - k..] == ps[n..];
    SuffixNeedsNoMore(max, ps[k..], n - k);
  }

  // ----- the statements

  function ChunkStatements(d: Dialect, chunks: seq<seq<Patch>>): seq<Statement>
    requires HeadsWellFormed(chunks)
  {
    seq(|chunks|, i requires 0 <= i < |chunks| => ChunkStatement(d, chunks[i]))
  }

  lemma {:induction false} HeadsOfCons(d: Dialect, head: seq<Patch>, rest: seq<seq<Patch>>)
    ensures HeadsWellFormed([head] + rest) <==> head != [] && WellFormed(head[0]) && HeadsWellFormed(rest)
    ensures HeadsWellFormed([head] + rest) ==>
              ChunkStatements(d, [head] + rest) == [ChunkStatement(d, head)] + ChunkStatements(d, rest)
  {
    hide ChunkStatement, WellFormed;
    var chunks := [head] + rest;
    assert forall i | 0 <= i < |rest| :: rest[i] == chunks[i + 1];
    if HeadsWellFormed(chunks) {
      assert chunks[0] == head;
    }
  }

  /** One statement per chunk, and a panic exactly when the first patch of some chunk is malformed. */
  lemma {:induction false} OneStatementPerChunk(d: Dialect, max: int, ps: seq<Patch>)
    ensures BulkCompile(d, max, ps) ==
            if HeadsWellFormed(Chunks(max, ps)) then Ok(ChunkStatements(d, Chunks(max, ps))) else Panic
  {
    if ps != [] {
      var n := ChunkLength(max, ps);
      OneStatementPerChunk(d, max, ps[n..]);
      HeadsOfCons(d, ps[..n], Chunks(max, ps[n..]));
    }
  }

  /** No way of cutting the list yields fewer statements than the bulk compiler emits. */
  lemma {:induction false} FewestStatements(d: Dialect, max: int, ps: seq<Patch>, split: seq<seq<Patch>>)
    requires BulkCompile(d, max, ps).Ok? && IsSplit(max, ps, split)
    ensures |BulkCompile(d, max, ps).stmts| <= |split|
  {
    OneStatementPerChunk(d, max, ps);
    ChunksConserve(max, ps);
    HeadsKnow(max, Chunks(max, ps));
    GreedyIsOptimal(max, ps, split);
  }

  lemma {:induction false} HeadsKnow(max: int, chunks: seq<seq<Patch>>)
    requires HeadsWellFormed(chunks) && forall i | 0 <= i < |chunks| :: IsChunk(max, chunks[i])
    ensures KnownKinds(Concat(chunks))
  {
    if chunks != [] {
      HeadsKnow(max, chunks[1..]);
      assert forall i | 0 <= i < |chunks[0]| :: Compat(chunks[0][0], chunks[0][i]);
    }
  }

  // ----- what the compilers return for clean row keys

  lemma {:induction false} CleanConds(d: Dialect, ps: seq<Patch>, conds: seq<Cond>)
    requires AreConds(d, ps, conds) && CleanKeys(d, ps)
    ensures conds == CondsOf(d, ps)
  {
    forall i | 0 <= i < |ps|
      ensures conds[i] == RowKeyCond(d, ps[i].rowKey)
    {
      assert CleanPatch(d, ps[i]);
      CleanCond(d, ps[i].rowKey, conds[i]);
    }
  }

  lemma {:induction false} CleanStatement(d: Dialect, p: Patch, stmt: Statement)
    requires WellFormed(p) && IsPatchStatement(d, p, stmt) && CleanPatch(d, p)
    ensures stmt == PatchStatement(d, p)
  {
    hide IsCond, RowKeyCond, Clean;
    if !p.kind.PatchInsert? {
      CleanCond(d, p.rowKey, stmt.where);
    }
  }

  lemma {:induction false} CleanChunk(d: Dialect, chunk: seq<Patch>, stmt: Statement)
    requires chunk != [] && WellFormed(chunk[0]) && IsChunkStatement(d, chunk, stmt) && CleanKeys(d, chunk)
    ensures stmt == ChunkStatement(d, chunk)
  {
    hide AreConds, CondsOf, CleanKeys;
    if !chunk[0].kind.PatchInsert? {
      CleanConds(d, chunk, stmt.where.parts);
    }
  }

  lemma {:induction false} CleanChunks(d: Dialect, max: int, ps: seq<Patch>)
    requires CleanKeys(d, ps)
    ensures forall i | 0 <= i < |Chunks(max, ps)| :: CleanKeys(d, Chunks(max, ps)[i])
  {
    hide CleanPatch, ChunkLength;
    if ps != [] {
      CleanChunks(d, max, ps[ChunkLength(max, ps)..]);
    }
  }

  /** For clean row keys the compilers have one result only. */
  lemma {:induction false} CleanlyCompiled(d: Dialect, max: int, ps: seq<Patch>, r: Compiled)
    requires CleanKeys(d, ps)
    ensures DefaultCompiles(d, ps, r) ==> r == DefaultCompile(d, ps)
    ensures BulkCompiles(d, max, ps, r) ==> r == BulkCompile(d, max, ps)
  {
    hide CleanPatch, IsPatchStatement, PatchStatement, IsChunkStatement, ChunkStatement, BulkCompile, Chunks;
    if DefaultCompiles(d, ps, r) && r.Ok? {
      forall i | 0 <= i < |ps|
        ensures r.stmts[i] == PatchStatement(d, ps[i])
      {
        CleanStatement(d, ps[i], r.stmts[i]);
      }
    }
    OneStatementPerChunk(d, max, ps);
    if BulkCompiles(d, max, ps, r) && r.Ok? {
      CleanChunks(d, max, ps);
      var chunks := Chunks(max, ps);
      forall i | 0 <= i < |chunks|
        ensures r.stmts[i] == ChunkStatement(d, chunks[i])
      {
        CleanChunk(d, chunks[i], r.stmts[i]);
      }
    }
  }

  /** Whether they panic does not depend on the row keys. */
  lemma {:induction false} PanicsFixed(d: Dialect, max: int, ps: seq<Patch>, r: Compiled)
    ensures DefaultCompiles(d, ps, r) ==> (r.Panic? <==> DefaultCompile(d, ps).Panic?)
    ensures BulkCompiles(d, max, ps, r) ==> (r.Panic? <==> BulkCompile(d, max, ps).Panic?)
  {
    OneStatementPerChunk(d, max, ps);
    hide BulkCompile, Chunks;
  }

  /** The patch-sized statements a statement is made of. */
  function Explode(stmt: Statement): seq<Statement> {
    match stmt
    case Insert(table, cols, rows) => seq(|rows|, i requires 0 <= i < |rows| => Insert(table, cols, [rows[i]]))
    case Update(table, sets, Or(parts)) => seq(|parts|, i requires 0 <= i < |parts| => Update(table, sets, parts[i]))
    case Delete(table, Or(parts)) => seq(|parts|, i requires 0 <= i < |parts| => Delete(table, parts[i]))
    case _ => [stmt]
  }

  function ExplodeAll(stmts: seq<Statement>): seq<Statement> {
    if stmts == [] then [] else Explode(stmts[0]) + ExplodeAll(stmts[1..])
  }

  lemma {:induction false} ExplodedChunk(d: Dialect, chunk: seq<Patch>)
    requires chunk != [] && AllWellFormed(chunk) && forall i | 0 <= i < |chunk| :: Compat(chunk[0], chunk[i])
    ensures Explode(ChunkStatement(d, chunk)) == PatchStatements(d, chunk)
  {
  }

  lemma {:induction false} ExplodeCons(stmt: Statement, rest: seq<Statement>)
    ensures ExplodeAll([stmt] + rest) == Explode(stmt) + ExplodeAll(rest)
  {
  }

  /** Every inserted row and every row key appears once, in input order, under its own table, columns and values. */
  lemma {:induction false} StatementsConserve(d: Dialect, max: int, ps: seq<Patch>)
    requires AllWellFormed(ps)
    ensures BulkCompile(d, max, ps).Ok? && ExplodeAll(BulkCompile(d, max, ps).stmts) == PatchStatements(d, ps)
  {
    if ps != [] {
      var n := ChunkLength(max, ps);
      var head, tail := ps[..n], ps[n..];
      TakeCompat(max, ps, 1);
      assert head + tail == ps;
      PatchStatementsConcat(d, head, tail);
      ExplodedChunk(d, head);
      StatementsConserve(d, max, tail);
      ExplodeCons(ChunkStatement(d, head), BulkCompile(d, max, tail).stmts);
      hide ExplodeAll, Explode, ChunkStatement, PatchStatements, Take;
      assert BulkCompile(d, max, ps) == Ok([ChunkStatement(d, head)] + BulkCompile(d, max, tail).stmts);
    }
  }

  // ----- malformed patches

  /** How many patches of its chunk stand before patch `i`: runs of compatible patches, cut at the limit. */
  function Position(max: int, ps: seq<Patch>, i: nat): nat
    requires i < |ps|
  {
    if i == 0 || ps[i].kind.OtherKind? || !Compat(ps[i - 1], ps[i]) then 0
    else
      var p := Position(max, ps, i - 1) + 1;
      if CanTakeMore(max, p) then p else 0
  }

  predicate MalformedHead(max: int, ps: seq<Patch>, i: nat)
    requires i < |ps|
  {
    Position(max, ps, i) == 0 && !WellFormed(ps[i])
  }

  lemma {:induction false} TakeStops(max: int, ps: seq<Patch>, n: nat)
    requires 0 < n <= |ps|
    ensures forall i | n <= i < Take(max, ps, n) :: CanTakeMore(max, i) && Compat(ps[0], ps[i])
    ensures var m := Take(max, ps, n); m < |ps| ==> !CanTakeMore(max, m) || !Compat(ps[0], ps[m])
    decreases |ps| - n
  {
    if CanTakeMore(max, n) && n < |ps| && Compat(ps[0], ps[n]) {
      TakeStops(max, ps, n + 1);
    }
  }

  lemma {:induction false} PositionInHead(max: int, ps: seq<Patch>, i: nat)
    requires ps != [] && i < ChunkLength(max, ps)
    ensures Position(max, ps, i) == i
  {
    if i > 0 {
      TakeStops(max, ps, 1);
      PositionInHead(max, ps, i - 1);
    }
  }

  lemma {:induction false} PositionAtCut(max: int, ps: seq<Patch>)
    requires ps != [] && ChunkLength(max, ps) < |ps|
    ensures Position(max, ps, ChunkLength(max, ps)) == 0
  {
    TakeStops(max, ps, 1);
    PositionInHead(max, ps, ChunkLength(max, ps) - 1);
  }

  lemma {:induction false} PositionShift(max: int, ps: seq<Patch>, n: nat, i: nat)
    requires n + i < |ps| && Position(max, ps, n) == 0
    ensures Position(max, ps[n..], i) == Position(max, ps, n + i)
  {
    if i > 0 {
      PositionShift(max, ps, n, i - 1);
    }
  }

  /** The bulk compiler panics exactly when a patch in front of its chunk is malformed. */
  lemma {:induction false} BulkPanicsAtHeads(d: Dialect, max: int, ps: seq<Patch>)
    ensures BulkCompile(d, max, ps).Panic? <==> exists i | 0 <= i < |ps| :: MalformedHead(max, ps, i)
  {
    if ps != [] {
      var n := ChunkLength(max, ps);
      var tail := ps[n..];
      BulkPanicsAtHeads(d, max, tail);
      assert MalformedHead(max, ps, 0) <==> !WellFormed(ps[0]);
      forall i | 0 < i < n
        ensures !MalformedHead(max, ps, i)
      {
        PositionInHead(max, ps, i);
      }
      forall i | 0 <= i < |tail|
        ensures MalformedHead(max, tail, i) <==> MalformedHead(max, ps, n + i)
      {
        PositionAtCut(max, ps);
        PositionShift(max, ps, n, i);
      }
      hide MalformedHead, ChunkLength, ChunkStatement;
      HeadsSplit(max, ps, n);
    }
  }

  lemma {:induction false} HeadsSplit(max: int, ps: seq<Patch>, n: nat)
    requires 0 < n <= |ps|
    requires forall i | 0 < i < n :: !MalformedHead(max, ps, i)
    requires forall i | 0 <= i < |ps[n..]| :: MalformedHead(max, ps[n..], i) <==> MalformedHead(max, ps, n + i)
    ensures (exists i | 0 <= i < |ps| :: MalformedHead(max, ps, i)) <==>
            MalformedHead(max, ps, 0) || exists i | 0 <= i < |ps[n..]| :: MalformedHead(max, ps[n..], i)
  {
    hide MalformedHead;
    if i :| 0 < i < |ps| && MalformedHead(max, ps, i) {
      assert MalformedHead(max, ps[n..], i - n) <==> MalformedHead(max, ps, n + (i - n));
    }
  }

  /**
   What the default compiler rejects and the bulk compiler does not look at: malformed patches, none in front of its
   chunk.
   */
  predicate HiddenMalformed(max: int, ps: seq<Patch>) {
    !AllWellFormed(ps) && forall i | 0 <= i < |ps| && Position(max, ps, i) == 0 :: WellFormed(ps[i])
  }

  /** The compilers agree on whether to panic exactly when no malformed patch hides. */
  lemma {:induction false} PanicsAgree(d: Dialect, max: int, ps: seq<Patch>)
    ensures BulkCompile(d, max, ps).Panic? == DefaultCompile(d, ps).Panic? <==> !HiddenMalformed(max, ps)
  {
    hide Position, BulkCompile;
    BulkPanicsAtHeads(d, max, ps);
    if forall i | 0 <= i < |ps| && Position(max, ps, i) == 0 :: WellFormed(ps[i]) {
      assert forall i | 0 <= i < |ps| :: !MalformedHead(max, ps, i);
    } else {
      var i :| 0 <= i < |ps| && Position(max, ps, i) == 0 && !WellFormed(ps[i]);
      assert MalformedHead(max, ps, i);
    }
  }

  /**
   They do not always agree: a delete patch with a stray value is taken into a bulk statement and panics by default.
   */
  lemma {:induction false} HiddenMalformedExample(d: Dialect)
    ensures var good := Patch(PatchDelete, "t", None, [], []);
            var stray := Patch(PatchDelete, "t", None, [], [Null]);
            BulkCompile(d, 0, [good, stray]).Ok? && DefaultCompile(d, [good, stray]).Panic?
  {
    var ps := [Patch(PatchDelete, "t", None, [], []), Patch(PatchDelete, "t", None, [], [Null])];
    assert !WellFormed(ps[1]);
    assert Take(0, ps, 2) == 2;
    assert ChunkLength(0, ps) == 2;
    assert ps[2..] == [];
    assert BulkCompile(d, 0, ps[2..]) == Ok([]);
  }
}
