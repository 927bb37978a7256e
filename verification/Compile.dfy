/**
 What the two patch compilers produce (compiler.go), as functions of the patch list.

 `Compilers` holds the loops that compute it; the laws are in `BulkMeaning` and `Chunking`.
 */
module Compile {
  import opened Wrappers
  import opened Dialects
  import opened Sql
  import opened RowKeys

  datatype PatchKind = PatchInsert | PatchUpdate | PatchDelete | OtherKind(code: int)

  datatype Patch = Patch(kind: PatchKind, table: string, rowKey: Option<RowKey>, cols: seq<string>, vals: seq<Value>)

  /** A compiler panics or returns its statements. */
  datatype Compiled = Panic | Ok(stmts: seq<Statement>)

  predicate WellFormed(p: Patch) {
    |p.cols| == |p.vals| && !p.kind.OtherKind?
  }

  predicate AllWellFormed(ps: seq<Patch>) {
    forall i | 0 <= i < |ps| :: WellFormed(ps[i])
  }

  ghost predicate CleanKeys(d: Dialect, ps: seq<Patch>) {
    forall i | 0 <= i < |ps| :: CleanPatch(d, ps[i])
  }

  ghost predicate CleanPatch(d: Dialect, p: Patch) {
    p.rowKey.Some? ==> Clean(d, p.rowKey.value.key)
  }

  function Quotes(d: Dialect, names: seq<string>): seq<string> {
    seq(|names|, i requires 0 <= i < |names| => Quote(d, names[i]))
  }

  // ----- one statement for each patch

  function PatchStatement(d: Dialect, p: Patch): Statement
    requires WellFormed(p)
  {
    match p.kind
    case PatchInsert => Insert(Quote(d, p.table), Quotes(d, p.cols), [p.vals])
    case PatchUpdate => Update(Quote(d, p.table), Pairs(Quotes(d, p.cols), p.vals), RowKeyCond(d, p.rowKey))
    case PatchDelete => Delete(Quote(d, p.table), RowKeyCond(d, p.rowKey))
  }

  function PatchStatements(d: Dialect, ps: seq<Patch>): seq<Statement>
    requires AllWellFormed(ps)
  {
    seq(|ps|, i requires 0 <= i < |ps| => PatchStatement(d, ps[i]))
  }

  function DefaultCompile(d: Dialect, ps: seq<Patch>): Compiled {
    if AllWellFormed(ps) then Ok(PatchStatements(d, ps)) else Panic
  }

  // ----- one statement for each chunk

  predicate Compat(p: Patch, q: Patch) {
    p.kind == q.kind && p.table == q.table && p.cols == q.cols && (p.kind.PatchUpdate? ==> p.vals == q.vals)
  }

  /** Whether a chunk of `chunks` patches may grow; a limit that is not positive is none. */
  predicate CanTakeMore(max: int, chunks: nat) {
    max <= 0 || chunks < max
  }

  /** How far a chunk that has its first `n` patches grows. */
  function Take(max: int, ps: seq<Patch>, n: nat): (m: nat)
    requires 0 < n <= |ps|
    ensures n <= m <= |ps|
    decreases |ps| - n
  {
    if CanTakeMore(max, n) && n < |ps| && Compat(ps[0], ps[n]) then Take(max, ps, n + 1) else n
  }

  function ChunkLength(max: int, ps: seq<Patch>): (n: nat)
    requires ps != []
    ensures 0 < n <= |ps|
  {
    if ps[0].kind.OtherKind? then 1 else Take(max, ps, 1)
  }

  function Chunks(max: int, ps: seq<Patch>): seq<seq<Patch>> {
    if ps == [] then []
    else var n := ChunkLength(max, ps); [ps[..n]] + Chunks(max, ps[n..])
  }

  function InsertedRows(ps: seq<Patch>): seq<seq<Value>> {
    seq(|ps|, i requires 0 <= i < |ps| => ps[i].vals)
  }

  function CondsOf(d: Dialect, ps: seq<Patch>): seq<Cond> {
    seq(|ps|, i requires 0 <= i < |ps| => RowKeyCond(d, ps[i].rowKey))
  }

  /** A chunk becomes one statement, shaped by its first patch. */
  function ChunkStatement(d: Dialect, ps: seq<Patch>): Statement
    requires ps != [] && WellFormed(ps[0])
  {
    var p := ps[0];
    match p.kind
    case PatchInsert => Insert(Quote(d, p.table), Quotes(d, p.cols), InsertedRows(ps))
    case PatchUpdate => Update(Quote(d, p.table), Pairs(Quotes(d, p.cols), p.vals), Or(CondsOf(d, ps)))
    case PatchDelete => Delete(Quote(d, p.table), Or(CondsOf(d, ps)))
  }

  /** Only the first patch of a chunk is checked. */
  function BulkCompile(d: Dialect, max: int, ps: seq<Patch>): Compiled {
    if ps == [] then Ok([])
    else if !WellFormed(ps[0]) then Panic
    else
      var n := ChunkLength(max, ps);
      match BulkCompile(d, max, ps[n..])
      case Panic => Panic
      case Ok(stmts) => Ok([ChunkStatement(d, ps[..n])] + stmts)
  }

  // ----- what the compilers may return: the conditions of unclean row keys are not fixed

  ghost predicate IsPatchStatement(d: Dialect, p: Patch, stmt: Statement)
    requires WellFormed(p)
  {
    match p.kind
    case PatchInsert => stmt == Insert(Quote(d, p.table), Quotes(d, p.cols), [p.vals])
    case PatchUpdate =>
      && stmt.Update? && stmt.table == Quote(d, p.table) && stmt.sets == Pairs(Quotes(d, p.cols), p.vals)
      && IsCond(d, p.rowKey, stmt.where)
    case PatchDelete => stmt.Delete? && stmt.table == Quote(d, p.table) && IsCond(d, p.rowKey, stmt.where)
  }

  ghost predicate DefaultCompiles(d: Dialect, ps: seq<Patch>, r: Compiled) {
    if AllWellFormed(ps) then
      r.Ok? && |r.stmts| == |ps| && forall i | 0 <= i < |ps| :: IsPatchStatement(d, ps[i], r.stmts[i])
    else r.Panic?
  }

  ghost predicate AreConds(d: Dialect, ps: seq<Patch>, conds: seq<Cond>) {
    |conds| == |ps| && forall i | 0 <= i < |ps| :: IsCond(d, ps[i].rowKey, conds[i])
  }

  ghost predicate IsOr(d: Dialect, ps: seq<Patch>, cond: Cond) {
    cond.Or? && AreConds(d, ps, cond.parts)
  }

  ghost predicate IsChunkStatement(d: Dialect, ps: seq<Patch>, stmt: Statement)
    requires ps != [] && WellFormed(ps[0])
  {
    var p := ps[0];
    match p.kind
    case PatchInsert => stmt == Insert(Quote(d, p.table), Quotes(d, p.cols), InsertedRows(ps))
    case PatchUpdate =>
      && stmt.Update? && stmt.table == Quote(d, p.table) && stmt.sets == Pairs(Quotes(d, p.cols), p.vals)
      && IsOr(d, ps, stmt.where)
    case PatchDelete => stmt.Delete? && stmt.table == Quote(d, p.table) && IsOr(d, ps, stmt.where)
  }

  predicate HeadsWellFormed(chunks: seq<seq<Patch>>) {
    forall i | 0 <= i < |chunks| :: chunks[i] != [] && WellFormed(chunks[i][0])
  }

  ghost predicate AreChunkStatements(d: Dialect, chunks: seq<seq<Patch>>, stmts: seq<Statement>)
    requires HeadsWellFormed(chunks)
  {
    |stmts| == |chunks| && forall i | 0 <= i < |chunks| :: IsChunkStatement(d, chunks[i], stmts[i])
  }

  ghost predicate BulkCompiles(d: Dialect, max: int, ps: seq<Patch>, r: Compiled) {
    if HeadsWellFormed(Chunks(max, ps)) then r.Ok? && AreChunkStatements(d, Chunks(max, ps), r.stmts) else r.Panic?
  }
}
