/**
 The compilers' loops (compiler.go): a cursor over the linked patch list, and for bulk a second loop that pulls it
 ahead.
 */
module Compilers {
  import opened Wrappers
  import opened Dialects
  import opened Sql
  import opened RowKeys
  import opened Compile
  import opened PatchLists

  method QuoteAll(d: Dialect, names: seq<string>) returns (out: seq<string>)
    ensures out == Quotes(d, names)
  {
    out := [];
    for i := 0 to |names|
      invariant out == Quotes(d, names[..i])
    {
      out := out + [Quote(d, names[i])];
      assert names[..i + 1][..i] == names[..i];
    }
    assert names[..|names|] == names;
  }

  /** The SET clause, one assignment at a time. */
  method SetClause(d: Dialect, p: Patch) returns (sets: seq<Assignment>)
    requires |p.cols| == |p.vals|
    ensures sets == Pairs(Quotes(d, p.cols), p.vals)
  {
    sets := [];
    for i := 0 to |p.cols|
      invariant |sets| == i && forall j | 0 <= j < i :: sets[j] == Assign(Quote(d, p.cols[j]), p.vals[j])
    {
      sets := sets + [Assign(Quote(d, p.cols[i]), p.vals[i])];
    }
  }

  /** The cursor after the first `n` elements. */
  ghost predicate Cursor(curr: Element?, elems: seq<Element>, n: nat) {
    n <= |elems| && curr == if n < |elems| then elems[n] else null
  }

  /** The switch on the kind of one patch. */
  method CompileOne(d: Dialect, patch: Patch) returns (stmt: Statement)
    requires WellFormed(patch)
    ensures IsPatchStatement(d, patch, stmt)
  {
    match patch.kind {
      case PatchInsert =>
        var cols := QuoteAll(d, patch.cols);
        stmt := Insert(Quote(d, patch.table), cols, [patch.vals]);
      case PatchUpdate =>
        var sets := SetClause(d, patch);
        var where := RowKeyToSqlizer(d, patch.rowKey);
        stmt := Update(Quote(d, patch.table), sets, where);
      case PatchDelete =>
        var where := RowKeyToSqlizer(d, patch.rowKey);
        stmt := Delete(Quote(d, patch.table), where);
    }
  }

  method CompileDefault(d: Dialect, patches: PatchList, ghost owner: PatchList, ghost elems: seq<Element>,
                        ghost ps: seq<Patch>)
      returns (r: Compiled)
    requires Walks(patches, owner, elems, ps)
    ensures DefaultCompiles(d, ps, r)
  {
    hide IsPatchStatement;
    var stmts := [];
    var curr := patches.Front();
    ghost var n := 0;
    while curr != null
      invariant Cursor(curr, elems, n) && AllWellFormed(ps[..n])
      invariant |stmts| == n && forall i | 0 <= i < n :: IsPatchStatement(d, ps[i], stmts[i])
      decreases |elems| - n
    {
      var patch := curr.value.value;
      if |patch.cols| != |patch.vals| || patch.kind.OtherKind? {
        assert !WellFormed(ps[n]);
        return Panic;
      }
      var stmt := CompileOne(d, patch);
      stmts := stmts + [stmt];
      assert ps[..n + 1] == ps[..n] + [ps[n]];
      curr := curr.Next();
      n := n + 1;
    }
    assert ps[..n] == ps;
    return Ok(stmts);
  }

  method IsCompat(p: Patch, q: Patch) returns (r: bool)
    ensures r == Compat(p, q)
  {
    if p.kind != q.kind || p.table != q.table || |p.cols| != |q.cols| {
      return false;
    }
    for i := 0 to |p.cols|
      invariant p.cols[..i] == q.cols[..i]
    {
      if p.cols[i] != q.cols[i] {
        return false;
      }
      assert p.cols[..i + 1] == p.cols[..i] + [p.cols[i]] && q.cols[..i + 1] == q.cols[..i] + [q.cols[i]];
    }
    assert p.cols[..|p.cols|] == p.cols && q.cols[..|q.cols|] == q.cols;
    return !p.kind.PatchUpdate? || p.vals == q.vals;
  }

  /** The loop that takes compatible inserts into a statement; `curr` ends on the last patch of the chunk. */
  method MoreRows(max: int, head: Patch, first: Element,
                  ghost owner: PatchList, ghost elems: seq<Element>, ghost ps: seq<Patch>, ghost n: nat)
      returns (rows: seq<seq<Value>>, curr: Element)
    requires Owned(owner, elems, ps) && n < |ps| && first == elems[n] && head == ps[n]
    ensures var m := Take(max, ps[n..], 1); rows == InsertedRows(ps[n..n + m]) && curr == elems[n + m - 1]
  {
    rows, curr := [head.vals], first;
    var chunks := 1;
    ghost var tail := ps[n..];
    while true
      invariant 1 <= chunks <= |tail| && curr == elems[n + chunks - 1]
      invariant Take(max, tail, chunks) == Take(max, tail, 1)
      invariant rows == InsertedRows(ps[n..n + chunks])
      decreases |tail| - chunks
    {
      var next := curr.Next();
      if !CanTakeMore(max, chunks) || next == null {
        break;
      }
      assert next == elems[n + chunks] && next.value.value == tail[chunks];
      var compat := IsCompat(head, next.value.value);
      if !compat {
        break;
      }
      curr := next;
      rows := rows + [curr.value.value.vals];
      chunks := chunks + 1;
    }
  }

  /** The same loop for updates and deletes, which grows the condition. */
  method MoreConds(d: Dialect, max: int, head: Patch, first: Element,
                   ghost owner: PatchList, ghost elems: seq<Element>, ghost ps: seq<Patch>, ghost n: nat)
      returns (conds: seq<Cond>, curr: Element)
    requires Owned(owner, elems, ps) && n < |ps| && first == elems[n] && head == ps[n]
    ensures var m := Take(max, ps[n..], 1); curr == elems[n + m - 1] && AreConds(d, ps[n..n + m], conds)
  {
    hide IsCond;
    var cond := RowKeyToSqlizer(d, head.rowKey);
    conds, curr := [cond], first;
    var chunks := 1;
    ghost var tail := ps[n..];
    while true
      invariant 1 <= chunks <= |tail| && curr == elems[n + chunks - 1]
      invariant Take(max, tail, chunks) == Take(max, tail, 1)
      invariant AreConds(d, ps[n..n + chunks], conds)
      decreases |tail| - chunks
    {
      var next := curr.Next();
      if !CanTakeMore(max, chunks) || next == null {
        break;
      }
      assert next == elems[n + chunks] && next.value.value == tail[chunks];
      var compat := IsCompat(head, next.value.value);
      if !compat {
        break;
      }
      curr := next;
      cond := RowKeyToSqlizer(d, curr.value.value.rowKey);
      conds := conds + [cond];
      chunks := chunks + 1;
    }
  }

  /** What a walk over `elems` relies on. */
  ghost predicate Owned(owner: PatchList, elems: seq<Element>, ps: seq<Patch>)
    reads elems
  {
    && owner.root !in elems
    && Holds(owner, elems, ps)
    && (forall i | 0 <= i < |elems| - 1 :: elems[i].next == elems[i + 1])
    && (elems != [] ==> elems[|elems| - 1].next == owner.root)
  }

  /** One turn of the outer loop: the statement of the chunk at `curr`, and the chunk's last element. None: panic. */
  method CompileChunk(d: Dialect, max: int, curr: Element,
                      ghost owner: PatchList, ghost elems: seq<Element>, ghost ps: seq<Patch>, ghost n: nat)
      returns (stmt: Option<Statement>, last: Element)
    requires Owned(owner, elems, ps) && n < |ps| && curr == elems[n]
    ensures stmt.Some? <==> WellFormed(ps[n])
    ensures stmt.Some? ==>
              var m := ChunkLength(max, ps[n..]);
              && last == elems[n + m - 1]
              && IsChunkStatement(d, ps[n..n + m], stmt.value)
  {
    var patch := curr.value.value;
    last := curr;
    if |patch.cols| != |patch.vals| {
      return None, last;
    }
    match patch.kind {
      case PatchInsert =>
        var cols := QuoteAll(d, patch.cols);
        var rows;
        rows, last := MoreRows(max, patch, curr, owner, elems, ps, n);
        stmt := Some(Insert(Quote(d, patch.table), cols, rows));
      case PatchDelete =>
        var conds;
        conds, last := MoreConds(d, max, patch, curr, owner, elems, ps, n);
        stmt := Some(Delete(Quote(d, patch.table), Or(conds)));
      case PatchUpdate =>
        var sets := SetClause(d, patch);
        var conds;
        conds, last := MoreConds(d, max, patch, curr, owner, elems, ps, n);
        stmt := Some(Update(Quote(d, patch.table), sets, Or(conds)));
      case OtherKind(_) =>
        // patch by patch, to keep the order: the default compiler decides
        var single := new PatchList();
        single.PushBack(patch);
        SingleWalks(single);
        var fallback := CompileDefault(d, single, single, single.elems, single.values);
        assert !WellFormed(single.values[0]) && fallback.Panic?;
        stmt := None;
    }
  }

  lemma {:induction false} SingleWalks(l: PatchList)
    requires l.Valid()
    ensures Walks(l, l, l.elems, l.values)
  {
  }

  /** The chunks before patch `n`, for which `stmts` are emitted, and those that are left. */
  ghost predicate Cut(d: Dialect, max: int, ps: seq<Patch>, done: seq<seq<Patch>>, stmts: seq<Statement>, n: nat) {
    && n <= |ps| && Chunks(max, ps) == done + Chunks(max, ps[n..])
    && HeadsWellFormed(done) && AreChunkStatements(d, done, stmts)
  }

  lemma {:induction false} CutStart(d: Dialect, max: int, ps: seq<Patch>)
    ensures Cut(d, max, ps, [], [], 0)
  {
    assert ps[0..] == ps;
  }

  lemma {:induction false} CutStep(d: Dialect, max: int, ps: seq<Patch>, done: seq<seq<Patch>>, stmts: seq<Statement>,
                                   n: nat, stmt: Statement)
    requires Cut(d, max, ps, done, stmts, n) && n < |ps| && WellFormed(ps[n])
    requires IsChunkStatement(d, ps[n..n + ChunkLength(max, ps[n..])], stmt)
    ensures var m := ChunkLength(max, ps[n..]); Cut(d, max, ps, done + [ps[n..n + m]], stmts + [stmt], n + m)
  {
    hide IsChunkStatement, ChunkLength, WellFormed;
    var m := ChunkLength(max, ps[n..]);
    var chunk := ps[n..n + m];
    assert ps[n..][..m] == chunk && ps[n..][m..] == ps[n + m..];
    assert Chunks(max, ps[n..]) == [chunk] + Chunks(max, ps[n + m..]);
    assert done + ([chunk] + Chunks(max, ps[n + m..])) == done + [chunk] + Chunks(max, ps[n + m..]);
    assert chunk[0] == ps[n];
  }

  /** At the end of the list all chunks are emitted; at a malformed patch, the head of a chunk is malformed. */
  lemma {:induction false} CutEnd(d: Dialect, max: int, ps: seq<Patch>, done: seq<seq<Patch>>, stmts: seq<Statement>,
                                  n: nat)
    requires Cut(d, max, ps, done, stmts, n) && (n < |ps| ==> !WellFormed(ps[n]))
    ensures BulkCompiles(d, max, ps, if n < |ps| then Panic else Ok(stmts))
  {
    hide IsChunkStatement, ChunkLength, WellFormed;
    if n == |ps| {
      assert ps[n..] == [];
      assert done + [] == done;
    } else {
      var chunks := Chunks(max, ps);
      assert Chunks(max, ps[n..])[0] == ps[n..][..ChunkLength(max, ps[n..])];
      assert chunks[|done|] == Chunks(max, ps[n..])[0] && chunks[|done|][0] == ps[n];
    }
  }

  method CompileBulk(d: Dialect, max: int, patches: PatchList,
                     ghost owner: PatchList, ghost elems: seq<Element>, ghost ps: seq<Patch>)
      returns (r: Compiled)
    requires Walks(patches, owner, elems, ps)
    ensures BulkCompiles(d, max, ps, r)
  {
    hide BulkCompiles, Cut, IsChunkStatement;
    var stmts := [];
    var curr := patches.Front();
    ghost var n, done := 0, [];
    CutStart(d, max, ps);
    while curr != null
      invariant n <= |ps| && Cursor(curr, elems, n) && Cut(d, max, ps, done, stmts, n)
      decreases |elems| - n
    {
      var stmt, last := CompileChunk(d, max, curr, owner, elems, ps, n);
      if stmt.None? {
        CutEnd(d, max, ps, done, stmts, n);
        return Panic;
      }
      CutStep(d, max, ps, done, stmts, n, stmt.value);
      stmts := stmts + [stmt.value];
      done := done + [ps[n..n + ChunkLength(max, ps[n..])]];
      n := n + ChunkLength(max, ps[n..]);
      curr := last.Next();
    }
    CutEnd(d, max, ps, done, stmts, n);
    return Ok(stmts);
  }
}
