/**
 The line diff behind the merge view: an LCS table in one flat array, a walk back
 through it, and the grouping of the walk into chunks.

 The reference is the set of all edit scripts: a sequence of kept, added and deleted
 lines that reads as `a` without its additions and as `b` without its deletions.
 */
module DiffEngine {
  import opened Text

  datatype Kind = Eq | Add | Del
  datatype RawOp = RawOp(kind: Kind, line: string)
  datatype DiffChunk = DiffChunk(kind: Kind, lines: seq<string>)

  // ---------------------------------------------------------------- edit scripts

  /** The lines of `ops` whose kind is not `drop`, in order. */
  function Keep(ops: seq<RawOp>, drop: Kind): seq<string> {
    if ops == [] then []
    else Keep(ops[..|ops| - 1], drop) +
         (if ops[|ops| - 1].kind == drop then [] else [ops[|ops| - 1].line])
  }

  function Count(ops: seq<RawOp>, kind: Kind): nat {
    if ops == [] then 0
    else Count(ops[..|ops| - 1], kind) + (if ops[|ops| - 1].kind == kind then 1 else 0)
  }

  ghost predicate IsScript(ops: seq<RawOp>, a: seq<string>, b: seq<string>) {
    Keep(ops, Add) == a && Keep(ops, Del) == b
  }

  /** The cost the user sees: highlighted lines. */
  function Changes(ops: seq<RawOp>): nat {
    Count(ops, Add) + Count(ops, Del)
  }

  lemma {:induction false} ScriptSizes(ops: seq<RawOp>, a: seq<string>, b: seq<string>)
    requires IsScript(ops, a, b)
    ensures |a| == Count(ops, Eq) + Count(ops, Del)
    ensures |b| == Count(ops, Eq) + Count(ops, Add)
  {
    if ops != [] {
      var rest := ops[..|ops| - 1];
      ScriptSizes(rest, Keep(rest, Add), Keep(rest, Del));
    }
  }

  lemma {:induction false} KeepConcat(x: seq<RawOp>, y: seq<RawOp>, drop: Kind)
    ensures Keep(x + y, drop) == Keep(x, drop) + Keep(y, drop)
    ensures forall k :: Count(x + y, k) == Count(x, k) + Count(y, k)
  {
    if y == [] {
      assert x + y == x;
    } else {
      var y' := y[..|y| - 1];
      KeepConcat(x, y', drop);
      assert (x + y)[..|x + y| - 1] == x + y';
    }
  }

  // ------------------------------------------------------------------------- LCS

  /** Length of a longest common subsequence. */
  function Lcs(a: seq<string>, b: seq<string>): nat
    decreases |a| + |b|
  {
    if a == [] || b == [] then 0
    else
      var a', b' := a[..|a| - 1], b[..|b| - 1];
      if a[|a| - 1] == b[|b| - 1] then Lcs(a', b') + 1
      else if Lcs(a', b) >= Lcs(a, b') then Lcs(a', b) else Lcs(a, b')
  }

  /** Dropping the last line of one side loses at most one match. */
  lemma {:induction false} LcsLipschitz(a: seq<string>, b: seq<string>)
    ensures a != [] ==> Lcs(a[..|a| - 1], b) <= Lcs(a, b) <= Lcs(a[..|a| - 1], b) + 1
    ensures b != [] ==> Lcs(a, b[..|b| - 1]) <= Lcs(a, b) <= Lcs(a, b[..|b| - 1]) + 1
    decreases |a| + |b|
  {
    if a != [] && b != [] {
      var a', b' := a[..|a| - 1], b[..|b| - 1];
      LcsLipschitz(a', b);
      LcsLipschitz(a, b');
      LcsLipschitz(a', b');
    }
  }

  /** No edit script keeps more lines than the LCS has. */
  lemma {:induction false} ScriptKeepsAtMostLcs(ops: seq<RawOp>, a: seq<string>, b: seq<string>)
    requires IsScript(ops, a, b)
    ensures Count(ops, Eq) <= Lcs(a, b)
  {
    if ops != [] {
      var rest, last := ops[..|ops| - 1], ops[|ops| - 1];
      var a', b' := Keep(rest, Add), Keep(rest, Del);
      ScriptKeepsAtMostLcs(rest, a', b');
      LcsLipschitz(a, b);
      match last.kind
      case Eq => assert a[..|a| - 1] == a' && b[..|b| - 1] == b';
      case Add => assert a == a' && b[..|b| - 1] == b';
      case Del => assert b == b' && a[..|a| - 1] == a';
    }
  }

  /** A script that keeps LCS-many lines highlights no more than any other script does. */
  lemma {:induction false} LcsScriptIsOptimal(ops: seq<RawOp>, other: seq<RawOp>, a: seq<string>, b: seq<string>)
    requires IsScript(ops, a, b) && Count(ops, Eq) == Lcs(a, b)
    requires IsScript(other, a, b)
    ensures Changes(ops) <= Changes(other)
  {
    ScriptSizes(ops, a, b);
    ScriptSizes(other, a, b);
    ScriptKeepsAtMostLcs(other, a, b);
  }

  /** Within a block of changes, deletions come before additions. */
  ghost predicate DeletionsFirst(ops: seq<RawOp>) {
    forall k | 0 < k < |ops| :: !(ops[k - 1].kind == Add && ops[k].kind == Del)
  }

  // ---------------------------------------------------------------- flat LCS table

  /** Where row `i` starts: `i * stride`, counted up so that the proofs stay linear. */
  function Row(i: nat, stride: nat): nat {
    if i == 0 then 0 else Row(i - 1, stride) + stride
  }

  lemma {:induction false} RowIs(i: nat, stride: nat)
    ensures Row(i, stride) == i * stride
  {
    if i > 0 {
      RowIs(i - 1, stride);
      assert (i - 1) * stride + stride == i * stride;
    }
  }

  lemma {:induction false} RowsApart(i: nat, n: nat, stride: nat)
    requires i < n
    ensures Row(i, stride) + stride <= Row(n, stride)
    decreases n
  {
    if i < n - 1 { RowsApart(i, n - 1, stride); }
  }

  /** Cells of different rows or columns do not collide. */
  lemma {:induction false} CellsDiffer(i: nat, j: nat, i': nat, j': nat, stride: nat)
    requires j < stride && j' < stride && (i != i' || j != j')
    ensures Row(i, stride) + j != Row(i', stride) + j'
  {
    if i < i' { RowsApart(i, i', stride); } else if i' < i { RowsApart(i', i, stride); }
  }

  ghost predicate IsTable(cells: seq<int>, a: seq<string>, b: seq<string>) {
    |cells| == Row(|a| + 1, |b| + 1)
  }

  ghost predicate Cell(cells: seq<int>, a: seq<string>, b: seq<string>, i: nat, j: nat)
    requires i <= |a| && j <= |b| && IsTable(cells, a, b)
  {
    RowsApart(i, |a| + 1, |b| + 1);
    cells[Row(i, |b| + 1) + j] == Lcs(a[..i], b[..j])
  }

  /** Column 0, the rows above `i`, and row `i` up to column `j` hold their LCS lengths. */
  ghost predicate FilledTo(cells: seq<int>, a: seq<string>, b: seq<string>, i: nat, j: nat) {
    && IsTable(cells, a, b)
    && forall x: nat, y: nat | x <= |a| && y <= |b| && (x < i || y == 0 || (x == i && y < j)) ::
         Cell(cells, a, b, x, y)
  }

  lemma ReadCells(cells: seq<int>, a: seq<string>, b: seq<string>, i: nat, j: nat, upTo: nat)
    requires 0 < i <= |a| && 0 < j <= |b|
    requires i <= upTo && FilledTo(cells, a, b, upTo, if i < upTo then 1 else j)
    ensures var corner, left, top :=
              (i - 1) * (|b| + 1) + (j - 1), i * (|b| + 1) + (j - 1), (i - 1) * (|b| + 1) + j;
            && 0 <= corner < |cells| && cells[corner] == Lcs(a[..i - 1], b[..j - 1])
            && 0 <= left < |cells| && cells[left] == Lcs(a[..i], b[..j - 1])
            && 0 <= top < |cells| && cells[top] == Lcs(a[..i - 1], b[..j])
            && 0 <= i * (|b| + 1) + j < |cells|
  {
    RowIs(i, |b| + 1);
    RowIs(i - 1, |b| + 1);
    RowsApart(i, |a| + 1, |b| + 1);
    assert Cell(cells, a, b, i, j - 1) && Cell(cells, a, b, i - 1, j) && Cell(cells, a, b, i - 1, j - 1);
  }

  /** Writing cell (i, j) leaves every other correct cell correct. */
  lemma {:induction false} WriteCell(was: seq<int>, now: seq<int>, a: seq<string>, b: seq<string>, i: nat, j: nat)
    requires i <= |a| && j <= |b| && FilledTo(was, a, b, i, j)
    requires |now| == |was| && Cell(now, a, b, i, j)
    requires forall k | 0 <= k < |was| && k != Row(i, |b| + 1) + j :: now[k] == was[k]
    ensures FilledTo(now, a, b, i, j + 1)
  {
    forall x: nat, y: nat | x <= |a| && y <= |b| && (x < i || y == 0 || (x == i && y < j + 1))
      ensures Cell(now, a, b, x, y)
    {
      if x != i || y != j {
        assert Cell(was, a, b, x, y);
        RowsApart(x, |a| + 1, |b| + 1);
        CellsDiffer(x, y, i, j, |b| + 1);
      }
    }
  }

  lemma CellValue(cells: seq<int>, a: seq<string>, b: seq<string>, i: nat, j: nat)
    requires 0 < i <= |a| && 0 < j <= |b| && IsTable(cells, a, b)
    requires Row(i, |b| + 1) + j < |cells|
    requires cells[Row(i, |b| + 1) + j] ==
             if a[i - 1] == b[j - 1] then Lcs(a[..i - 1], b[..j - 1]) + 1
             else if Lcs(a[..i - 1], b[..j]) >= Lcs(a[..i], b[..j - 1])
             then Lcs(a[..i - 1], b[..j]) else Lcs(a[..i], b[..j - 1])
    ensures Cell(cells, a, b, i, j)
  {
    assert a[..i][..i - 1] == a[..i - 1] && b[..j][..j - 1] == b[..j - 1];
  }

  lemma EmptyColumn(cells: seq<int>, a: seq<string>, b: seq<string>)
    requires IsTable(cells, a, b) && forall k | 0 <= k < |cells| :: cells[k] == 0
    ensures FilledTo(cells, a, b, 1, 1)
  {
    forall x: nat, y: nat | x <= |a| && y <= |b| && (x < 1 || y == 0) ensures Cell(cells, a, b, x, y) {
      RowsApart(x, |a| + 1, |b| + 1);
    }
  }

  method FillTable(a: seq<string>, b: seq<string>) returns (dp: array<int>)
    ensures fresh(dp) && FilledTo(dp[..], a, b, |a| + 1, 1)
  {
    var stride := |b| + 1;
    RowIs(|a| + 1, stride);
    dp := new int[(|a| + 1) * stride](_ => 0);
    EmptyColumn(dp[..], a, b);
    var i := 1;
    while i <= |a|
      invariant 1 <= i <= |a| + 1
      invariant FilledTo(dp[..], a, b, i, 1)
    {
      var row := i * stride;
      var prev := (i - 1) * stride;
      RowIs(i, stride);
      var j := 1;
      while j <= |b|
        invariant 1 <= j <= |b| + 1
        invariant FilledTo(dp[..], a, b, i, j)
      {
        ghost var was := dp[..];
        ReadCells(was, a, b, i, j, i);
        if a[i - 1] == b[j - 1] {
          dp[row + j] := dp[prev + (j - 1)] + 1;
        } else {
          var fromTop := dp[prev + j];
          var fromLeft := dp[row + (j - 1)];
          dp[row + j] := if fromTop >= fromLeft then fromTop else fromLeft;
        }
        CellValue(dp[..], a, b, i, j);
        WriteCell(was, dp[..], a, b, i, j);
        j := j + 1;
      }
      i := i + 1;
    }
  }

  /** `x` reversed, as the walk's final `reverse` does. */
  function Reversed(x: seq<RawOp>): seq<RawOp> {
    seq(|x|, k requires 0 <= k < |x| => x[|x| - 1 - k])
  }

  lemma ReversedPush(x: seq<RawOp>, op: RawOp)
    ensures Reversed(x + [op]) == [op] + Reversed(x)
  {
  }

  /**
   The walk: at each corner (i, j) what has been emitted, read backwards, turns the rest of
   `a` into the rest of `b` and keeps exactly the lines the table says are still to be matched.
   */
  method LcsBacktrack(a: seq<string>, b: seq<string>) returns (ops: seq<RawOp>)
    ensures IsScript(ops, a, b)
    ensures Count(ops, Eq) == Lcs(a, b)
    ensures forall other | IsScript(other, a, b) :: Changes(ops) <= Changes(other)
    ensures DeletionsFirst(ops)
  {
    if |a| == 0 && |b| == 0 { return []; }
    if |a| == 0 {
      ops := seq(|b|, k requires 0 <= k < |b| => RawOp(Add, b[k]));
      AllOneKind(ops, Add);
      assert Keep(ops, Del) == b;
    } else if |b| == 0 {
      ops := seq(|a|, k requires 0 <= k < |a| => RawOp(Del, a[k]));
      AllOneKind(ops, Del);
      assert Keep(ops, Add) == a;
    } else {
      ops := WalkBack(a, b);
    }
    forall other | IsScript(other, a, b) ensures Changes(ops) <= Changes(other) {
      LcsScriptIsOptimal(ops, other, a, b);
    }
  }

  lemma {:induction false} AllOneKind(ops: seq<RawOp>, kind: Kind)
    requires forall k | 0 <= k < |ops| :: ops[k].kind == kind
    ensures forall other | other != kind ::
              Keep(ops, other) == seq(|ops|, k requires 0 <= k < |ops| => ops[k].line) && Count(ops, other) == 0
    ensures Keep(ops, kind) == []
  {
    if ops != [] {
      var front, last := ops[..|ops| - 1], ops[|ops| - 1];
      AllOneKind(front, kind);
      forall other | other != kind
        ensures Keep(ops, other) == seq(|ops|, k requires 0 <= k < |ops| => ops[k].line) && Count(ops, other) == 0
      {
        assert Keep(ops, other) == Keep(front, other) + [last.line];
      }
    }
  }

  /**
   Where the walk stands at corner (i, j): what it has pushed, read backwards, is a script
   between the tails that keeps as many lines as the table has used up.
   */
  ghost predicate AtCorner(a: seq<string>, b: seq<string>, i: nat, j: nat, tail: seq<RawOp>)
    requires i <= |a| && j <= |b|
  {
    && IsScript(tail, a[i..], b[j..])
    && Count(tail, Eq) + Lcs(a[..i], b[..j]) == Lcs(a, b)
  }

  /** A last deletion was only taken because no addition was as good. */
  ghost predicate Ordered(a: seq<string>, b: seq<string>, i: nat, j: nat, tail: seq<RawOp>)
    requires i <= |a| && j <= |b|
  {
    && DeletionsFirst(tail)
    && (tail != [] && tail[0].kind == Del && j > 0 ==>
          i < |a| && Lcs(a[..i + 1], b[..j - 1]) < Lcs(a[..i], b[..j]))
  }

  method WalkBack(a: seq<string>, b: seq<string>) returns (ops: seq<RawOp>)
    requires a != [] && b != []
    ensures IsScript(ops, a, b) && Count(ops, Eq) == Lcs(a, b) && DeletionsFirst(ops)
  {
    var dp := FillTable(a, b);
    var stride := |b| + 1;
    ops := [];
    var i, j := |a|, |b|;
    WalkStart(a, b);
    while i > 0 || j > 0
      invariant 0 <= i <= |a| && 0 <= j <= |b| && FilledTo(dp[..], a, b, |a| + 1, 1)
      invariant Walked(a, b, i, j, ops)
      decreases i + j
    {
      if i > 0 && j > 0 {
        ReadCells(dp[..], a, b, i, j, |a| + 1);
      }
      if i > 0 && j > 0 && a[i - 1] == b[j - 1] {
        StepEq(a, b, i, j, Reversed(ops));
        ReversedPush(ops, RawOp(Eq, a[i - 1]));
        ops := ops + [RawOp(Eq, a[i - 1])];
        i, j := i - 1, j - 1;
      } else if j > 0 && (i == 0 || dp[i * stride + (j - 1)] >= dp[(i - 1) * stride + j]) {
        StepAdd(a, b, i, j, Reversed(ops));
        ReversedPush(ops, RawOp(Add, b[j - 1]));
        ops := ops + [RawOp(Add, b[j - 1])];
        j := j - 1;
      } else {
        StepDel(a, b, i, j, Reversed(ops));
        ReversedPush(ops, RawOp(Del, a[i - 1]));
        ops := ops + [RawOp(Del, a[i - 1])];
        i := i - 1;
      }
    }
    WalkEnd(a, b, ops);
    ops := Reversed(ops);
  }

  /** The pushed operations, last one first, are a good tail at corner (i, j). */
  ghost predicate Walked(a: seq<string>, b: seq<string>, i: nat, j: nat, pushed: seq<RawOp>)
    requires i <= |a| && j <= |b|
  {
    AtCorner(a, b, i, j, Reversed(pushed)) && Ordered(a, b, i, j, Reversed(pushed))
  }

  lemma WalkStart(a: seq<string>, b: seq<string>)
    ensures Walked(a, b, |a|, |b|, [])
  {
    assert a[..|a|] == a && b[..|b|] == b;
  }

  lemma {:induction false} WalkEnd(a: seq<string>, b: seq<string>, pushed: seq<RawOp>)
    requires Walked(a, b, 0, 0, pushed)
    ensures var ops := Reversed(pushed); IsScript(ops, a, b) && Count(ops, Eq) == Lcs(a, b) && DeletionsFirst(ops)
  {
    assert a[0..] == a && b[0..] == b;
  }

  lemma StepEq(a: seq<string>, b: seq<string>, i: nat, j: nat, tail: seq<RawOp>)
    requires 0 < i <= |a| && 0 < j <= |b| && a[i - 1] == b[j - 1]
    requires AtCorner(a, b, i, j, tail) && Ordered(a, b, i, j, tail)
    ensures AtCorner(a, b, i - 1, j - 1, [RawOp(Eq, a[i - 1])] + tail)
    ensures Ordered(a, b, i - 1, j - 1, [RawOp(Eq, a[i - 1])] + tail)
  {
    Prepended(RawOp(Eq, a[i - 1]), tail);
    assert a[..i][..i - 1] == a[..i - 1] && b[..j][..j - 1] == b[..j - 1];
    assert a[i - 1..] == [a[i - 1]] + a[i..] && b[j - 1..] == [b[j - 1]] + b[j..];
  }

  lemma StepAdd(a: seq<string>, b: seq<string>, i: nat, j: nat, tail: seq<RawOp>)
    requires i <= |a| && 0 < j <= |b|
    requires i == 0 || (a[i - 1] != b[j - 1] && Lcs(a[..i], b[..j - 1]) >= Lcs(a[..i - 1], b[..j]))
    requires AtCorner(a, b, i, j, tail) && Ordered(a, b, i, j, tail)
    ensures AtCorner(a, b, i, j - 1, [RawOp(Add, b[j - 1])] + tail)
    ensures Ordered(a, b, i, j - 1, [RawOp(Add, b[j - 1])] + tail)
  {
    Prepended(RawOp(Add, b[j - 1]), tail);
    NoAddAfterDel(a, b, i, j, tail);
    LcsStep(a, b, i, j);
    assert b[j - 1..] == [b[j - 1]] + b[j..];
  }

  lemma StepDel(a: seq<string>, b: seq<string>, i: nat, j: nat, tail: seq<RawOp>)
    requires 0 < i <= |a| && j <= |b|
    requires j == 0 || (a[i - 1] != b[j - 1] && Lcs(a[..i], b[..j - 1]) < Lcs(a[..i - 1], b[..j]))
    requires AtCorner(a, b, i, j, tail) && Ordered(a, b, i, j, tail)
    ensures AtCorner(a, b, i - 1, j, [RawOp(Del, a[i - 1])] + tail)
    ensures Ordered(a, b, i - 1, j, [RawOp(Del, a[i - 1])] + tail)
  {
    Prepended(RawOp(Del, a[i - 1]), tail);
    LcsStep(a, b, i, j);
    assert a[i - 1..] == [a[i - 1]] + a[i..];
  }

  /** One unfolding of `Lcs` on prefixes, where the last lines do not match. */
  lemma LcsStep(a: seq<string>, b: seq<string>, i: nat, j: nat)
    requires i <= |a| && j <= |b|
    requires i == 0 || j == 0 || a[i - 1] != b[j - 1]
    ensures i == 0 || j == 0 ==> Lcs(a[..i], b[..j]) == 0
    ensures i > 0 && j > 0 ==>
              var fromTop, fromLeft := Lcs(a[..i - 1], b[..j]), Lcs(a[..i], b[..j - 1]);
              Lcs(a[..i], b[..j]) == if fromTop >= fromLeft then fromTop else fromLeft
  {
    if i > 0 && j > 0 {
      assert a[..i][..i - 1] == a[..i - 1] && b[..j][..j - 1] == b[..j - 1];
    }
  }

  /** Had the addition been as good, the walk would have taken it before the deletion. */
  lemma NoAddAfterDel(a: seq<string>, b: seq<string>, i: nat, j: nat, tail: seq<RawOp>)
    requires i <= |a| && 0 < j <= |b| && Ordered(a, b, i, j, tail)
    requires i == 0 || (a[i - 1] != b[j - 1] && Lcs(a[..i], b[..j - 1]) >= Lcs(a[..i - 1], b[..j]))
    ensures tail != [] ==> tail[0].kind != Del
  {
    LcsStep(a, b, i, j);
    if i < |a| {
      LcsLipschitz(a[..i + 1], b[..j - 1]);
      assert a[..i + 1][..i] == a[..i];
    }
  }

  lemma {:induction false} Prepended(op: RawOp, tail: seq<RawOp>)
    ensures Keep([op] + tail, Add) == (if op.kind == Add then [] else [op.line]) + Keep(tail, Add)
    ensures Keep([op] + tail, Del) == (if op.kind == Del then [] else [op.line]) + Keep(tail, Del)
    ensures Count([op] + tail, Eq) == (if op.kind == Eq then 1 else 0) + Count(tail, Eq)
  {
    KeepConcat([op], tail, Add);
    KeepConcat([op], tail, Del);
    assert [op][..0] == [];
    assert Count([op], Eq) == if op.kind == Eq then 1 else 0;
  }

  // ------------------------------------------------------------------------ chunks

  function Lift(kind: Kind, lines: seq<string>): seq<RawOp> {
    seq(|lines|, k requires 0 <= k < |lines| => RawOp(kind, lines[k]))
  }

  function Flatten(chunks: seq<DiffChunk>): seq<RawOp> {
    if chunks == [] then []
    else Flatten(chunks[..|chunks| - 1]) + Lift(chunks[|chunks| - 1].kind, chunks[|chunks| - 1].lines)
  }

  /** Chunks are maximal runs: none is empty and neighbours differ in kind. */
  ghost predicate Maximal(chunks: seq<DiffChunk>) {
    && (forall k | 0 <= k < |chunks| :: chunks[k].lines != [])
    && (forall k | 0 < k < |chunks| :: chunks[k - 1].kind != chunks[k].kind)
  }

  method MergeAdjacent(ops: seq<RawOp>) returns (out: seq<DiffChunk>)
    ensures Flatten(out) == ops && Maximal(out)
  {
    if |ops| == 0 { return []; }
    out := [];
    var cur := DiffChunk(ops[0].kind, [ops[0].line]);
    var i := 1;
    FirstChunk(ops);
    while i < |ops|
      invariant 1 <= i <= |ops|
      invariant Groups(out + [cur], ops, i)
    {
      if ops[i].kind == cur.kind {
        ChunkGrows(out, cur, ops, i);
        cur := cur.(lines := cur.lines + [ops[i].line]);
      } else {
        ChunkStarts(out, cur, ops, i);
        out := out + [cur];
        cur := DiffChunk(ops[i].kind, [ops[i].line]);
      }
      i := i + 1;
    }
    assert ops[..i] == ops;
    out := out + [cur];
  }

  lemma {:induction false} FlattenSnoc(out: seq<DiffChunk>, last: DiffChunk)
    ensures Flatten(out + [last]) == Flatten(out) + Lift(last.kind, last.lines)
  {
    assert (out + [last])[..|out|] == out;
  }

  /** The first `i` operations, as maximal chunks. */
  ghost predicate Groups(chunks: seq<DiffChunk>, ops: seq<RawOp>, i: nat)
    requires i <= |ops|
  {
    Flatten(chunks) == ops[..i] && Maximal(chunks)
  }

  lemma FirstChunk(ops: seq<RawOp>)
    requires ops != []
    ensures Groups([] + [DiffChunk(ops[0].kind, [ops[0].line])], ops, 1)
  {
    FlattenSnoc([], DiffChunk(ops[0].kind, [ops[0].line]));
  }

  lemma ChunkGrows(out: seq<DiffChunk>, cur: DiffChunk, ops: seq<RawOp>, i: nat)
    requires i < |ops| && Groups(out + [cur], ops, i) && ops[i].kind == cur.kind
    ensures Groups(out + [cur.(lines := cur.lines + [ops[i].line])], ops, i + 1)
  {
    var grown := cur.(lines := cur.lines + [ops[i].line]);
    FlattenSnoc(out, cur);
    FlattenSnoc(out, grown);
    assert Lift(grown.kind, grown.lines) == Lift(cur.kind, cur.lines) + [ops[i]];
    assert forall k | 0 <= k < |out| :: (out + [grown])[k] == (out + [cur])[k];
  }

  lemma ChunkStarts(out: seq<DiffChunk>, cur: DiffChunk, ops: seq<RawOp>, i: nat)
    requires i < |ops| && Groups(out + [cur], ops, i) && ops[i].kind != cur.kind
    ensures Groups(out + [cur] + [DiffChunk(ops[i].kind, [ops[i].line])], ops, i + 1)
  {
    var next := DiffChunk(ops[i].kind, [ops[i].line]);
    FlattenSnoc(out + [cur], next);
    assert Lift(next.kind, next.lines) == [ops[i]];
  }

  /** The grouping is forced: maximal chunks with the same operations are the same chunks. */
  lemma {:induction false} MaximalIsUnique(x: seq<DiffChunk>, y: seq<DiffChunk>)
    requires Maximal(x) && Maximal(y) && Flatten(x) == Flatten(y)
    ensures x == y
  {
    if x != [] && y != [] {
      var fx, fy := x[..|x| - 1], y[..|y| - 1];
      SameLastChunk(x, y);
      MaximalIsUnique(fx, fy);
      assert x == fx + [x[|x| - 1]] && y == fy + [y[|y| - 1]];
    }
  }

  lemma {:induction false} SameLastChunk(x: seq<DiffChunk>, y: seq<DiffChunk>)
    requires Maximal(x) && Maximal(y) && Flatten(x) == Flatten(y) && x != [] && y != []
    ensures x[|x| - 1] == y[|y| - 1]
    ensures Flatten(x[..|x| - 1]) == Flatten(y[..|y| - 1])
  {
    LastRun(x);
    LastRun(y);
    RunStartUnique(Flatten(x), |Flatten(x[..|x| - 1])|, |Flatten(y[..|y| - 1])|, x[|x| - 1].kind, y[|y| - 1].kind);
    SameLastRun(x, y);
  }

  ghost predicate IsLastRun(ops: seq<RawOp>, start: nat, kind: Kind) {
    && start < |ops| && (forall k | start <= k < |ops| :: ops[k].kind == kind)
    && (start > 0 ==> ops[start - 1].kind != kind)
  }

  lemma RunStartUnique(ops: seq<RawOp>, n: nat, m: nat, p: Kind, q: Kind)
    requires IsLastRun(ops, n, p) && IsLastRun(ops, m, q)
    ensures n == m
  {
    assert ops[|ops| - 1].kind == p == q;
  }

  /** Where the last chunk starts can be read off the operations alone. */
  lemma {:induction false} LastRun(x: seq<DiffChunk>)
    requires Maximal(x) && x != []
    ensures IsLastRun(Flatten(x), |Flatten(x[..|x| - 1])|, x[|x| - 1].kind)
  {
    var front := x[..|x| - 1];
    if |front| > 0 {
      var last := front[|front| - 1];
      assert Flatten(front)[|Flatten(front)| - 1] == Lift(last.kind, last.lines)[|last.lines| - 1];
    }
  }

  lemma {:induction false} SameLastRun(x: seq<DiffChunk>, y: seq<DiffChunk>)
    requires x != [] && y != [] && Flatten(x) == Flatten(y)
    requires |Flatten(x[..|x| - 1])| == |Flatten(y[..|y| - 1])|
    requires x[|x| - 1].lines != [] && y[|y| - 1].lines != []
    ensures x[|x| - 1] == y[|y| - 1]
    ensures Flatten(x[..|x| - 1]) == Flatten(y[..|y| - 1])
  {
    var n := |Flatten(x[..|x| - 1])|;
    var p, q := x[|x| - 1], y[|y| - 1];
    assert Flatten(x)[..n] == Flatten(x[..|x| - 1]) && Flatten(y)[..n] == Flatten(y[..|y| - 1]);
    assert Lift(p.kind, p.lines) == Flatten(x)[n..] == Flatten(y)[n..] == Lift(q.kind, q.lines);
    assert Lift(p.kind, p.lines)[0].kind == p.kind && Lift(q.kind, q.lines)[0].kind == q.kind;
    forall k | 0 <= k < |p.lines| ensures p.lines[k] == q.lines[k] {
      assert Lift(p.kind, p.lines)[k].line == p.lines[k] && Lift(q.kind, q.lines)[k].line == q.lines[k];
    }
  }

  function LinesOf(s: string): seq<string> {
    if s == "" then [] else Split(s, '\n')
  }

  lemma LinesRejoin(s: string)
    ensures Join(LinesOf(s), '\n') == s
  {
    JoinSplit(s, '\n');
  }

  /**
   The whole diff: both inputs can be read back, nothing shorter would do,
   and the view gets maximal chunks.
   */
  method DiffLines(a: string, b: string) returns (chunks: seq<DiffChunk>)
    ensures Maximal(chunks) && DeletionsFirst(Flatten(chunks))
    ensures Join(Keep(Flatten(chunks), Add), '\n') == a
    ensures Join(Keep(Flatten(chunks), Del), '\n') == b
    ensures forall other | IsScript(other, LinesOf(a), LinesOf(b)) :: Changes(Flatten(chunks)) <= Changes(other)
    ensures a == b <==> forall k | 0 <= k < |chunks| :: chunks[k].kind == Eq
  {
    var ops := LcsBacktrack(LinesOf(a), LinesOf(b));
    chunks := MergeAdjacent(ops);
    LinesRejoin(a);
    LinesRejoin(b);
    EqualInputs(chunks, LinesOf(a), LinesOf(b));
  }

  lemma {:induction false} AllKept(lines: seq<string>)
    ensures Keep(Lift(Eq, lines), Add) == lines && Keep(Lift(Eq, lines), Del) == lines
    ensures Count(Lift(Eq, lines), Add) == 0 && Count(Lift(Eq, lines), Del) == 0
  {
    if lines != [] {
      AllKept(lines[..|lines| - 1]);
      assert Lift(Eq, lines)[..|lines| - 1] == Lift(Eq, lines[..|lines| - 1]);
    }
  }

  lemma {:induction false} NoChanges(ops: seq<RawOp>)
    ensures Changes(ops) == 0 <==> forall k | 0 <= k < |ops| :: ops[k].kind == Eq
  {
    if ops != [] {
      NoChanges(ops[..|ops| - 1]);
    }
  }

  lemma {:induction false} ChunkKinds(chunks: seq<DiffChunk>)
    requires Maximal(chunks)
    ensures (forall k | 0 <= k < |chunks| :: chunks[k].kind == Eq) <==>
            forall k | 0 <= k < |Flatten(chunks)| :: Flatten(chunks)[k].kind == Eq
  {
    if chunks != [] {
      var front, last := chunks[..|chunks| - 1], chunks[|chunks| - 1];
      ChunkKinds(front);
      assert Flatten(chunks)[|Flatten(front)|].kind == last.kind;
      assert forall k | 0 <= k < |Flatten(front)| :: Flatten(chunks)[k] == Flatten(front)[k];
    }
  }

  lemma {:induction false} EqualInputs(chunks: seq<DiffChunk>, a: seq<string>, b: seq<string>)
    requires Maximal(chunks) && IsScript(Flatten(chunks), a, b)
    requires forall other | IsScript(other, a, b) :: Changes(Flatten(chunks)) <= Changes(other)
    ensures a == b <==> forall k | 0 <= k < |chunks| :: chunks[k].kind == Eq
  {
    var ops := Flatten(chunks);
    ChunkKinds(chunks);
    NoChanges(ops);
    if a == b {
      AllKept(a);
      assert IsScript(Lift(Eq, a), a, b);
    }
    if forall k | 0 <= k < |ops| :: ops[k].kind == Eq {
      AllEqSame(ops);
    }
  }

  lemma {:induction false} AllEqSame(ops: seq<RawOp>)
    requires forall k | 0 <= k < |ops| :: ops[k].kind == Eq
    ensures Keep(ops, Add) == Keep(ops, Del)
  {
    if ops != [] {
      AllEqSame(ops[..|ops| - 1]);
    }
  }
}
