/** The falling-block game: a 20 x 10 board of locked cells, the seven piece templates,
    clockwise rotation, the collision test, and the game object whose methods move,
    rotate, drop and lock the active piece, clear full rows and spawn the next piece. */
module Tetris {

  import opened Seqs

  const Cols: int := 10
  const Rows: int := 20

  /** A piece shape: rows of flags, where any non-zero entry is a block. */
  type Matrix = seq<seq<int>>

  /** A board cell: empty (`0` in the source) or a locked block of some colour. */
  datatype Cell = Empty | Block(color: string)

  type Board = seq<seq<Cell>>

  /** The seven template keys, in the order the template table lists them. */
  datatype Kind = I | J | L | O | S | T | Z

  /** The active piece: its shape, the board position of the shape's top-left corner, and its colour. */
  datatype Piece = Piece(matrix: Matrix, x: int, y: int, color: string)

  // ---------------------------------------------------------------------------
  // Shapes

  predicate WellFormedBoard(b: Board)
  {
    |b| == Rows && forall r :: 0 <= r < |b| ==> |b[r]| == Cols
  }

  /** An n x n matrix with n >= 1. */
  predicate IsSquare(m: Matrix)
  {
    |m| >= 1 && forall r :: 0 <= r < |m| ==> |m[r]| == |m|
  }

  /** Entry (r, c) of `m` exists and is a block. */
  predicate Filled(m: Matrix, r: int, c: int)
  {
    0 <= r < |m| && 0 <= c < |m[r]| && m[r][c] != 0
  }

  ghost predicate HasBlock(m: Matrix)
  {
    exists r, c :: Filled(m, r, c)
  }

  /** Every piece the game handles is square and holds at least one block. */
  ghost predicate WellFormedPiece(p: Piece)
  {
    IsSquare(p.matrix) && HasBlock(p.matrix)
  }

  /** The positions of the blocks of `m`. */
  function BlockCells(m: Matrix): set<(int, int)>
  {
    set r, c | 0 <= r < |m| && 0 <= c < |m[r]| && m[r][c] != 0 :: (r, c)
  }

  // ---------------------------------------------------------------------------
  // Piece catalogue and spawning

  function TemplateMatrix(k: Kind): Matrix
  {
    match k
    case I => [[0, 0, 0, 0], [1, 1, 1, 1], [0, 0, 0, 0], [0, 0, 0, 0]]
    case J => [[1, 0, 0], [1, 1, 1], [0, 0, 0]]
    case L => [[0, 0, 1], [1, 1, 1], [0, 0, 0]]
    case O => [[1, 1], [1, 1]]
    case S => [[0, 1, 1], [1, 1, 0], [0, 0, 0]]
    case T => [[0, 1, 0], [1, 1, 1], [0, 0, 0]]
    case Z => [[1, 1, 0], [0, 1, 1], [0, 0, 0]]
  }

  function TemplateColor(k: Kind): string
  {
    match k
    case I => "#0ff"
    case J => "#00f"
    case L => "#f60"
    case O => "#ff0"
    case S => "#0f0"
    case T => "#a0f"
    case Z => "#f00"
  }

  /** The template keys in table order; the source draws an index into this list at random. */
  const Kinds: seq<Kind> := [I, J, L, O, S, T, Z]

  /** `createPiece()` for the drawn template: a copy of the template, on row 0, centred horizontally. */
  function Spawn(k: Kind): (p: Piece)
    ensures p.matrix == TemplateMatrix(k) && p.color == TemplateColor(k)
    ensures p.y == 0 && p.x == (Cols - |p.matrix[0]|) / 2
    ensures WellFormedPiece(p)
    ensures 2 <= |p.matrix| <= 4
  {
    var m := TemplateMatrix(k);
    assert Filled(m, 1, 1);
    Piece(m, (Cols - |m[0]|) / 2, 0, TemplateColor(k))
  }

  function EmptyRow(): seq<Cell>
  {
    seq(Cols, _ => Empty)
  }

  function EmptyRows(n: nat): Board
  {
    seq(n, _ => EmptyRow())
  }

  // ---------------------------------------------------------------------------
  // Rotation

  /** Every row of `m` is as long as the first. */
  predicate IsRectangular(m: Matrix)
  {
    |m| >= 1 && forall r :: 0 <= r < |m| ==> |m[r]| == |m[0]|
  }

  /** `rotate(matrix)`: row i of the result is column i of `m` read from the bottom up. */
  function Rotate(m: Matrix): (q: Matrix)
    requires IsRectangular(m)
    ensures |q| == |m[0]|
    ensures forall i :: 0 <= i < |q| ==> |q[i]| == |m|
  {
    seq(|m[0]|, i requires 0 <= i < |m[0]| => seq(|m|, j requires 0 <= j < |m| => m[|m| - 1 - j][i]))
  }

  /** Rotating a square matrix keeps it square and turns block (a, b) into block (b, n - 1 - a). */
  lemma RotateSquare(m: Matrix)
    requires IsSquare(m)
    ensures IsSquare(Rotate(m)) && |Rotate(m)| == |m|
    ensures forall i, j :: Filled(Rotate(m), i, j) <==> Filled(m, |m| - 1 - j, i)
  {
  }

  /** Four clockwise rotations give back the original matrix. */
  lemma RotateFourTimes(m: Matrix)
    requires IsSquare(m)
    ensures Rotate(Rotate(Rotate(Rotate(m)))) == m
  {
    var n := |m|;
    RotateSquare(m);
    var r1 := Rotate(m);
    RotateSquare(r1);
    var r2 := Rotate(r1);
    RotateSquare(r2);
    var r3 := Rotate(r2);
    RotateSquare(r3);
    var r4 := Rotate(r3);
    forall i, j | 0 <= i < n && 0 <= j < n
      ensures r4[i][j] == m[i][j]
    {
      assert r4[i][j] == r3[n - 1 - j][i];
      assert r3[n - 1 - j][i] == r2[n - 1 - i][n - 1 - j];
      assert r2[n - 1 - i][n - 1 - j] == r1[j][n - 1 - i];
      assert r1[j][n - 1 - i] == m[i][j];
    }
    forall i | 0 <= i < n ensures r4[i] == m[i] { }
  }

  /** An injective map keeps the size of a set. */
  lemma {:induction false} ImageSize(s: set<(int, int)>, f: ((int, int)) -> (int, int))
    requires forall a, b :: a in s && b in s && f(a) == f(b) ==> a == b
    ensures |set x | x in s :: f(x)| == |s|
    decreases |s|
  {
    if s != {} {
      var a :| a in s;
      var s' := s - {a};
      ImageSize(s', f);
      assert (set x | x in s :: f(x)) == (set x | x in s' :: f(x)) + {f(a)};
    }
  }

  /** A turned piece is still a well-formed piece of the same width. */
  lemma TurnedPieceWellFormed(p: Piece)
    requires WellFormedPiece(p)
    ensures WellFormedPiece(p.(matrix := Rotate(p.matrix))) && |Rotate(p.matrix)| == |p.matrix|
  {
    RotateSquare(p.matrix);
    RotateKeepsBlockCount(p.matrix);
  }

  /** Rotation keeps the number of blocks of a square matrix. */
  lemma RotateKeepsBlockCount(m: Matrix)
    requires IsSquare(m)
    ensures |BlockCells(Rotate(m))| == |BlockCells(m)|
    ensures HasBlock(m) ==> HasBlock(Rotate(m))
  {
    var n := |m|;
    RotateSquare(m);
    var f := (c: (int, int)) => (c.1, n - 1 - c.0);
    assert BlockCells(Rotate(m)) == set c | c in BlockCells(m) :: f(c) by {
      forall c | c in BlockCells(Rotate(m)) ensures c in set c | c in BlockCells(m) :: f(c) {
        assert Filled(m, n - 1 - c.1, c.0);
        assert f((n - 1 - c.1, c.0)) == c;
      }
      forall c | c in BlockCells(m) ensures f(c) in BlockCells(Rotate(m)) {
        assert Filled(Rotate(m), c.1, n - 1 - c.0);
      }
    }
    ImageSize(BlockCells(m), f);
    if HasBlock(m) {
      var r, c :| Filled(m, r, c);
      assert Filled(Rotate(m), c, n - 1 - r);
    }
  }

  // ---------------------------------------------------------------------------
  // Collision

  /** Board cell (r, c) exists and is empty. Reading a missing row or column gives
      `undefined`, which is not `0`, so a cell off the board is never free. */
  predicate Free(b: Board, r: int, c: int)
  {
    0 <= r < |b| && 0 <= c < |b[r]| && b[r][c] == Empty
  }

  /** Some block of the piece lands outside the board or on a locked cell. */
  ghost predicate Collides(b: Board, p: Piece)
  {
    exists i, j :: Filled(p.matrix, i, j) && !Free(b, p.y + i, p.x + j)
  }

  /** `collide(board, piece)`: scans the matrix row by row and stops at the first block that is
      off the board or over a locked cell. */
  method Collide(b: Board, p: Piece) returns (hit: bool)
    ensures hit <==> Collides(b, p)
  {
    var i := 0;
    while i < |p.matrix|
      invariant 0 <= i <= |p.matrix|
      invariant forall i', j' :: 0 <= i' < i && Filled(p.matrix, i', j') ==> Free(b, p.y + i', p.x + j')
    {
      var j := 0;
      while j < |p.matrix[i]|
        invariant 0 <= j <= |p.matrix[i]|
        invariant forall i', j' :: 0 <= i' < i && Filled(p.matrix, i', j') ==> Free(b, p.y + i', p.x + j')
        invariant forall j' :: 0 <= j' < j && Filled(p.matrix, i, j') ==> Free(b, p.y + i, p.x + j')
      {
        if p.matrix[i][j] != 0 && !Free(b, p.y + i, p.x + j) {
          assert Filled(p.matrix, i, j);
          return true;
        }
        j := j + 1;
      }
      i := i + 1;
    }
    return false;
  }

  /** A piece whose top row is at or below the floor always collides, since it holds a block. */
  lemma BelowFloorCollides(b: Board, p: Piece)
    requires |b| == Rows && HasBlock(p.matrix) && p.y >= Rows
    ensures Collides(b, p)
  {
    var i, j :| Filled(p.matrix, i, j);
    assert !Free(b, p.y + i, p.x + j);
  }

  /** A freshly spawned piece never collides with an empty board. */
  lemma SpawnFitsEmptyBoard(k: Kind)
    ensures !Collides(EmptyRows(Rows), Spawn(k))
  {
    var p := Spawn(k);
    var b := EmptyRows(Rows);
    forall i, j | Filled(p.matrix, i, j) ensures Free(b, p.y + i, p.x + j) {
      assert 0 <= p.x + j < Cols;
    }
  }

  // ---------------------------------------------------------------------------
  // Locking and row clearing (specifications)

  /** The board after writing the piece's colour under each of its blocks. */
  function Merged(b: Board, p: Piece): Board
  {
    seq(|b|, r requires 0 <= r < |b| =>
      seq(|b[r]|, c requires 0 <= c < |b[r]| =>
        if Filled(p.matrix, r - p.y, c - p.x) then Block(p.color) else b[r][c]))
  }

  /** `b` with the blocks of `p` written in, for the blocks that come before matrix entry (i, j)
      in row-major order: the state of `merge` part-way through its loops. */
  ghost function PartMerged(b: Board, p: Piece, i: int, j: int): Board
  {
    seq(|b|, r requires 0 <= r < |b| =>
      seq(|b[r]|, c requires 0 <= c < |b[r]| =>
        if Filled(p.matrix, r - p.y, c - p.x) && (r - p.y < i || (r - p.y == i && c - p.x < j))
        then Block(p.color) else b[r][c]))
  }

  lemma PartMergedStart(b: Board, p: Piece)
    ensures PartMerged(b, p, 0, 0) == b
  {
    var pm := PartMerged(b, p, 0, 0);
    forall r | 0 <= r < |b| ensures pm[r] == b[r] {
      assert |pm[r]| == |b[r]|;
      forall c | 0 <= c < |b[r]| ensures pm[r][c] == b[r][c] {
        assert !Filled(p.matrix, r - p.y, c - p.x) || !(r - p.y < 0 || (r - p.y == 0 && c - p.x < 0));
      }
    }
  }

  /** Writing entry (i, j), when it is a block over a free cell, advances the merge by one entry. */
  lemma PartMergedStep(b: Board, p: Piece, i: int, j: int)
    requires WellFormedBoard(b) && !Collides(b, p)
    requires 0 <= i < |p.matrix| && 0 <= j < |p.matrix[i]|
    ensures p.matrix[i][j] != 0 ==>
      0 <= i + p.y < Rows && 0 <= j + p.x < Cols &&
      var pm := PartMerged(b, p, i, j);
      pm[i + p.y := pm[i + p.y][j + p.x := Block(p.color)]] == PartMerged(b, p, i, j + 1)
    ensures p.matrix[i][j] == 0 ==> PartMerged(b, p, i, j) == PartMerged(b, p, i, j + 1)
  {
    var pm, pm' := PartMerged(b, p, i, j), PartMerged(b, p, i, j + 1);
    if p.matrix[i][j] != 0 {
      assert Filled(p.matrix, i, j);
      assert Free(b, i + p.y, j + p.x);
      var q := pm[i + p.y := pm[i + p.y][j + p.x := Block(p.color)]];
      forall r | 0 <= r < |b| ensures q[r] == pm'[r] { }
    } else {
      forall r | 0 <= r < |b| ensures pm[r] == pm'[r] { }
    }
  }

  lemma PartMergedRow(b: Board, p: Piece, i: int)
    requires 0 <= i < |p.matrix|
    ensures PartMerged(b, p, i, |p.matrix[i]|) == PartMerged(b, p, i + 1, 0)
  {
    var pm, pm' := PartMerged(b, p, i, |p.matrix[i]|), PartMerged(b, p, i + 1, 0);
    forall r | 0 <= r < |b| ensures pm[r] == pm'[r] {
      assert |pm[r]| == |pm'[r]|;
      forall c | 0 <= c < |b[r]| ensures pm[r][c] == pm'[r][c] {
        var a, d := r - p.y, c - p.x;
        assert Filled(p.matrix, a, d) ==> ((a < i || (a == i && d < |p.matrix[i]|)) <==> a < i + 1);
      }
    }
  }

  lemma PartMergedDone(b: Board, p: Piece)
    ensures PartMerged(b, p, |p.matrix|, 0) == Merged(b, p)
  {
    var pm, mb := PartMerged(b, p, |p.matrix|, 0), Merged(b, p);
    forall r | 0 <= r < |b| ensures pm[r] == mb[r] {
      assert |pm[r]| == |mb[r]|;
      forall c | 0 <= c < |b[r]| ensures pm[r][c] == mb[r][c] {
        assert Filled(p.matrix, r - p.y, c - p.x) ==> r - p.y < |p.matrix|;
      }
    }
  }

  /** The positions of the locked cells of a board. */
  function Locked(b: Board): set<(int, int)>
  {
    set r, c | 0 <= r < |b| && 0 <= c < |b[r]| && b[r][c] != Empty :: (r, c)
  }

  /** The board cells under the blocks of `p`. */
  ghost function Placed(p: Piece): set<(int, int)>
  {
    set c | c in BlockCells(p.matrix) :: (c.0 + p.y, c.1 + p.x)
  }

  lemma PlacedSize(p: Piece)
    ensures |Placed(p)| == |BlockCells(p.matrix)|
  {
    var f := (c: (int, int)) => (c.0 + p.y, c.1 + p.x);
    assert Placed(p) == set c | c in BlockCells(p.matrix) :: f(c);
    ImageSize(BlockCells(p.matrix), f);
  }

  /** The cells a non-colliding piece covers are on the board and empty. */
  lemma PlacedAreFree(b: Board, p: Piece)
    requires !Collides(b, p)
    ensures forall c :: c in Placed(p) ==> Free(b, c.0, c.1)
  {
    forall c | c in Placed(p) ensures Free(b, c.0, c.1) {
      var d :| d in BlockCells(p.matrix) && c == (d.0 + p.y, d.1 + p.x);
      assert Filled(p.matrix, d.0, d.1);
    }
  }

  lemma MergedLocked(b: Board, p: Piece)
    requires WellFormedBoard(b) && !Collides(b, p)
    ensures Locked(Merged(b, p)) == Locked(b) + Placed(p)
  {
    MergedLockedWithin(b, p);
    PlacedLocked(b, p);
  }

  /** A locked cell after the merge was locked before or lies under a block. */
  lemma MergedLockedWithin(b: Board, p: Piece)
    requires WellFormedBoard(b) && !Collides(b, p)
    ensures Locked(Merged(b, p)) <= Locked(b) + Placed(p)
  {
    var mb := Merged(b, p);
    forall c | c in Locked(mb) ensures c in Locked(b) + Placed(p) {
      var r, col := c.0, c.1;
      assert 0 <= r < |b| && 0 <= col < |b[r]| && mb[r][col] != Empty;
      if Filled(p.matrix, r - p.y, col - p.x) {
        var d := (r - p.y, col - p.x);
        assert d in BlockCells(p.matrix);
        assert c == (d.0 + p.y, d.1 + p.x);
      } else {
        assert b[r][col] == mb[r][col];
      }
    }
  }

  /** Every locked cell stays locked and every cell under a block becomes locked. */
  lemma PlacedLocked(b: Board, p: Piece)
    requires WellFormedBoard(b) && !Collides(b, p)
    ensures Locked(b) + Placed(p) <= Locked(Merged(b, p))
  {
    var mb := Merged(b, p);
    PlacedAreFree(b, p);
    forall c | c in Placed(p) ensures c in Locked(mb) {
      var d :| d in BlockCells(p.matrix) && c == (d.0 + p.y, d.1 + p.x);
      assert Filled(p.matrix, d.0, d.1) && Free(b, c.0, c.1);
      assert mb[c.0][c.1] == Block(p.color);
    }
    forall c | c in Locked(b) ensures c in Locked(mb) {
      assert mb[c.0][c.1] != Empty;
    }
  }

  /** Locking a piece that does not collide keeps the board's shape, keeps every locked cell and
      locks exactly as many new cells as the piece has blocks. */
  lemma MergeAddsBlocks(b: Board, p: Piece)
    requires WellFormedBoard(b) && !Collides(b, p)
    ensures WellFormedBoard(Merged(b, p))
    ensures Locked(b) <= Locked(Merged(b, p))
    ensures |Locked(Merged(b, p))| == |Locked(b)| + |BlockCells(p.matrix)|
  {
    MergedLocked(b, p);
    PlacedAreFree(b, p);
    PlacedSize(p);
    assert Locked(b) * Placed(p) == {};
  }

  /** Every cell of the row is locked: the row is full. */
  predicate IsFull(row: seq<Cell>)
  {
    forall c :: 0 <= c < |row| ==> row[c] != Empty
  }

  /** The rows of `b` that are not full, in their original order. */
  function KeptRows(b: Board): Board
  {
    Filter(b, row => !IsFull(row))
  }

  /** The board after a sweep: the non-full rows at the bottom, empty rows above them. */
  function Swept(b: Board): Board
  {
    EmptyRows(|b| - |KeptRows(b)|) + KeptRows(b)
  }

  function ClearedRows(b: Board): int
  {
    |b| - |KeptRows(b)|
  }

  lemma {:induction false} FullAndKeptPartition(b: Board)
    ensures |Filter(b, IsFull)| + |KeptRows(b)| == |b|
    decreases |b|
  {
    if b != [] {
      FullAndKeptPartition(b[1..]);
    }
  }

  /** One step of the bottom-up scan over a full row: removing it and adding an empty row on top. */
  lemma SweepRemovesFullRow(b0: Board, lines: nat, u: nat)
    requires 1 <= u <= |b0| && IsFull(b0[u - 1])
    ensures var board := EmptyRows(lines) + b0[..u] + KeptRows(b0[u..]);
      [EmptyRow()] + board[..lines + u - 1] + board[lines + u..] ==
      EmptyRows(lines + 1) + b0[..u - 1] + KeptRows(b0[u - 1..])
  {
    var board := EmptyRows(lines) + b0[..u] + KeptRows(b0[u..]);
    assert b0[u - 1..][1..] == b0[u..];
    assert KeptRows(b0[u - 1..]) == KeptRows(b0[u..]);
    assert board[..lines + u - 1] == EmptyRows(lines) + b0[..u - 1];
    assert board[lines + u..] == KeptRows(b0[u..]);
    assert EmptyRows(lines + 1) == [EmptyRow()] + EmptyRows(lines);
  }

  /** One step of the bottom-up scan over a row that is not full: it moves into the kept part. */
  lemma SweepKeepsRow(b0: Board, lines: nat, u: nat)
    requires 1 <= u <= |b0| && !IsFull(b0[u - 1])
    ensures EmptyRows(lines) + b0[..u] + KeptRows(b0[u..]) ==
      EmptyRows(lines) + b0[..u - 1] + KeptRows(b0[u - 1..])
  {
    assert b0[u - 1..][1..] == b0[u..];
    assert KeptRows(b0[u - 1..]) == [b0[u - 1]] + KeptRows(b0[u..]);
    assert b0[..u] == b0[..u - 1] + [b0[u - 1]];
  }

  /** A sweep keeps the board 20 x 10, leaves no full row, and clears exactly the full rows. */
  lemma SweptShape(b: Board)
    requires WellFormedBoard(b)
    ensures WellFormedBoard(Swept(b))
    ensures forall r :: 0 <= r < Rows ==> !IsFull(Swept(b)[r])
    ensures ClearedRows(b) == |Filter(b, IsFull)|
    ensures Swept(b)[ClearedRows(b)..] == KeptRows(b)
    ensures forall r :: 0 <= r < ClearedRows(b) ==> Swept(b)[r] == EmptyRow()
  {
    FullAndKeptPartition(b);
    SweptRows(b);
  }

  /** The state of the bottom-up scan of `sweep()` after `lines` rows were cleared, with row `y`
      next to examine: the rows above `u` of the original board are untouched, below them only
      the rows that are not full remain, and the cleared rows have become empty rows on top. */
  ghost predicate ScanInv(b0: Board, rows: Board, lines: int, y: int, u: int)
  {
    WellFormedBoard(b0) && -1 <= y < Rows && lines >= 0 &&
    u == (if y + 1 >= lines then y + 1 - lines else 0) && 0 <= u <= Rows &&
    rows == EmptyRows(lines) + b0[..u] + KeptRows(b0[u..]) && |rows| == Rows
  }

  lemma ScanFull(b0: Board, rows: Board, lines: int, y: int, u: int)
    requires ScanInv(b0, rows, lines, y, u) && y >= 0 && IsFull(rows[y])
    ensures u >= 1 && ScanInv(b0, [EmptyRow()] + rows[..y] + rows[y + 1..], lines + 1, y, u - 1)
  {
    ScanTopEmpty(b0, rows, lines, y, u);
    assert rows[y] == b0[u - 1];
    SweepRemovesFullRow(b0, lines, u);
  }

  /** The rows the scan has put on top are empty, hence not full. */
  lemma ScanTopEmpty(b0: Board, rows: Board, lines: int, y: int, u: int)
    requires ScanInv(b0, rows, lines, y, u) && y >= 0
    ensures y < lines ==> rows[y] == EmptyRow() && !IsFull(rows[y])
  {
    if y < lines {
      assert rows[y] == EmptyRow();
      assert rows[y][0] == Empty;
    }
  }

  lemma ScanNotFull(b0: Board, rows: Board, lines: int, y: int, u: int)
    requires ScanInv(b0, rows, lines, y, u) && y >= 0 && !IsFull(rows[y])
    ensures y >= lines ==> u >= 1 && ScanInv(b0, rows, lines, y - 1, u - 1)
    ensures y < lines ==> ScanInv(b0, rows, lines, y - 1, u)
  {
    if y >= lines {
      assert rows[y] == b0[u - 1];
      SweepKeepsRow(b0, lines, u);
    }
  }

  lemma ScanDone(b0: Board, rows: Board, lines: int, u: int)
    requires ScanInv(b0, rows, lines, -1, u)
    ensures rows == Swept(b0) && lines == ClearedRows(b0)
  {
    assert b0[0..] == b0 && b0[..0] == [];
  }

  /** The loop of `sweep()`: scans rows from the bottom up; a full row is removed, an empty row is
      put on top and the same row index is examined again. Returns the new rows and the number of
      cleared lines. */
  method SweepScan(b0: Board) returns (rows: Board, lines: int)
    requires WellFormedBoard(b0)
    ensures rows == Swept(b0) && lines == ClearedRows(b0)
  {
    rows := b0;
    lines := 0;
    var y := |rows| - 1;
    ghost var u := Rows;
    assert b0[..Rows] == b0 && b0[Rows..] == [];
    while y >= 0
      invariant ScanInv(b0, rows, lines, y, u)
      decreases y + 1 + u
    {
      if IsFull(rows[y]) {
        ScanFull(b0, rows, lines, y, u);
        rows := [EmptyRow()] + rows[..y] + rows[y + 1..];
        lines := lines + 1;
        u := u - 1;
      } else {
        ScanNotFull(b0, rows, lines, y, u);
        if y >= lines {
          u := u - 1;
        }
        y := y - 1;
      }
    }
    ScanDone(b0, rows, lines, u);
  }

  lemma SweptRows(b: Board)
    requires WellFormedBoard(b)
    ensures |Swept(b)| == Rows
    ensures forall r :: 0 <= r < Rows ==> |Swept(b)[r]| == Cols && !IsFull(Swept(b)[r])
  {
    var k := KeptRows(b);
    var s := Swept(b);
    forall r | 0 <= r < Rows ensures |s[r]| == Cols && !IsFull(s[r]) {
      if r < |b| - |k| {
        assert s[r][0] == Empty;
      } else {
        assert s[r] == k[r - (|b| - |k|)];
      }
    }
  }

  // ---------------------------------------------------------------------------
  // Wall kicks

  /** The horizontal displacement after k steps of the kick search: 0, +1, -1, +2, -2, ... */
  function KickShift(k: nat): int
  {
    if k % 2 == 1 then (k + 1) / 2 else -(k / 2)
  }

  /** How many positions the kick search tries for an n-wide matrix: it stops once the next
      offset, which alternates in sign and grows by one each step, is positive and exceeds n.
      That is the least even step count of at least 2 whose offset exceeds n. */
  function KickTrials(n: nat): (t: nat)
    ensures t >= 2 && t % 2 == 0 && t + 1 > n
    ensures n >= 1 ==> t <= n + 1
  {
    if n <= 1 then 2 else n + n % 2
  }

  /** The offset the search adds after trying step k, and how the next one follows from it. */
  function KickOffset(k: nat): int
  {
    if k % 2 == 0 then k + 1 else -(k + 1)
  }

  lemma KickStep(k: nat, n: nat)
    requires k < KickTrials(n)
    ensures KickShift(k + 1) == KickShift(k) + KickOffset(k)
    ensures KickOffset(k + 1) == -(KickOffset(k) + (if KickOffset(k) > 0 then 1 else -1))
    ensures KickOffset(k + 1) > n <==> k + 1 == KickTrials(n)
  {
  }

  /** The position tried at step k of the kick search collides. */
  ghost predicate Blocked(b: Board, p: Piece, k: nat)
  {
    Collides(b, p.(x := p.x + KickShift(k)))
  }

  /** The first step from k on whose position does not collide, if the search finds one. */
  ghost function KickSearch(b: Board, p: Piece, k: nat): (r: Option<nat>)
    requires IsSquare(p.matrix)
    ensures r.Some? ==> k <= r.value < KickTrials(|p.matrix|) && !Blocked(b, p, r.value)
    ensures r.Some? ==> forall k' :: k <= k' < r.value ==> Blocked(b, p, k')
    ensures r.None? ==> forall k' :: k <= k' < KickTrials(|p.matrix|) ==> Blocked(b, p, k')
    decreases KickTrials(|p.matrix|) - k
  {
    if k >= KickTrials(|p.matrix|) then None
    else if !Blocked(b, p, k) then Some(k)
    else KickSearch(b, p, k + 1)
  }

  lemma BlockedExtend(b: Board, p: Piece, k: nat)
    requires forall k' :: 0 <= k' < k ==> Blocked(b, p, k')
    requires Blocked(b, p, k)
    ensures forall k' :: 0 <= k' < k + 1 ==> Blocked(b, p, k')
  {
  }

  /** Whatever order the positions are tried in, the search result is determined by which
      positions collide. */
  lemma KickSearchIs(b: Board, p: Piece, j: nat)
    requires IsSquare(p.matrix)
    requires forall k' :: 0 <= k' < j ==> Blocked(b, p, k')
    ensures j < KickTrials(|p.matrix|) && !Blocked(b, p, j) ==> KickSearch(b, p, 0) == Some(j)
    ensures j == KickTrials(|p.matrix|) ==> KickSearch(b, p, 0) == None
  {
  }

  /** The state of the kick loop before its k-th try: the piece shifted by the k-th
      displacement, the offset for the next step, and every earlier try blocked. */
  ghost predicate KickState(b: Board, turned: Piece, piece: Piece, offset: int, k: nat)
  {
    piece == turned.(x := turned.x + KickShift(k)) && offset == KickOffset(k) &&
    k < KickTrials(|turned.matrix|) && forall k' :: 0 <= k' < k ==> Blocked(b, turned, k')
  }

  /** One blocked try moves the loop to the next displacement; the search stops when the
      offset passes the matrix width. */
  lemma KickNext(b: Board, turned: Piece, piece: Piece, offset: int, k: nat)
    requires IsSquare(turned.matrix) && KickState(b, turned, piece, offset, k) && Blocked(b, turned, k)
    ensures var next := -(offset + (if offset > 0 then 1 else -1));
      var moved := piece.(x := piece.x + offset);
      |moved.matrix[0]| == |turned.matrix| &&
      (next > |turned.matrix| ==> KickSearch(b, turned, 0) == None) &&
      (next <= |turned.matrix| ==> KickState(b, turned, moved, next, k + 1))
  {
    BlockedExtend(b, turned, k);
    KickStep(k, |turned.matrix|);
    if -(offset + (if offset > 0 then 1 else -1)) > |turned.matrix| {
      KickSearchIs(b, turned, k + 1);
    }
  }

  /** The kick loop of `rotatePiece()`: from the turned piece's x, shifts by an offset that
      starts at 1 and becomes -(offset + sign(offset)) after each try, until the piece fits or the
      offset exceeds the matrix width. */
  method KickPosition(b: Board, turned: Piece) returns (fit: Option<int>)
    requires IsSquare(turned.matrix)
    ensures fit == match KickSearch(b, turned, 0)
      case Some(k) => Some(turned.x + KickShift(k))
      case None => None
    ensures fit.Some? ==> !Collides(b, turned.(x := fit.value))
  {
    var piece := turned;
    var offset := 1;
    ghost var k: nat := 0;
    var hit := Collide(b, piece);
    while hit
      invariant KickState(b, turned, piece, offset, k)
      invariant hit <==> Blocked(b, turned, k)
      decreases KickTrials(|turned.matrix|) - k
    {
      KickNext(b, turned, piece, offset, k);
      piece := piece.(x := piece.x + offset);
      offset := -(offset + (if offset > 0 then 1 else -1));
      k := k + 1;
      if offset > |piece.matrix[0]| {
        return None;
      }
      hit := Collide(b, piece);
    }
    KickSearchIs(b, turned, k);
    return Some(piece.x);
  }

  /** The templates are 2, 3 or 4 wide, so the search tries x, x + 1 for the 2-wide square and
      x, x + 1, x - 1, x + 2 for every other piece. */
  lemma KickTrialsOfTemplates(k: Kind)
    ensures var n := |TemplateMatrix(k)|;
      KickTrials(n) == (if n == 2 then 2 else 4) &&
      KickShift(0) == 0 && KickShift(1) == 1 && KickShift(2) == -1 && KickShift(3) == 2
  {
  }

  // ---------------------------------------------------------------------------
  // Falling straight down

  /** The lowest row a non-colliding piece reaches by moving straight down. */
  ghost function LandingY(b: Board, p: Piece): (y: int)
    requires |b| == Rows && HasBlock(p.matrix) && !Collides(b, p)
    ensures p.y <= y < Rows
    ensures forall y' :: p.y <= y' <= y ==> !Collides(b, p.(y := y'))
    ensures Collides(b, p.(y := y + 1))
    decreases Rows - p.y
  {
    if p.y >= Rows then BelowFloorCollides(b, p); p.y
    else if Collides(b, p.(y := p.y + 1)) then p.y
    else
      var y := LandingY(b, p.(y := p.y + 1));
      assert p.(y := p.y + 1).(y := y + 1) == p.(y := y + 1);
      assert forall y' :: p.y + 1 <= y' <= y ==> p.(y := p.y + 1).(y := y') == p.(y := y');
      y
  }

  /** The landing row is the first row below which the piece collides. */
  lemma {:induction false} LandingYUnique(b: Board, p: Piece, t: int)
    requires |b| == Rows && HasBlock(p.matrix) && !Collides(b, p)
    requires p.y <= t
    requires forall y' :: p.y <= y' <= t ==> !Collides(b, p.(y := y'))
    requires Collides(b, p.(y := t + 1))
    ensures LandingY(b, p) == t
    decreases t - p.y
  {
    if p.y >= Rows {
      BelowFloorCollides(b, p);
    } else if t > p.y {
      var q := p.(y := p.y + 1);
      assert !Collides(b, q);
      assert forall y' :: q.y <= y' <= t ==> q.(y := y') == p.(y := y');
      assert q.(y := t + 1) == p.(y := t + 1);
      LandingYUnique(b, q, t);
    }
  }

  /** The loop of `hardDrop()`: moves the piece down while it does not collide, then steps back
      one row, which leaves it on its landing row. */
  method Fall(b: Board, p0: Piece) returns (p: Piece)
    requires |b| == Rows && HasBlock(p0.matrix) && !Collides(b, p0)
    ensures p == p0.(y := LandingY(b, p0))
    ensures !Collides(b, p) && Collides(b, p.(y := p.y + 1))
  {
    p := p0;
    var hit := Collide(b, p);
    while !hit
      invariant p == p0.(y := p.y) && p0.y <= p.y <= Rows
      invariant forall y' :: p0.y <= y' < p.y ==> !Collides(b, p0.(y := y'))
      invariant hit <==> Collides(b, p)
      decreases Rows - p.y
    {
      if p.y >= Rows {
        BelowFloorCollides(b, p);
      }
      p := p.(y := p.y + 1);
      hit := Collide(b, p);
    }
    assert p.y > p0.y;
    p := p.(y := p.y - 1);
    LandingYUnique(b, p0, p.y);
  }

  // ---------------------------------------------------------------------------
  // The game

  /** Keyboard input; every other key is ignored. */
  datatype Key = ArrowLeft | ArrowRight | ArrowDown | ArrowUp | Space | OtherKey

  class Game {
    var board: Board
    var piece: Piece
    var score: int
    var gameOver: bool

    /** The board stays 20 x 10, the piece stays square with a block, and while the game runs
        the active piece never overlaps a locked cell or leaves the board. */
    ghost predicate Valid()
      reads this
    {
      WellFormedBoard(board) && WellFormedPiece(piece) && score >= 0 &&
      (!gameOver ==> !Collides(board, piece))
    }

    /** A new game: an empty board and a first piece. */
    constructor (first: Kind)
      ensures Valid()
      ensures board == EmptyRows(Rows) && piece == Spawn(first) && score == 0 && !gameOver
    {
      board := EmptyRows(Rows);
      piece := Spawn(first);
      score := 0;
      gameOver := false;
      SpawnFitsEmptyBoard(first);
    }

    /** `merge(board, piece)`: writes the piece's colour into the board cell under each block. */
    method Merge()
      requires WellFormedBoard(board) && !Collides(board, piece)
      modifies this
      ensures board == Merged(old(board), piece)
      ensures piece == old(piece) && score == old(score) && gameOver == old(gameOver)
    {
      ghost var b0 := board;
      var i := 0;
      PartMergedStart(b0, piece);
      while i < |piece.matrix|
        invariant 0 <= i <= |piece.matrix|
        invariant board == PartMerged(b0, piece, i, 0)
        invariant piece == old(piece) && score == old(score) && gameOver == old(gameOver)
      {
        MergeRow(b0, i);
        i := i + 1;
      }
      PartMergedDone(b0, piece);
    }

    /** The inner loop of `merge`: the blocks of matrix row `i`. */
    method MergeRow(ghost b0: Board, i: int)
      requires WellFormedBoard(b0) && !Collides(b0, piece)
      requires 0 <= i < |piece.matrix| && board == PartMerged(b0, piece, i, 0)
      modifies this
      ensures board == PartMerged(b0, piece, i + 1, 0)
      ensures piece == old(piece) && score == old(score) && gameOver == old(gameOver)
    {
      var row := piece.matrix[i];
      var j := 0;
      while j < |row|
        invariant 0 <= j <= |row|
        invariant board == PartMerged(b0, piece, i, j)
        invariant piece == old(piece) && score == old(score) && gameOver == old(gameOver)
      {
        PartMergedStep(b0, piece, i, j);
        if row[j] != 0 {
          var r, c := i + piece.y, j + piece.x;
          board := board[r := board[r][c := Block(piece.color)]];
        }
        j := j + 1;
      }
      PartMergedRow(b0, piece, i);
    }

    /** `sweep()`: clears the full rows and adds 10 points per cleared row. */
    method Sweep()
      requires WellFormedBoard(board)
      modifies this
      ensures board == Swept(old(board))
      ensures score == old(score) + 10 * ClearedRows(old(board))
      ensures piece == old(piece) && gameOver == old(gameOver)
    {
      var rows, lines := SweepScan(board);
      board := rows;
      if lines > 0 {
        score := score + lines * 10;
      }
    }

    /** `resetPiece()`: spawns the next piece; if it collides at once the game is over (and the
        drop timer is stopped, so nothing moves any more). */
    method ResetPiece(next: Kind)
      requires WellFormedBoard(board) && score >= 0
      modifies this
      ensures Valid()
      ensures piece == Spawn(next) && gameOver == Collides(board, Spawn(next))
      ensures board == old(board) && score == old(score)
    {
      piece := Spawn(next);
      var hit := Collide(board, piece);
      gameOver := hit;
    }

    /** `drop()`: moves the piece one row down, or, when that collides, locks it where it is,
        clears full rows and spawns the next piece. */
    method Drop(next: Kind)
      requires Valid() && !gameOver
      modifies this
      ensures Valid()
      ensures !Collides(old(board), old(piece).(y := old(piece).y + 1)) ==>
        piece == old(piece).(y := old(piece).y + 1) && board == old(board) && score == old(score) && !gameOver
      ensures Collides(old(board), old(piece).(y := old(piece).y + 1)) ==>
        board == Swept(Merged(old(board), old(piece))) &&
        score == old(score) + 10 * ClearedRows(Merged(old(board), old(piece))) &&
        piece == Spawn(next) && gameOver == Collides(board, Spawn(next))
    {
      ghost var p0 := piece;
      piece := piece.(y := piece.y + 1);
      var hit := Collide(board, piece);
      if hit {
        piece := piece.(y := piece.y - 1);
        assert piece == p0;
        Lock(next);
      }
    }

    /** The collision branch of `drop()`: merges the piece into the board where it is, clears
        full rows and spawns the next piece. */
    method Lock(next: Kind)
      requires Valid() && !gameOver
      modifies this
      ensures Valid()
      ensures var locked := Merged(old(board), old(piece));
        board == Swept(locked) && score == old(score) + 10 * ClearedRows(locked) &&
        piece == Spawn(next) && gameOver == Collides(board, Spawn(next))
    {
      ghost var b0, p0, s0 := board, piece, score;
      MergeAddsBlocks(board, piece);
      Merge();
      ghost var locked := board;
      assert locked == Merged(b0, p0);
      SweptShape(board);
      Sweep();
      assert board == Swept(locked) && score == s0 + 10 * ClearedRows(locked);
      ResetPiece(next);
    }

    /** `move(dir)`: shifts the piece sideways unless that collides; the shape and row never change. */
    method Move(dir: int)
      requires Valid() && !gameOver
      modifies this
      ensures Valid() && !gameOver
      ensures var moved := old(piece).(x := old(piece).x + dir);
        piece == if Collides(board, moved) then old(piece) else moved
      ensures board == old(board) && score == old(score)
    {
      piece := piece.(x := piece.x + dir);
      var hit := Collide(board, piece);
      if hit {
        piece := piece.(x := piece.x - dir);
      }
    }

    /** `rotatePiece()`: turns the piece clockwise and tries the kick positions in order; if none
        fits, three further turns restore the original shape and x. */
    method RotatePiece()
      requires Valid() && !gameOver
      modifies this
      ensures Valid() && !gameOver
      ensures board == old(board) && score == old(score)
      ensures var turned := old(piece).(matrix := Rotate(old(piece).matrix));
        match KickSearch(board, turned, 0)
        case Some(k) => piece == turned.(x := turned.x + KickShift(k))
        case None => piece == old(piece)
    {
      ghost var p0 := piece;
      TurnedPieceWellFormed(p0);
      var m := Rotate(piece.matrix);
      var pos := piece.x;
      var turned := piece.(matrix := m);
      var fit := KickPosition(board, turned);
      match fit
      case Some(x) =>
        piece := turned.(x := x);
        assert piece.matrix == m && WellFormedPiece(piece);
        assert !Collides(board, piece);
      case None =>
        RotateFourTimes(p0.matrix);
        piece := turned.(matrix := Rotate(Rotate(Rotate(m))), x := pos);
        assert piece == p0;
    }

    /** `hardDrop()`: moves the piece down while it does not collide and steps back one row; the
        `drop()` that follows collides at once, so it locks the piece at the lowest row it
        reaches straight down. */
    method HardDrop(next: Kind)
      requires Valid() && !gameOver
      modifies this
      ensures Valid()
      ensures var landed := old(piece).(y := LandingY(old(board), old(piece)));
        var locked := Merged(old(board), landed);
        board == Swept(locked) && score == old(score) + 10 * ClearedRows(locked) &&
        piece == Spawn(next) && gameOver == Collides(board, Spawn(next))
    {
      piece := Fall(board, piece);
      Lock(next);
    }

    /** One tick of the 1000 ms drop timer. The timer is stopped at game over. */
    method Tick(next: Kind)
      requires Valid()
      modifies this
      ensures Valid()
      ensures old(gameOver) ==> board == old(board) && piece == old(piece) && score == old(score) && gameOver
      ensures !old(gameOver) && !Collides(old(board), old(piece).(y := old(piece).y + 1)) ==>
        piece == old(piece).(y := old(piece).y + 1) && board == old(board) && score == old(score) && !gameOver
      ensures !old(gameOver) && Collides(old(board), old(piece).(y := old(piece).y + 1)) ==>
        board == Swept(Merged(old(board), old(piece))) &&
        score == old(score) + 10 * ClearedRows(Merged(old(board), old(piece))) &&
        piece == Spawn(next) && gameOver == Collides(board, Spawn(next))
      ensures score >= old(score)
    {
      if !gameOver {
        Drop(next);
      }
    }

    /** `keyListener(e)`: ignored after game over; otherwise arrows move, drop or rotate and
        Space hard-drops; every other key changes nothing. */
    method KeyListener(key: Key, next: Kind)
      requires Valid()
      modifies this
      ensures Valid()
      ensures old(gameOver) || key == OtherKey ==>
        board == old(board) && piece == old(piece) && score == old(score) && gameOver == old(gameOver)
      ensures key == ArrowLeft || key == ArrowRight || key == ArrowUp ==>
        board == old(board) && score == old(score) && gameOver == old(gameOver)
      ensures !old(gameOver) && (key == ArrowLeft || key == ArrowRight) ==>
        var moved := old(piece).(x := old(piece).x + (if key == ArrowLeft then -1 else 1));
        piece == if Collides(board, moved) then old(piece) else moved
      ensures !old(gameOver) && key == ArrowUp ==>
        var turned := old(piece).(matrix := Rotate(old(piece).matrix));
        piece == match KickSearch(board, turned, 0)
          case Some(k) => turned.(x := turned.x + KickShift(k))
          case None => old(piece)
      ensures !old(gameOver) && key == ArrowDown && !Collides(old(board), old(piece).(y := old(piece).y + 1)) ==>
        piece == old(piece).(y := old(piece).y + 1) && board == old(board) && score == old(score) && gameOver == old(gameOver)
      ensures !old(gameOver) && (key == Space || (key == ArrowDown && Collides(old(board), old(piece).(y := old(piece).y + 1)))) ==>
        var locked := Merged(old(board), if key == Space then old(piece).(y := LandingY(old(board), old(piece))) else old(piece));
        board == Swept(locked) && score == old(score) + 10 * ClearedRows(locked) &&
        piece == Spawn(next) && gameOver == Collides(board, Spawn(next))
      ensures score >= old(score)
    {
      if gameOver {
        return;
      }
      match key
      case ArrowLeft => Move(-1);
      case ArrowRight => Move(1);
      case ArrowDown => Drop(next);
      case ArrowUp => RotatePiece();
      case Space => HardDrop(next);
      case OtherKey =>
    }
  }
}
