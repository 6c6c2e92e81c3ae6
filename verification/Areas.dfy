/** Combat areas: bit matrices about a centre, turned and mirrored for every direction. */
module Areas {

  const WORD: int := 0x1_0000_0000
  /** Matrices are far smaller than the words that hold their sizes. */
  const LIMIT: int := 0x1000_0000

  datatype MatrixOperation = Copy | Mirror | Flip | Rotate90 | Rotate180 | Rotate270

  /** An unsigned word read back as a signed one. */
  function Signed(word: int): int {
    if word < WORD / 2 then word else word - WORD
  }

  /** A rotation about the origin; y grows to the south, so Rotate90 turns north to east. */
  function TurnedY(op: MatrixOperation, y: int, x: int): int {
    match op
    case Rotate90 => x
    case Rotate180 => -y
    case Rotate270 => -x
    case _ => y
  }

  function TurnedX(op: MatrixOperation, y: int, x: int): int {
    match op
    case Rotate90 => -y
    case Rotate180 => -x
    case Rotate270 => y
    case _ => x
  }

  function Inverse(op: MatrixOperation): MatrixOperation {
    match op
    case Rotate90 => Rotate270
    case Rotate270 => Rotate90
    case _ => op
  }

  class MatrixArea {
    const rows: nat
    const cols: nat
    const data: array2<bool>
    var centerY: int
    var centerX: int

    constructor (rows: nat, cols: nat)
      requires rows < LIMIT && cols < LIMIT
      ensures Valid() && this.rows == rows && this.cols == cols && centerY == 0 && centerX == 0 && fresh(data)
      ensures Blank()
    {
      this.rows, this.cols, centerY, centerX := rows, cols, 0, 0;
      data := new bool[rows, cols]((_, _) => false);
    }

    ghost predicate Valid()
      reads this
    {
      && data.Length0 == rows < LIMIT && data.Length1 == cols < LIMIT
      && 0 <= centerY < WORD && -LIMIT <= Signed(centerY) < LIMIT
      && 0 <= centerX < WORD && -LIMIT <= Signed(centerX) < LIMIT
    }

    ghost predicate CenterInside()
      reads this
    {
      0 <= centerY < rows && 0 <= centerX < cols
    }

    /** The centre, as two words. */
    method SetCenter(y: int, x: int)
      modifies this
      ensures centerY == y % WORD && centerX == x % WORD
    {
      centerY, centerX := y % WORD, x % WORD;
    }

    /** A cell of the matrix is set. */
    predicate Cell(y: int, x: int)
      reads data
    {
      0 <= y < data.Length0 && 0 <= x < data.Length1 && data[y, x]
    }

    ghost predicate Blank()
      reads data
    {
      forall y, x :: 0 <= y < data.Length0 && 0 <= x < data.Length1 ==> !data[y, x]
    }

    /** The area reaches the tile at an offset from its centre. */
    predicate Covers(dy: int, dx: int)
      reads this, data
    {
      Cell(Signed(centerY) + dy, Signed(centerX) + dx)
    }
  }

  /** Where the cell of the input lies that a rotation brings to a cell, when the new centre is (c, c). */
  function SourceY(centerY: int, op: MatrixOperation, c: int, y: int, x: int): int {
    centerY + TurnedY(Inverse(op), y - c, x - c)
  }

  function SourceX(centerX: int, op: MatrixOperation, c: int, y: int, x: int): int {
    centerX + TurnedX(Inverse(op), y - c, x - c)
  }

  /** A rotation brings a cell to one place, inside a matrix of twice the size, and no other cell there. */
  lemma TurnedOnce(op: MatrixOperation, centerY: int, centerX: int, c: int, y: int, x: int)
    requires op.Rotate90? || op.Rotate180? || op.Rotate270?
    ensures
      var ty, tx := TurnedY(op, y - centerY, x - centerX), TurnedX(op, y - centerY, x - centerX);
      forall r, k {:trigger SourceY(centerY, op, c, r, k)} {:trigger SourceX(centerX, op, c, r, k)} ::
        r == ty + c && k == tx + c <==> SourceY(centerY, op, c, r, k) == y && SourceX(centerX, op, c, r, k) == x
  {
  }

  lemma TurnedInside(op: MatrixOperation, rows: int, cols: int, centerY: int, centerX: int, side: int, y: int, x: int)
    requires 0 <= centerY < rows && 0 <= centerX < cols && 0 <= y < rows && 0 <= x < cols
    requires side >= 2 * rows && side >= 2 * cols
    ensures 0 <= TurnedY(op, y - centerY, x - centerX) + side / 2 - 1 < side
    ensures 0 <= TurnedX(op, y - centerY, x - centerX) + side / 2 - 1 < side
  {
  }

  lemma OutsideStaysOutside(op: MatrixOperation, rows: int, cols: int, centerY: int, centerX: int, side: int, r: int, c: int)
    requires 0 <= centerY < rows && 0 <= centerX < cols && side >= 2 * rows && side >= 2 * cols
    requires !(0 <= r < side && 0 <= c < side)
    ensures var sy, sx := SourceY(centerY, op, side / 2 - 1, r, c), SourceX(centerX, op, side / 2 - 1, r, c);
      !(0 <= sy < rows && 0 <= sx < cols)
  {
  }

  method CopyCells(input: MatrixArea, output: MatrixArea)
    requires input.Valid() && output.Valid() && input.data != output.data
    requires input.rows <= output.rows && input.cols <= output.cols
    requires output.Blank()
    modifies output.data
    ensures forall y, x {:trigger output.Cell(y, x)} :: output.Cell(y, x) <==> input.Cell(y, x)
  {
    for y := 0 to input.rows
      invariant forall r, c :: 0 <= r < output.rows && 0 <= c < output.cols ==>
        output.data[r, c] == (r < y && c < input.cols && input.data[r, c])
    {
      for x := 0 to input.cols
        invariant forall r, c :: 0 <= r < output.rows && 0 <= c < output.cols ==>
          output.data[r, c] == ((r < y || (r == y && c < x)) && c < input.cols && input.data[r, c])
      {
        output.data[y, x] := input.data[y, x];
      }
    }
  }

  method MirrorCells(input: MatrixArea, output: MatrixArea)
    requires input.Valid() && output.Valid() && input.data != output.data
    requires input.rows <= output.rows && input.cols <= output.cols
    requires output.Blank()
    modifies output.data
    ensures forall y, x {:trigger output.Cell(y, x)} :: output.Cell(y, x) <==> input.Cell(y, input.cols - 1 - x)
  {
    for y := 0 to input.rows
      invariant forall r, c :: 0 <= r < output.rows && 0 <= c < output.cols ==>
        output.data[r, c] == (r < y && c < input.cols && input.data[r, input.cols - 1 - c])
    {
      var rx, x := 0, input.cols - 1;
      while x >= 0
        invariant -1 <= x && rx == input.cols - 1 - x
        invariant forall r, c :: 0 <= r < output.rows && 0 <= c < output.cols ==>
          output.data[r, c] == ((r < y || (r == y && c < rx)) && c < input.cols && input.data[r, input.cols - 1 - c])
      {
        output.data[y, rx] := input.data[y, x];
        rx, x := rx + 1, x - 1;
      }
    }
  }

  method FlipCells(input: MatrixArea, output: MatrixArea)
    requires input.Valid() && output.Valid() && input.data != output.data
    requires input.rows <= output.rows && input.cols <= output.cols
    requires output.Blank()
    modifies output.data
    ensures forall y, x {:trigger output.Cell(y, x)} :: output.Cell(y, x) <==> input.Cell(input.rows - 1 - y, x)
  {
    for x := 0 to input.cols
      invariant forall r, c :: 0 <= r < output.rows && 0 <= c < output.cols ==>
        output.data[r, c] == (c < x && r < input.rows && input.data[input.rows - 1 - r, c])
    {
      var ry, y := 0, input.rows - 1;
      while y >= 0
        invariant -1 <= y && ry == input.rows - 1 - y
        invariant forall r, c :: 0 <= r < output.rows && 0 <= c < output.cols ==>
          output.data[r, c] == ((c < x || (c == x && r < ry)) && r < input.rows && input.data[input.rows - 1 - r, c])
      {
        output.data[ry, x] := input.data[y, x];
        ry, y := ry + 1, y - 1;
      }
    }
  }

  method RotateCells(input: MatrixArea, output: MatrixArea, op: MatrixOperation, center: int)
    requires input.Valid() && output.Valid() && input.data != output.data && input.CenterInside()
    requires op.Rotate90? || op.Rotate180? || op.Rotate270?
    requires output.rows == output.cols && output.rows / 2 - 1 == center
    requires output.rows >= 2 * input.rows && output.cols >= 2 * input.cols
    requires output.Blank()
    modifies output.data
    ensures forall y, x {:trigger output.Cell(y, x)} :: output.Cell(y, x) <==> input.Cell(SourceY(input.centerY, op, center, y, x), SourceX(input.centerX, op, center, y, x))
  {
    hide TurnedY, TurnedX, SourceY, SourceX, Inverse;
    for x := 0 to input.cols
      invariant forall r, c :: 0 <= r < output.rows && 0 <= c < output.cols ==>
        var sy, sx := SourceY(input.centerY, op, center, r, c), SourceX(input.centerX, op, center, r, c);
        output.data[r, c] == (0 <= sx < x && 0 <= sy < input.rows && input.data[sy, sx])
    {
      for y := 0 to input.rows
        invariant forall r, c :: 0 <= r < output.rows && 0 <= c < output.cols ==>
          var sy, sx := SourceY(input.centerY, op, center, r, c), SourceX(input.centerX, op, center, r, c);
          output.data[r, c] == (0 <= sx && (sx < x || (sx == x && sy < y)) && 0 <= sy < input.rows && input.data[sy, sx])
      {
        var newX, newY := x - input.centerX, y - input.centerY;
        TurnedOnce(op, input.centerY, input.centerX, center, y, x);
        TurnedInside(op, input.rows, input.cols, input.centerY, input.centerX, output.rows, y, x);
        output.data[TurnedY(op, newY, newX) + center, TurnedX(op, newY, newX) + center] := input.data[y, x];
      }
    }
    forall r, c {:trigger output.Cell(r, c)} | !(0 <= r < output.rows && 0 <= c < output.cols)
      ensures !input.Cell(SourceY(input.centerY, op, center, r, c), SourceX(input.centerX, op, center, r, c))
    {
      OutsideStaysOutside(op, input.rows, input.cols, input.centerY, input.centerX, output.rows, r, c);
    }
  }

  lemma SignedWord(n: int)
    requires -WORD / 2 <= n < WORD / 2
    ensures Signed(n % WORD) == n
  {
  }

  /** The output reaches what the input reaches after a reflection to the left and right, except that
      everything is moved by the difference of columns and rows.
   */
  ghost predicate Mirrored(input: MatrixArea, output: MatrixArea)
    reads input, output, input.data, output.data
  {
    forall dy, dx {:trigger output.Covers(dy, dx)} ::
      output.Covers(dy, dx) <==> input.Covers(dy, input.cols - input.rows - dx)
  }

  ghost predicate Flipped(input: MatrixArea, output: MatrixArea)
    reads input, output, input.data, output.data
  {
    forall dy, dx {:trigger output.Covers(dy, dx)} ::
      output.Covers(dy, dx) <==> input.Covers(input.rows - input.cols - dy, dx)
  }

  ghost predicate Rotated(input: MatrixArea, output: MatrixArea, op: MatrixOperation)
    reads input, output, input.data, output.data
  {
    forall dy, dx {:trigger output.Covers(dy, dx)} ::
      output.Covers(dy, dx) <==> input.Covers(TurnedY(Inverse(op), dy, dx), TurnedX(Inverse(op), dy, dx))
  }

  lemma MirroredCells(input: MatrixArea, output: MatrixArea)
    requires forall y, x {:trigger output.Cell(y, x)} :: output.Cell(y, x) <==> input.Cell(y, input.cols - 1 - x)
    requires Signed(output.centerY) == Signed(input.centerY)
    requires Signed(output.centerX) == input.rows - 1 - Signed(input.centerX)
    ensures Mirrored(input, output)
  {
  }

  lemma FlippedCells(input: MatrixArea, output: MatrixArea)
    requires forall y, x {:trigger output.Cell(y, x)} :: output.Cell(y, x) <==> input.Cell(input.rows - 1 - y, x)
    requires Signed(output.centerX) == Signed(input.centerX)
    requires Signed(output.centerY) == input.cols - 1 - Signed(input.centerY)
    ensures Flipped(input, output)
  {
  }

  lemma RotatedCells(input: MatrixArea, output: MatrixArea, op: MatrixOperation)
    requires output.centerY == output.centerX && input.CenterInside() && output.CenterInside() && input.Valid() && output.Valid()
    requires forall y, x {:trigger output.Cell(y, x)} :: output.Cell(y, x) <==>
      input.Cell(SourceY(input.centerY, op, output.centerY, y, x), SourceX(input.centerX, op, output.centerY, y, x))
    ensures Rotated(input, output, op)
  {
  }

  method CopyWhole(input: MatrixArea, output: MatrixArea)
    requires input.Valid() && output.Valid() && input != output && input.data != output.data && output.Blank()
    requires input.rows <= output.rows && input.cols <= output.cols && input.CenterInside()
    modifies output, output.data
    ensures output.Valid()
    ensures forall dy, dx {:trigger output.Covers(dy, dx)} :: output.Covers(dy, dx) <==> input.Covers(dy, dx)
  {
    CopyCells(input, output);
    output.SetCenter(input.centerY, input.centerX);
  }

  method MirrorArea(input: MatrixArea, output: MatrixArea)
    requires input.Valid() && output.Valid() && input != output && input.data != output.data && output.Blank()
    requires input.rows <= output.rows && input.cols <= output.cols && 0 <= input.centerX < input.cols
    modifies output, output.data
    ensures output.Valid() && Mirrored(input, output) && output.centerY == input.centerY
  {
    MirrorCells(input, output);
    SignedWord(input.rows - 1 - input.centerX);
    output.SetCenter(input.centerY, (input.rows - 1) - input.centerX);
    MirroredCells(input, output);
  }

  method FlipArea(input: MatrixArea, output: MatrixArea)
    requires input.Valid() && output.Valid() && input != output && input.data != output.data && output.Blank()
    requires input.rows <= output.rows && input.cols <= output.cols && 0 <= input.centerY < input.rows
    modifies output, output.data
    ensures output.Valid() && Flipped(input, output) && output.centerX == input.centerX
  {
    FlipCells(input, output);
    SignedWord(input.cols - 1 - input.centerY);
    output.SetCenter((input.cols - 1) - input.centerY, input.centerX);
    FlippedCells(input, output);
  }

  method RotateArea(input: MatrixArea, output: MatrixArea, op: MatrixOperation)
    requires input.Valid() && output.Valid() && input != output && input.data != output.data && output.Blank()
    requires input.rows <= output.rows && input.cols <= output.cols && input.CenterInside()
    requires op.Rotate90? || op.Rotate180? || op.Rotate270?
    requires output.rows == output.cols && output.rows >= 2 * input.rows && output.cols >= 2 * input.cols
    modifies output, output.data
    ensures output.Valid() && Rotated(input, output, op) && output.CenterInside()
  {
    hide Rotated, TurnedY, TurnedX, SourceY, SourceX, Inverse;
    var rotateCenterX, rotateCenterY := output.cols / 2 - 1, output.rows / 2 - 1;
    RotateCells(input, output, op, rotateCenterY);
    output.SetCenter(rotateCenterY, rotateCenterX);
    RotatedCells(input, output, op);
  }

  /** Copies an area into a blank one. A copy and a rotation keep the offsets of all cells about the
      centre; mirroring and flipping reflect them, but move them by the difference of rows and columns,
      because they take the one for the other when they set the centre.
   */
  method CopyArea(input: MatrixArea, output: MatrixArea, op: MatrixOperation)
    requires input.Valid() && output.Valid() && input != output && input.data != output.data
    requires (op.Mirror? || 0 <= input.centerY < input.rows) && (op.Flip? || 0 <= input.centerX < input.cols)
    requires input.rows <= output.rows && input.cols <= output.cols
    requires op.Rotate90? || op.Rotate180? || op.Rotate270? ==>
      output.rows == output.cols && output.rows >= 2 * input.rows && output.cols >= 2 * input.cols
    requires output.Blank()
    modifies output, output.data
    ensures output.Valid()
    ensures op.Copy? ==> forall dy, dx {:trigger output.Covers(dy, dx)} :: output.Covers(dy, dx) <==> input.Covers(dy, dx)
    ensures op.Mirror? ==> Mirrored(input, output) && output.centerY == input.centerY
    ensures op.Flip? ==> Flipped(input, output) && output.centerX == input.centerX
    ensures op.Rotate90? || op.Rotate180? || op.Rotate270? ==> Rotated(input, output, op) && output.CenterInside()
  {
    hide Mirrored, Flipped, Rotated, TurnedY, TurnedX, SourceY, SourceX, Inverse;
    match op {
      case Copy => CopyWhole(input, output);
      case Mirror => MirrorArea(input, output);
      case Flip => FlipArea(input, output);
      case _ => RotateArea(input, output, op);
    }
  }

  /** The output reaches exactly the reflections of the tiles the input reaches. */
  ghost predicate ReflectsColumns(input: MatrixArea, output: MatrixArea)
    reads input, output, input.data, output.data
  {
    forall dy, dx {:trigger output.Covers(dy, dx)} :: output.Covers(dy, dx) <==> input.Covers(dy, -dx)
  }

  ghost predicate ReflectsRows(input: MatrixArea, output: MatrixArea)
    reads input, output, input.data, output.data
  {
    forall dy, dx {:trigger output.Covers(dy, dx)} :: output.Covers(dy, dx) <==> input.Covers(-dy, dx)
  }

  predicate Periodic(s: set<int>, period: int) {
    forall n {:trigger n in s} :: n in s ==> n + period in s
  }

  lemma PeriodStep(s: set<int>, period: int, n: int)
    requires Periodic(s, period) && n in s
    ensures n + period in s
  {
  }

  predicate Within(s: set<int>, low: int, high: int) {
    forall n :: n in s ==> low <= n <= high
  }

  /** What repeats itself upwards below a bound, or downwards above one, has no element. */
  lemma {:induction false} Squeezed(s: set<int>, period: int, low: int, high: int)
    requires period != 0 && Periodic(s, period) && Within(s, low, high)
    ensures s == {}
    decreases high - low
  {
    hide Periodic;
    forall n | n in s
      ensures if period > 0 then low <= n <= high - 1 else low + 1 <= n <= high
    {
      PeriodStep(s, period, n);
    }
    if low <= high {
      if period > 0 {
        Squeezed(s, period, low, high - 1);
      } else {
        Squeezed(s, period, low + 1, high);
      }
    } else {
      assert forall n :: n !in s;
    }
  }

  ghost function RowOf(area: MatrixArea, y: int): set<int>
    reads area, area.data
  {
    set x | 0 <= x < area.data.Length1 && area.Cell(y, x)
  }

  ghost function ColumnOf(area: MatrixArea, x: int): set<int>
    reads area, area.data
  {
    set y | 0 <= y < area.data.Length0 && area.Cell(y, x)
  }

  lemma EmptyRow(input: MatrixArea, output: MatrixArea, y: int)
    requires Mirrored(input, output) && ReflectsColumns(input, output) && input.rows != input.cols && input.Valid()
    ensures RowOf(input, y) == {}
  {
    var s, shift := RowOf(input, y), input.cols - input.rows;
    forall n | n in s
      ensures n + shift in s
    {
      MovedInRow(input, output, y - Signed(input.centerY), n - Signed(input.centerX));
    }
    Squeezed(s, shift, 0, input.cols);
  }

  lemma MovedInRow(input: MatrixArea, output: MatrixArea, dy: int, dx: int)
    requires Mirrored(input, output) && ReflectsColumns(input, output)
    ensures input.Covers(dy, dx) <==> input.Covers(dy, input.cols - input.rows + dx)
  {
    assert output.Covers(dy, -dx) <==> input.Covers(dy, dx);
  }

  lemma EmptyColumn(input: MatrixArea, output: MatrixArea, x: int)
    requires Flipped(input, output) && ReflectsRows(input, output) && input.rows != input.cols && input.Valid()
    ensures ColumnOf(input, x) == {}
  {
    var s, shift := ColumnOf(input, x), input.rows - input.cols;
    forall n | n in s
      ensures n + shift in s
    {
      MovedInColumn(input, output, n - Signed(input.centerY), x - Signed(input.centerX));
    }
    Squeezed(s, shift, 0, input.rows);
  }

  lemma MovedInColumn(input: MatrixArea, output: MatrixArea, dy: int, dx: int)
    requires Flipped(input, output) && ReflectsRows(input, output)
    ensures input.Covers(dy, dx) <==> input.Covers(input.rows - input.cols + dy, dx)
  {
    assert output.Covers(-dy, dx) <==> input.Covers(dy, dx);
  }

  lemma BlankCovers(area: MatrixArea)
    requires area.Blank()
    ensures forall dy, dx {:trigger area.Covers(dy, dx)} :: !area.Covers(dy, dx)
  {
  }

  /** The mirrored copy is an exact reflection exactly if the matrix is a square, or nothing is set. */
  lemma MirrorExact(input: MatrixArea, output: MatrixArea)
    requires input.Valid() && Mirrored(input, output)
    ensures ReflectsColumns(input, output) <==> input.rows == input.cols || input.Blank()
  {
    if input.rows == input.cols {
    } else if input.Blank() {
      BlankCovers(input);
    } else if ReflectsColumns(input, output) {
      forall y, x | 0 <= y < input.rows && 0 <= x < input.cols
        ensures !input.data[y, x]
      {
        EmptyRow(input, output, y);
        assert x !in RowOf(input, y);
      }
    }
  }

  /** The flipped copy is an exact reflection exactly if the matrix is a square, or nothing is set. */
  lemma FlipExact(input: MatrixArea, output: MatrixArea)
    requires input.Valid() && Flipped(input, output)
    ensures ReflectsRows(input, output) <==> input.rows == input.cols || input.Blank()
  {
    if input.rows == input.cols {
    } else if input.Blank() {
      BlankCovers(input);
    } else if ReflectsRows(input, output) {
      forall y, x | 0 <= y < input.rows && 0 <= x < input.cols
        ensures !input.data[y, x]
      {
        EmptyColumn(input, output, x);
        assert y !in ColumnOf(input, x);
      }
    }
  }

  /** How many cells lie in the rows before a row. */
  function Before(cols: nat, y: nat): (n: nat)
    ensures n == y * cols
  {
    if y == 0 then 0 else Before(cols, y - 1) + cols
  }

  /** The place of a cell in the list of all cells, row by row. */
  function Place(cols: nat, y: nat, x: int): int {
    Before(cols, y) + x
  }

  lemma {:induction false} RowsApart(cols: nat, y: nat, r: nat)
    requires r < y
    ensures Before(cols, r) + cols <= Before(cols, y)
  {
    if r < y - 1 {
      RowsApart(cols, y - 1, r);
    }
  }

  lemma PlaceOrder(cols: nat, y: nat, x: int, r: nat, c: int)
    requires 0 <= x < cols && 0 <= c < cols
    ensures Place(cols, r, c) < Place(cols, y, x) <==> r < y || (r == y && c < x)
  {
    if r < y {
      RowsApart(cols, y, r);
    } else if r > y {
      RowsApart(cols, r, y);
    }
  }

  lemma CellCount(n: nat, rows: nat)
    requires rows > 0 && n % rows == 0
    ensures Before(n / rows, rows) == n
  {
  }

  lemma SquareList(n: nat, rows: nat)
    requires rows > 0 && n % rows == 0
    ensures n / rows == rows <==> n == rows * rows
  {
    CellCount(n, rows);
    var cols := n / rows;
    assert cols * rows == n;
    if cols < rows {
      RowsApart(rows, rows, cols);
    } else if rows < cols {
      RowsApart(rows, cols, rows);
    }
  }

  lemma PlaceInside(cols: nat, rows: nat, y: nat, x: int)
    requires 0 <= x < cols
    ensures 0 <= Place(cols, y, x) < Before(cols, rows) <==> y < rows
  {
    if y < rows {
      RowsApart(cols, rows, y);
    } else if y > rows {
      RowsApart(cols, y, rows);
    }
  }

  lemma PlaceStep(cols: nat, y: nat, x: int)
    ensures Place(cols, 0, 0) == 0
    ensures Place(cols, y, x + 1) == Place(cols, y, x) + 1
    ensures x + 1 == cols ==> Place(cols, y + 1, 0) == Place(cols, y, x) + 1
  {
  }

  predicate IsSet(list: seq<int>, k: int) {
    0 <= k < |list| && (list[k] == 1 || list[k] == 3)
  }

  lemma SetStep(list: seq<int>, i: nat, k: int)
    requires i < |list|
    ensures IsSet(list[..i + 1], k) == if k == i then list[i] == 1 || list[i] == 3 else IsSet(list[..i], k)
  {
  }

  lemma NotYetSet(list: seq<int>, i: nat)
    requires i < |list|
    ensures !IsSet(list[..i], i)
  {
  }

  /** The last place marked as the centre, or the first place. */
  predicate IsCenter(list: seq<int>, k: int) {
    && 0 <= k < |list|
    && (list[k] == 2 || list[k] == 3 || k == 0)
    && forall j :: k < j < |list| ==> list[j] != 2 && list[j] != 3
  }

  lemma CellStep(list: seq<int>, cols: nat, y: nat, x: int, i: nat)
    requires i < |list| && 0 <= x < cols && Place(cols, y, x) == i
    ensures forall r: nat, c: nat {:trigger IsSet(list[..i + 1], Place(cols, r, c))} :: c < cols ==>
      IsSet(list[..i + 1], Place(cols, r, c))
      == if r == y && c == x then list[i] == 1 || list[i] == 3 else IsSet(list[..i], Place(cols, r, c))
  {
    hide Place, Before, IsSet;
    forall r: nat, c: nat {:trigger IsSet(list[..i + 1], Place(cols, r, c))} | c < cols
      ensures IsSet(list[..i + 1], Place(cols, r, c))
              == if r == y && c == x then list[i] == 1 || list[i] == 3 else IsSet(list[..i], Place(cols, r, c))
    {
      PlaceOrder(cols, y, x, r, c);
      PlaceOrder(cols, r, c, y, x);
      SetStep(list, i, Place(cols, r, c));
    }
  }

  lemma CenterStep(list: seq<int>, i: nat, k: int)
    requires i < |list| && (if i == 0 then k == 0 else IsCenter(list[..i], k))
    ensures IsCenter(list[..i + 1], if list[i] == 2 || list[i] == 3 then i else k)
  {
  }

  /** Where the values of a list go: to the next column, and to the next row when a row is full. */
  function Cursor(cols: nat, i: nat): (nat, nat) {
    if i == 0 then (0, 0)
    else
      var (y, x) := Cursor(cols, i - 1);
      if x + 1 == cols then (y + 1, 0) else (y, x + 1)
  }

  lemma {:induction false} CursorAt(cols: nat, i: nat)
    ensures var (y, x) := Cursor(cols, i);
      && (cols > 0 ==> x < cols && Place(cols, y, x) == i)
      && (cols == 0 ==> (y, x) == (0, i))
    decreases i
  {
    PlaceStep(cols, 0, 0);
    if i > 0 {
      CursorAt(cols, i - 1);
      var (y, x) := Cursor(cols, i - 1);
      PlaceStep(cols, y, x);
    }
  }

  /** Every cell that createArea sets lies in its matrix exactly if nothing is set behind the last full row. */
  lemma WritesInside(list: seq<int>, rows: nat)
    requires rows > 0
    ensures var cols := |list| / rows;
      (forall i: nat :: IsSet(list, i) ==> Cursor(cols, i).0 < rows && Cursor(cols, i).1 < cols)
      <==> forall i: nat :: IsSet(list, i) ==> i < Before(cols, rows)
  {
    hide Place, Before, IsSet, Cursor;
    var cols := |list| / rows;
    forall i: nat
      ensures Cursor(cols, i).0 < rows && Cursor(cols, i).1 < cols <==> i < Before(cols, rows)
    {
      CursorAt(cols, i);
      if cols > 0 {
        PlaceInside(cols, rows, Cursor(cols, i).0, Cursor(cols, i).1);
      } else {
        NoRoom(rows);
      }
    }
  }

  lemma NoRoom(rows: nat)
    ensures Before(0, rows) == 0
  {
  }

  /** The list gives full rows; the code that sets up an area writes past its matrix otherwise. */
  predicate WellShaped(list: seq<int>, rows: nat) {
    0 < rows < LIMIT / 4 && list != [] && |list| % rows == 0 && |list| / rows < LIMIT / 4
  }

  /** The matrix has the cells and the centre the list gives. */
  ghost predicate Depicts(area: MatrixArea, list: seq<int>)
    reads area, area.data
  {
    && (forall y, x {:trigger area.Cell(y, x)} :: 0 <= y < area.data.Length0 && 0 <= x < area.data.Length1 ==>
          area.Cell(y, x) == IsSet(list, Place(area.data.Length1, y, x)))
    && area.centerY >= 0 && IsCenter(list, Place(area.data.Length1, area.centerY, area.centerX))
  }

  ghost predicate CellsSoFar(area: MatrixArea, list: seq<int>)
    reads area.data
  {
    forall y, x {:trigger area.data[y, x]} :: 0 <= y < area.data.Length0 && 0 <= x < area.data.Length1 ==>
      area.data[y, x] == IsSet(list, Place(area.data.Length1, y, x))
  }

  lemma CellsDepict(area: MatrixArea, list: seq<int>)
    requires CellsSoFar(area, list) && area.centerY >= 0 && IsCenter(list, Place(area.data.Length1, area.centerY, area.centerX))
    ensures Depicts(area, list)
  {
  }

  method SetCell(area: MatrixArea, list: seq<int>, i: nat, y: nat, x: nat)
    requires i < |list| && y < area.data.Length0 && x < area.data.Length1
    requires Place(area.data.Length1, y, x) == i && CellsSoFar(area, list[..i])
    modifies area.data
    ensures CellsSoFar(area, list[..i + 1])
  {
    hide Place, Before, IsSet;
    CellStep(list, area.data.Length1, y, x, i);
    NotYetSet(list, i);
    if list[i] == 1 || list[i] == 3 {
      area.data[y, x] := true;
    }
  }

  lemma NoCells(area: MatrixArea, list: seq<int>)
    requires area.Blank()
    ensures CellsSoFar(area, list[..0])
  {
  }

  /** Enters one value of the list: 1 and 3 set the cell, 2 and 3 make it the centre. */
  method EnterCell(area: MatrixArea, list: seq<int>, i: nat, y: nat, x: nat)
    requires area.Valid() && area.CenterInside() && y < area.rows && x < area.cols
    requires i < |list| && Place(area.cols, y, x) == i && CellsSoFar(area, list[..i])
    requires if i == 0 then area.centerY == 0 && area.centerX == 0 else IsCenter(list[..i], Place(area.cols, area.centerY, area.centerX))
    modifies area, area.data
    ensures area.Valid() && area.CenterInside() && CellsSoFar(area, list[..i + 1])
    ensures IsCenter(list[..i + 1], Place(area.cols, area.centerY, area.centerX))
  {
    hide Place, Before, IsSet, IsCenter, CellsSoFar;
    PlaceStep(area.cols, y, x);
    CenterStep(list, i, Place(area.cols, area.centerY, area.centerX));
    SetCell(area, list, i, y, x);
    if list[i] == 2 || list[i] == 3 {
      area.SetCenter(y, x);
    }
  }

  /** The matrix of a list that gives every cell: 1 is set, 2 the centre, 3 both. */
  method CreateArea(list: seq<int>, rows: nat) returns (area: MatrixArea)
    requires WellShaped(list, rows)
    ensures fresh(area) && fresh(area.data) && area.Valid() && area.CenterInside()
    ensures area.rows == rows && area.cols == |list| / rows && Depicts(area, list)
  {
    hide Place, Before, IsSet, IsCenter, CellsSoFar;
    var cols := |list| / rows;
    CellCount(|list|, rows);
    area := new MatrixArea(rows, cols);
    var x, y := 0, 0;
    PlaceStep(cols, 0, 0);
    NoCells(area, list);
    for i := 0 to |list|
      invariant 0 <= x < cols && 0 <= y && Place(cols, y, x) == i
      invariant area.Valid() && area.CenterInside() && CellsSoFar(area, list[..i])
      invariant if i == 0 then area.centerY == 0 && area.centerX == 0 else IsCenter(list[..i], Place(cols, area.centerY, area.centerX))
    {
      PlaceInside(cols, rows, y, x);
      PlaceStep(cols, y, x);
      EnterCell(area, list, i, y, x);
      x := x + 1;
      if cols == x {
        x := 0;
        y := y + 1;
      }
    }
    assert list[..|list|] == list;
    CellsDepict(area, list);
  }

  /** A fresh square matrix with a copy of the area. */
  method Derive(area: MatrixArea, op: MatrixOperation, maxOutput: nat) returns (output: MatrixArea)
    requires area.Valid() && area.rows <= maxOutput && area.cols <= maxOutput < LIMIT && !op.Copy?
    requires op.Mirror? || op.Flip? || (2 * area.rows <= maxOutput && 2 * area.cols <= maxOutput)
    requires (op.Mirror? || 0 <= area.centerY < area.rows) && (op.Flip? || 0 <= area.centerX < area.cols)
    ensures fresh(output) && fresh(output.data) && output.Valid() && output.rows == output.cols == maxOutput
    ensures op.Mirror? ==> Mirrored(area, output) && output.centerY == area.centerY
    ensures op.Flip? ==> Flipped(area, output) && output.centerX == area.centerX
    ensures op.Rotate90? || op.Rotate180? || op.Rotate270? ==> Rotated(area, output, op)
  {
    hide Mirrored, Flipped, Rotated;
    output := new MatrixArea(maxOutput, maxOutput);
    CopyArea(area, output, op);
  }

  /** An area to the north and its three rotations. */
  method Turns(list: seq<int>, rows: nat) returns (area: MatrixArea, southArea: MatrixArea, eastArea: MatrixArea, westArea: MatrixArea)
    requires WellShaped(list, rows)
    ensures area.Valid() && southArea.Valid() && eastArea.Valid() && westArea.Valid()
    ensures Depicts(area, list) && area.rows == rows && area.cols == |list| / rows
    ensures Rotated(area, southArea, Rotate180) && Rotated(area, eastArea, Rotate90) && Rotated(area, westArea, Rotate270)
  {
    hide Rotated, Depicts;
    area := CreateArea(list, rows);
    var maxOutput := (if area.cols > area.rows then area.cols else area.rows) * 2;
    southArea := Derive(area, Rotate180, maxOutput);
    eastArea := Derive(area, Rotate90, maxOutput);
    westArea := Derive(area, Rotate270, maxOutput);
  }

  /** An area to the north-west and its copies for the other corners; the last is always a reflection of the third. */
  method Corners(list: seq<int>, rows: nat) returns (area: MatrixArea, neArea: MatrixArea, swArea: MatrixArea, seArea: MatrixArea)
    requires WellShaped(list, rows)
    ensures area.Valid() && neArea.Valid() && swArea.Valid() && seArea.Valid()
    ensures Depicts(area, list) && area.rows == rows && area.cols == |list| / rows
    ensures Mirrored(area, neArea) && Flipped(area, swArea) && ReflectsColumns(swArea, seArea)
    ensures var exact := |list| == rows * rows || area.Blank();
      (ReflectsColumns(area, neArea) <==> exact) && (ReflectsRows(area, swArea) <==> exact)
  {
    hide Mirrored, Flipped, Depicts, ReflectsColumns, ReflectsRows, MatrixArea.Blank;
    area := CreateArea(list, rows);
    SquareList(|list|, rows);
    var maxOutput := (if area.cols > area.rows then area.cols else area.rows) * 2;
    neArea := Derive(area, Mirror, maxOutput);
    swArea := Derive(area, Flip, maxOutput);
    seArea := Derive(swArea, Mirror, maxOutput);
    MirrorExact(area, neArea);
    FlipExact(area, swArea);
    MirrorExact(swArea, seArea);
  }

  /** An area of one row, with its centre in front: the copies to the other corners are no reflections of it. */
  method CornersMissed() returns (area: MatrixArea, neArea: MatrixArea, swArea: MatrixArea)
    ensures area.Valid() && Depicts(area, [3, 1]) && Mirrored(area, neArea) && Flipped(area, swArea)
    ensures !ReflectsColumns(area, neArea) && !ReflectsRows(area, swArea)
  {
    hide Mirrored, Flipped, ReflectsColumns, ReflectsRows;
    var seArea;
    area, neArea, swArea, seArea := Corners([3, 1], 1);
    assert area.Cell(0, 0) == IsSet([3, 1], Place(2, 0, 0));
  }

  datatype Direction = North | East | South | West | NorthWest | NorthEast | SouthWest | SouthEast

  /** A step into a direction; y grows to the south. */
  function Toward(d: Direction): (int, int) {
    match d
    case North => (0, -1)
    case East => (1, 0)
    case South => (0, 1)
    case West => (-1, 0)
    case NorthWest => (-1, -1)
    case NorthEast => (1, -1)
    case SouthWest => (-1, 1)
    case SouthEast => (1, 1)
  }

  function Sign(n: int): int { if n < 0 then -1 else if n == 0 then 0 else 1 }

  /** The direction from the attacker to its target: without areas for the corners, a corner counts as its side, and the
      own place as south.
   */
  function Facing(dx: int, dy: int, hasExtArea: bool): (d: Direction)
    ensures Toward(d) == if dx == 0 && dy == 0 then (0, 1) else (Sign(dx), if dx == 0 || hasExtArea then Sign(dy) else 0)
  {
    if hasExtArea && dx < 0 && dy < 0 then NorthWest
    else if hasExtArea && dx > 0 && dy < 0 then NorthEast
    else if hasExtArea && dx < 0 && dy > 0 then SouthWest
    else if hasExtArea && dx > 0 && dy > 0 then SouthEast
    else if dx < 0 then West
    else if dx > 0 then East
    else if dy < 0 then North
    else South
  }

  datatype Position = Position(x: int, y: int, z: int)

  const MAP_SIDE: int := 0xFFFF
  const MAP_MAX_LAYERS: int := 16

  predicate OnMap(p: Position) {
    0 <= p.x < MAP_SIDE && 0 <= p.y < MAP_SIDE && 0 <= p.z < MAP_MAX_LAYERS
  }

  class AreaCombat {
    var areas: map<Direction, MatrixArea>
    var hasExtArea: bool

    constructor ()
      ensures Valid() && areas == map[] && !hasExtArea
    {
      areas, hasExtArea := map[], false;
    }

    /** All areas are valid, as an attack needs them. */
    ghost predicate Valid()
      reads this, areas.Values
    {
      forall d :: d in areas ==> areas[d].Valid()
    }

    /** The areas of the four directions are the one to the north, turned. */
    ghost predicate Turned()
      reads this, areas.Values, set d | d in areas :: areas[d].data
    {
      && North in areas && East in areas && South in areas && West in areas
      && Rotated(areas[North], areas[East], Rotate90)
      && Rotated(areas[North], areas[South], Rotate180)
      && Rotated(areas[North], areas[West], Rotate270)
    }

    /** The areas of the four corners: each is the reflection of another, moved as the size requires. */
    ghost predicate Cornered()
      reads this, areas.Values, set d | d in areas :: areas[d].data
    {
      && NorthWest in areas && NorthEast in areas && SouthWest in areas && SouthEast in areas
      && Mirrored(areas[NorthWest], areas[NorthEast])
      && Flipped(areas[NorthWest], areas[SouthWest])
      && ReflectsColumns(areas[SouthWest], areas[SouthEast])
    }

    method SetupArea(list: seq<int>, rows: nat)
      requires Valid() && WellShaped(list, rows)
      modifies this`areas
      ensures Valid()
      ensures areas.Keys == old(areas.Keys) + {North, East, South, West}
      ensures forall d :: d in old(areas) && d !in {North, East, South, West} ==> areas[d] == old(areas[d])
      ensures Turned() && Depicts(areas[North], list) && areas[North].rows == rows && areas[North].cols == |list| / rows
    {
      hide Rotated, Depicts, MatrixArea.Valid;
      var area, southArea, eastArea, westArea := Turns(list, rows);
      areas := areas[North := area][South := southArea][East := eastArea][West := westArea];
    }

    method SetupExtArea(list: seq<int>, rows: nat)
      requires Valid() && (list == [] || WellShaped(list, rows))
      modifies this
      ensures Valid()
      ensures list == [] ==> areas == old(areas) && hasExtArea == old(hasExtArea)
      ensures list != [] ==>
        hasExtArea && Cornered() && Depicts(areas[NorthWest], list) && areas[NorthWest].rows == rows && areas[NorthWest].cols == |list| / rows
      ensures list != [] ==>
        var exact := |list| == rows * rows || areas[NorthWest].Blank();
        (ReflectsColumns(areas[NorthWest], areas[NorthEast]) <==> exact) && (ReflectsRows(areas[NorthWest], areas[SouthWest]) <==> exact)
      ensures list != [] ==> areas.Keys == old(areas.Keys) + {NorthWest, NorthEast, SouthWest, SouthEast}
      ensures forall d :: d in old(areas) && d !in {NorthWest, NorthEast, SouthWest, SouthEast} ==> areas[d] == old(areas[d])
    {
      hide Mirrored, Flipped, Depicts, ReflectsColumns, ReflectsRows, MatrixArea.Valid, MatrixArea.Blank;
      if list == [] { return; }
      hasExtArea := true;
      var area, neArea, swArea, seArea := Corners(list, rows);
      areas := areas[NorthWest := area][NorthEast := neArea][SouthWest := swArea][SouthEast := seArea];
    }

    /** The tiles an attack reaches: those of the area of its direction that are on the map and in sight. */
    method GetList(blocked: bool, centerPos: Position, targetPos: Position, sight: set<Position>)
      returns (ok: bool, list: seq<Position>)
      requires Valid() && OnMap(targetPos)
      ensures var dir := Facing(targetPos.x - centerPos.x, targetPos.y - centerPos.y, hasExtArea);
        && ok == (!blocked && dir in areas)
        && (!ok ==> list == [])
        && (ok ==> forall p {:trigger p in list} :: p in list <==>
              && p.z == targetPos.z && 0 <= p.x < MAP_SIDE && 0 <= p.y < MAP_SIDE && 0 <= p.z < MAP_MAX_LAYERS && p in sight
              && areas[dir].Covers(p.y - targetPos.y, p.x - targetPos.x))
      ensures forall i, j :: 0 <= i < j < |list| ==> list[i] != list[j]
    {
      list := [];
      var dir := Facing(targetPos.x - centerPos.x, targetPos.y - centerPos.y, hasExtArea);
      if blocked || dir !in areas {
        return false, [];
      }
      var area := areas[dir];
      var startX, startY := Signed((targetPos.x - area.centerX) % WORD), Signed((targetPos.y - area.centerY) % WORD);
      SignedDifference(targetPos.x, area.centerX);
      SignedDifference(targetPos.y, area.centerY);
      for y := 0 to area.rows
        invariant forall p {:trigger p in list} :: p in list <==> Reached(area, p, startY, startX, targetPos.z, sight, y, 0)
        invariant forall i, j :: 0 <= i < j < |list| ==> list[i] != list[j]
      {
        for x := 0 to area.cols
          invariant forall p {:trigger p in list} :: p in list <==> Reached(area, p, startY, startX, targetPos.z, sight, y, x)
          invariant forall i, j :: 0 <= i < j < |list| ==> list[i] != list[j]
        {
          var p := Position(startX + x, startY + y, targetPos.z);
          assert p !in list by { assert !Reached(area, p, startY, startX, targetPos.z, sight, y, x); }
          if area.data[y, x] && OnMap(p) && p in sight {
            list := list + [p];
          }
        }
      }
      return true, list;
    }
  }

  lemma SignedDifference(t: int, word: int)
    requires 0 <= t < MAP_SIDE && 0 <= word < WORD && -LIMIT <= Signed(word) < LIMIT
    ensures Signed((t - word) % WORD) == t - Signed(word)
  {
    SignedWord(t - Signed(word));
    assert (t - word) % WORD == (t - Signed(word)) % WORD;
  }

  /** The position is one the scan of an area has reported before a cell. */
  ghost predicate Reached(area: MatrixArea, p: Position, startY: int, startX: int, z: int, sight: set<Position>, y: int, x: int)
    reads area.data
  {
    && p.z == z && OnMap(p) && p in sight && area.Cell(p.y - startY, p.x - startX)
    && (p.y - startY < y || (p.y - startY == y && p.x - startX < x))
  }
}
