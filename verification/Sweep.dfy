/** The serpentine sweep of src/ddl/servo/servo_fsm.c: along a row, one row up,
    back along the next row, and home again after the last one. */
module Sweep {

  /** The scan registers: both angles and the horizontal direction. */
  datatype Scan = Scan(hor: real, ver: real, increasing: bool)

  /** The scanned rectangle and the step between two stops. */
  datatype Range = Range(horMin: real, horMax: real, verMin: real, verMax: real, step: real)

  /** The rectangle the servos sweep. */
  const SERVO_RANGE := Range(5.0, 175.0, 45.0, 135.0, 5.0)

  function Home(r: Range): Scan {
    Scan(r.horMin, r.verMin, true)
  }

  /** One call of `servo_scan_operation`. */
  function Next(r: Range, s: Scan): Scan {
    if s.increasing && s.hor < r.horMax then s.(hor := s.hor + r.step)
    else if !s.increasing && s.hor > r.horMin then s.(hor := s.hor - r.step)
    else if s.ver < r.verMax then s.(ver := s.ver + r.step, increasing := !s.increasing)
    else Home(r)
  }

  function After(r: Range, s: Scan, calls: nat): Scan {
    if calls == 0 then s else Next(r, After(r, s, calls - 1))
  }

  // --------------------------------------------------- sweeping a whole grid

  /** The angle `n` steps from `base`. */
  function Angle(base: real, n: nat, step: real): real {
    if n == 0 then base else Angle(base, n - 1, step) + step
  }

  lemma {:induction false} AngleClosed(base: real, n: nat, step: real)
    ensures Angle(base, n, step) == base + n as real * step
  {
    if n > 0 {
      AngleClosed(base, n - 1, step);
      assert n as real == (n - 1) as real + 1.0;
    }
  }

  lemma {:induction false} AngleMonotone(a: nat, b: nat, base: real, step: real)
    requires a < b && 0.0 < step
    ensures Angle(base, a, step) < Angle(base, b, step)
    decreases b
  {
    if a < b - 1 {
      AngleMonotone(a, b - 1, base, step);
    }
  }

  lemma AngleInjective(a: nat, b: nat, base: real, step: real)
    requires 0.0 < step
    ensures Angle(base, a, step) == Angle(base, b, step) <==> a == b
  {
    if a < b {
      AngleMonotone(a, b, base, step);
    } else if b < a {
      AngleMonotone(b, a, base, step);
    }
  }

  /** A rectangle of `cols` by `rows` stops. */
  function GridRange(horMin: real, verMin: real, step: real, cols: nat, rows: nat): Range
    requires 0 < cols && 0 < rows
  {
    Range(horMin, Angle(horMin, cols - 1, step), verMin, Angle(verMin, rows - 1, step), step)
  }

  /** The row and the place in it of stop number `k`, counting along each row in
      the direction it is swept. */
  function Place(cols: nat, k: nat): (p: (nat, nat))
    requires 0 < cols
    ensures p.1 < cols && k == p.0 * cols + p.1
  {
    if k == 0 then (0, 0)
    else
      var (row, off) := Place(cols, k - 1);
      if off < cols - 1 then (row, off + 1)
      else
        assert (row + 1) * cols == row * cols + cols;
        (row + 1, 0)
  }

  lemma MulLess(a: int, b: int, c: nat)
    requires a < b
    ensures a * c + c <= b * c
  {
    ProductSplit(a, b - a - 1, c);
  }

  lemma ProductSplit(a: int, d: nat, c: nat)
    ensures (a + d + 1) * c == a * c + d * c + c && 0 <= d * c
  {
  }

  /** A number has one row and one place in it. */
  lemma PlaceUnique(cols: nat, k: nat, row: nat, off: nat)
    requires off < cols && k == row * cols + off
    ensures Place(cols, k) == (row, off)
  {
    var p := Place(cols, k);
    if p.0 < row {
      MulLess(p.0, row, cols);
    } else if row < p.0 {
      MulLess(row, p.0, cols);
    }
  }

  /** Even rows run left to right, odd ones right to left. */
  function Column(cols: nat, row: nat, off: nat): nat
    requires off < cols
  {
    if row % 2 == 0 then off else cols - 1 - off
  }

  /** Stop number `k` of the serpentine. */
  function Stop(r: Range, cols: nat, k: nat): Scan
    requires 0 < cols
  {
    var (row, off) := Place(cols, k);
    Scan(Angle(r.horMin, Column(cols, row, off), r.step), Angle(r.verMin, row, r.step), row % 2 == 0)
  }

  /** The stops of a grid are numbered below cols*rows; the last is the end of the
      top row. */
  lemma LastPlace(cols: nat, rows: nat, k: nat)
    requires 0 < cols && k < cols * rows
    ensures var (row, off) := Place(cols, k);
      row < rows && (k + 1 == cols * rows <==> row == rows - 1 && off == cols - 1)
  {
    var (row, off) := Place(cols, k);
    assert cols * rows == rows * cols;
    RowBelow(cols, rows, k, row, off);
  }

  lemma RowBelow(cols: nat, rows: nat, k: nat, row: nat, off: nat)
    requires off < cols && k == row * cols + off && k < rows * cols
    ensures row < rows && (k + 1 == rows * cols <==> row == rows - 1 && off == cols - 1)
  {
    if rows < row {
      MulLess(rows, row, cols);
    } else if row < rows - 1 {
      MulLess(row, rows - 1, cols);
      MulLess(rows - 1, rows, cols);
    } else {
      ProductSplit(row, 0, cols);
    }
  }

  /** One call moves the sweep from a stop to the next, and from the last home. */
  lemma {:induction false} StopNext(horMin: real, verMin: real, step: real, cols: nat, rows: nat, k: nat)
    requires 0 < cols && 0 < rows && 0.0 < step && k < cols * rows
    ensures var r := GridRange(horMin, verMin, step, cols, rows);
      Next(r, Stop(r, cols, k)) == if k + 1 < cols * rows then Stop(r, cols, k + 1) else Home(r)
  {
    var (row, off) := Place(cols, k);
    LastPlace(cols, rows, k);
    if off < cols - 1 {
      AlongRow(horMin, verMin, step, cols, rows, k);
    } else if row < rows - 1 {
      AngleMonotone(row, rows - 1, verMin, step);
    }
  }

  lemma AlongRow(horMin: real, verMin: real, step: real, cols: nat, rows: nat, k: nat)
    requires 0 < cols && 0 < rows && 0.0 < step && k < cols * rows && Place(cols, k).1 < cols - 1
    ensures var r := GridRange(horMin, verMin, step, cols, rows);
      Next(r, Stop(r, cols, k)) == Stop(r, cols, k + 1)
  {
    var (row, off) := Place(cols, k);
    var col := Column(cols, row, off);
    if row % 2 == 0 {
      AngleMonotone(col, cols - 1, horMin, step);
    } else {
      AngleMonotone(0, col, horMin, step);
    }
  }

  lemma {:induction false} SweepStops(horMin: real, verMin: real, step: real, cols: nat, rows: nat, k: nat)
    requires 0 < cols && 0 < rows && 0.0 < step && k < cols * rows
    ensures var r := GridRange(horMin, verMin, step, cols, rows); After(r, Home(r), k) == Stop(r, cols, k)
  {
    if k > 0 {
      SweepStops(horMin, verMin, step, cols, rows, k - 1);
      StopNext(horMin, verMin, step, cols, rows, k - 1);
    }
  }

  /** The call that visits column `col` of row `row`. */
  function VisitOf(cols: nat, col: nat, row: nat): nat
    requires col < cols
  {
    row * cols + Column(cols, row, col)
  }

  /** A stop is at a given cell. */
  predicate At(r: Range, s: Scan, col: nat, row: nat) {
    s.hor == Angle(r.horMin, col, r.step) && s.ver == Angle(r.verMin, row, r.step)
  }

  lemma CellOf(r: Range, cols: nat, k: nat, col: nat, row: nat)
    requires 0.0 < r.step && col < cols
    ensures At(r, Stop(r, cols, k), col, row) <==> k == VisitOf(cols, col, row)
  {
    var (krow, koff) := Place(cols, k);
    AngleInjective(Column(cols, krow, koff), col, r.horMin, r.step);
    AngleInjective(krow, row, r.verMin, r.step);
    PlaceUnique(cols, VisitOf(cols, col, row), row, Column(cols, row, col));
  }

  /** Starting at home, the first cols*rows stops visit every cell of the grid
      exactly once, and the next call is home again: for any grid, the k-th stop
      is at a given cell exactly when k is that cell's visit number. */
  lemma {:induction false} SweepVisitsAll(
    horMin: real, verMin: real, step: real, cols: nat, rows: nat, col: nat, row: nat)
    requires 0.0 < step && col < cols && row < rows
    ensures VisitOf(cols, col, row) < cols * rows
    ensures var r := GridRange(horMin, verMin, step, cols, rows);
      && After(r, Home(r), cols * rows) == Home(r)
      && forall k :: 0 <= k < cols * rows ==>
        (At(r, After(r, Home(r), k), col, row) <==> k == VisitOf(cols, col, row))
  {
    var r := GridRange(horMin, verMin, step, cols, rows);
    MulLess(row, rows, cols);
    forall k | 0 <= k < cols * rows
      ensures At(r, After(r, Home(r), k), col, row) <==> k == VisitOf(cols, col, row)
    {
      SweepStops(horMin, verMin, step, cols, rows, k);
      CellOf(r, cols, k, col, row);
    }
    SweepStops(horMin, verMin, step, cols, rows, cols * rows - 1);
    StopNext(horMin, verMin, step, cols, rows, cols * rows - 1);
  }

  /** The servos' own rectangle is the 35 by 19 instance. */
  lemma ServoGrid()
    ensures SERVO_RANGE == GridRange(5.0, 45.0, 5.0, 35, 19)
  {
    AngleClosed(5.0, 34, 5.0);
    AngleClosed(45.0, 18, 5.0);
  }

  // ----------------------------------- getting home from anywhere reachable

  /** Where targets and read-backs can leave the scan registers. */
  predicate InBounds(s: Scan) {
    0.0 <= s.hor <= 180.0 && 0.0 <= s.ver <= 180.0
  }

  /** The steps of five degrees that cover a distance. */
  function StepsOver(distance: real): (n: nat)
    ensures (n as real - 1.0) * 5.0 < distance || n == 0
    ensures distance <= n as real * 5.0
  {
    if distance <= 0.0 then 0 else
      var n := -((-distance / 5.0).Floor);
      assert n as real >= distance / 5.0 > n as real - 1.0;
      n
  }

  /** Steps left in this row, and rows left above it. */
  function ToRowEnd(s: Scan): nat {
    if s.increasing then StepsOver(SERVO_RANGE.horMax - s.hor) else StepsOver(s.hor - SERVO_RANGE.horMin)
  }

  function RowsAbove(s: Scan): nat {
    StepsOver(SERVO_RANGE.verMax - s.ver)
  }

  /** No more than this many calls are needed to get home. */
  function Measure(s: Scan): nat {
    RowsAbove(s) * 36 + ToRowEnd(s) + 1
  }

  lemma StepsOverLess(distance: real)
    requires 0.0 < distance
    ensures StepsOver(distance - 5.0) == StepsOver(distance) - 1
  {
    var n, m := StepsOver(distance), StepsOver(distance - 5.0);
    assert 0 < n;
    if m == 0 {
      assert distance <= 5.0;
    }
    assert (n as real - 1.0) * 5.0 < distance <= n as real * 5.0;
    assert m != 0 ==> m as real * 5.0 < distance <= (m as real + 1.0) * 5.0;
  }

  /** A call stays within bounds, and either is home or gets closer to it. */
  lemma NextCloser(s: Scan)
    requires InBounds(s)
    ensures InBounds(Next(SERVO_RANGE, s))
    ensures Next(SERVO_RANGE, s) == Home(SERVO_RANGE) || Measure(Next(SERVO_RANGE, s)) < Measure(s)
  {
    var t := Next(SERVO_RANGE, s);
    if s.increasing && s.hor < 175.0 {
      StepsOverLess(175.0 - s.hor);
    } else if !s.increasing && s.hor > 5.0 {
      StepsOverLess(s.hor - 5.0);
    } else if s.ver < 135.0 {
      StepsOverLess(135.0 - s.ver);
      assert ToRowEnd(t) <= 35;
    }
  }

  lemma MeasureBound(s: Scan)
    requires InBounds(s)
    ensures Measure(s) <= 1008
  {
    assert RowsAbove(s) <= 27;
    assert ToRowEnd(s) <= 35;
  }

  lemma {:induction false} AfterNext(r: Range, s: Scan, n: nat)
    ensures After(r, Next(r, s), n) == After(r, s, n + 1)
  {
    if n > 0 {
      AfterNext(r, s, n - 1);
    }
  }

  /** From every state within bounds the sweep comes home, after at least one
      call and at most 1008. */
  lemma {:induction false} ComesHome(s: Scan) returns (calls: nat)
    requires InBounds(s)
    ensures 0 < calls <= Measure(s) <= 1008
    ensures After(SERVO_RANGE, s, calls) == Home(SERVO_RANGE)
    decreases Measure(s)
  {
    NextCloser(s);
    MeasureBound(s);
    var t := Next(SERVO_RANGE, s);
    AfterNext(SERVO_RANGE, s, 0);
    if t == Home(SERVO_RANGE) {
      calls := 1;
    } else {
      var rest := ComesHome(t);
      AfterNext(SERVO_RANGE, s, rest);
      calls := rest + 1;
    }
  }
}
