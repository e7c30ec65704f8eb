/**
 * Geometry of one tetromino, as kept by com.schumakerteam.tetris.gfx.Piece:
 * the shape tag, the four (x, y) cell offsets copied from a fixed per-shape
 * table, the minimum offsets and the two exact 90-degree rotations.
 *
 * The Java object is mutated in place by setShape/setRandomShape, but the
 * board is its only long-lived holder, so a piece is modelled as a value.
 */
module Tetrominoes {

  datatype Option<T> = None | Some(value: T)

  /** A Java `int`. */
  type Int32 = x: int | -0x8000_0000 <= x < 0x8000_0000

  const MinInt32: Int32 := -0x8000_0000

  /** The `Tetrominoes` enum, in declaration (ordinal) order. */
  datatype Tetromino =
    | NoShape | ZShape | SShape | LineShape | TShape | SquareShape | LShape | MirroredLShape

  function Ordinal(t: Tetromino): nat
  {
    match t
    case NoShape => 0
    case ZShape => 1
    case SShape => 2
    case LineShape => 3
    case TShape => 4
    case SquareShape => 5
    case LShape => 6
    case MirroredLShape => 7
  }

  /** `Tetrominoes.values()[i]`; an index outside 0..7 is an out-of-range access. */
  function ValueAt(i: int): (r: Option<Tetromino>)
    ensures r.Some? <==> 0 <= i < 8
    ensures r.Some? ==> Ordinal(r.value) == i
  {
    if i == 0 then Some(NoShape)
    else if i == 1 then Some(ZShape)
    else if i == 2 then Some(SShape)
    else if i == 3 then Some(LineShape)
    else if i == 4 then Some(TShape)
    else if i == 5 then Some(SquareShape)
    else if i == 6 then Some(LShape)
    else if i == 7 then Some(MirroredLShape)
    else None
  }

  /** A cell offset (x, y) relative to the piece's pivot; y grows upward. */
  type Offset = (int, int)

  datatype Piece = Piece(shape: Tetromino, coords: seq<Offset>)

  /**
   * What every piece the game builds satisfies: four offsets, one of which
   * is the pivot itself (every row of the table contains (0, 0), and both
   * rotations fix the origin).
   */
  predicate WellFormed(p: Piece)
  {
    |p.coords| == 4 && (0, 0) in p.coords
  }

  /**
   * Row `Ordinal(t)` of the offset table that setShape copies: four offsets
   * holding the pivot, all equal for NoShape and four distinct cells within
   * one step of the pivot horizontally (two vertically) for every real shape.
   */
  function Table(t: Tetromino): (c: seq<Offset>)
    ensures |c| == 4 && (0, 0) in c
    ensures t == NoShape ==> forall i :: 0 <= i < 4 ==> c[i] == (0, 0)
    ensures t != NoShape ==> forall i, j :: 0 <= i < j < 4 ==> c[i] != c[j]
    ensures forall i :: 0 <= i < 4 ==> -1 <= c[i].0 <= 1 && -1 <= c[i].1 <= 2
  {
    match t
    case NoShape => [(0, 0), (0, 0), (0, 0), (0, 0)]
    case ZShape => [(0, -1), (0, 0), (-1, 0), (-1, 1)]
    case SShape => [(0, -1), (0, 0), (1, 0), (1, 1)]
    case LineShape => [(0, -1), (0, 0), (0, 1), (0, 2)]
    case TShape => [(-1, 0), (0, 0), (1, 0), (0, 1)]
    case SquareShape => [(0, 0), (1, 0), (0, 1), (1, 1)]
    case LShape => [(-1, -1), (0, -1), (0, 0), (0, 1)]
    case MirroredLShape => [(1, -1), (0, -1), (0, 0), (0, 1)]
  }

  /** setShape(t): the piece tagged `t` with the table's offsets for `t`. */
  function WithShape(t: Tetromino): (p: Piece)
    ensures p.shape == t && WellFormed(p)
    ensures t == NoShape ==> forall i :: 0 <= i < 4 ==> p.coords[i] == (0, 0)
  {
    Piece(t, Table(t))
  }

  function Xs(p: Piece): (s: seq<int>)
    requires |p.coords| == 4
  {
    [p.coords[0].0, p.coords[1].0, p.coords[2].0, p.coords[3].0]
  }

  function Ys(p: Piece): (s: seq<int>)
    requires |p.coords| == 4
  {
    [p.coords[0].1, p.coords[1].1, p.coords[2].1, p.coords[3].1]
  }

  function Min(a: int, b: int): int
  {
    if a <= b then a else b
  }

  /** The minimum of a non-empty sequence, folded from the left as the source's loop does. */
  function MinOf(s: seq<int>): int
    requires |s| > 0
  {
    if |s| == 1 then s[0] else Min(MinOf(s[..|s| - 1]), s[|s| - 1])
  }

  /** MinOf is a lower bound of the sequence and is one of its elements. */
  lemma {:induction false} MinOfIsLeast(s: seq<int>)
    requires |s| > 0
    ensures forall k :: 0 <= k < |s| ==> MinOf(s) <= s[k]
    ensures MinOf(s) in s
  {
    if |s| > 1 {
      var front := s[..|s| - 1];
      MinOfIsLeast(front);
      assert forall k :: 0 <= k < |s| - 1 ==> s[k] == front[k];
      assert MinOf(front) in s by {
        var k :| 0 <= k < |front| && front[k] == MinOf(front);
        assert s[k] == MinOf(front);
      }
    }
  }

  /** minX(): the accumulator loop over the four x offsets. */
  method MinX(p: Piece) returns (m: int)
    requires |p.coords| == 4
    ensures m == MinOf(Xs(p))
  {
    m := p.coords[0].0;
    for i := 0 to 4
      invariant m == MinOf(Xs(p)[..if i == 0 then 1 else i])
    {
      assert Xs(p)[..i + 1][..i] == Xs(p)[..i];
      m := Min(m, p.coords[i].0);
    }
    assert Xs(p)[..4] == Xs(p);
  }

  /** minY(): the accumulator loop over the four y offsets. */
  method MinY(p: Piece) returns (m: int)
    requires |p.coords| == 4
    ensures m == MinOf(Ys(p))
  {
    m := p.coords[0].1;
    for i := 0 to 4
      invariant m == MinOf(Ys(p)[..if i == 0 then 1 else i])
    {
      assert Ys(p)[..i + 1][..i] == Ys(p)[..i];
      m := Min(m, p.coords[i].1);
    }
    assert Ys(p)[..4] == Ys(p);
  }

  /** The lowest offset on each axis is a lower bound of the offsets and is attained. */
  lemma MinimaAreAttained(p: Piece)
    requires |p.coords| == 4
    ensures forall i :: 0 <= i < 4 ==> MinOf(Xs(p)) <= p.coords[i].0
    ensures forall i :: 0 <= i < 4 ==> MinOf(Ys(p)) <= p.coords[i].1
    ensures exists i :: 0 <= i < 4 && MinOf(Xs(p)) == p.coords[i].0
    ensures exists i :: 0 <= i < 4 && MinOf(Ys(p)) == p.coords[i].1
  {
    MinOfIsLeast(Xs(p));
    MinOfIsLeast(Ys(p));
    assert forall i :: 0 <= i < 4 ==> Xs(p)[i] == p.coords[i].0;
    assert forall i :: 0 <= i < 4 ==> Ys(p)[i] == p.coords[i].1;
  }

  /** The squared distance of an offset from the pivot. */
  function Norm2(c: Offset): int
  {
    c.0 * c.0 + c.1 * c.1
  }

  /** The left turn as a specification: (x, y) becomes (y, -x); a square is returned as it is. */
  function RotatedLeft(p: Piece): (r: Piece)
    requires |p.coords| == 4
    ensures r.shape == p.shape && |r.coords| == 4
  {
    if p.shape == SquareShape then p
    else Piece(p.shape, seq(4, i requires 0 <= i < 4 => (p.coords[i].1, -p.coords[i].0)))
  }

  /** The right turn as a specification: (x, y) becomes (-y, x); a square is returned as it is. */
  function RotatedRight(p: Piece): (r: Piece)
    requires |p.coords| == 4
    ensures r.shape == p.shape && |r.coords| == 4
  {
    if p.shape == SquareShape then p
    else Piece(p.shape, seq(4, i requires 0 <= i < 4 => (-p.coords[i].1, p.coords[i].0)))
  }

  /**
   * rotateLeft(): a fresh piece (offsets all (0, 0), as `new Piece()` leaves
   * them) filled in by a four-step loop; the receiver is a value and so
   * cannot be changed.
   */
  method RotateLeft(p: Piece) returns (r: Piece)
    requires |p.coords| == 4
    ensures r == RotatedLeft(p)
    ensures r.shape == p.shape
    ensures p.shape != SquareShape ==>
      forall i :: 0 <= i < 4 ==> r.coords[i] == (p.coords[i].1, -p.coords[i].0)
  {
    if p.shape == SquareShape {
      return p;
    }
    var coords := WithShape(NoShape).coords;
    for i := 0 to 4
      invariant |coords| == 4
      invariant forall k :: 0 <= k < i ==> coords[k] == (p.coords[k].1, -p.coords[k].0)
    {
      coords := coords[i := (p.coords[i].1, -p.coords[i].0)];
    }
    r := Piece(p.shape, coords);
  }

  /** rotateRight(): as RotateLeft, with (x, y) becoming (-y, x). */
  method RotateRight(p: Piece) returns (r: Piece)
    requires |p.coords| == 4
    ensures r == RotatedRight(p)
    ensures r.shape == p.shape
    ensures p.shape != SquareShape ==>
      forall i :: 0 <= i < 4 ==> r.coords[i] == (-p.coords[i].1, p.coords[i].0)
  {
    if p.shape == SquareShape {
      return p;
    }
    var coords := WithShape(NoShape).coords;
    for i := 0 to 4
      invariant |coords| == 4
      invariant forall k :: 0 <= k < i ==> coords[k] == (-p.coords[k].1, p.coords[k].0)
    {
      coords := coords[i := (-p.coords[i].1, p.coords[i].0)];
    }
    r := Piece(p.shape, coords);
  }

  /** Both turns keep the pivot, so a well-formed piece stays well-formed. */
  lemma RotationKeepsWellFormed(p: Piece)
    requires WellFormed(p)
    ensures WellFormed(RotatedLeft(p)) && WellFormed(RotatedRight(p))
  {
    var k :| 0 <= k < 4 && p.coords[k] == (0, 0);
    assert RotatedLeft(p).coords[k] == (0, 0);
    assert RotatedRight(p).coords[k] == (0, 0);
  }

  /** Both turns leave a square alone and keep every cell at its distance from the pivot. */
  lemma RotationsKeepDistances(p: Piece)
    requires |p.coords| == 4
    ensures p.shape == SquareShape ==> RotatedLeft(p) == p && RotatedRight(p) == p
    ensures forall i :: 0 <= i < 4 ==>
      Norm2(RotatedLeft(p).coords[i]) == Norm2(p.coords[i]) &&
      Norm2(RotatedRight(p).coords[i]) == Norm2(p.coords[i])
  {
  }

  /** A right turn undoes a left turn and a left turn undoes a right turn. */
  lemma RotationsAreInverse(p: Piece)
    requires |p.coords| == 4
    ensures RotatedRight(RotatedLeft(p)) == p
    ensures RotatedLeft(RotatedRight(p)) == p
  {
    if p.shape != SquareShape {
      assert RotatedRight(RotatedLeft(p)).coords == p.coords;
      assert RotatedLeft(RotatedRight(p)).coords == p.coords;
    }
  }

  /** Four left turns bring every piece back to its original offsets. */
  lemma FourLeftTurnsAreIdentity(p: Piece)
    requires |p.coords| == 4
    ensures RotatedLeft(RotatedLeft(RotatedLeft(RotatedLeft(p)))) == p
  {
    if p.shape != SquareShape {
      var q := RotatedLeft(RotatedLeft(p));
      assert forall i :: 0 <= i < 4 ==> q.coords[i] == (-p.coords[i].0, -p.coords[i].1);
      assert RotatedLeft(RotatedLeft(q)).coords == p.coords;
    }
  }

  /** Math.abs on a Java int: the absolute value, except that MIN_VALUE stays negative. */
  function JavaAbs(r: Int32): (a: int)
    ensures r != MinInt32 ==> a >= 0 && (a == r || a == -r)
    ensures r == MinInt32 ==> a == r && a < 0
  {
    if r == MinInt32 then r else if r < 0 then -r else r
  }

  /** Java's `%`, which truncates toward zero (the remainder takes the dividend's sign). */
  function JavaRem(a: int, b: int): (m: int)
    requires b > 0
    ensures a >= 0 ==> 0 <= m < b
    ensures a < 0 ==> -b < m <= 0
  {
    if a >= 0 then a % b else -((-a) % b)
  }

  /** The index setRandomShape computes from one `nextInt()` value. */
  function RandomIndex(r: Int32): (i: int)
    ensures r != MinInt32 ==> 1 <= i <= 7
    ensures r == MinInt32 ==> i == -1
  {
    JavaRem(JavaAbs(r), 7) + 1
  }

  /**
   * setRandomShape() given the random int `r`: the piece of shape
   * values()[RandomIndex(r)], or None for the out-of-range access that
   * r == MIN_VALUE causes (the piece is then left as it was).
   */
  function RandomShape(r: Int32): (p: Option<Piece>)
    ensures p.Some? <==> r != MinInt32
    ensures p.Some? ==> p.value.shape != NoShape && p.value == WithShape(p.value.shape)
  {
    match ValueAt(RandomIndex(r))
    case None => None
    case Some(t) => Some(WithShape(t))
  }
}
