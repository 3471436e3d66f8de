/**
 * The integer lattice the editor places objects on, and the closed
 * axis-aligned boxes of cells between two corners.
 */
module Grid {

  /** One lattice cell. Equality is component-wise (datatype equality). */
  datatype Pos = Pos(x: int, y: int, z: int)

  function Min(a: int, b: int): (m: int) { if a <= b then a else b }
  function Max(a: int, b: int): (m: int) { if a <= b then b else a }
  function Abs(a: int): (m: nat) { if a < 0 then -a else a }

  /** Number of integers in the closed range lo..hi (0 when the range is empty). */
  function Span(lo: int, hi: int): (n: nat) { if hi < lo then 0 else hi - lo + 1 }

  /** `p` lies in the closed box spanned by the corners `s` and `e`, on every axis. */
  predicate InBox(p: Pos, s: Pos, e: Pos) {
    && Min(s.x, e.x) <= p.x <= Max(s.x, e.x)
    && Min(s.y, e.y) <= p.y <= Max(s.y, e.y)
    && Min(s.z, e.z) <= p.z <= Max(s.z, e.z)
  }

  /** No cell occurs twice. */
  ghost predicate Distinct(ps: seq<Pos>) {
    forall i, j :: 0 <= i < j < |ps| ==> ps[i] != ps[j]
  }

  lemma DistinctConcat(a: seq<Pos>, b: seq<Pos>)
    requires Distinct(a) && Distinct(b)
    requires forall p :: p in a ==> p !in b
    ensures Distinct(a + b)
  {
    forall i, j | 0 <= i < j < |a + b|
      ensures (a + b)[i] != (a + b)[j]
    {
      if j < |a| {
        assert (a + b)[i] == a[i] && (a + b)[j] == a[j];
      } else if i >= |a| {
        assert (a + b)[i] == b[i - |a|] && (a + b)[j] == b[j - |a|];
      } else {
        assert (a + b)[i] == a[i] && a[i] in a;
        assert (a + b)[j] == b[j - |a|] && b[j - |a|] in b;
      }
    }
  }

  lemma DistinctSplit(a: seq<Pos>, b: seq<Pos>)
    requires Distinct(a + b)
    ensures Distinct(a) && Distinct(b)
    ensures forall p :: p in a ==> p !in b
  {
    forall i, j | 0 <= i < j < |a| ensures a[i] != a[j] {
      assert a[i] == (a + b)[i] && a[j] == (a + b)[j];
    }
    forall i, j | 0 <= i < j < |b| ensures b[i] != b[j] {
      assert b[i] == (a + b)[|a| + i] && b[j] == (a + b)[|a| + j];
    }
    forall i, j | 0 <= i < |a| && 0 <= j < |b| ensures a[i] != b[j] {
      assert a[i] == (a + b)[i] && b[j] == (a + b)[|a| + j];
    }
  }

  /** The cells (x, y, z0) .. (x, y, z1) in increasing z: the innermost loop. */
  function ZRun(x: int, y: int, z0: int, z1: int): (r: seq<Pos>)
    decreases z1 - z0 + 1
  {
    if z1 < z0 then [] else ZRun(x, y, z0, z1 - 1) + [Pos(x, y, z1)]
  }

  /** One ZRun per y in y0..y1, in increasing y: the middle loop. */
  function YSlab(x: int, y0: int, y1: int, z0: int, z1: int): (r: seq<Pos>)
    decreases y1 - y0 + 1
  {
    if y1 < y0 then [] else YSlab(x, y0, y1 - 1, z0, z1) + ZRun(x, y1, z0, z1)
  }

  /** One YSlab per x in x0..x1, in increasing x: the outer loop. */
  function XBox(x0: int, x1: int, y0: int, y1: int, z0: int, z1: int): (r: seq<Pos>)
    decreases x1 - x0 + 1
  {
    if x1 < x0 then [] else XBox(x0, x1 - 1, y0, y1, z0, z1) + YSlab(x1, y0, y1, z0, z1)
  }

  lemma {:induction false} ZRunMembers(x: int, y: int, z0: int, z1: int)
    ensures |ZRun(x, y, z0, z1)| == Span(z0, z1)
    ensures forall p :: p in ZRun(x, y, z0, z1) <==> p.x == x && p.y == y && z0 <= p.z <= z1
    decreases z1 - z0 + 1
  {
    if z0 <= z1 {
      ZRunMembers(x, y, z0, z1 - 1);
    }
  }

  lemma {:induction false} YSlabMembers(x: int, y0: int, y1: int, z0: int, z1: int)
    ensures forall p :: p in YSlab(x, y0, y1, z0, z1) <==> p.x == x && y0 <= p.y <= y1 && z0 <= p.z <= z1
    decreases y1 - y0 + 1
  {
    if y0 <= y1 {
      YSlabMembers(x, y0, y1 - 1, z0, z1);
      ZRunMembers(x, y1, z0, z1);
    }
  }

  lemma {:induction false} XBoxMembers(x0: int, x1: int, y0: int, y1: int, z0: int, z1: int)
    ensures forall p :: p in XBox(x0, x1, y0, y1, z0, z1) <==> x0 <= p.x <= x1 && y0 <= p.y <= y1 && z0 <= p.z <= z1
    decreases x1 - x0 + 1
  {
    if x0 <= x1 {
      XBoxMembers(x0, x1 - 1, y0, y1, z0, z1);
      YSlabMembers(x1, y0, y1, z0, z1);
    }
  }

  lemma {:induction false} YSlabLength(x: int, y0: int, y1: int, z0: int, z1: int)
    ensures |YSlab(x, y0, y1, z0, z1)| == Span(y0, y1) * Span(z0, z1)
    decreases y1 - y0 + 1
  {
    if y0 <= y1 {
      YSlabLength(x, y0, y1 - 1, z0, z1);
      ZRunMembers(x, y1, z0, z1);
      MulSucc(Span(y0, y1 - 1), Span(z0, z1));
    }
  }

  lemma {:induction false} XBoxLength(x0: int, x1: int, y0: int, y1: int, z0: int, z1: int)
    ensures |XBox(x0, x1, y0, y1, z0, z1)| == Span(x0, x1) * (Span(y0, y1) * Span(z0, z1))
    decreases x1 - x0 + 1
  {
    if x0 <= x1 {
      XBoxLength(x0, x1 - 1, y0, y1, z0, z1);
      YSlabLength(x1, y0, y1, z0, z1);
      MulSucc(Span(x0, x1 - 1), Span(y0, y1) * Span(z0, z1));
    }
  }

  lemma {:induction false} ZRunDistinct(x: int, y: int, z0: int, z1: int)
    ensures Distinct(ZRun(x, y, z0, z1))
    decreases z1 - z0 + 1
  {
    if z0 <= z1 {
      ZRunDistinct(x, y, z0, z1 - 1);
      ZRunMembers(x, y, z0, z1 - 1);
      DistinctConcat(ZRun(x, y, z0, z1 - 1), [Pos(x, y, z1)]);
    }
  }

  lemma {:induction false} YSlabDistinct(x: int, y0: int, y1: int, z0: int, z1: int)
    ensures Distinct(YSlab(x, y0, y1, z0, z1))
    decreases y1 - y0 + 1
  {
    if y0 <= y1 {
      YSlabDistinct(x, y0, y1 - 1, z0, z1);
      ZRunDistinct(x, y1, z0, z1);
      YSlabMembers(x, y0, y1 - 1, z0, z1);
      ZRunMembers(x, y1, z0, z1);
      DistinctConcat(YSlab(x, y0, y1 - 1, z0, z1), ZRun(x, y1, z0, z1));
    }
  }

  lemma {:induction false} XBoxDistinct(x0: int, x1: int, y0: int, y1: int, z0: int, z1: int)
    ensures Distinct(XBox(x0, x1, y0, y1, z0, z1))
    decreases x1 - x0 + 1
  {
    if x0 <= x1 {
      XBoxDistinct(x0, x1 - 1, y0, y1, z0, z1);
      YSlabDistinct(x1, y0, y1, z0, z1);
      XBoxMembers(x0, x1 - 1, y0, y1, z0, z1);
      YSlabMembers(x1, y0, y1, z0, z1);
      DistinctConcat(XBox(x0, x1 - 1, y0, y1, z0, z1), YSlab(x1, y0, y1, z0, z1));
    }
  }

  /**
   * Every lattice cell of the closed box between `start` and `end`, each
   * exactly once, x outermost and z innermost.
   */
  function GenerateBlockPositions(start: Pos, end: Pos): (r: seq<Pos>)
    ensures forall p :: p in r <==> InBox(p, start, end)
    ensures Distinct(r)
    ensures |r| == (Abs(start.x - end.x) + 1) * (Abs(start.y - end.y) + 1) * (Abs(start.z - end.z) + 1)
    ensures start in r && end in r
  {
    var x0, x1 := Min(start.x, end.x), Max(start.x, end.x);
    var y0, y1 := Min(start.y, end.y), Max(start.y, end.y);
    var z0, z1 := Min(start.z, end.z), Max(start.z, end.z);
    XBoxMembers(x0, x1, y0, y1, z0, z1);
    XBoxDistinct(x0, x1, y0, y1, z0, z1);
    XBoxLength(x0, x1, y0, y1, z0, z1);
    SpanOfCorners(start.x, end.x);
    SpanOfCorners(start.y, end.y);
    SpanOfCorners(start.z, end.z);
    MulAssoc(Span(x0, x1), Span(y0, y1), Span(z0, z1));
    XBox(x0, x1, y0, y1, z0, z1)
  }

  lemma MulSucc(k: int, n: int)
    ensures (k + 1) * n == k * n + n
  {
  }

  lemma MulAssoc(a: int, b: int, c: int)
    ensures a * (b * c) == a * b * c
  {
  }

  lemma SpanOfCorners(a: int, b: int)
    ensures Span(Min(a, b), Max(a, b)) == Abs(a - b) + 1
  {
  }

  /** The box does not depend on which corner came first. */
  lemma GenerateBlockPositionsSymmetric(s: Pos, e: Pos)
    ensures GenerateBlockPositions(s, e) == GenerateBlockPositions(e, s)
  {
  }

  /** The innermost loop: pushes (x, y, z) for z = z0 .. z1. */
  method PushZRun(acc: seq<Pos>, x: int, y: int, z0: int, z1: int) returns (positions: seq<Pos>)
    ensures positions == acc + ZRun(x, y, z0, z1)
  {
    positions := acc;
    var z := z0;
    while z <= z1
      invariant z == z0 || z0 < z <= z1 + 1
      invariant positions == acc + ZRun(x, y, z0, z - 1)
      decreases z1 - z
    {
      positions := positions + [Pos(x, y, z)];
      z := z + 1;
    }
  }

  /** The middle loop: one z-run per y = y0 .. y1. */
  method PushYSlab(acc: seq<Pos>, x: int, y0: int, y1: int, z0: int, z1: int) returns (positions: seq<Pos>)
    ensures positions == acc + YSlab(x, y0, y1, z0, z1)
  {
    positions := acc;
    var y := y0;
    while y <= y1
      invariant y == y0 || y0 < y <= y1 + 1
      invariant positions == acc + YSlab(x, y0, y - 1, z0, z1)
      decreases y1 - y
    {
      positions := PushZRun(positions, x, y, z0, z1);
      y := y + 1;
    }
  }

  /**
   * The triple nested loop that builds the box by repeated push (x
   * outermost, z innermost), proved to produce exactly GenerateBlockPositions.
   */
  method CollectBlockPositions(start: Pos, end: Pos) returns (positions: seq<Pos>)
    ensures positions == GenerateBlockPositions(start, end)
  {
    var minX, maxX := Min(start.x, end.x), Max(start.x, end.x);
    var minY, maxY := Min(start.y, end.y), Max(start.y, end.y);
    var minZ, maxZ := Min(start.z, end.z), Max(start.z, end.z);
    positions := [];
    var x := minX;
    while x <= maxX
      invariant minX <= x <= maxX + 1
      invariant positions == XBox(minX, x - 1, minY, maxY, minZ, maxZ)
      decreases maxX - x
    {
      positions := PushYSlab(positions, x, minY, maxY, minZ, maxZ);
      x := x + 1;
    }
  }
}
