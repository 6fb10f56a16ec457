/**
  The repair mask (repair.py:35-39): a zero height x width x channels array in
  which every pixel named by a `[start, end)` range of flat row-major offsets
  is set to 1 in all channels.

  Pixel p is decoded as row `p // width`, column `p % width`, with Python's
  indexing rules: a negative row index counts from the end of the rows, any
  other out-of-range row raises IndexError, and width 0 raises
  ZeroDivisionError. Either error aborts the construction, so no mask exists
  then. The index is only evaluated inside the channel loop, so with no
  channels nothing is indexed and nothing fails.

  The model allocates the array as rows x columns x channels, the layout the
  mask is read back with (repair.py:44); the code allocates width x height x
  channels, which agrees only for square images (see AsWrittenIndexOk).
 */
module Mask {
  import opened IntArith

  /** One entry `[start, end]` of the target area list. */
  datatype Area = Area(start: int, end: int)

  /** The flat offset of row r, column c in a grid w columns wide. */
  function Flat(w: int, r: int, c: int): int
  {
    r * w + c
  }

  /**
    Whether `mask[p // w][p % w]` indexes an h-row, w-column grid without an
    exception. Dafny's / and % agree with Python's // and % for a positive
    divisor, and the column `p % w` is then always in range.
   */
  predicate PixelOk(h: nat, w: nat, p: int)
  {
    w > 0 && -(h as int) <= p / w < h
  }

  /** The row Python writes for pixel p: a negative row index wraps. */
  function Row(h: nat, w: nat, p: int): (r: int)
    requires PixelOk(h, w, p)
    ensures 0 <= r < h
  {
    if p / w < 0 then p / w + h else p / w
  }

  /** Every pixel of `a` can be written. */
  predicate AreaOk(h: nat, w: nat, a: Area)
  {
    forall p :: a.start <= p < a.end ==> PixelOk(h, w, p)
  }

  /** Whether the mask loop runs to completion. */
  predicate MaskDefined(h: nat, w: nat, depth: nat, areas: seq<Area>)
  {
    depth == 0 || forall j :: 0 <= j < |areas| ==> AreaOk(h, w, areas[j])
  }

  /**
    Cell (r, c) is written by some pixel of `a`: either its own flat offset
    lies in `a`, or the negative offset that wraps onto it does.
   */
  predicate Hit(h: nat, w: nat, a: Area, r: int, c: int)
  {
    a.start <= Flat(w, r, c) < a.end || a.start <= Flat(w, r, c) - h * w < a.end
  }

  /** Cell (r, c) lies in the union of the areas. */
  predicate Covered(h: nat, w: nat, areas: seq<Area>, r: int, c: int)
  {
    exists j :: 0 <= j < |areas| && Hit(h, w, areas[j], r, c)
  }

  /** The value the completed mask holds at row r, column c, in every channel. */
  function MaskValue(h: nat, w: nat, areas: seq<Area>, r: int, c: int): (v: real)
    ensures v == 0.0 || v == 1.0
    ensures v == 1.0 <==> Covered(h, w, areas, r, c)
  {
    if Covered(h, w, areas, r, c) then 1.0 else 0.0
  }

  // ---------------------------------------------------------------------
  // Arithmetic of the decoding

  /** A decoded pixel of the grid encodes back to itself, and lies in the grid. */
  lemma DecodeInBounds(h: nat, w: nat, p: int)
    requires w > 0 && 0 <= p < h * w
    ensures 0 <= p / w < h && 0 <= p % w < w
    ensures Flat(w, p / w, p % w) == p
  {
    if p / w >= h {
      MulMonotone(h, p / w, w);
    }
  }

  /** Decoding is injective on the grid: distinct cells have distinct offsets. */
  lemma DecodeInjective(w: nat, r1: int, c1: int, r2: int, c2: int)
    requires 0 <= c1 < w && 0 <= c2 < w
    requires Flat(w, r1, c1) == Flat(w, r2, c2)
    ensures r1 == r2 && c1 == c2
  {
    DivModUnique(w, r1, c1, Flat(w, r1, c1));
    DivModUnique(w, r2, c2, Flat(w, r2, c2));
  }

  /** Python accepts exactly the offsets in [-h*w, h*w). */
  lemma PixelOkIff(h: nat, w: nat, p: int)
    requires w > 0
    ensures PixelOk(h, w, p) <==> -(h * w) <= p < h * w
  {
    var q := p / w;
    if q < -(h as int) {
      MulMonotone(q, -(h as int) - 1, w);
    } else if q >= h {
      MulMonotone(h, q, w);
    } else {
      MulMonotone(-(h as int), q, w);
      MulMonotone(q, h - 1, w);
    }
  }

  /** An area can be written exactly when it is empty or lies within [-h*w, h*w). */
  lemma AreaOkIff(h: nat, w: nat, a: Area)
    ensures AreaOk(h, w, a) <==> a.end <= a.start || (w > 0 && -(h * w) <= a.start && a.end <= h * w)
  {
    if a.start < a.end {
      if AreaOk(h, w, a) {
        assert PixelOk(h, w, a.start) && PixelOk(h, w, a.end - 1);
        PixelOkIff(h, w, a.start);
        PixelOkIff(h, w, a.end - 1);
      } else if w > 0 {
        var p :| a.start <= p < a.end && !PixelOk(h, w, p);
        PixelOkIff(h, w, p);
      }
    }
  }

  /** The cell Python writes for pixel p is exactly the cell that Hit attributes to p. */
  lemma CellOfPixel(h: nat, w: nat, p: int, r: int, c: int)
    requires PixelOk(h, w, p) && 0 <= r < h && 0 <= c < w
    ensures (r == Row(h, w, p) && c == p % w) <==> (Flat(w, r, c) == p || Flat(w, r, c) - h * w == p)
  {
    var q := p / w;
    if r == Row(h, w, p) && c == p % w {
      if q < 0 {
        assert Flat(w, r, c) == (q + h) * w + p % w == q * w + p % w + h * w;
      }
    }
    if Flat(w, r, c) == p {
      DivModUnique(w, r, c, p);
    } else if Flat(w, r, c) - h * w == p {
      assert p == (r - h) * w + c;
      DivModUnique(w, r - h, c, p);
    }
  }

  // ---------------------------------------------------------------------
  // The mask loop

  lemma CoveredSnoc(h: nat, w: nat, areas: seq<Area>, i: nat, r: int, c: int)
    requires i < |areas|
    ensures Covered(h, w, areas[..i + 1], r, c) <==> Covered(h, w, areas[..i], r, c) || Hit(h, w, areas[i], r, c)
  {
    if Covered(h, w, areas[..i + 1], r, c) {
      var j :| 0 <= j < i + 1 && Hit(h, w, areas[..i + 1][j], r, c);
      if j < i {
        assert areas[..i][j] == areas[..i + 1][j];
      }
    }
    if Covered(h, w, areas[..i], r, c) {
      var j :| 0 <= j < i && Hit(h, w, areas[..i][j], r, c);
      assert areas[..i + 1][j] == areas[..i][j];
    }
    if Hit(h, w, areas[i], r, c) {
      assert areas[..i + 1][i] == areas[i];
    }
  }

  /**
    The array holds 1 exactly at the cells covered by `done` or hit by `cur`,
    in every channel, and 0 elsewhere.
   */
  ghost predicate MaskIs(mask: array3<real>, done: seq<Area>, cur: Area)
    reads mask
  {
    forall r, c, d :: 0 <= r < mask.Length0 && 0 <= c < mask.Length1 && 0 <= d < mask.Length2 ==>
      mask[r, c, d] == if Covered(mask.Length0, mask.Length1, done, r, c) || Hit(mask.Length0, mask.Length1, cur, r, c)
                       then 1.0 else 0.0
  }

  /** The innermost loop (repair.py:38-39): set one pixel to 1 in every channel. */
  method SetPixel(mask: array3<real>, row: nat, col: nat)
    requires row < mask.Length0 && col < mask.Length1
    modifies mask
    ensures forall r, c, d :: 0 <= r < mask.Length0 && 0 <= c < mask.Length1 && 0 <= d < mask.Length2 ==>
              mask[r, c, d] == if r == row && c == col then 1.0 else old(mask[r, c, d])
  {
    for dim := 0 to mask.Length2
      invariant forall r, c, d :: 0 <= r < mask.Length0 && 0 <= c < mask.Length1 && 0 <= d < mask.Length2 ==>
                  mask[r, c, d] == if r == row && c == col && d < dim then 1.0 else old(mask[r, c, d])
    {
      mask[row, col, dim] := 1.0;
    }
  }

  /**
    The middle loop (repair.py:37-39): write every pixel of `area`. `ok` is
    false exactly when one of its pixels raises.
   */
  method MarkArea(mask: array3<real>, ghost done: seq<Area>, area: Area) returns (ok: bool)
    requires MaskIs(mask, done, Area(area.start, area.start))
    modifies mask
    ensures ok <==> mask.Length2 == 0 || AreaOk(mask.Length0, mask.Length1, area)
    ensures ok ==> MaskIs(mask, done, area)
  {
    var h, w, depth := mask.Length0, mask.Length1, mask.Length2;
    var p := area.start;
    while p < area.end
      invariant area.start <= p <= if area.start < area.end then area.end else area.start
      invariant depth == 0 || AreaOk(h, w, Area(area.start, p))
      invariant MaskIs(mask, done, Area(area.start, p))
    {
      // The code evaluates the index once per channel; it is the same each time.
      if depth > 0 {
        if !PixelOk(h, w, p) {
          return false;
        }
        var row := Row(h, w, p);
        var col := p % w;
        SetPixel(mask, row, col);
        forall r, c, d | 0 <= r < h && 0 <= c < w && 0 <= d < depth
          ensures mask[r, c, d] == if Covered(h, w, done, r, c) || Hit(h, w, Area(area.start, p + 1), r, c) then 1.0 else 0.0
        {
          CellOfPixel(h, w, p, r, c);
        }
      }
      p := p + 1;
    }
    assert Area(area.start, p) == area || (area.end <= area.start && p == area.start);
    forall r, c, d | 0 <= r < h && 0 <= c < w && 0 <= d < depth
      ensures mask[r, c, d] == if Covered(h, w, done, r, c) || Hit(h, w, area, r, c) then 1.0 else 0.0
    {
    }
    return true;
  }

  /**
    `init_target`'s mask loop (repair.py:35-39). On success every entry is the
    MaskValue of its cell; `ok` is false exactly when some write raised.
   */
  method BuildMask(h: nat, w: nat, depth: nat, areas: seq<Area>) returns (mask: array3<real>, ok: bool)
    ensures fresh(mask)
    ensures mask.Length0 == h && mask.Length1 == w && mask.Length2 == depth
    ensures ok <==> MaskDefined(h, w, depth, areas)
    ensures ok ==> forall r, c, d :: 0 <= r < h && 0 <= c < w && 0 <= d < depth ==>
                     mask[r, c, d] == MaskValue(h, w, areas, r, c)
  {
    mask := new real[h, w, depth]((_, _, _) => 0.0);
    var i := 0;
    while i < |areas|
      invariant 0 <= i <= |areas|
      invariant depth == 0 || forall j :: 0 <= j < i ==> AreaOk(h, w, areas[j])
      invariant MaskIs(mask, areas[..i], Area(0, 0))
    {
      forall r, c, d | 0 <= r < h && 0 <= c < w && 0 <= d < depth
        ensures mask[r, c, d] == if Covered(h, w, areas[..i], r, c) || Hit(h, w, Area(areas[i].start, areas[i].start), r, c) then 1.0 else 0.0
      {
      }
      var areaOk := MarkArea(mask, areas[..i], areas[i]);
      if !areaOk {
        return mask, false;
      }
      forall r, c, d | 0 <= r < h && 0 <= c < w && 0 <= d < depth
        ensures mask[r, c, d] == if Covered(h, w, areas[..i + 1], r, c) || Hit(h, w, Area(0, 0), r, c) then 1.0 else 0.0
      {
        CoveredSnoc(h, w, areas, i, r, c);
      }
      i := i + 1;
    }
    assert areas[..i] == areas;
    ok := true;
  }

  // ---------------------------------------------------------------------
  // Properties of the mask specification

  /** With no areas, or only ranges whose start is not below their end, the mask is all zeros. */
  lemma EmptyAreasLeaveZeroMask(h: nat, w: nat, areas: seq<Area>, r: int, c: int)
    requires forall j :: 0 <= j < |areas| ==> areas[j].end <= areas[j].start
    ensures MaskValue(h, w, areas, r, c) == 0.0
  {
  }

  /** A cell of the grid has an offset in [0, h*w). */
  lemma FlatInGrid(h: nat, w: nat, r: int, c: int)
    requires 0 <= r < h && 0 <= c < w
    ensures 0 <= Flat(w, r, c) < h * w
  {
    MulMonotone(0, r, w);
    MulMonotone(r, h - 1, w);
  }

  /** The range [0, w) marks exactly row 0, in all channels; the construction succeeds. */
  lemma FirstRowArea(h: nat, w: nat, r: int, c: int)
    requires 0 <= r < h && 0 <= c < w
    ensures AreaOk(h, w, Area(0, w))
    ensures MaskValue(h, w, [Area(0, w)], r, c) == if r == 0 then 1.0 else 0.0
  {
    FlatInGrid(h, w, r, c);
    AreaOkIff(h, w, Area(0, w));
    MulMonotone(1, h, w);
    if r >= 1 {
      MulMonotone(1, r, w);
    }
    assert Hit(h, w, [Area(0, w)][0], r, c) <==> r == 0;
  }

  /** The range [0, h*w) marks every entry; the construction succeeds. */
  lemma WholeGridArea(h: nat, w: nat, r: int, c: int)
    requires 0 <= r < h && 0 <= c < w
    ensures AreaOk(h, w, Area(0, h * w))
    ensures MaskValue(h, w, [Area(0, h * w)], r, c) == 1.0
  {
    FlatInGrid(h, w, r, c);
    AreaOkIff(h, w, Area(0, h * w));
    assert Hit(h, w, [Area(0, h * w)][0], r, c);
  }

  /** The mask of a concatenated list is the union of the two masks. */
  lemma CoveredAppend(h: nat, w: nat, a1: seq<Area>, a2: seq<Area>, r: int, c: int)
    ensures Covered(h, w, a1 + a2, r, c) <==> Covered(h, w, a1, r, c) || Covered(h, w, a2, r, c)
  {
    if Covered(h, w, a1 + a2, r, c) {
      var j :| 0 <= j < |a1 + a2| && Hit(h, w, (a1 + a2)[j], r, c);
      if j >= |a1| {
        assert (a1 + a2)[j] == a2[j - |a1|];
      }
    }
    if Covered(h, w, a1, r, c) {
      var j :| 0 <= j < |a1| && Hit(h, w, a1[j], r, c);
      assert (a1 + a2)[j] == a1[j];
    }
    if Covered(h, w, a2, r, c) {
      var j :| 0 <= j < |a2| && Hit(h, w, a2[j], r, c);
      assert (a1 + a2)[|a1| + j] == a2[j];
    }
  }

  /** Only the set of areas matters: reordering or repeating ranges gives the same mask. */
  lemma CoveredBySetOfAreas(h: nat, w: nat, a1: seq<Area>, a2: seq<Area>, r: int, c: int)
    requires forall x :: x in a1 <==> x in a2
    ensures Covered(h, w, a1, r, c) <==> Covered(h, w, a2, r, c)
  {
    if Covered(h, w, a1, r, c) {
      var j :| 0 <= j < |a1| && Hit(h, w, a1[j], r, c);
      assert a1[j] in a2;
      var k :| 0 <= k < |a2| && a2[k] == a1[j];
    }
    if Covered(h, w, a2, r, c) {
      var j :| 0 <= j < |a2| && Hit(h, w, a2[j], r, c);
      assert a2[j] in a1;
      var k :| 0 <= k < |a1| && a1[k] == a2[j];
    }
  }

  /** Two overlapping ranges mark the same cells as the single range spanning both. */
  lemma OverlappingAreasMerge(h: nat, w: nat, s1: int, e1: int, s2: int, e2: int, r: int, c: int)
    requires s1 <= s2 <= e1
    ensures Covered(h, w, [Area(s1, e1), Area(s2, e2)], r, c)
        <==> Covered(h, w, [Area(s1, if e1 < e2 then e2 else e1)], r, c)
  {
    var merged := Area(s1, if e1 < e2 then e2 else e1);
    var pair := [Area(s1, e1), Area(s2, e2)];
    assert Covered(h, w, pair, r, c) <==> Hit(h, w, pair[0], r, c) || Hit(h, w, pair[1], r, c);
    assert Covered(h, w, [merged], r, c) <==> Hit(h, w, [merged][0], r, c);
  }

  // ---------------------------------------------------------------------
  // The allocated layout

  /**
    Whether `mask[p // w][p % w]` is a legal index into the array as the code
    allocates it, `np.zeros([width, height, depth])` (repair.py:35): the row
    index goes into a dimension of size w and the column into one of size h.
   */
  predicate AsWrittenIndexOk(h: nat, w: nat, p: int)
  {
    w > 0 && -(w as int) <= p / w < w && p % w < h
  }

  /**
    On an image 2 rows high and 4 columns wide, pixel 3 (row 0, column 3)
    belongs to the image, but the code's write to it raises IndexError.
   */
  lemma AsWrittenRejectsPixelOfWideImage()
    ensures 0 <= 3 < 2 * 4 && PixelOk(2, 4, 3)
    ensures !AsWrittenIndexOk(2, 4, 3)
  {
  }

  /** For square images the allocated layout and the read-back layout accept the same pixels. */
  lemma SquareLayoutsAgree(n: nat, p: int)
    ensures AsWrittenIndexOk(n, n, p) <==> PixelOk(n, n, p)
  {
  }

  // ---------------------------------------------------------------------
  // The flattened view used by the composite

  /** The completed mask flattened row-major over rows, columns and channels. */
  function FlatMask(h: nat, w: nat, depth: nat, areas: seq<Area>): (m: seq<real>)
    ensures |m| == h * w * depth
    ensures forall i :: 0 <= i < |m| ==> m[i] == 0.0 || m[i] == 1.0
  {
    if w == 0 || depth == 0 then []
    else seq(h * w * depth, i => MaskValue(h, w, areas, (i / depth) / w, (i / depth) % w))
  }

  /** Entry (r, c, d) of the mask sits at flat position (r*w + c)*depth + d. */
  lemma FlatMaskAt(h: nat, w: nat, depth: nat, areas: seq<Area>, r: int, c: int, d: int)
    requires 0 <= r < h && 0 <= c < w && 0 <= d < depth
    ensures 0 <= Flat(w, r, c) * depth + d < h * w * depth
    ensures FlatMask(h, w, depth, areas)[Flat(w, r, c) * depth + d] == MaskValue(h, w, areas, r, c)
  {
    var k := Flat(w, r, c);
    FlatInGrid(h, w, r, c);
    MulMonotone(0, k, depth);
    MulMonotone(k, h * w - 1, depth);
    assert (h * w - 1) * depth + d < h * w * depth;
    DivModUnique(depth, k, d, k * depth + d);
    DivModUnique(w, r, c, k);
  }
}
