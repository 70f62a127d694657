/**
 * The integer and comparison logic of the discrete drawing functions: Cohen-Sutherland
 * outcodes and the accept/reject test of line clipping, the span fill and the blended
 * line writes of the scan-line polygon filler and the line drawer, the active-edge
 * vertex tests and removal loop, and the argument checks of the entry points.
 *
 * Pixel memory is a grid with one row per pixel and one column per tensor element; the
 * strides that place this grid in memory are not modelled.
 */
module Draw {
  import opened Errors
  import opened DataTypes
  import opened Images

  // ---------------------------------------------------------------------------------
  // Cohen-Sutherland outcodes
  // ---------------------------------------------------------------------------------

  const Inside: bv8 := 0
  const Left: bv8 := 1
  const Right: bv8 := 2
  const Top: bv8 := 4
  const Bottom: bv8 := 8

  /** A point with floating-point coordinates. */
  datatype Vertex = Vertex(x: real, y: real)

  /**
   * The outcode of `p` with respect to the image domain from (0, 0) to `bottomRight`:
   * one bit for each side of the domain the point lies beyond.
   */
  function Outcode(p: Vertex, bottomRight: Vertex): (code: bv8)
    ensures code & 0xF0 == 0
    ensures code & Left != 0 <==> p.x < 0.0
    ensures code & Right != 0 <==> 0.0 <= p.x && bottomRight.x < p.x
    ensures code & Top != 0 <==> p.y < 0.0
    ensures code & Bottom != 0 <==> 0.0 <= p.y && bottomRight.y < p.y
    ensures code & Left == 0 || code & Right == 0
    ensures code & Top == 0 || code & Bottom == 0
    ensures code == Inside <==> 0.0 <= p.x <= bottomRight.x && 0.0 <= p.y <= bottomRight.y
  {
    var horizontal := if p.x < 0.0 then Left else if p.x > bottomRight.x then Right else Inside;
    var vertical := if p.y < 0.0 then Top else if p.y > bottomRight.y then Bottom else Inside;
    horizontal | vertical
  }

  /** What one round of the clipping loop decides from the two endpoints' outcodes. */
  datatype ClipStep =
    | Accept                              // both endpoints inside: the line is drawn
    | Reject                              // both beyond the same side: nothing is drawn
    | MoveEndpoint(first: bool, code: bv8) // move the endpoint with outcode `code` onto the domain's edge

  /**
   * The accept and reject tests of the clipping loop, and otherwise the larger of the two
   * outcodes, which names the endpoint to move.
   */
  function ClipDecision(code0: bv8, code1: bv8): (step: ClipStep)
    ensures step == Accept <==> code0 == Inside && code1 == Inside
    ensures step == Reject <==> (code0 != Inside || code1 != Inside) && code0 & code1 != 0
    ensures step.MoveEndpoint? ==>
      step.code != Inside && code0 & code1 == 0
      && (step.first ==> step.code == code0) && (!step.first ==> step.code == code1 && code1 != code0)
  {
    if code0 | code1 == 0 then Accept
    else if code0 & code1 != 0 then Reject
    else
      var code := if code1 < code0 then code0 else code1;
      MoveEndpoint(code == code0, code)
  }

  /** The side of the domain the moved endpoint is brought onto: bottom, top, right, then left. */
  function ClipEdge(code: bv8): (side: bv8)
    requires code != Inside && code & 0xF0 == 0
    ensures side in {Bottom, Top, Right, Left} && side & code != 0
  {
    if code & Bottom != 0 then Bottom
    else if code & Top != 0 then Top
    else if code & Right != 0 then Right
    else Left
  }

  /** The point a fraction `t` of the way from `p0` to `p1`. */
  function Lerp(p0: Vertex, p1: Vertex, t: real): Vertex {
    Vertex(p0.x + t * (p1.x - p0.x), p0.y + t * (p1.y - p0.y))
  }

  /** A product of two non-negative numbers is non-negative. */
  lemma NonNegativeProduct(x: real, y: real)
    requires 0.0 <= x && 0.0 <= y
    ensures 0.0 <= x * y
  {
  }

  /** A product of two positive numbers is positive. */
  lemma PositiveProduct(x: real, y: real)
    requires 0.0 < x && 0.0 < y
    ensures 0.0 < x * y
  {
  }

  /** A point between two values lies between them. */
  lemma BetweenBounds(a: real, b: real, t: real, lo: real, hi: real)
    requires 0.0 <= t <= 1.0 && lo <= a <= hi && lo <= b <= hi
    ensures lo <= a + t * (b - a) <= hi
  {
    NonNegativeProduct(1.0 - t, a - lo);
    NonNegativeProduct(t, b - lo);
    assert a + t * (b - a) - lo == (1.0 - t) * (a - lo) + t * (b - lo);
    NonNegativeProduct(1.0 - t, hi - a);
    NonNegativeProduct(t, hi - b);
    assert hi - (a + t * (b - a)) == (1.0 - t) * (hi - a) + t * (hi - b);
  }

  /** A point between two values below (above) a bound is below (above) it too. */
  lemma BetweenBelow(a: real, b: real, t: real, bound: real)
    requires 0.0 <= t <= 1.0 && a < bound && b < bound
    ensures a + t * (b - a) < bound
  {
    var u, da, db := 1.0 - t, bound - a, bound - b;
    assert bound - (a + t * (b - a)) == u * da + t * db;
    if t < 1.0 {
      PositiveProduct(u, da);
      NonNegativeProduct(t, db);
    } else {
      assert u == 0.0;
      PositiveProduct(t, db);
    }
  }

  /** An accepted line lies inside the image domain from end to end. */
  lemma AcceptedLineInside(p0: Vertex, p1: Vertex, bottomRight: Vertex, t: real)
    requires ClipDecision(Outcode(p0, bottomRight), Outcode(p1, bottomRight)) == Accept
    requires 0.0 <= t <= 1.0
    ensures Outcode(Lerp(p0, p1, t), bottomRight) == Inside
  {
    BetweenBounds(p0.x, p1.x, t, 0.0, bottomRight.x);
    BetweenBounds(p0.y, p1.y, t, 0.0, bottomRight.y);
  }

  /** A rejected line misses the image domain from end to end. */
  lemma RejectedLineOutside(p0: Vertex, p1: Vertex, bottomRight: Vertex, t: real)
    requires ClipDecision(Outcode(p0, bottomRight), Outcode(p1, bottomRight)) == Reject
    requires 0.0 <= t <= 1.0
    ensures Outcode(Lerp(p0, p1, t), bottomRight) != Inside
  {
    var c0, c1 := Outcode(p0, bottomRight), Outcode(p1, bottomRight);
    var q := Lerp(p0, p1, t);
    if c0 & c1 & Left != 0 {
      BetweenBelow(p0.x, p1.x, t, 0.0);
    } else if c0 & c1 & Right != 0 {
      BetweenBelow(-p0.x, -p1.x, t, -bottomRight.x);
      assert q.x > bottomRight.x;
    } else if c0 & c1 & Top != 0 {
      BetweenBelow(p0.y, p1.y, t, 0.0);
    } else {
      assert c0 & c1 & Bottom != 0;
      BetweenBelow(-p0.y, -p1.y, t, -bottomRight.y);
      assert q.y > bottomRight.y;
    }
  }

  // ---------------------------------------------------------------------------------
  // Writing pixels
  // ---------------------------------------------------------------------------------

  /** Pixel `j` of a line of `length` pixels is in the clamped span from `start` to `end`. */
  predicate InSpan(j: int, start: int, end: int, length: int) {
    (if start < 0 then 0 else start) <= j <= (if end < length - 1 then end else length - 1)
  }

  /**
   * Clamping the span to the line is intersecting it with the line: a pixel is in the
   * clamped span exactly when it is on the line and between `start` and `end`. When the
   * span starts past the line's end or ends before its start, no pixel is in it.
   */
  lemma ClampedSpanIsIntersection(j: int, start: int, end: int, length: int)
    ensures InSpan(j, start, end, length) <==> 0 <= j < length && start <= j <= end
    ensures start > length - 1 || end < 0 ==> !InSpan(j, start, end, length)
  {
  }

  /**
   * The span fill of the polygon filler: every tensor element of every pixel of the line
   * from `start` to `end`, clamped to the line, is set to `value`; nothing else changes.
   */
  method FillLine<T>(line: array2<T>, start: int, end: int, length: int, value: seq<T>)
    requires line.Length0 == length && line.Length1 == |value|
    modifies line
    ensures forall j, k :: 0 <= j < line.Length0 && 0 <= k < line.Length1 ==>
      line[j, k] == if InSpan(j, start, end, length) then value[k] else old(line[j, k])
  {
    if start > length - 1 || end < 0 {
      return;
    }
    var first := if start < 0 then 0 else start;
    var last := if end < length - 1 then end else length - 1;
    var jj := first;
    while jj <= last
      invariant first <= jj <= if first <= last then last + 1 else first
      invariant forall j, k :: 0 <= j < line.Length0 && 0 <= k < line.Length1 ==>
        line[j, k] == if first <= j < jj then value[k] else old(line[j, k])
    {
      for ii := 0 to |value|
        invariant forall j, k :: 0 <= j < line.Length0 && 0 <= k < line.Length1 ==>
          line[j, k] == if first <= j < jj || (j == jj && k < ii) then value[k] else old(line[j, k])
      {
        line[jj, ii] := value[ii];
      }
      jj := jj + 1;
    }
  }

  /** `n` blends of `v` into `a`: what a pixel holds after the line passes over it `n` times. */
  function Blended<T>(blend: (T, T) -> T, a: T, v: T, n: nat): T {
    if n == 0 then a else blend(Blended(blend, a, v, n - 1), v)
  }

  /** How often pixel `p` is on the line. */
  function Visits(offsets: seq<nat>, p: nat): nat {
    multiset(offsets)[p]
  }

  /**
   * The line writer: at each pixel of the line, each tensor element is blended with the
   * matching element of `value`. A pixel the line visits `n` times is blended `n` times;
   * a pixel it does not visit is unchanged.
   */
  method DrawOneLine<T>(image: array2<T>, offsets: seq<nat>, value: seq<T>, blend: (T, T) -> T)
    requires |offsets| >= 1 && image.Length1 == |value|
    requires forall i :: 0 <= i < |offsets| ==> offsets[i] < image.Length0
    modifies image
    ensures forall p, k :: 0 <= p < image.Length0 && 0 <= k < image.Length1 ==>
      image[p, k] == Blended(blend, old(image[p, k]), value[k], Visits(offsets, p))
  {
    var i := 0;
    while true
      invariant 0 <= i < |offsets|
      invariant forall p, k :: 0 <= p < image.Length0 && 0 <= k < image.Length1 ==>
        image[p, k] == Blended(blend, old(image[p, k]), value[k], Visits(offsets[..i], p))
      decreases |offsets| - i
    {
      var offset := offsets[i];
      assert offsets[..i + 1] == offsets[..i] + [offset];
      for k := 0 to |value|
        invariant forall p, kk :: 0 <= p < image.Length0 && 0 <= kk < image.Length1 ==>
          image[p, kk] == Blended(blend, old(image[p, kk]), value[kk],
                                  Visits(offsets[..i], p) + if p == offset && kk < k then 1 else 0)
      {
        image[offset, k] := blend(image[offset, k], value[k]);
      }
      i := i + 1;
      if i == |offsets| {
        assert offsets[..i] == offsets;
        return;
      }
    }
  }

  /** With the `"assign"` blend, every pixel on the line takes the value; the others keep theirs. */
  lemma AssignDrawsValue<T>(a: T, v: T, n: nat)
    ensures Blended((x: T, y: T) => y, a, v, n) == if n == 0 then a else v
  {
  }

  /** A line that visits no pixel twice blends each of its pixels exactly once. */
  lemma {:induction false} DistinctLineVisitsOnce(offsets: seq<nat>, p: nat)
    requires forall i, j :: 0 <= i < j < |offsets| ==> offsets[i] != offsets[j]
    ensures Visits(offsets, p) == if p in offsets then 1 else 0
  {
    if offsets != [] {
      var n := |offsets| - 1;
      assert offsets == offsets[..n] + [offsets[n]];
      DistinctLineVisitsOnce(offsets[..n], p);
      assert offsets[n] !in offsets[..n];
    }
  }

  // ---------------------------------------------------------------------------------
  // Polygon edges
  // ---------------------------------------------------------------------------------

  /**
   * A polygon edge across the scan lines, from scan line `yMin` to `yMax`, at position
   * `x` on scan line `yMin` and moving by `slope` per scan line.
   */
  datatype Edge = Edge(yMin: int, yMax: int, x: real, slope: real)
  {
    /** An active edge spans at least two scan lines. */
    predicate Active() { yMin < yMax }
  }

  /** The order in which the polygon's edges are sorted: by first scan line, then by position. */
  predicate EdgeBefore(a: Edge, b: Edge) {
    if a.yMin == b.yMin then a.x < b.x else a.yMin < b.yMin
  }

  /**
   * The edge order is a strict order whose incomparable edges agree on the sort key,
   * as sorting requires.
   */
  lemma EdgeBeforeIsStrictOrder(a: Edge, b: Edge, c: Edge)
    ensures !EdgeBefore(a, a)
    ensures EdgeBefore(a, b) ==> !EdgeBefore(b, a)
    ensures EdgeBefore(a, b) && EdgeBefore(b, c) ==> EdgeBefore(a, c)
    ensures !EdgeBefore(a, b) && !EdgeBefore(b, a) <==> a.yMin == b.yMin && a.x == b.x
  {
  }

  /**
   * Two consecutive edges meet at scan line `y` where the polygon passes through it
   * (an "I" vertex): one ends where the other starts.
   */
  predicate FormsIVertex(a: Edge, b: Edge, y: int) {
    (a.yMax == y && b.yMin == y) || (a.yMin == y && b.yMax == y)
  }

  /**
   * Two consecutive edges meet at scan line `y` where the polygon stays on one side of it
   * (a "V" vertex): both end there, or both start there.
   */
  predicate FormsVVertex(a: Edge, b: Edge, y: int) {
    (a.yMax == y && b.yMax == y) || (a.yMin == y && b.yMin == y)
  }

  /** Neither vertex test depends on the order of the two edges. */
  lemma VertexTestsSymmetric(a: Edge, b: Edge, y: int)
    ensures FormsIVertex(a, b, y) == FormsIVertex(b, a, y)
    ensures FormsVVertex(a, b, y) == FormsVVertex(b, a, y)
  {
  }

  /**
   * Two active edges that both have an end on scan line `y` form exactly one kind of
   * vertex there; if either has no end there, they form neither.
   */
  lemma VertexKinds(a: Edge, b: Edge, y: int)
    requires a.Active() && b.Active()
    ensures (a.yMin == y || a.yMax == y) && (b.yMin == y || b.yMax == y) ==>
      FormsIVertex(a, b, y) != FormsVVertex(a, b, y)
    ensures !((a.yMin == y || a.yMax == y) && (b.yMin == y || b.yMax == y)) ==>
      !FormsIVertex(a, b, y) && !FormsVVertex(a, b, y)
  {
  }

  /** The edges that still cross scan line `y`, in their order. */
  function StillActive(edges: seq<Edge>, y: int): seq<Edge> {
    if edges == [] then []
    else (if edges[0].yMax < y then [] else [edges[0]]) + StillActive(edges[1..], y)
  }

  /**
   * The removal loop of the polygon filler: walking the active edges from the back, it
   * erases each edge that ends before scan line `y`.
   */
  method RemoveInactive(active: seq<Edge>, y: int) returns (r: seq<Edge>)
    ensures r == StillActive(active, y)
  {
    r := active;
    var ii := |r|;
    while ii > 0
      invariant 0 <= ii <= |active|
      invariant r == active[..ii] + StillActive(active[ii..], y)
    {
      ii := ii - 1;
      assert active[ii..] == [active[ii]] + active[ii + 1..];
      assert r[ii] == active[ii];
      if r[ii].yMax < y {
        r := r[..ii] + r[ii + 1..];
      }
      assert r == active[..ii] + StillActive(active[ii..], y) by {
        assert active[..ii + 1] == active[..ii] + [active[ii]];
      }
    }
    assert active[0..] == active;
  }

  /** `sub` is `s` with some elements left out, the others in their order. */
  predicate Subsequence<T(==)>(sub: seq<T>, s: seq<T>)
    decreases |s|
  {
    if sub == [] then true
    else if s == [] then false
    else (sub[0] == s[0] && Subsequence(sub[1..], s[1..])) || Subsequence(sub, s[1..])
  }

  /**
   * The loop keeps exactly the edges that end on or after scan line `y`, each as often
   * as it was there, in their original order.
   */
  lemma {:induction false} StillActiveKeepsExactlyTheLiveEdges(edges: seq<Edge>, y: int, e: Edge)
    ensures multiset(StillActive(edges, y))[e] == if e.yMax < y then 0 else multiset(edges)[e]
    ensures e in StillActive(edges, y) <==> e in edges && e.yMax >= y
    ensures Subsequence(StillActive(edges, y), edges)
  {
    if edges != [] {
      StillActiveKeepsExactlyTheLiveEdges(edges[1..], y, e);
      assert edges == [edges[0]] + edges[1..];
      var rest := StillActive(edges[1..], y);
      if edges[0].yMax >= y {
        assert StillActive(edges, y) == [edges[0]] + rest;
        assert StillActive(edges, y)[1..] == rest;
      } else {
        assert StillActive(edges, y) == rest;
        if rest != [] {
          SubsequenceOfTail(rest, edges);
        }
      }
    }
  }

  /** A subsequence of the tail is a subsequence of the whole. */
  lemma SubsequenceOfTail<T>(sub: seq<T>, s: seq<T>)
    requires s != [] && sub != [] && Subsequence(sub, s[1..])
    ensures Subsequence(sub, s)
  {
  }

  // ---------------------------------------------------------------------------------
  // Argument checks
  // ---------------------------------------------------------------------------------

  /** How the line drawers combine the drawn value with what is already there. */
  datatype Blend = Assign | Add

  /** The blend named by a string: `"assign"` or `"add"`; anything else is an invalid flag. */
  function BlendOf(name: string): (r: Result<Blend>)
    ensures r.Success? <==> name in {"assign", "add"}
    ensures r.Failure? ==> r.error == InvalidFlag
    ensures r.Success? ==> (r.value == Assign <==> name == "assign")
  {
    if name == "assign" then Success(Assign)
    else if name == "add" then Success(Add)
    else Failure(InvalidFlag)
  }

  /** A coordinate array with one entry per dimension, each below the image size. */
  predicate WithinImage(point: seq<nat>, sizes: seq<nat>) {
    |point| == |sizes| && forall d :: 0 <= d < |point| ==> point[d] < sizes[d]
  }

  /** A value with one tensor element, or as many as the image has, can be drawn. */
  predicate ValueFits(out: Image, valueElements: nat) {
    valueElements == 1 || out.tensor.elements == valueElements
  }

  /**
   * The checks of the single-line drawer, in order: a forged image of at least two
   * dimensions, a value that fits it, two endpoints of the image's dimensionality inside
   * it, a known blend, and a data type the `ALL` dispatch accepts.
   */
  function DrawLineCheck(out: Image, start: seq<nat>, end: seq<nat>, valueElements: nat, blend: string)
    : (r: Result<Blend>)
    ensures !out.forged ==> r == Failure(ImageNotForged)
    ensures out.forged && |out.sizes| < 2 ==> r == Failure(DimensionalityNotSupported)
    ensures out.forged && |out.sizes| >= 2 && !ValueFits(out, valueElements) ==> r == Failure(NTensorElemDontMatch)
    ensures out.forged && |out.sizes| >= 2 && ValueFits(out, valueElements) && |start| != |out.sizes|
            ==> r == Failure(ArrayParameterWrongLength)
    ensures out.forged && |out.sizes| >= 2 && ValueFits(out, valueElements) && |end| != |out.sizes|
            ==> r == Failure(ArrayParameterWrongLength)
    ensures out.forged && |out.sizes| >= 2 && ValueFits(out, valueElements) && |start| == |end| == |out.sizes|
            && !(WithinImage(start, out.sizes) && WithinImage(end, out.sizes))
            ==> r == Failure(CoordinatesOutOfRange)
    ensures out.forged && |out.sizes| >= 2 && ValueFits(out, valueElements)
            && WithinImage(start, out.sizes) && WithinImage(end, out.sizes) && blend !in {"assign", "add"}
            ==> r == Failure(InvalidFlag)
    ensures r.Success? <==>
      out.forged && |out.sizes| >= 2 && ValueFits(out, valueElements)
      && WithinImage(start, out.sizes) && WithinImage(end, out.sizes) && blend in {"assign", "add"}
    ensures r.Success? ==> r == BlendOf(blend)
  {
    if !out.forged then Failure(ImageNotForged)
    else if |out.sizes| < 2 then Failure(DimensionalityNotSupported)
    else if !ValueFits(out, valueElements) then Failure(NTensorElemDontMatch)
    else if |start| != |out.sizes| || |end| != |out.sizes| then Failure(ArrayParameterWrongLength)
    else if !WithinImage(start, out.sizes) || !WithinImage(end, out.sizes) then Failure(CoordinatesOutOfRange)
    else
      AllCoversEveryType(out.dataType);
      match BlendOf(blend)
      case Failure(e) => Failure(e)
      case Success(b) =>
        match Dispatch(All, out.dataType)
        case Failure(e) => Failure(e)
        case Success(_) => Success(b)
  }

  /** The first point of the list that is of the wrong dimensionality or outside the image decides the error. */
  function PointsVerdict(points: seq<seq<nat>>, sizes: seq<nat>): (r: Result<()>)
    ensures r.Failure? ==> r.error in {ArrayParameterWrongLength, CoordinatesOutOfRange}
  {
    if points == [] then Success(())
    else if |points[0]| != |sizes| then Failure(ArrayParameterWrongLength)
    else if !WithinImage(points[0], sizes) then Failure(CoordinatesOutOfRange)
    else PointsVerdict(points[1..], sizes)
  }

  /**
   * The points pass exactly when all are inside the image; otherwise the first bad point
   * decides the error: a wrong dimensionality before a coordinate out of range.
   */
  lemma {:induction false} PointsVerdictFindsFirstBadPoint(points: seq<seq<nat>>, sizes: seq<nat>)
    ensures PointsVerdict(points, sizes).Success? <==> forall i :: 0 <= i < |points| ==> WithinImage(points[i], sizes)
    ensures forall i :: 0 <= i < |points| && !WithinImage(points[i], sizes)
                        && (forall j :: 0 <= j < i ==> WithinImage(points[j], sizes)) ==>
      PointsVerdict(points, sizes)
        == Failure(if |points[i]| != |sizes| then ArrayParameterWrongLength else CoordinatesOutOfRange)
  {
    if points != [] {
      PointsVerdictFindsFirstBadPoint(points[1..], sizes);
      forall i | 0 <= i < |points| && !WithinImage(points[i], sizes)
                 && (forall j :: 0 <= j < i ==> WithinImage(points[j], sizes))
        ensures PointsVerdict(points, sizes)
                == Failure(if |points[i]| != |sizes| then ArrayParameterWrongLength else CoordinatesOutOfRange)
      {
        if i > 0 {
          assert WithinImage(points[0], sizes);
          assert points[1..][i - 1] == points[i];
          forall j | 0 <= j < i - 1 ensures WithinImage(points[1..][j], sizes) {
            assert points[1..][j] == points[j + 1];
          }
        }
      }
      if forall i :: 0 <= i < |points| ==> WithinImage(points[i], sizes) {
        forall j | 0 <= j < |points| - 1 ensures WithinImage(points[1..][j], sizes) {
          assert points[1..][j] == points[j + 1];
        }
      }
    }
  }

  /**
   * The checks of the poly-line drawer, in order: a forged image of at least two
   * dimensions, a value that fits it, at least two points, every point inside the image,
   * a known blend, and a data type the `ALL` dispatch accepts.
   */
  function DrawLinesVerdict(out: Image, points: seq<seq<nat>>, valueElements: nat, blend: string): (r: Result<Blend>)
  {
    if !out.forged then Failure(ImageNotForged)
    else if |out.sizes| < 2 then Failure(DimensionalityNotSupported)
    else if !ValueFits(out, valueElements) then Failure(NTensorElemDontMatch)
    else if |points| < 2 then Failure(ArrayParameterWrongLength)
    else if PointsVerdict(points, out.sizes).Failure? then Failure(PointsVerdict(points, out.sizes).error)
    else
      match BlendOf(blend)
      case Failure(e) => Failure(e)
      case Success(b) =>
        match Dispatch(All, out.dataType)
        case Failure(e) => Failure(e)
        case Success(_) => Success(b)
  }

  /** The poly-line drawer accepts exactly a forged image, a fitting value, two or more points inside it, and a known blend. */
  lemma DrawLinesAccepts(out: Image, points: seq<seq<nat>>, valueElements: nat, blend: string)
    ensures DrawLinesVerdict(out, points, valueElements, blend).Success? <==>
      out.forged && |out.sizes| >= 2 && ValueFits(out, valueElements) && |points| >= 2
      && (forall i :: 0 <= i < |points| ==> WithinImage(points[i], out.sizes)) && blend in {"assign", "add"}
  {
    PointsVerdictFindsFirstBadPoint(points, out.sizes);
    AllCoversEveryType(out.dataType);
  }

  /** The checks of the poly-line drawer, with the loop over the points. */
  method DrawLines(out: Image, points: seq<seq<nat>>, valueElements: nat, blend: string) returns (r: Result<Blend>)
    ensures r == DrawLinesVerdict(out, points, valueElements, blend)
  {
    if !out.forged {
      return Failure(ImageNotForged);
    }
    if |out.sizes| < 2 {
      return Failure(DimensionalityNotSupported);
    }
    if !ValueFits(out, valueElements) {
      return Failure(NTensorElemDontMatch);
    }
    if |points| < 2 {
      return Failure(ArrayParameterWrongLength);
    }
    for i := 0 to |points|
      invariant PointsVerdict(points, out.sizes) == PointsVerdict(points[i..], out.sizes)
    {
      assert points[i..][0] == points[i] && points[i..][1..] == points[i + 1..];
      if |points[i]| != |out.sizes| {
        return Failure(ArrayParameterWrongLength);
      }
      if !WithinImage(points[i], out.sizes) {
        return Failure(CoordinatesOutOfRange);
      }
    }
    r := BlendOf(blend);
    if r.Success? {
      var dispatched := Dispatch(All, out.dataType);
      if dispatched.Failure? {
        r := Failure(dispatched.error);
      }
    }
  }

  /** How a polygon is drawn. */
  datatype PolygonMode = Filled | Open | Closed

  /** The mode named by a string: `"filled"`, `"open"` or `"closed"`; anything else is an invalid flag. */
  function PolygonModeOf(name: string): (r: Result<PolygonMode>)
    ensures r.Success? <==> name in {"filled", "open", "closed"}
    ensures r.Failure? ==> r.error == InvalidFlag
  {
    if name == "filled" then Success(Filled)
    else if name == "open" then Success(Open)
    else if name == "closed" then Success(Closed)
    else Failure(InvalidFlag)
  }

  /** The fewest vertices a polygon drawn in `mode` may have: 2 for an open one, else 3. */
  function MinVertices(mode: PolygonMode): nat {
    if mode == Open then 2 else 3
  }

  /**
   * The checks of the polygon drawer, in order: a forged two-dimensional image, a value
   * that fits it, a known mode, enough vertices for that mode, and a data type the `ALL`
   * dispatch accepts.
   */
  function DrawPolygon2DCheck(out: Image, nVertices: nat, valueElements: nat, mode: string): (r: Result<PolygonMode>)
    ensures !out.forged ==> r == Failure(ImageNotForged)
    ensures out.forged && |out.sizes| != 2 ==> r == Failure(DimensionalityNotSupported)
    ensures out.forged && |out.sizes| == 2 && !ValueFits(out, valueElements) ==> r == Failure(NTensorElemDontMatch)
    ensures out.forged && |out.sizes| == 2 && ValueFits(out, valueElements) && PolygonModeOf(mode).Failure?
            ==> r == Failure(InvalidFlag)
    ensures out.forged && |out.sizes| == 2 && ValueFits(out, valueElements) && mode in {"filled", "open", "closed"}
            && nVertices < (if mode == "open" then 2 else 3)
            ==> r == Failure(ArrayParameterWrongLength)
    ensures r.Success? <==>
      out.forged && |out.sizes| == 2 && ValueFits(out, valueElements)
      && mode in {"filled", "open", "closed"} && nVertices >= (if mode == "open" then 2 else 3)
    ensures r.Success? ==> r == PolygonModeOf(mode)
  {
    if !out.forged then Failure(ImageNotForged)
    else if |out.sizes| != 2 then Failure(DimensionalityNotSupported)
    else if !ValueFits(out, valueElements) then Failure(NTensorElemDontMatch)
    else
      match PolygonModeOf(mode)
      case Failure(e) => Failure(e)
      case Success(m) =>
        if nVertices < MinVertices(m) then Failure(ArrayParameterWrongLength)
        else
          AllCoversEveryType(out.dataType);
          match Dispatch(All, out.dataType)
          case Failure(e) => Failure(e)
          case Success(_) => Success(m)
  }

  // ---------------------------------------------------------------------------------
  // Grid types
  // ---------------------------------------------------------------------------------

  /** The grids the random-grid generators can fill. */
  datatype GridType = Rectangular | Hexagonal | Bcc | Fcc

  /** The name of each grid. */
  function GridName(g: GridType): string {
    match g
    case Rectangular => "rectangular"
    case Hexagonal => "hexagonal"
    case Bcc => "bcc"
    case Fcc => "fcc"
  }

  /** The grid named by a string; any other string is an invalid flag. */
  function GetGridType(name: string): (r: Result<GridType>)
    ensures r.Failure? ==> r.error == InvalidFlag
  {
    if name == "rectangular" then Success(Rectangular)
    else if name == "hexagonal" then Success(Hexagonal)
    else if name == "bcc" then Success(Bcc)
    else if name == "fcc" then Success(Fcc)
    else Failure(InvalidFlag)
  }

  /** Every grid is found by its name, and a name that is found names the grid found. */
  lemma GridTypeRoundTrip(g: GridType, name: string)
    ensures GetGridType(GridName(g)) == Success(g)
    ensures GetGridType(name).Success? ==> GridName(GetGridType(name).value) == name
    ensures GetGridType(name).Success? <==> name in {"rectangular", "hexagonal", "bcc", "fcc"}
  {
  }
}
