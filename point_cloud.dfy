/**
  Point-cloud construction of the streaming server (RealSenseStreamer.generate_point_cloud in
  services/server.py): every second row and column of an aligned depth/colour frame pair is
  sampled, samples without a depth return are dropped, and the rest are unprojected through the
  pinhole intrinsics, each point paired with the pixel's colour converted from BGR to RGB.
  Python floats are modelled as exact reals.
*/
module PointCloud {
  import opened Wrappers

  /** One channel of an 8-bit colour image. */
  type Channel = x: int | 0 <= x < 256

  /** A three-channel pixel, channels in storage order (BGR in the frame, RGB in the cloud). */
  datatype Triple = Triple(c0: Channel, c1: Channel, c2: Channel)

  datatype Point3 = Point3(x: real, y: real, z: real)

  /** The pinhole intrinsics the builder reads: focal lengths and principal point, in pixels. */
  datatype Intrinsics = Intrinsics(fx: real, fy: real, ppx: real, ppy: real)

  /** The dictionary built per tick: parallel point and colour lists and the capture time. */
  datatype Cloud = Cloud(points: seq<Point3>, colors: seq<Triple>, timestamp: real)

  /** A pixel position as (row y, column x). */
  type Pixel = (nat, nat)

  predicate ValidIntrinsics(intr: Intrinsics) {
    intr.fx != 0.0 && intr.fy != 0.0
  }

  /** Number of columns of a row-major grid (numpy's shape[1]). */
  function Width<T>(g: seq<seq<T>>): nat {
    if |g| == 0 then 0 else |g[0]|
  }

  /** A grid is rectangular, as every numpy image is. */
  predicate IsGrid<T>(g: seq<seq<T>>) {
    forall y :: 0 <= y < |g| ==> |g[y]| == Width(g)
  }

  predicate InGrid<T>(g: seq<seq<T>>, p: Pixel) {
    p.0 < |g| && p.1 < Width(g)
  }

  /** Every pixel of ps lies inside grid g. */
  predicate AllIn<T>(g: seq<seq<T>>, ps: seq<Pixel>) {
    forall k :: 0 <= k < |ps| ==> InGrid(g, ps[k])
  }

  /** The sample of g at p; the default stands for positions outside g, which no caller reads. */
  function At<T>(g: seq<seq<T>>, p: Pixel, default: T): T {
    if p.0 < |g| && p.1 < |g[p.0]| then g[p.0][p.1] else default
  }

  /** A pixel the builder keeps: on an even row and even column, with a non-zero depth sample. */
  predicate IsKept(depth: seq<seq<nat>>, p: Pixel)
    requires IsGrid(depth)
  {
    InGrid(depth, p) && p.0 % 2 == 0 && p.1 % 2 == 0 && depth[p.0][p.1] > 0
  }

  /** The set of kept pixels, independent of any visiting order. */
  function KeptSet(depth: seq<seq<nat>>): set<Pixel>
    requires IsGrid(depth)
  {
    set y: nat, x: nat | y < |depth| && x < Width(depth) && IsKept(depth, (y, x)) :: (y, x)
  }

  /** Strict row-major order on pixels, the order of the nested y/x loops. */
  predicate Before(p: Pixel, q: Pixel) {
    p.0 < q.0 || (p.0 == q.0 && p.1 < q.1)
  }

  predicate RowMajor(ps: seq<Pixel>) {
    forall i, j :: 0 <= i < j < |ps| ==> Before(ps[i], ps[j])
  }

  /** cv2.COLOR_BGR2RGB: the first and third channels trade places. */
  function SwapRedBlue(t: Triple): (r: Triple)
    ensures r.c1 == t.c1 && r.c0 == t.c2 && r.c2 == t.c0
  {
    Triple(t.c2, t.c1, t.c0)
  }

  /** Pinhole unprojection of pixel p with raw depth `raw` and the frame's depth units. */
  function Unproject(intr: Intrinsics, p: Pixel, raw: nat, scale: real): (pt: Point3)
    requires ValidIntrinsics(intr)
    ensures pt.z == raw as real * scale
    ensures pt.x * intr.fx == (p.1 as real - intr.ppx) * pt.z
    ensures pt.y * intr.fy == (p.0 as real - intr.ppy) * pt.z
  {
    var z := raw as real * scale;
    Point3(ToCamera(intr.fx, intr.ppx, p.1 as real, z), ToCamera(intr.fy, intr.ppy, p.0 as real, z), z)
  }

  /** One axis of the unprojection: (pixel - principal point) * z / focal length. */
  function ToCamera(f: real, c: real, pixel: real, z: real): (r: real)
    requires f != 0.0
    ensures r * f == (pixel - c) * z
  {
    (pixel - c) * z / f
  }

  /** One axis of the projection: focal length * coordinate / z + principal point. */
  function ToPixel(f: real, c: real, coord: real, z: real): real
    requires z != 0.0
  {
    f * coord / z + c
  }

  /** Pinhole projection, the inverse of Unproject for points in front of the camera. */
  function Project(intr: Intrinsics, pt: Point3): (real, real)
    requires pt.z != 0.0
  {
    (ToPixel(intr.fx, intr.ppx, pt.x, pt.z), ToPixel(intr.fy, intr.ppy, pt.y, pt.z))
  }

  /** How many positions range(0, n, 2) visits. */
  function Samples(n: nat): (k: nat)
    ensures n <= 2 * k <= n + 1
  {
    if n <= 1 then n else 1 + Samples(n - 2)
  }

  /** Kept pixels of row y among its first j sampled columns 0, 2, ..., 2(j-1). */
  function RowKept(depth: seq<seq<nat>>, y: nat, j: nat): (r: seq<Pixel>)
    requires IsGrid(depth) && y < |depth| && y % 2 == 0 && 2 * j <= Width(depth) + 1
    ensures forall k :: 0 <= k < |r| ==> r[k].0 == y && r[k].1 < 2 * j && IsKept(depth, r[k])
  {
    if j == 0 then []
    else RowKept(depth, y, j - 1) + (if depth[y][2 * (j - 1)] > 0 then [(y, 2 * (j - 1))] else [])
  }

  /** Kept pixels of the first i sampled rows 0, 2, ..., 2(i-1), in row-major order. */
  function RowsKept(depth: seq<seq<nat>>, i: nat): (r: seq<Pixel>)
    requires IsGrid(depth) && 2 * i <= |depth| + 1
    ensures forall k :: 0 <= k < |r| ==> r[k].0 < 2 * i && IsKept(depth, r[k])
  {
    if i == 0 then []
    else RowsKept(depth, i - 1) + RowKept(depth, 2 * (i - 1), Samples(Width(depth)))
  }

  /** Every kept pixel of the frame, in the order the builder visits them. */
  function KeptPixels(depth: seq<seq<nat>>): (r: seq<Pixel>)
    requires IsGrid(depth)
    ensures forall k :: 0 <= k < |r| ==> IsKept(depth, r[k])
  {
    RowsKept(depth, Samples(|depth|))
  }

  /** The points of the pixels ps, in order. */
  function PointsOf(intr: Intrinsics, depth: seq<seq<nat>>, scale: real, ps: seq<Pixel>): (r: seq<Point3>)
    requires ValidIntrinsics(intr)
  {
    seq(|ps|, k requires 0 <= k < |ps| => Unproject(intr, ps[k], At(depth, ps[k], 0), scale))
  }

  /** The colours of the pixels ps, in order, converted to RGB. */
  function ColorsOf(color: seq<seq<Triple>>, ps: seq<Pixel>): (r: seq<Triple>)
  {
    seq(|ps|, k requires 0 <= k < |ps| => SwapRedBlue(At(color, ps[k], Triple(0, 0, 0))))
  }

  /**
    What generate_point_cloud returns: None when it raises (cv2.cvtColor refuses an empty colour
    image; indexing the colour image at a kept pixel outside it raises IndexError), otherwise the
    points and colours of the kept pixels in visiting order.
  */
  function PointCloudOf(intr: Intrinsics, depth: seq<seq<nat>>, scale: real,
                        color: seq<seq<Triple>>, timestamp: real): (r: Option<Cloud>)
    requires ValidIntrinsics(intr) && IsGrid(depth) && IsGrid(color)
    ensures r.Some? ==>
      |r.value.points| == |r.value.colors| == |KeptPixels(depth)| && r.value.timestamp == timestamp
  {
    var ks := KeptPixels(depth);
    if |color| == 0 || Width(color) == 0 then None
    else if AllIn(color, ks) then
      Some(Cloud(PointsOf(intr, depth, scale, ks), ColorsOf(color, ks), timestamp))
    else None
  }

  /**
    The builder's outer loop over rows 0, 2, 4, ...; the inner loop over columns is SampleRow.
    Points and colours are appended together for every pixel with a depth return.
  */
  method GeneratePointCloud(intr: Intrinsics, depth: seq<seq<nat>>, scale: real,
                            color: seq<seq<Triple>>, timestamp: real) returns (r: Option<Cloud>)
    requires ValidIntrinsics(intr) && IsGrid(depth) && IsGrid(color)
    ensures r == PointCloudOf(intr, depth, scale, color, timestamp)
  {
    if |color| == 0 || Width(color) == 0 {
      return None;
    }
    var height := |depth|;
    var points: seq<Point3> := [];
    var colors: seq<Triple> := [];
    var y := 0;
    ghost var i := 0;   // rows sampled so far
    while y < height
      invariant y == 2 * i && y % 2 == 0 && y <= height + 1
      invariant AllIn(color, RowsKept(depth, i))
      invariant points == PointsOf(intr, depth, scale, RowsKept(depth, i))
      invariant colors == ColorsOf(color, RowsKept(depth, i))
    {
      var ok;
      ok, points, colors := SampleRow(intr, depth, scale, color, y, RowsKept(depth, i), points, colors);
      if !ok {
        RowOutsideColor(intr, depth, scale, color, timestamp, 2 * i);
        return None;
      }
      RowsKeptStep(depth, i);
      y, i := y + 2, i + 1;
    }
    assert i == Samples(height);
    AllRowsInColor(intr, depth, scale, color, timestamp);
    return Some(Cloud(points, colors, timestamp));
  }

  /**
    The builder's inner loop over columns 0, 2, 4, ... of row y, extending the points and colours
    of the pixels visited before. It fails (the IndexError of the source) when a kept pixel of
    the row lies outside the colour image, and then no cloud is built.
  */
  method SampleRow(intr: Intrinsics, depth: seq<seq<nat>>, scale: real, color: seq<seq<Triple>>,
                   y: nat, ghost before: seq<Pixel>, points0: seq<Point3>, colors0: seq<Triple>)
    returns (ok: bool, points: seq<Point3>, colors: seq<Triple>)
    requires ValidIntrinsics(intr) && IsGrid(depth) && IsGrid(color)
    requires y < |depth| && y % 2 == 0
    requires AllIn(color, before)
    requires points0 == PointsOf(intr, depth, scale, before) && colors0 == ColorsOf(color, before)
    ensures var row := RowKept(depth, y, Samples(Width(depth)));
      && (ok <==> AllIn(color, row))
      && (ok ==> points == PointsOf(intr, depth, scale, before + row)
                 && colors == ColorsOf(color, before + row))
  {
    var width := Width(depth);
    points, colors := points0, colors0;
    var x := 0;
    ghost var j := 0;   // columns sampled so far
    assert before + RowKept(depth, y, 0) == before;
    while x < width
      invariant x == 2 * j && x <= width + 1
      invariant Scanned(intr, depth, scale, color, before + RowKept(depth, y, j), points, colors)
    {
      var d := depth[y][x];
      if d > 0 && !(y < |color| && x < Width(color)) {
        RowKeptComplete(depth, y, Samples(width), (y, x));
        return false, points, colors;
      }
      ScanStep(intr, depth, scale, color, y, j, before, points, colors);
      if d > 0 {
        points := points + [Unproject(intr, (y, x), d, scale)];
        colors := colors + [SwapRedBlue(color[y][x])];
      }
      x, j := x + 2, j + 1;
    }
    assert j == Samples(width);
    AllInConcat(color, before, RowKept(depth, y, j));
    ok := true;
  }

  /** The state of the builder after visiting the pixels ps: their points and their colours. */
  predicate Scanned(intr: Intrinsics, depth: seq<seq<nat>>, scale: real, color: seq<seq<Triple>>,
                    ps: seq<Pixel>, points: seq<Point3>, colors: seq<Triple>)
    requires ValidIntrinsics(intr)
  {
    AllIn(color, ps) && points == PointsOf(intr, depth, scale, ps) && colors == ColorsOf(color, ps)
  }

  // ---------------------------------------------------------------------------------------------
  // Lemmas about the specification

  /** A kept pixel of one row outside the colour image is a kept pixel of the frame outside it. */
  lemma RowOutsideColor(intr: Intrinsics, depth: seq<seq<nat>>, scale: real,
                         color: seq<seq<Triple>>, timestamp: real, y: nat)
    requires ValidIntrinsics(intr) && IsGrid(depth) && IsGrid(color)
    requires y < |depth| && y % 2 == 0
    requires !AllIn(color, RowKept(depth, y, Samples(Width(depth))))
    ensures PointCloudOf(intr, depth, scale, color, timestamp) == None
  {
    var row := RowKept(depth, y, Samples(Width(depth)));
    var k :| 0 <= k < |row| && !InGrid(color, row[k]);
    KeptPixelsComplete(depth, row[k]);
    var ks := KeptPixels(depth);
    var m :| 0 <= m < |ks| && ks[m] == row[k];
  }

  /** Once every row is sampled inside the colour image, the cloud is what the rows built. */
  lemma AllRowsInColor(intr: Intrinsics, depth: seq<seq<nat>>, scale: real,
                       color: seq<seq<Triple>>, timestamp: real)
    requires ValidIntrinsics(intr) && IsGrid(depth) && IsGrid(color)
    requires |color| > 0 && Width(color) > 0
    requires AllIn(color, RowsKept(depth, Samples(|depth|)))
    ensures var ks := RowsKept(depth, Samples(|depth|));
      PointCloudOf(intr, depth, scale, color, timestamp)
        == Some(Cloud(PointsOf(intr, depth, scale, ks), ColorsOf(color, ks), timestamp))
  {
  }

  lemma AllInConcat<T>(g: seq<seq<T>>, a: seq<Pixel>, b: seq<Pixel>)
    ensures AllIn(g, a + b) <==> AllIn(g, a) && AllIn(g, b)
  {
    forall k | 0 <= k < |a| ensures (a + b)[k] == a[k] {
    }
    forall k | 0 <= k < |b| ensures (a + b)[|a| + k] == b[k] {
    }
  }

  /** Visiting column 2j of row y appends that pixel's point and colour when it is kept. */
  lemma ScanStep(intr: Intrinsics, depth: seq<seq<nat>>, scale: real, color: seq<seq<Triple>>,
                 y: nat, j: nat, before: seq<Pixel>, points: seq<Point3>, colors: seq<Triple>)
    requires ValidIntrinsics(intr) && IsGrid(depth) && IsGrid(color)
    requires y < |depth| && y % 2 == 0 && 2 * j < Width(depth)
    requires depth[y][2 * j] > 0 ==> InGrid(color, (y, 2 * j))
    requires Scanned(intr, depth, scale, color, before + RowKept(depth, y, j), points, colors)
    ensures var kept := depth[y][2 * j] > 0;
      Scanned(intr, depth, scale, color, before + RowKept(depth, y, j + 1),
              if kept then points + [Unproject(intr, (y, 2 * j), depth[y][2 * j], scale)] else points,
              if kept then colors + [SwapRedBlue(color[y][2 * j])] else colors)
  {
    var visited := before + RowKept(depth, y, j);
    RowKeptStep(depth, y, j, before);
    if depth[y][2 * j] > 0 {
      AppendPixel(intr, depth, scale, color, visited, (y, 2 * j));
    }
  }

  /** One more sampled column of row y extends the visited pixels by that column, if kept. */
  lemma RowKeptStep(depth: seq<seq<nat>>, y: nat, j: nat, before: seq<Pixel>)
    requires IsGrid(depth) && y < |depth| && y % 2 == 0 && 2 * j < Width(depth)
    ensures var step: seq<Pixel> := if depth[y][2 * j] > 0 then [(y, 2 * j)] else [];
      before + RowKept(depth, y, j + 1) == before + RowKept(depth, y, j) + step
  {
  }

  lemma RowsKeptStep(depth: seq<seq<nat>>, i: nat)
    requires IsGrid(depth) && 2 * (i + 1) <= |depth| + 1
    ensures RowsKept(depth, i + 1) == RowsKept(depth, i) + RowKept(depth, 2 * i, Samples(Width(depth)))
  {
  }

  /** Appending one pixel appends its point and its colour. */
  lemma AppendPixel(intr: Intrinsics, depth: seq<seq<nat>>, scale: real, color: seq<seq<Triple>>,
                    ps: seq<Pixel>, p: Pixel)
    requires ValidIntrinsics(intr) && IsGrid(depth) && IsGrid(color)
    requires AllIn(color, ps) && InGrid(depth, p) && InGrid(color, p)
    ensures AllIn(color, ps + [p])
    ensures PointsOf(intr, depth, scale, ps + [p])
         == PointsOf(intr, depth, scale, ps) + [Unproject(intr, p, depth[p.0][p.1], scale)]
    ensures ColorsOf(color, ps + [p]) == ColorsOf(color, ps) + [SwapRedBlue(color[p.0][p.1])]
  {
    AllInConcat(color, ps, [p]);
    assert forall k :: 0 <= k < |ps| ==> (ps + [p])[k] == ps[k];
  }

  lemma EvenBetween(n: nat, m: nat)
    requires n % 2 == 0 && 2 * m <= n < 2 * m + 2
    ensures n == 2 * m
  {
  }

  lemma EvenDouble(h: nat)
    ensures (2 * h) % 2 == 0
  {
  }

  lemma {:induction false} RowKeptComplete(depth: seq<seq<nat>>, y: nat, j: nat, p: Pixel)
    requires IsGrid(depth) && y < |depth| && y % 2 == 0 && 2 * j <= Width(depth) + 1
    requires IsKept(depth, p) && p.0 == y && p.1 < 2 * j
    ensures p in RowKept(depth, y, j)
  {
    if p.1 < 2 * (j - 1) {
      RowKeptComplete(depth, y, j - 1, p);
    } else {
      EvenBetween(p.1, j - 1);
    }
  }

  lemma {:induction false} RowsKeptComplete(depth: seq<seq<nat>>, i: nat, p: Pixel)
    requires IsGrid(depth) && 2 * i <= |depth| + 1
    requires IsKept(depth, p) && p.0 < 2 * i
    ensures p in RowsKept(depth, i)
  {
    assert i > 0;
    var h := i - 1;
    var y := 2 * h;
    EvenDouble(h);
    assert y < |depth|;
    RowsKeptStep(depth, h);
    var row := RowKept(depth, y, Samples(Width(depth)));
    assert RowsKept(depth, i) == RowsKept(depth, h) + row;
    if p.0 < 2 * h {
      RowsKeptComplete(depth, h, p);
      assert p in RowsKept(depth, h);
    } else {
      EvenBetween(p.0, h);
      RowKeptComplete(depth, y, Samples(Width(depth)), p);
      assert p in row;
    }
  }

  /** Every kept pixel is visited (the converse is the ensures of KeptPixels). */
  lemma KeptPixelsComplete(depth: seq<seq<nat>>, p: Pixel)
    requires IsGrid(depth)
    ensures p in KeptPixels(depth) <==> IsKept(depth, p)
  {
    if IsKept(depth, p) {
      RowsKeptComplete(depth, Samples(|depth|), p);
    }
  }

  lemma {:induction false} RowKeptOrdered(depth: seq<seq<nat>>, y: nat, j: nat)
    requires IsGrid(depth) && y < |depth| && y % 2 == 0 && 2 * j <= Width(depth) + 1
    ensures RowMajor(RowKept(depth, y, j))
  {
    if j > 0 {
      RowKeptOrdered(depth, y, j - 1);
      var a := RowKept(depth, y, j - 1);
      var b: seq<Pixel> := if depth[y][2 * (j - 1)] > 0 then [(y, 2 * (j - 1))] else [];
      forall p, q | p in a && q in b ensures Before(p, q) {
      }
      ConcatOrdered(a, b);
    }
  }

  lemma {:induction false} RowsKeptOrdered(depth: seq<seq<nat>>, i: nat)
    requires IsGrid(depth) && 2 * i <= |depth| + 1
    ensures RowMajor(RowsKept(depth, i))
  {
    if i > 0 {
      RowsKeptOrdered(depth, i - 1);
      var a := RowsKept(depth, i - 1);
      var b := RowKept(depth, 2 * (i - 1), Samples(Width(depth)));
      RowKeptOrdered(depth, 2 * (i - 1), Samples(Width(depth)));
      forall p, q | p in a && q in b ensures Before(p, q) {
      }
      ConcatOrdered(a, b);
    }
  }

  lemma ConcatOrdered(a: seq<Pixel>, b: seq<Pixel>)
    requires RowMajor(a) && RowMajor(b)
    requires forall p, q :: p in a && q in b ==> Before(p, q)
    ensures RowMajor(a + b)
  {
    forall i, j | 0 <= i < j < |a + b| ensures Before((a + b)[i], (a + b)[j]) {
      if j < |a| {
      } else if i >= |a| {
        assert (a + b)[i] == b[i - |a|] && (a + b)[j] == b[j - |a|];
      } else {
        assert (a + b)[i] in a && (a + b)[j] in b;
      }
    }
  }

  /** Points are visited in row-major order, so no pixel is visited twice. */
  lemma KeptPixelsOrdered(depth: seq<seq<nat>>)
    requires IsGrid(depth)
    ensures RowMajor(KeptPixels(depth))
  {
    RowsKeptOrdered(depth, Samples(|depth|));
  }

  lemma {:induction false} OrderedCard(ps: seq<Pixel>)
    requires RowMajor(ps)
    ensures |set p | p in ps| == |ps|
  {
    if ps != [] {
      var init := ps[..|ps| - 1];
      var last := ps[|ps| - 1];
      assert RowMajor(init);
      OrderedCard(init);
      assert last !in init by {
        forall k | 0 <= k < |init| ensures init[k] != last {
          assert Before(ps[k], ps[|ps| - 1]);
        }
      }
      assert ps == init + [last];
      assert (set p | p in ps) == (set p | p in init) + {last};
    }
  }

  /** The builder visits exactly the kept pixels, each once: as many as there are kept pixels. */
  lemma KeptPixelsCount(depth: seq<seq<nat>>)
    requires IsGrid(depth)
    ensures |KeptPixels(depth)| == |KeptSet(depth)|
  {
    var ks := KeptPixels(depth);
    KeptPixelsOrdered(depth);
    OrderedCard(ks);
    forall p ensures p in ks <==> p in KeptSet(depth) {
      KeptPixelsComplete(depth, p);
    }
    assert (set p | p in ks) == KeptSet(depth);
  }

  /**
    A built cloud has equally long point and colour lists; index i of both refers to the same kept
    pixel: the unprojected depth sample and the pixel's colour with red and blue swapped.
  */
  lemma CloudCorrespondence(intr: Intrinsics, depth: seq<seq<nat>>, scale: real,
                            color: seq<seq<Triple>>, timestamp: real, c: Cloud, i: nat)
    requires ValidIntrinsics(intr) && IsGrid(depth) && IsGrid(color)
    requires PointCloudOf(intr, depth, scale, color, timestamp) == Some(c)
    requires i < |c.points|
    ensures |c.points| == |c.colors| == |KeptSet(depth)| && c.timestamp == timestamp
    ensures var p := KeptPixels(depth)[i];
      && IsKept(depth, p) && InGrid(color, p)
      && c.points[i] == Unproject(intr, p, depth[p.0][p.1], scale)
      && c.colors[i] == SwapRedBlue(color[p.0][p.1])
  {
    var ks := KeptPixels(depth);
    KeptPixelsCount(depth);
    assert ks[i] in ks;
  }

  /**
    The builder fails exactly when cv2.cvtColor gets an empty colour image or a kept pixel lies
    outside the colour image (a colour grid smaller than the depth grid).
  */
  lemma CloudFailure(intr: Intrinsics, depth: seq<seq<nat>>, scale: real,
                     color: seq<seq<Triple>>, timestamp: real)
    requires ValidIntrinsics(intr) && IsGrid(depth) && IsGrid(color)
    ensures PointCloudOf(intr, depth, scale, color, timestamp).None?
        <==> |color| == 0 || Width(color) == 0
             || exists y: nat, x: nat :: IsKept(depth, (y, x)) && !InGrid(color, (y, x))
  {
    var ks := KeptPixels(depth);
    if exists y: nat, x: nat :: IsKept(depth, (y, x)) && !InGrid(color, (y, x)) {
      var y: nat, x: nat :| IsKept(depth, (y, x)) && !InGrid(color, (y, x));
      KeptPixelsComplete(depth, (y, x));
    }
  }

  /** A frame without any depth return yields an empty cloud, which is still a result. */
  lemma AllZeroDepthIsEmpty(intr: Intrinsics, depth: seq<seq<nat>>, scale: real,
                            color: seq<seq<Triple>>, timestamp: real)
    requires ValidIntrinsics(intr) && IsGrid(depth) && IsGrid(color)
    requires |color| > 0 && Width(color) > 0
    requires forall y, x :: 0 <= y < |depth| && 0 <= x < |depth[y]| ==> depth[y][x] == 0
    ensures PointCloudOf(intr, depth, scale, color, timestamp) == Some(Cloud([], [], timestamp))
  {
    var ks := KeptPixels(depth);
    assert KeptSet(depth) == {};
    KeptPixelsCount(depth);
    assert ks == [];
    assert PointsOf(intr, depth, scale, ks) == [] && ColorsOf(color, ks) == [];
  }

  /** The principal point unprojects onto the optical axis. */
  lemma PrincipalPointOnAxis(intr: Intrinsics, p: Pixel, raw: nat, scale: real)
    requires ValidIntrinsics(intr)
    requires p.1 as real == intr.ppx && p.0 as real == intr.ppy
    ensures Unproject(intr, p, raw, scale) == Point3(0.0, 0.0, raw as real * scale)
  {
  }

  lemma ScaleRoundTrip(f: real, d: real, z: real)
    requires f != 0.0 && z != 0.0
    ensures f * (d * z / f) / z == d
  {
    var q := d * z / f;
    assert f * q == d * z;
    assert (d * z) / z == d;
  }

  /** One image axis: projecting the unprojected coordinate gives back the pixel coordinate. */
  lemma AxisRoundTrip(f: real, c: real, pixel: real, z: real)
    requires f != 0.0 && z != 0.0
    ensures ToPixel(f, c, ToCamera(f, c, pixel, z), z) == pixel
  {
    ScaleRoundTrip(f, pixel - c, z);
  }

  lemma NonZeroProduct(a: real, b: real)
    requires a != 0.0 && b != 0.0
    ensures a * b != 0.0
  {
  }

  /** Projecting an unprojected point (one with a depth return) gives back its pixel. */
  lemma ProjectUnproject(intr: Intrinsics, p: Pixel, raw: nat, scale: real)
    requires ValidIntrinsics(intr) && raw > 0 && scale != 0.0
    ensures var pt := Unproject(intr, p, raw, scale);
      pt.z != 0.0 && Project(intr, pt) == (p.1 as real, p.0 as real)
  {
    var z := raw as real * scale;
    NonZeroProduct(raw as real, scale);
    AxisRoundTrip(intr.fx, intr.ppx, p.1 as real, z);
    AxisRoundTrip(intr.fy, intr.ppy, p.0 as real, z);
    var pt := Unproject(intr, p, raw, scale);
    assert pt.z == z;
    assert pt.x == ToCamera(intr.fx, intr.ppx, p.1 as real, z);
    assert pt.y == ToCamera(intr.fy, intr.ppy, p.0 as real, z);
  }

  /**
    The calibration example: fx = fy = 600, principal point (320, 240), depth units 0.001 and a
    raw depth of 1000 at pixel (x 320, y 240) give the point (0, 0, 1) in the cloud.
  */
  lemma CalibrationExample(depth: seq<seq<nat>>, color: seq<seq<Triple>>, timestamp: real, c: Cloud)
    requires IsGrid(depth) && IsGrid(color)
    requires 240 < |depth| && 320 < Width(depth) && depth[240][320] == 1000
    requires PointCloudOf(Intrinsics(600.0, 600.0, 320.0, 240.0), depth, 0.001, color, timestamp) == Some(c)
    ensures Point3(0.0, 0.0, 1.0) in c.points
  {
    var intr := Intrinsics(600.0, 600.0, 320.0, 240.0);
    var ks := KeptPixels(depth);
    KeptPixelsComplete(depth, (240, 320));
    var i :| 0 <= i < |ks| && ks[i] == (240, 320);
    KeptPixelsCount(depth);
    CloudCorrespondence(intr, depth, 0.001, color, timestamp, c, i);
    PrincipalPointOnAxis(intr, (240, 320), 1000, 0.001);
  }
}
