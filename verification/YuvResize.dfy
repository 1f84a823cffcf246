/** yuv_resize of the software JPEG encoder (mx5x/libcamera/JpegEncoderSoftware.cpp): shrink a planar
    4:2:0 image by taking every n-th pixel of every n-th row around the middle. */
module YuvResize {
  import opened Arithmetic

  // The pixel of a source plane that pixel k of the destination plane is taken from.
  function From(k: nat, sw: nat, sh: nat, dw: nat, dh: nat): int
    requires dw > 0 && dh > 0
  {
    var h, v := sw / dw, sh / dh;
    (k / dw * v + (sh - dh * v) / 2) * sw + (k % dw * h + (sw - dw * h) / 2)
  }

  lemma RowColumn(y: nat, x: nat, w: nat)
    requires x < w
    ensures (y * w + x) / w == y && (y * w + x) % w == x
  {
    var q, r := (y * w + x) / w, (y * w + x) % w;
    Euclid(y * w + x, w);
    Distribute(q, 1, w);
    Distribute(y, 1, w);
    LessFactor(y, q + 1, w);
    LessFactor(q, y + 1, w);
  }

  lemma MulDiv(a: nat, b: nat)
    requires b > 0
    ensures a * b / b == a
  {
    RowColumn(a, 0, b);
  }

  // In words: pixel (x, y) comes from pixel (x * h + the left margin, y * v + the top margin).
  lemma FromAt(y: nat, x: nat, sw: nat, sh: nat, dw: nat, dh: nat)
    requires x < dw && dh > 0
    ensures From(y * dw + x, sw, sh, dw, dh)
         == (y * (sh / dh) + (sh - dh * (sh / dh)) / 2) * sw + x * (sw / dw) + (sw - dw * (sw / dw)) / 2
  {
    RowColumn(y, x, dw);
  }

  lemma Line(n: nat, d: nat, k: nat)
    requires 0 < d <= n && k < d
    ensures n / d >= 1 && 0 <= n - d * (n / d)
    ensures 0 <= k * (n / d) + (n - d * (n / d)) / 2 < n
  {
    var r := n / d;
    MulMono(k + 1, d, r);
    assert (k + 1) * r == k * r + r;
  }

  lemma InPlane(row: nat, col: nat, w: nat, h: nat)
    requires row < h && col < w
    ensures 0 <= row * w + col < w * h
  {
    MulMono(row + 1, h, w);
    Distribute(row, 1, w);
    Commute(h, w);
  }

  lemma RowOf(k: nat, w: nat, h: nat)
    requires 0 < w && k < w * h
    ensures k / w < h && k % w < w
  {
    Euclid(k, w);
    Commute(w, h);
    LessFactor(k / w, h, w);
  }

  // Every pixel that is read lies in the source plane.
  lemma FromInPlane(k: nat, sw: nat, sh: nat, dw: nat, dh: nat)
    requires 0 < dw <= sw && 0 < dh <= sh && k < dw * dh
    ensures 0 <= From(k, sw, sh, dw, dh) < sw * sh
  {
    RowOf(k, dw, dh);
    Line(sh, dh, k / dw);
    Line(sw, dw, k % dw);
    InPlane(k / dw * (sh / dh) + (sh - dh * (sh / dh)) / 2, k % dw * (sw / dw) + (sw - dw * (sw / dw)) / 2, sw, sh);
  }

  function Scaled(plane: seq<int>, sw: nat, sh: nat, dw: nat, dh: nat): (r: seq<int>)
    requires 0 < dw <= sw && 0 < dh <= sh && |plane| == sw * sh
    ensures |r| == dw * dh
  {
    seq(dw * dh, k requires 0 <= k < dw * dh => FromInPlane(k, sw, sh, dw, dh); plane[From(k, sw, sh, dw, dh)])
  }

  // The size of a planar 4:2:0 image.
  function Size(w: nat, h: nat): nat {
    w * h + 2 * (w / 2 * (h / 2))
  }

  // The three planes, each scaled by itself.
  function Resized(image: seq<int>, sw: nat, sh: nat, dw: nat, dh: nat): (r: seq<int>)
    requires 2 <= dw <= sw && 2 <= dh <= sh && |image| >= Size(sw, sh)
    ensures |r| == Size(dw, dh)
  {
    var luma, chroma := sw * sh, sw / 2 * (sh / 2);
    Scaled(image[..luma], sw, sh, dw, dh)
    + Scaled(image[luma..luma + chroma], sw / 2, sh / 2, dw / 2, dh / 2)
    + Scaled(image[luma + chroma..luma + 2 * chroma], sw / 2, sh / 2, dw / 2, dh / 2)
  }

  // Pixel (x, y) of the scaled plane: every sh/dh-th row and every sw/dw-th pixel of it is taken, and
  // what is left over is split between the two sides.
  lemma ScaledAt(plane: seq<int>, sw: nat, sh: nat, dw: nat, dh: nat, y: nat, x: nat)
    requires 0 < dw <= sw && 0 < dh <= sh && |plane| == sw * sh && y < dh && x < dw
    ensures y * dw + x < dw * dh
    ensures var from := (y * (sh / dh) + (sh - dh * (sh / dh)) / 2) * sw + x * (sw / dw) + (sw - dw * (sw / dw)) / 2;
      0 <= from < sw * sh && Scaled(plane, sw, sh, dw, dh)[y * dw + x] == plane[from]
  {
    RowFits(y, dw, dh);
    FromAt(y, x, sw, sh, dw, dh);
    FromInPlane(y * dw + x, sw, sh, dw, dh);
  }

  lemma SameSize(plane: seq<int>, w: nat, h: nat)
    requires 0 < w && 0 < h && |plane| == w * h
    ensures Scaled(plane, w, h, w, h) == plane
  {
    MulDiv(1, w);
    MulDiv(1, h);
    forall k: nat | k < w * h
      ensures From(k, w, h, w, h) == k
    {
      assert k / w * w + k % w == k;
    }
  }

  lemma ThreeSlices(image: seq<int>, a: nat, b: nat)
    requires a + 2 * b <= |image|
    ensures image[..a] + image[a..a + b] + image[a + b..a + 2 * b] == image[..a + 2 * b]
  {
  }

  // Resizing to the same size copies the whole image.
  lemma SameSizeIsCopy(image: seq<int>, w: nat, h: nat)
    requires 2 <= w && 2 <= h && |image| >= Size(w, h)
    ensures Resized(image, w, h, w, h) == image[..Size(w, h)]
  {
    var luma, chroma := w * h, w / 2 * (h / 2);
    SameSize(image[..luma], w, h);
    SameSize(image[luma..luma + chroma], w / 2, h / 2);
    SameSize(image[luma + chroma..luma + 2 * chroma], w / 2, h / 2);
    ThreeSlices(image, luma, chroma);
  }

  function Upto(n: nat): seq<int> {
    seq(n, k => k)
  }

  // The loop over one row.  order lists the positions written, in turn; at is the position of the
  // row in the plane.
  method ResizeRow(dst: array<int>, dstPtr: nat, dw: nat, dh: nat, src: array<int>, srcPtr: nat, sw: nat, sh: nat,
                   i: nat, ghost y: nat, ghost at: nat, ghost before: seq<int>)
    returns (ghost order: seq<int>)
    requires 0 < dw <= sw && 0 < dh <= sh && dst != src && y < dh && at == y * dw && i == y * (sh / dh)
    requires dstPtr + dw * dh <= dst.Length && srcPtr + sw * sh <= src.Length && before == Upto(dstPtr + at)
    modifies dst
    ensures at + dw <= dw * dh && order == Upto(dstPtr + at + dw)
    ensures dst[..dstPtr + at + dw] ==
      old(dst[..dstPtr + at]) + Scaled(src[srcPtr..srcPtr + sw * sh], sw, sh, dw, dh)[at..at + dw]
    ensures dst[dstPtr + at + dw..] == old(dst[dstPtr + at + dw..])
  {
    var hScaleRatio, vScaleRatio := sw / dw, sh / dh;
    var hOffset, vOffset := (sw - dw * hScaleRatio) / 2, (sh - dh * vScaleRatio) / 2;
    ghost var plane := Scaled(src[srcPtr..srcPtr + sw * sh], sw, sh, dw, dh);
    RowFits(y, dw, dh);
    Line(sh, dh, 0);
    Line(sw, dw, 0);
    order := before;
    var j := 0;
    ghost var x := 0;
    while j < dw * hScaleRatio
      invariant x <= dw && j == x * hScaleRatio
      invariant order == Upto(dstPtr + at + x)
      invariant forall k :: at <= k < at + x ==> dst[dstPtr + k] == plane[k]
      invariant forall k :: 0 <= k < dstPtr + at || dstPtr + at + x <= k < dst.Length ==> dst[k] == old(dst[k])
      decreases dw - x
    {
      MulLess(x, dw, hScaleRatio);
      Pixel(y, x, sw, sh, dw, dh, at, i, j, hScaleRatio, vScaleRatio, hOffset, vOffset);
      var ptr := srcPtr + i * sw + j + vOffset * sw + hOffset;
      var cc := src[ptr];
      assert cc == plane[at + x];
      ptr := dstPtr + i / vScaleRatio * dw + j / hScaleRatio;
      dst[ptr] := cc;
      order := order + [ptr];
      j := j + hScaleRatio;
      x := x + 1;
    }
    MulMono(x, dw, hScaleRatio);
    LastColumn(x, dw, hScaleRatio);
  }

  lemma LastColumn(x: nat, d: nat, r: nat)
    requires x <= d && x * r >= d * r && r > 0
    ensures x == d
  {
    Distribute(x, 1, r);
    LessFactor(d, x + 1, r);
  }

  lemma Continue(a: seq<int>, b: seq<int>, at: nat, n: nat)
    requires at + n <= |b|
    ensures a + b[..at] + b[at..at + n] == a + b[..at + n]
  {
    assert b[..at] + b[at..at + n] == b[..at + n];
  }

  lemma Drop(first: seq<int>, before: seq<int>, now: seq<int>, at: nat, n: nat)
    requires |first| == |before| == |now| && at + n <= |now|
    requires before[at..] == first[at..] && now[at + n..] == before[at + n..]
    ensures now[at + n..] == first[at + n..]
  {
    assert first[at..][n..] == first[at + n..] && before[at..][n..] == before[at + n..];
  }

  // The first at pixels of the plane are in place behind dstPtr, and nothing else has changed.
  ghost predicate RowsDone(first: seq<int>, now: seq<int>, plane: seq<int>, dstPtr: nat, at: nat) {
    && |now| == |first| && dstPtr + at <= |now| && at <= |plane|
    && now[..dstPtr + at] == first[..dstPtr] + plane[..at] && now[dstPtr + at..] == first[dstPtr + at..]
  }

  lemma NextRow(first: seq<int>, was: seq<int>, now: seq<int>, plane: seq<int>, dstPtr: nat, at: nat, n: nat)
    requires RowsDone(first, was, plane, dstPtr, at) && |now| == |first|
    requires dstPtr + at + n <= |now| && at + n <= |plane|
    requires now[..dstPtr + at + n] == was[..dstPtr + at] + plane[at..at + n]
    requires now[dstPtr + at + n..] == was[dstPtr + at + n..]
    ensures RowsDone(first, now, plane, dstPtr, at + n)
  {
    Continue(first[..dstPtr], plane, at, n);
    Drop(first, was, now, dstPtr + at, n);
  }

  method ResizePlane(dst: array<int>, dstPtr: nat, dw: nat, dh: nat, src: array<int>, srcPtr: nat, sw: nat, sh: nat,
                     ghost before: seq<int>)
    returns (ghost order: seq<int>)
    requires 0 < dw <= sw && 0 < dh <= sh && dst != src
    requires dstPtr + dw * dh <= dst.Length && srcPtr + sw * sh <= src.Length && before == Upto(dstPtr)
    modifies dst
    ensures dst[..dstPtr + dw * dh] ==
      old(dst[..dstPtr]) + Scaled(src[srcPtr..srcPtr + sw * sh], sw, sh, dw, dh)
    ensures dst[dstPtr + dw * dh..] == old(dst[dstPtr + dw * dh..])
    ensures order == Upto(dstPtr + dw * dh)
  {
    var vScaleRatio := sh / dh;
    ghost var first := dst[..];
    ghost var plane := Scaled(src[srcPtr..srcPtr + sw * sh], sw, sh, dw, dh);
    order := before;
    var i := 0;
    ghost var y, at := 0, 0;
    Line(sh, dh, 0);
    while i < dh * vScaleRatio
      invariant y <= dh && i == y * vScaleRatio && at == y * dw && at <= dw * dh
      invariant order == Upto(dstPtr + at)
      invariant RowsDone(first, dst[..], plane, dstPtr, at)
      decreases dh - y
    {
      MulLess(y, dh, vScaleRatio);
      RowFits(y, dw, dh);
      ghost var was := dst[..];
      order := ResizeRow(dst, dstPtr, dw, dh, src, srcPtr, sw, sh, i, y, at, order);
      NextRow(first, was, dst[..], plane, dstPtr, at, dw);
      i := i + vScaleRatio;
      y, at := y + 1, at + dw;
    }
    LastColumn(y, dh, vScaleRatio);
    Commute(dw, dh);
    assert plane[..dw * dh] == plane;
  }

  lemma MulLess(a: nat, b: nat, r: nat)
    requires a * r < b * r && r > 0
    ensures a < b && (a + 1) * r == a * r + r
  {
    LessFactor(a, b, r);
    Distribute(a, 1, r);
  }

  lemma RowFits(y: nat, dw: nat, dh: nat)
    requires y < dh
    ensures y * dw + dw == (y + 1) * dw <= dw * dh
  {
    MulMono(y + 1, dh, dw);
  }

  // The pointer arithmetic of the loops.
  lemma Pixel(y: nat, x: nat, sw: nat, sh: nat, dw: nat, dh: nat, at: nat, i: nat, j: nat,
              h: nat, v: nat, hOffset: nat, vOffset: nat)
    requires 0 < dw <= sw && 0 < dh <= sh && y < dh && x < dw && at == y * dw
    requires h == sw / dw && v == sh / dh && hOffset == (sw - dw * h) / 2 && vOffset == (sh - dh * v) / 2
    requires i == y * v && j == x * h
    ensures h > 0 && v > 0 && at + x < dw * dh
    ensures i / v * dw + j / h == at + x
    ensures i * sw + j + vOffset * sw + hOffset == From(at + x, sw, sh, dw, dh)
    ensures 0 <= From(at + x, sw, sh, dw, dh) < sw * sh
  {
    Line(sh, dh, y);
    Line(sw, dw, x);
    MulDiv(y, v);
    MulDiv(x, h);
    RowFits(y, dw, dh);
    FromInPlane(at + x, sw, sh, dw, dh);
    FromAt(y, x, sw, sh, dw, dh);
    Distribute(i, vOffset, sw);
  }

  // The sides of plane s, and where it starts in the image.
  function Side(w: nat, s: nat): nat {
    if s == 0 then w else w / 2
  }

  function Start(w: nat, h: nat, s: nat): nat {
    if s == 0 then 0 else w * h + (if s == 1 then 0 else if s == 2 then w / 2 * (h / 2) else 2 * (w / 2 * (h / 2)))
  }

  // The first s planes of the result.
  function Planes(image: seq<int>, sw: nat, sh: nat, dw: nat, dh: nat, s: nat): seq<int>
    requires |image| >= Size(sw, sh) && s <= 3
    requires s > 0 ==> 0 < dw <= sw && 0 < dh <= sh
    requires s > 1 ==> dw > 1 && dh > 1
  {
    if s == 0 then []
    else if s == 1 then Scaled(image[..sw * sh], sw, sh, dw, dh)
    else
      var at, size := Start(sw, sh, s - 1), sw / 2 * (sh / 2);
      Planes(image, sw, sh, dw, dh, s - 1) + Scaled(image[at..at + size], sw / 2, sh / 2, dw / 2, dh / 2)
  }

  // Where plane s + 1 starts.
  lemma NextStart(w: nat, h: nat, s: nat)
    requires s <= 2
    ensures Start(w, h, s + 1) == Start(w, h, s) + Side(w, s) * Side(h, s) <= Size(w, h)
  {
  }

  lemma NextPlane(image: seq<int>, sw: nat, sh: nat, dw: nat, dh: nat, s: nat)
    requires |image| >= Size(sw, sh) && s <= 2
    requires 0 < Side(dw, s) <= Side(sw, s) && 0 < Side(dh, s) <= Side(sh, s)
    requires s > 0 ==> 0 < dw <= sw && 0 < dh <= sh
    ensures 0 < dw <= sw && 0 < dh <= sh && (s > 0 ==> dw > 1 && dh > 1)
    ensures Start(sw, sh, s + 1) == Start(sw, sh, s) + Side(sw, s) * Side(sh, s) <= |image|
    ensures Start(dw, dh, s + 1) == Start(dw, dh, s) + Side(dw, s) * Side(dh, s) <= Size(dw, dh)
    ensures Planes(image, sw, sh, dw, dh, s + 1) ==
      Planes(image, sw, sh, dw, dh, s) +
      Scaled(image[Start(sw, sh, s)..Start(sw, sh, s + 1)], Side(sw, s), Side(sh, s), Side(dw, s), Side(dh, s))
    ensures s == 2 ==> Planes(image, sw, sh, dw, dh, 3) == Resized(image, sw, sh, dw, dh)
  {
    NextStart(sw, sh, s);
    NextStart(dw, dh, s);
  }

  method Ratio(n: nat, d: nat) returns (r: nat)
    requires d > 0
    ensures r == 0 <==> n < d
  {
    r := n / d;
    if n >= d {
      Line(n, d, 0);
    }
  }

  // No side is zero, and neither is one of the ratios.
  method HasRatios(dw: nat, dh: nat, sw: nat, sh: nat) returns (ok: bool)
    ensures ok <==> 0 < dw <= sw && 0 < dh <= sh
  {
    if dw == 0 {
      return false;
    }
    if dh == 0 {
      return false;
    }
    var hScaleRatio := Ratio(sw, dw);
    if hScaleRatio == 0 {
      return false;
    }
    var vScaleRatio := Ratio(sh, dh);
    ok := vScaleRatio != 0;
  }

  // The image that is resized, and the sizes.
  datatype Job = Job(image: seq<int>, sw: nat, sh: nat, dw: nat, dh: nat)

  predicate Started(j: Job) {
    0 < j.dw <= j.sw && 0 < j.dh <= j.sh
  }

  predicate Fits(j: Job, s: nat) {
    0 < Side(j.dw, s) <= Side(j.sw, s) && 0 < Side(j.dh, s) <= Side(j.sh, s)
  }

  // s planes are done: what they are, what is untouched, and which positions were written.
  ghost predicate Done(j: Job, first: seq<int>, now: seq<int>, s: nat, order: seq<int>) {
    && s <= 3 && |now| == |first| && |j.image| >= Size(j.sw, j.sh)
    && (s > 0 ==> Started(j)) && (s > 1 ==> j.dw > 1 && j.dh > 1)
    && Start(j.dw, j.dh, s) <= |now|
    && now[..Start(j.dw, j.dh, s)] == Planes(j.image, j.sw, j.sh, j.dw, j.dh, s)
    && now[Start(j.dw, j.dh, s)..] == first[Start(j.dw, j.dh, s)..]
    && order == Upto(Start(j.dw, j.dh, s))
  }

  // Plane s, and nothing else, has been written.
  ghost predicate Written(j: Job, before: seq<int>, now: seq<int>, s: nat)
    requires Fits(j, s)
  {
    var at, size := Start(j.dw, j.dh, s), Side(j.dw, s) * Side(j.dh, s);
    var from, area := Start(j.sw, j.sh, s), Side(j.sw, s) * Side(j.sh, s);
    && |now| == |before| && at + size <= |now| && from + area <= |j.image|
    && now[at + size..] == before[at + size..]
    && now[..at + size] ==
         before[..at] + Scaled(j.image[from..from + area], Side(j.sw, s), Side(j.sh, s), Side(j.dw, s), Side(j.dh, s))
  }

  lemma OneMoreDone(j: Job, first: seq<int>, before: seq<int>, now: seq<int>, s: nat, order: seq<int>)
    requires Done(j, first, before, s, order) && s <= 2 && Fits(j, s) && |now| == |before| >= Size(j.dw, j.dh)
    requires Written(j, before, now, s)
    ensures Started(j) && Start(j.dw, j.dh, s + 1) == Start(j.dw, j.dh, s) + Side(j.dw, s) * Side(j.dh, s)
    ensures Done(j, first, now, s + 1, Upto(Start(j.dw, j.dh, s + 1)))
  {
    NextPlane(j.image, j.sw, j.sh, j.dw, j.dh, s);
    Drop(first, before, now, Start(j.dw, j.dh, s), Side(j.dw, s) * Side(j.dh, s));
  }

  method ScalePlane(dst: array<int>, dstPtr: nat, dw: nat, dh: nat, src: array<int>, srcPtr: nat, sw: nat, sh: nat,
                    ghost j: Job, ghost s: nat, ghost before: seq<int>)
    returns (ghost order: seq<int>)
    requires dst != src && j.image == src[..] && s <= 2 && dst.Length >= Size(j.dw, j.dh)
    requires src.Length >= Size(j.sw, j.sh) && Fits(j, s) && (s > 0 ==> Started(j))
    requires dw == Side(j.dw, s) && dh == Side(j.dh, s) && sw == Side(j.sw, s) && sh == Side(j.sh, s)
    requires dstPtr == Start(j.dw, j.dh, s) && srcPtr == Start(j.sw, j.sh, s) && before == Upto(dstPtr)
    modifies dst
    ensures Written(j, old(dst[..]), dst[..], s) && order == Upto(Start(j.dw, j.dh, s + 1))
  {
    NextPlane(j.image, j.sw, j.sh, j.dw, j.dh, s);
    order := ResizePlane(dst, dstPtr, dw, dh, src, srcPtr, sw, sh, before);
  }

  // One turn of the loop, for plane s; next and from are the pointers behind it.
  method OnePlane(dst: array<int>, dstPtr: nat, dw: nat, dh: nat, src: array<int>, srcPtr: nat, sw: nat, sh: nat,
                  ghost j: Job, ghost s: nat, ghost first: seq<int>, ghost before: seq<int>)
    returns (ok: bool, next: nat, from: nat, ghost order: seq<int>)
    requires dst != src && j.image == src[..] && s <= 2 && dst.Length >= Size(j.dw, j.dh)
    requires Done(j, first, dst[..], s, before)
    requires dw == Side(j.dw, s) && dh == Side(j.dh, s) && sw == Side(j.sw, s) && sh == Side(j.sh, s)
    requires dstPtr == Start(j.dw, j.dh, s) && srcPtr == Start(j.sw, j.sh, s)
    modifies dst
    ensures ok <==> Fits(j, s)
    ensures if ok then Done(j, first, dst[..], s + 1, order) else Done(j, first, dst[..], s, order)
    ensures ok ==> next == Start(j.dw, j.dh, s + 1) && from == Start(j.sw, j.sh, s + 1)
  {
    next, from := 0, 0;
    order := before;
    ok := HasRatios(dw, dh, sw, sh);
    if !ok {
      return;
    }
    ghost var was := dst[..];
    order := ScalePlane(dst, dstPtr, dw, dh, src, srcPtr, sw, sh, j, s, order);
    NextPlane(j.image, j.sw, j.sh, j.dw, j.dh, s);
    OneMoreDone(j, first, was, dst[..], s, before);
    next := dstPtr + dw * dh;
    from := srcPtr + sw * sh;
  }

  // What a call does: success exactly for a destination of at least two by two and no larger than
  // the source.  A destination one pixel wide or high gets its luma plane and then an error.  Each
  // pixel is written once, in ascending order, the first to the last; order lists the positions.
  ghost predicate Outcome(j: Job, first: seq<int>, now: seq<int>, ret: int, order: seq<int>) {
    && |now| == |first| >= Size(j.dw, j.dh) && |j.image| >= Size(j.sw, j.sh)
    && (ret == 0 || ret == -1)
    && (ret == 0 <==> 2 <= j.dw <= j.sw && 2 <= j.dh <= j.sh)
    && (ret == 0 ==> now[..Size(j.dw, j.dh)] == Resized(j.image, j.sw, j.sh, j.dw, j.dh))
    && |order| == (if ret == 0 then Size(j.dw, j.dh) else if Started(j) then j.dw * j.dh else 0)
    && order == Upto(|order|) && now[|order|..] == first[|order|..]
  }

  lemma Succeeded(j: Job, first: seq<int>, now: seq<int>, order: seq<int>)
    requires Done(j, first, now, 3, order) && |now| >= Size(j.dw, j.dh) && Fits(j, 2)
    ensures Outcome(j, first, now, 0, order)
  {
    NextPlane(j.image, j.sw, j.sh, j.dw, j.dh, 2);
  }

  // It fails at the luma plane, or at the first chroma plane of a one pixel wide or high result.
  lemma Failed(j: Job, first: seq<int>, now: seq<int>, s: nat, order: seq<int>)
    requires s <= 2 && Done(j, first, now, s, order) && |now| >= Size(j.dw, j.dh) && !Fits(j, s)
    ensures Outcome(j, first, now, -1, order)
  {
    assert s <= 1 && (s == 1 <==> Started(j));
  }

  lemma NothingDone(j: Job, first: seq<int>)
    requires |first| >= Size(j.dw, j.dh) && |j.image| >= Size(j.sw, j.sh)
    ensures Done(j, first, first, 0, [])
  {
  }

  method YuvResize(dst: array<int>, dstWidth: nat, dstHeight: nat, src: array<int>, srcWidth: nat, srcHeight: nat)
    returns (ret: int, ghost order: seq<int>)
    requires dst != src
    requires dst.Length >= Size(dstWidth, dstHeight) && src.Length >= Size(srcWidth, srcHeight)
    modifies dst
    ensures Outcome(Job(src[..], srcWidth, srcHeight, dstWidth, dstHeight), old(dst[..]), dst[..], ret, order)
  {
    var dw, dh, sw, sh := dstWidth, dstHeight, srcWidth, srcHeight;
    var dstPtr: nat, srcPtr: nat := 0, 0;
    var s: nat := 0;
    ghost var j, first := Job(src[..], sw, sh, dw, dh), dst[..];
    order := [];
    NothingDone(j, first);
    while true
      invariant s <= 2 && Done(j, first, dst[..], s, order)
      invariant dw == Side(dstWidth, s) && dh == Side(dstHeight, s)
      invariant sw == Side(srcWidth, s) && sh == Side(srcHeight, s)
      invariant dstPtr == Start(dstWidth, dstHeight, s) && srcPtr == Start(srcWidth, srcHeight, s)
      decreases 2 - s
    {
      var ok, next, from;
      ok, next, from, order := OnePlane(dst, dstPtr, dw, dh, src, srcPtr, sw, sh, j, s, first, order);
      if !ok {
        ret := -1;
        Failed(j, first, dst[..], s, order);
        return;
      }
      srcPtr, dstPtr := from, next;
      if s < 2 {
        if s == 0 {
          sw, sh := sw / 2, sh / 2;
          dw, dh := dw / 2, dh / 2;
        }
        s := s + 1;
      } else {
        ret := 0;
        Succeeded(j, first, dst[..], order);
        return;
      }
    }
  }
}
