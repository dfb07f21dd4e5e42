/** Rotating a captured frame for the encoder: what it does to the image, and the loops that do it. */
module Rotation {

  datatype RotationType = Unspecified | Identity | Rotate90 | Rotate180 | Rotate270

  // ---------- images ----------

  /** Rows of pixels. */
  type Image<P> = seq<seq<P>>

  ghost predicate Sized<P>(img: Image<P>, w: nat, h: nat) {
    |img| == h && forall y :: 0 <= y < h ==> |img[y]| == w
  }

  /** Clockwise; the result is h wide and w high. */
  ghost function Rotated90<P>(img: Image<P>, w: nat, h: nat): (r: Image<P>)
    requires Sized(img, w, h)
    ensures Sized(r, h, w)
  {
    seq(w, r requires 0 <= r < w => seq(h, c requires 0 <= c < h => img[h - 1 - c][r]))
  }

  ghost function Rotated180<P>(img: Image<P>, w: nat, h: nat): (r: Image<P>)
    requires Sized(img, w, h)
    ensures Sized(r, w, h)
  {
    seq(h, r requires 0 <= r < h => seq(w, c requires 0 <= c < w => img[h - 1 - r][w - 1 - c]))
  }

  ghost function Rotated270<P>(img: Image<P>, w: nat, h: nat): (r: Image<P>)
    requires Sized(img, w, h)
    ensures Sized(r, h, w)
  {
    seq(w, r requires 0 <= r < w => seq(h, c requires 0 <= c < h => img[c][w - 1 - r]))
  }

  lemma SameImage<P>(a: Image<P>, b: Image<P>, w: nat, h: nat)
    requires Sized(a, w, h) && Sized(b, w, h)
    requires forall y, x :: 0 <= y < h && 0 <= x < w ==> a[y][x] == b[y][x]
    ensures a == b
  {
    forall y | 0 <= y < h ensures a[y] == b[y] {
    }
  }

  lemma Rotate90Then270<P>(img: Image<P>, w: nat, h: nat)
    requires Sized(img, w, h)
    ensures Rotated270(Rotated90(img, w, h), h, w) == img
    ensures Rotated90(Rotated270(img, w, h), h, w) == img
  {
    SameImage(Rotated270(Rotated90(img, w, h), h, w), img, w, h);
    SameImage(Rotated90(Rotated270(img, w, h), h, w), img, w, h);
  }

  lemma Rotate90Twice<P>(img: Image<P>, w: nat, h: nat)
    requires Sized(img, w, h)
    ensures Rotated90(Rotated90(img, w, h), h, w) == Rotated180(img, w, h)
  {
    SameImage(Rotated90(Rotated90(img, w, h), h, w), Rotated180(img, w, h), w, h);
  }

  lemma Rotate180Twice<P>(img: Image<P>, w: nat, h: nat)
    requires Sized(img, w, h)
    ensures Rotated180(Rotated180(img, w, h), w, h) == img
  {
    SameImage(Rotated180(Rotated180(img, w, h), w, h), img, w, h);
  }

  lemma Rotate90Thrice<P>(img: Image<P>, w: nat, h: nat)
    requires Sized(img, w, h)
    ensures Rotated90(Rotated180(img, w, h), w, h) == Rotated270(img, w, h)
  {
    SameImage(Rotated90(Rotated180(img, w, h), w, h), Rotated270(img, w, h), h, w);
  }

  // ---------- the formula in the comment ----------

  /** ScreenRecorderBase.cpp:137 says new[y][x] = old[y][height - 1 - x], and the new image has
      `width` rows of `height` pixels. */
  ghost predicate CommentReads(y: nat, x: nat, w: nat, h: nat) {
    y < h && 0 <= h - 1 - x < w
  }

  /** That stays in the old image if and only if the image is square. */
  lemma CommentInBounds(w: nat, h: nat)
    requires w >= 1 && h >= 1
    ensures (forall y: nat, x: nat :: y < w && x < h ==> CommentReads(y, x, w, h)) <==> w == h
  {
    if w > h {
      assert !CommentReads(h, 0, w, h);
    } else if h > w {
      assert !CommentReads(0, 0, w, h);
    }
  }

  /** And then it says what the loop does if and only if the image is its own transpose. */
  lemma CommentExact<P>(img: Image<P>, n: nat)
    requires Sized(img, n, n)
    ensures (forall y, x :: 0 <= y < n && 0 <= x < n ==> Rotated90(img, n, n)[y][x] == img[y][n - 1 - x])
      <==> (forall a, b :: 0 <= a < n && 0 <= b < n ==> img[a][b] == img[b][a])
  {
    var r := Rotated90(img, n, n);
    if forall y, x :: 0 <= y < n && 0 <= x < n ==> r[y][x] == img[y][n - 1 - x] {
      forall a, b | 0 <= a < n && 0 <= b < n ensures img[a][b] == img[b][a] {
        assert r[b][n - 1 - a] == img[b][n - 1 - (n - 1 - a)];
      }
    }
  }

  lemma CommentWrong()
    ensures var img := [['a', 'b'], ['c', 'd']];
      Sized(img, 2, 2) && Rotated90(img, 2, 2)[0][0] == 'c' != img[0][1]
  {
  }

  ghost function Turned<P>(rotation: RotationType, img: Image<P>, w: nat, h: nat): Image<P>
    requires Sized(img, w, h)
  {
    match rotation
    case Rotate90 => Rotated90(img, w, h)
    case Rotate180 => Rotated180(img, w, h)
    case Rotate270 => Rotated270(img, w, h)
    case _ => img
  }

  // ---------- pixels in memory ----------

  /** Where byte k of the pixel in row y and column x is. */
  function At(y: nat, x: nat, k: nat, stride: nat): nat {
    y * stride + x * 4 + k
  }

  lemma InBounds(y: nat, x: nat, k: nat, stride: nat, w: nat, h: nat)
    requires y < h && x < w && k < 4 && stride >= 4 * w
    ensures At(y, x, k, stride) < h * stride
  {
    AtMost(y + 1, h, stride);
    assert (y + 1) * stride == y * stride + stride;
  }

  lemma AtMost(a: nat, b: nat, c: nat)
    requires a <= b
    ensures a * c <= b * c
  {
  }

  lemma RowsApart(y: nat, x: nat, k: nat, y': nat, x': nat, k': nat, stride: nat)
    requires y < y' && 4 * x + k < stride
    ensures At(y, x, k, stride) < At(y', x', k', stride)
  {
    AtMost(y + 1, y', stride);
    assert (y + 1) * stride == y * stride + stride;
  }

  /** The image a buffer holds, four bytes to the pixel. */
  ghost function View<B>(bytes: seq<B>, w: nat, h: nat, stride: nat): (r: Image<seq<B>>)
    requires stride >= 4 * w && |bytes| >= h * stride
    ensures Sized(r, w, h)
  {
    seq(h, y requires 0 <= y < h => seq(w, x requires 0 <= x < w => Pixel(bytes, y, x, w, h, stride)))
  }

  ghost function Pixel<B>(bytes: seq<B>, y: nat, x: nat, w: nat, h: nat, stride: nat): seq<B>
    requires stride >= 4 * w && |bytes| >= h * stride && y < h && x < w
  {
    InBounds(y, x, 3, stride, w, h);
    bytes[At(y, x, 0, stride)..At(y, x, 0, stride) + 4]
  }

  // ---------- the loops ----------

  /** dst[row, col] holds the pixel src[y, x]. */
  ghost predicate Copied<B>(
    dst: seq<B>, row: nat, col: nat, dw: nat, dh: nat, src: seq<B>, y: nat, x: nat, w: nat, h: nat, stride: nat)
    requires stride >= 4 * w && |src| >= h * stride && y < h && x < w
    requires |dst| >= dh * (4 * dw) && row < dh && col < dw
  {
    Pixel(dst, row, col, dw, dh, 4 * dw) == Pixel(src, y, x, w, h, stride)
  }

  /** Four bytes at once. */
  method StorePixel<B>(
    dst: array<B>, row: nat, col: nat, dw: nat, dh: nat, src: array<B>, y: nat, x: nat, w: nat, h: nat, stride: nat)
    requires stride >= 4 * w && src.Length >= h * stride && y < h && x < w && src != dst
    requires dst.Length >= dh * (4 * dw) && row < dh && col < dw
    modifies dst
    ensures Copied(dst[..], row, col, dw, dh, src[..], y, x, w, h, stride)
    ensures forall r, c :: 0 <= r < dh && 0 <= c < dw && (r != row || c != col) ==>
      Pixel(dst[..], r, c, dw, dh, 4 * dw) == old(Pixel(dst[..], r, c, dw, dh, 4 * dw))
  {
    InBounds(row, col, 3, 4 * dw, dw, dh);
    InBounds(y, x, 3, stride, w, h);
    ghost var before := dst[..];
    StoreBytes(dst, row * (4 * dw) + col * 4, src, y * stride + x * 4);
    OthersKept(before, dst[..], row, col, dw, dh);
  }

  method StoreBytes<B>(dst: array<B>, d: nat, src: array<B>, s: nat)
    requires d + 4 <= dst.Length && s + 4 <= src.Length && src != dst
    modifies dst
    ensures dst[..] == old(dst[..d]) + src[s..s + 4] + old(dst[d + 4..])
  {
    forall k | 0 <= k < 4 {
      dst[d + k] := src[s + k];
    }
  }

  lemma OthersKept<B>(before: seq<B>, after: seq<B>, row: nat, col: nat, dw: nat, dh: nat)
    requires |before| == |after| >= dh * (4 * dw) && row < dh && col < dw
    requires forall i :: 0 <= i < |after| && !(At(row, col, 0, 4 * dw) <= i < At(row, col, 0, 4 * dw) + 4) ==>
      after[i] == before[i]
    ensures forall r, c :: 0 <= r < dh && 0 <= c < dw && (r != row || c != col) ==>
      Pixel(after, r, c, dw, dh, 4 * dw) == Pixel(before, r, c, dw, dh, 4 * dw)
  {
    forall r, c | 0 <= r < dh && 0 <= c < dw && (r != row || c != col)
      ensures Pixel(after, r, c, dw, dh, 4 * dw) == Pixel(before, r, c, dw, dh, 4 * dw)
    {
      Disjoint(r, c, row, col, dw, dh);
      InBounds(r, c, 3, 4 * dw, dw, dh);
    }
  }

  lemma Disjoint(r: nat, c: nat, row: nat, col: nat, dw: nat, dh: nat)
    requires r < dh && c < dw && row < dh && col < dw && (r != row || c != col)
    ensures At(r, c, 0, 4 * dw) + 4 <= At(row, col, 0, 4 * dw) || At(row, col, 0, 4 * dw) + 4 <= At(r, c, 0, 4 * dw)
  {
    if r < row {
      RowsApart(r, c, 3, row, col, 0, 4 * dw);
    } else if row < r {
      RowsApart(row, col, 3, r, c, 0, 4 * dw);
    }
  }

  /** Each pixel written is in the image, and is written once only. */
  ghost predicate Once(log: seq<(nat, nat)>, w: nat, h: nat) {
    && (forall i :: 0 <= i < |log| ==> log[i].0 < h && log[i].1 < w)
    && (forall i, j :: 0 <= i < j < |log| ==> log[i] != log[j])
  }

  /** Pixels in so many rows. */
  ghost function Rows(y: nat, w: nat): nat {
    if y == 0 then 0 else Rows(y - 1, w) + w
  }

  lemma {:induction false} RowsArea(y: nat, w: nat)
    ensures Rows(y, w) == y * w
  {
    if y > 0 {
      RowsArea(y - 1, w);
      assert y * w == (y - 1) * w + w;
    }
  }

  /** ScreenRecorderBase.cpp:132-146. */
  method RotateInto90<B>(dst: array<B>, src: array<B>, w: nat, h: nat, stride: nat)
      returns (ghost log: seq<(nat, nat)>)
    requires stride >= 4 * w && src.Length >= h * stride && src != dst && dst.Length == w * (4 * h)
    modifies dst
    ensures View(dst[..], h, w, 4 * h) == Rotated90(View(src[..], w, h, stride), w, h)
    ensures Once(log, h, w) && |log| == h * w
  {
    log := [];
    ghost var want := Rotated90(View(src[..], w, h, stride), w, h);
    for y := 0 to h
      invariant Once(log, h, w) && |log| == Rows(y, w)
      invariant forall i :: 0 <= i < |log| ==> var (r, c) := log[i]; h - 1 - c < y
      invariant forall r, c :: 0 <= r < w && 0 <= c < h && h - 1 - c < y ==>
        Pixel(dst[..], r, c, h, w, 4 * h) == want[r][c]
    {
      for x := 0 to w
        invariant Once(log, h, w) && |log| == Rows(y, w) + x
        invariant forall i :: 0 <= i < |log| ==> var (r, c) := log[i]; h - 1 - c < y || (h - 1 - c == y && r < x)
        invariant forall r, c :: 0 <= r < w && 0 <= c < h && (h - 1 - c < y || (h - 1 - c == y && r < x)) ==>
          Pixel(dst[..], r, c, h, w, 4 * h) == want[r][c]
      {
        StorePixel(dst, x, h - 1 - y, h, w, src, y, x, w, h, stride);
        log := log + [(x, h - 1 - y)];
      }
    }
    RowsArea(h, w);
    SameImage(View(dst[..], h, w, 4 * h), want, h, w);
  }

  /** ScreenRecorderBase.cpp:147-162. */
  method RotateInto180<B>(dst: array<B>, src: array<B>, w: nat, h: nat, stride: nat)
      returns (ghost log: seq<(nat, nat)>)
    requires stride >= 4 * w && src.Length >= h * stride && src != dst && dst.Length == h * (4 * w)
    modifies dst
    ensures View(dst[..], w, h, 4 * w) == Rotated180(View(src[..], w, h, stride), w, h)
    ensures Once(log, w, h) && |log| == h * w
  {
    log := [];
    ghost var want := Rotated180(View(src[..], w, h, stride), w, h);
    for y := 0 to h
      invariant Once(log, w, h) && |log| == Rows(y, w)
      invariant forall i :: 0 <= i < |log| ==> var (r, c) := log[i]; h - 1 - r < y
      invariant forall r, c :: 0 <= r < h && 0 <= c < w && h - 1 - r < y ==>
        Pixel(dst[..], r, c, w, h, 4 * w) == want[r][c]
    {
      for x := 0 to w
        invariant Once(log, w, h) && |log| == Rows(y, w) + x
        invariant forall i :: 0 <= i < |log| ==>
          var (r, c) := log[i]; h - 1 - r < y || (h - 1 - r == y && w - 1 - c < x)
        invariant forall r, c :: 0 <= r < h && 0 <= c < w && (h - 1 - r < y || (h - 1 - r == y && w - 1 - c < x)) ==>
          Pixel(dst[..], r, c, w, h, 4 * w) == want[r][c]
      {
        StorePixel(dst, h - 1 - y, w - 1 - x, w, h, src, y, x, w, h, stride);
        log := log + [(h - 1 - y, w - 1 - x)];
      }
    }
    RowsArea(h, w);
    SameImage(View(dst[..], w, h, 4 * w), want, w, h);
  }

  /** ScreenRecorderBase.cpp:163-180. */
  method RotateInto270<B>(dst: array<B>, src: array<B>, w: nat, h: nat, stride: nat)
      returns (ghost log: seq<(nat, nat)>)
    requires stride >= 4 * w && src.Length >= h * stride && src != dst && dst.Length == w * (4 * h)
    modifies dst
    ensures View(dst[..], h, w, 4 * h) == Rotated270(View(src[..], w, h, stride), w, h)
    ensures Once(log, h, w) && |log| == h * w
  {
    log := [];
    ghost var want := Rotated270(View(src[..], w, h, stride), w, h);
    for y := 0 to h
      invariant Once(log, h, w) && |log| == Rows(y, w)
      invariant forall i :: 0 <= i < |log| ==> var (r, c) := log[i]; c < y
      invariant forall r, c :: 0 <= r < w && 0 <= c < h && c < y ==>
        Pixel(dst[..], r, c, h, w, 4 * h) == want[r][c]
    {
      for x := 0 to w
        invariant Once(log, h, w) && |log| == Rows(y, w) + x
        invariant forall i :: 0 <= i < |log| ==> var (r, c) := log[i]; c < y || (c == y && w - 1 - r < x)
        invariant forall r, c :: 0 <= r < w && 0 <= c < h && (c < y || (c == y && w - 1 - r < x)) ==>
          Pixel(dst[..], r, c, h, w, 4 * h) == want[r][c]
      {
        StorePixel(dst, w - 1 - x, y, h, w, src, y, x, w, h, stride);
        log := log + [(w - 1 - x, y)];
      }
    }
    RowsArea(h, w);
    SameImage(View(dst[..], h, w, 4 * h), want, h, w);
  }

  // ---------- the recorder ----------

  predicate Swaps(rotation: RotationType) {
    rotation.Rotate90? || rotation.Rotate270?
  }

  /** ScreenRecorderBase.cpp:25-32: what the encoder is told. */
  function EncoderWidth(rotation: RotationType, w: nat, h: nat): nat {
    if Swaps(rotation) then h else w
  }

  function EncoderHeight(rotation: RotationType, w: nat, h: nat): nat {
    if Swaps(rotation) then w else h
  }

  /** The output pixel by pixel: turned by 90 degrees the first column is the first row, from the
      bottom up; and so on. */
  ghost predicate TurnedPixels<B>(
    rotation: RotationType, src: seq<B>, srcStride: nat, out: seq<B>, outStride: nat, w: nat, h: nat)
    requires srcStride >= 4 * w && |src| >= h * srcStride
  {
    match rotation
    case Rotate90 =>
      && outStride >= 4 * h && |out| >= w * outStride
      && forall r, c :: 0 <= r < w && 0 <= c < h ==>
        View(out, h, w, outStride)[r][c] == View(src, w, h, srcStride)[h - 1 - c][r]
    case Rotate180 =>
      && outStride >= 4 * w && |out| >= h * outStride
      && forall r, c :: 0 <= r < h && 0 <= c < w ==>
        View(out, w, h, outStride)[r][c] == View(src, w, h, srcStride)[h - 1 - r][w - 1 - c]
    case Rotate270 =>
      && outStride >= 4 * h && |out| >= w * outStride
      && forall r, c :: 0 <= r < w && 0 <= c < h ==>
        View(out, h, w, outStride)[r][c] == View(src, w, h, srcStride)[c][w - 1 - r]
    case _ =>
      && outStride >= 4 * w && |out| >= h * outStride
      && forall r, c :: 0 <= r < h && 0 <= c < w ==>
        View(out, w, h, outStride)[r][c] == View(src, w, h, srcStride)[r][c]
  }

  lemma TurnedByPixel<B>(
    rotation: RotationType, src: seq<B>, srcStride: nat, out: seq<B>, outStride: nat, w: nat, h: nat)
    requires srcStride >= 4 * w && |src| >= h * srcStride
    requires var ew, eh := EncoderWidth(rotation, w, h), EncoderHeight(rotation, w, h);
      && outStride >= 4 * ew && |out| >= eh * outStride
      && View(out, ew, eh, outStride) == Turned(rotation, View(src, w, h, srcStride), w, h)
    ensures TurnedPixels(rotation, src, srcStride, out, outStride, w, h)
  {
  }

  /** ScreenRecorderBase.cpp:130-180: one of the three loops. */
  method Rotate<B>(rotation: RotationType, dst: array<B>, src: array<B>, w: nat, h: nat, stride: nat)
    requires stride >= 4 * w && src.Length >= h * stride && src != dst
    requires rotation.Rotate90? || rotation.Rotate180? || rotation.Rotate270?
    requires dst.Length == EncoderHeight(rotation, w, h) * (4 * EncoderWidth(rotation, w, h))
    modifies dst
    ensures var ew, eh := EncoderWidth(rotation, w, h), EncoderHeight(rotation, w, h);
      View(dst[..], ew, eh, 4 * ew) == Turned(rotation, View(src[..], w, h, stride), w, h)
    ensures TurnedPixels(rotation, src[..], stride, dst[..], 4 * EncoderWidth(rotation, w, h), w, h)
  {
    if rotation.Rotate90? {
      ghost var _ := RotateInto90(dst, src, w, h, stride);
    } else if rotation.Rotate180? {
      ghost var _ := RotateInto180(dst, src, w, h, stride);
    } else {
      ghost var _ := RotateInto270(dst, src, w, h, stride);
    }
    TurnedByPixel(rotation, src[..], stride, dst[..], 4 * EncoderWidth(rotation, w, h), w, h);
  }

  class Recorder<B(0)> {
    const width: nat
    const height: nat
    const rotation: RotationType
    var rotationBuffer: array<B>

    constructor (width: nat, height: nat, rotation: RotationType)
      ensures this.width == width && this.height == height && this.rotation == rotation && fresh(rotationBuffer)
    {
      this.width, this.height, this.rotation := width, height, rotation;
      rotationBuffer := new B[0];
    }

    /** ScreenRecorderBase.cpp:112-183.  What comes back holds the turned image. */
    method PrepareFrameData(src: array<B>, srcStride: nat) returns (data: array<B>, outStride: nat)
      requires srcStride >= 4 * width && src.Length >= height * srcStride && src != rotationBuffer
      modifies this`rotationBuffer, rotationBuffer
      ensures src[..] == old(src[..]) && src != rotationBuffer
      ensures rotationBuffer == old(rotationBuffer) || fresh(rotationBuffer)
      ensures var ew, eh := EncoderWidth(rotation, width, height), EncoderHeight(rotation, width, height);
        && outStride >= 4 * ew && data.Length >= eh * outStride
        && View(data[..], ew, eh, outStride) == Turned(rotation, View(src[..], width, height, srcStride), width, height)
        && (if rotation.Unspecified? || rotation.Identity? then data == src && outStride == srcStride
            else data == rotationBuffer && data.Length == eh * outStride)
      ensures TurnedPixels(rotation, src[..], srcStride, data[..], outStride, width, height)
    {
      if rotation.Unspecified? || rotation.Identity? {
        TurnedByPixel(rotation, src[..], srcStride, src[..], srcStride, width, height);
        return src, srcStride;
      }
      FitBuffer(src);
      outStride := 4 * EncoderWidth(rotation, width, height);
      Rotate(rotation, rotationBuffer, src, width, height, srcStride);
      data := rotationBuffer;
    }

    /** Four bytes for each pixel. */
    method FitBuffer(src: array<B>)
      requires src != rotationBuffer
      modifies this`rotationBuffer
      ensures rotationBuffer == old(rotationBuffer) || fresh(rotationBuffer)
      ensures src != rotationBuffer
      ensures rotationBuffer.Length ==
        EncoderHeight(rotation, width, height) * (4 * EncoderWidth(rotation, width, height))
    {
      var needed := width * height * 4;
      Needed(width, height);
      if rotationBuffer.Length != needed {
        rotationBuffer := new B[needed];
      }
    }
  }

  lemma Needed(w: nat, h: nat)
    ensures w * h * 4 == w * (4 * h) == h * (4 * w)
  {
  }

  /** VideoEncoderQueue.cpp:66-79: the copy that is queued for the encoder. */
  method CopyFrame<B>(data: array<B>, stride: nat, w: nat, h: nat) returns (frame: seq<B>)
    requires stride >= 4 * w && data.Length >= h * stride
    ensures |frame| == stride * h && View(frame, w, h, stride) == View(data[..], w, h, stride)
    ensures data.Length == h * stride ==> frame == data[..]
  {
    var frameSize := stride * h;
    frame := data[..frameSize];
    forall y, x | 0 <= y < h && 0 <= x < w
      ensures Pixel(frame, y, x, w, h, stride) == Pixel(data[..], y, x, w, h, stride)
    {
      InBounds(y, x, 3, stride, w, h);
    }
    SameImage(View(frame, w, h, stride), View(data[..], w, h, stride), w, h);
  }
}
