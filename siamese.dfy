/**
 * The image-size arithmetic of siamese.py: `crop`, `resize`, `center_crop`,
 * `letterbox_image`, `cvtColor`, `Siamese.letterbox_image` and the preprocessing branch
 * of `Siamese.detect_image`. Only sizes and band counts are modelled; the pixels that
 * PIL's resampling produces and the network's score are not.
 */
module Siamese {
  import opened Wrappers
  import opened PySemantics

  /** A PIL image as far as this code looks at it: its `size` and its number of bands. */
  datatype Pic = Pic(width: nat, height: nat, bands: nat)

  const ZeroDivision := "ZeroDivisionError: division by zero"
  const NonPositiveSize := "ValueError: height and width must be > 0"
  const NegativeCanvas := "ValueError: Width and height must be >= 0"
  const RightBeforeLeft := "ValueError: Coordinate 'right' is less than 'left'"
  const LowerBeforeUpper := "ValueError: Coordinate 'lower' is less than 'upper'"

  /** `np.shape(image)`: single-band images are two-dimensional arrays. */
  function Shape(p: Pic): (s: seq<nat>)
    ensures |s| == 3 <==> p.bands != 1
  {
    if p.bands == 1 then [p.height, p.width] else [p.height, p.width, p.bands]
  }

  /** `image.convert('RGB')`. */
  function ToRgb(p: Pic): Pic {
    Pic(p.width, p.height, 3)
  }

  /** `cvtColor`: an image whose array is three-dimensional with three channels is returned as is. */
  function CvtColor(p: Pic): (r: Pic)
    ensures r.bands == 3 && r.width == p.width && r.height == p.height
    ensures r == p <==> |Shape(p)| == 3 && Shape(p)[2] == 3
  {
    if |Shape(p)| == 3 && Shape(p)[2] == 3 then p else ToRgb(p)
  }

  /** PIL `Image.crop((left, upper, right, lower))`: the box may reach outside the image. */
  function PilCrop(p: Pic, left: int, upper: int, right: int, lower: int): Result<Pic, string> {
    if right < left then Failure(RightBeforeLeft)
    else if lower < upper then Failure(LowerBeforeUpper)
    else Success(Pic(right - left, lower - upper, p.bands))
  }

  /** `crop(img, i, j, h, w)`: the box with upper-left corner `(j, i)`, `w` wide and `h` high. */
  function Crop(p: Pic, i: int, j: int, h: int, w: int): (r: Result<Pic, string>)
    ensures r.Success? <==> w >= 0 && h >= 0
    ensures r.Success? ==> r.value == Pic(w, h, p.bands)
  {
    PilCrop(p, j, i, j + w, i + h)
  }

  /**
   * PIL `Image.resize((w, h))`: the same size returns a copy; a non-positive target size is
   * refused; otherwise the image gets the requested size.
   */
  function PilResize(p: Pic, w: int, h: int): (r: Result<Pic, string>)
    ensures r.Success? <==> (w == p.width && h == p.height) || (w >= 1 && h >= 1)
    ensures r.Success? ==> r.value == Pic(w, h, p.bands)
  {
    if w == p.width && h == p.height then Success(p)
    else if w < 1 || h < 1 then Failure(NonPositiveSize)
    else Success(Pic(w, h, p.bands))
  }

  /** The `size` argument of `resize`: an int (the shorter edge) or a sequence `(h, w)`. */
  datatype SizeArg = Edge(n: int) | Pair(h: int, w: int)

  /** The longer edge after scaling the shorter edge `short` to `n`: `int(n * long / short)`. */
  function ScaledEdge(n: int, long: nat, short: nat): int
    requires short > 0
  {
    Trunc((n * long) as real / short as real)
  }

  /** `resize`; with a sequence `(h, w)` the result is `w` wide and `h` high. */
  function Resize(p: Pic, size: SizeArg): (r: Result<Pic, string>)
    ensures size.Pair? ==> (r.Success? <==> (size.w == p.width && size.h == p.height) || (size.w >= 1 && size.h >= 1))
    ensures size.Pair? && r.Success? ==> r.value == Pic(size.w, size.h, p.bands)
  {
    match size
    case Edge(n) =>
      var w, h := p.width, p.height;
      if (w <= h && w == n) || (h <= w && h == n) then Success(p)
      else if w < h then
        (if w == 0 then Failure(ZeroDivision) else PilResize(p, n, ScaledEdge(n, h, w)))
      else
        (if h == 0 then Failure(ZeroDivision) else PilResize(p, ScaledEdge(n, w, h), n))
    case Pair(h, w) => PilResize(p, w, h)
  }

  /**
   * With an int size, the image is returned as is when its shorter edge already has that
   * length. Otherwise resizing succeeds exactly on a non-empty image and a positive size:
   * the shorter edge becomes the size and the longer one `int(size * long / short)`, which
   * is at least the size, so the orientation is kept.
   */
  lemma ResizeEdge(p: Pic, n: int)
    ensures var w, h := p.width, p.height;
      var kept := (w <= h && w == n) || (h <= w && h == n);
      && (kept ==> Resize(p, Edge(n)) == Success(p))
      && (!kept ==> (Resize(p, Edge(n)).Success? <==> n >= 1 && w > 0 && h > 0))
      && (!kept && n >= 1 && 0 < w < h ==>
            ScaledEdge(n, h, w) >= n && Resize(p, Edge(n)) == Success(Pic(n, ScaledEdge(n, h, w), p.bands)))
      && (!kept && n >= 1 && 0 < h <= w ==>
            ScaledEdge(n, w, h) >= n && Resize(p, Edge(n)) == Success(Pic(ScaledEdge(n, w, h), n, p.bands)))
    ensures Resize(p, Edge(n)).Success? ==>
      var r := Resize(p, Edge(n)).value;
      && r.bands == p.bands
      && (if p.width <= p.height then r.width == n && r.height >= n else r.height == n && r.width >= n)
      && (p.width <= p.height ==> r.width <= r.height)
      && (p.height <= p.width ==> r.height <= r.width)
  {
    var w, h := p.width, p.height;
    if (w <= h && w == n) || (h <= w && h == n) {
      assert Resize(p, Edge(n)) == Success(p);
    } else if w < h {
      if w > 0 {
        ResizeTall(p, n);
      }
    } else {
      if h > 0 {
        ResizeWide(p, n);
      }
    }
  }

  /** An image higher than wide whose width is not `n`: the width becomes `n`, the height scales. */
  lemma ResizeTall(p: Pic, n: int)
    requires 0 < p.width < p.height && p.width != n
    ensures n < 1 ==> Resize(p, Edge(n)) == Failure(NonPositiveSize)
    ensures n >= 1 ==>
      ScaledEdge(n, p.height, p.width) >= n && Resize(p, Edge(n)) == Success(Pic(n, ScaledEdge(n, p.height, p.width), p.bands))
  {
    assert Resize(p, Edge(n)) == PilResize(p, n, ScaledEdge(n, p.height, p.width));
    LongerEdge(n, p.width, p.height);
  }

  /** An image at least as wide as high whose height is not `n`: the height becomes `n`, the width scales. */
  lemma ResizeWide(p: Pic, n: int)
    requires 0 < p.height <= p.width && p.height != n
    ensures n < 1 ==> Resize(p, Edge(n)) == Failure(NonPositiveSize)
    ensures n >= 1 ==>
      ScaledEdge(n, p.width, p.height) >= n && Resize(p, Edge(n)) == Success(Pic(ScaledEdge(n, p.width, p.height), n, p.bands))
  {
    assert Resize(p, Edge(n)) == PilResize(p, ScaledEdge(n, p.width, p.height), n);
    LongerEdge(n, p.height, p.width);
  }

  /** Scaling the longer edge by `n / short` keeps it at least `n` long. */
  lemma LongerEdge(n: int, short: nat, long: nat)
    requires 0 < short <= long
    ensures n >= 1 ==> ScaledEdge(n, long, short) >= n
  {
    if n >= 1 {
      var q := (n * long) as real / short as real;
      RatioTimes(short as real, (n * long) as real);
      assert n * long >= n * short by {
        MulMonotoneInt(n, short, long);
      }
      CancelFactor(short as real, q, n as real);
      TruncAtLeast(q, n);
    }
  }

  /** Python's `round` on a float: to the nearest integer, halves to the even neighbour. */
  function RoundHalfEven(r: real): (n: int)
    ensures n as real - 0.5 <= r <= n as real + 0.5
    ensures (r == n as real - 0.5 || r == n as real + 0.5) ==> n % 2 == 0
  {
    var f := r.Floor;
    var d := r - f as real;
    if d < 0.5 then f
    else if d > 0.5 then f + 1
    else if f % 2 == 0 then f else f + 1
  }

  /** The `output_size` of `center_crop`: a number (a square) or a sequence `(th, tw)`. */
  datatype CropSize = Square(x: real) | Dims(th: int, tw: int)

  function CropDims(size: CropSize): (int, int) {
    match size
    case Square(x) => (Trunc(x), Trunc(x))
    case Dims(th, tw) => (th, tw)
  }

  /**
   * The crop offset `int(round((len - out) / 2.))` along one axis: the margins it leaves
   * before and after the crop differ by at most one pixel.
   */
  function CentreOffset(len: int, out: int): (o: int)
    ensures -1 <= o - (len - out - o) <= 1
  {
    RoundHalfEven((len - out) as real / 2.0)
  }

  /** `center_crop`: exactly `th x tw` when neither is negative. */
  function CenterCrop(p: Pic, size: CropSize): (r: Result<Pic, string>)
    ensures r.Success? <==> CropDims(size).0 >= 0 && CropDims(size).1 >= 0
    ensures r.Success? ==> r.value == Pic(CropDims(size).1, CropDims(size).0, p.bands)
  {
    var (th, tw) := CropDims(size);
    Crop(p, CentreOffset(p.height, th), CentreOffset(p.width, tw), th, tw)
  }

  /** The scaled size and the paste offset of the padding branch of `letterbox_image`. */
  datatype Fit = Fit(nw: int, nh: int, dx: int, dy: int)

  /** The scale of the padding branch: `min(w / iw, h / ih)`. */
  function FitScale(iw: nat, ih: nat, w: int, h: int): real
    requires iw > 0 && ih > 0
  {
    var sw := w as real / iw as real;
    var sh := h as real / ih as real;
    if sw <= sh then sw else sh
  }

  /** `int(side * scale)`. */
  function Scaled(side: nat, scale: real): int {
    Trunc(side as real * scale)
  }

  function FitInto(iw: nat, ih: nat, w: int, h: int): Fit
    requires iw > 0 && ih > 0
  {
    var scale := FitScale(iw, ih, w, h);
    var nw := Scaled(iw, scale);
    var nh := Scaled(ih, scale);
    Fit(nw, nh, (w - nw) / 2, (h - nh) / 2)
  }

  /**
   * Scaling by `min(w/iw, h/ih)` fits the image inside the canvas, touches the canvas on at
   * least one axis, and the paste offsets keep the image inside.
   */
  lemma FitIntoSpec(iw: nat, ih: nat, w: nat, h: nat)
    requires iw > 0 && ih > 0
    ensures var f := FitInto(iw, ih, w, h);
      && 0 <= f.nw <= w && 0 <= f.nh <= h
      && (f.nw == w || f.nh == h)
      && f.dx >= 0 && f.dy >= 0
      && f.dx + f.nw <= w && f.dy + f.nh <= h
  {
    var sw := w as real / iw as real;
    var sh := h as real / ih as real;
    var scale := FitScale(iw, ih, w, h);
    var nw := Scaled(iw, scale);
    var nh := Scaled(ih, scale);
    assert 0 <= nw <= w && (scale == sw ==> nw == w) by {
      DivNonNegative(w as real, iw as real);
      DivNonNegative(h as real, ih as real);
      ScaledSide(iw, w, sw, scale);
    }
    assert 0 <= nh <= h && (scale == sh ==> nh == h) by {
      DivNonNegative(w as real, iw as real);
      DivNonNegative(h as real, ih as real);
      ScaledSide(ih, h, sh, scale);
    }
    var f := FitInto(iw, ih, w, h);
    assert f.nw == nw && f.nh == nh;
    PasteOffset(nw, w);
    PasteOffset(nh, h);
  }

  /** Neither scaled side is empty when the image is at most `w` times wider and `h` times higher. */
  lemma FitIntoPositive(iw: nat, ih: nat, w: nat, h: nat)
    requires iw > 0 && ih > 0 && w > 0 && h > 0
    requires iw <= ih * w && ih <= iw * h
    ensures FitInto(iw, ih, w, h).nw >= 1 && FitInto(iw, ih, w, h).nh >= 1
  {
    ScaledPositive(iw, ih, w, h, FitScale(iw, ih, w, h));
  }

  /** Neither side truncates to zero when the image is at most `w` times wider and `h` times higher. */
  lemma ScaledPositive(iw: nat, ih: nat, w: nat, h: nat, scale: real)
    requires iw > 0 && ih > 0 && w > 0 && h > 0
    requires iw <= ih * w && ih <= iw * h
    requires scale == FitScale(iw, ih, w, h)
    ensures Scaled(iw, scale) >= 1 && Scaled(ih, scale) >= 1
  {
    var sw := w as real / iw as real;
    var sh := h as real / ih as real;
    if sw <= sh {
      ScaledSide(iw, w, sw, scale);
      OtherSideAtLeastOne(iw, ih, w);
    } else {
      ScaledSide(ih, h, sh, scale);
      OtherSideAtLeastOne(ih, iw, h);
    }
  }

  /** A side no longer than the canvas, pasted at `(target - n) // 2`, lies inside it. */
  lemma PasteOffset(n: int, target: int)
    requires 0 <= n <= target
    ensures 0 <= (target - n) / 2 && (target - n) / 2 + n <= target
  {
  }

  lemma DivNonNegative(a: real, b: real)
    requires a >= 0.0 && b > 0.0
    ensures a / b >= 0.0
  {
  }

  /** One side scaled by `scale <= target / side` stays within `[0, target]`, and equals it when `scale` is that ratio. */
  lemma ScaledSide(side: nat, target: nat, ratio: real, scale: real)
    requires side > 0 && ratio == target as real / side as real
    requires scale <= ratio && (scale == ratio || scale >= 0.0)
    ensures 0 <= Scaled(side, scale) <= target
    ensures scale == ratio ==> Scaled(side, scale) == target
  {
    var x := side as real * scale;
    RatioTimes(side as real, target as real);
    assert side as real * ratio == target as real;
    DivNonNegative(target as real, side as real);
    MulMonotone(side as real, scale, ratio);
    assert x <= side as real * ratio;
    assert x >= 0.0 by {
      MulMonotone(side as real, 0.0, scale);
    }
    TruncBetween(x, target);
  }

  /** A real in `[0, n]` truncates into `[0, n]`, and `n` itself to `n`. */
  lemma TruncBetween(x: real, n: nat)
    requires 0.0 <= x <= n as real
    ensures 0 <= Trunc(x) <= n
    ensures x == n as real ==> Trunc(x) == n
  {
  }

  lemma MulMonotone(a: real, x: real, y: real)
    requires a >= 0.0 && x <= y
    ensures a * x <= a * y
  {
  }

  lemma MulSwap(a: real, b: real, c: real)
    ensures a * (b * c) == b * (a * c)
  {
  }

  lemma MulStrict(a: real, x: real, y: real)
    requires a > 0.0 && x < y
    ensures a * x < a * y
  {
  }

  /** `letterbox_image(image, size, letterbox_image)` with `size == [w, h]`. */
  function LetterboxImage(p: Pic, w: int, h: int, pad: bool): Result<Pic, string> {
    if pad then
      if p.width == 0 || p.height == 0 then Failure(ZeroDivision)
      else
        var f := FitInto(p.width, p.height, w, h);
        var resized := PilResize(p, f.nw, f.nh);
        if resized.Failure? then Failure(resized.error)
        else if w < 0 || h < 0 then Failure(NegativeCanvas)
        else Success(Pic(w, h, 3))
    else
      var scaled := if h == w then Resize(p, Edge(h)) else Resize(p, Pair(h, w));
      if scaled.Failure? then scaled
      else CenterCrop(scaled.value, Dims(h, w))
  }

  /** Both branches give an image of exactly the requested size; the padding branch an RGB one. */
  lemma LetterboxSize(p: Pic, w: int, h: int, pad: bool)
    requires LetterboxImage(p, w, h, pad).Success?
    ensures LetterboxImage(p, w, h, pad).value.width == w
    ensures LetterboxImage(p, w, h, pad).value.height == h
    ensures pad ==> LetterboxImage(p, w, h, pad).value.bands == 3
    ensures !pad ==> LetterboxImage(p, w, h, pad).value.bands == p.bands
  {
    if !pad {
      var scaled := if h == w then Resize(p, Edge(h)) else Resize(p, Pair(h, w));
      if h == w {
        ResizeEdge(p, h);
      }
    }
  }

  /**
   * The padding branch succeeds on every non-empty image that is at most `w` times wider
   * than high and at most `h` times higher than wide, for a canvas of positive size.
   */
  lemma LetterboxPadSucceeds(p: Pic, w: nat, h: nat)
    requires p.width > 0 && p.height > 0 && w > 0 && h > 0
    requires p.width <= p.height * w && p.height <= p.width * h
    ensures LetterboxImage(p, w, h, true) == Success(Pic(w, h, 3))
  {
    FitIntoPositive(p.width, p.height, w, h);
  }

  /** Scaling `other` by `target / side` leaves at least one pixel when `side <= other * target`. */
  lemma OtherSideAtLeastOne(side: nat, other: nat, target: nat)
    requires side > 0 && side <= other * target
    ensures Scaled(other, target as real / side as real) >= 1
  {
    var s, o, t := side as real, other as real, target as real;
    var ratio := t / s;
    var x := o * ratio;
    RatioTimes(s, t);
    MulSwap(s, o, ratio);
    assert s * x == o * t;
    assert o * t >= s * 1.0;
    CancelFactor(s, x, 1.0);
    TruncAtLeast(x, 1);
  }

  /** Dividing by a positive number and multiplying back gives the number again. */
  lemma RatioTimes(d: real, t: real)
    requires d > 0.0
    ensures d * (t / d) == t
  {
  }

  /** A positive factor can be cancelled from both sides of `<=`. */
  lemma CancelFactor(a: real, x: real, b: real)
    requires a > 0.0 && a * x >= a * b
    ensures x >= b
  {
    if x < b {
      MulStrict(a, x, b);
    }
  }

  /** A non-negative real of at least `n` truncates to at least `n`. */
  lemma TruncAtLeast(x: real, n: int)
    requires x >= n as real && n >= 0
    ensures Trunc(x) >= n
  {
  }

  lemma MulMonotoneInt(n: int, a: int, b: int)
    requires n >= 0 && a <= b
    ensures n * a <= n * b
  {
  }

  /** `image.convert("L")` applied to a successful result. */
  function ToGray(r: Result<Pic, string>): Result<Pic, string> {
    match r
    case Success(p) => Success(Pic(p.width, p.height, 1))
    case Failure(e) => Failure(e)
  }

  /** `Siamese.input_shape`. */
  const InputShape: seq<int> := [32, 32]

  /** `Siamese.letterbox_image`: converted to RGB, padded, and converted to "L" for a one-deep input shape. */
  function ModelLetterbox(p: Pic, w: int, h: int): Result<Pic, string> {
    var padded := LetterboxImage(ToRgb(p), w, h, true);
    if InputShape[|InputShape| - 1] == 1 then ToGray(padded) else padded
  }

  /** The last dimension of the input shape is 32, so the grayscale conversion never happens. */
  lemma ModelLetterboxStaysRgb(p: Pic, w: int, h: int)
    ensures ModelLetterbox(p, w, h) == LetterboxImage(ToRgb(p), w, h, true)
    ensures ModelLetterbox(p, w, h).Success? ==> ModelLetterbox(p, w, h).value.bands == 3
  {
    if ModelLetterbox(p, w, h).Success? {
      LetterboxSize(ToRgb(p), w, h, true);
    }
  }

  /**
   * The preprocessing of `detect_image` for one image. The flag it passes is the bound method
   * `self.letterbox_image`, which is always truthy, so the padding branch is the one taken.
   */
  function DetectInput(p: Pic): Result<Pic, string> {
    var methodIsTruthy := true;
    LetterboxImage(CvtColor(p), InputShape[1], InputShape[0], methodIsTruthy)
  }

  /**
   * Every input that survives preprocessing is a 32 x 32 RGB image, and every input whose
   * sides differ by a factor of at most 32 survives it.
   */
  lemma DetectInputSpec(p: Pic)
    ensures DetectInput(p).Success? ==> DetectInput(p).value == Pic(32, 32, 3)
    ensures p.width > 0 && p.height > 0 && p.width <= 32 * p.height && p.height <= 32 * p.width ==>
      DetectInput(p).Success?
  {
    var c := CvtColor(p);
    if DetectInput(p).Success? {
      LetterboxSize(c, 32, 32, true);
    }
    if p.width > 0 && p.height > 0 && p.width <= 32 * p.height && p.height <= 32 * p.width {
      LetterboxPadSucceeds(c, 32, 32);
    }
  }
}
