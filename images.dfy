/**
 * Raster images as numpy holds them: `height x width` pixels of `channels` integer
 * components each, and boolean masks of the same height and width.
 */
module Images {
  import opened PySemantics

  type Pixel = seq<int>

  datatype Image = Image(height: nat, width: nat, channels: nat, px: seq<seq<Pixel>>) {
    predicate Valid() {
      && |px| == height
      && (forall y :: 0 <= y < height ==> |px[y]| == width)
      && (forall y, x :: 0 <= y < height && 0 <= x < width ==> |px[y][x]| == channels)
    }
  }

  predicate IsGrid<T>(g: seq<seq<T>>, h: nat, w: nat) {
    |g| == h && forall y :: 0 <= y < h ==> |g[y]| == w
  }

  /** `img[top:bottom, left:right]`, with numpy's slice-bound normalisation on both axes. */
  function Crop(img: Image, top: int, bottom: int, left: int, right: int): (r: Image)
    requires img.Valid()
    ensures r.Valid() && r.channels == img.channels
    ensures var ys := SliceSpan(img.height, top, bottom);
            var xs := SliceSpan(img.width, left, right);
            r.height == ys.1 - ys.0 && r.width == xs.1 - xs.0 &&
            forall y, x :: 0 <= y < r.height && 0 <= x < r.width ==> r.px[y][x] == img.px[ys.0 + y][xs.0 + x]
  {
    var ys := SliceSpan(img.height, top, bottom);
    var xs := SliceSpan(img.width, left, right);
    Image(ys.1 - ys.0, xs.1 - xs.0, img.channels,
      seq(ys.1 - ys.0, y requires 0 <= y < ys.1 - ys.0 =>
        seq(xs.1 - xs.0, x requires 0 <= x < xs.1 - xs.0 => img.px[ys.0 + y][xs.0 + x])))
  }

  /** `img[..., :3]` on a four-channel image; any other image is left as it is. */
  function DropAlpha(img: Image): (r: Image)
    requires img.Valid()
    ensures r.Valid() && r.height == img.height && r.width == img.width
    ensures r.channels == if img.channels == 4 then 3 else img.channels
    ensures img.channels != 4 ==> r == img
    ensures img.channels == 4 ==>
      forall y, x :: 0 <= y < r.height && 0 <= x < r.width ==> r.px[y][x] == img.px[y][x][..3]
  {
    if img.channels == 4 then
      Image(img.height, img.width, 3,
        seq(img.height, y requires 0 <= y < img.height =>
          seq(img.width, x requires 0 <= x < img.width => img.px[y][x][..3])))
    else img
  }

  /** `cv2.cvtColor(img, COLOR_BGR2BGRA)`: an opaque alpha channel is appended. */
  function AddAlpha(img: Image): (r: Image)
    requires img.Valid() && img.channels == 3
    ensures r.Valid() && r.height == img.height && r.width == img.width && r.channels == 4
    ensures forall y, x :: 0 <= y < r.height && 0 <= x < r.width ==> r.px[y][x] == img.px[y][x] + [255]
  {
    Image(img.height, img.width, 4,
      seq(img.height, y requires 0 <= y < img.height =>
        seq(img.width, x requires 0 <= x < img.width => img.px[y][x] + [255])))
  }

  /** `cv2.cvtColor(img, COLOR_BGR2RGB)`: three channels, blue and red exchanged, alpha dropped. */
  function BgrToRgb(img: Image): (r: Image)
    requires img.Valid() && (img.channels == 3 || img.channels == 4)
    ensures r.Valid() && r.height == img.height && r.width == img.width && r.channels == 3
    ensures forall y, x :: 0 <= y < r.height && 0 <= x < r.width ==>
      r.px[y][x] == [img.px[y][x][2], img.px[y][x][1], img.px[y][x][0]]
  {
    Image(img.height, img.width, 3,
      seq(img.height, y requires 0 <= y < img.height =>
        seq(img.width, x requires 0 <= x < img.width =>
          [img.px[y][x][2], img.px[y][x][1], img.px[y][x][0]])))
  }
}
