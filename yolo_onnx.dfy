/**
 * The glyph detector (`YOLO_ONNX` in detnate.py): the glyph isolator
 * `extract_center_dominant_color_kmeans` and the post-inference part of `predict`.
 *
 * The numerical library calls are inputs of the model, each with the contract the
 * library documents: `cv2.kmeans` (a `KMeans`), `cv2.connectedComponentsWithStats`
 * (a `ComponentLabeller`), `cv2.dnn.NMSBoxes` (an `Nms`) and the ONNX session (the
 * detection rows handed to `Predict`).
 */
module YoloOnnx {
  import opened Wrappers
  import opened PySemantics
  import opened Images

  // ---------------------------------------------------------------------------
  // Glyph isolator
  // ---------------------------------------------------------------------------

  /** Colour painted on the glyph (255, 255, 255) and on everything else (255, 143, 0). */
  const White: Pixel := [255, 255, 255]
  const Accent: Pixel := [255, 143, 0]

  /** Smallest connected component kept in the glyph mask. */
  const MinArea := 20

  const CentreRegionEmpty := "中心区域为空，请检查图像大小"

  /**
   * The centre third of an axis of length `n`: `[n//2 - (n//3)//2, n//2 + (n//3)//2)`.
   * It always lies inside the axis and is empty exactly when the axis is shorter than 6.
   */
  function CentreSpan(n: nat): (r: (int, int))
    ensures 0 <= r.0 <= r.1 <= n
    ensures r.1 - r.0 == 2 * ((n / 3) / 2)
    ensures r.0 == r.1 <==> n < 6
  {
    (n / 2 - (n / 3) / 2, n / 2 + (n / 3) / 2)
  }

  /** The rows of a grid laid end to end (`reshape(-1, 3)` of the pixels). */
  function Flatten<T>(g: seq<seq<T>>): (r: seq<T>)
    ensures |g| > 0 && |g[0]| > 0 ==> |r| > 0
  {
    if |g| == 0 then [] else g[0] + Flatten(g[1..])
  }

  /** The number of clusters actually requested: `k`, lowered to the pixel count (at least 1). */
  function ClusterCount(k: nat, pixels: nat): (r: nat)
    requires k >= 1
    ensures 1 <= r <= k
    ensures pixels >= 1 ==> r <= pixels
    ensures pixels >= k ==> r == k
  {
    if pixels < k then (if pixels < 1 then 1 else pixels) else k
  }

  /** `cv2.kmeans` output: a label per input pixel and an (integer-truncated) centre per cluster. */
  datatype Clustering = Clustering(labels: seq<nat>, centres: seq<Pixel>)

  type KMeans = (seq<Pixel>, nat) -> Clustering

  predicate IsClusteringOf(c: Clustering, n: nat, k: nat) {
    && |c.labels| == n
    && |c.centres| == k
    && (forall i :: 0 <= i < n ==> c.labels[i] < k)
    && (forall j :: 0 <= j < k ==> |c.centres[j]| == 3)
  }

  ghost predicate KMeansContract(kmeans: KMeans) {
    forall pts: seq<Pixel>, k: nat :: 1 <= k <= |pts| ==> IsClusteringOf(kmeans(pts, k), |pts|, k)
  }

  /**
   * `unique_labels[np.argmax(counts)]`: the cluster with the most pixels; on a tie the
   * lowest label, because `np.unique` sorts and `np.argmax` returns the first maximum.
   */
  method DominantCluster(labels: seq<nat>, k: nat) returns (d: nat)
    requires |labels| > 0
    requires forall i :: 0 <= i < |labels| ==> labels[i] < k
    ensures d < k && d in labels
    ensures forall c :: 0 <= c < k ==> multiset(labels)[c] <= multiset(labels)[d]
    ensures forall c :: 0 <= c < d ==> multiset(labels)[c] < multiset(labels)[d]
  {
    assert labels[0] in multiset(labels);
    d := 0;
    var best := multiset(labels)[0];
    var c := 1;
    while c < k
      invariant 1 <= c <= k
      invariant d < c && best == multiset(labels)[d]
      invariant forall c' :: 0 <= c' < c ==> multiset(labels)[c'] <= best
      invariant forall c' :: 0 <= c' < d ==> multiset(labels)[c'] < best
    {
      if multiset(labels)[c] > best {
        d, best := c, multiset(labels)[c];
      }
      c := c + 1;
    }
    assert multiset(labels)[labels[0]] <= best;
  }

  /** Squared RGB distance between a pixel and a colour. */
  function SqDistance(p: Pixel, c: Pixel): int
    requires |p| == 3 && |c| == 3
  {
    (p[0] - c[0]) * (p[0] - c[0]) + (p[1] - c[1]) * (p[1] - c[1]) + (p[2] - c[2]) * (p[2] - c[2])
  }

  /** `sqrt(distance²) <= tolerance`, stated without the square root. */
  predicate WithinTolerance(p: Pixel, c: Pixel, tolerance: int)
    requires |p| == 3 && |c| == 3
  {
    tolerance >= 0 && SqDistance(p, c) <= tolerance * tolerance
  }

  /** The raw colour mask: the pixels close enough to the dominant colour. */
  function ColourMask(img: Image, colour: Pixel, tolerance: int): (m: seq<seq<bool>>)
    requires img.Valid() && img.channels == 3 && |colour| == 3
    ensures IsGrid(m, img.height, img.width)
    ensures forall y, x :: 0 <= y < img.height && 0 <= x < img.width ==>
      (m[y][x] <==> WithinTolerance(img.px[y][x], colour, tolerance))
  {
    seq(img.height, y requires 0 <= y < img.height =>
      seq(img.width, x requires 0 <= x < img.width => WithinTolerance(img.px[y][x], colour, tolerance)))
  }

  /** Erosion by a `k x k` square anchored at its centre; cells outside the grid are ignored. */
  function Erode(m: seq<seq<bool>>, h: nat, w: nat, k: nat): (r: seq<seq<bool>>)
    requires IsGrid(m, h, w) && k >= 1
    ensures IsGrid(r, h, w)
  {
    seq(h, y requires 0 <= y < h => seq(w, x requires 0 <= x < w =>
      forall ny, nx | y - k / 2 <= ny < y + k - k / 2 && x - k / 2 <= nx < x + k - k / 2 ::
        0 <= ny < h && 0 <= nx < w ==> m[ny][nx]))
  }

  /** Dilation by a `k x k` square anchored at its centre; cells outside the grid are ignored. */
  function Dilate(m: seq<seq<bool>>, h: nat, w: nat, k: nat): (r: seq<seq<bool>>)
    requires IsGrid(m, h, w) && k >= 1
    ensures IsGrid(r, h, w)
  {
    seq(h, y requires 0 <= y < h => seq(w, x requires 0 <= x < w =>
      exists ny, nx | y - k / 2 <= ny < y + k - k / 2 && x - k / 2 <= nx < x + k - k / 2 ::
        0 <= ny < h && 0 <= nx < w && m[ny][nx]))
  }

  /** `MORPH_OPEN` then `MORPH_CLOSE`, one iteration each, with a `k x k` kernel. */
  function OpenThenClose(m: seq<seq<bool>>, h: nat, w: nat, k: nat): (r: seq<seq<bool>>)
    requires IsGrid(m, h, w) && k >= 1
    ensures IsGrid(r, h, w)
  {
    var afterOpen := Dilate(Erode(m, h, w, k), h, w, k);
    Erode(Dilate(afterOpen, h, w, k), h, w, k)
  }

  /** With the 1x1 kernel the isolator uses, erosion and dilation leave every mask unchanged. */
  lemma UnitKernelIsIdentity(m: seq<seq<bool>>, h: nat, w: nat)
    requires IsGrid(m, h, w)
    ensures Erode(m, h, w, 1) == m
    ensures Dilate(m, h, w, 1) == m
    ensures OpenThenClose(m, h, w, 1) == m
  {
    var e := Erode(m, h, w, 1);
    var d := Dilate(m, h, w, 1);
    forall y | 0 <= y < h ensures e[y] == m[y] && d[y] == m[y] {
      forall x | 0 <= x < w ensures e[y][x] == m[y][x] && d[y][x] == m[y][x] {
        assert e[y][x] == (0 <= y < h && 0 <= x < w ==> m[y][x]);
        assert d[y][x] == (0 <= y < h && 0 <= x < w && m[y][x]);
      }
    }
  }

  /** `cv2.connectedComponentsWithStats` output: a label per pixel and an area per label. */
  datatype Labelling = Labelling(labels: seq<seq<nat>>, areas: seq<nat>)

  type ComponentLabeller = seq<seq<bool>> -> Labelling

  /** Label 0 is the background: exactly the pixels outside the mask. */
  predicate IsLabellingOf(c: Labelling, m: seq<seq<bool>>) {
    && |c.areas| >= 1
    && |c.labels| == |m|
    && (forall y :: 0 <= y < |m| ==> |c.labels[y]| == |m[y]|)
    && (forall y, x :: 0 <= y < |m| && 0 <= x < |m[y]| ==>
          c.labels[y][x] < |c.areas| && (c.labels[y][x] == 0 <==> !m[y][x]))
  }

  ghost predicate LabellerContract(labeller: ComponentLabeller) {
    forall m: seq<seq<bool>> :: IsLabellingOf(labeller(m), m)
  }

  /** A labelling of an `h x w` grid whose labels all have an area. */
  predicate IsLabelledGrid(c: Labelling, h: nat, w: nat) {
    && IsGrid(c.labels, h, w) && |c.areas| >= 1
    && forall y, x :: 0 <= y < h && 0 <= x < w ==> c.labels[y][x] < |c.areas|
  }

  /** The pixels of the components (labels other than 0) whose area is at least `MinArea`. */
  function LargeComponents(c: Labelling, h: nat, w: nat): (r: seq<seq<bool>>)
    requires IsLabelledGrid(c, h, w)
    ensures IsGrid(r, h, w)
  {
    seq(h, y requires 0 <= y < h => seq(w, x requires 0 <= x < w =>
      c.labels[y][x] >= 1 && c.areas[c.labels[y][x]] >= MinArea))
  }

  /** A labeller's output for a mask is a labelled grid of the mask's size. */
  lemma LabellingIsGrid(c: Labelling, m: seq<seq<bool>>, h: nat, w: nat)
    requires IsGrid(m, h, w) && IsLabellingOf(c, m)
    ensures IsLabelledGrid(c, h, w)
  {
  }

  /** The large-component mask lies inside the mask that was labelled. */
  lemma LargeComponentsInMask(c: Labelling, m: seq<seq<bool>>, h: nat, w: nat)
    requires IsGrid(m, h, w) && IsLabellingOf(c, m)
    ensures IsLabelledGrid(c, h, w)
    ensures var r := LargeComponents(c, h, w);
      IsGrid(r, h, w) && forall y, x :: 0 <= y < h && 0 <= x < w && r[y][x] ==> m[y][x]
  {
  }

  /**
   * The loop over labels `1 .. num_labels-1` that marks every pixel of a component of
   * area at least `MinArea` in `final_mask`.
   */
  method KeepLargeComponents(c: Labelling, h: nat, w: nat) returns (keep: seq<seq<bool>>)
    requires IsLabelledGrid(c, h, w)
    ensures keep == LargeComponents(c, h, w)
  {
    keep := seq(h, y requires 0 <= y < h => seq(w, x requires 0 <= x < w => false));
    var i := 1;
    while i < |c.areas|
      invariant 1 <= i <= |c.areas|
      invariant IsGrid(keep, h, w)
      invariant forall y, x :: 0 <= y < h && 0 <= x < w ==>
        (keep[y][x] <==> 1 <= c.labels[y][x] < i && c.areas[c.labels[y][x]] >= MinArea)
    {
      if c.areas[i] >= MinArea {
        var prev := keep;
        keep := seq(h, y requires 0 <= y < h => seq(w, x requires 0 <= x < w => prev[y][x] || c.labels[y][x] == i));
      }
      i := i + 1;
    }
    var target := LargeComponents(c, h, w);
    forall y | 0 <= y < h ensures keep[y] == target[y] {
      assert forall x :: 0 <= x < w ==> keep[y][x] == target[y][x];
    }
  }

  /** The colours for an image with `channels` channels (an opaque alpha is added for four). */
  function BackgroundFor(channels: nat): Pixel {
    if channels == 4 then Accent + [255] else Accent
  }

  function ForegroundFor(channels: nat): Pixel {
    if channels == 4 then White + [255] else White
  }

  /** `np.full_like(img, background)` followed by `result[mask] = foreground`. */
  function Paint(m: seq<seq<bool>>, h: nat, w: nat, fg: Pixel, bg: Pixel): (r: Image)
    requires IsGrid(m, h, w) && |fg| == |bg|
    ensures r.Valid() && r.height == h && r.width == w && r.channels == |fg|
    ensures forall y, x :: 0 <= y < h && 0 <= x < w ==> r.px[y][x] == if m[y][x] then fg else bg
  {
    Image(h, w, |fg|, seq(h, y requires 0 <= y < h => seq(w, x requires 0 <= x < w => if m[y][x] then fg else bg)))
  }

  /** The distinct colours of an image other than `bg` (what the "two or more colours" test counts). */
  function OtherColours(img: Image, bg: Pixel): set<Pixel>
    requires img.Valid()
  {
    set y, x | 0 <= y < img.height && 0 <= x < img.width && img.px[y][x] != bg :: img.px[y][x]
  }

  /**
   * A painted image has at most one colour besides the background, so the rewrite guarded
   * by "two or more non-background colours" can never run.
   */
  lemma RecolourBranchIsDead(m: seq<seq<bool>>, h: nat, w: nat, fg: Pixel, bg: Pixel)
    requires IsGrid(m, h, w) && |fg| == |bg| && fg != bg
    ensures OtherColours(Paint(m, h, w, fg, bg), bg) <= {fg}
    ensures |OtherColours(Paint(m, h, w, fg, bg), bg)| <= 1
  {
    var s := OtherColours(Paint(m, h, w, fg, bg), bg);
    assert s <= {fg};
    if s != {} {
      assert s == {fg};
    }
  }

  /** What `extract_center_dominant_color_kmeans` returns: the image, the dominant colour, the mask. */
  datatype Isolation = Isolation(image: Image, colour: Pixel, mask: seq<seq<bool>>)

  /** The pixels of the centre region of an image, in row-major order. */
  function CentrePixels(img: Image): seq<Pixel>
    requires img.Valid()
  {
    var ys := CentreSpan(img.height);
    var xs := CentreSpan(img.width);
    Flatten(Crop(img, ys.0, ys.1, xs.0, xs.1).px)
  }

  /** The centre of the most populated cluster of the centre pixels, ties to the lowest label. */
  ghost predicate IsDominantColour(img: Image, k: nat, kmeans: KMeans, colour: Pixel)
    requires img.Valid() && k >= 1
  {
    var pts := CentrePixels(img);
    var c := kmeans(pts, ClusterCount(k, |pts|));
    exists d :: 0 <= d < |c.centres| && colour == c.centres[d] &&
      (forall i :: 0 <= i < |c.centres| ==> multiset(c.labels)[i] <= multiset(c.labels)[d]) &&
      (forall i :: 0 <= i < d ==> multiset(c.labels)[i] < multiset(c.labels)[d])
  }

  lemma CentrePixelsCount(img: Image)
    requires img.Valid() && img.height >= 6 && img.width >= 6
    ensures |CentrePixels(img)| > 0
  {
    var ys := CentreSpan(img.height);
    var xs := CentreSpan(img.width);
    var region := Crop(img, ys.0, ys.1, xs.0, xs.1);
    assert region.height > 0 && region.width > 0;
    assert |region.px[0]| > 0;
  }

  /**
   * The clustering step of `extract_center_dominant_color_kmeans`: the centre pixels are
   * clustered into `min(k, count)` clusters and the centre of the largest cluster is returned.
   */
  method DominantColour(img: Image, k: nat, kmeans: KMeans) returns (colour: Pixel)
    requires img.Valid() && img.height >= 6 && img.width >= 6
    requires k >= 1
    requires KMeansContract(kmeans)
    ensures |colour| == 3
    ensures IsDominantColour(img, k, kmeans, colour)
  {
    CentrePixelsCount(img);
    var pts := CentrePixels(img);
    var kk := ClusterCount(k, |pts|);
    var clustering := kmeans(pts, kk);
    var d := DominantCluster(clustering.labels, kk);
    colour := clustering.centres[d];
  }

  /**
   * The masking and painting steps of `extract_center_dominant_color_kmeans` for a three-channel
   * image: the pixels within `tolerance` of `colour`, cleaned with the 1x1 kernel, reduced to
   * the components of at least `MinArea` pixels, painted white on the accent colour.
   */
  method PaintGlyph(img: Image, colour: Pixel, tolerance: int, labeller: ComponentLabeller)
    returns (result: Image, mask: seq<seq<bool>>)
    requires img.Valid() && img.channels == 3 && |colour| == 3
    requires LabellerContract(labeller)
    ensures IsLabelledGrid(labeller(ColourMask(img, colour, tolerance)), img.height, img.width)
    ensures mask == LargeComponents(labeller(ColourMask(img, colour, tolerance)), img.height, img.width)
    ensures IsGrid(mask, img.height, img.width)
    ensures forall y, x :: 0 <= y < img.height && 0 <= x < img.width && mask[y][x] ==>
      ColourMask(img, colour, tolerance)[y][x]
    ensures result == Paint(mask, img.height, img.width, White, Accent)
  {
    var h, w := img.height, img.width;
    var raw := ColourMask(img, colour, tolerance);
    var cleaned := OpenThenClose(raw, h, w, 1);
    UnitKernelIsIdentity(raw, h, w);
    var comps := labeller(cleaned);
    LargeComponentsInMask(comps, raw, h, w);
    mask := KeepLargeComponents(comps, h, w);

    // Colours by channel count; the image has three channels here.
    var bg := BackgroundFor(img.channels);
    var fg := ForegroundFor(img.channels);
    result := Paint(mask, h, w, fg, bg);
    if |OtherColours(result, bg)| >= 2 {
      var newFg := ForegroundFor(img.channels);
      var newBg := BackgroundFor(img.channels);
      result := Paint(mask, h, w, newFg, newBg);
    }
    // `cv2.medianBlur(result, 1)`: an aperture of 1 returns a copy of its input.
  }

  /**
   * What a successful isolation of `input` holds: the dominant centre colour, the mask of the
   * large non-background components of the colour mask around it, and the image painted white
   * on the mask and accent elsewhere.
   */
  ghost predicate IsIsolationOf(input: Image, k: nat, tolerance: int, kmeans: KMeans, labeller: ComponentLabeller, iso: Isolation)
    requires input.Valid() && (input.channels == 3 || input.channels == 4) && k >= 1
  {
    var img := DropAlpha(input);
    && |iso.colour| == 3
    && var comps := labeller(ColourMask(img, iso.colour, tolerance));
    && IsDominantColour(img, k, kmeans, iso.colour)
    && IsLabelledGrid(comps, input.height, input.width)
    && iso.mask == LargeComponents(comps, input.height, input.width)
    && iso.image == Paint(iso.mask, input.height, input.width, White, Accent)
    && (forall y, x :: 0 <= y < input.height && 0 <= x < input.width && iso.mask[y][x] ==>
          ColourMask(img, iso.colour, tolerance)[y][x])
  }

  /** An isolated image is a three-channel two-tone image of the input's size. */
  lemma IsolationIsBiTone(input: Image, k: nat, tolerance: int, kmeans: KMeans, labeller: ComponentLabeller, iso: Isolation)
    requires input.Valid() && (input.channels == 3 || input.channels == 4) && k >= 1
    requires IsIsolationOf(input, k, tolerance, kmeans, labeller, iso)
    ensures iso.image.Valid() && iso.image.channels == 3
    ensures iso.image.height == input.height && iso.image.width == input.width
    ensures IsBiTone(iso.image)
  {
  }

  /**
   * `extract_center_dominant_color_kmeans` on an array: fails exactly when the centre region
   * is empty, and otherwise returns the isolation `IsIsolationOf` describes.
   */
  method IsolateGlyph(input: Image, k: nat, tolerance: int, kmeans: KMeans, labeller: ComponentLabeller)
    returns (r: Result<Isolation, string>)
    requires input.Valid() && (input.channels == 3 || input.channels == 4)
    requires k >= 1
    requires KMeansContract(kmeans) && LabellerContract(labeller)
    ensures r.Failure? <==> input.height < 6 || input.width < 6
    ensures r.Failure? ==> r.error == CentreRegionEmpty
    ensures r.Success? ==> IsIsolationOf(input, k, tolerance, kmeans, labeller, r.value)
  {
    var img := DropAlpha(input);
    if img.height < 6 || img.width < 6 {
      return Failure(CentreRegionEmpty);
    }
    var colour := DominantColour(img, k, kmeans);
    var result, mask := PaintGlyph(img, colour, tolerance, labeller);
    r := Success(Isolation(result, colour, mask));
  }

  // ---------------------------------------------------------------------------
  // Detector post-processing
  // ---------------------------------------------------------------------------

  const ConfidenceThreshold: real := 0.5
  const IouThreshold: real := 0.3
  const ModelWidth: real := 512.0
  const ModelHeight: real := 192.0
  const MinCandidates := 4

  const NoTarget := "未检测到目标"
  const NothingAfterNms := "NMS后无有效检测结果"
  const TooFewTargets := "目标检测失败"

  /** One row of the network output: box centre and size (model units) and the class scores. */
  datatype Row = Row(cx: real, cy: real, bw: real, bh: real, classScores: seq<real>)

  /** A box in source-image pixels: `[left, top, width, height]`. */
  datatype Box = Box(left: int, top: int, width: int, height: int)

  datatype Centre = Centre(x: real, y: real)

  /** A candidate glyph: the box centre and the (isolated or raw) crop. */
  datatype Candidate = Candidate(centre: Centre, image: Image)

  /** What `predict` returns: `(False, reason)`, `(True, boxes)` or `(True, cls_xy)`. */
  datatype Detection = Miss(reason: string) | Boxes(boxes: seq<Box>) | Candidates(candidates: seq<Candidate>)

  predicate WellFormedRows(rows: seq<Row>) {
    forall i :: 0 <= i < |rows| ==> |rows[i].classScores| > 0
  }

  /** `np.amax`. */
  function MaxScore(s: seq<real>): (m: real)
    requires |s| > 0
    ensures m in s
    ensures forall i :: 0 <= i < |s| ==> s[i] <= m
  {
    if |s| == 1 then s[0]
    else
      var rest := MaxScore(s[1..]);
      if s[0] >= rest then s[0] else rest
  }

  predicate Keep(row: Row)
    requires |row.classScores| > 0
  {
    MaxScore(row.classScores) >= ConfidenceThreshold && row.bw > 0.0 && row.bh > 0.0
  }

  /** The box of a row, scaled from the 512x192 model input back to the source image. */
  function ToBox(row: Row, imgW: nat, imgH: nat): Box {
    var xf := imgW as real / ModelWidth;
    var yf := imgH as real / ModelHeight;
    Box(Trunc((row.cx - row.bw / 2.0) * xf), Trunc((row.cy - row.bh / 2.0) * yf),
        Trunc(row.bw * xf), Trunc(row.bh * yf))
  }

  /** The indices of the rows the confidence filter keeps, in row order. */
  function KeptIndices(rows: seq<Row>): (r: seq<nat>)
    requires WellFormedRows(rows)
    ensures forall j :: 0 <= j < |r| ==> r[j] < |rows|
  {
    if |rows| == 0 then []
    else
      var n := |rows| - 1;
      KeptIndices(rows[..n]) + (if Keep(rows[n]) then [n] else [])
  }

  /** The filter keeps exactly the qualifying rows, each once, in increasing order. */
  lemma {:induction false} KeptIndicesSpec(rows: seq<Row>)
    requires WellFormedRows(rows)
    ensures forall i :: 0 <= i < |rows| ==> (i in KeptIndices(rows) <==> Keep(rows[i]))
    ensures forall j, j' :: 0 <= j < j' < |KeptIndices(rows)| ==> KeptIndices(rows)[j] < KeptIndices(rows)[j']
  {
    if |rows| > 0 {
      var n := |rows| - 1;
      KeptIndicesSpec(rows[..n]);
      assert forall i :: 0 <= i < n ==> rows[..n][i] == rows[i];
    }
  }

  function KeptBoxes(rows: seq<Row>, imgW: nat, imgH: nat): (r: seq<Box>)
    requires WellFormedRows(rows)
    ensures |r| == |KeptIndices(rows)|
  {
    var ks := KeptIndices(rows);
    seq(|ks|, j requires 0 <= j < |ks| => ToBox(rows[ks[j]], imgW, imgH))
  }

  function KeptScores(rows: seq<Row>): (r: seq<real>)
    requires WellFormedRows(rows)
    ensures |r| == |KeptIndices(rows)|
  {
    var ks := KeptIndices(rows);
    seq(|ks|, j requires 0 <= j < |ks| => MaxScore(rows[ks[j]].classScores))
  }

  /** The row loop of `predict`: `boxes` and `scores` stay index-aligned with the kept rows. */
  method FilterRows(rows: seq<Row>, imgW: nat, imgH: nat) returns (boxes: seq<Box>, scores: seq<real>)
    requires WellFormedRows(rows)
    ensures boxes == KeptBoxes(rows, imgW, imgH)
    ensures scores == KeptScores(rows)
  {
    boxes, scores := [], [];
    var i := 0;
    while i < |rows|
      invariant 0 <= i <= |rows|
      invariant boxes == KeptBoxes(rows[..i], imgW, imgH)
      invariant scores == KeptScores(rows[..i])
    {
      assert rows[..i + 1][..i] == rows[..i];
      var row := rows[i];
      var maxScore := MaxScore(row.classScores);
      if maxScore >= ConfidenceThreshold && row.bw > 0.0 && row.bh > 0.0 {
        boxes := boxes + [ToBox(row, imgW, imgH)];
        scores := scores + [maxScore];
      }
      i := i + 1;
    }
    assert rows[..i] == rows;
  }

  /** `cv2.dnn.NMSBoxes`: the indices of the boxes it keeps. */
  type Nms = (seq<Box>, seq<real>) -> seq<int>

  ghost predicate NmsContract(nms: Nms) {
    forall b: seq<Box>, s: seq<real>, i :: 0 <= i < |nms(b, s)| ==> 0 <= nms(b, s)[i] < |b|
  }

  /** The boxes NMS keeps, in the order it returns them (`new_boxes`). */
  function NmsBoxes(rows: seq<Row>, imgW: nat, imgH: nat, nms: Nms): (r: seq<Box>)
    requires WellFormedRows(rows) && NmsContract(nms)
  {
    var bs := KeptBoxes(rows, imgW, imgH);
    var kept := nms(bs, KeptScores(rows));
    seq(|kept|, j requires 0 <= j < |kept| => bs[kept[j]])
  }

  /** The failure ladder of `predict`: the reason it gives up, or `None` when it goes on. */
  function DetectionFailure(rows: seq<Row>, imgW: nat, imgH: nat, nms: Nms): Option<string>
    requires WellFormedRows(rows) && NmsContract(nms)
  {
    if |KeptIndices(rows)| == 0 then Some(NoTarget)
    else if |NmsBoxes(rows, imgW, imgH, nms)| == 0 then Some(NothingAfterNms)
    else if |NmsBoxes(rows, imgW, imgH, nms)| < MinCandidates then Some(TooFewTargets)
    else None
  }

  /** `box_mid_xy`: the box centre, shifted right by 2 pixels. */
  function BoxCentre(b: Box): Centre {
    Centre(b.left as real + b.width as real / 2.0 + 2.0, b.top as real + b.height as real / 2.0)
  }

  /** Every pixel is the foreground or the background colour for `channels` channels. */
  predicate IsBiTone(img: Image)
    requires img.Valid()
  {
    forall y, x :: 0 <= y < img.height && 0 <= x < img.width ==>
      img.px[y][x] == ForegroundFor(img.channels) || img.px[y][x] == BackgroundFor(img.channels)
  }

  /** `source[top:bottom, left:right]` for a box. */
  function BoxCrop(source: Image, b: Box): (r: Image)
    requires source.Valid()
    ensures r.Valid() && r.channels == source.channels
  {
    Crop(source, b.top, b.top + b.height, b.left, b.left + b.width)
  }

  /** Appending an opaque alpha to a three-channel two-tone image gives the four-channel two tones. */
  lemma AddAlphaKeepsBiTone(img: Image)
    requires img.Valid() && img.channels == 3 && IsBiTone(img)
    ensures IsBiTone(AddAlpha(img))
  {
    var r := AddAlpha(img);
    forall y, x | 0 <= y < r.height && 0 <= x < r.width
      ensures r.px[y][x] == ForegroundFor(4) || r.px[y][x] == BackgroundFor(4)
    {
      assert r.px[y][x] == img.px[y][x] + [255];
    }
  }

  /** The cluster count and the colour tolerance `predict` passes to the isolator. */
  const IsolationK: nat := 8
  const IsolationTolerance: int := 40

  /**
   * What `predict` pairs with box `b`: the box centre, and the raw crop when the crop is too
   * small to isolate; otherwise the isolation of the crop, given an opaque alpha channel when
   * the source has one.
   */
  ghost predicate IsCandidateFor(source: Image, b: Box, kmeans: KMeans, labeller: ComponentLabeller, c: Candidate)
    requires source.Valid() && (source.channels == 3 || source.channels == 4)
  {
    var crop := BoxCrop(source, b);
    && c.centre == BoxCentre(b)
    && (crop.height < 6 || crop.width < 6 ==> c.image == crop)
    && (crop.height >= 6 && crop.width >= 6 ==> IsIsolatedGlyph(crop, source.channels, kmeans, labeller, c.image))
  }

  /**
   * `img` is the isolation of `crop` with the parameters `predict` passes, given an opaque
   * alpha channel when the source has four channels.
   */
  ghost predicate IsIsolatedGlyph(crop: Image, channels: nat, kmeans: KMeans, labeller: ComponentLabeller, img: Image)
    requires crop.Valid() && (crop.channels == 3 || crop.channels == 4) && crop.channels == channels
  {
    exists iso :: IsIsolationOf(crop, IsolationK, IsolationTolerance, kmeans, labeller, iso) &&
      img == if channels == 4 then AddAlpha(iso.image) else iso.image
  }

  /** `cands` pairs each box of `bs` with its candidate, in order. */
  ghost predicate AreCandidatesFor(source: Image, bs: seq<Box>, kmeans: KMeans, labeller: ComponentLabeller, cands: seq<Candidate>)
    requires source.Valid() && (source.channels == 3 || source.channels == 4)
  {
    |cands| == |bs| && forall j :: 0 <= j < |bs| ==> IsCandidateFor(source, bs[j], kmeans, labeller, cands[j])
  }

  /** The isolation of an image is unique: the dominant cluster is the first most populated one. */
  lemma IsolationUnique(input: Image, k: nat, tolerance: int, kmeans: KMeans, labeller: ComponentLabeller,
                        iso1: Isolation, iso2: Isolation)
    requires input.Valid() && (input.channels == 3 || input.channels == 4) && k >= 1
    requires IsIsolationOf(input, k, tolerance, kmeans, labeller, iso1)
    requires IsIsolationOf(input, k, tolerance, kmeans, labeller, iso2)
    ensures iso1 == iso2
  {
    var img := DropAlpha(input);
    var pts := CentrePixels(img);
    var c := kmeans(pts, ClusterCount(k, |pts|));
    var ms := multiset(c.labels);
    var d1 :| 0 <= d1 < |c.centres| && iso1.colour == c.centres[d1] &&
      (forall i :: 0 <= i < |c.centres| ==> ms[i] <= ms[d1]) && (forall i :: 0 <= i < d1 ==> ms[i] < ms[d1]);
    var d2 :| 0 <= d2 < |c.centres| && iso2.colour == c.centres[d2] &&
      (forall i :: 0 <= i < |c.centres| ==> ms[i] <= ms[d2]) && (forall i :: 0 <= i < d2 ==> ms[i] < ms[d2]);
    assert d1 == d2;
  }

  /**
   * A candidate for a box is determined by the source, the box and the library oracles: at
   * most one candidate satisfies `IsCandidateFor`.
   */
  lemma CandidateDetermined(source: Image, b: Box, kmeans: KMeans, labeller: ComponentLabeller, c1: Candidate, c2: Candidate)
    requires source.Valid() && (source.channels == 3 || source.channels == 4)
    requires IsCandidateFor(source, b, kmeans, labeller, c1) && IsCandidateFor(source, b, kmeans, labeller, c2)
    ensures c1 == c2
  {
    var crop := BoxCrop(source, b);
    if crop.height >= 6 && crop.width >= 6 {
      var iso1 :| IsIsolationOf(crop, IsolationK, IsolationTolerance, kmeans, labeller, iso1) &&
        c1.image == if source.channels == 4 then AddAlpha(iso1.image) else iso1.image;
      var iso2 :| IsIsolationOf(crop, IsolationK, IsolationTolerance, kmeans, labeller, iso2) &&
        c2.image == if source.channels == 4 then AddAlpha(iso2.image) else iso2.image;
      IsolationUnique(crop, IsolationK, IsolationTolerance, kmeans, labeller, iso1, iso2);
    }
  }

  /** The candidates for a sequence of boxes are determined too. */
  lemma CandidatesDetermined(source: Image, bs: seq<Box>, kmeans: KMeans, labeller: ComponentLabeller,
                             cands1: seq<Candidate>, cands2: seq<Candidate>)
    requires source.Valid() && (source.channels == 3 || source.channels == 4)
    requires AreCandidatesFor(source, bs, kmeans, labeller, cands1) && AreCandidatesFor(source, bs, kmeans, labeller, cands2)
    ensures cands1 == cands2
  {
    forall j | 0 <= j < |bs|
      ensures cands1[j] == cands2[j]
    {
      CandidateDetermined(source, bs[j], kmeans, labeller, cands1[j], cands2[j]);
    }
  }

  /**
   * A candidate's image has the crop's size and the source's channel count; it is the raw
   * crop when the crop is too small to isolate and a two-tone glyph image otherwise.
   */
  lemma CandidateShape(source: Image, b: Box, kmeans: KMeans, labeller: ComponentLabeller, c: Candidate)
    requires source.Valid() && (source.channels == 3 || source.channels == 4)
    requires IsCandidateFor(source, b, kmeans, labeller, c)
    ensures var crop := BoxCrop(source, b);
      && c.image.Valid() && c.image.channels == source.channels
      && c.image.height == crop.height && c.image.width == crop.width
      && (crop.height >= 6 && crop.width >= 6 ==> IsBiTone(c.image))
  {
    var crop := BoxCrop(source, b);
    if crop.height >= 6 && crop.width >= 6 {
      var iso :| IsIsolationOf(crop, IsolationK, IsolationTolerance, kmeans, labeller, iso) &&
        c.image == if source.channels == 4 then AddAlpha(iso.image) else iso.image;
      IsolationIsBiTone(crop, IsolationK, IsolationTolerance, kmeans, labeller, iso);
      if source.channels == 4 {
        AddAlphaKeepsBiTone(iso.image);
      }
    }
  }

  /**
   * The isolator applied to one box: the cleaned crop, converted to the source's channel
   * count, or the raw crop when isolation raises.
   */
  method MakeCandidate(source: Image, b: Box, kmeans: KMeans, labeller: ComponentLabeller) returns (c: Candidate)
    requires source.Valid() && (source.channels == 3 || source.channels == 4)
    requires KMeansContract(kmeans) && LabellerContract(labeller)
    ensures IsCandidateFor(source, b, kmeans, labeller, c)
  {
    var centre := BoxCentre(b);
    var crop := BoxCrop(source, b);
    var iso := IsolateGlyph(crop, IsolationK, IsolationTolerance, kmeans, labeller);
    if iso.Failure? {
      return Candidate(centre, crop);
    }
    IsolationIsBiTone(crop, IsolationK, IsolationTolerance, kmeans, labeller, iso.value);
    var result := iso.value.image;
    if result.channels != source.channels {
      if result.channels == 3 && source.channels == 4 {
        result := AddAlpha(result);
      }
    }
    c := Candidate(centre, result);
  }

  /**
   * `predict` after inference: the row filter, the failure ladder, and one candidate per box
   * NMS keeps, in NMS order.
   */
  method Predict(source: Image, rows: seq<Row>, boxesOnly: bool, nms: Nms, kmeans: KMeans, labeller: ComponentLabeller)
    returns (d: Detection)
    requires source.Valid() && (source.channels == 3 || source.channels == 4)
    requires WellFormedRows(rows)
    requires NmsContract(nms) && KMeansContract(kmeans) && LabellerContract(labeller)
    ensures d.Miss? <==> DetectionFailure(rows, source.width, source.height, nms).Some?
    ensures d.Miss? ==> d.reason == DetectionFailure(rows, source.width, source.height, nms).value
    ensures d.Boxes? <==> !d.Miss? && boxesOnly
    ensures d.Boxes? ==> d.boxes == NmsBoxes(rows, source.width, source.height, nms)
    ensures d.Candidates? ==>
      var bs := NmsBoxes(rows, source.width, source.height, nms);
      |bs| >= MinCandidates && AreCandidatesFor(source, bs, kmeans, labeller, d.candidates)
  {
    var boxes, scores := FilterRows(rows, source.width, source.height);
    if |boxes| == 0 {
      d := Miss(NoTarget);
    } else {
      var indices := nms(boxes, scores);
      var newBoxes := seq(|indices|, j requires 0 <= j < |indices| => boxes[indices[j]]);
      assert newBoxes == NmsBoxes(rows, source.width, source.height, nms);
      if |indices| == 0 {
        d := Miss(NothingAfterNms);
      } else if |newBoxes| < MinCandidates {
        d := Miss(TooFewTargets);
      } else if boxesOnly {
        d := Boxes(newBoxes);
      } else {
        var candidates := MakeCandidates(source, newBoxes, kmeans, labeller);
        d := Candidates(candidates);
      }
    }
  }

  /** The candidate of each box kept by NMS, in order (the loop of lines 210-249). */
  method MakeCandidates(source: Image, boxes: seq<Box>, kmeans: KMeans, labeller: ComponentLabeller)
    returns (candidates: seq<Candidate>)
    requires source.Valid() && (source.channels == 3 || source.channels == 4)
    requires KMeansContract(kmeans) && LabellerContract(labeller)
    ensures AreCandidatesFor(source, boxes, kmeans, labeller, candidates)
  {
    candidates := [];
    for j := 0 to |boxes|
      invariant AreCandidatesFor(source, boxes[..j], kmeans, labeller, candidates)
    {
      var c := MakeCandidate(source, boxes[j], kmeans, labeller);
      CandidatesSnoc(source, boxes, j, kmeans, labeller, candidates, c);
      candidates := candidates + [c];
    }
    assert boxes[..|boxes|] == boxes;
  }

  /** The candidates of the first `j` boxes and that of box `j` are those of the first `j + 1`. */
  lemma CandidatesSnoc(source: Image, boxes: seq<Box>, j: nat, kmeans: KMeans, labeller: ComponentLabeller,
                       cands: seq<Candidate>, c: Candidate)
    requires source.Valid() && (source.channels == 3 || source.channels == 4) && j < |boxes|
    requires AreCandidatesFor(source, boxes[..j], kmeans, labeller, cands)
    requires IsCandidateFor(source, boxes[j], kmeans, labeller, c)
    ensures AreCandidatesFor(source, boxes[..j + 1], kmeans, labeller, cands + [c])
  {
    var bs, cs := boxes[..j + 1], cands + [c];
    forall i | 0 <= i < |bs|
      ensures IsCandidateFor(source, bs[i], kmeans, labeller, cs[i])
    {
      if i < j {
        assert bs[i] == boxes[..j][i] && cs[i] == cands[i];
      }
    }
  }
}
