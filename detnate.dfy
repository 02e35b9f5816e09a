/**
 * `detnate.check_target`: detect the glyph candidates on the large captcha image, then,
 * for each of the four reference glyphs cut from the small image, pick the candidate the
 * similarity network scores highest, never picking the same candidate centre twice.
 *
 * The Siamese network's score is an input of the model (a `Similarity`).
 */
module Detnate {
  import opened Wrappers
  import opened PySemantics
  import opened Images
  import opened Collections
  import opened YoloOnnx
  import Siamese

  /** A reference-glyph slot of the small image: columns `[x1, x2)`, rows `[y1, y2)`. */
  datatype Rect = Rect(x1: int, y1: int, x2: int, y2: int)

  /** The four fixed slots of `small_selice_four_index`, left to right. */
  function Slots(): (r: seq<Rect>)
    ensures |r| == 4
    ensures forall j :: 0 <= j < |r| ==> 0 <= r[j].x1 < r[j].x2 && 0 <= r[j].y1 < r[j].y2
    ensures forall j :: 0 <= j < |r| - 1 ==> r[j].x2 < r[j + 1].x1
  {
    [Rect(163, 9, 193, 41), Rect(198, 9, 225, 41), Rect(230, 9, 259, 41), Rect(263, 9, 294, 41)]
  }

  /** A click point of the answer: `{'x': int(x), 'y': int(y)}`. */
  datatype ClickPoint = ClickPoint(x: int, y: int)

  /** `(True, data)`, `(False, reason)`, or an exception escaping `check_target`. */
  datatype Outcome = Solved(points: seq<ClickPoint>) | Failed(reason: string) | Raised(error: string)

  const EmptySlotError := "cv2.error: empty image"
  const NoUnusedCandidate := "IndexError: list index out of range"

  /** `Siamese.detect_image(slot, candidate)`: the similarity score of two images. */
  type Similarity = (Image, Image) -> real

  function SlotCrop(isma: Image, r: Rect): (c: Image)
    requires isma.Valid()
    ensures c.Valid() && c.channels == isma.channels
  {
    Crop(isma, r.y1, r.y2, r.x1, r.x2)
  }

  /** `cv2.cvtColor` refuses an empty image. */
  predicate SlotIsEmpty(isma: Image, r: Rect)
    requires isma.Valid()
  {
    SlotCrop(isma, r).height == 0 || SlotCrop(isma, r).width == 0
  }

  /** The slot crop, BGR converted to RGB. */
  function SlotImage(isma: Image, r: Rect): (c: Image)
    requires isma.Valid() && (isma.channels == 3 || isma.channels == 4)
    ensures c.Valid() && c.channels == 3
  {
    BgrToRgb(SlotCrop(isma, r))
  }

  /** The scores of every candidate against one slot image, in candidate order. */
  function Scores(slot: Image, images: seq<Image>, similarity: Similarity): (s: seq<real>)
    ensures |s| == |images|
  {
    seq(|images|, k requires 0 <= k < |images| => similarity(slot, images[k]))
  }

  /** The picture `Image.fromarray` makes of an image array: its size and its band count. */
  function AsPic(img: Image): Siamese.Pic {
    Siamese.Pic(img.width, img.height, img.channels)
  }

  /** `detect_image` can preprocess the image: letterboxing it into the 32 x 32 input does not raise. */
  predicate Scorable(img: Image) {
    Siamese.DetectInput(AsPic(img)).Success?
  }

  /** The exception preprocessing raises on an image it cannot take. */
  function PreprocessError(img: Image): string
    requires !Scorable(img)
  {
    Siamese.DetectInput(AsPic(img)).error
  }

  /** The position of the first image preprocessing refuses, or `|images|` when there is none. */
  function FirstUnscorable(images: seq<Image>): (k: nat)
    ensures k <= |images|
    ensures forall j :: 0 <= j < k ==> Scorable(images[j])
    ensures k < |images| ==> !Scorable(images[k])
  {
    if |images| == 0 then 0
    else if !Scorable(images[0]) then 0
    else 1 + FirstUnscorable(images[1..])
  }

  /**
   * Scoring every candidate against one slot image, as `detect_image` does it pair by pair
   * (the slot image is preprocessed before the candidate): the scores, or the exception of
   * the first image preprocessing refuses.
   */
  function ScoresOrRaise(slot: Image, images: seq<Image>, similarity: Similarity): (r: Result<seq<real>, string>)
    ensures r.Success? <==> |images| == 0 || (Scorable(slot) && FirstUnscorable(images) == |images|)
    ensures r.Success? ==> r.value == Scores(slot, images, similarity)
    ensures r.Failure? && !Scorable(slot) ==> r.error == PreprocessError(slot)
    ensures r.Failure? && Scorable(slot) ==> r.error == PreprocessError(images[FirstUnscorable(images)])
  {
    if |images| == 0 then Success([])
    else if !Scorable(slot) then Failure(PreprocessError(slot))
    else
      var k := FirstUnscorable(images);
      if k < |images| then Failure(PreprocessError(images[k])) else Success(Scores(slot, images, similarity))
  }

  /** A slice of `[a, b)` with `0 <= a <= b` is at most `b - a` long. */
  lemma SliceSpanWithin(n: nat, a: int, b: int)
    requires 0 <= a <= b
    ensures SliceSpan(n, a, b).1 - SliceSpan(n, a, b).0 <= b - a
  {
  }

  /**
   * A non-empty slot image can always be scored: a slot is at most 31 columns wide and 32
   * rows high, so its sides differ by a factor of at most 32.
   */
  lemma SlotImageScorable(isma: Image, j: nat)
    requires isma.Valid() && (isma.channels == 3 || isma.channels == 4)
    requires j < |Slots()| && !SlotIsEmpty(isma, Slots()[j])
    ensures Scorable(SlotImage(isma, Slots()[j]))
  {
    var r := Slots()[j];
    SliceSpanWithin(isma.height, r.y1, r.y2);
    SliceSpanWithin(isma.width, r.x1, r.x2);
    var p := AsPic(SlotImage(isma, r));
    assert 0 < p.width <= 31 && 0 < p.height <= 32;
    Siamese.DetectInputSpec(p);
  }

  /** The position of the first highest score (a strict `>` scan from minus infinity). */
  function FirstMaxIndex(s: seq<real>): (m: nat)
    requires |s| > 0
    ensures m < |s|
    ensures forall i :: 0 <= i < |s| ==> s[i] <= s[m]
    ensures forall i :: 0 <= i < m ==> s[i] < s[m]
  {
    if |s| == 1 then 0
    else
      var m' := FirstMaxIndex(s[..|s| - 1]);
      if s[|s| - 1] > s[m'] then |s| - 1 else m'
  }

  /** The position of the first centre not yet taken, or `|cs|` when there is none. */
  function FirstUnusedIndex(cs: seq<Centre>, taken: seq<Centre>): (k: nat)
    ensures k <= |cs|
    ensures forall j :: 0 <= j < k ==> cs[j] in taken
    ensures k < |cs| ==> cs[k] !in taken
  {
    if |cs| == 0 then 0
    else if cs[0] !in taken then 0
    else 1 + FirstUnusedIndex(cs[1..], taken)
  }

  /**
   * The centre picked for one slot: the best-scoring candidate, or, when that centre was
   * already picked, the first candidate whose centre was not; `None` when every centre was.
   */
  function Choose(scores: seq<real>, centres: seq<Centre>, taken: seq<Centre>): Option<Centre>
    requires |scores| == |centres| > 0
  {
    var best := centres[FirstMaxIndex(scores)];
    if best !in taken then Some(best)
    else
      var k := FirstUnusedIndex(centres, taken);
      if k < |centres| then Some(centres[k]) else None
  }

  /** A choice is a candidate centre not yet taken, and there is one unless all are taken. */
  lemma ChooseSpec(scores: seq<real>, centres: seq<Centre>, taken: seq<Centre>)
    requires |scores| == |centres| > 0
    ensures Choose(scores, centres, taken).Some? ==>
      Choose(scores, centres, taken).value in centres && Choose(scores, centres, taken).value !in taken
    ensures Choose(scores, centres, taken).None? <==> forall i :: 0 <= i < |centres| ==> centres[i] in taken
  {
    var k := FirstUnusedIndex(centres, taken);
    if k == |centres| {
      assert forall i :: 0 <= i < |centres| ==> centres[i] in taken;
    }
  }

  /** If fewer centres are taken than there are distinct candidate centres, a choice exists. */
  lemma ChoiceExists(scores: seq<real>, centres: seq<Centre>, taken: seq<Centre>)
    requires |scores| == |centres| > 0
    requires |taken| < |Elements(centres)|
    ensures Choose(scores, centres, taken).Some?
  {
    ChooseSpec(scores, centres, taken);
    if Choose(scores, centres, taken).None? {
      assert Elements(centres) <= Elements(taken) by {
        forall c | c in Elements(centres) ensures c in Elements(taken) {
          var i :| 0 <= i < |centres| && centres[i] == c;
        }
      }
      SubsetCardinality(Elements(centres), Elements(taken));
      ElementsCardinality(taken);
    }
  }

  /** The pick for one slot, with the loops of `check_target`; `None` is the `IndexError` of `lbv[0]`. */
  method PickSlot(scores: seq<real>, centres: seq<Centre>, taken: seq<Centre>) returns (r: Option<Centre>)
    requires |scores| == |centres| > 0
    ensures r == Choose(scores, centres, taken)
  {
    var maxValue: Option<real> := None;
    var maxIndex := 0;
    var i := 0;
    while i < |scores|
      invariant 0 <= i <= |scores|
      invariant maxValue.None? <==> i == 0
      invariant i > 0 ==> maxIndex == FirstMaxIndex(scores[..i]) && maxValue.value == scores[maxIndex]
    {
      if maxValue.None? || scores[i] > maxValue.value {
        maxValue := Some(scores[i]);
        maxIndex := i;
      }
      assert scores[..i + 1][..i] == scores[..i];
      i := i + 1;
    }
    assert scores[..i] == scores;
    var maxCoords := centres[maxIndex];
    if maxCoords in taken {
      var unused: seq<Centre> := [];
      var j := 0;
      while j < |centres|
        invariant 0 <= j <= |centres|
        invariant unused == [] <==> FirstUnusedIndex(centres, taken) >= j
        invariant unused != [] ==> unused[0] == centres[FirstUnusedIndex(centres, taken)]
      {
        if centres[j] !in taken {
          unused := unused + [centres[j]];
        }
        j := j + 1;
      }
      if unused == [] {
        return None;
      }
      maxCoords := unused[0];
    }
    r := Some(maxCoords);
  }

  /**
   * The inner loop of `check_target`: one `detect_image` call per candidate, in candidate
   * order, the first preprocessing exception escaping.
   */
  method ScoreCandidates(slot: Image, images: seq<Image>, similarity: Similarity) returns (r: Result<seq<real>, string>)
    ensures r == ScoresOrRaise(slot, images, similarity)
  {
    var scores := [];
    var k := 0;
    while k < |images|
      invariant 0 <= k <= |images|
      invariant scores == Scores(slot, images[..k], similarity)
      invariant k > 0 ==> Scorable(slot)
      invariant forall i :: 0 <= i < k ==> Scorable(images[i])
    {
      if !Scorable(slot) {
        return Failure(PreprocessError(slot));
      }
      if !Scorable(images[k]) {
        return Failure(PreprocessError(images[k]));
      }
      scores := scores + [similarity(slot, images[k])];
      k := k + 1;
    }
    assert images[..k] == images;
    r := Success(scores);
  }

  /** The scores of every candidate against each slot image: one row per slot. */
  function SlotScores(isma: Image, images: seq<Image>, similarity: Similarity): (r: seq<seq<real>>)
    requires isma.Valid() && (isma.channels == 3 || isma.channels == 4)
    ensures |r| == |Slots()|
    ensures forall j :: 0 <= j < |r| ==> |r[j]| == |images|
  {
    seq(|Slots()|, j requires 0 <= j < |Slots()| => Scores(SlotImage(isma, Slots()[j]), images, similarity))
  }

  /** One row of `n > 0` scores per slot. */
  predicate IsScoreTable(scoresOf: seq<seq<real>>, n: nat) {
    n > 0 && forall j :: 0 <= j < |scoresOf| ==> |scoresOf[j]| == n
  }

  /** Each pick is the choice for its slot, given the picks before it. */
  ghost predicate PicksFollow(scoresOf: seq<seq<real>>, centres: seq<Centre>, picks: seq<Centre>)
    requires |picks| <= |scoresOf|
    requires IsScoreTable(scoresOf, |centres|)
    decreases |picks|
  {
    if |picks| == 0 then true
    else
      var n := |picks| - 1;
      assert |scoresOf[n]| == |centres|;
      && PicksFollow(scoresOf, centres, picks[..n])
      && Some(picks[n]) == Choose(scoresOf[n], centres, picks[..n])
  }

  /** A pick that is the choice for the next slot extends the picks. */
  lemma PicksFollowSnoc(scoresOf: seq<seq<real>>, centres: seq<Centre>, picks: seq<Centre>, c: Centre)
    requires |picks| < |scoresOf|
    requires IsScoreTable(scoresOf, |centres|)
    requires PicksFollow(scoresOf, centres, picks)
    requires Some(c) == Choose(scoresOf[|picks|], centres, picks)
    ensures PicksFollow(scoresOf, centres, picks + [c])
  {
    var extended := picks + [c];
    assert extended[..|picks|] == picks;
    assert extended[|picks|] == c;
    assert |extended| - 1 == |picks|;
  }

  /** Picks made this way are distinct candidate centres, each the choice for its slot. */
  lemma {:induction false} PicksFollowSpec(scoresOf: seq<seq<real>>, centres: seq<Centre>, picks: seq<Centre>)
    requires |picks| <= |scoresOf|
    requires IsScoreTable(scoresOf, |centres|)
    requires PicksFollow(scoresOf, centres, picks)
    ensures Distinct(picks)
    ensures forall j :: 0 <= j < |picks| ==> picks[j] in centres
    ensures forall j :: 0 <= j < |picks| ==> Some(picks[j]) == Choose(scoresOf[j], centres, picks[..j])
  {
    if |picks| > 0 {
      var n := |picks| - 1;
      var prefix := picks[..n];
      PicksFollowSpec(scoresOf, centres, prefix);
      ChooseSpec(scoresOf[n], centres, prefix);
      forall j | 0 <= j < n ensures picks[..j] == prefix[..j] {
      }
    }
  }

  /** Distinct picks among the centres are at most as many as the distinct centres. */
  lemma PicksWithinCentres(picks: seq<Centre>, centres: seq<Centre>)
    requires Distinct(picks)
    requires forall j :: 0 <= j < |picks| ==> picks[j] in centres
    ensures |picks| <= |Elements(centres)|
  {
    assert Elements(picks) <= Elements(centres);
    SubsetCardinality(Elements(picks), Elements(centres));
    ElementsCardinality(picks);
  }

  /** No slot crop of the small image is empty. */
  predicate NoEmptySlot(isma: Image)
    requires isma.Valid()
  {
    forall j :: 0 <= j < |Slots()| ==> !SlotIsEmpty(isma, Slots()[j])
  }

  /**
   * `picks` answer the slots: one pick per slot, pairwise distinct candidate centres, each
   * the choice for its slot given the picks before it.
   */
  ghost predicate SlotsResolved(isma: Image, centres: seq<Centre>, images: seq<Image>, similarity: Similarity, picks: seq<Centre>)
    requires isma.Valid() && (isma.channels == 3 || isma.channels == 4)
    requires |centres| == |images| > 0
  {
    && |picks| == |Slots()|
    && Distinct(picks)
    && (forall j :: 0 <= j < |picks| ==> picks[j] in centres)
    && (forall j :: 0 <= j < |picks| ==>
          Some(picks[j]) == Choose(SlotScores(isma, images, similarity)[j], centres, picks[..j]))
  }

  /** Pick `j` is the choice for slot `j`, given the picks before it. */
  ghost predicate ChosenAt(scoresOf: seq<seq<real>>, centres: seq<Centre>, picks: seq<Centre>, j: nat)
    requires IsScoreTable(scoresOf, |centres|)
    requires j < |scoresOf| && j < |picks|
  {
    Some(picks[j]) == Choose(scoresOf[j], centres, picks[..j])
  }

  /** Two pick sequences that each follow the same score table agree on their first `n` picks. */
  lemma {:induction false} PicksAgree(scoresOf: seq<seq<real>>, centres: seq<Centre>,
                                      picks1: seq<Centre>, picks2: seq<Centre>, n: nat)
    requires IsScoreTable(scoresOf, |centres|)
    requires n <= |scoresOf| && n <= |picks1| && n <= |picks2|
    requires forall j: nat :: j < n ==> ChosenAt(scoresOf, centres, picks1, j)
    requires forall j: nat :: j < n ==> ChosenAt(scoresOf, centres, picks2, j)
    ensures picks1[..n] == picks2[..n]
  {
    if n > 0 {
      PicksAgree(scoresOf, centres, picks1, picks2, n - 1);
      assert ChosenAt(scoresOf, centres, picks1, n - 1) && ChosenAt(scoresOf, centres, picks2, n - 1);
      assert picks1[..n] == picks1[..n - 1] + [picks1[n - 1]];
      assert picks2[..n] == picks2[..n - 1] + [picks2[n - 1]];
    }
  }

  /** The answer is determined by the images, the candidates and the similarity: the picks are unique. */
  lemma SlotsResolvedDetermined(isma: Image, centres: seq<Centre>, images: seq<Image>, similarity: Similarity,
                                picks1: seq<Centre>, picks2: seq<Centre>)
    requires isma.Valid() && (isma.channels == 3 || isma.channels == 4)
    requires |centres| == |images| > 0
    requires SlotsResolved(isma, centres, images, similarity, picks1)
    requires SlotsResolved(isma, centres, images, similarity, picks2)
    ensures picks1 == picks2
  {
    var table := SlotScores(isma, images, similarity);
    assert IsScoreTable(table, |centres|);
    assert forall j: nat :: j < |Slots()| ==> ChosenAt(table, centres, picks1, j) && ChosenAt(table, centres, picks2, j);
    PicksAgree(table, centres, picks1, picks2, |Slots()|);
    assert picks1[..|Slots()|] == picks1 && picks2[..|Slots()|] == picks2;
  }

  /**
   * The exceptions the slot loop can raise: the `cv2.error` of an empty slot, the
   * `IndexError` of too few distinct centres, or the preprocessing exception of the first
   * candidate image that cannot be preprocessed.
   */
  ghost predicate SlotsRaise(isma: Image, centres: seq<Centre>, images: seq<Image>, error: string)
    requires isma.Valid()
  {
    || (error == EmptySlotError && !NoEmptySlot(isma))
    || (error == NoUnusedCandidate && |Elements(centres)| < |Slots()|)
    || (FirstUnscorable(images) < |images| && error == PreprocessError(images[FirstUnscorable(images)]))
  }

  /**
   * The slot loop of `check_target`. It succeeds exactly when no slot is empty, every
   * candidate image can be preprocessed and there are at least as many distinct candidate
   * centres as slots, and then resolves the slots; otherwise it raises one of its exceptions.
   */
  method ResolveSlots(isma: Image, centres: seq<Centre>, images: seq<Image>, similarity: Similarity)
    returns (r: Result<seq<Centre>, string>)
    requires isma.Valid() && (isma.channels == 3 || isma.channels == 4)
    requires |centres| == |images| > 0
    ensures r.Success? <==> NoEmptySlot(isma) && FirstUnscorable(images) == |images| && |Elements(centres)| >= |Slots()|
    ensures r.Success? ==> SlotsResolved(isma, centres, images, similarity, r.value)
    ensures r.Failure? ==> SlotsRaise(isma, centres, images, r.error)
  {
    var slots := Slots();
    ghost var scoresOf := SlotScores(isma, images, similarity);
    var picks: seq<Centre> := [];
    var s := 0;
    while s < |slots|
      invariant 0 <= s <= |slots|
      invariant |picks| == s
      invariant PicksFollow(scoresOf, centres, picks)
      invariant forall j :: 0 <= j < s ==> !SlotIsEmpty(isma, slots[j])
      invariant s > 0 ==> FirstUnscorable(images) == |images|
    {
      if SlotIsEmpty(isma, slots[s]) {
        return Failure(EmptySlotError);
      }
      SlotImageScorable(isma, s);
      var scored := ScoreCandidates(SlotImage(isma, slots[s]), images, similarity);
      if scored.Failure? {
        return Failure(scored.error);
      }
      var scores := scored.value;
      var pick := PickSlot(scores, centres, picks);
      if pick.None? {
        if |Elements(centres)| >= |slots| {
          ChoiceExists(scores, centres, picks);
        }
        return Failure(NoUnusedCandidate);
      }
      PicksFollowSnoc(scoresOf, centres, picks, pick.value);
      picks := picks + [pick.value];
      s := s + 1;
    }
    PicksFollowSpec(scoresOf, centres, picks);
    PicksWithinCentres(picks, centres);
    r := Success(picks);
  }

  /** The centres of the candidates `predict` returns, in NMS order. */
  function CandidateCentres(rows: seq<Row>, imgW: nat, imgH: nat, nms: Nms): (r: seq<Centre>)
    requires WellFormedRows(rows) && NmsContract(nms)
    ensures |r| == |NmsBoxes(rows, imgW, imgH, nms)|
  {
    var bs := NmsBoxes(rows, imgW, imgH, nms);
    seq(|bs|, j requires 0 <= j < |bs| => BoxCentre(bs[j]))
  }

  /** The centres of the candidates, in order. */
  function CentresOf(cands: seq<Candidate>): (r: seq<Centre>)
    ensures |r| == |cands|
    ensures forall k :: 0 <= k < |cands| ==> r[k] == cands[k].centre
  {
    seq(|cands|, k requires 0 <= k < |cands| => cands[k].centre)
  }

  /** The centres of the candidates made for the boxes NMS keeps are the centres of those boxes. */
  lemma CandidateCentresOf(rows: seq<Row>, source: Image, nms: Nms, kmeans: KMeans, labeller: ComponentLabeller,
                           cands: seq<Candidate>)
    requires source.Valid() && (source.channels == 3 || source.channels == 4)
    requires WellFormedRows(rows) && NmsContract(nms)
    requires AreCandidatesFor(source, NmsBoxes(rows, source.width, source.height, nms), kmeans, labeller, cands)
    ensures CentresOf(cands) == CandidateCentres(rows, source.width, source.height, nms)
  {
  }

  /** The images of the candidates, in order. */
  function CandidateImages(cands: seq<Candidate>): (r: seq<Image>)
    ensures |r| == |cands|
    ensures forall k :: 0 <= k < |cands| ==> r[k] == cands[k].image
  {
    seq(|cands|, k requires 0 <= k < |cands| => cands[k].image)
  }

  /** A candidate image can be preprocessed exactly when its box's crop can: they have the same size and depth. */
  lemma CandidateScorable(source: Image, b: Box, kmeans: KMeans, labeller: ComponentLabeller, c: Candidate)
    requires source.Valid() && (source.channels == 3 || source.channels == 4)
    requires IsCandidateFor(source, b, kmeans, labeller, c)
    ensures Scorable(c.image) <==> Scorable(BoxCrop(source, b))
  {
    CandidateShape(source, b, kmeans, labeller, c);
    assert AsPic(c.image) == AsPic(BoxCrop(source, b));
  }

  /** The candidate images can all be preprocessed exactly when the crops of their boxes can. */
  lemma CandidatesScorable(source: Image, bs: seq<Box>, kmeans: KMeans, labeller: ComponentLabeller, cands: seq<Candidate>)
    requires source.Valid() && (source.channels == 3 || source.channels == 4)
    requires AreCandidatesFor(source, bs, kmeans, labeller, cands)
    ensures FirstUnscorable(CandidateImages(cands)) == |cands| <==> CropsScorable(source, bs)
  {
    var images := CandidateImages(cands);
    forall k | 0 <= k < |bs|
      ensures Scorable(images[k]) <==> Scorable(BoxCrop(source, bs[k]))
    {
      CandidateScorable(source, bs[k], kmeans, labeller, cands[k]);
    }
  }

  function ToClickPoint(c: Centre): ClickPoint {
    ClickPoint(Trunc(c.x), Trunc(c.y))
  }

  /** Every box's crop of the large image can be preprocessed by the similarity network. */
  predicate CropsScorable(source: Image, bs: seq<Box>)
    requires source.Valid()
  {
    forall k :: 0 <= k < |bs| ==> Scorable(BoxCrop(source, bs[k]))
  }

  /**
   * `check_target`: a detection failure is passed on with its reason. Otherwise the candidates
   * are those `predict` makes for the boxes NMS keeps, and it solves exactly when no slot is
   * empty, every box's crop can be preprocessed by the similarity network and there are at
   * least four distinct candidate centres. A solution is the click points of the picks that
   * resolve the slots; any other outcome is an exception of the slot loop.
   */
  method CheckTarget(ibig: Image, isma: Image, rows: seq<Row>, nms: Nms, kmeans: KMeans,
                     labeller: ComponentLabeller, similarity: Similarity)
    returns (o: Outcome, ghost cands: seq<Candidate>, ghost picks: seq<Centre>)
    requires ibig.Valid() && (ibig.channels == 3 || ibig.channels == 4)
    requires isma.Valid() && (isma.channels == 3 || isma.channels == 4)
    requires WellFormedRows(rows)
    requires NmsContract(nms) && KMeansContract(kmeans) && LabellerContract(labeller)
    ensures o.Failed? <==> DetectionFailure(rows, ibig.width, ibig.height, nms).Some?
    ensures o.Failed? ==> o.reason == DetectionFailure(rows, ibig.width, ibig.height, nms).value
    ensures !o.Failed? ==>
      var bs := NmsBoxes(rows, ibig.width, ibig.height, nms);
      |bs| >= MinCandidates && AreCandidatesFor(ibig, bs, kmeans, labeller, cands)
    ensures o.Solved? <==>
      && DetectionFailure(rows, ibig.width, ibig.height, nms).None?
      && NoEmptySlot(isma)
      && CropsScorable(ibig, NmsBoxes(rows, ibig.width, ibig.height, nms))
      && |Elements(CandidateCentres(rows, ibig.width, ibig.height, nms))| >= |Slots()|
    ensures o.Solved? ==>
      && SlotsResolved(isma, CandidateCentres(rows, ibig.width, ibig.height, nms), CandidateImages(cands), similarity, picks)
      && |o.points| == |picks|
      && (forall j :: 0 <= j < |picks| ==> o.points[j] == ToClickPoint(picks[j]))
    ensures o.Raised? ==>
      SlotsRaise(isma, CandidateCentres(rows, ibig.width, ibig.height, nms), CandidateImages(cands), o.error)
  {
    cands, picks := [], [];
    var detection := Predict(ibig, rows, false, nms, kmeans, labeller);
    if detection.Miss? {
      o := Failed(detection.reason);
    } else {
      cands := detection.candidates;
      CandidateCentresOf(rows, ibig, nms, kmeans, labeller, cands);
      CandidatesScorable(ibig, NmsBoxes(rows, ibig.width, ibig.height, nms), kmeans, labeller, cands);
      o, picks := SolveSlots(isma, similarity, detection.candidates);
    }
  }

  /**
   * The part of `check_target` after a successful detection (lines 300-375): the slots are
   * resolved against the candidates, and the picks become click points.
   */
  method SolveSlots(isma: Image, similarity: Similarity, cands: seq<Candidate>)
    returns (o: Outcome, ghost picks: seq<Centre>)
    requires isma.Valid() && (isma.channels == 3 || isma.channels == 4)
    requires |cands| >= MinCandidates
    ensures !o.Failed?
    ensures o.Solved? <==>
      NoEmptySlot(isma) && FirstUnscorable(CandidateImages(cands)) == |cands| && |Elements(CentresOf(cands))| >= |Slots()|
    ensures o.Solved? ==>
      && SlotsResolved(isma, CentresOf(cands), CandidateImages(cands), similarity, picks)
      && |o.points| == |picks|
      && (forall j :: 0 <= j < |picks| ==> o.points[j] == ToClickPoint(picks[j]))
    ensures o.Raised? ==> SlotsRaise(isma, CentresOf(cands), CandidateImages(cands), o.error)
  {
    var resolved := ResolveSlots(isma, CentresOf(cands), CandidateImages(cands), similarity);
    if resolved.Failure? {
      o, picks := Raised(resolved.error), [];
    } else {
      var chosen := resolved.value;
      picks := chosen;
      var points := seq(|chosen|, j requires 0 <= j < |chosen| => ToClickPoint(chosen[j]));
      o := Solved(points);
    }
  }
}
