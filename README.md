# ICP_Query in Dafny

A model of the parts of ICP_Query that make decisions. ICP_Query queries China's ICP
registration portal. The portal guards its query endpoints behind a point-selection CAPTCHA,
so the program must solve it first.

- **The CAPTCHA solver** (`detnate.py`, `siamese.py`):
  - `YOLO_ONNX.predict` post-processes the detector's output rows. It filters them, falls
    back through three failure reasons, and builds one candidate glyph per box that
    non-maximum suppression keeps.
  - `YOLO_ONNX.extract_center_dominant_color_kmeans` isolates each candidate glyph. It takes
    the dominant colour of the centre third, masks the pixels near that colour, filters the
    connected components, and paints the glyph white on an accent background.
  - `detnate.check_target` assigns to each of the four fixed reference slots the best-scoring
    candidate centre, falling back to the first unused one.
  - `siamese.py` does the size arithmetic of crop, resize, centre crop and letterbox.
- **The query routes** (`routes/query_routes.py`, `routes/batch_routes.py`):
  - the screening order of a single query, the proxy-source priority and the bounded retry
    loops;
  - the batch task: per-name retries, pagination with a per-page retry counter, accumulation
    of results, placeholders for empty results, progress, creation, deletion and the final
    database update.
- **Bookkeeping**:
  - the local IPv6 address pool (`ipv6_pool.py`) and its address parsing and generation
    (`utils.py`);
  - the bounded in-memory log buffer (`log_collector.py`);
  - the statement builder and row mapping of `database.py`;
  - registry of running tasks and semaphores and its SIGINT cleanup (`task_manager.py`).

**Modules.**
- One module per source file: `Detnate` (`check_target`), `YoloOnnx` (the `YOLO_ONNX` class of
  `detnate.py`), `Siamese`, `BatchRoutes`, `QueryRoutes`, `Ipv6Pool`, `NetUtils` (`utils.py`),
  `LogCollector`, `Database` and `TaskManager`.
- `RouteCommon` holds what the two route files share.
- `Images`, `JsonValues`, `PySemantics`, `Collections` and `Wrappers` model numpy images,
  decoded JSON, the Python built-ins the code relies on, and `Option`/`Result`.

**Code shapes.**
- Code that mutates state is modelled with classes and methods: `BatchTask`, `TaskTable`,
  `Ipv6AddressPool`, `Collector`, `Registry`.
- Loops are `while` loops with invariants.
- Each method is proved against a specification function or predicate.

**Inputs.** Everything outside the program's own logic is an input of the model. This covers
the ONNX network, `cv2.kmeans`, `cv2.connectedComponentsWithStats`, `cv2.dnn.NMSBoxes`, the
similarity network, the portal client, the proxy pool, the URL check, shell command output,
GUIDs, the clock and random choices. Each is given with part of the contract its library documents.

**Behaviour of the code that the model keeps.**
- The isolator is called with `k=8` and a tolerance of 40 (`detnate.py:221-225`).
- The "two or more non-background colours" branch (`detnate.py:113-135`) repaints the same
  two colours it has just painted, and its guard can never hold.
  `YoloOnnx.RecolourBranchIsDead` proves the guard false.
- The failure reasons are the code's own Chinese strings (`detnate.py:201-202`).
- Duplicate candidate centres can leave the resolver's fallback list empty. `lbv[0]`
  (`detnate.py:323-328`) then raises. The model returns `Raised(NoUnusedCandidate)` for this.
- An exception after detection escapes `check_target` (`detnate.py:294-330`). It is not
  turned into a failure result.

## Model

| member | source | states |
|---|---|---|
| YoloOnnx.CentreSpan | detnate.py:50-63 | The centre-third bounds `n//2 ∓ (n//3)//2` lie within `[0, n]` and span an even width. The span is empty exactly when `n < 6`. |
| YoloOnnx.ClusterCount | detnate.py:69-70 | The cluster count is lowered to the pixel count, never below 1. It equals `k` when there are at least `k` pixels. |
| YoloOnnx.DominantCluster | detnate.py:79-80 | The chosen label occurs among the labels. No label is more frequent, and every lower label is strictly less frequent, so ties go to the lowest label. |
| YoloOnnx.CentrePixelsCount | detnate.py:61-66 | An image of at least 6x6 has a non-empty centre region. |
| YoloOnnx.DominantColour | detnate.py:66-81 | Returns a three-component colour: the centre of the most populated cluster of the centre pixels. |
| YoloOnnx.ColourMask | detnate.py:83-85 | A pixel is in the raw mask iff its squared RGB distance to the dominant colour is at most tolerance². |
| YoloOnnx.Erode | detnate.py:88-90 | Erosion keeps the grid's size. |
| YoloOnnx.Dilate | detnate.py:88-90 | Dilation keeps the grid's size. |
| YoloOnnx.OpenThenClose | detnate.py:88-90 | Opening then closing keeps the grid's size. |
| YoloOnnx.UnitKernelIsIdentity | detnate.py:88-90 | With the 1x1 kernel, erosion, dilation and open-then-close leave every mask unchanged. |
| YoloOnnx.LargeComponents | detnate.py:92-98 | The final mask is a grid of the image's size. |
| YoloOnnx.LabellingIsGrid | detnate.py:92 | A labelling that meets the labeller's contract covers the mask's grid. |
| YoloOnnx.LargeComponentsInMask | detnate.py:92-98 | Every pixel of the final mask is in the mask that was labelled. |
| YoloOnnx.KeepLargeComponents | detnate.py:94-98 | The loop over labels `1..num_labels-1` yields exactly the pixels of components with area ≥ 20. |
| YoloOnnx.Paint | detnate.py:110-111 | Each pixel is the foreground colour where the mask is set and the background colour elsewhere. |
| YoloOnnx.RecolourBranchIsDead | detnate.py:113-135 | A painted image has at most one colour other than the background, so the "two or more colours" rewrite never runs. |
| YoloOnnx.PaintGlyph | detnate.py:83-111 | The result is white on the large components of the colour mask and accent elsewhere. The mask lies inside the colour mask. |
| YoloOnnx.IsolationIsBiTone | detnate.py:101-138 | An isolated image has three channels, the input's size, and only the two colours. |
| YoloOnnx.IsolateGlyph | detnate.py:25-143 | An array input has its alpha cut first. The isolator fails with "中心区域为空" exactly when the image is smaller than 6 on either side. Otherwise it returns the dominant colour, the mask and the two-colour image. |
| YoloOnnx.IsolationUnique | detnate.py:66-81 | An image has at most one isolation for given `k`, tolerance and oracles: the dominant cluster is the first most populated one, so two isolations agree. |
| YoloOnnx.MaxScore | detnate.py:177 | The maximum is one of the scores and no score exceeds it. |
| YoloOnnx.KeptIndices | detnate.py:175-186 | The kept indices are row indices. |
| YoloOnnx.KeptIndicesSpec | detnate.py:175-186 | A row is kept iff its maximum class score is ≥ 0.5 and its width and height are positive. Kept rows appear once each, in increasing order. |
| YoloOnnx.KeptBoxes | detnate.py:179-185 | One box per kept row. |
| YoloOnnx.KeptScores | detnate.py:186 | One score per kept row. |
| YoloOnnx.FilterRows | detnate.py:170-186 | The row loop's `boxes` and `scores` are the kept rows' boxes and scores, index-aligned. |
| YoloOnnx.BoxCrop | detnate.py:218 | The box crop is a valid image with the source's channel count. |
| YoloOnnx.AddAlphaKeepsBiTone | detnate.py:228-231 | Converting a two-tone BGR result to BGRA keeps it two-tone, in the four-channel colours. |
| YoloOnnx.MakeCandidate | detnate.py:210-250 | The candidate is the box's candidate: centre `(left + width/2 + 2, top + height/2)`. Its image is the raw crop when isolation raises (a side below 6), and otherwise exactly the isolation of the crop with `k=8` and tolerance 40, given an opaque alpha channel when the source has four channels. |
| YoloOnnx.CandidateDetermined | detnate.py:210-250 | A box has exactly one candidate for given oracles. |
| YoloOnnx.CandidateShape | detnate.py:210-250 | A candidate's image has the crop's size and the source's channel count, and is two-tone whenever the crop is at least 6x6. |
| YoloOnnx.CandidatesDetermined | detnate.py:199-250 | The candidate list of a box list is unique: one per box, in box order. |
| YoloOnnx.MakeCandidates | detnate.py:210-249 | The loop over the NMS boxes yields, in box order, each box's candidate. |
| YoloOnnx.Predict | detnate.py:166-261 | Fails iff no row is kept, NMS keeps nothing, or fewer than 4 boxes remain, with the matching reason. With `boxes_only` it returns exactly the NMS boxes. Otherwise it returns, in NMS order, the candidate of each of at least 4 NMS boxes, its image tied to the isolation of the box's crop. |
| Images.Crop | detnate.py:218 | `img[top:bottom, left:right]` with numpy slice normalisation: the crop's pixels are the source's pixels at the normalised offsets. |
| Images.DropAlpha | detnate.py:43-46 | A four-channel image loses its fourth channel. Any other image is unchanged. |
| Images.AddAlpha | detnate.py:229-231 | Appends an opaque alpha of 255 to every pixel. |
| Images.BgrToRgb | detnate.py:305 | Three channels with blue and red exchanged. Any alpha is dropped. |
| Detnate.Slots | detnate.py:277-291 | Four non-empty slot rectangles that run left to right without overlapping. |
| Detnate.SlotCrop | detnate.py:304 | A slot crop keeps the small image's channel count. |
| Detnate.SlotImage | detnate.py:304-306 | A slot image is a valid three-channel image. |
| Detnate.Scores | detnate.py:307-311 | One score per candidate. |
| Detnate.FirstUnscorable | detnate.py:307-311 | The position of the first candidate image `detect_image` cannot preprocess: every earlier image can be, the one there cannot. |
| Detnate.ScoresOrRaise | detnate.py:307-311 | Scoring one slot succeeds iff there are no candidates, or the slot image and every candidate image can be preprocessed, and then gives one score per candidate. Otherwise it raises the preprocessing exception of the slot image or of the first unscorable candidate. |
| Detnate.SlotImageScorable | detnate.py:302-306 | A non-empty slot image can always be preprocessed: its sides differ by a factor of at most 32. |
| Detnate.FirstMaxIndex | detnate.py:313-321 | The strict `>` scan from minus infinity selects a maximal score, and no earlier score equals it. |
| Detnate.FirstUnusedIndex | detnate.py:323-328 | Every centre before the returned index is taken; the centre at the index, if any, is not. |
| Detnate.ChooseSpec | detnate.py:313-330 | A slot's choice is a candidate centre not yet taken. There is no choice iff every centre is taken. |
| Detnate.ChoiceExists | detnate.py:323-328 | With fewer picks than distinct centres, the fallback list is not empty. |
| Detnate.PickSlot | detnate.py:313-330 | The loops for one slot compute `Choose`: the first maximum, or else the first unused centre. |
| Detnate.ScoreCandidates | detnate.py:307-311 | The inner loop computes `ScoresOrRaise`: the scores in candidate order, or the exception of the first image preprocessing refuses. |
| Detnate.SlotScores | detnate.py:302-311 | One row of scores per slot, one score per candidate. |
| Detnate.PicksFollowSnoc | detnate.py:323-330 | Appending the next slot's choice keeps the picks following the resolver's rule. |
| Detnate.PicksFollowSpec | detnate.py:302-330 | Picks made by the rule are pairwise distinct candidate centres. |
| Detnate.PicksWithinCentres | detnate.py:323-328 | Pairwise distinct picks drawn from the centres are no more than the distinct centres. |
| Detnate.PicksAgree | detnate.py:313-330 | Two pick lists that each make every slot's choice from the same scores agree slot by slot. |
| Detnate.SlotsResolvedDetermined | detnate.py:301-330 | The resolved picks are unique: two resolutions of the same slots and candidates are equal. |
| Detnate.ResolveSlots | detnate.py:301-330 | Succeeds iff no slot is empty, every candidate image can be preprocessed, and there are ≥ 4 distinct centres. Then each slot's pick is its choice given the earlier picks: the first maximum score, else the first unused centre. Otherwise it raises an empty-slot `cv2.error`, the preprocessing exception of the first unscorable candidate, or `IndexError` when the distinct centres run out. |
| Detnate.CandidateCentres | detnate.py:199-215 | One centre per NMS box. |
| Detnate.CandidateCentresOf | detnate.py:199-215 | The candidates' centres are the NMS boxes' centres, in order. |
| Detnate.CandidateScorable | detnate.py:210-250 | A candidate's image can be preprocessed iff its box's crop can. |
| Detnate.CandidatesScorable | detnate.py:210-250 | Every candidate image can be preprocessed iff every box crop can. |
| Detnate.CheckTarget | detnate.py:294-375 | A detector failure is passed on with its reason. Otherwise the candidates are those of the NMS boxes. It solves iff no slot is empty, every box crop can be preprocessed, and there are ≥ 4 distinct candidate centres. A solution is the truncated click points of the unique resolved picks. Any other outcome is an exception of the slot loop. |
| Detnate.SolveSlots | detnate.py:300-375 | After detection: solves iff no slot is empty, every candidate image can be preprocessed, and there are ≥ 4 distinct centres, with the points of the resolved picks. Otherwise it raises the slot loop's exception. It never reports a detection failure. |
| Siamese.Shape | siamese.py:30 | The array shape is three-dimensional iff the image has more than one band. |
| Siamese.CvtColor | siamese.py:29-34 | The result has three bands. It is the input itself iff the input's shape is three-dimensional with three channels. |
| Siamese.Crop | siamese.py:10-23 | `crop(img, i, j, h, w)` is `w` wide and `h` high, and is refused for negative sizes. |
| Siamese.PilResize | siamese.py:59-65 | A resize to the same size, or to a positive size, gives exactly that size. |
| Siamese.Resize | siamese.py:36-65 | With a sequence `(h, w)` the result is `w` wide and `h` high. |
| Siamese.ResizeEdge | siamese.py:52-63 | With an int size, the image is returned as is when its shorter edge already has that length. Otherwise it succeeds iff the size is positive and the image non-empty. The shorter edge becomes the size and the longer edge exactly `int(size * long / short)`, at least the size, so the orientation is kept. |
| Siamese.ResizeTall | siamese.py:56-59 | A taller-than-wide image gets width `size` and height `int(size * h / w)` ≥ `size`, and is refused for a non-positive size. |
| Siamese.ResizeWide | siamese.py:60-63 | An image at least as wide as high gets height `size` and width `int(size * w / h)` ≥ `size`, and is refused for a non-positive size. |
| Siamese.LongerEdge | siamese.py:58-62 | `int(size * long / short)` is at least `size`. |
| Siamese.RoundHalfEven | siamese.py:72-73 | Python's `round` is within 0.5 of its argument, and goes to the even neighbour on a tie. |
| Siamese.CentreOffset | siamese.py:72-73 | The margins the centre-crop offset leaves before and after the crop differ by at most one. |
| Siamese.CenterCrop | siamese.py:67-74 | The centre crop is exactly `th x tw` when both are non-negative. |
| Siamese.FitIntoSpec | siamese.py:82-88 | With `scale = min(w/iw, h/ih)`, the scaled size fits inside the canvas and touches it on at least one axis. The paste offsets keep it inside. |
| Siamese.FitIntoPositive | siamese.py:82-84 | Neither scaled side is zero when the aspect ratio is within the canvas's factors. |
| Siamese.ScaledPositive | siamese.py:82-84 | The same bound, stated for the scale itself. |
| Siamese.PasteOffset | siamese.py:88 | The paste offset `(target - n)//2` keeps a side of length `n` inside the canvas. |
| Siamese.ScaledSide | siamese.py:82-84 | A side scaled by at most `target/side` stays in `[0, target]`, and equals `target` at that ratio. |
| Siamese.OtherSideAtLeastOne | siamese.py:82-84 | The other side scaled by `target/side` is at least 1 pixel. |
| Siamese.LetterboxSize | siamese.py:77-96 | Both branches give exactly the requested size. The padding branch gives an RGB image. |
| Siamese.LetterboxPadSucceeds | siamese.py:80-88 | The padding branch succeeds on every image whose aspect ratio fits the canvas. |
| Siamese.ModelLetterboxStaysRgb | siamese.py:125-138 | `Siamese.letterbox_image` converts to RGB and pads. Since the input shape ends in 32, it never converts to grayscale. |
| Siamese.DetectInputSpec | siamese.py:140-145 | Every image that survives preprocessing is 32x32 RGB, because the flag is a bound method and so the padding branch is taken. Every image whose sides differ by a factor of at most 32 survives. |
| RouteCommon.Turns | routes/query_routes.py:56 | `range(n)` has `n` turns for positive `n` and none otherwise. |
| RouteCommon.Message | routes/query_routes.py:30 | `{"code": c, key: text}` has exactly those two keys. |
| JsonValues.DictGet | routes/query_routes.py:43-46 | `d.get(k, default)` raises on a non-dict. Otherwise it gives the entry or the default. |
| JsonValues.Subscript | routes/batch_routes.py:94 | `d[k]` succeeds iff `d` is a dict holding `k`. |
| JsonValues.Len | routes/batch_routes.py:266 | `len` is defined exactly on lists, strings and dicts. |
| JsonValues.TruthyIsNonEmpty | routes/batch_routes.py:216 | A sized value is truthy iff its length is positive. |
| QueryRoutes.QueryValue | routes/query_routes.py:36-39 | `request.query.get(key)` gives the text or `None`. |
| QueryRoutes.RequestFields | routes/query_routes.py:35-46 | GET reads the query string. POST reads the body, which must be a dict. Any other method leaves the parameters unbound. |
| QueryRoutes.Screen | routes/query_routes.py:29-52 | An unknown or disallowed kind gives 102. A request that passes has bound parameters, a truthy search and no prohibited suffix. |
| QueryRoutes.SuffixCheckBeforeEmptyCheck | routes/query_routes.py:48-52 | The suffix check comes first: an empty search with "" prohibited gives 405, not 101. A missing search raises in `endswith`. |
| QueryRoutes.EmptySearchWithoutSuffixes | routes/query_routes.py:48-52 | With no prohibited suffix, a missing or empty search gives 101. |
| QueryRoutes.QueryProxy | routes/query_routes.py:66-92 | The proxy sources in priority order: IPv6 pool (""), tunnel, extraction API (pool or fresh pick), direct. An invalid tunnel or API URL is refused with its 500 message. |
| QueryRoutes.HistoryCount | routes/query_routes.py:102 | The history count is the length of `params.list` for a paged kind, and of `params` for a blacklist kind. A missing `params` counts 0. |
| QueryRoutes.ExplicitProxyLoop | routes/query_routes.py:54-63 | At most `retry_times` calls, all with `http://{proxy}`. Every call before the last continues. The first success or block message is returned, else the last reply. A blacklist kind crashes before any call, because the paged table has no entry for it. |
| QueryRoutes.ProxyLoop | routes/query_routes.py:65-108 | At most `retry_times` calls, each with that turn's proxy. A refused choice ends the request. A success or block message is answered. Only a success with a database is recorded. |
| QueryRoutes.Answer | routes/query_routes.py:98-107 | A success is returned and, with a database, recorded with its count and `params`. The block message is returned as is. A non-dict reply raises. |
| QueryRoutes.GetUrl | routes/query_routes.py:21-108 | A screened-out request makes no call. A request that passes screening gets exactly the reply, calls and history of the loop that runs, started from the POST body or from unbound `data` (`ExplicitLoopRan` with the client's proxy, `ProxyLoopRan` otherwise). History is written only for a success with a database, and never when the client named a proxy. |
| QueryRoutes.InitialData | routes/query_routes.py:35-42 | `data` before the loop is the POST body, and is unbound after a GET. |
| BatchRoutes.FetchPages | routes/batch_routes.py:84-118 | The page loop's calls and replies form a trace: the page number is one more than the successes so far. `all_results` gains each successful page's list. Every reply before the last keeps paging. The loop ends on cancellation, an empty page, a short page, reaching `total`, or `retry_times` consecutive failures. |
| BatchRoutes.TraceSnoc | routes/batch_routes.py:94-117 | One reply extends `all_results` by its list when it is a page. It counts one success, or one more consecutive failure, with the counter reset on success. |
| BatchRoutes.PagesEndSpec | routes/batch_routes.py:84-125 | When the page loop ends without cancellation, every reply but the last kept paging and the last did not. The loop hands on its last reply iff reading that reply did not raise. |
| BatchRoutes.BatchProxy | routes/batch_routes.py:58-73 | The batch proxy choice never refuses. |
| BatchRoutes.ProxyChoicesAgree | routes/batch_routes.py:58-73 | The batch choice equals the single-query choice wherever the latter does not refuse. An invalid tunnel URL falls through to the next source, and an invalid API URL to a direct call. |
| BatchRoutes.Merged | routes/batch_routes.py:120-125 | With nothing gathered the reply is unchanged. Otherwise its list becomes all gathered results. |
| BatchRoutes.Handle | routes/batch_routes.py:127-145 | A 200 is recorded as it is. A code-500 reply is recorded only when results were gathered, as a 200 carrying them. Any other dict is retried. Only a non-dict or a code-500 reply can raise. |
| BatchRoutes.NullRecord | routes/batch_routes.py:155-165 | The placeholder record has exactly the listed keys, all `None`. |
| BatchRoutes.Placeholder | routes/batch_routes.py:153-166 | An empty result gives one record whose key for the kind (`domain`, `serviceName`) holds the name, with every other field `None`. |
| BatchRoutes.DomainEntry | routes/batch_routes.py:150-171 | A recorded entry is non-empty. An empty list gives the placeholder. A paged kind with results gives their list. |
| BatchRoutes.Query | routes/batch_routes.py:58-125 | The query part of turn `i`. With no proxy, or a kind with no query, nothing is called and there is no reply. A blacklist kind makes exactly the one unpaged call and replies with its answer. A paged kind runs the page loop to its end and grows `all_results` by exactly the gathered page lists. It replies iff the last reply was handed on and could be merged, and the reply is then that reply merged with all gathered results. |
| BatchRoutes.BatchTask.constructor | routes/batch_routes.py:30-37 | A new task has no progress, no entries, and is neither cancelled nor completed. |
| BatchRoutes.BatchTask.Record | routes/batch_routes.py:145-171 | Corrected recording: `curpro` and the keyword advance together with the entry, and only when an entry is stored. |
| BatchRoutes.BatchTask.RecordAsWritten | routes/batch_routes.py:145-171 | As written: `curpro` and the keyword always advance. The entry is stored only when reading the list does not raise. |
| BatchRoutes.Attempt | routes/batch_routes.py:50-175 | One outer attempt. It stops iff the batch task is cancelled, and then changes nothing. Otherwise its query is the turn `Query` describes. It records iff the reply is handled as a success and an entry can be read from it. Recording goes through the corrected `BatchTask.Record`: `curpro`, the keyword and that entry advance together. A non-recording attempt changes no count. |
| BatchRoutes.TurnsSnoc | routes/batch_routes.py:47-50 | A turn that starts where the earlier ones ended extends the worker's turns and carries its calls and gathered records forward. |
| BatchRoutes.TurnGathers | routes/batch_routes.py:58-125 | A turn keeps `all_results` equal to the records of the successful pages of all calls so far. A blacklist kind makes at most one call per turn, and a kind with no query none. |
| BatchRoutes.TakeTurn | routes/batch_routes.py:47-175 | One round of the retry loop: the next turn as `Attempt` runs it, appended to the worker's turns. It records iff that turn records, through the corrected `BatchTask.Record`. |
| BatchRoutes.PagedEntry | routes/batch_routes.py:120-171 | For a paged kind, the recorded entry is the gathered list, or the placeholder when nothing was gathered. |
| BatchRoutes.ProcessApp | routes/batch_routes.py:41-178 | A cancelled task takes no turn. Otherwise the worker takes turns in order, each as turn `j` runs it and starting where the one before ended. No turn records before the last, and fewer than `retry_times` turns are taken only when the last records. The entry is counted iff a turn records, and then once, through the corrected `BatchTask.Record`, storing that turn's entry. `all_results` is never reset and holds the records of every successful page. |
| BatchRoutes.RunTurns | routes/batch_routes.py:47-178 | The retry loop of a worker whose task is not cancelled: the same trace, count and stored entry as `ProcessApp`. |
| BatchRoutes.SuccessCount | routes/batch_routes.py:216 | The success count is at most the number of entries. It equals that number when every entry is non-empty. |
| BatchRoutes.ProgressBounds | routes/batch_routes.py:242 | With `curpro ≤ numpro` the progress lies in `0..100`, and is 100 iff every name was recorded. |
| BatchRoutes.OverCountAsWritten | routes/batch_routes.py:145-171 | As written, one name can count twice: `curpro` 2 of 1 with no entry stored, progress 200. |
| BatchRoutes.SqlOf | routes/batch_routes.py:277 | A task name has a SQL value iff it is hashable. |
| BatchRoutes.Cancel | routes/batch_routes.py:307-318 | Deletion marks a batch task cancelled, removes its entry, and leaves its progress untouched. |
| BatchRoutes.DeleteTask | routes/batch_routes.py:299-324 | Non-POST gives `None`. A non-dict body or an unhashable name crashes. A registered name is cancelled and removed with `{"code": 200}`. An unknown name gives 404. No task's progress or entries change. |
| BatchRoutes.QueryTask | routes/batch_routes.py:230-250 | An unknown name gives 404. `numpro == 0` raises. Otherwise the reply holds the batch task's `curpro`, data, keywords and progress, which lies in `0..100` while `curpro ≤ numpro`. |
| BatchRoutes.IntOf | routes/batch_routes.py:274 | `int()` keeps an int and raises on `None`, a list or a dict. |
| BatchRoutes.Iterate | routes/batch_routes.py:269 | Iterating a list gives its items, a string its characters, and a dict its keys, each once. The elements are exactly the value's entries. |
| BatchRoutes.CreateTaskCatch | routes/batch_routes.py:253-296 | The rejections in order: 405 for a disallowed type, a `len` crash, 400 for an empty list, a crash on a non-text entry when suffixes are configured, 400 when filtering leaves nothing. Past those checks: an unparsable `searnum` or an unhashable name crashes, a taken name gives 409, and a free name gives 200 with a job. The job has the new name, the parsed `searnum`, and exactly the entries with no prohibited suffix, in order. |
| BatchRoutes.CompletedUpdateValues | routes/batch_routes.py:217-224 | The final update binds `curpro`, `curpro`, "completed", the result file and the finish time, in that order. |
| BatchRoutes.RunEntry | routes/batch_routes.py:180-187 | One entry of a registered task: a delete arriving now cancels the task first. Then the entry's worker runs, and it is counted, in order, iff that worker recorded. |
| BatchRoutes.RunEntries | routes/batch_routes.py:180-187 | The entries run in order, each worker as `ProcessApp` describes and none after a deletion. An entry is counted iff its worker recorded, through the corrected `BatchTask.Record`. The counted keywords are those entries in increasing position, and each stored entry is what its worker stored. A deletion cancels the task and unregisters it. |
| BatchRoutes.CompletedUpdate | routes/batch_routes.py:213-224 | The success count equals `curpro`. The statement has one `?` per bound value. |
| BatchRoutes.CreateTask | routes/batch_routes.py:24-227 | The registered task runs every entry as `RunEntries` describes, through the corrected `BatchTask.Record`. So each entry is counted iff its worker recorded, `curpro ≤ numpro`, and the keywords are the counted entries in order. It completes iff it is registered with `searnum > 0` and not deleted. With a database, the update binds `curpro` as both counts. |
| BatchRoutes.RunRegistered | routes/batch_routes.py:180-224 | The entries of a registered task with `searnum > 0` run as `RunEntries` describes. The task then completes iff it was not deleted, and with a database its update binds `curpro` as both counts. |
| BatchRoutes.Finish | routes/batch_routes.py:188-224 | A task still registered under its name is marked completed, with its counts and entries unchanged. The update is written iff it is registered and there is a database, binding `curpro` twice, "completed", the result file, the finish time and the name. |
| Database.UpdateArguments | database.py:248-249 | The five optional arguments in column order. |
| Database.PresentSpec | database.py:255-276 | As many clauses as values, one per non-`None` argument. Every clause belongs to a present argument's column, and every present argument's clause and value are included. |
| Database.PresentLengths | database.py:255-276 | As many clauses as values, one per present argument. |
| Database.PresentSnoc | database.py:258-276 | One more test appends the clause and value of one argument when it is present. |
| Database.PlaceholdersInClauses | database.py:258-276 | Every present clause holds exactly one `?`. |
| Database.FixedTextPlaceholders | database.py:278-281 | The fixed text holds a single `?`, in `WHERE task_name = ?`. |
| Database.StatementPlaceholders | database.py:281 | A statement built from placeholder-free text, one `?` per present clause and a tail with one `?` holds present count + 1 placeholders. |
| Database.PlaceholdersMatchParameters | database.py:278-282 | The statement has one `?` per present value plus one for `task_name`. |
| Database.UpdateBatchTask | database.py:248-282 | The statement is the present clauses, then `update_time = CURRENT_TIMESTAMP`. `params` are the present values, then `task_name`. The `?` count equals `len(params)`. |
| Database.BuiltStart | database.py:255-256 | Both lists start empty. |
| Database.BuiltStep | database.py:258-276 | Each `is not None` test extends both lists by one argument's clause and value. |
| Database.BuiltAll | database.py:255-279 | After the last test the lists are the present clauses and values. |
| Database.FalsyValuesStillUpdate | database.py:258-276 | 0 and "" still produce their clauses and values. |
| Database.StoredResultData | database.py:82 | `result_data` is stored iff it is truthy. An empty list or dict is stored as NULL. |
| Database.RowToDictSpec | database.py:321-333 | A row maps to exactly the eleven keys, the i-th key holding column i, and reads back to the same row. |
| Database.RowsToDicts | database.py:319-335 | One dictionary per row, in row order. |
| Database.TaskDetail | database.py:356-370 | A dictionary iff a row matched. It holds the eleven keys and reads back to the row. |
| Ipv6Pool.ExtractPrefixFields | ipv6_pool.py:98-101 | The prefix's fields are the first (at most four) `:`-fields of the address. |
| Ipv6Pool.ExtractPrefixIdempotent | ipv6_pool.py:98-101 | Extracting a prefix twice gives the same prefix. |
| Ipv6Pool.ExtractPrefixOfGenerated | ipv6_pool.py:98-101 | A generated address has the four-field prefix it was built from. |
| Ipv6Pool.PublicOfSpec | ipv6_pool.py:92-95 | The refreshed system list holds exactly the public addresses of the listing. |
| Ipv6Pool.ChooseNew | ipv6_pool.py:167-174 | The `for ... break` picks a public new address. It adds none iff no new address is public. |
| Ipv6Pool.SplitByMembership | ipv6_pool.py:197-201 | The active keys split into those still listed and those not, in key order. |
| Ipv6Pool.StampSpec | ipv6_pool.py:227-229 | Assigning the time to each key adds exactly those keys and leaves the other timestamps alone. |
| Ipv6Pool.InsertKeepsWellKeyed | ipv6_pool.py:227-229 | Inserting keys keeps the dict's key order and contents consistent. |
| Ipv6Pool.InsertWhere | ipv6_pool.py:52-72 | `d[a] = t` for each key that passes the test: new keys go last in first-seen order, and the count is the number that passed. |
| Ipv6Pool.AddAttempt | ipv6_pool.py:160-174 | After the refresh, an address is added only if it is public, listed now, not listed before and not active. None is added iff no such address exists. |
| Ipv6Pool.AddInvariantStart | ipv6_pool.py:149-151 | Before the first attempt nothing is added. |
| Ipv6Pool.PoolGrownSnoc | ipv6_pool.py:171 | Adding a new key keeps the pool grown from the old one. |
| Ipv6Pool.AttemptsLoggedFound | ipv6_pool.py:153-174 | An attempt that adds an address is logged as the attempt that added it. |
| Ipv6Pool.AttemptsLoggedNone | ipv6_pool.py:153-178 | An attempt that adds nothing moves the system list on, and is logged as one whose listing held no public address new to both the list before it and the pool. |
| Ipv6Pool.NewAddressIsAdded | ipv6_pool.py:163-172 | An attempt whose listing shows a public address new to both the list before it and the pool is one that added an address. |
| Ipv6Pool.AttemptStep | ipv6_pool.py:153-185 | One attempt adds at most one address, and exactly one iff the fresh listing shows a public address new to both the list and the pool. |
| Ipv6Pool.RunAttempts | ipv6_pool.py:149-188 | At most `count*3` attempts and at most `count` additions. Fewer than `count*3` attempts means all `count` were added. Each added address was new to the list and the pool on its attempt, and every attempt that added nothing saw no such public address. |
| Ipv6Pool.RebuiltPool | ipv6_pool.py:224-229 | The rebuilt pool holds only system addresses with the new prefix, all stamped with the current time. |
| Ipv6Pool.Ipv6AddressPool.constructor | ipv6_pool.py:19-28 | A new pool is empty, has no prefix, and keeps the configured size and card. |
| Ipv6Pool.Ipv6AddressPool.Put | ipv6_pool.py:62 | `active_addresses[a] = t`: a new key goes last, and an existing key keeps its place. |
| Ipv6Pool.Ipv6AddressPool.RefreshSystemAddresses | ipv6_pool.py:92-96 | The system list becomes the listing's public addresses. Nothing else changes. |
| Ipv6Pool.Ipv6AddressPool.CleanupInvalidAddresses | ipv6_pool.py:190-210 | Afterwards every active address is listed. Survivors keep their place and timestamps. The result is the number removed. |
| Ipv6Pool.Ipv6AddressPool.CheckPrefixChange | ipv6_pool.py:212-234 | Returns True iff the first system address has a new prefix. Then the prefix is recorded and the pool becomes exactly the system addresses with it. Otherwise nothing changes. |
| Ipv6Pool.Ipv6AddressPool.AddAddresses | ipv6_pool.py:142-188 | Adds nothing without a prefix. Otherwise at most `count*3` attempts, each configuring the address from its GUID, with at most `count` added, each as `AddAttempt` demands. Every attempt that added nothing saw no public address new to the list and the pool. |
| Ipv6Pool.Ipv6AddressPool.TopUp | ipv6_pool.py:246-250 | `pool_size - count` addresses are requested iff the pool is below its size. Then at most `3 * requested` attempts are made and at most `requested` addresses are added. All are added unless the attempts run out or there is no prefix. The pool is the old one plus the added addresses, each logged with the attempt that added it. An attempt adds nothing only when its listing shows no public address new to the list and the pool. |
| Ipv6Pool.Ipv6AddressPool.MaintainPool | ipv6_pool.py:236-260 | The removed count is the number of unlisted active addresses. The prefix changes iff the first public address has a new prefix. Then the pool is rebuilt from the public addresses with it; otherwise it is the listed survivors with their timestamps. The pool is then topped up as `TopUp` states, with every attempt that found a new public address adding one, so it never exceeds its size. |
| Ipv6Pool.Ipv6AddressPool.GetRandomAddress | ipv6_pool.py:293-302 | `None` iff the pool is empty. Otherwise the active key the random choice selects. |
| Ipv6Pool.Ipv6AddressPool.GetAddressCount | ipv6_pool.py:304-306 | The count equals the length of `get_all_addresses()`. |
| Ipv6Pool.Ipv6AddressPool.GetAllAddresses | ipv6_pool.py:308-310 | Exactly the active keys, each once. |
| Ipv6Pool.Ipv6AddressPool.VerifyExisting | ipv6_pool.py:52-72 | Each public system address whose probe succeeds is (re)inserted with the current time. The count is the number of successes. |
| Ipv6Pool.Ipv6AddressPool.AdmitVerified | ipv6_pool.py:34-81 | The first part of `initialize`. It succeeds iff some public address passes the probe, and the prefix is the first public address's. On success exactly the verified public addresses are inserted, stamped with the current time. On failure the pool is unchanged. |
| Ipv6Pool.Ipv6AddressPool.Initialize | ipv6_pool.py:30-90 | True iff some public address passes the probe; the prefix is the first public address's. On failure the pool is unchanged. On success the verified addresses are inserted, and the pool is topped up to its size as `TopUp` states, with every attempt that found a new public address adding one. Every verified address ends up in the pool, and every new address was verified or added by the top-up. |
| NetUtils.PublicTestIsTextual | utils.py:37-39 | Only the literal prefixes fe80, fc00 and fd00 are rejected, case-sensitively: "FE80::1" and "fd12::1" pass. |
| NetUtils.BeforeSlash | utils.py:80 | `s.split("/")[0]` contains no '/'. |
| NetUtils.Candidates | utils.py:76-95 | At most one address per line. |
| NetUtils.CandidateSpec | utils.py:76-93 | A line contributes only a public, slash-free address. On Windows the line needs a keyword and a ':', and so does the address. On Linux the line needs "inet6" and "scope global". |
| NetUtils.CandidatesSpec | utils.py:76-95 | Every collected address is public and slash-free, and holds ':' on Windows. |
| NetUtils.GetLocalIpv6Addresses | utils.py:68-98 | Empty output gives []. The result is the candidates of the lines, duplicates removed, in first-seen order. |
| NetUtils.GuidGroups | utils.py:106 | A GUID yields four groups of four characters, none containing ':'. |
| NetUtils.GeneratedAddressFields | utils.py:106 | A generated address's fields are the prefix's fields, then the four GUID groups. |
| NetUtils.AddCommandsSpec | utils.py:101-117 | `n` commands; the k-th adds the address built from the k-th GUID. |
| NetUtils.ConfigureIpv6Addresses | utils.py:101-117 | Exactly `count` commands (none when `count ≤ 0`), the k-th adding the address from the k-th GUID. |
| LogCollector.LastN | log_collector.py:31 | The window holds `n` entries, or all of them when fewer are held. |
| LogCollector.AppendedSpec | log_collector.py:20-25 | An append keeps the bound. The new entry is last, and before it are the newest old entries, in order. |
| LogCollector.AppendedWindow | log_collector.py:14-25 | The bounded deque is always the newest `maxlen` entries of the history. |
| LogCollector.TailSpec | log_collector.py:27-31 | A positive limit gives the newest `limit` entries. A zero limit gives everything, because of `[-0:]`. The result is always a suffix. |
| LogCollector.Collector.constructor | log_collector.py:14-16 | A new collector is empty. |
| LogCollector.Collector.AddLog | log_collector.py:18-25 | One entry at the end. At capacity the oldest is dropped. The buffer never exceeds `maxlen`. |
| LogCollector.Collector.GetLogs | log_collector.py:27-31 | Reads the buffer's tail and changes nothing. |
| LogCollector.Collector.Clear | log_collector.py:33-36 | The buffer is empty. |
| LogCollector.Collector.Emit | log_collector.py:45-52 | A record is added iff its logger name does not contain "aiohttp.access". |
| TaskManager.Task.Cancel | task_manager.py:30-31 | Cancelling a running task requests its cancellation. |
| TaskManager.WithoutSpec | task_manager.py:32 | Deleting a key removes exactly that key, keeps the key list free of duplicates, and leaves the list alone when the key is absent. |
| TaskManager.Registry.constructor | task_manager.py:14-16 | A new registry is empty. |
| TaskManager.Registry.AddTask | task_manager.py:18-20 | Registers or replaces a task under its name. No other entry changes. |
| TaskManager.Registry.GetTask | task_manager.py:22-24 | The registered task object for the name, or `None`. |
| TaskManager.Registry.RemoveTask | task_manager.py:26-32 | A registered task is cancelled if still running, and its entry is deleted. An unknown name changes nothing. |
| TaskManager.Registry.GetSemaphore | task_manager.py:34-38 | One semaphore per name, created on the first request with its limit. Later limits are ignored. A negative limit raises and creates nothing. |
| TaskManager.HandleSignal | task_manager.py:43-49 | On SIGINT every task is removed. A task's cancellation is requested exactly when it was still running, and a finished task's flag stays as it was. On SIGTERM nothing changes. |
| TaskManager.RemoveStep | task_manager.py:47-48 | One turn of the cleanup loop removes the next name. Only that name's task can change: it is cancelled exactly when still running. |
| TaskManager.RemovedAll | task_manager.py:47 | Once every key of the snapshot is removed, every registered task object has been reached. |
| TaskManager.WithoutHead | task_manager.py:47-48 | Removing the first remaining name leaves the rest of the key list. |
| Collections.DedupSpec | utils.py:98 | `list(dict.fromkeys(s))` has no duplicates and the same elements. |
| Collections.DedupKeepsFirstOccurrenceOrder | utils.py:98 | The deduplicated list keeps the order of first occurrences. |
| Collections.FilterSpec | routes/batch_routes.py:269 | The filter keeps exactly the elements that pass, and is never longer than its input. |
| PySemantics.Trunc | routes/batch_routes.py:242 | `int()` of a float truncates toward zero. |
| PySemantics.SliceSpan | detnate.py:61 | numpy slice bounds are clamped into the axis. |
| PySemantics.JoinSplit | ipv6_pool.py:100-101 | Joining the pieces of a split with the separator gives back the string. |
| PySemantics.SplitLines | utils.py:76 | `splitlines` gives no lines for "" and no line contains a line break. |

## Left out

- ONNX inference, `cv2.kmeans`, `cv2.connectedComponentsWithStats`, `cv2.dnn.NMSBoxes` and the similarity network are inputs. Each is constrained by part of the contract its library documents (labels in range, label 0 exactly the background, kept indices in range). Their numerics are not modelled.
- Image resampling (PIL `resize`, `cv2.resize`, BICUBIC/BILINEAR) is not modelled. Only the sizes and band counts it produces are.
- Floating point is modelled as exact reals. The float rescaling of boxes (`detnate.py:172-183`) uses reals and truncation. The `/255` normalisation is not modelled.
- The `coding_show` debug drawing, image files and OpenCV windows are not modelled. Neither are file reading in `extract_center_dominant_color_kmeans` (`detnate.py:39-42`) or model construction and provider selection.
- `cv2.medianBlur(result, 1)` is the identity: an aperture of 1 copies its input.
- The `result.shape[2] == 4 and source.shape[2] == 3` conversion (`detnate.py:232-234`) cannot run, because the isolator always returns three channels. It is modelled as doing nothing.
- `ymicp.py`, `proxy_pool.py` and `is_valid_url` are outside the model. The portal is a function from call index and call to the decoded reply. The proxy sources are functions of the attempt number, with `None` for a raised exception. The pool cache eviction at `routes/batch_routes.py:129-132` is not modelled.
- asyncio is not modelled: the semaphore, `gather`, locks, sleeps and task scheduling. The batch entries run one after another in list order.
  - Deleting a batch task is modelled as happening before a chosen entry, or after the last one (the `deleteAt` input).
  - The cancellation checks inside `process_app` therefore see a cancelled task only at an entry's start.
  - A task with `searnum ≤ 0` processes nothing, standing for a semaphore no coroutine can acquire.
- BatchRoutes.FetchPages: requires the reported `total` to be bounded by a fixed `maxTotal`. The Python loop does not terminate when the portal keeps reporting full pages and growing totals.
- BatchRoutes.Query: carries the same bound on the reported `total`, and so do `Attempt`, `TakeTurn`, `RunTurns`, `ProcessApp`, `RunEntry`, `RunEntries`, `RunRegistered` and `CreateTask`, which run the page loop through it.
- Detnate.ResolveSlots: on failure it states that the exception is one the slot loop can raise for these inputs (an empty slot, an unscorable candidate, too few distinct centres), not which of them the first failing slot raises. `Detnate.SolveSlots` and `Detnate.CheckTarget` pass this on.
- The similarity network is a total function of two images. It is consulted only on images `detect_image` can preprocess; its score is not constrained otherwise.
- BatchRoutes.Attempt: `all_results.extend` of a string or dict "list" is treated as raising, since only lists are meaningful page lists here.
- `int()` of a string (`searnum`) is an input function `parse`. `int()` of a float or bool in the body is not distinguished from an int.
- The JSON result file of `create_task`, its file name and timestamps are not modelled. The finish time and file name are inputs. `db.add_batch_task` (`routes/batch_routes.py:283`) and `log_collector.add_log` calls from the routes are not modelled.
- The `task_manager` link in `create_task_catch` and `del_task` (`add_task`/`remove_task` on the registry) is not modelled. The registry itself is modelled in `TaskManager`.
- A task name of `True` and one of `1` collide as dict keys in Python. The model keeps them apart.
- A request body that is not valid JSON is not modelled: `request.json()` is taken as already decoded.
- The routes from `routes/batch_routes.py:327` on (task lists, details, result downloads) are database and file I/O. Only the row mapping of `database.py` they use is modelled.
- SQLite execution, connections, row ids and `CURRENT_TIMESTAMP` are not modelled: the statement text and parameters are the result. The `add_history` insert is modelled by the NULL rule of its `result_data` column.
- `_verify_ipv6_address` is an input probe, and `get_local_ipv6_addresses` reads a captured command output. `_run_cmd_capture`, the text decodings and the subprocess calls are not modelled. `configure_ipv6_addresses` returns its commands instead of running them.
- `maintenance_loop`, `start_maintenance`, `stop_maintenance`, `init_ipv6_pool` and `cleanup_ipv6_pool` are scheduling and app wiring, and are not modelled.
- The exception handlers of `_add_addresses` and `maintain_pool` are not modelled: the model's steps do not raise.
- `TaskManager` holds tasks by strong reference. The weak-reference dictionary's garbage collection is not modelled.
- `sys.exit()` after the SIGINT cleanup is not modelled.
- The lock of `LogCollector` is not modelled. The timestamp and formatted message are inputs. `handleError` on a formatting exception is not modelled.

## Findings

| source | as written | input that shows it | evidently intended | confidence | as-written member | corrected member |
|---|---|---|---|---|---|---|
| routes/batch_routes.py:145-171 | `curpro` and the keyword are incremented before the result list is read. For a blacklist kind, `data.get("params", {}).get("list", [])` raises when `params` is a list. The exception is caught, the attempt is retried, and `curpro` counts the same name again. | a task of kind `bapp` with one name, and a portal reply of `{"code": 200, "params": ["x"]}` on two attempts | each name is counted at most once, and only together with its stored entry, so `curpro ≤ numpro` and progress ≤ 100 | not executed | BatchRoutes.OverCountAsWritten | BatchRoutes.BatchTask.Record |
