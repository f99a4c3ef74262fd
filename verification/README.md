# PCVK image pipeline, OCR service, storage routes and dataset balancer in Dafny

This project models the core of the PCVK part of WargaGO:

- **Segmentation and enhancement** (`PCVK/lib/segment.py`):
  - automatic brightness/contrast correction: luma histogram, cumulative counts, the two clipping walks, alpha/beta, `convertScaleAbs`;
  - CLAHE on the L channel;
  - the four segmentation methods: GrabCut, adaptive threshold plus largest contour, HSV range, and U2Net-P through rembg with the HSV fallback;
  - `auto_segment`, which resizes, dispatches on the method name and optionally enhances.
- **The OCR service** (`PCVK/api/services/ocr_service.py`): a class whose one field holds the lazily loaded engine. `perform_ocr` reshapes the engine's first prediction into (box, text, confidence) entries.
- **The storage routes** (`PCVK/api/routes/storage_private_route.py` and `storage_public_route.py`): upload, listing with SAS URLs, and deletion. Each route's authorisation rule is stated on its own, and the two routes are compared against each other.
- **The dataset balancer** (`PCVK/scripts/balance_dataset.py`): class counting, the default target, and what each class directory of the output receives under undersampling, oversampling and augmentation. The names of generated files are modelled too.

OpenCV, rembg, PaddleOCR, Azure Blob Storage and Firebase are not part of this model:
- Their calls are parameters. Either they are fields of `Vision.Vision`, or they are functions passed to a route or to the OCR service, each answering a value or the exception it raises.
- The shape facts the model relies on (a conversion keeps the image's dimensions; a mask fits its image) are stated as the `...Sound()` predicates of `Vision.Vision`.

Python exceptions are values of `Outcomes.Try`. `Outcomes.Describe` renders an exception as `str(e)` does. Random draws (`random.sample`, `random.choices`, `random.choice`) are nondeterministic choices. Every contract therefore holds for every possible draw.

In a few places the code does not do what its purpose evidently calls for. The intended behaviour below is this model's reading of the docstrings and of what each function is for; the model follows the code:

- **Flat histograms.** An "automatic brightness and contrast optimization" (the docstring of `apply_automatic_brightness_contrast`) should, in this model's reading, neither crash on a flat or nearly flat histogram nor destroy the image. The code does not guard these cases:
  - An image whose luma is 0 everywhere (an all-black one, for instance) makes the right walk run off the list (`IndexError`).
  - A flat image of luma v > 0 gets cuts (v, v − 1), so alpha = −255 and beta = 255·v. Every luma sample becomes |−255·v + 255·v| = 0 while the two chroma channels are untouched. A grey image therefore turns black, and a coloured one keeps only its chroma and comes out as a dark colour, rather than staying unchanged.
  - Take an image whose luma holds only two adjacent values a and a + 1. At the default 1% clip, the clip threshold t is half a percent of the pixel count. Its cuts are equal, (a, a), and computing alpha raises `ZeroDivisionError`, exactly when the count at a reaches t and the count at a + 1 exceeds t. The two-pixel image [5, 6] is such a case.
  - If the count at a + 1 is at most t, the right walk steps below a. For a > 0 the cuts are then (a, a − 1), alpha is −255, and nothing crashes. For a = 0 the walk runs off the list and raises `IndexError`, as for an all-black image.
  - If the count at a is below t, the cuts are (a + 1, a), alpha is −255, and nothing crashes.

  `Brightness.FlatLuma`, `Brightness.AdjacentPairCuts` and `Brightness.AdjacentPairDividesByZero` state these cases, and `Pipeline.AutoSegment` raises them.
- **Unknown segmentation method.** The docstring of `auto_segment` lists the accepted methods, so an unknown method is meant to be an error. `auto_segment` passes the resized image through unchanged (`Pipeline.UnsegmentedNames`).
- **Role lookup.** `firebase_auth.get_user_role`, which the private listing and the public delete call, is not defined in `PCVK/api/services/firebase_auth.py`. In the model it is a parameter that may raise. As the file stands, it always raises, and those two routes then answer 500.
- **Unknown balancing method.** `balance` raises `ValueError` for an unknown method only inside its loop over the splits. With an empty split list, the method name is never checked (`DatasetBalance.Balance`).

## Model

| member | source | states |
|---|---|---|
| Images.Merge | PCVK/lib/segment.py:32 | merging three planes of one size gives an image that each plane fits |
| Images.MergeSplit | PCVK/lib/segment.py:25-32 | splitting an image into channels and merging them back gives the same image |
| Images.SplitMerge | PCVK/lib/segment.py:25-32 | merging planes and splitting again gives the same planes |
| Images.WithChannel0 | PCVK/lib/segment.py:83 | overwriting channel 0 keeps the shape, puts the new plane in channel 0 and leaves channels 1 and 2 unchanged |
| Images.SwapRedBlue | PCVK/lib/segment.py:233 | the BGR↔RGB conversion keeps the image's shape |
| Images.SwapRedBlueInvolution | PCVK/lib/segment.py:246 | converting back (RGB→BGR) after BGR→RGB restores the image |
| Images.ApplyMask | PCVK/lib/segment.py:199 | `bitwise_and(img, img, mask)` keeps a pixel exactly where the mask is non-zero and blacks it out elsewhere |
| Images.ApplyMaskIdempotent | PCVK/lib/segment.py:199 | masking twice with the same mask is the same as masking once |
| Images.MultiplyMask | PCVK/lib/segment.py:123 | multiplying an image by a mask keeps its shape |
| Images.MultiplyBinaryMask | PCVK/lib/segment.py:120-123 | multiplying by a 0/1 mask is the same as masking with it |
| Brightness.Histogram | PCVK/lib/segment.py:53-55 | the luma histogram has 256 bins |
| Brightness.HistogramPrefix | PCVK/lib/segment.py:53-55 | the first n bins of the histogram add up to the number of luma values below n |
| Brightness.Accumulate | PCVK/lib/segment.py:58-61 | the append loop builds a list as long as the histogram whose entry k is the sum of bins 0..k, and it never decreases |
| Brightness.AccumulatorIsCumulative | PCVK/lib/segment.py:58-64 | that list is the cumulative count of luma values, and its last entry (`accumulator[-1]`) is the pixel count |
| Brightness.LeftCutUnique | PCVK/lib/segment.py:69-71 | the left walk's stopping point is unique: the first bin whose cumulative count reaches the clip threshold |
| Brightness.RightCutUnique | PCVK/lib/segment.py:74-76 | the right walk's stopping point is unique: the last bin whose cumulative count is below maximum − clip |
| Brightness.LeftCutExists | PCVK/lib/segment.py:69-71 | if some cumulative count reaches the threshold, the left walk has a stopping point |
| Brightness.RightCutExists | PCVK/lib/segment.py:74-76 | if some cumulative count is below the bound, the right walk has a stopping point |
| Brightness.LeftCutOf | PCVK/lib/segment.py:69-71 | the left walk stops at the first bin reaching the threshold, or runs off the end with IndexError when none does |
| Brightness.RightCutOf | PCVK/lib/segment.py:74-76 | the right walk stops at the last bin below the bound, or raises IndexError after the negative indices when none is |
| Brightness.LeftCut | PCVK/lib/segment.py:69-71 | the `while` loop that advances minimum_gray computes exactly that cut |
| Brightness.PyIndex | PCVK/lib/segment.py:75 | Python's index `accumulator[i]` for −n ≤ i < n lands inside the list |
| Brightness.RightCut | PCVK/lib/segment.py:74-76 | the `while` loop that lowers maximum_gray, reading negative indices from the end, computes exactly that cut |
| Brightness.WalksStayInRange | PCVK/lib/segment.py:64-76 | the left walk succeeds iff the threshold is at most the pixel count; the right walk succeeds iff bin 0 lies below maximum − clip |
| Brightness.CutsBelowLastBin | PCVK/lib/segment.py:74-76 | a successful right walk never stops at the last bin |
| Brightness.AlphaBeta | PCVK/lib/segment.py:79-80 | equal cuts divide by zero; otherwise alpha and beta map the low cut to 0 and the high cut to 255, with alpha's sign following the order of the cuts |
| Brightness.RoundHalfEven | PCVK/lib/segment.py:83 | the rounding lands within one half of its argument |
| Brightness.Saturate | PCVK/lib/segment.py:83 | saturation leaves values in 0..255 unchanged |
| Brightness.ScaleAbsPlane | PCVK/lib/segment.py:83 | `convertScaleAbs` keeps the plane's size and applies the per-sample scale to every value |
| Brightness.RemapEndpoints | PCVK/lib/segment.py:79-83 | after the remap, the low cut becomes 0 and the high cut 255 |
| Brightness.DarkSampleIsReflected | PCVK/lib/segment.py:79-83 | a luma below the low cut is reflected by the absolute value rather than clamped: cuts (10, 20) send 0 to 255 |
| Brightness.CutPoints | PCVK/lib/segment.py:53-76 | computing the cut points fails only with IndexError |
| Brightness.RemapLuma | PCVK/lib/segment.py:79-83 | overwriting the luma with the remap raises ZeroDivisionError iff the cuts are equal; otherwise it keeps the shape and channels 1 and 2, and rescales every luma sample |
| Brightness.AutoBrightnessContrastSpec | PCVK/lib/segment.py:38-88 | an empty or malformed image makes the first `cvtColor` raise `cv2.error`; on a valid image, exposure correction fails only with IndexError or ZeroDivisionError |
| Brightness.FindCutPoints | PCVK/lib/segment.py:50-76 | histogram, accumulation, clip threshold and both walks compute exactly the cut points |
| Brightness.ApplyAutomaticBrightnessContrast | PCVK/lib/segment.py:38-88 | the method computes exactly the specified correction, and a successful result is a valid image of the input's shape |
| Brightness.FlatLuma | PCVK/lib/segment.py:64-86 | a flat all-black luma makes the right walk raise IndexError; a flat luma v > 0 gives cuts (v, v − 1), alpha = −255 and beta = 255·v, so `convertScaleAbs` turns every sample to 0 (black) |
| Brightness.AdjacentPairCuts | PCVK/lib/segment.py:64-80 | for a luma of only the values a and a + 1, the cuts are exactly the following: left a when the count at a reaches t, else a + 1; right a when the count at a + 1 exceeds t, else a − 1, with IndexError when a = 0. The cuts coincide, so alpha divides by zero, exactly when both counts clear t |
| Brightness.AdjacentPairDividesByZero | PCVK/lib/segment.py:69-80 | the luma [5, 6] gives equal cuts, so computing alpha divides by zero |
| Segmentation.EnhanceLightness | PCVK/lib/segment.py:25-32 | CLAHE rewrites only the L channel: the shape and channels 1 and 2 are kept |
| Segmentation.ApplyClahe | PCVK/lib/segment.py:10-35 | `apply_clahe` returns an image of the input's shape, valid when the input is |
| Segmentation.GrabCutRect | PCVK/lib/segment.py:110-112 | the margin is ⌊min(h, w)/10⌋ on every side and the rectangle spans the rest of the image |
| Segmentation.CollapseLabels | PCVK/lib/segment.py:120 | the collapsed mask has the labels' dimensions; each sample is 1 exactly when its label is foreground or probable foreground (1, 3) and 0 for background or probable background (0, 2) |
| Segmentation.SegmentGrabCut | PCVK/lib/segment.py:91-125 | a pixel is kept exactly where GrabCut labels it foreground or probable foreground; every other pixel is black |
| Segmentation.FirstMaxIndex | PCVK/lib/segment.py:160 | `max` returns the first position of the largest key |
| Segmentation.LargestContour | PCVK/lib/segment.py:160 | the chosen contour is one of the contours, has the largest area, and no earlier contour has the same area |
| Segmentation.AdaptiveMask | PCVK/lib/segment.py:140-164 | there is no mask exactly when the thresholded gray image has no contour; otherwise the mask is the gray-sized plane with the largest contour filled, and it fits the image |
| Segmentation.SegmentAdaptiveThreshold | PCVK/lib/segment.py:128-171 | with no contour the image is returned unchanged; otherwise a pixel is kept exactly inside the largest contour's mask |
| Segmentation.InRange | PCVK/lib/segment.py:191 | `inRange` gives 255 exactly for the pixels within the bounds and 0 for the others |
| Segmentation.HsvMask | PCVK/lib/segment.py:188-196 | the cleaned HSV mask fits the image |
| Segmentation.SegmentHsvColor | PCVK/lib/segment.py:174-201 | a pixel is kept exactly where the cleaned HSV mask is non-zero |
| Segmentation.HsvKeepsExactlyInRange | PCVK/lib/segment.py:188-199 | when the morphology leaves the mask unchanged, the kept pixels are exactly those whose HSV value lies within the bounds |
| Segmentation.DefaultRangeDropsPale | PCVK/lib/segment.py:174 | with the default bounds, a pixel of hue below 20 or saturation below 40 is never in range |
| Segmentation.ScaleByAlpha | PCVK/lib/segment.py:240-244 | scaling by the alpha channel keeps opaque pixels, blacks out transparent ones and never brightens a channel |
| Segmentation.SegmentU2netp | PCVK/lib/segment.py:204-305 | U2Net-P segmentation keeps the shape, and when background removal raises it is exactly the HSV segmentation |
| Segmentation.OpaqueRemovalKeepsImage | PCVK/lib/segment.py:233-249 | if rembg returns the image unchanged with a fully opaque alpha, segmentation returns the input |
| Pipeline.Dispatch | PCVK/lib/segment.py:321-330 | every branch of the method dispatch keeps the image's shape |
| Pipeline.UnsegmentedNames | PCVK/lib/segment.py:329-330 | "none" and every name outside the valid methods return the image unchanged |
| Pipeline.MaskingMethods | PCVK/lib/segment.py:321-326 | the grabcut, adaptive and hsv methods only ever black out pixels of their input |
| Pipeline.AutoSegment | PCVK/lib/segment.py:308-334 | `auto_segment` computes exactly the specified pipeline; an empty or malformed input makes `cv2.resize` raise; otherwise a result is a valid 224×224 image, without enhancement it never fails, and with it it fails only with IndexError or ZeroDivisionError |
| Ocr.PolysOf | PCVK/api/services/ocr_service.py:101 | boxes come from rec_polys when present, else dt_polys, else [] |
| Ocr.FormatEntries | PCVK/api/services/ocr_service.py:104-109 | one entry per recognised text, in order; a missing box is [] and a missing score 0.0 |
| Ocr.FormatDictResult | PCVK/api/services/ocr_service.py:104-111 | the append loop builds exactly those entries |
| Ocr.OcrOutputShape | PCVK/api/services/ocr_service.py:94-116 | no prediction or an unrecognised one gives []; a dict gives one entry per recognised text, and none without rec_texts |
| Ocr.DetectionPolysFallback | PCVK/api/services/ocr_service.py:101-106 | without rec_polys, the boxes are dt_polys, position by position |
| Ocr.OcrService.constructor | PCVK/api/services/ocr_service.py:11-12 | a new service holds no engine |
| Ocr.OcrService.IsLoaded | PCVK/api/services/ocr_service.py:45-47 | loaded exactly when an engine is held |
| Ocr.OcrService.LoadModel | PCVK/api/services/ocr_service.py:14-43 | a held engine is kept and reported as success; otherwise the engine is stored on success, and on failure False is returned and nothing is stored |
| Ocr.OcrService.GetModel | PCVK/api/services/ocr_service.py:49-64 | returns the held engine, loading it first if needed; raises RuntimeError("Failed to load PaddleOCR model") exactly when nothing was held and loading fails |
| Ocr.OcrService.PerformOcr | PCVK/api/services/ocr_service.py:66-116 | a held engine is kept and otherwise the constructed one is stored; a failed load raises RuntimeError before any prediction; an exception from predict propagates unchanged with the engine still held; otherwise the result is the reshaped first prediction, and it succeeds exactly when an engine is held and predict does not raise |
| Ocr.OcrService.UnloadModel | PCVK/api/services/ocr_service.py:118-134 | afterwards no engine is held, and True is returned |
| StorageCommon.UserId | PCVK/api/routes/storage_private_route.py:46 | the caller's id is the token's "uid", or "unknown" without one |
| StorageCommon.Guard | PCVK/api/routes/storage_private_route.py:68-72 | an HTTP error passes through unchanged; any other exception becomes a 500 whose detail is the prefix plus the message |
| StorageCommon.UploadImage | PCVK/api/routes/storage_private_route.py:24-72 | no content type raises outside the try block; a content type that is not image/* is a 400; an exception from reading, uploading or the SAS call is passed through if it is an HTTP error and is otherwise a 500 "Upload failed: …"; an empty blob name is a 500; it succeeds exactly when none of these happens, with the stored blob name and its SAS URL; the public route's upload handler (storage_public_route.py, lines 24-72) is the same code |
| StorageCommon.DeleteBlob | PCVK/api/routes/storage_private_route.py:156-171 | the deletion succeeds exactly when storage answers True, and then echoes the blob name; False is a 500; an exception from storage is passed through if it is an HTTP error and is otherwise a 500 "Delete failed: …" |
| StorageCommon.ListingOkIff | PCVK/api/routes/storage_private_route.py:119-125 | the listing loop succeeds iff no SAS URL computation raises |
| StorageCommon.ListingEntries | PCVK/api/routes/storage_private_route.py:119-129 | a successful listing has one entry per blob with a non-empty URL, in order, so the count is the number of such blobs |
| StorageCommon.WithUrlMembers | PCVK/api/routes/storage_private_route.py:120-122 | the blobs that get an entry are exactly the listed blobs with a non-empty URL |
| StorageCommon.ListingStopsAtFirstFailure | PCVK/api/routes/storage_private_route.py:120-121 | the first failing URL computation ends the whole loop with its exception |
| StorageCommon.CollectImages | PCVK/api/routes/storage_public_route.py:94-100 | the append loop computes exactly the listing |
| StoragePrivate.ListingTarget | PCVK/api/routes/storage_private_route.py:101-112 | an admin may name any uid; a non-admin naming one gets 403; otherwise the caller's own id is used, so a non-admin only ever lists their own images |
| StoragePrivate.GetImages | PCVK/api/routes/storage_private_route.py:75-135 | a non-admin asking for a uid gets 403; an exception from the role lookup, the blob listing or a SAS URL call is passed through if it is an HTTP error and is otherwise a 500 "Failed to list images: …"; it succeeds exactly when none of these happens, listing exactly the target user's blobs that have a URL, with their count |
| StoragePrivate.DeleteImage | PCVK/api/routes/storage_private_route.py:138-171 | storage is asked to delete a blob iff it lies under "<uid>/", admins included; otherwise the answer is 403 |
| StoragePublic.ReportedUser | PCVK/api/routes/storage_public_route.py:103 | the response names the uid asked for, or "all" |
| StoragePublic.GetImages | PCVK/api/routes/storage_public_route.py:75-108 | every failure, of the blob listing or of a SAS URL call, is a 500 "Failed to list images: " followed by the exception's text; a success lists exactly the blobs that have a URL, with their count, and it succeeds whenever storage and every URL computation do |
| StoragePublic.DeleteImage | PCVK/api/routes/storage_public_route.py:111-148 | a failed role lookup is guarded before any deletion; storage is asked to delete iff the caller is an admin or owns the blob; otherwise the answer is 403 |
| StoragePublic.AdminOverrideOnlyInPublicRoute | PCVK/api/routes/storage_public_route.py:127-133 | an admin deleting another user's blob is forwarded to storage by the public route and refused with 403 by the private one |
| StoragePublic.OwnersDeleteAlike | PCVK/api/routes/storage_public_route.py:127-142 | for the caller's own blob, both delete routes give the same response and the same storage request |
| DatasetBalance.CountImages | PCVK/scripts/balance_dataset.py:27-40 | a missing split gives {}; otherwise the loop fills the per-class counts |
| DatasetBalance.CountsOfKeys | PCVK/scripts/balance_dataset.py:34-38 | the counted classes are exactly the class directories |
| DatasetBalance.CountsOfSizes | PCVK/scripts/balance_dataset.py:37-38 | each class is counted with the number of its images |
| DatasetBalance.ParseStrategy | PCVK/scripts/balance_dataset.py:280-287 | exactly "undersample", "oversample" and "augment" are known methods |
| DatasetBalance.MinCount | PCVK/scripts/balance_dataset.py:89 | `min(counts.values())` is a class count no larger than any other |
| DatasetBalance.MaxCount | PCVK/scripts/balance_dataset.py:135 | `max(counts.values())` is a class count no smaller than any other |
| DatasetBalance.Target | PCVK/scripts/balance_dataset.py:188-189 | a given target is used as is; otherwise it is the smallest class for undersampling and the largest for the other methods |
| DatasetBalance.Pad4RoundTrip | PCVK/scripts/balance_dataset.py:161 | reading the zero-padded index back gives the index |
| DatasetBalance.Pad4Width | PCVK/scripts/balance_dataset.py:221 | an index below 10000 is written with exactly four digits |
| DatasetBalance.GeneratedNamesDistinct | PCVK/scripts/balance_dataset.py:161 | generated names with different indices below 10000 differ, whichever images they come from |
| DatasetBalance.ClassPlanSize | PCVK/scripts/balance_dataset.py:103-108 | a class ends with min(len, target) files when undersampling and max(len, target) otherwise |
| DatasetBalance.CopyOriginals | PCVK/scripts/balance_dataset.py:149-150 | the copy loop writes every image under its own name, in order |
| DatasetBalance.UndersampleClass | PCVK/scripts/balance_dataset.py:100-112 | above the target, `target` distinct images are copied, and a negative target raises `random.sample`'s ValueError; otherwise all images are copied |
| DatasetBalance.ExtendClass | PCVK/scripts/balance_dataset.py:146-166 | all originals are copied, then files 0 .. target − len − 1, each derived from some original under its `_dup`/`_aug` name; an empty class with a positive target raises IndexError |
| DatasetBalance.BalanceClass | PCVK/scripts/balance_dataset.py:194-226 | the per-class step raises exactly when the class fails for the method, with that method's exception, and otherwise writes the class's plan |
| DatasetBalance.PlanClasses | PCVK/scripts/balance_dataset.py:140-166 | the loop over the classes fails iff some class fails, raising the method's class exception; on success every class directory, and nothing else, has its plan |
| DatasetBalance.BalanceSplit | PCVK/scripts/balance_dataset.py:68-112 | a missing or class-less split gives no output; otherwise it fails iff some class fails, with the method's class exception, and on success every class directory gets its plan |
| DatasetBalance.Balance | PCVK/scripts/balance_dataset.py:255-296 | an unknown method raises ValueError at the first split; for a known method the run succeeds exactly when no split has a failing class, and a failure raises that method's class exception; every split with classes is balanced with the method's plan, and a missing or class-less split gets an empty plan; val is copied iff it exists and was not balanced |

## Left out

- OpenCV internals: colour conversions, `calcHist` binning, CLAHE, `resize` interpolation, `GaussianBlur`, `adaptiveThreshold`, `morphologyEx`, `findContours`/`contourArea`/`drawContours` and the GrabCut energy minimisation. They are parameters with shape-preserving contracts only.
- Floating point: alpha/beta and the clip threshold are reals. `convertScaleAbs` is modelled as absolute value, round half to even and saturation. `int(min(h, w) * 0.1)` is modelled as ⌊min(h, w)/10⌋. The alpha scaling of the U2Net-P output is `c·a/255` over integers rather than a float multiplication followed by truncation.
- Segmentation.SegmentU2netp: the manual U2Net branch (`PCVK/lib/segment.py:251-300`) is not modelled. The rembg branch always returns before it, because the module-level `_u2netp_model` is never assigned. The model cache itself is left out too.
- In-place updates as values: the luma channel overwrite and the mask that `cv2.grabCut` updates are modelled as functions returning new images and planes.
- PaddleOCR itself, `OCR_CONFIG`, the PIL mode conversion and the numpy conversion in `perform_ocr`. The engine's predictions are a function parameter.
- Ocr.OcrService.PerformOcr: the old list format is returned as is. A first prediction that is a list of arbitrary Python values is not modelled.
- Azure Blob Storage, SAS URL generation, Firebase token verification, FastAPI routing and async file reading. Their results are inputs. `file.read()` and `Image.open` together are one optional exception.
- Pydantic validation of responses. `UserImagesResponse` declares `images` as a list of dictionaries but receives `StorageResponse` objects; whether that validates is not modelled.
- The `print`/`traceback` logging in every file, and `print_statistics` in the balancer (output only).
- File copying, `mkdir`, `copytree`, glob matching and `_augment_image`'s pixel work. Class directories carry the images their globs find, and a class's output is the list of files written into it, in order. Writing two files under one name is not merged.
- DatasetBalance.BalanceSplit: it requires that the entries of a split directory have distinct names, as a file system guarantees.
- DatasetBalance.Balance: the files a run copies or generates before a class fails stay in the output directory; the model states only that the run raises, not what it left behind.
- DatasetBalance.Balance: a split named twice in the split list is balanced twice into the same directory; the model keeps only the last plan for it.
- DatasetBalance.ExtendClass: oversampling draws all sources up front with `random.choices`, while augmentation draws one per file with `random.choice`. Both are modelled as one choice per generated file, which admits the same outcomes.
