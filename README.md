# image-cropper in Dafny

This project models the image-cropper repository, which holds three programs.

- **`batchresizer.py`: the sequential batch tool.** It takes every supported image in a folder (`.jpg`, `.jpeg`, `.png`, `.webp`) and picks the entry of a fixed seven-size catalogue whose aspect ratio is closest. It then writes the image at that size into `resize/`, either cropped to an anchor (CROP, one of nine anchors) or fitted onto a background (FIT). Its second run writes every other file, mirrored, into `flipped/`. A stop button ends the loop between two files.
- **`batch_processor.py`: the concurrent batch tool.** It does the same work in a thread pool. It adds a dropdown of manual output sizes next to "AUTO", and hands results back in completion order.
- **`image_cropper.py`: the interactive cropper.** It loads an image and shrinks it to 2000 pixels at most. It scales the image into the window, then lets the user draw, move, centre and nudge a selection. Aspect ratios are 1:1, 1216:832 or 832:1216; a fixed-size mode places exactly one catalogue size. The image can be rotated by quarter turns, rotated freely by dragging, mirrored and zoomed. The selection survives every redraw, and unique output file names are chosen on save.

The model is organised as follows.

- `common.dfy` holds `Option`, `Result` and Python's float truncation `int(x)` and float modulo.
- `numerals.dfy` holds decimal and hexadecimal numerals.
- `paths.dfy` holds `str.lower`, `os.path.splitext`, `os.path.join` and `basename`.
- `resolutions.dfy` holds the catalogue and the nearest-ratio search, both as a function and as the nested loop the source runs.
- `geometry.dfy` holds the nine anchors, the crop window and the fit layout.
- `parsing.dfy` holds the size strings of the dropdown and the `#rrggbb` background colour.
- `file_selection.dfy` holds which files a run picks, in which order, and what it calls its outputs.
- `processing.dfy` holds what both tools share: `ProcessStatus`, folder validation, the outputs written, progress, and the stop button.
- `batchresizer.dfy` holds the sequential tool. `ImageProcessor` is a class whose run methods update the status flags, the progress bar, the status line and the log of files written.
- `completion.dfy` and `batchprocessor.dfy` hold the concurrent tool. The pool is a completion order (any permutation of the jobs) plus the set of workers that saw the stop flag. `BatchProcessor` is a class like `ImageProcessor`.
- `selection.dfy` holds the cropper's rectangle arithmetic. It covers canvas placement, dragging, clamping, ratio locking, centring, save and restore around a redraw, the fixed-size placement and the conversion back to image pixels.
- `orientation.dfy` holds the quarter-turn angle, the free-rotation angle, and how rotate and flip move a pixel on screen and in the saved file.
- `cropper_files.dfy` holds which dropped files the cropper opens, and how it names output files.
- `cropper.dfy` holds `ImageCropper`: the editing session as a class whose handlers update its fields. A ghost `State()` snapshot states each handler's new state in full.

Abstractions used throughout:

- **Images and files.**
  - Pixels are not modelled. An image is its `Size`.
  - The file system is a `map<string, Size>` of files that decode, plus a `set<string>` of existing paths.
  - The files written are a log: a `seq<string>` of output paths in the order they are saved. It is not the folder's contents (see "Left out").
- **Stop button.** The stop presses the window handles while the loop runs are a `seq<bool>`.
- **Cropper inputs.**
  - The viewport size, the size of a freshly opened file and the size after a free rotation are parameters.
  - Delayed callbacks run at once.
- **Arithmetic.** Floats are exact reals. Python's `int()` on a float is truncation toward zero. Python's `//` on a positive divisor is Dafny's `/` on `int`.

## Model

| member | source | states |
|---|---|---|
| Common.Trunc | batchresizer.py:310 | `int(x)` of a float truncates toward zero: below or at x for x ≥ 0, above or at x for x ≤ 0, within one |
| Common.FMod | image_cropper.py:435-439 | a float `% 360` with positive divisor lands in [0, m) and differs from x by a whole multiple of m |
| Numerals.Dec | batch_processor.py:76-77 | `f"{n}"` is a non-empty digit string, one digit exactly when n < 10 |
| Numerals.DecRoundTrip | batch_processor.py:301 | reading back the decimal numeral of n gives n |
| Numerals.LeadingZeros | image_cropper.py:1013 | zero padding keeps a numeral's value |
| Numerals.Pad3 | image_cropper.py:1013 | `f"{n:03d}"` has at least three digits |
| Numerals.Pad3Value | image_cropper.py:1013 | the padded counter reads back as the counter |
| Numerals.Pad3Injective | image_cropper.py:1013 | distinct counters give distinct padded numerals |
| Numerals.ParseDec | batch_processor.py:301 | `int(s)` on a field of the size string succeeds exactly for non-empty digit strings |
| Numerals.Hex2RoundTrip | batchresizer.py:322 | a channel written as two hex digits reads back as itself |
| Numerals.ParseHexField | batchresizer.py:322 | `int(s, 16)` of at most two characters: the hex value for hex digits, never outside -15..255 |
| Paths.Lower | batchresizer.py:245 | lower-casing keeps the length |
| Paths.Splitext | batchresizer.py:245 | stem + extension is the path; the extension is empty or one dot followed by no dot or separator |
| Paths.JoinParts | batchresizer.py:258-260 | `os.path.join` ends with the name and, for a relative name, starts with the folder followed by a separator |
| FileSelection.FilterSupported | batchresizer.py:243-245 | a listed name is kept exactly when its lower-cased extension is supported |
| FileSelection.FilterSupportedKeepsOrder | batchresizer.py:243-245 | filtering keeps the listing's order: a listing split in two filters part by part, results joined in the same order |
| FileSelection.FilterSupportedSingle | batchresizer.py:243-245 | a single name is kept exactly when it is supported |
| FileSelection.DotFileIsSkipped | batchresizer.py:245 | a file called ".png" has no extension and is not selected |
| FileSelection.LessEqTotal | batchresizer.py:361-362 | Python's string order is total |
| FileSelection.LessEqTransitive | batchresizer.py:361-362 | Python's string order is transitive |
| FileSelection.SortNames | batchresizer.py:361-362 | `sorted` keeps the multiset of names |
| FileSelection.SortNamesSorted | batchresizer.py:361-362 | `sorted` returns a non-decreasing arrangement of the same names |
| FileSelection.SortedPairwise | batchresizer.py:361-362 | in a sorted list every earlier name is at most every later one |
| FileSelection.EveryOtherSpec | batchresizer.py:365 | `[::2]` has ⌈n/2⌉ entries, the k-th being entry 2k |
| FileSelection.FlipSelectionSpec | batchresizer.py:360-365 | the flip run takes the 1st, 3rd, 5th … supported file in sorted order |
| FileSelection.OutputNameSpec | batchresizer.py:259-260 | the output name keeps the stem and ends in ".png", and is itself a supported name |
| Parsing.Split | batch_processor.py:301 | `split` returns at least one piece, none containing the separator |
| Parsing.SplitJoin | batch_processor.py:301 | joining the pieces with the separator gives the string back |
| Parsing.ParseSize | batch_processor.py:299-302 | `map(int, size.split('x'))` yields a size exactly when there are two digit fields |
| Parsing.FormatSize | batch_processor.py:76-77 | the formatted size contains the separator 'x' |
| Parsing.SizeRoundTrip | batch_processor.py:299-302 | parsing `f"{w}x{h}"` gives (w, h) back |
| Parsing.SizeOptions | batch_processor.py:76-77 | the dropdown is "AUTO" then each catalogue size, in catalogue order |
| Parsing.SizeOptionsParse | batch_processor.py:299-302 | "AUTO" is not a size; every other option parses to its catalogue entry |
| Parsing.Slice | batchresizer.py:322 | Python slicing: the plain slice when in range, never longer than j - i |
| Parsing.ParseHexColor | batchresizer.py:322 | the colour parses exactly when each of the slices [1:3], [3:5], [5:7] parses as hex |
| Parsing.WellFormedColour | batchresizer.py:322 | a `#` and six hex digits give three channels of two digits each, all in 0..255 |
| Parsing.FormatHexColor | batchresizer.py:322 | a colour is written as `#` and six hex digits |
| Parsing.ColourRoundTrip | batchresizer.py:322 | parsing a written colour gives the colour back |
| Parsing.HexFields | batchresizer.py:322 | "FF" reads as 255 and "F" as 15 |
| Parsing.DefaultColourIsWhite | batchresizer.py:78 | the default "#FFFFFF" is (255, 255, 255) |
| Parsing.MalformedColours | batchresizer.py:322 | "#FFF" raises; "FFFFFF" is read as (255, 255, 15) |
| Resolutions.Candidates | batchresizer.py:10-24 | the catalogue offers seven sizes, all positive |
| Resolutions.CandidatesFlattenCatalogue | batchresizer.py:10-24 | the seven candidates are the buckets' variants in dictionary order |
| Resolutions.BucketsAreMirrorPairs | batchresizer.py:10-24 | each two-entry bucket holds a landscape size and its portrait mirror |
| Resolutions.CatalogueEntriesPositive | batchresizer.py:10-24 | every catalogue size has positive sides |
| Resolutions.BestIndex | batchresizer.py:143-158 | the strict-`<` scan ends on the first entry of least ratio distance |
| Resolutions.FirstMinimumUnique | batchresizer.py:143-158 | an index of least score that beats every earlier one is the scan's answer |
| Resolutions.BestResolution | batchresizer.py:143-158 | the answer is a positive catalogue entry |
| Resolutions.ScanStep | batchresizer.py:150-156 | one turn of the inner loop keeps "best is the first minimum of what was seen" |
| Resolutions.ScanVariants | batchresizer.py:150-156 | the inner loop over one bucket extends that invariant over the bucket |
| Resolutions.ScanBuckets | batchresizer.py:149-158 | the nested loop returns the first minimum of the flattened catalogue |
| Resolutions.FindBestResolution | batchresizer.py:143-158 | the loop returns `BestResolution`, whose score is at most every candidate's |
| Resolutions.LandscapeExample | batchresizer.py:143-158 | 1200x800 gets 1216x832 |
| Resolutions.ExactMatchExample | batchresizer.py:143-158 | 1216x832 gets itself |
| Resolutions.SquareExample | batchresizer.py:143-158 | every square image gets 1024x1024 |
| Resolutions.TieExample | batchresizer.py:143-158 | for 8x7, 1024x1024 and 1152x896 tie and the earlier entry wins |
| Geometry.ParseAlignMode | batchresizer.py:286 | `AlignMode[name]` finds the member of that name, or fails when no member has it |
| Geometry.AlignNameRoundTrip | batchresizer.py:26-35 | every anchor is found under its own name |
| Geometry.ScaledCovers | batchresizer.py:165-167 | truncating a side scaled by at least t/n gives at least t |
| Geometry.ScaledWithin | batchresizer.py:309-310 | truncating a side scaled by at most t/n gives at most t |
| Geometry.ScaledExact | batchresizer.py:165-167 | truncating a side scaled by exactly t/n gives t |
| Geometry.CoverRatioIsMax | batchresizer.py:165 | the cover ratio is the larger side ratio |
| Geometry.CoverScaling | batchresizer.py:165-167 | the scaled image reaches the target on both sides, the deciding side exactly |
| Geometry.ScaleCovers | batchresizer.py:165-167 | any ratio at least both side ratios covers the target |
| Geometry.CoverCovers | batchresizer.py:165-167 | the cover scaling covers the target |
| Geometry.CoverExact | batchresizer.py:165-167 | one side of the cover scaling equals the target exactly |
| Geometry.CropBoxSpec | batchresizer.py:160-183 | for every anchor, the window is exactly the target size and inside the scaled image; top/left anchors start at 0, bottom/right end at the edge, centre margins differ by at most one |
| Geometry.ScaleWithin | batchresizer.py:309-310 | any ratio at most both side ratios stays within the target |
| Geometry.FitRatioIsMin | batchresizer.py:309 | the fit ratio is the smaller side ratio |
| Geometry.FitScaling | batchresizer.py:309-310 | the fit scaling stays within the target, the deciding side exactly |
| Geometry.FitWithin | batchresizer.py:309-310 | the fit scaling stays within the target on both sides |
| Geometry.FitExact | batchresizer.py:309-310 | one side of the fit scaling equals the target exactly |
| Geometry.FitSpec | batchresizer.py:309-327 | the fitted image lies inside the canvas, centred with floor division, filling one side |
| Geometry.FitExample | batchresizer.py:309-327 | 2000x1000 into 1024x1024 is 1024x512 pasted at (0, 256) |
| Geometry.PlansHaveTargetSize | batchresizer.py:302-327 | both CROP and FIT save an image of exactly the target size |
| Processing.ProcessStatus.constructor | batchresizer.py:37-40 | a new status is neither running nor stopping |
| Processing.ValidateFolder | batchresizer.py:402-412 | a folder is accepted exactly when it is non-empty and exists |
| Processing.CountTrue | batchresizer.py:262-263 | the success counter never exceeds the files seen |
| Processing.CountTrueMultiset | batchresizer.py:262-263 | the success counter is the number of successes, whatever their order |
| Processing.Written | batchresizer.py:254-268 | the log of writes keeps what was logged before and grows by exactly one entry per success so far |
| Processing.WrittenMembers | batchresizer.py:254-268 | every new log entry is the output path of an earlier success, and every success's output path is logged |
| Processing.Progress | batchresizer.py:264 | progress is non-negative |
| Processing.ProgressBounded | batchresizer.py:264 | progress is at most 100, positive after a success, and 100 exactly when every file succeeded |
| Processing.FirstClick | batchresizer.py:255-256 | the first stop press among the first n rounds, or n |
| Processing.FirstClickStable | batchresizer.py:255-256 | a stop press once seen stays the first |
| Processing.FirstClickNext | batchresizer.py:255-256 | one more round finds the press made in it, if none came before |
| Processing.Attempted | batchresizer.py:254-268 | the loop attempts every file, or stops after the first round with a stop press |
| Processing.AttemptedSpec | batchresizer.py:254-268 | without a press every file is attempted; a first press after file k stops the loop after k + 1 |
| Processing.FinishStatus | batchresizer.py:270-279 | the run ends "stopped" exactly when a stop press came in time, otherwise "done"; the running flags are cleared afterwards by `RunFiles` |
| Processing.FinishWritten | batchresizer.py:254-268 | the run writes one file per success among the attempted files |
| Processing.FinishUninterrupted | batchresizer.py:254-273 | with no stop press, progress ends at 100 × successes / files and every success is written |
| BatchResizer.ResizeImage | batchresizer.py:283-338 | the image is written exactly when the anchor name is known, it decodes, in FIT mode the fitted size keeps both sides (PIL refuses a zero side), and a needed colour parses; it comes out at the nearest catalogue size, cropped exactly in CROP mode |
| BatchResizer.ResizeOutputPathSpec | batchresizer.py:258-260 | a resize output is "<stem>.png" inside `<folder>/resize` |
| BatchResizer.ResizeWritten | batchresizer.py:254-268 | every file the loop writes is a ".png" inside the resize folder and the output of a success |
| BatchResizer.ImageProcessor.constructor | batchresizer.py:43-46 | a new tool is idle with empty progress and nothing written |
| BatchResizer.ImageProcessor.StopProcessing | batchresizer.py:425-429 | stop raises the flag and shows "stopping" only while a run is in progress |
| BatchResizer.ImageProcessor.AfterFile | batchresizer.py:262-268 | a success bumps the counter, progress and status; a press in this round raises the stop flag |
| BatchResizer.ImageProcessor.Conclude | batchresizer.py:270-279 | after the loop the window is `Finish` of the run: stopped or done, still marked running; `RunFiles` clears the flags in its `finally` step |
| BatchResizer.ImageProcessor.ProcessFiles | batchresizer.py:254-268 | the loop leaves every file before the stop handled and stops exactly at the first press |
| BatchResizer.ImageProcessor.RunFiles | batchresizer.py:254-279 | a run over files ends in `Finish` of their outcomes, targets and presses |
| BatchResizer.ImageProcessor.RunResizeProcessing | batchresizer.py:223-281 | a second request during a run changes nothing; otherwise the window ends as `ResizeRun` says: a folder or empty-listing message, or the finished run |
| BatchResizer.ImageProcessor.RunFlipProcessing | batchresizer.py:340-400 | as the resize run, over every other sorted file, written under the same name into `flipped` |
| BatchProcessing.ProcessImage | batch_processor.py:262-338 | the worker writes exactly when the image decodes, the size parses, the resized size keeps both sides (PIL refuses a zero side), and the anchor (CROP) or a needed colour (FIT) parses; the output has the chosen size, cropped exactly in CROP mode |
| Geometry.CropResizeNonEmpty | batch_processor.py:305-310 | with a target of positive sides the CROP resize never has a zero side |
| Geometry.ThinFitEmpty | batch_processor.py:313-317 | an image more than `target.height` times taller than wide fits to width 0 |
| BatchProcessing.AgreesWithSequentialTool | batch_processor.py:286-298 | with "AUTO" and a known anchor the worker does what the sequential tool does |
| BatchProcessing.AlignmentOnlyMattersForCrop | batch_processor.py:305-330 | in FIT mode with a transparent canvas an unknown anchor name fails the sequential tool, while the worker writes exactly when the fitted size keeps both sides |
| BatchProcessing.ThinImageFitFails | batch_processor.py:313-317 | a 1x10000 image fails in FIT mode in both tools, because its fitted width truncates to 0 |
| BatchProcessing.ManualSizesAreExact | batch_processor.py:299-302 | every manual dropdown entry brings the image to exactly that size |
| BatchProcessing.Survivors | batch_processor.py:271-272 | a worker writes when its image succeeds and it did not see the stop flag first |
| BatchProcessing.NoStopNoneCancelled | batch_processor.py:271-272 | without a stop press no worker finds the flag raised: every worker returns its own outcome |
| BatchProcessing.UninterruptedRun | batch_processor.py:341-374 | with no stop press, whatever the completion order, the run ends "done" with progress 100 × successes / files and every success written |
| BatchProcessing.StoppedRunStillWrites | batch_processor.py:352-366 | a press after the first of two results ends the loop with both files written and progress 50 |
| BatchProcessing.BatchProcessor.constructor | batch_processor.py:44-50 | a new tool is idle with empty progress and nothing written |
| BatchProcessing.BatchProcessor.StopProcessing | batch_processor.py:497-501 | stop raises the flag and shows "stopping" only while a run is in progress |
| BatchProcessing.BatchProcessor.TakeResult | batch_processor.py:352-363 | one result bumps the counter and status on success, and a press raises the stop flag |
| BatchProcessing.BatchProcessor.CollectResults | batch_processor.py:352-366 | the result loop tallies every result taken and stops exactly at the first press |
| BatchProcessing.BatchProcessor.RunPool | batch_processor.py:341-381 | the pool ends in `ParallelFinish` of the results in completion order |
| BatchProcessing.BatchProcessor.RunJobs | batch_processor.py:341-368 | the jobs end in `PoolFinish` of the files, the completion order and the cancelled workers |
| BatchProcessing.BatchProcessor.RunResizeProcessing | batch_processor.py:214-383 | a second request during a run changes nothing; otherwise the window ends as `ResizeRun` says |
| BatchProcessing.BatchProcessor.RunFlipProcessing | batch_processor.py:387-471 | as the resize run, over every other sorted file, mirrored into `flipped` |
| Completion.PickRange | batch_processor.py:341-350 | taking the results in submission order gives them back unchanged |
| Completion.Rearranged | batch_processor.py:352-366 | in any completion order the results are a rearrangement of those submitted |
| Completion.RearrangedCount | batch_processor.py:352-366 | the number of successes does not depend on the completion order |
| Completion.RearrangedWritten | batch_processor.py:352-366 | in any completion order the files written are exactly the outputs of the successes |
| Orientation.RotatedAngle | image_cropper.py:1027 | the new angle is in [0, 360), stays a quarter turn, and is the old one plus 90 below 270 |
| Orientation.MirroredAngle | image_cropper.py:393-409 | the corrected flip keeps a quarter-turn angle and negates it modulo 360 |
| Orientation.FourRotations | image_cropper.py:1027 | four rotate presses give the angle back |
| Orientation.FreeAngle | image_cropper.py:435-439 | the free angle is in [0, 360) |
| Orientation.FreeAngleAtStart | image_cropper.py:435-439 | before the cursor moves the free angle is the starting angle |
| Orientation.FreeAngleFullCircle | image_cropper.py:435-439 | dragging 1200 pixels further gives the same angle |
| Orientation.TurnCW | image_cropper.py:1028 | a quarter turn clockwise keeps pixels inside the (swapped) image |
| Orientation.Mirror | image_cropper.py:393-409 | the mirror keeps pixels inside the image |
| Orientation.MirrorTwice | image_cropper.py:393-409 | mirroring twice gives the image back |
| Orientation.FourTurns | image_cropper.py:1028 | four quarter turns are no turn |
| Orientation.MirrorTurns | image_cropper.py:918-923 | mirroring after k turns is turning the other way after mirroring |
| Orientation.DisplayedRotateFlip | image_cropper.py:393-409 | after rotate then flip the canvas shows the rotated image mirrored |
| Orientation.FlagsAfter | image_cropper.py:393-409 | the presses leave a quarter-turn angle |
| Orientation.RotateThenFlipTurnsHalfway | image_cropper.py:879-923 | as written, after rotate then flip every saved pixel is half a turn from where the canvas shows it |
| Orientation.RotateThenFlipMisplaces | image_cropper.py:879-923 | as written, rotate then flip saves a different pixel where the canvas showed the top-left one |
| Orientation.RotateThenFlipExample | image_cropper.py:879-923 | a 2x2 image: the pixel shown top-left is saved bottom-right |
| Orientation.FlagsCorrected | image_cropper.py:393-409 | the corrected flags also leave a quarter-turn angle |
| Orientation.SaveMatchesDisplay | image_cropper.py:879-923 | with the corrected flags the saved file shows every pixel where the canvas did, for any presses |
| Orientation.FlagsAgreeAtHalfTurns | image_cropper.py:393-409 | the two flag rules agree while every flip comes at 0 or 180 degrees |
| Selection.ModeRatio | image_cropper.py:73-78 | the ratios are positive; square exactly for 1:1, wider exactly for 1216:832 |
| Selection.FixedDimensions | image_cropper.py:1173-1189 | the fixed size is a positive catalogue entry in the mode's ratio |
| Selection.ScaledSize | image_cropper.py:278-282 | each side is the scaled side truncated |
| Selection.DrawBounds | image_cropper.py:312-349 | the image occupies the scaled size, centred to within one unit, and its centre lies inside it |
| Selection.Clamp | image_cropper.py:699-710 | the clamp lands in [lo, hi] and keeps values already there |
| Selection.Nudge | image_cropper.py:486-523 | an arrow key moves the selection one unit when it stays inside, otherwise not at all; the size never changes |
| Selection.NudgeUndo | image_cropper.py:486-523 | an accepted nudge is undone by the opposite key |
| Selection.DragPosition | image_cropper.py:699-710 | the dragged corner stays inside the image and follows the cursor when it can |
| Selection.ConstrainToImage | image_cropper.py:712-718 | the cursor is pulled into the image and kept when already inside |
| Selection.RatioHeight | image_cropper.py:720-746 | the height stands in the mode's ratio to the width |
| Selection.RatioWidth | image_cropper.py:720-746 | the width stands in the mode's ratio to the height |
| Selection.DraggedRect | image_cropper.py:720-752 | the drawn selection is non-negative, in the mode's ratio, square of the shorter drag in 1:1, anchored at the press, and inside the image when it fits |
| Selection.CentreOn | image_cropper.py:1314-1348 | the selection keeps its size, is centred on the cursor when possible, and stays inside the image when it fits |
| Selection.CentredClickInside | image_cropper.py:1314-1348 | a centred selection contains the click |
| Selection.ClampCorners | image_cropper.py:670-677 | every corner lands inside the image; a rectangle already inside is kept |
| Selection.Resized | image_cropper.py:622-669 | the dragged edge follows the cursor, the opposite edge stays, the side is at least 10 and in the mode's ratio |
| Selection.ResizeByEdge | image_cropper.py:622-677 | the resized selection has every corner inside the image, and is the unclamped one when that fits |
| Selection.RestoreScalesOffsets | image_cropper.py:1465-1501 | restoring after a redraw scales every corner's offset from the centre by the scale change |
| Selection.RestoreRecentres | image_cropper.py:1465-1501 | at the same scale restoring shifts the selection with the centre |
| Selection.RestoreRoundTrip | image_cropper.py:1465-1501 | restoring at the saved centre and scale gives the selection back |
| Selection.Snap | image_cropper.py:1135-1147 | `(v // step) * step` is a multiple of step at or below v, and -step for small negatives |
| Selection.FixedOrigin | image_cropper.py:1099-1147 | the fixed-size origin is a multiple of the size, at a click's snapped position, or centred |
| Selection.CentredFixedMissesSmallImage | image_cropper.py:1118-1121 | as written, 1:1 on an 800x800 image places the selection at (-1024, -1024) |
| Selection.FixedOriginClamped | image_cropper.py:1118-1147 | clamped, the centred origin is non-negative and starts inside the image |
| Selection.ToImageSpace | image_cropper.py:938-953 | `_convert_coords_to_image_space`, which nothing calls: the top-left is truncated, the bottom-right rounded, relative to the image and over the scale |
| Selection.PlacedImageEdges | image_cropper.py:928-931 | a rectangle placed at whole image pixels reads back, relative to the image and over the scale, as exactly those pixels, before the factor and the truncation |
| Selection.PlacedSavedUnscaled | image_cropper.py:925-936 | when the display was not shrunk, the saved crop box of a rectangle placed at whole image pixels is exactly those pixels |
| Selection.FixedRectSaved | image_cropper.py:925-936 | when the display was not shrunk, a fixed-size selection is saved as exactly the fixed size at its origin |
| Selection.ShrunkFileSavesScaledFixed | image_cropper.py:925-934 | for a file shrunk to half size for display, the save path crops a 1:1 fixed-size selection at the corner to 2048 by 2048 pixels |
| Selection.AxisEdges | image_cropper.py:928-931 | along one axis, a span placed at whole image pixels reads back before rounding as exactly its start and end |
| Selection.PlacedToImageSpace | image_cropper.py:938-953 | under the unused conversion, a rectangle placed at whole image pixels converts back to exactly those pixels |
| Selection.FixedRectToImageSpace | image_cropper.py:938-953 | under the unused conversion, a fixed-size selection converts back to exactly the fixed size |
| CropperFiles.SupportedIsValid | image_cropper.py:1412-1415 | every file the batch tools select, the cropper opens |
| CropperFiles.ValidNotSupported | image_cropper.py:1412-1415 | the cropper opens ".png", which the batch tools skip |
| CropperFiles.DroppedFilePath | image_cropper.py:1402-1410 | the dropped path is the data, or the data without its surrounding braces |
| CropperFiles.DroppedUnwraps | image_cropper.py:1402-1410 | a path wrapped in braces is recovered exactly |
| CropperFiles.BaseFilename | image_cropper.py:997-1001 | "cropped" without a file, else the file's name without directory or extension |
| CropperFiles.CandidateName | image_cropper.py:1008-1013 | each tried name is non-empty and starts like the base name |
| CropperFiles.CandidateInjective | image_cropper.py:1008-1013 | different counters give different paths |
| CropperFiles.CandidateFresh | image_cropper.py:1008-1013 | a later candidate is none of the earlier ones |
| CropperFiles.TriedExist | image_cropper.py:1012-1014 | every candidate the loop skipped exists |
| CropperFiles.GenerateUniqueFilePath | image_cropper.py:1003-1016 | "<base>.png" without a folder; otherwise the first candidate that does not exist |
| Cropper.DisplaySize | image_cropper.py:768-776 | a loaded image is shrunk to at most 2000 on each side, never enlarged, kept when small, with one side exactly 2000 when large |
| Cropper.InitialScaleFits | image_cropper.py:803-830 | the initial scale is positive and the scaled image fits the window less the 50-unit margin |
| Cropper.InitialScale | image_cropper.py:803-830 | the initial scale is positive |
| Cropper.FixedSelectionCoversTarget | image_cropper.py:1099-1156 | under the unused conversion the fixed-size selection converts back to exactly the mode's catalogue size in image pixels, the size label reads that size, and the origin lies on the grid, never left of or above the image |
| Cropper.FixedSelectionSaved | image_cropper.py:925-936 | when the opened file was not shrunk for display (factor 1), the save path crops the fixed-size selection to exactly the mode's catalogue size at its grid origin |
| Cropper.ImageCropper.constructor | image_cropper.py:22-78 | the session starts with no image, scale 1, angle 0, 1:1 mode, no selection |
| Cropper.ImageCropper.SaveRectInfo | image_cropper.py:1465-1484 | the saved info exists exactly with a selection, records its size, and restores it at the same centre and scale |
| Cropper.ImageCropper.CreateRect | image_cropper.py:1430-1463 | the selection becomes the rectangle and its size is recorded; nothing else changes |
| Cropper.ImageCropper.RestoreRectFromInfo | image_cropper.py:1486-1501 | the selection is rebuilt around the current centre at the current scale, or left alone without info |
| Cropper.ImageCropper.DisplayImage | image_cropper.py:259-286 | the image is redrawn centred at the current scale and the selection follows; when the scaled size has a zero side the resize raises first and nothing changes |
| Cropper.ThinImageNotDrawable | image_cropper.py:280-286 | an image more than the available height times taller than wide has width 0 at its initial scale, so it cannot be drawn |
| Cropper.ThinLoadExample | image_cropper.py:760-787 | a 1x2000 file in a 1000x800 window is not shrunk and cannot be drawn at its initial scale |
| Cropper.ImageCropper.DisplayAndRestore | image_cropper.py:400-409 | after a redraw the selection follows the image's centre and scale; a redraw that raises ends the handler with nothing changed |
| Cropper.ImageCropper.LoadImageFromPath | image_cropper.py:760-787 | a file that opens is shown shrunk, at the initial scale, angle 0, no selection; when the image at that scale has a zero side, the image, path, scale and angle are set and the selection cleared, but the old bounds stay; a file that fails to open changes nothing |
| Cropper.ImageCropper.InitImageSettings | image_cropper.py:803-830 | the angle returns to 0, the scale is the initial scale, the selection is dropped |
| Cropper.ImageCropper.OnDrop | image_cropper.py:1394-1400 | a dropped file with a valid extension that opens is loaded: shrunk, at the initial scale, angle 0, no selection, the rest of the session kept; a file with another extension or that fails to open changes nothing; an image with a zero side at the initial scale is set up but the old bounds stay |
| Cropper.ImageCropper.RotateImage | image_cropper.py:1019-1035 | with an image shown, the angle advances a quarter turn, the image's sides swap and the selection keeps its size, recentred on the redrawn image; when the turned image has a zero side at the scale, only the angle and the image change; without an image nothing changes |
| Cropper.ImageCropper.TurnQuarter | image_cropper.py:1027-1028 | the angle advances a quarter turn and the image's sides swap; nothing else changes |
| Cropper.ImageCropper.FlipHorizontal | image_cropper.py:393-409 | the mirror flag toggles and, as corrected, the quarter-turn angle is negated; the selection follows the redraw, which keeps the old bounds and selection when the scaled image has a zero side |
| Cropper.ImageCropper.ClearOrientation | image_cropper.py:373-376 | both angles return to 0, rotation and mirroring end; the selection info is kept |
| Cropper.ImageCropper.ResetRotation | image_cropper.py:364-391 | the file is reopened unrotated at the same scale and the selection follows the redraw; a reopened image with a zero side at that scale keeps the old bounds and selection |
| Cropper.ImageCropper.StartFreeRotation | image_cropper.py:411-424 | the drag's start and starting angle are recorded |
| Cropper.ImageCropper.DoFreeRotation | image_cropper.py:426-442 | while rotating, the angle is 0.3 degrees per pixel dragged, modulo 360, and the rotated copy is redrawn unless its scaled size has a zero side |
| Cropper.ImageCropper.ApplyRotation | image_cropper.py:444-470 | while rotating, the rotated image is shown and the selection follows; a copy with a zero side at the scale is recorded but the old bounds and selection stay |
| Cropper.ImageCropper.EndFreeRotation | image_cropper.py:472-484 | the free rotation ends; nothing else changes |
| Cropper.ImageCropper.ZoomWithKey | image_cropper.py:1055-1064 | the scale is multiplied by the factor and the selection follows; factor 1 changes nothing; a scale at which a side is 0 is kept but the redraw raises and the bounds and selection stay |
| Cropper.ImageCropper.UpdateZoomScale | image_cropper.py:1066-1071 | the scale is multiplied by 1.1 for a wheel turned up and by 0.9 otherwise, so it always changes; nothing else changes |
| Cropper.ImageCropper.ZoomWithMousewheel | image_cropper.py:1044-1053 | the scale grows by 1.1 or shrinks by 0.9 with the wheel direction and the selection follows; a scale at which a side is 0 is kept but the bounds and selection stay |
| Cropper.ImageCropper.MoveRect | image_cropper.py:486-523 | an arrow key nudges the selection; nothing else changes |
| Cropper.ImageCropper.StartRectMovement | image_cropper.py:1362-1368 | moving starts with the cursor's offset from the selection's corner |
| Cropper.ImageCropper.MoveRectToCenter | image_cropper.py:1314-1348 | the selection is centred on the cursor and moving starts |
| Cropper.ImageCropper.CreateFixedRect | image_cropper.py:1099-1156 | the session becomes `WithFixedRect`: the fixed-size selection at the click, or centred with the corrected clamp |
| Cropper.ImageCropper.StoreInitialPosition | image_cropper.py:1350-1353 | the press point is recorded; nothing else changes |
| Cropper.ImageCropper.HandleNewRect | image_cropper.py:1379-1383 | no selection is being moved, and with fixed size on the fixed-size selection is placed at the press |
| Cropper.ImageCropper.OnPress | image_cropper.py:1302-1312 | the press point is recorded; a press inside the selection starts moving it at the press offset; elsewhere the selection is recentred on the press and moving starts; without one nothing is moving and a fixed-size one is placed at the press; nothing else changes |
| Cropper.ImageCropper.HandleRectMovement | image_cropper.py:613-620 | the selection follows the cursor at the press offset, size kept, inside the image |
| Cropper.ImageCropper.HandleRectCreation | image_cropper.py:690-697 | the selection is redrawn from the press to the cursor, in the mode's ratio |
| Cropper.ImageCropper.OnDrag | image_cropper.py:526-536 | without an image nothing changes; a drag after a press on the selection moves it to the cursor at the press offset, clamped, size kept; otherwise with fixed size off the selection is redrawn from the press to the clamped cursor in the mode's ratio; else nothing changes |
| Cropper.ImageCropper.OnRelease | image_cropper.py:1385-1392 | moving ends; nothing else changes |
| Cropper.ImageCropper.OnDoubleClick | image_cropper.py:538-542 | a double click inside the selection removes it, elsewhere nothing |
| Cropper.ImageCropper.ChangeMode | image_cropper.py:1213-1217 | the mode changes; in fixed-size mode the centred selection is placed, otherwise it is dropped |
| Cropper.ImageCropper.ToggleFixedSize | image_cropper.py:1246-1253 | on places the centred fixed-size selection; off drops the selection |

## Left out

- The windows, the widgets and the drawing are not modelled: Tk, tkinterdnd2, dialogs, scroll bars, labels, buttons, `update_button_states`, `show_window` and `_update_size_labels`.
- Pixel work is not modelled: PIL's decode, convert, resize, crop, paste and save; the saved image is the plan of its size, crop window and canvas.
- The save path is modelled only in its orientation flags and its crop box (`Selection.SavedBox`, image_cropper.py:925-934). `save_crop`, `_get_save_path`, the file dialog, the rotation of pixels by `free_rotation_angle` and the crop of pixels are left out. The factor from display to original size is a parameter, because it comes from the reopened file's width.
- `Selection.ToImageSpace` models `_convert_coords_to_image_space` (image_cropper.py:938-953), which nothing in the program calls; the save path truncates all four edges instead, as `Selection.SavedBox` does.
- The right-button resize handlers (`on_right_press`, `on_right_drag`, `on_right_release`, image_cropper.py:544-611) are left out. They drive pixel-level canvas items only.
- `_handle_rect_resize` (image_cropper.py:622-677) is only reachable with `is_resizing` set, which nothing sets. Its arithmetic is modelled as `Selection.ResizeByEdge`, outside the class.
- `on_window_resize` is left out. It redraws with the stored scale; `DisplayAndRestore` states that effect.
- The `after(5)` timer of `do_free_rotation` runs its callback at once. The size of the freely rotated image is a parameter, because it comes from PIL's `rotate(expand=True)`.
- The first, dead definition of `resize_image` in batchresizer.py (185-205) is left out. Python uses the later definition (283-338).
- The thread pool is not modelled as threads. It is a completion order (any permutation of the jobs) plus the set of workers that found the stop flag raised. The `pil_lock` is not modelled.
- A folder that cannot be listed is modelled: the run ends with the failure message (`Failed`). Any other exception that reaches the `except` around a run, such as `os.makedirs` failing, is not modelled. The per-file `except` is modelled as a failed file.
- Files that fail to decode are absent from the image map. Decoded images have positive sides.
- The window size passed to the cropper's handlers is larger than the 50-unit margin, as any window that shows the buttons is.
- `Numerals.ParseDec`: accepts only plain digit strings. Python's `int` also accepts signs, underscores and spaces, but the dropdown only offers catalogue strings.
- `Paths.Lower`: lower-cases ASCII letters only. Python's `str.lower` covers all of Unicode.
- `Numerals.ParseHexField`: reads ASCII hex digits only. Python's `int(s, 16)` also reads decimal digits of other scripts (the fullwidth `０`, say), so `"#００FFFF"` is (0, 255, 255) in Python and no colour in the model.
- `Paths.Splitext`: splits at POSIX separators only (`posixpath`). On Windows `ntpath` also treats `\` and a drive prefix as separators.
- `Paths.JoinParts`: joins with `/` as `posixpath.join` does; `ntpath.join` uses `\` and handles drives.
- `CropperFiles.BaseFilename`: takes the name after the last `/` only, so on Windows a dropped `C:\dir\img.png` would give `C:\dir\img` where the source gives `img`.
- `CropperFiles.Basename`: splits at `/` only, as `posixpath.basename` does; `ntpath.basename` also splits at `\` and after a drive.
- `CropperFiles.CandidateName`: starts from `CropperFiles.BaseFilename`, so it inherits its POSIX-only separators; `CropperFiles.Candidate` joins it to the folder with `/`.
- `Cropper.FixedSelectionSaved`: is stated for factor 1 only. For a file shrunk for display the save path scales the fixed-size box by the factor, so the saved crop is not the catalogue size (`Selection.ShrunkFileSavesScaledFixed` gives an instance).
- `Processing.Written`: is a log of writes, not the folder's contents. Two inputs with the same stem (`a.jpg` and `a.png`) both write `resize/a.png`, so the second replaces the first. Outputs already in the folder are overwritten.
- `Cropper.ImageCropper.LoadImageFromPath`: a file whose shrunk size has a zero side is treated as a failed load. In Python, PIL would raise there. A redraw that raises (`Cropper.Drawable` false) is modelled, but the error dialog of `load_image_from_path` and the traceback Tk prints for the other handlers are not.
- `BatchProcessing.ProcessImage`: a manual size with a zero side (`"0x1024"`) is not refused: the empty output it plans is counted as written, while PIL's save of an empty image is not modelled. The size dropdown offers only catalogue sizes.
- `Cropper.ImageCropper.ResetRotation`: the reopened size is a parameter. As in the source, it is not shrunk to 2000 pixels and the scale is kept.
- `Cropper.ImageCropper.OnPress`: the drag offsets and start point are 0.0 where the source leaves `None`.
- `rect_relative_pos` and `current_rect_coords` are left out. They are written but never read.
- Floats are exact reals throughout, so rounding of IEEE doubles is not modelled.

## Findings

| source | as written | input that shows it | evidently intended | confidence | as-written member | corrected member |
|---|---|---|---|---|---|---|
| image_cropper.py:879-923 | `flip_horizontal` only toggles `is_flipped`, and `_get_cropped_image` always mirrors the file first and rotates it afterwards, while the canvas applied rotate and flip in the order pressed | a 2x2 image, rotate then flip: the pixel the canvas shows at the top-left is saved at the bottom-right | the saved file shows every pixel where the canvas did; a flip after an odd number of quarter turns negates the angle | not executed | Orientation.RotateThenFlipExample | Orientation.SaveMatchesDisplay |
| image_cropper.py:1118-1121 | the centred placement `(w - tw) // 2` is snapped to the grid without the clamp the click branch has | an 800x800 image in 1:1 mode with no click: origin (-1024, -1024), a selection covering none of the image | the origin is clamped at the image's top-left corner, as for a click | not executed | Selection.CentredFixedMissesSmallImage | Selection.FixedOriginClamped |

The as-written behaviour is kept as `Orientation.FlagsAfter` and `Selection.FixedOrigin`, with the lemmas above exhibiting each discrepancy. `ImageCropper` uses the corrected behaviour. `FlipHorizontal` negates the angle with `Orientation.MirroredAngle`, which is what `Orientation.FlagsCorrected` records. `CreateFixedRect`, `ChangeMode` and `ToggleFixedSize` place the selection with `Selection.FixedOriginClamped`. `Orientation.FlagsAgreeAtHalfTurns` shows that the two flag rules differ only for a flip made at 90 or 270 degrees. `Selection.FixedOriginClamped` shows that the two placements differ only for an image smaller than the fixed size with no click.
