/** The concurrent batch tool: the same catalogue and geometry as the
    sequential one, with a manual output size as an alternative to the
    automatic choice, and every image handed to a pool of worker threads.
    The window takes the results as they complete; a worker that starts after
    stop was pressed gives up at once, and a stop request ends the result
    loop but not the workers already at work. */
module BatchProcessing {
  import opened Common
  import opened Paths
  import opened FileSelection
  import opened Resolutions
  import opened Geometry
  import opened Parsing
  import opened Processing
  import opened Completion
  import BatchResizer

  // ---------------------------------------------------------------- one image

  /** The size one image is brought to: the closest catalogue entry for
      "AUTO" (the ratio divides by the height), otherwise the size string
      read back, which raises unless it is two decimal numbers. */
  function TargetSize(outputSize: string, img: Size): Result<Size, Failure>
  {
    if outputSize == "AUTO" then
      if img.height == 0 then Err(UnreadableImage) else Ok(BestResolution(img.width, img.height))
    else
      match ParseSize(outputSize)
      case None => Err(BadSize)
      case Some(size) => Ok(size)
  }

  /** `process_image` once the stop flag has been found down: open the file,
      choose the size, then CROP (the alignment name is looked up only here)
      or FIT (the colour is parsed only for an opaque canvas). A zero side
      fails on a division, and a resize to a size with a zero side fails in
      PIL. */
  function ProcessImage(settings: Settings, outputSize: string, decoded: Option<Size>): (r: Result<Plan, Failure>)
    ensures r.Ok? <==> ProcessSucceeds(settings, outputSize, decoded)
    ensures r.Ok? ==> Saves(r.value, TargetSize(outputSize, decoded.value).value)
    ensures r.Ok? ==> (r.value.Cropped? <==> settings.resizeMode == "CROP")
  {
    if decoded.None? then Err(UnreadableImage)
    else
      var img := decoded.value;
      match TargetSize(outputSize, img)
      case Err(e) => Err(e)
      case Ok(target) =>
        if settings.resizeMode == "CROP" then
          match ParseAlignMode(settings.alignMode)
          case None => Err(UnknownAlignMode)
          case Some(align) =>
            if !Positive(img) then Err(UnreadableImage)
            else if !Positive(CropBox(img, target, align).1) then Err(EmptyResize)
            else
              PlansHaveTargetSize(img, target, align, Transparent);
              Ok(CropPlan(img, target, align))
        else if !Positive(img) then Err(UnreadableImage)
        else if !Positive(Fit(img, target).scaled) then Err(EmptyResize)
        else if settings.useTransparent then
          PlansHaveTargetSize(img, target, Center, Transparent);
          Ok(FitPlan(img, target, Transparent))
        else
          match ParseHexColor(settings.bgColor)
          case None => Err(BadColour)
          case Some(c) =>
            PlansHaveTargetSize(img, target, Center, Solid(c));
            Ok(FitPlan(img, target, Solid(c)))
  }

  /** When `process_image` saves its output: the file decodes to a
      non-empty image, the size string is "AUTO" or parses, the image is
      resized to a size with no zero side, and CROP knows the alignment name
      while an opaque FIT can read the colour. */
  predicate ProcessSucceeds(settings: Settings, outputSize: string, decoded: Option<Size>)
  {
    && decoded.Some? && Positive(decoded.value)
    && (outputSize == "AUTO" || ParseSize(outputSize).Some?)
    && var target := TargetSize(outputSize, decoded.value).value;
       if settings.resizeMode == "CROP" then
         && ParseAlignMode(settings.alignMode).Some?
         && Positive(CropBox(decoded.value, target, ParseAlignMode(settings.alignMode).value).1)
       else
         && Positive(Fit(decoded.value, target).scaled)
         && (settings.useTransparent || ParseHexColor(settings.bgColor).Some?)
  }

  /** With "AUTO" and a known alignment name, an image comes out of the
      concurrent tool exactly as out of the sequential one. */
  lemma AgreesWithSequentialTool(settings: Settings, decoded: Option<Size>)
    requires ParseAlignMode(settings.alignMode).Some?
    ensures ProcessImage(settings, "AUTO", decoded) == BatchResizer.ResizeImage(settings, decoded)
  {
    if decoded.Some? && Positive(decoded.value) {
      var img := decoded.value;
      CropResizeNonEmpty(img, BestResolution(img.width, img.height), ParseAlignMode(settings.alignMode).value);
    }
  }

  /** A 1x10000 image fails in FIT mode in both tools: whichever catalogue
      size is chosen, the fitted width truncates to 0 and the resize
      raises. */
  lemma ThinImageFitFails(settings: Settings)
    requires settings.resizeMode != "CROP" && ParseAlignMode(settings.alignMode).Some?
    ensures BatchResizer.ResizeImage(settings, Some(Size(1, 10000))) == Err(EmptyResize)
    ensures ProcessImage(settings, "AUTO", Some(Size(1, 10000))) == Err(EmptyResize)
  {
    var img := Size(1, 10000);
    var best := BestResolution(1, 10000);
    assert best.height < 10000;
    ThinFitEmpty(img, best);
  }

  /** The two tools differ on an unknown alignment name in FIT mode: the
      sequential tool looks the name up first and fails, the concurrent one
      never looks it up. */
  lemma AlignmentOnlyMattersForCrop(settings: Settings, decoded: Option<Size>)
    requires settings.resizeMode != "CROP" && settings.useTransparent
    requires ParseAlignMode(settings.alignMode).None?
    requires decoded.Some? && Positive(decoded.value)
    ensures ProcessImage(settings, "AUTO", decoded).Ok?
        <==> Positive(Fit(decoded.value, BestResolution(decoded.value.width, decoded.value.height)).scaled)
    ensures BatchResizer.ResizeImage(settings, decoded) == Err(UnknownAlignMode)
  {
  }

  /** Every manual entry of the dropdown brings an image to exactly the
      catalogue resolution it names. */
  lemma ManualSizesAreExact(settings: Settings, decoded: Option<Size>, i: nat)
    requires 1 <= i < |SizeOptions()|
    requires ProcessSucceeds(settings, SizeOptions()[i], decoded)
    ensures Saves(ProcessImage(settings, SizeOptions()[i], decoded).value, Candidates()[i - 1])
  {
    SizeOptionsParse();
  }

  // ---------------------------------------------------------------- the workers

  /** Whether the worker for each file saved its output: it gives up when it
      starts after the stop flag went up (the jobs in `cancelled`), and
      otherwise succeeds as its own step says. */
  function Survivors(oks: seq<bool>, cancelled: set<nat>): (r: seq<bool>)
    ensures |r| == |oks|
    ensures forall k :: 0 <= k < |oks| ==> r[k] == (oks[k] && k !in cancelled)
  {
    if oks == [] then [] else Survivors(oks[..|oks| - 1], cancelled) + [oks[|oks| - 1] && (|oks| - 1) !in cancelled]
  }

  /** Only a worker whose result comes in after the round in which stop was
      pressed can have found the stop flag raised when it started: every
      result taken before that round came from a worker that ran. */
  predicate CancelledAfterStop(order: seq<nat>, cancelled: set<nat>, clicks: seq<bool>)
  {
    forall i :: 0 <= i < |order| && order[i] in cancelled ==> FirstClick(clicks, |order|) < i
  }

  /** Without a stop request no worker is cancelled: every one of them
      returns its own outcome. */
  lemma NoStopNoneCancelled(oks: seq<bool>, order: seq<nat>, cancelled: set<nat>, clicks: seq<bool>)
    requires IsOrder(order, |oks|) && CancelledAfterStop(order, cancelled, clicks)
    requires FirstClick(clicks, |order|) == |order|
    ensures Survivors(oks, cancelled) == oks
  {
    OrderInRange(order, |oks|);
    forall k | 0 <= k < |oks|
      ensures k !in cancelled
    {
      assert Range(|oks|)[k] == k;
      assert k in multiset(Range(|oks|));
      assert k in multiset(order);
      var i :| 0 <= i < |order| && order[i] == k;
    }
  }

  /** What the resize worker does to one file name. */
  function ProcessStep(settings: Settings, outputSize: string, folder: string, images: map<string, Size>): string -> bool
  {
    name => ProcessImage(settings, outputSize, Lookup(images, Join(folder, name))).Ok?
  }

  /** How the result loop leaves the window, with the results in completion
      order (`arrived`, with output paths `outputs`): status line and
      progress as for the sequential loop, but every surviving worker has
      written its file, also those whose result the loop never took after a
      stop. */
  function ParallelFinish(before: View, arrived: seq<bool>, outputs: seq<string>, clicks: seq<bool>, done: Message): View
    requires |arrived| == |outputs| && |arrived| > 0
  {
    Finish(before, arrived, outputs, clicks, done).(written := Written(before.written, outputs, arrived, |arrived|))
  }

  /** How a run over `files` that got past the checks leaves the window:
      each worker runs `step` unless it is in `cancelled`, the results come
      back in `order`, and `target` names each output. */
  function PoolFinish(before: View, files: seq<string>, step: string -> bool, target: string -> string,
                      order: seq<nat>, cancelled: set<nat>, clicks: seq<bool>, done: Message): View
    requires files != [] && IsOrder(order, |files|) && CancelledAfterStop(order, cancelled, clicks)
  {
    var results := Survivors(Outcomes(files, step), cancelled);
    var outputs := Targets(files, target);
    OrderInRange(order, |files|);
    ParallelFinish(before, Pick(results, order), Pick(outputs, order), clicks, done)
  }

  /** What `run_resize_processing` does to the window when no run is in
      progress; the results complete in `order` and the workers in
      `cancelled` start after the stop flag went up. */
  function ResizeRun(before: View, folder: string, existing: set<string>, listing: Option<seq<string>>,
                     images: map<string, Size>, settings: Settings, outputSize: string,
                     order: seq<nat>, cancelled: set<nat>, clicks: seq<bool>): View
    requires listing.Some? ==> IsOrder(order, |FilterSupported(listing.value)|)
    requires CancelledAfterStop(order, cancelled, clicks)
  {
    match ValidateFolder(folder, existing)
    case Some(m) => before.(message := m)
    case None =>
      match listing
      case None => before.(message := Failed)
      case Some(names) =>
        var files := FilterSupported(names);
        if files == [] then before.(message := NoImages)
        else
          PoolFinish(before, files, ProcessStep(settings, outputSize, folder, images), ResizeTarget(folder),
                     order, cancelled, clicks, ResizeDone)
  }

  /** What `run_flip_processing` does to the window when no run is in
      progress. */
  function FlipRun(before: View, folder: string, existing: set<string>, listing: Option<seq<string>>,
                   images: map<string, Size>, order: seq<nat>, cancelled: set<nat>, clicks: seq<bool>): View
    requires listing.Some? ==> IsOrder(order, |FlipSelection(listing.value)|)
    requires CancelledAfterStop(order, cancelled, clicks)
  {
    match ValidateFolder(folder, existing)
    case Some(m) => before.(message := m)
    case None =>
      match listing
      case None => before.(message := Failed)
      case Some(names) =>
        var files := FlipSelection(names);
        if files == [] then before.(message := NoImages)
        else
          PoolFinish(before, files, FlipStep(folder, images), FlipTarget(folder), order, cancelled, clicks, FlipDone)
  }

  /** Without a stop request the run ends with "done", progress from the
      number of successes whatever the completion order, and the outputs of
      the successful jobs written (`RearrangedWritten` says which those
      are). */
  lemma UninterruptedRun(before: View, oks: seq<bool>, outputs: seq<string>, order: seq<nat>,
                            clicks: seq<bool>, done: Message)
    requires |oks| == |outputs| && |oks| > 0 && IsOrder(order, |oks|)
    requires forall j :: 0 <= j < |oks| ==> !Clicked(clicks, j)
    ensures |order| == |oks| && Indexes(oks, order) && Indexes(outputs, order)
    ensures var v := ParallelFinish(before, Pick(oks, order), Pick(outputs, order), clicks, done);
      && v.message == done
      && v.progress == (if CountTrue(oks) > 0 then Progress(CountTrue(oks), |oks|) else before.progress)
      && v.written == Written(before.written, Pick(outputs, order), Pick(oks, order), |oks|)
  {
    var n := |oks|;
    OrderInRange(order, n);
    AttemptedSpec(clicks, n);
    assert Pick(oks, order)[..n] == Pick(oks, order);
    RearrangedCount(oks, order);
  }

  /** A stop pressed after the first of two results ends the loop with one
      success counted, yet the second worker, already at work, still writes
      its file: the window reports 50% while both outputs exist. */
  lemma StoppedRunStillWrites(before: View)
    ensures var v := ParallelFinish(before, [true, true], ["a.png", "b.png"], [true], ResizeDone);
      && v.message == Stopped
      && v.progress == 50.0
      && v.written == before.written + ["a.png", "b.png"]
  {
    var oks := [true, true];
    assert FirstClick([true], 2) == 0;
    assert oks[..1] == [true];
    assert CountTrue([true]) == 1;
    assert CountTrue(oks) == 2 by {
      assert oks[..1] == [true];
    }
  }

  // ---------------------------------------------------------------- the window

  /** `BatchProcessor`, reduced to the state the processing logic touches. */
  class BatchProcessor {
    const status: ProcessStatus
    var progress: real
    var message: Message
    var written: seq<string>

    constructor()
      ensures fresh(status) && status.Idle() && Valid()
      ensures progress == 0.0 && message == Waiting && written == []
    {
      status := new ProcessStatus();
      progress := 0.0;
      message := Waiting;
      written := [];
    }

    /** The stop flag is only ever raised during a run. */
    predicate Valid()
      reads this, status
    {
      status.isRunning || !status.shouldStop
    }

    function CurrentView(): View
      reads this
    {
      View(message, progress, written)
    }

    /** `stop_processing`: raises the stop flag only while a run is in
        progress. */
    method StopProcessing()
      requires Valid()
      modifies this, status
      ensures Valid()
      ensures status.isRunning == old(status.isRunning)
      ensures status.shouldStop == (old(status.shouldStop) || old(status.isRunning))
      ensures message == (if old(status.isRunning) then Stopping else old(message))
      ensures progress == old(progress) && written == old(written)
    {
      if status.isRunning {
        status.shouldStop := true;
        message := Stopping;
      }
    }

    /** One turn of the result loop: a success bumps the counter and shows
        it, and a stop pressed while the window handles its events
        (`clicks[k]`) raises the flag. */
    method TakeResult(ghost beforeProgress: real, ghost arrived: seq<bool>, clicks: seq<bool>,
                      k: nat, total: nat, processed: nat, success: bool) returns (count: nat)
      requires status.isRunning && !status.shouldStop
      requires Tally(beforeProgress, progress, status.shouldStop, arrived, clicks, k, processed)
      requires k < total == |arrived| && success == arrived[k]
      modifies this, status
      ensures status.isRunning && written == old(written)
      ensures Tally(beforeProgress, progress, status.shouldStop, arrived, clicks, k + 1, count)
      ensures message == (if Clicked(clicks, k) then Stopping else if success then Working(count, total) else old(message))
    {
      PrefixStep(arrived, k);
      count := processed;
      if success {
        count := count + 1;
        progress := Progress(count, total);
        message := Working(count, total);
      }
      if Clicked(clicks, k) {
        StopProcessing();
      }
      FirstClickNext(clicks, k);
    }

    /** The `as_completed` loop: the stop flag is checked before each
        result, and each success is counted and shown. Returns how many
        results were taken and how many of them were successes. */
    method CollectResults(arrived: seq<bool>, clicks: seq<bool>) returns (k: nat, processed: nat)
      requires status.isRunning && !status.shouldStop && arrived != []
      modifies this, status
      ensures status.isRunning && written == old(written)
      ensures Tally(old(progress), progress, status.shouldStop, arrived, clicks, k, processed)
      ensures k == |arrived| || status.shouldStop
    {
      ghost var beforeProgress := progress;
      var total := |arrived|;
      processed := 0;
      k := 0;
      while k < total && !status.shouldStop
        invariant status.isRunning && written == old(written)
        invariant Tally(beforeProgress, progress, status.shouldStop, arrived, clicks, k, processed)
      {
        processed := TakeResult(beforeProgress, arrived, clicks, k, total, processed, arrived[k]);
        k := k + 1;
      }
    }

    /** The pool and the result loop for a run that got past the checks:
        every surviving worker's write is logged once the pool has shut down, and
        the status line says whether the run was stopped. */
    method RunPool(arrived: seq<bool>, outputs: seq<string>, clicks: seq<bool>, done: Message)
      requires status.isRunning && !status.shouldStop && arrived != [] && |outputs| == |arrived|
      modifies this, status
      ensures status.isRunning
      ensures status.shouldStop <==> FirstClick(clicks, |arrived|) < |arrived|
      ensures CurrentView() == ParallelFinish(old(CurrentView()), arrived, outputs, clicks, done)
    {
      var k, processed := CollectResults(arrived, clicks);
      if status.shouldStop {
        FirstClickStable(clicks, k, |arrived|);
      }
      assert k == Attempted(clicks, |arrived|);
      written := Written(written, outputs, arrived, |arrived|);
      message := if status.shouldStop then Stopped else done;
    }

    /** The jobs of a run that got past the checks: one worker per file,
        then the pool and the result loop. */
    method RunJobs(files: seq<string>, step: string -> bool, target: string -> string,
                   order: seq<nat>, cancelled: set<nat>, clicks: seq<bool>, done: Message)
      requires status.isRunning && !status.shouldStop && files != [] && IsOrder(order, |files|)
      requires CancelledAfterStop(order, cancelled, clicks)
      modifies this, status
      ensures status.isRunning
      ensures CurrentView() == PoolFinish(old(CurrentView()), files, step, target, order, cancelled, clicks, done)
    {
      var results := Survivors(Outcomes(files, step), cancelled);
      var outputs := Targets(files, target);
      OrderInRange(order, |files|);
      RunPool(Pick(results, order), Pick(outputs, order), clicks, done);
    }

    /** `run_resize_processing`. A request while a run is in progress changes
        nothing; otherwise the run leaves the window as `ResizeRun` says and
        both flags cleared, also on the early returns (the `finally`
        clause). */
    method RunResizeProcessing(outputSize: string, folder: string, existing: set<string>,
                               listing: Option<seq<string>>, images: map<string, Size>, settings: Settings,
                               order: seq<nat>, cancelled: set<nat>, clicks: seq<bool>)
      requires Valid()
      requires listing.Some? ==> IsOrder(order, |FilterSupported(listing.value)|)
      requires CancelledAfterStop(order, cancelled, clicks)
      modifies this, status
      ensures Valid()
      ensures old(status.isRunning) ==>
        status.isRunning && status.shouldStop == old(status.shouldStop) && CurrentView() == old(CurrentView())
      ensures !old(status.isRunning) ==>
        status.Idle() &&
        CurrentView() == ResizeRun(old(CurrentView()), folder, existing, listing, images, settings, outputSize,
                                   order, cancelled, clicks)
    {
      if status.isRunning {
        return;
      }
      var invalid := ValidateFolder(folder, existing);
      if invalid.Some? {
        message := invalid.value;
        return;
      }
      status.isRunning := true;
      status.shouldStop := false;
      if listing.None? {
        message := Failed;
      } else {
        var files := FilterSupported(listing.value);
        if files == [] {
          message := NoImages;
        } else {
          RunJobs(files, ProcessStep(settings, outputSize, folder, images), ResizeTarget(folder),
                  order, cancelled, clicks, ResizeDone);
        }
      }
      status.isRunning := false;
      status.shouldStop := false;
    }

    /** `run_flip_processing`: as `RunResizeProcessing`, over every other
        file of the sorted selection. */
    method RunFlipProcessing(folder: string, existing: set<string>, listing: Option<seq<string>>,
                             images: map<string, Size>, order: seq<nat>, cancelled: set<nat>, clicks: seq<bool>)
      requires Valid()
      requires listing.Some? ==> IsOrder(order, |FlipSelection(listing.value)|)
      requires CancelledAfterStop(order, cancelled, clicks)
      modifies this, status
      ensures Valid()
      ensures old(status.isRunning) ==>
        status.isRunning && status.shouldStop == old(status.shouldStop) && CurrentView() == old(CurrentView())
      ensures !old(status.isRunning) ==>
        status.Idle() &&
        CurrentView() == FlipRun(old(CurrentView()), folder, existing, listing, images, order, cancelled, clicks)
    {
      if status.isRunning {
        return;
      }
      var invalid := ValidateFolder(folder, existing);
      if invalid.Some? {
        message := invalid.value;
        return;
      }
      status.isRunning := true;
      status.shouldStop := false;
      if listing.None? {
        message := Failed;
      } else {
        var files := FlipSelection(listing.value);
        if files == [] {
          message := NoImages;
        } else {
          RunJobs(files, FlipStep(folder, images), FlipTarget(folder), order, cancelled, clicks, FlipDone);
        }
      }
      status.isRunning := false;
      status.shouldStop := false;
    }
  }
}
