/** The sequential batch tool: for every supported image of a folder, pick
    the closest catalogue resolution and crop or fit the image to it; or
    mirror every other image in sorted order. Files are handled one after
    the other on the window's own thread, and a stop request is noticed
    between two files. */
module BatchResizer {
  import opened Common
  import opened Paths
  import opened FileSelection
  import opened Resolutions
  import opened Geometry
  import opened Parsing
  import opened Processing

  /** The effective `resize_image` (the second definition in the class, which
      replaces the first). The alignment name is looked up before the file is
      opened; a zero-sized image fails on the division by zero; CROP covers
      and crops, any other mode fits onto a transparent canvas or one of the
      background colour, whose string is parsed only then. The fitted size
      is truncated, and a side that truncates to 0 makes the resize fail
      before the colour is read. */
  function ResizeImage(settings: Settings, decoded: Option<Size>): (r: Result<Plan, Failure>)
    ensures r.Ok? <==> ResizeSucceeds(settings, decoded)
    ensures r.Ok? ==> Saves(r.value, BestResolution(decoded.value.width, decoded.value.height))
    ensures r.Ok? ==> (r.value.Cropped? <==> settings.resizeMode == "CROP")
  {
    match ParseAlignMode(settings.alignMode)
    case None => Err(UnknownAlignMode)
    case Some(align) =>
      if decoded.None? || !Positive(decoded.value) then Err(UnreadableImage)
      else
        var img := decoded.value;
        var best := BestResolution(img.width, img.height);
        if settings.resizeMode == "CROP" then
          PlansHaveTargetSize(img, best, align, Transparent);
          Ok(CropPlan(img, best, align))
        else if !Positive(Fit(img, best).scaled) then Err(EmptyResize)
        else if settings.useTransparent then
          Ok(FitPlan(img, best, Transparent))
        else
          match ParseHexColor(settings.bgColor)
          case None => Err(BadColour)
          case Some(c) => Ok(FitPlan(img, best, Solid(c)))
  }

  /** When `resize_image` writes its output: the alignment name is known,
      the file decodes to a non-empty image, a fitted image keeps both
      sides, and the mode needs no colour or the colour parses. */
  predicate ResizeSucceeds(settings: Settings, decoded: Option<Size>)
  {
    && ParseAlignMode(settings.alignMode).Some?
    && decoded.Some? && Positive(decoded.value)
    && (settings.resizeMode == "CROP" || Positive(Fit(decoded.value, BestResolution(decoded.value.width, decoded.value.height)).scaled))
    && (settings.resizeMode == "CROP" || settings.useTransparent || ParseHexColor(settings.bgColor).Some?)
  }

  // ---------------------------------------------------------------- run specifications

  /** What the resize loop does to one file name: `resize_image` on the
      joined input path, True when the output was saved. */
  function ResizeStep(settings: Settings, folder: string, images: map<string, Size>): string -> bool
  {
    name => ResizeImage(settings, Lookup(images, Join(folder, name))).Ok?
  }

  /** What `run_resize_processing` does to the window when no run is in
      progress: `listing` is None when creating the output folder or listing
      the input folder raises. */
  function ResizeRun(before: View, folder: string, existing: set<string>, listing: Option<seq<string>>,
                     images: map<string, Size>, settings: Settings, clicks: seq<bool>): View
  {
    match ValidateFolder(folder, existing)
    case Some(m) => before.(message := m)
    case None =>
      match listing
      case None => before.(message := Failed)
      case Some(names) =>
        var files := FilterSupported(names);
        if files == [] then before.(message := NoImages)
        else
          Finish(before, Outcomes(files, ResizeStep(settings, folder, images)),
                 Targets(files, ResizeTarget(folder)), clicks, ResizeDone)
  }

  /** What `run_flip_processing` does to the window when no run is in
      progress. */
  function FlipRun(before: View, folder: string, existing: set<string>, listing: Option<seq<string>>,
                   images: map<string, Size>, clicks: seq<bool>): View
  {
    match ValidateFolder(folder, existing)
    case Some(m) => before.(message := m)
    case None =>
      match listing
      case None => before.(message := Failed)
      case Some(names) =>
        var files := FlipSelection(names);
        if files == [] then before.(message := NoImages)
        else
          Finish(before, Outcomes(files, FlipStep(folder, images)),
                 Targets(files, FlipTarget(folder)), clicks, FlipDone)
  }

  /** A resize output is a ".png" file directly inside the "resize" folder
      of the input folder, named after the input's stem. */
  lemma ResizeOutputPathSpec(folder: string, name: string)
    requires '/' !in name
    ensures EndsWith(ResizeOutputPath(folder, name), OutputName(name))
    ensures EndsWith(ResizeOutputPath(folder, name), ".png")
    ensures StartsWith(ResizeOutputPath(folder, name), Join(folder, "resize"))
  {
    var dir := Join(folder, "resize");
    OutputNameSpec(name);
    assert OutputName(name)[0] != '/' by {
      var stem := Stem(name);
      if stem != [] {
        assert stem == name[..|stem|];
        assert stem[0] == name[0];
      } else {
        assert OutputName(name)[0] == '.';
      }
    }
    JoinParts(dir, OutputName(name));
    EndsWithTrans(ResizeOutputPath(folder, name), OutputName(name), ".png");
  }

  /** Every file the resize loop writes after `n` files is a ".png" inside
      the "resize" folder and the output of one of those files that
      converted, and every converted one is written. */
  lemma ResizeWritten(before: seq<string>, folder: string, files: seq<string>, oks: seq<bool>, n: nat)
    requires forall x :: x in files ==> '/' !in x
    requires |oks| == |files| && n <= |files|
    ensures var w := Written(before, Targets(files, ResizeTarget(folder)), oks, n);
      && (forall k :: |before| <= k < |w| ==>
            && EndsWith(w[k], ".png")
            && StartsWith(w[k], Join(folder, "resize"))
            && exists j :: 0 <= j < n && oks[j] && w[k] == ResizeOutputPath(folder, files[j]))
      && (forall j :: 0 <= j < n && oks[j] ==> ResizeOutputPath(folder, files[j]) in w)
  {
    var outputs := Targets(files, ResizeTarget(folder));
    var w := Written(before, outputs, oks, n);
    WrittenMembers(before, outputs, oks, n);
    forall k | |before| <= k < |w|
      ensures EndsWith(w[k], ".png") && StartsWith(w[k], Join(folder, "resize"))
      ensures exists j :: 0 <= j < n && oks[j] && w[k] == ResizeOutputPath(folder, files[j])
    {
      var j :| 0 <= j < n && oks[j] && outputs[j] == w[k];
      assert outputs[j] == ResizeOutputPath(folder, files[j]);
      assert files[j] in files;
      ResizeOutputPathSpec(folder, files[j]);
    }
    forall j | 0 <= j < n && oks[j]
      ensures ResizeOutputPath(folder, files[j]) in w
    {
      assert outputs[j] == ResizeOutputPath(folder, files[j]);
    }
  }

  /** The window `now` after the first `i` files of a run that started
      from `before`, `processed` of them successful: still running, stopped
      exactly when a click was seen, progress as the successes so far give
      it, and the output of each success so far written. */
  ghost predicate Partial(before: View, now: View, running: bool, stopping: bool,
                          oks: seq<bool>, outputs: seq<string>, clicks: seq<bool>, i: nat, processed: nat)
  {
    && |oks| == |outputs|
    && running
    && Tally(before.progress, now.progress, stopping, oks, clicks, i, processed)
    && now.written == Written(before.written, outputs, oks, i)
  }

  // ---------------------------------------------------------------- the window

  /** `ImageProcessor`, reduced to the state the processing logic touches. */
  class ImageProcessor {
    const status: ProcessStatus
    var progress: real
    var message: Message
    var written: seq<string>

    constructor()
      ensures fresh(status) && status.Idle() && Valid()
      ensures progress == 0.0 && message == Waiting && written == []
    {
      status := new ProcessStatus();
      progress := 0.0;
      message := Waiting;
      written := [];
    }

    /** The stop flag is only ever raised during a run. */
    predicate Valid()
      reads this, status
    {
      status.isRunning || !status.shouldStop
    }

    function CurrentView(): View
      reads this
    {
      View(message, progress, written)
    }

    /** `stop_processing`: raises the stop flag only while a run is in
        progress. */
    method StopProcessing()
      requires Valid()
      modifies this, status
      ensures Valid()
      ensures status.isRunning == old(status.isRunning)
      ensures status.shouldStop == (old(status.shouldStop) || old(status.isRunning))
      ensures message == (if old(status.isRunning) then Stopping else old(message))
      ensures progress == old(progress) && written == old(written)
    {
      if status.isRunning {
        status.shouldStop := true;
        message := Stopping;
      }
    }

    /** What the loop does after the i-th file: a success bumps the counter
        and shows it as progress and in the status line, and a stop pressed
        while the window handles its events (`clicks[i]`) raises the flag. */
    method AfterFile(ghost before: View, ghost oks: seq<bool>, ghost outputs: seq<string>, clicks: seq<bool>,
                     i: nat, total: nat, processed: nat, ok: bool, outputPath: string) returns (count: nat)
      requires Partial(before, CurrentView(), status.isRunning, status.shouldStop, oks, outputs, clicks, i, processed) && !status.shouldStop
      requires i < total == |oks| && ok == oks[i] && outputPath == outputs[i]
      modifies this, status
      ensures Partial(before, CurrentView(), status.isRunning, status.shouldStop, oks, outputs, clicks, i + 1, count)
      ensures message == (if Clicked(clicks, i) then Stopping else if ok then Working(count, total) else old(message))
    {
      PrefixStep(oks, i);
      count := processed;
      if ok {
        count := count + 1;
        progress := Progress(count, total);
        message := Working(count, total);
        written := written + [outputPath];
      }
      if Clicked(clicks, i) {
        StopProcessing();
      }
      FirstClickNext(clicks, i);
    }

    /** After the loop: the status line says whether the run was stopped or
        went through every file, and the window is as `Finish` says. */
    method Conclude(ghost before: View, ghost oks: seq<bool>, ghost outputs: seq<string>, clicks: seq<bool>,
                    ghost i: nat, ghost processed: nat, done: Message)
      requires Partial(before, CurrentView(), status.isRunning, status.shouldStop, oks, outputs, clicks, i, processed)
      requires i == |oks| || status.shouldStop
      modifies this
      ensures status.isRunning
      ensures status.shouldStop <==> FirstClick(clicks, |oks|) < |oks|
      ensures CurrentView() == Finish(before, oks, outputs, clicks, done)
    {
      if status.shouldStop {
        FirstClickStable(clicks, i, |oks|);
      }
      assert i == Attempted(clicks, |oks|);
      message := if status.shouldStop then Stopped else done;
    }

    /** The `for` loop of `run_resize_processing` and of
        `run_flip_processing` over the selected files, with `step` the
        per-file operation and `target` its output path: the stop flag is
        checked before each file, each success is counted, shown and
        written, and a stop pressed while the window handles its events
        after the i-th file is noticed before the next one. Returns how many
        files were attempted and how many succeeded. */
    method ProcessFiles(files: seq<string>, step: string -> bool, target: string -> string, clicks: seq<bool>,
                        ghost before: View)
      returns (i: nat, processed: nat)
      requires status.isRunning && !status.shouldStop && files != [] && before == CurrentView()
      modifies this, status
      ensures Partial(before, CurrentView(), status.isRunning, status.shouldStop,
                      Outcomes(files, step), Targets(files, target), clicks, i, processed)
      ensures i == |files| || status.shouldStop
    {
      ghost var oks := Outcomes(files, step);
      ghost var outputs := Targets(files, target);
      var total := |files|;
      processed := 0;
      i := 0;
      while i < total && !status.shouldStop
        invariant Partial(before, CurrentView(), status.isRunning, status.shouldStop, oks, outputs, clicks, i, processed)
      {
        var ok := step(files[i]);
        var outputPath := target(files[i]);
        processed := AfterFile(before, oks, outputs, clicks, i, total, processed, ok, outputPath);
        i := i + 1;
      }
    }

    /** The loop and what follows it, for a run that got past the checks:
        the window ends as `Finish` says, still marked as running, with the
        stop flag up exactly when stop was pressed. */
    method RunFiles(files: seq<string>, step: string -> bool, target: string -> string, clicks: seq<bool>,
                    done: Message)
      requires status.isRunning && !status.shouldStop && files != []
      modifies this, status
      ensures status.isRunning
      ensures status.shouldStop <==> FirstClick(clicks, |files|) < |files|
      ensures CurrentView() == Finish(old(CurrentView()), Outcomes(files, step), Targets(files, target), clicks, done)
    {
      ghost var before := CurrentView();
      var i, processed := ProcessFiles(files, step, target, clicks, before);
      Conclude(before, Outcomes(files, step), Targets(files, target), clicks, i, processed, done);
    }

    /** `run_resize_processing`. A request while a run is in progress changes
        nothing; otherwise the run leaves the window as `ResizeRun` says and
        both flags cleared, also on the early returns (the `finally`
        clause). */
    method RunResizeProcessing(folder: string, existing: set<string>, listing: Option<seq<string>>,
                               images: map<string, Size>, settings: Settings, clicks: seq<bool>)
      requires Valid()
      modifies this, status
      ensures Valid()
      ensures old(status.isRunning) ==>
        status.isRunning && status.shouldStop == old(status.shouldStop) && CurrentView() == old(CurrentView())
      ensures !old(status.isRunning) ==>
        status.Idle() && CurrentView() == ResizeRun(old(CurrentView()), folder, existing, listing, images, settings, clicks)
    {
      if status.isRunning {
        return;
      }
      var invalid := ValidateFolder(folder, existing);
      if invalid.Some? {
        message := invalid.value;
        return;
      }
      status.isRunning := true;
      status.shouldStop := false;
      if listing.None? {
        message := Failed;
      } else {
        var files := FilterSupported(listing.value);
        if files == [] {
          message := NoImages;
        } else {
          RunFiles(files, ResizeStep(settings, folder, images), ResizeTarget(folder), clicks, ResizeDone);
        }
      }
      status.isRunning := false;
      status.shouldStop := false;
    }

    /** `run_flip_processing`: as `RunResizeProcessing`, over every other
        file of the sorted selection. */
    method RunFlipProcessing(folder: string, existing: set<string>, listing: Option<seq<string>>,
                             images: map<string, Size>, clicks: seq<bool>)
      requires Valid()
      modifies this, status
      ensures Valid()
      ensures old(status.isRunning) ==>
        status.isRunning && status.shouldStop == old(status.shouldStop) && CurrentView() == old(CurrentView())
      ensures !old(status.isRunning) ==>
        status.Idle() && CurrentView() == FlipRun(old(CurrentView()), folder, existing, listing, images, clicks)
    {
      if status.isRunning {
        return;
      }
      var invalid := ValidateFolder(folder, existing);
      if invalid.Some? {
        message := invalid.value;
        return;
      }
      status.isRunning := true;
      status.shouldStop := false;
      if listing.None? {
        message := Failed;
      } else {
        var files := FlipSelection(listing.value);
        if files == [] {
          message := NoImages;
        } else {
          RunFiles(files, FlipStep(folder, images), FlipTarget(folder), clicks, FlipDone);
        }
      }
      status.isRunning := false;
      status.shouldStop := false;
    }
  }
}
