/** What both batch tools share around a run: the `ProcessStatus` flags, the
    settings read from the window, the status line, the success counter and
    progress, and when a stop request takes effect. */
module Processing {
  import opened Common
  import opened Paths
  import opened FileSelection
  import opened Resolutions

  /** `ProcessStatus`: whether a run is in progress and whether the user has
      asked it to stop. */
  class ProcessStatus {
    var isRunning: bool
    var shouldStop: bool

    constructor()
      ensures !isRunning && !shouldStop
    {
      isRunning := false;
      shouldStop := false;
    }

    predicate Idle()
      reads this
    {
      !isRunning && !shouldStop
    }
  }

  /** The settings a run reads from the window. */
  datatype Settings = Settings(resizeMode: string, alignMode: string, useTransparent: bool, bgColor: string)

  /** Why one image was not written. `EmptyResize`: PIL's `resize` refuses
      a size with a zero side. */
  datatype Failure = UnknownAlignMode | UnreadableImage | BadSize | BadColour | EmptyResize | Cancelled

  /** The status line (`status_var`). `Working` and `Stopping` are shown
      while a run is in progress; the others are what a run leaves behind. */
  datatype Message =
    | Waiting
    | SelectFolder
    | FolderMissing
    | NoImages
    | Working(done: nat, total: nat)
    | Stopping
    | Stopped
    | ResizeDone
    | FlipDone
    | Failed

  // ---------------------------------------------------------------- folders, files and outputs

  /** The image a path decodes to, if it opens at all. */
  function Lookup(images: map<string, Size>, path: string): Option<Size>
  {
    if path in images then Some(images[path]) else None
  }

  /** `flip_image`: succeeds exactly when the file decodes; the mirrored image
      keeps its size. */
  predicate FlipImage(decoded: Option<Size>)
  {
    decoded.Some?
  }

  /** `validate_folder`: the message shown for an unusable folder, if any. */
  function ValidateFolder(folder: string, existing: set<string>): (r: Option<Message>)
    ensures r.None? <==> folder != [] && folder in existing
  {
    if folder == [] then Some(SelectFolder)
    else if folder !in existing then Some(FolderMissing)
    else None
  }

  /** The window state a run changes: the status line, the progress bar and
      the files written so far. */
  datatype View = View(message: Message, progress: real, written: seq<string>)

  /** `os.path.join(resize_folder, os.path.splitext(filename)[0] + ".png")` */
  function ResizeOutputPath(folder: string, name: string): string
  {
    Join(Join(folder, "resize"), OutputName(name))
  }

  /** `os.path.join(flipped_folder, filename)` */
  function FlipOutputPath(folder: string, name: string): string
  {
    Join(Join(folder, "flipped"), name)
  }

  /** Where the resize loop saves one file name. */
  function ResizeTarget(folder: string): string -> string
  {
    name => ResizeOutputPath(folder, name)
  }

  /** Where the flip loop saves one file name. */
  function FlipTarget(folder: string): string -> string
  {
    name => FlipOutputPath(folder, name)
  }

  /** What the flip loop does to one file name: `flip_image`. */
  function FlipStep(folder: string, images: map<string, Size>): string -> bool
  {
    name => FlipImage(Lookup(images, Join(folder, name)))
  }

  /** The outcome of each file, in order. */
  function Outcomes(files: seq<string>, step: string -> bool): (r: seq<bool>)
    ensures |r| == |files|
    ensures forall k :: 0 <= k < |files| ==> r[k] == step(files[k])
  {
    if files == [] then [] else Outcomes(files[..|files| - 1], step) + [step(files[|files| - 1])]
  }

  /** The output path of each file, in order. */
  function Targets(files: seq<string>, target: string -> string): (r: seq<string>)
    ensures |r| == |files|
    ensures forall k :: 0 <= k < |files| ==> r[k] == target(files[k])
  {
    if files == [] then [] else Targets(files[..|files| - 1], target) + [target(files[|files| - 1])]
  }

  // ---------------------------------------------------------------- counting


  /** How many of the outcomes are successes. */
  function CountTrue(s: seq<bool>): (n: nat)
    ensures n <= |s|
  {
    if s == [] then 0 else CountTrue(s[..|s| - 1]) + (if s[|s| - 1] then 1 else 0)
  }

  /** The count is the multiplicity of `true`, so it does not depend on the
      order in which the outcomes arrive. */
  lemma {:induction false} CountTrueMultiset(s: seq<bool>)
    ensures CountTrue(s) == multiset(s)[true]
  {
    if s != [] {
      CountTrueMultiset(s[..|s| - 1]);
      assert s == s[..|s| - 1] + [s[|s| - 1]];
    }
  }

  /** The log of writes after the first `n` items: the log before, then
      the output path of each success, in order. Two items with the same
      output path appear twice, as the second write replaces the first. */
  function Written(before: seq<string>, outputs: seq<string>, oks: seq<bool>, n: nat): (r: seq<string>)
    requires |outputs| == |oks| && n <= |oks|
    ensures |r| == |before| + CountTrue(oks[..n])
    ensures r[..|before|] == before
  {
    if n == 0 then before
    else
      assert oks[..n][..n - 1] == oks[..n - 1];
      var prev := Written(before, outputs, oks, n - 1);
      if oks[n - 1] then prev + [outputs[n - 1]] else prev
  }

  /** Each file added is the output of an item among the first `n` that
      succeeded, and each such output is added. */
  lemma {:induction false} WrittenMembers(before: seq<string>, outputs: seq<string>, oks: seq<bool>, n: nat)
    requires |outputs| == |oks| && n <= |oks|
    ensures forall k :: |before| <= k < |Written(before, outputs, oks, n)| ==>
      exists j :: 0 <= j < n && oks[j] && outputs[j] == Written(before, outputs, oks, n)[k]
    ensures forall j :: 0 <= j < n && oks[j] ==> outputs[j] in Written(before, outputs, oks, n)
  {
    if n > 0 {
      WrittenMembers(before, outputs, oks, n - 1);
      var prev := Written(before, outputs, oks, n - 1);
      var r := Written(before, outputs, oks, n);
      assert r == if oks[n - 1] then prev + [outputs[n - 1]] else prev;
      forall k | |before| <= k < |r|
        ensures exists j :: 0 <= j < n && oks[j] && outputs[j] == r[k]
      {
        if k < |prev| {
          assert r[k] == prev[k];
          var j :| 0 <= j < n - 1 && oks[j] && outputs[j] == prev[k];
          assert outputs[j] == r[k];
        } else {
          assert r[k] == outputs[n - 1];
        }
      }
      forall j | 0 <= j < n && oks[j]
        ensures outputs[j] in r
      {
        if j < n - 1 {
          assert outputs[j] in prev;
          assert forall x :: x in prev ==> x in r;
        } else {
          assert r[|prev|] == outputs[j];
        }
      }
      assert forall k :: |before| <= k < |r| ==> exists j :: 0 <= j < n && oks[j] && outputs[j] == r[k];
      assert r == Written(before, outputs, oks, n);
    } else {
      assert Written(before, outputs, oks, n) == before;
    }
  }

  /** Extending the attempted prefix by one item adds its outcome. */
  lemma PrefixStep(oks: seq<bool>, i: nat)
    requires i < |oks|
    ensures CountTrue(oks[..i + 1]) == CountTrue(oks[..i]) + (if oks[i] then 1 else 0)
  {
    assert oks[..i + 1][..i] == oks[..i];
  }

  /** `(processed_files / total_files) * 100` */
  function Progress(done: nat, total: nat): (p: real)
    requires total > 0
    ensures 0.0 <= p
  {
    MulNonneg(done as real / total as real, 100.0);
    (done as real / total as real) * 100.0
  }

  /** Progress never exceeds 100 and reaches it exactly when every file
      succeeded. */
  lemma ProgressBounded(done: nat, total: nat)
    requires 0 < total && done <= total
    ensures 0 < done ==> 0.0 < Progress(done, total)
    ensures Progress(done, total) <= 100.0
    ensures Progress(done, total) == 100.0 <==> done == total
  {
    var q := done as real / total as real;
    assert q * total as real == done as real;
    if done < total {
      assert q < 1.0;
    } else {
      assert q == 1.0;
    }
  }

  // ---------------------------------------------------------------- stop requests

  /** Whether the user pressed the stop button while the window processed
      its events after the item at position `i` (`root.update()`). */
  predicate Clicked(clicks: seq<bool>, i: nat)
  {
    i < |clicks| && clicks[i]
  }

  /** The first of the first `n` event rounds in which stop was pressed, or
      `n` if there was none. */
  function FirstClick(clicks: seq<bool>, n: nat): (k: nat)
    ensures k <= n
    ensures k < n ==> Clicked(clicks, k)
    ensures forall j :: 0 <= j < k ==> !Clicked(clicks, j)
  {
    if n == 0 then 0
    else
      var k := FirstClick(clicks, n - 1);
      if k < n - 1 then k else if Clicked(clicks, n - 1) then n - 1 else n
  }

  /** Once a click has been seen, looking further does not change the first
      one. */
  lemma FirstClickStable(clicks: seq<bool>, i: nat, n: nat)
    requires i <= n && FirstClick(clicks, i) < i
    ensures FirstClick(clicks, n) == FirstClick(clicks, i)
    decreases n - i
  {
    if i < n {
      FirstClickStable(clicks, i, n - 1);
    }
  }

  lemma FirstClickNext(clicks: seq<bool>, i: nat)
    requires FirstClick(clicks, i) == i
    ensures FirstClick(clicks, i + 1) == if Clicked(clicks, i) then i else i + 1
  {
  }

  /** How many items a loop over `n` items starts: all of them, or up to and
      including the one after which stop was pressed (the flag is checked
      before each item). */
  function Attempted(clicks: seq<bool>, n: nat): (a: nat)
    ensures a <= n
    ensures a == n || FirstClick(clicks, n) == a - 1
  {
    var k := FirstClick(clicks, n);
    if k < n then k + 1 else n
  }

  /** Without a click every item is attempted; a click after item `k` stops
      the loop with `k + 1` items attempted. */
  lemma AttemptedSpec(clicks: seq<bool>, n: nat)
    ensures (forall j :: 0 <= j < n ==> !Clicked(clicks, j)) ==> Attempted(clicks, n) == n
    ensures forall k :: 0 <= k < n && Clicked(clicks, k) && (forall j :: 0 <= j < k ==> !Clicked(clicks, j)) ==>
      Attempted(clicks, n) == k + 1
  {
  }

  // ---------------------------------------------------------------- runs

  /** The counting part of a run after `i` results, `processed` of them
      successes: the stop flag is up exactly when a click was seen (and then
      the click came after the last result taken), and the progress bar
      shows the successes so far, or what it showed before if there are
      none. */
  ghost predicate Tally(beforeProgress: real, progress: real, stopping: bool,
                        oks: seq<bool>, clicks: seq<bool>, i: nat, processed: nat)
  {
    && 0 < |oks| && i <= |oks|
    && (stopping <==> FirstClick(clicks, i) < i)
    && (stopping ==> i == FirstClick(clicks, i) + 1)
    && processed == CountTrue(oks[..i])
    && progress == (if processed > 0 then Progress(processed, |oks|) else beforeProgress)
  }

  /** How the sequential loop leaves the window after a run that got past
      the checks, with outcomes `oks` and output paths `outputs`: the status
      line says whether stop was pressed, the progress counts the successes
      among the attempted files, and each of those successes was written. */
  function Finish(before: View, oks: seq<bool>, outputs: seq<string>, clicks: seq<bool>, done: Message): View
    requires |oks| == |outputs| && |oks| > 0
  {
    var n := |oks|;
    var a := Attempted(clicks, n);
    var processed := CountTrue(oks[..a]);
    View(if FirstClick(clicks, n) < n then Stopped else done,
         if processed > 0 then Progress(processed, n) else before.progress,
         Written(before.written, outputs, oks, a))
  }


  /** How the sequential loop ends: the status line says "stopped" exactly
      when stop was pressed, and the progress bar is untouched or within
      (0, 100]. */
  lemma FinishStatus(before: View, oks: seq<bool>, outputs: seq<string>, clicks: seq<bool>, done: Message)
    requires |oks| == |outputs| && |oks| > 0 && done != Stopped
    ensures var v := Finish(before, oks, outputs, clicks, done);
      && (v.message == Stopped <==> FirstClick(clicks, |oks|) < |oks|)
      && (v.message != Stopped ==> v.message == done)
      && (v.progress == before.progress || 0.0 < v.progress <= 100.0)
  {
    var n := |oks|;
    var processed := CountTrue(oks[..Attempted(clicks, n)]);
    var v := Finish(before, oks, outputs, clicks, done);
    assert v.progress == if processed > 0 then Progress(processed, n) else before.progress;
    if processed > 0 {
      ProgressBounded(processed, n);
    }
  }

  /** The sequential loop adds one file per success among the attempted
      files, after what was there before. */
  lemma FinishWritten(before: View, oks: seq<bool>, outputs: seq<string>, clicks: seq<bool>, done: Message)
    requires |oks| == |outputs| && |oks| > 0
    ensures var v := Finish(before, oks, outputs, clicks, done);
      && v.written == Written(before.written, outputs, oks, Attempted(clicks, |oks|))
      && v.written[..|before.written|] == before.written
      && |v.written| == |before.written| + CountTrue(oks[..Attempted(clicks, |oks|)])
      && |v.written| <= |before.written| + Attempted(clicks, |oks|)
  {
  }

  /** Without a stop request every file is attempted: the progress bar ends
      at the share of successes and every success is written. */
  lemma FinishUninterrupted(before: View, oks: seq<bool>, outputs: seq<string>, clicks: seq<bool>, done: Message)
    requires |oks| == |outputs| && |oks| > 0
    requires forall j :: 0 <= j < |oks| ==> !Clicked(clicks, j)
    ensures var v := Finish(before, oks, outputs, clicks, done);
      && v.message == done
      && v.written == Written(before.written, outputs, oks, |oks|)
      && v.progress == (if CountTrue(oks) > 0 then Progress(CountTrue(oks), |oks|) else before.progress)
  {
    AttemptedSpec(clicks, |oks|);
    assert oks[..|oks|] == oks;
  }
}
