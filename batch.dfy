/** The batch driver: every discovered file is processed in turn, and a
    file whose processing raises is reported as failed while the batch goes
    on with the next one.  File discovery itself is not modelled: the
    driver is given the discovered files in order. */
module Batch {
  import opened Imaging
  import opened Reencoding
  import opened Settings

  datatype FileReport = FileReport(path: string, trace: Trace)

  /** `NoImagesFound` is the early return when discovery found nothing.
      `Unfinished` is a batch stopped inside the convergence loop of its
      last reported file: the source never returns from that file, so the
      files after it are never reached. */
  datatype BatchResult =
    | NoImagesFound
    | Processed(reports: seq<FileReport>)
    | Unfinished(reports: seq<FileReport>)

  /** The last report is of a file whose loop had not ended. */
  predicate EndsUnfinished(reports: seq<FileReport>)
  {
    |reports| > 0 && reports[|reports| - 1].trace.ending == OutOfFuel
  }

  /** The reports of the files, in order, each file on its own, up to and
      including the first file whose loop has not ended. */
  function ProcessAll(files: seq<ImageFile>, maxWidth: int, budget: int, fuel: nat): (R: seq<FileReport>)
    ensures |R| <= |files|
    ensures |files| > 0 ==> |R| > 0
    // a file is left out only behind one that has not finished
    ensures |R| < |files| ==> EndsUnfinished(R)
    ensures forall i :: 0 <= i < |R| ==> R[i].path == files[i].path
  {
    if |files| == 0 then []
    else
      var before := ProcessAll(files[..|files| - 1], maxWidth, budget, fuel);
      if EndsUnfinished(before) then before
      else
        var last := files[|files| - 1];
        before + [FileReport(last.path, ProcessImage(last, maxWidth, budget, fuel))]
  }

  /** A whole run of `resize_images` over the discovered files. */
  function RunBatch(files: seq<ImageFile>, maxWidth: int, maxSizeKb: int, fuel: nat): (r: BatchResult)
    ensures r.NoImagesFound? <==> |files| == 0
    ensures r.Processed? ==> |r.reports| == |files| && !EndsUnfinished(r.reports)
    ensures r.Unfinished? ==> 0 < |r.reports| <= |files| && EndsUnfinished(r.reports)
  {
    if |files| == 0 then NoImagesFound
    else
      var reports := ProcessAll(files, maxWidth, BudgetBytes(maxSizeKb), fuel);
      if EndsUnfinished(reports) then Unfinished(reports) else Processed(reports)
  }

  /** `resize_images` as the source writes it: the early return, the
      conversion of the size limit to bytes, then one file after another. */
  method ResizeImages(files: seq<ImageFile>, maxWidth: int, maxSizeKb: int, fuel: nat) returns (r: BatchResult)
    ensures r == RunBatch(files, maxWidth, maxSizeKb, fuel)
  {
    if |files| == 0 {
      return NoImagesFound;
    }
    var budget := BudgetBytes(maxSizeKb);
    var reports: seq<FileReport> := [];
    for i := 0 to |files|
      invariant reports == ProcessAll(files[..i], maxWidth, budget, fuel)
      invariant !EndsUnfinished(reports)
    {
      var trace := ResizeImage(files[i], maxWidth, budget, fuel);
      reports := reports + [FileReport(files[i].path, trace)];
      assert files[..i + 1][..i] == files[..i];
      if trace.ending == OutOfFuel {
        UnfinishedStaysLast(files, i + 1, maxWidth, budget, fuel);
        return Unfinished(reports);
      }
    }
    assert files[..|files|] == files;
    return Processed(reports);
  }

  /** Once a file has not finished, no later file is reported. */
  lemma {:induction false} UnfinishedStaysLast(files: seq<ImageFile>, k: nat, maxWidth: int, budget: int, fuel: nat)
    requires 0 < k <= |files|
    requires EndsUnfinished(ProcessAll(files[..k], maxWidth, budget, fuel))
    ensures ProcessAll(files, maxWidth, budget, fuel) == ProcessAll(files[..k], maxWidth, budget, fuel)
    decreases |files|
  {
    if k == |files| {
      assert files[..k] == files;
    } else {
      var init := files[..|files| - 1];
      assert init[..k] == files[..k];
      UnfinishedStaysLast(init, k, maxWidth, budget, fuel);
    }
  }

  /** Every fitted report of a run ends with a save within the byte budget
      and, for a limit that is not negative, at most that wide. */
  predicate FittedWithin(reports: seq<FileReport>, budget: int, maxWidth: int)
  {
    forall i :: 0 <= i < |reports| && reports[i].trace.ending == Fitted ==>
      var A := reports[i].trace.attempts;
      |A| > 0 && A[|A| - 1].size <= budget && (0 <= maxWidth ==> A[|A| - 1].setting.width <= maxWidth)
  }

  /** `main` of main.py: the batch with the command-line limits. */
  function MainRun(widthOption: Option<int>, sizeOption: Option<int>, files: seq<ImageFile>, fuel: nat): (r: BatchResult)
    ensures r.NoImagesFound? <==> |files| == 0
    ensures !r.NoImagesFound? ==>
      FittedWithin(r.reports, BudgetBytes(MainLimits(widthOption, sizeOption).maxSizeKb),
                   MainLimits(widthOption, sizeOption).maxWidth)
  {
    var l := MainLimits(widthOption, sizeOption);
    FittedReportsMeetLimits(files, l.maxWidth, l.maxSizeKb, fuel);
    RunBatch(files, l.maxWidth, l.maxSizeKb, fuel)
  }

  /** The script entry of resize_images.py: the batch with the defaults. */
  function ScriptRun(files: seq<ImageFile>, fuel: nat): (r: BatchResult)
    ensures r.NoImagesFound? <==> |files| == 0
    ensures !r.NoImagesFound? ==> FittedWithin(r.reports, 307200, 1300)
  {
    var l := ScriptLimits();
    FittedReportsMeetLimits(files, l.maxWidth, l.maxSizeKb, fuel);
    RunBatch(files, l.maxWidth, l.maxSizeKb, fuel)
  }

  /** The reports are the files' own processings, in order, up to and
      including the first file whose loop has not ended; when no file runs
      out of fuel, every file is reported. */
  lemma {:induction false} EveryFileReported(files: seq<ImageFile>, maxWidth: int, budget: int, fuel: nat)
    ensures var R := ProcessAll(files, maxWidth, budget, fuel);
      |R| <= |files|
      && (forall i :: 0 <= i < |R| ==>
            R[i] == FileReport(files[i].path, ProcessImage(files[i], maxWidth, budget, fuel)))
      && (forall i :: 0 <= i < |R| - 1 ==> R[i].trace.ending != OutOfFuel)
      && (|R| < |files| ==> EndsUnfinished(R))
      && ((forall i :: 0 <= i < |files| ==> ProcessImage(files[i], maxWidth, budget, fuel).ending != OutOfFuel)
            ==> |R| == |files|)
    decreases |files|
  {
    if |files| > 0 {
      var init := files[..|files| - 1];
      EveryFileReported(init, maxWidth, budget, fuel);
      var before := ProcessAll(init, maxWidth, budget, fuel);
      var R := ProcessAll(files, maxWidth, budget, fuel);
      if !EndsUnfinished(before) {
        assert |before| == |init|;
        forall i | 0 <= i < |R|
          ensures R[i] == FileReport(files[i].path, ProcessImage(files[i], maxWidth, budget, fuel))
        {
          if i < |init| {
            assert init[i] == files[i];
          }
        }
      } else {
        forall i | 0 <= i < |R|
          ensures R[i] == FileReport(files[i].path, ProcessImage(files[i], maxWidth, budget, fuel))
        {
          assert init[i] == files[i];
        }
      }
    }
  }

  /** Failure isolation: replacing one file by any other that also
      finishes (an unreadable one, say) changes no other file's report,
      nor which files are reported, nor whether the batch finishes. */
  lemma FailureIsolated(files: seq<ImageFile>, j: nat, other: ImageFile, maxWidth: int, maxSizeKb: int, fuel: nat)
    requires j < |files|
    requires ProcessImage(files[j], maxWidth, BudgetBytes(maxSizeKb), fuel).ending != OutOfFuel
    requires ProcessImage(other, maxWidth, BudgetBytes(maxSizeKb), fuel).ending != OutOfFuel
    ensures var before := RunBatch(files, maxWidth, maxSizeKb, fuel);
      var after := RunBatch(files[j := other], maxWidth, maxSizeKb, fuel);
      !before.NoImagesFound? && !after.NoImagesFound?
      && before.Processed? == after.Processed?
      && |after.reports| == |before.reports|
      && (forall i :: 0 <= i < |before.reports| && i != j ==> after.reports[i] == before.reports[i])
  {
    var budget := BudgetBytes(maxSizeKb);
    var files' := files[j := other];
    EveryFileReported(files, maxWidth, budget, fuel);
    EveryFileReported(files', maxWidth, budget, fuel);
    var R := ProcessAll(files, maxWidth, budget, fuel);
    var R' := ProcessAll(files', maxWidth, budget, fuel);
    if |R| < |files| {
      assert files'[|R| - 1] == files[|R| - 1];
    }
    if |R'| < |files| {
      assert files'[|R'| - 1] == files[|R'| - 1];
    }
    assert |R| == |R'|;
    forall i | 0 <= i < |R| && i != j
      ensures R'[i] == R[i]
    {
      assert files'[i] == files[i];
    }
  }

  /** Every file a run reports as done was saved within the byte budget
      and, for a limit that is not negative, at most max_width wide. */
  lemma FittedReportsMeetLimits(files: seq<ImageFile>, maxWidth: int, maxSizeKb: int, fuel: nat)
    ensures var r := RunBatch(files, maxWidth, maxSizeKb, fuel);
      !r.NoImagesFound? ==> FittedWithin(r.reports, BudgetBytes(maxSizeKb), maxWidth)
  {
    var budget := BudgetBytes(maxSizeKb);
    EveryFileReported(files, maxWidth, budget, fuel);
    var R := ProcessAll(files, maxWidth, budget, fuel);
    forall i | 0 <= i < |R| && R[i].trace.ending == Fitted
      ensures var A := R[i].trace.attempts;
        |A| > 0 && A[|A| - 1].size <= budget && (0 <= maxWidth ==> A[|A| - 1].setting.width <= maxWidth)
    {
      FittedFileIsWithinBudget(files[i], maxWidth, budget, fuel);
    }
    assert FittedWithin(R, budget, maxWidth);
  }

  /** With no options, main.py runs exactly as the resize_images.py script
      does, and every file it reports as done was saved within 307200
      bytes and at most 1300 pixels wide. */
  lemma DefaultRunsMeetDefaultLimits(files: seq<ImageFile>, fuel: nat)
    ensures MainRun(Option.None, Option.None, files, fuel) == ScriptRun(files, fuel)
    ensures var r := MainRun(Option.None, Option.None, files, fuel);
      !r.NoImagesFound? ==> FittedWithin(r.reports, 307200, 1300)
  {
  }
}
