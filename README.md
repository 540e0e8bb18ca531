# Image resizer: a Dafny model of the size-constrained re-encoder

The repository is a batch image optimiser. Given the image files of a
folder, `resize_images` makes every image at most `max_width` pixels wide
and at most `max_size_kb` kilobytes big. It proceeds file by file:

- An image wider than `max_width` is scaled once to exactly `max_width`
  wide, keeping its aspect ratio.
- The image is then saved at quality 90.
- While the saved file is over the byte budget, the quality is lowered by
  `max(2, int(overshoot / (5% of budget)))`, clamped at 1.
- When the quality reaches 1, the image is shrunk instead to
  `int(0.9 * width) x int(0.9 * height)` and the quality reset to 80.
- Any exception on one file is caught. The batch goes on with the next file.

`main.py` and `resize_images.py` hold the same `resize_images` function,
line for line, apart from one progress message (main.py:29). The model
defines it once. The table below cites one file or the other for each
member; the same code has line numbers one or two smaller in
resize_images.py than in main.py (main.py:65 is resize_images.py:63). The files differ in their
entry points. `main` in main.py takes `--width` and `--size` options with
defaults 1300 and 300. The script entry of resize_images.py always uses
those defaults.

Modules:

- `Imaging`: the data.
  - The image library is a per-file `Codec`. `resizes(w, h)` says whether a
    resize to w x h succeeds. `encode(w, h, q)` is the byte size of the file
    saved at quality q, or `None` when the save raises.
  - A file is an `ImageFile`: does it open, and with which dimensions.
  - A `Trace` holds every save made (`Attempt`) and how processing ended
    (`Fitted`, `Failed(error)`, `OutOfFuel`).
- `Reencoding`: the initial downscale, the quality step, the dimension
  fallback and the loop.
  - The loop is specified by the function `Run`.
  - It is implemented by the method `Converge`, which mirrors the source's
    `while True` and is proved equal to `Run`.
  - One file's whole processing is `ProcessImage` / `ResizeImage`.
- `Settings`: the defaults and the kilobyte-to-byte conversion.
- `Batch`: the per-file loop with failure isolation, specified by
  `ProcessAll` and `RunBatch` and implemented by the method `ResizeImages`.
  It also holds the two entry points, `MainRun` and `ScriptRun`.

Arithmetic. The source computes in floats; the model uses exact integers.

- The quality step is `max(2, trunc(20 * (size - budget) / budget))`.
- A fallback dimension is `trunc(9 * d / 10)`.
- The downscaled height is `trunc(height * maxWidth / width)`.

`trunc` rounds toward zero, as Python's `int()` does.

Termination. The source's loop has no iteration bound. The model gives
`Run` a `fuel` parameter: the number of saves it may make. When the fuel
runs out it returns `OutOfFuel`, which means "not finished yet", not an
error. Two lemmas bracket this bound:

- `RunTerminates` proves that fuel of at least a measure of the start setting is
  always enough, under one hypothesis, `NoSpinAtEmpty`: the library refuses
  a resize to 0 x 0, or a save of a 0 x 0 image is never over budget (it
  fits or raises).
- `RunSpinsWhenNothingFits` proves that without such a hypothesis the loop
  can run for ever.

A file that never leaves the loop also blocks the batch: the source never
reaches the files after it. The model's batch therefore stops at the first
file whose fuel ran out and returns `Unfinished`, with that file's report
last; the later files get no report.

Three places where a reader might expect otherwise; the model follows the code:

- The quality step truncates (`int(...)`). It does not round up.
- The loop ends only on a save within budget, or on an exception. There is
  no exit at "quality 1 and still too big"; the loop shrinks the image again.
- When no image is found, `resize_images` prints a message and returns
  normally. It does not exit with a failure status.

## Model

| member | source | states |
|---|---|---|
| `Imaging.TruncDiv` | main.py:46 | Python's `int()` of a quotient: the magnitude is rounded down and the sign is that of the true quotient |
| `Reencoding.QualityDecrease` | main.py:65 | the quality step is at least 2; with a negative budget it is exactly 2 |
| `Reencoding.DecreaseCountsWholeUnits` | resize_images.py:63 | for a positive budget, the step is the number of whole 5%-of-budget units in the overshoot, rounded down; it is 2 exactly when the overshoot is under 3 such units |
| `Reencoding.Shrink` | main.py:75 | a fallback dimension is floor(0.9 d) for d >= 0, never larger than d, and strictly closer to 0 for d != 0 |
| `Reencoding.NextSetting` | main.py:63-76 | after an over-budget save: a zero budget raises division by zero; with any other budget only the fallback resize can raise. The quality is lowered and clamped at 1. When the clamped quality is above 1, the next save is at the same dimensions and that quality, at least 2 lower. When it is at most 1, both dimensions are shrunk and the quality reset to 80, or the resize raises |
| `Reencoding.InitialDownscale` | main.py:40-51 | an image no wider than max_width enters the loop unchanged, at quality 90. A wider one is resized once to exactly max_width wide, or the resize raises. For max_width >= 0 the height is floor(h * max_width / w) <= h; for a negative max_width the resize is asked for max_width x a height <= 0 whose magnitude is h * abs(max_width) / w truncated. A zero width with a negative max_width raises division by zero |
| `Reencoding.ScaledHeightBounds` | resize_images.py:43-44 | scaling a height by max_width / width < 1 and truncating gives floor(h * max_width / w), between 0 and h |
| `Reencoding.RunSpendsFuel` | main.py:54-76 | the loop makes one save per unit of fuel, is cut short only after spending all of it on saves, and never ends with a failed open |
| `Reencoding.ProcessImage` | main.py:32-82 | a file that does not open is never saved and is the only kind that ends with a failed open; a file left unfinished opened and spent all its fuel on saves |
| `Reencoding.LowerQualityOrShrink` | resize_images.py:61-74 | the over-budget branch of the loop, as the source writes it, computes exactly `NextSetting` |
| `Reencoding.Run` | main.py:54-76 | the specification of the `while True` loop, one save per unit of fuel; what it promises is stated by `RunSpendsFuel`, `RunChained`, `RunFitsExactlyWhenWithinBudget`, `RunQualityBounds`, `RunDimensionsNeverGrow`, `ConsecutiveSaves`, `RunTerminates` and `RunSpinsWhenNothingFits` |
| `Reencoding.Converge` | main.py:51-76 | the source's `while True` loop, one save per iteration, computes exactly the specified trace `Run` |
| `Reencoding.ResizeImage` | main.py:38-76 | one file's processing (open, downscale, loop) computes exactly `ProcessImage`; every exception becomes a `Failed` ending |
| `Reencoding.RunChained` | resize_images.py:52-74 | the first save is at the start setting; each later save follows from the one before by `NextSetting`, and that one was over budget |
| `Reencoding.RunFitsExactlyWhenWithinBudget` | main.py:54-61 | the loop ends successfully if and only if its last save is within budget |
| `Reencoding.RunQualityBounds` | resize_images.py:49-74 | starting at a quality in [2, 90], every save uses a quality in [2, 90], so quality 1 is never saved |
| `Reencoding.RunDimensionsNeverGrow` | resize_images.py:70-73 | for a start with non-negative dimensions, every save is at least 0 and at most as wide and as high as the image the loop started with |
| `Reencoding.ConsecutiveSaves` | main.py:64-76 | between consecutive saves, either the dimensions stay and the quality drops by at least 2, or both dimensions shrink to `Shrink` of themselves (floor(0.9 d) for non-negative dimensions, truncated toward zero otherwise) and the quality is 80 |
| `Reencoding.RunTerminates` | main.py:54-76 | under `NoSpinAtEmpty`, the loop ends (fits or raises) within Potential saves, Potential = quality + 92 * (abs(w) + abs(h)): each save lowers Potential by at least 2 |
| `Reencoding.RunSpinsWhenNothingFits` | resize_images.py:52-74 | if every resize succeeds and every save is over a non-zero budget, the loop never ends, for any bound on the number of saves |
| `Reencoding.FirstSave` | resize_images.py:38-49 | a file's first save is at quality 90: at the opened dimensions when width <= max_width, else at max_width x floor(h * max_width / w) |
| `Reencoding.EverySaveWithinBounds` | main.py:43-76 | every save of a file is at a quality in [2, 90], for every limit; when max_width >= 0 it is also at most max_width wide and at most the opened height |
| `Reencoding.FittedFileIsWithinBudget` | resize_images.py:41-59 | a file that ends successfully ends with a save within the byte budget, for any limits; when max_width >= 0 that save is at most max_width wide |
| `Reencoding.ProcessImageTerminates` | resize_images.py:36-74 | under `NoSpinAtEmpty` and for max_width >= 0, a fuel of 90 + 92 * (width + height) saves always suffices for a whole file |
| `Settings.BudgetBytes` | main.py:26 | the byte budget is exactly max_size_kb kilobytes of 1024 bytes, and is positive exactly when max_size_kb is |
| `Settings.MainLimits` | main.py:93-96 | `--width` defaults to 1300 and `--size` to 300 when not given; a given option is used as it is |
| `Settings.ScriptLimits` | resize_images.py:6 | the script runs with width 1300 and a budget of 307200 bytes |
| `Batch.ResizeImages` | main.py:21-82 | the batch method computes exactly `RunBatch`: no files gives the early return; otherwise one report per file, in order, stopping after a file whose loop has not ended |
| `Batch.ProcessAll` | main.py:31-82 | the reports follow the files in order, at most one per file, and a file is left without a report only behind a file whose loop has not ended |
| `Batch.RunBatch` | main.py:21-31 | a run finds no images exactly when no files are given; a finished run reports every file; an unfinished one ends with the report of the file still looping |
| `Batch.UnfinishedStaysLast` | main.py:31-78 | once a file has not left its loop, no later file is processed: the reports are those up to that file |
| `Batch.EveryFileReported` | main.py:31-82 | the reports are the files' own processings, in order, up to and including the first file whose loop has not ended, and only the last may be unfinished; if every file finishes, every file gets exactly one report |
| `Batch.FailureIsolated` | resize_images.py:29-80 | replacing one finishing file by any other finishing file, a failing one say, changes no other file's report, nor how many files are reported, nor whether the run finishes |
| `Batch.DefaultRunsMeetDefaultLimits` | main.py:93-107 | with no options, main.py runs exactly as the resize_images.py script does; every file it reports done was saved within 307200 bytes and at most 1300 pixels wide |
| `Batch.FittedReportsMeetLimits` | main.py:26-82 | in any run, every file reported done was saved within max_size_kb * 1024 bytes and, for max_width >= 0, at most max_width wide |
| `Batch.MainRun` | main.py:107 | `main` finds no images exactly when no files are given; every file it reports done meets the `--size` limit it was given, or the default, and the `--width` limit when that is not negative |
| `Batch.ScriptRun` | resize_images.py:94 | the script finds no images exactly when no files are given; every file it reports done was saved within 307200 bytes and at most 1300 pixels wide |

## Left out

- File discovery (main.py:13-19): globbing `*.jpg` … `*.GIF` is file-system enumeration. Its order and duplicates depend on the operating system, so the batch is given the discovered files in order.
- Creating the output folder (main.py:9-10): a file-system side effect.
- The image library: decoding, LANCZOS resampling, `optimize=True` and the pixels themselves. They are reduced to the per-file `Codec`: whether a resize succeeds, and the byte size (or failure) of a save at given dimensions and quality.
- Writing the output file, which the source overwrites on every save: persistence. Only the sizes are modelled.
- Printed progress and error messages: console output.
- Argument parsing, the input-folder existence check, the usage check and the `sys.exit` calls (main.py:84-111, resize_images.py:82-95). Only the limits they pass to `resize_images` are modelled.
- Float rounding. `max_width / original_width`, `* 0.05` and `* 0.9` are floats in the source, exact integers in the model. `int(d * 0.9)` equals `9 * d / 10` at image sizes: the double nearest 0.9 lies just above 0.9, so a product that should be a whole number never falls below it. The downscaled height and the quality step can differ from exact arithmetic by one when the exact value is a whole number (for example `int(1113 * (1300 / 1484))` is 974 in floats, while 1113 * 1300 / 1484 is exactly 975).
- Reencoding.Run: bounded by `fuel`, the number of saves. The source has no bound; `RunTerminates` and `ProcessImageTerminates` show when the bound is never reached, and `RunSpinsWhenNothingFits` shows when the source does not end.
- Reencoding.EverySaveWithinBounds: the width and height parts are stated for max_width >= 0 only; the quality part holds for every limit. With a negative `--width` an accepted resize would give negative dimensions, which then shrink toward 0 and exceed the negative limit.
- Reencoding.FittedFileIsWithinBudget: the width part is stated for max_width >= 0 only, for the same reason; the budget part holds for every limit.
- Reencoding.FirstSave: stated for max_width >= 0 only; a negative limit gives a truncated, not floored, negative height.
- Batch.FailureIsolated: stated for a replaced file and a replacement that both leave the loop. A file that never leaves it stops the batch there, so replacing such a file, or putting one in, does change which later files are reported.
- Reencoding.ProcessImageTerminates: stated for max_width >= 0 only, and only under the `NoSpinAtEmpty` hypothesis.
- Exceptions other than a failed open, a refused resize, a failed save and a division by zero are not told apart; each ends its file as one of these four.
