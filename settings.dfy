/** The limits a run works with: the maximum output width in pixels and the
    maximum file size in kilobytes, their defaults, and the conversion of
    the size limit to bytes. */
module Settings {
  import opened Imaging

  /** `max_width=1300`, also argparse's `--width` default. */
  const DefaultMaxWidth: int := 1300
  /** `max_size_kb=300`, also argparse's `--size` default. */
  const DefaultMaxSizeKb: int := 300

  datatype Limits = Limits(maxWidth: int, maxSizeKb: int)

  /** `max_size_kb * 1024`: the budget is a whole number of kilobytes of
      1024 bytes, with the sign of the limit given. */
  function BudgetBytes(maxSizeKb: int): (b: int)
    ensures b % 1024 == 0 && b / 1024 == maxSizeKb
    ensures b > 0 <==> maxSizeKb > 0
  {
    maxSizeKb * 1024
  }

  /** The limits `main` passes on: each option that was not given on the
      command line takes its default. */
  function MainLimits(widthOption: Option<int>, sizeOption: Option<int>): (l: Limits)
    ensures widthOption.None? ==> l.maxWidth == DefaultMaxWidth
    ensures widthOption.Some? ==> l.maxWidth == widthOption.value
    ensures sizeOption.None? ==> l.maxSizeKb == DefaultMaxSizeKb
    ensures sizeOption.Some? ==> l.maxSizeKb == sizeOption.value
  {
    Limits(match widthOption case Some(w) => w case None => DefaultMaxWidth,
           match sizeOption case Some(s) => s case None => DefaultMaxSizeKb)
  }

  /** The limits the resize_images.py script runs with: always the
      defaults, 1300 pixels and 300 KB, that is 307200 bytes. */
  function ScriptLimits(): (l: Limits)
    ensures l.maxWidth == 1300 && BudgetBytes(l.maxSizeKb) == 307200
  {
    Limits(DefaultMaxWidth, DefaultMaxSizeKb)
  }
}
