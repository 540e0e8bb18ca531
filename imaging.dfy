/** The data the re-encoder works on, and the image library it drives as a
    black box.  Pillow's open, resize and save, and the byte count read back
    from the written file, are not modelled; a `Codec` stands for what they
    do to one particular source image. */
module Imaging {

  datatype Option<T> = None | Some(value: T)

  /** Everything that can make the processing of one file raise.  The batch
      driver catches each of these and goes on with the next file. */
  datatype Error =
    | OpenFailed       // Image.open raised (unreadable or unsupported file)
    | ResizeRejected   // the library refused a resize to the requested size
    | SaveFailed       // writing the encoded image (or reading its size) raised
    | DivisionByZero   // a division by a zero width or a zero budget

  datatype Result<T> = Ok(value: T) | Err(error: Error)

  /** What the image library does for one source image.
      `resizes(w, h)` tells whether resizing the current image to w x h
      succeeds (the resized image then has exactly those dimensions);
      `encode(w, h, q)` is the size in bytes of the file written for a
      w x h image at quality q, or None when writing it raises. */
  datatype Codec = Codec(resizes: (int, int) -> bool, encode: (int, int, int) -> Option<nat>)

  /** One discovered input file: its path, whether it opens, the dimensions
      it opens with, and the codec behaviour of its pixel content. */
  datatype ImageFile = ImageFile(path: string, opens: bool, width: nat, height: nat, codec: Codec)

  /** The parameters of one save: current dimensions and quality. */
  datatype Setting = Setting(width: int, height: int, quality: int)

  /** One save of the image and the byte count it produced. */
  datatype Attempt = Attempt(setting: Setting, size: nat)

  /** How the convergence loop ended.  `OutOfFuel` is the model's own: the
      source loops without bound (see Reencoding.Run). */
  datatype Ending = Fitted | Failed(error: Error) | OutOfFuel

  /** Every save made for one file, in order, and how processing ended. */
  datatype Trace = Trace(attempts: seq<Attempt>, ending: Ending)

  function Max(a: int, b: int): (m: int)
    ensures m >= a && m >= b && (m == a || m == b)
  {
    if a >= b then a else b
  }

  function Abs(a: int): (r: nat)
    ensures r == a || r == -a
  {
    if a >= 0 then a else -a
  }

  /** Python's `int(x / y)`: the quotient truncated toward zero. */
  function TruncDiv(a: int, b: int): (q: int)
    requires b != 0
    ensures Abs(q) * Abs(b) <= Abs(a) < (Abs(q) + 1) * Abs(b)
    ensures q > 0 ==> (a > 0) == (b > 0)
    ensures q < 0 ==> (a > 0) != (b > 0)
  {
    var n, d := Abs(a), Abs(b);
    var k := n / d;
    FloorDivBounds(n, d);
    assert k > 0 ==> n > 0;
    var q := if (a >= 0) == (b > 0) then k else -k;
    assert Abs(q) == k;
    q
  }

  /** Euclidean division of naturals rounds down: n / d whole d's fit in n. */
  lemma FloorDivBounds(n: nat, d: nat)
    requires d > 0
    ensures (n / d) * d <= n < (n / d + 1) * d
    ensures n == 0 ==> n / d == 0
  {
    var k, r := n / d, n % d;
    assert n == d * k + r && 0 <= r < d;
    assert (k + 1) * d == k * d + d;
  }
}
