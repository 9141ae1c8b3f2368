/** public/src/sprite.mjs: an animation as a list of images. Which image to draw for a
    frame counter is pure index arithmetic; so are the image count and the shadowed copy
    of a sprite, whose sources the drawing code computes. Loading is not part of this
    model, so a sprite is a value: the sources still pending, the frame duration and the
    loaded images. */
module Sprite {
  import opened Js

  /** A loaded image: its source and its size in pixels. */
  datatype Image = Image(src: string, width: real, height: real)

  /** The frame duration a sprite gets when none is given. */
  const DEFAULT_DURATION: real := 1.0

  datatype Sprite = Sprite(pending: seq<string>, duration: real, images: seq<Image>)

  /** `new Sprite(srcList, duration = 1)`: every source pending, no image loaded yet; an
      undefined duration takes the default. */
  function New(srcList: seq<string>, duration: Num): (r: Sprite)
    ensures r.pending == srcList && r.images == []
    ensures duration.Some? ==> r.duration == duration.value
    ensures duration.None? ==> r.duration == DEFAULT_DURATION
  {
    Sprite(srcList, duration.GetOr(DEFAULT_DURATION), [])
  }

  /** `frame(n)`: nothing while sources are pending; otherwise the image at
      `Math.floor(n / duration) % images.length`. That index is NaN (no image) when there
      are no images or the duration is 0, and negative (no image either) when the
      quotient is negative, as JavaScript's `%` keeps the dividend's sign. */
  function Frame(s: Sprite, n: real): (r: Option<Image>)
    ensures s.pending != [] ==> r.None?
    ensures r.Some? ==> r.value in s.images
  {
    if s.pending != [] || s.images == [] || s.duration == 0.0 then None
    else
      var i := Rem(Floor(n / s.duration), |s.images|);
      if i < 0 then None else Some(s.images[i])
  }

  /** `frames()`. */
  function Frames(s: Sprite): (r: nat)
    ensures r == |s.images|
  {
    |s.images|
  }

  /** Once loaded, with a positive duration, frame n >= 0 is the image at
      `floor(n / duration) mod images.length`, which is always a valid index. */
  lemma FrameIndex(s: Sprite, n: real)
    requires s.pending == [] && s.images != [] && s.duration > 0.0 && n >= 0.0
    ensures 0 <= Floor(n / s.duration) % |s.images| < |s.images|
    ensures Frame(s, n) == Some(s.images[Floor(n / s.duration) % |s.images|])
  {
    assert n / s.duration >= 0.0;
  }

  /** The image for a counter whose quotient by the duration has floor q. */
  function ImageAt(s: Sprite, q: int): Option<Image>
    requires s.images != []
  {
    var i := Rem(q, |s.images|);
    if i < 0 then None else Some(s.images[i])
  }

  lemma FrameAt(s: Sprite, n: real, q: int)
    requires s.pending == [] && s.images != [] && s.duration > 0.0
    requires Floor(n / s.duration) == q
    ensures Frame(s, n) == ImageAt(s, q)
  {
  }

  /** Every counter in one block of `duration` counts selects the same image. */
  lemma FrameBlock(s: Sprite, k: nat, a: real, b: real)
    requires s.pending == [] && s.images != [] && s.duration > 0.0
    requires 0.0 <= a < s.duration && 0.0 <= b < s.duration
    ensures Frame(s, (k as real) * s.duration + a) == Frame(s, (k as real) * s.duration + b)
  {
    var x := (k as real) * s.duration + a;
    var y := (k as real) * s.duration + b;
    BlockFloor(k, a, s.duration, x);
    BlockFloor(k, b, s.duration, y);
    FrameAt(s, x, k);
    FrameAt(s, y, k);
  }

  lemma BlockFloor(k: nat, a: real, d: real, x: real)
    requires d > 0.0 && 0.0 <= a < d && x == (k as real) * d + a
    ensures Floor(x / d) == k
  {
    QuotientBounds(x, d, k as real, k as real + 1.0);
    FloorOf(x / d, k);
  }

  /** Math.floor(y) is the integer k with k <= y < k + 1. */
  lemma FloorOf(y: real, k: int)
    requires k as real <= y < k as real + 1.0
    ensures Floor(y) == k
  {
  }

  lemma QuotientBounds(x: real, d: real, lo: real, hi: real)
    requires d > 0.0 && lo * d <= x < hi * d
    ensures lo <= x / d < hi
  {
    assert (x / d) * d == x;
  }

  /** The animation repeats every `duration * images.length` counts. */
  lemma FramePeriod(s: Sprite, n: real)
    requires s.pending == [] && s.images != [] && s.duration > 0.0 && n >= 0.0
    ensures Frame(s, n + s.duration * (|s.images| as real)) == Frame(s, n)
  {
    var m := n + s.duration * (|s.images| as real);
    var q := Floor(n / s.duration);
    PeriodFloor(n, s.duration, |s.images|, m);
    FrameAt(s, n, q);
    FrameAt(s, m, q + |s.images|);
    NonNegativeQuotient(n, s.duration);
    ImageShift(s, q);
  }

  lemma ImageShift(s: Sprite, q: int)
    requires s.images != [] && q >= 0
    ensures ImageAt(s, q + |s.images|) == ImageAt(s, q)
  {
    ShiftRem(q, |s.images|);
  }

  lemma PeriodFloor(n: real, d: real, len: nat, m: real)
    requires d > 0.0 && m == n + d * (len as real)
    ensures Floor(m / d) == Floor(n / d) + len
  {
    DivShift(n, d, len as real);
    FloorOf(m / d, Floor(n / d) + len);
  }

  lemma DivShift(n: real, d: real, l: real)
    requires d > 0.0
    ensures (n + d * l) / d == n / d + l
  {
  }

  lemma NonNegativeQuotient(n: real, d: real)
    requires n >= 0.0 && d > 0.0
    ensures Floor(n / d) >= 0
  {
    assert n / d >= 0.0;
  }

  lemma ShiftRem(q: int, len: nat)
    requires q >= 0 && len > 0
    ensures Rem(q + len, len) == Rem(q, len)
  {
    var d := q / len;
    var r := q % len;
    assert q + len == (d + 1) * len + r;
    ModUnique(q + len, d + 1, r, len);
  }

  lemma ModUnique(x: int, a: int, r: int, len: int)
    requires len > 0 && 0 <= r < len && x == a * len + r
    ensures x % len == r
  {
    var e := x / len - a;
    assert e * len == r - x % len;
    MulAtLeast(e, len);
  }

  lemma MulAtLeast(e: int, len: int)
    requires len > 0
    ensures e >= 1 ==> e * len >= len
    ensures e <= -1 ==> e * len <= -len
  {
  }

  /** `image.width`-by-`image.height` canvas drawing of an image, blacked out where it is
      opaque, as a data URL: the drawing itself is not part of this model. */
  type Shade = (Image, real) -> string

  /** `shadowed(scale)`: a new sprite, with the same duration, whose pending sources are
      the shadow of each image in order. */
  function Shadowed(s: Sprite, scale: real, shadow: Shade): (r: Sprite)
    ensures r.duration == s.duration && r.images == []
    ensures |r.pending| == Frames(s)
    ensures forall i :: 0 <= i < |s.images| ==> r.pending[i] == shadow(s.images[i], scale)
  {
    New(seq(|s.images|, i requires 0 <= i < |s.images| => shadow(s.images[i], scale)), Some(s.duration))
  }
}
