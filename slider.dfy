/** The rotating page background (src/components/ui/BackgroundSlider.tsx). */
module Slider {
  import opened Wrappers
  import opened JsMath

  /** The mounted slider: the `images` prop and the `currentIndex` and `isLoaded` state. */
  class BackgroundSlider {
    const images: seq<string>
    var currentIndex: int
    var isLoaded: bool

    /** The index always names an image when there is one. */
    ghost predicate Valid()
      reads this
    {
      (|images| == 0 && currentIndex == 0) || 0 <= currentIndex < |images|
    }

    constructor(images: seq<string>)
      ensures this.images == images && currentIndex == 0 && !isLoaded
      ensures Valid()
    {
      this.images := images;
      currentIndex := 0;
      isLoaded := false;
    }

    /** The interval is only set up for more than one image. */
    predicate RotationScheduled()
      reads this
    {
      |images| > 1
    }

    /** One interval callback, `(prevIndex + 1) % images.length`, followed by the effect that
      clears `isLoaded` whenever the index changes; with no timer nothing happens. */
    method Tick()
      requires Valid()
      modifies this
      ensures Valid()
      ensures RotationScheduled() ==> currentIndex == CyclicNext(old(currentIndex), |images|) && !isLoaded
      ensures RotationScheduled() ==> currentIndex != old(currentIndex)
      ensures !RotationScheduled() ==> currentIndex == old(currentIndex) && isLoaded == old(isLoaded)
    {
      if |images| <= 1 {
        return;
      }
      currentIndex := JsRem(currentIndex + 1, |images|);
      isLoaded := false;
    }

    /** `handleImageLoad`: the only place `isLoaded` becomes true. */
    method HandleImageLoad()
      modifies this
      ensures isLoaded && currentIndex == old(currentIndex)
    {
      isLoaded := true;
    }

    /** The image shown, or nothing at all when there are no images (line 52). */
    function Rendered(): (shown: Option<string>)
      requires Valid()
      reads this
      ensures shown.None? <==> |images| == 0
      ensures shown.Some? ==> shown.value == images[currentIndex]
    {
      if |images| == 0 then None else Some(images[currentIndex])
    }
  }

  /** The index after `k` ticks from index `i`, with `n` images. */
  function IndexAfter(i: int, n: int, k: nat): int
    requires n > 0
    decreases k
  {
    if k == 0 then i else CyclicNext(IndexAfter(i, n, k - 1), n)
  }

  lemma MulPositive(a: int, n: int)
    requires a >= 1 && n > 0
    ensures a * n >= n
  {
    assert a * n == (a - 1) * n + n;
    if a > 1 {
      MulPositive(a - 1, n);
    }
  }

  /** Euclidean division is unique: a quotient and an in-range remainder determine `x % n`. */
  lemma ModUnique(x: int, n: int, q: int, r: int)
    requires n > 0 && 0 <= r < n && x == q * n + r
    ensures x % n == r
  {
    var q', r' := x / n, x % n;
    assert (q - q') * n == r' - r;
    if q > q' {
      MulPositive(q - q', n);
    } else if q' > q {
      MulPositive(q' - q, n);
    }
  }

  lemma ModSucc(k: nat, n: int)
    requires n > 0
    ensures (k + 1) % n == if k % n == n - 1 then 0 else k % n + 1
  {
    var q, r := k / n, k % n;
    if r == n - 1 {
      ModUnique(k + 1, n, q + 1, 0);
    } else {
      ModUnique(k + 1, n, q, r + 1);
    }
  }

  /** From the first image, `k` ticks show image `k mod n`: the slider cycles through every
      image in order. */
  lemma {:induction false} IndexAfterTicks(n: int, k: nat)
    requires n > 0
    ensures IndexAfter(0, n, k) == k % n
    decreases k
  {
    if k > 0 {
      IndexAfterTicks(n, k - 1);
      ModSucc(k - 1, n);
    }
  }
}
