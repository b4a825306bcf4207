// The community-creations carousel: a current index that wraps around in
// both directions, an auto-play tick, and the per-image loading flags.
module ImageSlider {
  import opened Common

  /** `x % n` is the remainder of any decomposition `x == q * n + r` with `0 <= r < n`. */
  lemma ModUnique(x: int, q: int, r: int, n: int)
    requires n > 0 && x == q * n + r && 0 <= r < n
    ensures x % n == r
  {
    var q', r' := x / n, x % n;
    var d := q - q';
    assert d * n == r' - r by {
      assert q * n - q' * n == d * n;
    }
    if d > 0 {
      MulAtLeast(d, n);
    } else if d < 0 {
      MulAtLeast(-d, n);
    }
  }

  lemma MulAtLeast(d: int, n: int)
    requires d >= 1 && n > 0
    ensures d * n >= n
  {
    assert d * n == (d - 1) * n + n;
    assert (d - 1) * n >= 0;
  }

  /** `goToNext`'s conditional: the last slide wraps to the first. */
  function Next(i: nat, n: nat): (r: nat)
    requires i < n
    ensures r < n && r == (i + 1) % n
  {
    if i == n - 1 then ModUnique(i + 1, 1, 0, n); 0
    else ModUnique(i + 1, 0, i + 1, n); i + 1
  }

  /** `goToPrevious`'s conditional: the first slide wraps to the last. */
  function Previous(i: nat, n: nat): (r: nat)
    requires i < n
    ensures r < n && r == (i - 1 + n) % n
  {
    if i == 0 then ModUnique(n - 1, 0, n - 1, n); n - 1
    else ModUnique(i - 1 + n, 1, i - 1, n); i - 1
  }

  /** Next then previous, or previous then next, is back where it started. */
  lemma PreviousUndoesNext(i: nat, n: nat)
    requires i < n
    ensures Previous(Next(i, n), n) == i
    ensures Next(Previous(i, n), n) == i
  {
  }

  /** The index after `k` auto-play ticks from `i`. */
  function Ticks(i: nat, n: nat, k: nat): (r: nat)
    requires i < n
    ensures r < n
  {
    if k == 0 then i else Next(Ticks(i, n, k - 1), n)
  }

  /** `k` ticks move the index `k` places round the circle; `n` ticks are a full turn. */
  lemma {:induction false} TicksAreModular(i: nat, n: nat, k: nat)
    requires i < n
    ensures Ticks(i, n, k) == (i + k) % n
  {
    if k > 0 {
      TicksAreModular(i, n, k - 1);
      ModSucc(i + k - 1, n);
    } else {
      ModUnique(i, 0, i, n);
    }
  }

  /** Stepping the remainder is taking the remainder of the step. */
  lemma ModSucc(x: nat, n: nat)
    requires n > 0
    ensures (x % n + 1) % n == (x + 1) % n
  {
    var q, j := x / n, x % n;
    assert x + 1 == q * n + (j + 1);
    if j + 1 == n {
      ModUnique(x + 1, q + 1, 0, n);
      ModUnique(j + 1, 1, 0, n);
    } else {
      ModUnique(x + 1, q, j + 1, n);
      ModUnique(j + 1, 0, j + 1, n);
    }
  }

  lemma FullTurn(i: nat, n: nat)
    requires i < n
    ensures Ticks(i, n, n) == i
  {
    TicksAreModular(i, n, n);
    ModUnique(i + n, 1, i, n);
  }

  /** The interval is armed only with auto-play on and more than one image. */
  predicate AutoPlayArmed(autoPlay: bool, n: nat)
  {
    autoPlay && n > 1
  }

  /** The navigation the carousel renders: arrows, one dot per slide, and the `i / n` counter. */
  datatype Controls = Controls(arrows: bool, dots: seq<nat>, counter: Option<(nat, nat)>)

  function Range(n: nat): (r: seq<nat>)
    ensures |r| == n && forall k :: 0 <= k < n ==> r[k] == k
  {
    if n == 0 then [] else Range(n - 1) + [n - 1]
  }

  /**
   * What is rendered around the image: nothing navigable at all with no
   * images, and arrows, dots and counter only with more than one.
   */
  function ControlsFor(i: nat, n: nat): (r: Option<Controls>)
    ensures r.None? <==> n == 0
    ensures r.Some? ==> (r.value.arrows <==> n > 1)
    ensures r.Some? ==> (r.value.counter.Some? <==> n > 1)
    ensures r.Some? && n > 1 ==> r.value.counter == Some((i + 1, n))
    ensures r.Some? ==> (n > 1 ==> |r.value.dots| == n) && (n <= 1 ==> r.value.dots == [])
    ensures r.Some? ==> forall k :: 0 <= k < |r.value.dots| ==> r.value.dots[k] == k && r.value.dots[k] < n
  {
    if n == 0 then None
    else if n == 1 then Some(Controls(false, [], None))
    else Some(Controls(true, Range(n), Some((i + 1, n))))
  }

  /** The carousel's state over a fixed list of images. */
  class Slider {
    const images: seq<string>
    const autoPlay: bool
    var currentIndex: nat
    var showFullscreen: bool
    var imageLoading: bool
    var imageError: bool

    /** The index names an image whenever there is one. */
    predicate Valid()
      reads this
    {
      currentIndex == 0 || currentIndex < |images|
    }

    constructor (images: seq<string>, autoPlay: bool)
      ensures this.images == images && this.autoPlay == autoPlay
      ensures currentIndex == 0 && !showFullscreen && imageLoading && !imageError
      ensures Valid()
    {
      this.images := images;
      this.autoPlay := autoPlay;
      currentIndex := 0;
      showFullscreen := false;
      imageLoading := true;
      imageError := false;
    }

    /**
     * `setCurrentIndex(k)`: when the index actually changes, the effect on
     * it marks the new image as loading and clears the error.
     */
    method SetIndex(k: nat)
      modifies this
      ensures currentIndex == k
      ensures k != old(currentIndex) ==> imageLoading && !imageError
      ensures k == old(currentIndex) ==> imageLoading == old(imageLoading) && imageError == old(imageError)
      ensures showFullscreen == old(showFullscreen)
    {
      if k != currentIndex {
        currentIndex := k;
        imageLoading := true;
        imageError := false;
      }
    }

    /** The next arrow. */
    method GoToNext()
      requires Valid() && |images| > 0
      modifies this
      ensures Valid() && currentIndex == (old(currentIndex) + 1) % |images|
      ensures currentIndex != old(currentIndex) ==> imageLoading && !imageError
      ensures currentIndex == old(currentIndex) ==> imageLoading == old(imageLoading) && imageError == old(imageError)
      ensures showFullscreen == old(showFullscreen)
    {
      SetIndex(Next(currentIndex, |images|));
    }

    /** The previous arrow. */
    method GoToPrevious()
      requires Valid() && |images| > 0
      modifies this
      ensures Valid() && currentIndex == (old(currentIndex) - 1 + |images|) % |images|
      ensures currentIndex != old(currentIndex) ==> imageLoading && !imageError
      ensures currentIndex == old(currentIndex) ==> imageLoading == old(imageLoading) && imageError == old(imageError)
      ensures showFullscreen == old(showFullscreen)
    {
      SetIndex(Previous(currentIndex, |images|));
    }

    /** A dot: only offered for an existing slide, and jumps straight to it. */
    method GoToSlide(k: nat)
      requires k < |images|
      modifies this
      ensures Valid() && currentIndex == k
      ensures k != old(currentIndex) ==> imageLoading && !imageError
      ensures k == old(currentIndex) ==> imageLoading == old(imageLoading) && imageError == old(imageError)
      ensures showFullscreen == old(showFullscreen)
    {
      SetIndex(k);
    }

    /** One firing of the auto-play interval, the same wrap as the next arrow. */
    method AutoPlayTick()
      requires Valid() && AutoPlayArmed(autoPlay, |images|)
      modifies this
      ensures Valid() && currentIndex == Next(old(currentIndex), |images|)
      ensures currentIndex != old(currentIndex) ==> imageLoading && !imageError
      ensures currentIndex == old(currentIndex) ==> imageLoading == old(imageLoading) && imageError == old(imageError)
      ensures showFullscreen == old(showFullscreen)
    {
      SetIndex(if currentIndex == |images| - 1 then 0 else currentIndex + 1);
    }

    /** The delayed part of `handleImageLoad`: the image is shown. */
    method ImageLoaded()
      modifies this
      ensures !imageLoading && !imageError
      ensures currentIndex == old(currentIndex) && showFullscreen == old(showFullscreen)
    {
      imageLoading := false;
      imageError := false;
    }

    /** `handleImageError`: the placeholder replaces the spinner. */
    method ImageFailed()
      modifies this
      ensures !imageLoading && imageError
      ensures currentIndex == old(currentIndex) && showFullscreen == old(showFullscreen)
    {
      imageLoading := false;
      imageError := true;
    }

    method OpenFullscreen()
      modifies this
      ensures showFullscreen
      ensures currentIndex == old(currentIndex) && imageLoading == old(imageLoading) && imageError == old(imageError)
    {
      showFullscreen := true;
    }

    method CloseFullscreen()
      modifies this
      ensures !showFullscreen
      ensures currentIndex == old(currentIndex) && imageLoading == old(imageLoading) && imageError == old(imageError)
    {
      showFullscreen := false;
    }
  }
}
