/** The project image slider (carousel) of the portfolio page.
    One Slider object per `.slider-wrapper` region; its index is moved by
    goToSlide, nextSlide and prevSlide, and every move is followed by a
    re-render of the dots, the button flags and the horizontal offset. */
module ProjectSlider {

  function Min(a: int, b: int): int { if a <= b then a else b }
  function Max(a: int, b: int): int { if a >= b then a else b }

  /** The index goToSlide settles on for a request `i` over `n` slides:
      Math.max(0, Math.min(i, n - 1)). */
  function Clamp(i: int, n: nat): (r: int)
    ensures 0 <= r
    ensures n >= 1 ==> r < n
    ensures n == 0 ==> r == 0
    ensures 0 <= i < n ==> r == i
    ensures i < 0 ==> r == 0
    ensures n >= 1 && i >= n ==> r == n - 1
  {
    Max(0, Min(i, n - 1))
  }

  /** The values currentIndex can take: a slide position, or 0 when there
      are no slides at all (the clamp then yields 0). */
  predicate InRange(c: int, n: nat) {
    0 <= c && (c < n || c == 0)
  }

  /** Index after nextSlide: a guarded single step forward, never wrapping. */
  function NextIndex(c: int, n: nat): (r: int)
    ensures c < n - 1 ==> r == c + 1
    ensures c >= n - 1 ==> r == c
    ensures InRange(c, n) ==> InRange(r, n)
  {
    if c < n - 1 then c + 1 else c
  }

  /** Index after prevSlide: a guarded single step back, never wrapping. */
  function PrevIndex(c: int, n: nat): (r: int)
    ensures c > 0 ==> r == c - 1
    ensures c <= 0 ==> r == c
    ensures InRange(c, n) ==> InRange(r, n)
  {
    if c > 0 then c - 1 else c
  }

  /** What updateSlider derives from the index: one `active` flag per dot,
      the two `disabled` flags and the offset, in percent of the container. */
  datatype View = View(dots: seq<bool>, prevDisabled: bool, nextDisabled: bool, offset: int)

  function DotFlags(c: int, n: nat): seq<bool> {
    seq(n, k => k == c)
  }

  function Render(c: int, n: nat): View {
    View(DotFlags(c, n), c == 0, c == n - 1, -(c * 100))
  }

  /** Number of dots carrying the `active` class. */
  function CountActive(flags: seq<bool>): nat {
    if flags == [] then 0
    else CountActive(flags[..|flags| - 1]) + (if flags[|flags| - 1] then 1 else 0)
  }

  /** Rendering leaves exactly one active dot when the index names a slide,
      and none otherwise (in particular none when there are no slides). */
  lemma {:induction false} CountDotFlags(c: int, n: nat)
    ensures CountActive(DotFlags(c, n)) == if 0 <= c < n then 1 else 0
  {
    if n > 0 {
      assert DotFlags(c, n)[..n - 1] == DotFlags(c, n - 1);
      CountDotFlags(c, n - 1);
    }
  }

  /** After any render of a slider with slides, exactly one dot is active
      and it is the dot at currentIndex. */
  lemma ExactlyOneDotActive(c: int, n: nat)
    requires n >= 1 && InRange(c, n)
    ensures CountActive(Render(c, n).dots) == 1
    ensures Render(c, n).dots[c]
    ensures forall k :: 0 <= k < n && Render(c, n).dots[k] ==> k == c
  {
    CountDotFlags(c, n);
  }

  /** The prev button is disabled exactly when prevSlide would do nothing. */
  lemma PrevDisabledIffStuck(c: int, n: nat)
    requires InRange(c, n)
    ensures Render(c, n).prevDisabled <==> PrevIndex(c, n) == c
  {
  }

  /** With at least one slide, the next button is disabled exactly when
      nextSlide would do nothing. */
  lemma NextDisabledIffStuck(c: int, n: nat)
    requires n >= 1 && InRange(c, n)
    ensures Render(c, n).nextDisabled <==> NextIndex(c, n) == c
  {
  }

  /** With no slides the index is 0, the prev button is disabled, there are
      no dots, and the next button is NOT disabled (0 == -1 is false),
      although nextSlide does nothing. */
  lemma ZeroSlides(i: int)
    ensures Clamp(i, 0) == 0
    ensures Render(0, 0).dots == [] && Render(0, 0).prevDisabled
    ensures !Render(0, 0).nextDisabled && NextIndex(0, 0) == 0
  {
  }

  /** goToSlide is idempotent: clamping a clamped index changes nothing. */
  lemma ClampIdempotent(i: int, n: nat)
    ensures Clamp(Clamp(i, n), n) == Clamp(i, n)
    ensures InRange(Clamp(i, n), n)
  {
  }

  /** From a valid index, nextSlide and prevSlide are goToSlide of the
      neighbouring index. */
  lemma StepsAreClampedGoTo(c: int, n: nat)
    requires InRange(c, n)
    ensures NextIndex(c, n) == Clamp(c + 1, n)
    ensures PrevIndex(c, n) == Clamp(c - 1, n)
  {
  }

  /** A step that moved is undone by the opposite step. */
  lemma NextPrevInverse(c: int, n: nat)
    requires InRange(c, n)
    ensures c < n - 1 ==> PrevIndex(NextIndex(c, n), n) == c
    ensures c > 0 ==> NextIndex(PrevIndex(c, n), n) == c
  {
  }

  function NextTimes(c: int, n: nat, k: nat): int
    decreases k
  {
    if k == 0 then c else NextTimes(NextIndex(c, n), n, k - 1)
  }

  function PrevTimes(c: int, n: nat, k: nat): int
    decreases k
  {
    if k == 0 then c else PrevTimes(PrevIndex(c, n), n, k - 1)
  }

  /** k presses of "next" from a valid index land on goToSlide(c + k):
      repeated navigation saturates at the last slide and never wraps. */
  lemma {:induction false} NextTimesClamps(c: int, n: nat, k: nat)
    requires InRange(c, n)
    ensures NextTimes(c, n, k) == Clamp(c + k, n)
    decreases k
  {
    if k > 0 {
      NextTimesClamps(NextIndex(c, n), n, k - 1);
    }
  }

  /** k presses of "prev" from a valid index land on goToSlide(c - k). */
  lemma {:induction false} PrevTimesClamps(c: int, n: nat, k: nat)
    requires InRange(c, n)
    ensures PrevTimes(c, n, k) == Clamp(c - k, n)
    decreases k
  {
    if k > 0 {
      PrevTimesClamps(PrevIndex(c, n), n, k - 1);
    }
  }

  /** Which of the two guarded steps an input event asks for. */
  datatype Nav = Forward | Backward | Stay

  datatype Key = ArrowLeft | ArrowRight | OtherKey

  function Navigate(nav: Nav, c: int, n: nat): int {
    match nav
    case Forward => NextIndex(c, n)
    case Backward => PrevIndex(c, n)
    case Stay => c
  }

  function KeyNav(key: Key): Nav {
    match key
    case ArrowLeft => Backward
    case ArrowRight => Forward
    case OtherKey => Stay
  }

  /** Swipe classification on distance = startX - endX, with a dead zone
      of 50 on either side. */
  function SwipeNav(startX: int, endX: int): Nav {
    var distance := startX - endX;
    if distance > 50 then Forward
    else if distance < -50 then Backward
    else Stay
  }

  /** A swipe moves forward iff it travelled more than 50 to the left,
      backward iff more than 50 to the right, and a swipe of at most 50
      (exactly 50 included) does not navigate. Reversing a swipe reverses
      its direction. */
  lemma SwipeDeadZone(startX: int, endX: int)
    ensures SwipeNav(startX, endX) == Forward <==> startX - endX > 50
    ensures SwipeNav(startX, endX) == Backward <==> startX - endX < -50
    ensures SwipeNav(startX, endX) == Stay <==> -50 <= startX - endX <= 50
    ensures SwipeNav(startX, endX) == Forward <==> SwipeNav(endX, startX) == Backward
  {
  }

  /** Four slides at index 0: one right-arrow press moves to slide 1, makes
      the second dot the only active one and enables both buttons. */
  lemma ArrowRightFromFirstOfFour()
    ensures Navigate(KeyNav(ArrowRight), 0, 4) == 1
    ensures Render(1, 4) == View([false, true, false, false], false, false, -100)
  {
    assert DotFlags(1, 4) == [false, true, false, false];
  }

  /** The same scenario on a slider object, through the method contracts. */
  method ArrowRightOnFourSlides() {
    var s := new Slider(4);
    s.OnKeyDown(ArrowRight);
    assert s.currentIndex == 1;
    ExactlyOneDotActive(1, 4);
    assert s.dots[1] && CountActive(s.dots[..]) == 1;
    assert !s.prevDisabled && !s.nextDisabled && s.offset == -100;
  }

  /** One slider region as found on the page: which of its four required
      elements are present, and how many `.slider-item` panels it holds. */
  datatype Region = Region(hasContainer: bool, hasPrev: bool, hasNext: bool, hasDots: bool, slideCount: nat)

  predicate Complete(r: Region) {
    r.hasContainer && r.hasPrev && r.hasNext && r.hasDots
  }

  /** Slide counts of the regions that get a slider, in page order. */
  function SlideCounts(regions: seq<Region>): seq<nat> {
    if regions == [] then []
    else SlideCounts(regions[..|regions| - 1])
         + (if Complete(regions[|regions| - 1]) then [regions[|regions| - 1].slideCount] else [])
  }

  /** Regions skipped for a missing element. */
  function Skipped(regions: seq<Region>): nat {
    if regions == [] then 0
    else Skipped(regions[..|regions| - 1]) + (if Complete(regions[|regions| - 1]) then 0 else 1)
  }

  /** Warnings logged: one when there is no region at all, otherwise one
      per skipped region. */
  function Warnings(regions: seq<Region>): nat {
    if regions == [] then 1 else Skipped(regions)
  }

  /** Every region either becomes a slider or is skipped with a warning. */
  lemma {:induction false} RegionsPartition(regions: seq<Region>)
    ensures |SlideCounts(regions)| + Skipped(regions) == |regions|
    ensures regions == [] ==> Warnings(regions) == 1 && SlideCounts(regions) == []
    ensures regions != [] ==> |SlideCounts(regions)| + Warnings(regions) == |regions|
  {
    if regions != [] {
      RegionsPartition(regions[..|regions| - 1]);
    }
  }

  /** A page of complete regions gets one slider per region and no warning;
      a page without regions gets no slider and exactly one warning. */
  lemma {:induction false} AllCompleteNoWarnings(regions: seq<Region>)
    requires forall i :: 0 <= i < |regions| ==> Complete(regions[i])
    ensures Skipped(regions) == 0
    ensures regions != [] ==> Warnings(regions) == 0
    ensures |SlideCounts(regions)| == |regions|
    ensures forall i :: 0 <= i < |regions| ==> SlideCounts(regions)[i] == regions[i].slideCount
  {
    if regions != [] {
      AllCompleteNoWarnings(regions[..|regions| - 1]);
    }
  }

  class Slider {
    const totalSlides: nat
    const dots: array<bool>
    var currentIndex: int
    var prevDisabled: bool
    var nextDisabled: bool
    var offset: int
    var touchStartX: int
    var touchEndX: int

    /** The UI state as the page shows it. */
    ghost function Shown(): View
      reads this, dots
    {
      View(dots[..], prevDisabled, nextDisabled, offset)
    }

    /** The index is in range and the UI is the rendering of that index. */
    ghost predicate Valid()
      reads this, dots
    {
      dots.Length == totalSlides &&
      InRange(currentIndex, totalSlides) &&
      Shown() == Render(currentIndex, totalSlides)
    }

    /** Builds one dot per slide, dot 0 active, then renders at index 0. */
    constructor (n: nat)
      ensures Valid() && fresh(dots)
      ensures totalSlides == n && currentIndex == 0
      ensures touchStartX == 0 && touchEndX == 0
    {
      var d := new bool[n];
      var i := 0;
      while i < n
        invariant 0 <= i <= n
        invariant forall k :: 0 <= k < i ==> (d[k] <==> k == 0)
      {
        d[i] := i == 0;
        i := i + 1;
      }
      totalSlides := n;
      dots := d;
      currentIndex := 0;
      touchStartX := 0;
      touchEndX := 0;
      new;
      UpdateSlider();
    }

    /** Re-derives the offset, the dots and the button flags from currentIndex. */
    method UpdateSlider()
      requires dots.Length == totalSlides
      modifies this`offset, this`prevDisabled, this`nextDisabled, dots
      ensures currentIndex == old(currentIndex)
      ensures touchStartX == old(touchStartX) && touchEndX == old(touchEndX)
      ensures Shown() == Render(currentIndex, totalSlides)
    {
      offset := -(currentIndex * 100);
      var i := 0;
      while i < dots.Length
        invariant 0 <= i <= dots.Length
        invariant offset == -(currentIndex * 100)
        invariant forall k :: 0 <= k < i ==> (dots[k] <==> k == currentIndex)
      {
        dots[i] := i == currentIndex;
        i := i + 1;
      }
      prevDisabled := currentIndex == 0;
      nextDisabled := currentIndex == totalSlides - 1;
      assert dots[..] == DotFlags(currentIndex, totalSlides);
    }

    /** Dot click and direct navigation: clamp the request, then render. */
    method GoToSlide(index: int)
      requires Valid()
      modifies this, dots
      ensures Valid()
      ensures currentIndex == Clamp(index, totalSlides)
      ensures touchStartX == old(touchStartX) && touchEndX == old(touchEndX)
    {
      currentIndex := Max(0, Min(index, totalSlides - 1));
      UpdateSlider();
    }

    method NextSlide()
      requires Valid()
      modifies this, dots
      ensures Valid()
      ensures currentIndex == NextIndex(old(currentIndex), totalSlides)
      ensures touchStartX == old(touchStartX) && touchEndX == old(touchEndX)
      ensures old(currentIndex) >= totalSlides - 1 ==> unchanged(this) && unchanged(dots)
    {
      if currentIndex < totalSlides - 1 {
        currentIndex := currentIndex + 1;
        UpdateSlider();
      }
    }

    method PrevSlide()
      requires Valid()
      modifies this, dots
      ensures Valid()
      ensures currentIndex == PrevIndex(old(currentIndex), totalSlides)
      ensures touchStartX == old(touchStartX) && touchEndX == old(touchEndX)
      ensures old(currentIndex) <= 0 ==> unchanged(this) && unchanged(dots)
    {
      if currentIndex > 0 {
        currentIndex := currentIndex - 1;
        UpdateSlider();
      }
    }

    /** The document-wide keydown listener this slider registered. */
    method OnKeyDown(key: Key)
      requires Valid()
      modifies this, dots
      ensures Valid()
      ensures currentIndex == Navigate(KeyNav(key), old(currentIndex), totalSlides)
      ensures touchStartX == old(touchStartX) && touchEndX == old(touchEndX)
      ensures key == OtherKey ==> unchanged(this) && unchanged(dots)
    {
      if key == ArrowLeft {
        PrevSlide();
      }
      if key == ArrowRight {
        NextSlide();
      }
    }

    method OnTouchStart(screenX: int)
      modifies this`touchStartX
      ensures touchStartX == screenX
    {
      touchStartX := screenX;
    }

    /** Ends a swipe: at most one guarded step, chosen by the dead zone. */
    method OnTouchEnd(screenX: int)
      requires Valid()
      modifies this, dots
      ensures Valid()
      ensures touchEndX == screenX && touchStartX == old(touchStartX)
      ensures currentIndex == Navigate(SwipeNav(old(touchStartX), screenX), old(currentIndex), totalSlides)
      ensures -50 <= old(touchStartX) - screenX <= 50 ==> Shown() == old(Shown()) && currentIndex == old(currentIndex)
    {
      touchEndX := screenX;
      var swipeDistance := touchStartX - touchEndX;
      if swipeDistance > 50 {
        NextSlide();
      }
      if swipeDistance < -50 {
        PrevSlide();
      }
    }
  }

  /** No two sliders share an object or a dot array. */
  ghost predicate Disjoint(sliders: seq<Slider>)
    reads set s | s in sliders
  {
    forall i, j :: 0 <= i < j < |sliders| ==> sliders[i] != sliders[j] && sliders[i].dots != sliders[j].dots
  }

  /** A key press on the page: every slider's own listener runs, each
      applying the same step to its own index and nothing else. */
  method BroadcastKey(sliders: seq<Slider>, key: Key)
    requires Disjoint(sliders)
    requires forall i :: 0 <= i < |sliders| ==> sliders[i].Valid()
    modifies set s | s in sliders, set s | s in sliders :: s.dots
    ensures forall i :: 0 <= i < |sliders| ==> sliders[i].Valid()
    ensures forall i :: 0 <= i < |sliders| ==>
      sliders[i].currentIndex == Navigate(KeyNav(key), old(sliders[i].currentIndex), sliders[i].totalSlides)
    ensures forall i :: 0 <= i < |sliders| ==>
      sliders[i].touchStartX == old(sliders[i].touchStartX) && sliders[i].touchEndX == old(sliders[i].touchEndX)
  {
    var j := 0;
    while j < |sliders|
      invariant 0 <= j <= |sliders|
      invariant forall i :: 0 <= i < |sliders| ==> sliders[i].Valid()
      invariant forall i :: 0 <= i < j ==>
        sliders[i].currentIndex == Navigate(KeyNav(key), old(sliders[i].currentIndex), sliders[i].totalSlides)
      invariant forall i :: j <= i < |sliders| ==> sliders[i].currentIndex == old(sliders[i].currentIndex)
      invariant forall i :: 0 <= i < |sliders| ==>
        sliders[i].touchStartX == old(sliders[i].touchStartX) && sliders[i].touchEndX == old(sliders[i].touchEndX)
    {
      sliders[j].OnKeyDown(key);
      j := j + 1;
    }
  }

  /** initProjectSlider: one fresh slider per complete region, in page
      order, each at index 0 and rendered; skipped regions only warn. */
  method InitProjectSlider(regions: seq<Region>) returns (sliders: seq<Slider>, warnings: nat)
    ensures warnings == Warnings(regions)
    ensures |sliders| == |SlideCounts(regions)|
    ensures Disjoint(sliders)
    ensures forall i :: 0 <= i < |sliders| ==>
      fresh(sliders[i]) && fresh(sliders[i].dots) && sliders[i].Valid() &&
      sliders[i].currentIndex == 0 && sliders[i].totalSlides == SlideCounts(regions)[i] &&
      sliders[i].touchStartX == 0 && sliders[i].touchEndX == 0
  {
    sliders := [];
    if |regions| == 0 {
      warnings := 1;
      return;
    }
    warnings := 0;
    var j := 0;
    while j < |regions|
      invariant 0 <= j <= |regions|
      invariant warnings == Skipped(regions[..j])
      invariant |sliders| == |SlideCounts(regions[..j])|
      invariant Disjoint(sliders)
      invariant forall i :: 0 <= i < |sliders| ==>
        fresh(sliders[i]) && fresh(sliders[i].dots) && sliders[i].Valid() &&
        sliders[i].currentIndex == 0 && sliders[i].totalSlides == SlideCounts(regions[..j])[i] &&
        sliders[i].touchStartX == 0 && sliders[i].touchEndX == 0
    {
      assert regions[..j + 1][..j] == regions[..j];
      var r := regions[j];
      if Complete(r) {
        var s := new Slider(r.slideCount);
        sliders := sliders + [s];
      } else {
        warnings := warnings + 1;
      }
      j := j + 1;
    }
    assert regions[..j] == regions;
  }
}
