/**
 * The scene controller (components/SceneController.tsx): it turns window
 * wheel and touch gestures into unforced next/previous requests, picks the
 * component for the current slide and the offsets of the slide transition.
 */
module SceneController {

  import opened Wrappers
  import opened SceneContext

  /** A wheel movement must exceed this many pixels to count. */
  const WheelThreshold: int := 20

  /** A swipe must exceed this many pixels to count. */
  const SwipeThreshold: int := 50

  function Abs(x: int): nat
  {
    if x < 0 then -x else x
  }

  /** The same request in the opposite direction. */
  function Mirror(q: Option<Request>): Option<Request>
  {
    match q
    case Some(Next(f, t)) => Some(Prev(f, t))
    case Some(Prev(f, t)) => Some(Next(f, t))
    case other => other
  }

  /** Classifies one wheel event (positive `deltaY` scrolls down). */
  function WheelRequest(locked: bool, deltaY: int, now: int): (r: Option<Request>)
    ensures locked || Abs(deltaY) <= WheelThreshold <==> r.None?
    ensures r.Some? ==> !IsForced(r.value)
    ensures r == Some(Next(false, now)) <==> !locked && deltaY > WheelThreshold
    ensures r == Some(Prev(false, now)) <==> !locked && deltaY < -WheelThreshold
  {
    if locked then None
    else if Abs(deltaY) > WheelThreshold then
      if deltaY > 0 then Some(Next(false, now)) else Some(Prev(false, now))
    else None
  }

  /** Classifies the end of a swipe that started at `start` (an upward swipe goes to the next slide). */
  function TouchRequest(locked: bool, start: int, end: int, now: int): (r: Option<Request>)
    ensures locked || Abs(start - end) <= SwipeThreshold <==> r.None?
    ensures r.Some? ==> !IsForced(r.value)
    ensures r == Some(Next(false, now)) <==> !locked && start - end > SwipeThreshold
    ensures r == Some(Prev(false, now)) <==> !locked && end - start > SwipeThreshold
  {
    if locked then None
    else
      var diff := start - end;
      if Abs(diff) > SwipeThreshold then
        if diff > 0 then Some(Next(false, now)) else Some(Prev(false, now))
      else None
  }

  /** Scrolling up is scrolling down mirrored. */
  lemma WheelIsSymmetric(locked: bool, deltaY: int, now: int)
    ensures WheelRequest(locked, -deltaY, now) == Mirror(WheelRequest(locked, deltaY, now))
  {
  }

  /** Swiping down is swiping up mirrored. */
  lemma TouchIsSymmetric(locked: bool, start: int, end: int, now: int)
    ensures TouchRequest(locked, end, start, now) == Mirror(TouchRequest(locked, start, end, now))
  {
  }

  /** The components of the five slides, in the order they are shown. */
  datatype SlideComponent = HeroSlide | ManifestoSlide | ProjectListSlide | ServicesSlide | ContactSlide

  datatype SlideEntry = SlideEntry(id: int, component: SlideComponent)

  /** The numeric `SlideId` each component is registered under. */
  function IdOf(c: SlideComponent): int
  {
    match c
    case HeroSlide => Hero
    case ManifestoSlide => Manifesto
    case ProjectListSlide => Work
    case ServicesSlide => ServicesSlideId
    case ContactSlide => ContactSlideId
  }

  /** The slide table: entry `i` has id `i`, and every slide id has its own component. */
  function Slides(): (t: seq<SlideEntry>)
    ensures |t| == TotalSlides
    ensures forall i :: 0 <= i < |t| ==> t[i].id == i && IdOf(t[i].component) == i
  {
    [ SlideEntry(Hero, HeroSlide),
      SlideEntry(Manifesto, ManifestoSlide),
      SlideEntry(Work, ProjectListSlide),
      SlideEntry(ServicesSlideId, ServicesSlide),
      SlideEntry(ContactSlideId, ContactSlide) ]
  }

  /** The component rendered for `currentSlide`; an index off the table falls back to the first. */
  function ActiveSlide(currentSlide: int): (c: SlideComponent)
    ensures 0 <= currentSlide < TotalSlides ==> IdOf(c) == currentSlide
    ensures !(0 <= currentSlide < TotalSlides) ==> c == HeroSlide
  {
    var t := Slides();
    if 0 <= currentSlide < |t| then t[currentSlide].component else t[0].component
  }

  /** Every component is reachable: rendering its own id gives it back. */
  lemma ActiveSlideRoundTrip(c: SlideComponent)
    ensures ActiveSlide(IdOf(c)) == c
  {
  }

  /** Vertical offset, in percent, the entering slide starts from. */
  function EnterOffset(direction: int): (y: int)
    ensures y > 0 <==> direction > 0
    ensures Abs(y) == 100
  {
    if direction > 0 then 100 else -100
  }

  /** Vertical offset, in percent, the exiting slide moves to. */
  function ExitOffset(direction: int): (y: int)
    ensures y < 0 <==> direction > 0
    ensures Abs(y) == 20
  {
    if direction > 0 then -20 else 20
  }

  /** The exiting slide always drifts against the entering one, by a fifth of its travel. */
  lemma OffsetsOppose(direction: int)
    ensures EnterOffset(direction) == -5 * ExitOffset(direction)
  {
  }
}
