/**
 * The Services slide (components/slides/Services.tsx).
 *
 * The slide scrolls on its own, so while it is mounted it holds the scene's
 * scroll lock and leaves the slide only through its top or bottom edge, with
 * forced requests. Edge exits stay blocked until a 2000 ms timer, started at
 * mount, has fired; that expiry is an explicit event here.
 */
module Services {

  import opened Wrappers
  import opened SceneContext
  import SceneController

  /** Delay after mounting before an edge exit is allowed, in ms. */

  /** Distance from the bottom, in pixels, still counted as the bottom. */
  const BottomTolerance: int := 5

  /** The slide's own state: the exit gate and where the last touch began. */
  datatype ServicesState = ServicesState(canNavigate: bool, touchStartY: int)

  /** The scroll position of the slide's section. */
  datatype ScrollBox = ScrollBox(scrollTop: int, scrollHeight: int, clientHeight: int)

  predicate IsAtTop(b: ScrollBox)
  {
    b.scrollTop == 0
  }

  predicate IsAtBottom(b: ScrollBox)
  {
    SceneController.Abs(b.scrollHeight - b.clientHeight - b.scrollTop) < BottomTolerance
  }

  /** Mounting takes the scroll lock and closes the exit gate. */
  function Mount(s: NavState): (r: (NavState, ServicesState))
    ensures r.0.isScrollLocked && !r.1.canNavigate
    ensures r.0.(isScrollLocked := s.isScrollLocked) == s
  {
    (SetScrollLocked(s, true), ServicesState(false, 0))
  }

  /** The 2000 ms timer started at mount has fired: exits open. */
  function ExitTimerFired(st: ServicesState): (r: ServicesState)
    ensures r.canNavigate && r.touchStartY == st.touchStartY
  {
    st.(canNavigate := true)
  }

  /** Unmounting releases the scroll lock (and cancels the exit timer). */
  function Unmount(s: NavState): (r: NavState)
    ensures !r.isScrollLocked
    ensures r.(isScrollLocked := s.isScrollLocked) == s
  {
    SetScrollLocked(s, false)
  }

  /** The section's touch-start handler records where the finger went down. */
  function TouchStart(st: ServicesState, y: int): (r: ServicesState)
    ensures r.touchStartY == y && r.canNavigate == st.canNavigate
  {
    st.(touchStartY := y)
  }

  /**
   * A wheel event on the section: scrolling down at the bottom leaves to
   * the next slide, scrolling up at the top to the previous one, both
   * forced; anything else scrolls the section and navigates nowhere.
   */
  function WheelExit(st: ServicesState, deltaY: int, box: ScrollBox, now: int): (r: Option<Request>)
    ensures r.Some? ==> st.canNavigate && IsForced(r.value)
    ensures r == Some(Next(true, now)) <==> st.canNavigate && deltaY > 0 && IsAtBottom(box)
    ensures r == Some(Prev(true, now)) <==> st.canNavigate && deltaY < 0 && IsAtTop(box)
    ensures r.None? || r == Some(Next(true, now)) || r == Some(Prev(true, now))
  {
    if deltaY > 0 && IsAtBottom(box) then
      if !st.canNavigate then None else Some(Next(true, now))
    else if deltaY < 0 && IsAtTop(box) then
      if !st.canNavigate then None else Some(Prev(true, now))
    else None
  }

  /** A swipe on the section: the same edge rule, past the 50 px threshold. */
  function TouchExit(st: ServicesState, endY: int, box: ScrollBox, now: int): (r: Option<Request>)
    ensures r.Some? ==> st.canNavigate && IsForced(r.value)
    ensures r == Some(Next(true, now)) <==>
      st.canNavigate && st.touchStartY - endY > SceneController.SwipeThreshold && IsAtBottom(box)
    ensures r == Some(Prev(true, now)) <==>
      st.canNavigate && endY - st.touchStartY > SceneController.SwipeThreshold && IsAtTop(box)
    ensures r.None? || r == Some(Next(true, now)) || r == Some(Prev(true, now))
  {
    var diff := st.touchStartY - endY;
    if SceneController.Abs(diff) > SceneController.SwipeThreshold then
      if diff > 0 && IsAtBottom(box) then
        if !st.canNavigate then None else Some(Next(true, now))
      else if diff < 0 && IsAtTop(box) then
        if !st.canNavigate then None else Some(Prev(true, now))
      else None
    else None
  }

  /** The "start a project" button jumps to CONTACT, forced. */
  function CallToAction(now: int): (q: Request)
    ensures IsForced(q) && q.GoTo? && q.index == ContactSlideId
  {
    GoTo(ContactSlideId, true, now)
  }

  /** Until the exit timer fires, no wheel or swipe leaves the slide. */
  lemma NoExitBeforeTimer(s: NavState, deltaY: int, endY: int, box: ScrollBox, now: int)
    ensures WheelExit(Mount(s).1, deltaY, box, now).None?
    ensures TouchExit(Mount(s).1, endY, box, now).None?
  {
  }

  /**
   * Exits are forced, so they get past the lock the slide itself holds and
   * past the cooldown: scrolling down at the bottom of SERVICES lands on
   * CONTACT, and the call to action does too.
   */
  lemma ExitOvercomesOwnLock(s: NavState, deltaY: int, box: ScrollBox, now: int)
    requires s.currentSlide == ServicesSlideId
    requires deltaY > 0 && IsAtBottom(box)
    ensures var (locked, st) := Mount(s);
      && locked.isScrollLocked
      && WheelExit(ExitTimerFired(st), deltaY, box, now) == Some(Next(true, now))
      && Apply(locked, Next(true, now)).currentSlide == ContactSlideId
      && Apply(locked, CallToAction(now)).currentSlide == ContactSlideId
  {
  }

  /** Scrolling up at the top of SERVICES, once allowed, lands on WORK. */
  lemma ExitUpwardLandsOnWork(s: NavState, st: ServicesState, deltaY: int, box: ScrollBox, now: int)
    requires s.currentSlide == ServicesSlideId && st.canNavigate
    requires deltaY < 0 && IsAtTop(box)
    ensures WheelExit(st, deltaY, box, now) == Some(Prev(true, now))
    ensures Apply(s, Prev(true, now)).currentSlide == Work
    ensures Apply(s, Prev(true, now)).direction == -1
  {
  }
}
