/**
 * The whole page as one state machine: every input source the site wires
 * to the scene context (keyboard, window wheel and touch, the Services
 * slide's own handlers, the menu, the portfolio's modal) feeds the same
 * navigation state, in the order the handlers run.
 *
 * Mounting and unmounting of the Services and portfolio slides, and the
 * expiry of their timers, are explicit events.
 */
module Session {

  import opened Wrappers
  import opened SceneContext
  import SceneController
  import Services
  import ProjectList
  import Navigation

  datatype Session = Session(
    scene: NavState,
    touchStartY: int,                         // the window's last touch start
    services: Option<Services.ServicesState>, // present while the Services slide is mounted
    work: ProjectList.ListState
  )

  datatype Event =
    | KeyDown(key: string, now: int)
    | Wheel(deltaY: int, box: Services.ScrollBox, now: int)
    | TouchBegin(y: int)
    | TouchFinish(y: int, box: Services.ScrollBox, now: int)
    | TransitionTimer
    | ServicesMount
    | ServicesExitTimer
    | ServicesUnmount
    | ServicesCallToAction(now: int)
    | MenuClick(index: int, now: int)
    | LogoClick(now: int)
    | HeroCallToAction(now: int)   // the hero's button: an unforced go-to WORK
    | ManifestoCard(now: int)      // the manifesto card: an unforced go-to SERVICES
    | WorkMount
    | WorkEvent(e: ProjectList.ListEvent)

  function Initial(): (s: Session)
    ensures s.scene == SceneContext.Initial()
    // neither the Services slide nor a case study is open, and no touch is recorded
    ensures s.services.None? && s.work.selected.None? && s.work.hovered.None? && s.touchStartY == 0
  {
    Session(SceneContext.Initial(), 0, None, ProjectList.ListState(None, None))
  }

  /** Input gestures: the only events a user's scrolling or typing produces. */
  predicate IsGesture(e: Event)
  {
    e.KeyDown? || e.Wheel? || e.TouchFinish?
  }

  /** Issues a request if an adapter produced one. */
  function Issue(s: NavState, q: Option<Request>): (r: NavState)
    ensures q.None? ==> r == s
    ensures q.Some? ==> r == Apply(s, q.value)
  {
    match q
    case None => s
    case Some(req) => Apply(s, req)
  }

  /** What the window's wheel or touch-end handler received. */
  datatype WindowGesture = WheelMove(deltaY: int) | Swipe(start: int, end: int)

  /** The window handler's classification, read against the current lock. */
  function WindowRequest(g: WindowGesture, locked: bool, now: int): (r: Option<Request>)
    ensures r.Some? ==> !IsForced(r.value) && (r.value.Next? || r.value.Prev?) && r.value.now == now
  {
    match g
    case WheelMove(deltaY) => SceneController.WheelRequest(locked, deltaY, now)
    case Swipe(start, end) => SceneController.TouchRequest(locked, start, end, now)
  }

  /**
   * A gesture reaching first the Services section (when mounted) and then
   * the window: the section may leave the slide with a forced request, and
   * the window handler then classifies the same gesture unforced. While the
   * section holds the lock the window handler ignores the gesture outright;
   * should anything else have released the lock, a forced exit has just
   * stamped the clock, so the window's request at the same instant falls
   * inside the cooldown.
   */
  function Gesture(s: NavState, local: Option<Request>, g: WindowGesture, now: int): (r: NavState)
    requires local.Some? ==> IsForced(local.value) && (local.value.Next? || local.value.Prev?) && local.value.now == now
    ensures Valid(s) ==> Valid(r)
    ensures -1 <= r.currentSlide - s.currentSlide <= 1
  {
    var s1 := Issue(s, local);
    Issue(s1, WindowRequest(g, s1.isScrollLocked, now))
  }

  /** Events that only record something and never ask to navigate. */
  predicate IsBookkeeping(e: Event)
  {
    || e.TouchBegin? || e.TransitionTimer? || e.ServicesMount? || e.ServicesExitTimer?
    || e.ServicesUnmount? || e.WorkMount? || e.WorkEvent?
  }

  /** The two in-slide buttons that ask for a slide without forcing it. */
  predicate IsSlideButton(e: Event)
  {
    e.HeroCallToAction? || e.ManifestoCard?
  }

  /** The slide an in-slide button asks for. */
  function ButtonTarget(e: Event): (target: int)
    requires IsSlideButton(e)
    ensures e.HeroCallToAction? ==> target == Work
    ensures e.ManifestoCard? ==> target == ServicesSlideId
  {
    if e.HeroCallToAction? then Work else ServicesSlideId
  }

  function Step(ss: Session, e: Event): (r: Session)
    ensures Valid(ss.scene) ==> Valid(r.scene)
    // a single gesture moves at most one slide, whichever handlers see it
    ensures IsGesture(e) ==> -1 <= r.scene.currentSlide - ss.scene.currentSlide <= 1
    // a touch start, a timer or a mount only records; it never navigates
    ensures IsBookkeeping(e) ==>
      r.scene.currentSlide == ss.scene.currentSlide && r.scene.lastScrollTime == ss.scene.lastScrollTime
    // while the Services slide is mounted and has not been unlocked by anything else, the window handlers stay quiet
    ensures e.Wheel? && ss.services.Some? && ss.scene.isScrollLocked ==>
      r.scene == Issue(ss.scene, Services.WheelExit(ss.services.value, e.deltaY, e.box, e.now))
    // the in-slide buttons are unforced: the lock and the cooldown stop them
    ensures IsSlideButton(e) && (ss.scene.isScrollLocked || e.now - ss.scene.lastScrollTime < ScrollCooldown) ==>
      r.scene == ss.scene
    ensures IsSlideButton(e) && !ss.scene.isScrollLocked && e.now - ss.scene.lastScrollTime >= ScrollCooldown ==>
      r.scene.currentSlide == ButtonTarget(e)
  {
    match e
    case KeyDown(key, now) =>
      ss.(scene := HandleKeyDown(ss.scene, key, now))
    case Wheel(deltaY, box, now) =>
      var local := if ss.services.Some? then Services.WheelExit(ss.services.value, deltaY, box, now) else None;
      ss.(scene := Gesture(ss.scene, local, WheelMove(deltaY), now))
    case TouchBegin(y) =>
      var st := if ss.services.Some? then Some(Services.TouchStart(ss.services.value, y)) else None;
      ss.(touchStartY := y, services := st)
    case TouchFinish(y, box, now) =>
      var local := if ss.services.Some? then Services.TouchExit(ss.services.value, y, box, now) else None;
      var start := ss.touchStartY;
      ss.(scene := Gesture(ss.scene, local, Swipe(start, y), now))
    case TransitionTimer =>
      ss.(scene := TransitionEnd(ss.scene))
    case ServicesMount =>
      var (scene, st) := Services.Mount(ss.scene);
      ss.(scene := scene, services := Some(st))
    case ServicesExitTimer =>
      if ss.services.Some? then ss.(services := Some(Services.ExitTimerFired(ss.services.value))) else ss
    case ServicesUnmount =>
      if ss.services.Some? then ss.(scene := Services.Unmount(ss.scene), services := None) else ss
    case ServicesCallToAction(now) =>
      if ss.services.Some? then ss.(scene := Apply(ss.scene, Services.CallToAction(now))) else ss
    case MenuClick(index, now) =>
      ss.(scene := Navigation.Navigate(ss.scene, index, now))
    case LogoClick(now) =>
      ss.(scene := Navigation.LogoClick(ss.scene, now))
    case HeroCallToAction(now) =>
      ss.(scene := Apply(ss.scene, GoTo(Work, false, now)))
    case ManifestoCard(now) =>
      ss.(scene := Apply(ss.scene, GoTo(ServicesSlideId, false, now)))
    case WorkMount =>
      var (ls, scene) := ProjectList.Mount(ss.scene);
      ss.(work := ls, scene := scene)
    case WorkEvent(le) =>
      var (ls, scene) := ProjectList.Step(ss.work, ss.scene, le);
      ss.(work := ls, scene := scene)
  }

  function Run(ss: Session, es: seq<Event>): Session
    decreases |es|
  {
    if |es| == 0 then ss else Run(Step(ss, es[0]), es[1..])
  }

  /** Whatever the user does, in any order, the page shows a real slide. */
  lemma {:induction false} RunKeepsValid(ss: Session, es: seq<Event>)
    requires Valid(ss.scene)
    ensures Valid(Run(ss, es).scene)
    decreases |es|
  {
    if |es| > 0 {
      RunKeepsValid(Step(ss, es[0]), es[1..]);
    }
  }

  /** From the start of a session, every reachable state is valid. */
  lemma ReachableIsValid(es: seq<Event>)
    ensures Valid(Run(Initial(), es).scene)
  {
    RunKeepsValid(Initial(), es);
  }

  /**
   * The HERO slide's call to action and the MANIFESTO card are unforced:
   * the lock or the cooldown silences them, and otherwise each lands on its
   * slide, moving forward from the slide that shows it.
   */
  lemma SlideButtons(ss: Session, now: int)
    ensures ss.scene.isScrollLocked ==>
      Step(ss, HeroCallToAction(now)).scene == ss.scene && Step(ss, ManifestoCard(now)).scene == ss.scene
    ensures now - ss.scene.lastScrollTime < ScrollCooldown ==>
      Step(ss, HeroCallToAction(now)).scene == ss.scene && Step(ss, ManifestoCard(now)).scene == ss.scene
    ensures !ss.scene.isScrollLocked && now - ss.scene.lastScrollTime >= ScrollCooldown ==>
      Step(ss, HeroCallToAction(now)).scene.currentSlide == Work
      && Step(ss, ManifestoCard(now)).scene.currentSlide == ServicesSlideId
    ensures !ss.scene.isScrollLocked && now - ss.scene.lastScrollTime >= ScrollCooldown ==>
      (ss.scene.currentSlide == Hero ==> Step(ss, HeroCallToAction(now)).scene.direction == 1)
      && (ss.scene.currentSlide == Manifesto ==> Step(ss, ManifestoCard(now)).scene.direction == 1)
  {
  }

  /**
   * The Services section's exits are forced, so nothing spaces them out:
   * while the section stays mounted with its gate open, two wheel-ups 1 ms
   * apart at its top leave SERVICES and then WORK.
   */
  lemma ServicesExitsAreNotSpaced(ss: Session, box: Services.ScrollBox, t: int)
    requires ss.scene.currentSlide == ServicesSlideId && ss.scene.isScrollLocked
    requires ss.services.Some? && ss.services.value.canNavigate
    requires Services.IsAtTop(box)
    ensures var s1 := Step(ss, Wheel(-1, box, t));
      s1.scene.currentSlide == Work && Step(s1, Wheel(-1, box, t + 1)).scene.currentSlide == Manifesto
  {
  }

  /**
   * Scrolling down at the bottom of the Services slide, once its exit timer
   * has fired, lands on CONTACT in one step although the slide holds the
   * scroll lock.
   */
  lemma ServicesBottomExit(ss: Session, deltaY: int, box: Services.ScrollBox, now: int)
    requires ss.scene.currentSlide == ServicesSlideId && ss.scene.isScrollLocked
    requires ss.services.Some? && ss.services.value.canNavigate
    requires deltaY > 0 && Services.IsAtBottom(box)
    ensures Step(ss, Wheel(deltaY, box, now)).scene.currentSlide == ContactSlideId
  {
  }
}
