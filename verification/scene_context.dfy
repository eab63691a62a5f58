/**
 * The slide-navigation state machine of the scene context
 * (contexts/SceneContext.tsx).
 *
 * The context owns the index of the current slide, the direction of the
 * last accepted move, a transition flag, a scroll-lock flag and the time of
 * the last accepted change. Every slide change goes through one guarded
 * rule, `SafeSetSlide`: a request is dropped while the scroll lock is held
 * or inside the cooldown window (unless forced), and a target outside the
 * slide range is dropped always.
 *
 * The clock (`Date.now()`) is an explicit `now` argument and the expiry of
 * the timer that clears the transition flag is an explicit request.
 */
module SceneContext {

  import opened Wrappers

  /** Number of slides: HERO, MANIFESTO, WORK, SERVICES, CONTACT. */
  const TotalSlides: int := 5

  /** Minimum milliseconds between two accepted unforced changes. */
  const ScrollCooldown: int := 800

  /** The slide identifiers, with the numeric values of the `SlideId` enum. */
  const Hero: int := 0
  const Manifesto: int := 1
  const Work: int := 2
  const ServicesSlideId: int := 3
  const ContactSlideId: int := 4

  datatype NavState = NavState(
    currentSlide: int,
    direction: int,
    isTransitioning: bool,
    isScrollLocked: bool,
    lastScrollTime: int
  )

  /** A state every consumer can rely on: a real slide and a unit direction. */
  ghost predicate Valid(s: NavState)
  {
    && 0 <= s.currentSlide < TotalSlides
    && -1 <= s.direction <= 1
  }

  function Initial(): (s: NavState)
    ensures s.currentSlide == Hero && s.direction == 0
    ensures !s.isTransitioning && !s.isScrollLocked && s.lastScrollTime == 0
    ensures Valid(s)
  {
    NavState(Hero, 0, false, false, 0)
  }

  /**
   * Whether the guard of `SafeSetSlide` lets a request through: forcing
   * lifts the lock and the cooldown, but never the range check.
   */
  predicate Admits(s: NavState, target: int, force: bool, now: int)
  {
    && (force || !s.isScrollLocked)
    && (force || now - s.lastScrollTime >= ScrollCooldown)
    && 0 <= target < TotalSlides
  }

  /** The shared transition rule behind next, previous and go-to. */
  function SafeSetSlide(s: NavState, target: int, dir: int, force: bool, now: int): (r: NavState)
    // dropped requests leave everything, the timestamp included, untouched
    ensures s.isScrollLocked && !force ==> r == s
    ensures now - s.lastScrollTime < ScrollCooldown && !force ==> r == s
    ensures !(0 <= target < TotalSlides) ==> r == s
    ensures !Admits(s, target, force, now) ==> r == s
    // an accepted request commits target, direction and time, and starts a transition
    ensures Admits(s, target, force, now) ==>
      && r.currentSlide == target
      && r.direction == dir
      && r.isTransitioning
      && r.lastScrollTime == now
    // the rule never touches the lock
    ensures r.isScrollLocked == s.isScrollLocked
  {
    if s.isScrollLocked && !force then s
    else if now - s.lastScrollTime < ScrollCooldown && !force then s
    else if 0 <= target && target < TotalSlides then
      s.(direction := dir, isTransitioning := true, currentSlide := target, lastScrollTime := now)
    else s
  }

  function NextSlide(s: NavState, force: bool, now: int): (r: NavState)
    ensures r == s || (r.currentSlide == s.currentSlide + 1 && r.direction == 1 && r.lastScrollTime == now)
    ensures Admits(s, s.currentSlide + 1, force, now) <==> r != s
    ensures s.currentSlide == TotalSlides - 1 ==> r == s
    ensures Valid(s) ==> Valid(r)
  {
    SafeSetSlide(s, s.currentSlide + 1, 1, force, now)
  }

  function PrevSlide(s: NavState, force: bool, now: int): (r: NavState)
    ensures r == s || (r.currentSlide == s.currentSlide - 1 && r.direction == -1 && r.lastScrollTime == now)
    ensures Admits(s, s.currentSlide - 1, force, now) <==> r != s
    ensures s.currentSlide == 0 ==> r == s
    ensures Valid(s) ==> Valid(r)
  {
    SafeSetSlide(s, s.currentSlide - 1, -1, force, now)
  }

  function GoToSlide(s: NavState, index: int, force: bool, now: int): (r: NavState)
    // going to the current slide does nothing, even when forced
    ensures index == s.currentSlide ==> r == s
    ensures index != s.currentSlide ==> (Admits(s, index, force, now) <==> r != s)
    // a move goes to the index, upward (+1) or downward (-1)
    ensures r != s ==> r.currentSlide == index && r.lastScrollTime == now
    ensures r != s && index > s.currentSlide ==> r.direction == 1
    ensures r != s && index < s.currentSlide ==> r.direction == -1
    ensures Valid(s) ==> Valid(r)
  {
    if index == s.currentSlide then s
    else
      var dir := if index > s.currentSlide then 1 else -1;
      SafeSetSlide(s, index, dir, force, now)
  }

  function SetScrollLocked(s: NavState, locked: bool): (r: NavState)
    ensures r.isScrollLocked == locked
    ensures r.(isScrollLocked := s.isScrollLocked) == s
  {
    s.(isScrollLocked := locked)
  }

  /** The expiry of the 800 ms timer scheduled by an accepted change. */
  function TransitionEnd(s: NavState): (r: NavState)
    ensures !r.isTransitioning
    ensures r.(isTransitioning := s.isTransitioning) == s
  {
    s.(isTransitioning := false)
  }

  /** One call into the context, as any consumer may issue it. */
  datatype Request =
    | Next(force: bool, now: int)
    | Prev(force: bool, now: int)
    | GoTo(index: int, force: bool, now: int)
    | Lock(locked: bool)
    | Expire

  predicate IsForced(q: Request)
  {
    (q.Next? || q.Prev? || q.GoTo?) && q.force
  }

  function Apply(s: NavState, q: Request): (r: NavState)
    ensures Valid(s) ==> Valid(r)
    // the slide moves only on an accepted navigation request, which stamps the clock
    ensures r.currentSlide == s.currentSlide ==> r.lastScrollTime == s.lastScrollTime
    ensures r.currentSlide != s.currentSlide ==> (q.Next? || q.Prev? || q.GoTo?) && r.lastScrollTime == q.now
    ensures r.currentSlide != s.currentSlide && !IsForced(q) ==>
      !s.isScrollLocked && r.lastScrollTime - s.lastScrollTime >= ScrollCooldown
  {
    match q
    case Next(force, now) => NextSlide(s, force, now)
    case Prev(force, now) => PrevSlide(s, force, now)
    case GoTo(index, force, now) => GoToSlide(s, index, force, now)
    case Lock(locked) => SetScrollLocked(s, locked)
    case Expire => TransitionEnd(s)
  }

  /** The state after a sequence of requests, applied in order. */
  function Run(s: NavState, qs: seq<Request>): NavState
    decreases |qs|
  {
    if |qs| == 0 then s else Run(Apply(s, qs[0]), qs[1..])
  }

  /** The number of requests in `qs` that moved the slide. */
  function SlideChanges(s: NavState, qs: seq<Request>): nat
    decreases |qs|
  {
    if |qs| == 0 then 0
    else
      var s' := Apply(s, qs[0]);
      (if s'.currentSlide != s.currentSlide then 1 else 0) + SlideChanges(s', qs[1..])
  }

  /** No sequence of requests, forced or not, leaves the slide range. */
  lemma {:induction false} RunKeepsValid(s: NavState, qs: seq<Request>)
    requires Valid(s)
    ensures Valid(Run(s, qs))
    decreases |qs|
  {
    if |qs| > 0 {
      RunKeepsValid(Apply(s, qs[0]), qs[1..]);
    }
  }

  /**
   * The debounce: without forcing, every accepted change pushes the
   * timestamp forward by at least the cooldown, so `k` changes span at
   * least `k * 800` ms.
   */
  lemma {:induction false} UnforcedChangesAreSpaced(s: NavState, qs: seq<Request>)
    requires forall i :: 0 <= i < |qs| ==> !IsForced(qs[i])
    ensures Run(s, qs).lastScrollTime - s.lastScrollTime >= ScrollCooldown * SlideChanges(s, qs)
    decreases |qs|
  {
    if |qs| > 0 {
      var s' := Apply(s, qs[0]);
      assert !IsForced(qs[0]);
      UnforcedChangesAreSpaced(s', qs[1..]);
    }
  }

  /** While locked, unforced requests of any kind never move the slide. */
  lemma {:induction false} LockedUnforcedRunStays(s: NavState, qs: seq<Request>)
    requires s.isScrollLocked
    requires forall i :: 0 <= i < |qs| ==> !IsForced(qs[i]) && !qs[i].Lock?
    ensures Run(s, qs).currentSlide == s.currentSlide
    ensures Run(s, qs).lastScrollTime == s.lastScrollTime
    ensures SlideChanges(s, qs) == 0
    decreases |qs|
  {
    if |qs| > 0 {
      var s' := Apply(s, qs[0]);
      assert !IsForced(qs[0]) && !qs[0].Lock?;
      assert s'.isScrollLocked;
      LockedUnforcedRunStays(s', qs[1..]);
    }
  }

  /** Two unforced nexts inside one cooldown window give one transition. */
  lemma DoubleNextWithinCooldown(s: NavState, t1: int, t2: int)
    requires Valid(s) && !s.isScrollLocked && s.currentSlide < TotalSlides - 1
    requires t1 - s.lastScrollTime >= ScrollCooldown
    requires t1 <= t2 < t1 + ScrollCooldown
    ensures NextSlide(s, false, t1).currentSlide == s.currentSlide + 1
    ensures NextSlide(NextSlide(s, false, t1), false, t2) == NextSlide(s, false, t1)
  {
  }

  /** A forced call goes through 1 ms after an accepted change, lock held. */
  lemma ForcedBypassesLockAndCooldown(s: NavState, now: int)
    requires s.isScrollLocked && now == s.lastScrollTime + 1
    requires 0 <= s.currentSlide < TotalSlides - 1
    ensures NextSlide(s, true, now).currentSlide == s.currentSlide + 1
    ensures NextSlide(s, false, now) == s
  {
  }

  /** Start on HERO, step to MANIFESTO, let the timer fire. */
  lemma NextThenTimerScenario(now: int)
    requires now >= ScrollCooldown
    ensures var s1 := NextSlide(Initial(), false, now);
      && s1.currentSlide == Manifesto && s1.direction == 1 && s1.isTransitioning
      && !TransitionEnd(s1).isTransitioning && TransitionEnd(s1).currentSlide == Manifesto
  {
  }

  /** From WORK go to CONTACT (down), then back to HERO (up). */
  lemma GoToDirectionsScenario(s: NavState, t1: int, t2: int)
    requires s.currentSlide == Work && !s.isScrollLocked
    requires t1 - s.lastScrollTime >= ScrollCooldown && t2 - t1 >= ScrollCooldown
    ensures var s1 := GoToSlide(s, ContactSlideId, false, t1);
      && s1.currentSlide == ContactSlideId && s1.direction == 1
      && GoToSlide(s1, Hero, false, t2).direction == -1
  {
  }

  /** The keys the context listens for on the window. */
  function KeyRequest(locked: bool, key: string, now: int): (r: Option<Request>)
    ensures locked ==> r.None?
    ensures r.Some? ==> !IsForced(r.value)
    ensures !locked && (key == "ArrowDown" || key == "PageDown") ==> r == Some(Next(false, now))
    ensures !locked && (key == "ArrowUp" || key == "PageUp") ==> r == Some(Prev(false, now))
    ensures key !in {"ArrowDown", "PageDown", "ArrowUp", "PageUp"} ==> r.None?
  {
    if locked then None
    else if key == "ArrowDown" || key == "PageDown" then Some(Next(false, now))
    else if key == "ArrowUp" || key == "PageUp" then Some(Prev(false, now))
    else None
  }

  /** A key press, applied to the state. */
  function HandleKeyDown(s: NavState, key: string, now: int): (r: NavState)
    ensures s.isScrollLocked ==> r == s
    ensures Valid(s) ==> Valid(r)
    ensures -1 <= r.currentSlide - s.currentSlide <= 1
  {
    match KeyRequest(s.isScrollLocked, key, now)
    case None => s
    case Some(q) => Apply(s, q)
  }
}
