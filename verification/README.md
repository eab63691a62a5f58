# SHIFT landing page: slide navigation, verified

A Dafny model of the interaction logic of the SHIFT agency landing page, a
single-page site of five full-screen slides (HERO, MANIFESTO, WORK, SERVICES,
CONTACT).

The heart of it is the scene context's navigation state machine. It keeps the
current slide, the direction of the last move, a transition flag, a scroll
lock and the time of the last accepted change. All navigation goes through one
guarded rule. A request is dropped while the lock is held or within 800 ms of
the last accepted change, unless it is forced. A target outside the five slides
is always dropped.

Around it sit the adapters that feed it:

- the window's wheel, touch and keyboard handlers;
- the Services slide, which holds the lock while mounted and leaves through its
  scroll edges with forced requests;
- the portfolio, which locks scrolling while a case study is open;
- the menu, whose clicks are forced jumps;
- the HERO slide's call to action and the MANIFESTO card, which ask for WORK
  and SERVICES without forcing.

The model also covers the small pure helpers of the case-study view, the
contact slide and the language switch.

Everything is immutable data and pure functions. The clock is an explicit
`now: int`. Timer expiries are explicit events: the 800 ms transition timer
and the Services slide's 2000 ms exit timer. `Session` composes every input
source over one state. Its lemmas show two things. First, no sequence of
events leaves the slide range. Second, a single wheel, swipe or key event never
moves more than one slide, even when both the Services section and the window
handle it. Successive events are spaced by the cooldown only when unforced:
the Services section's edge exits are forced, so while it stays mounted with
its gate open, two wheel events 1 ms apart can move two slides
(`Session.ServicesExitsAreNotSpaced`).

Files, one module each: `wrappers.dfy` (Option), `scene_context.dfy`,
`scene_controller.dfy`, `services.dfy`, `portfolio.dfy` (the project record
and the shipped sample data), `project_list.dfy`, `case_study.dfy`,
`contact.dfy`, `navigation.dfy`, `language.dfy`, `session.dfy`.

Notes on JavaScript semantics made explicit:

- `hoveredProject ? … : null` treats a hovered id of `0` as "nothing hovered"
  (`ProjectList.HasHover`).
- `metrics || defaults` keeps an empty metrics array, because an empty array
  is truthy.
- `client || "Confidencial"` replaces the empty string.
- `\s` in the phone-number regex is JavaScript's white-space class
  (`Contact.IsSpace`).

The transition timer is never cancelled (contexts/SceneContext.tsx:29-31), so
`TransitionEnd` is an event that may happen at any time. The direction of a
go-to is `index > current ? 1 : -1` (contexts/SceneContext.tsx:44-45), taken
after the early return on the current index.

## Model

| member | source | states |
|---|---|---|
| SceneContext.Initial | contexts/SceneContext.tsx:10-14 | The context starts on HERO (slide 0), direction 0, not transitioning, not locked, last change at time 0; that state is valid. |
| SceneContext.SafeSetSlide | contexts/SceneContext.tsx:16-33 | An unforced request while locked, or within 800 ms of the last change, and any request for a target outside [0,5), leaves the whole state (timestamp included) unchanged; an admitted one sets the target, direction, transition flag and timestamp; the lock is never touched. |
| SceneContext.NextSlide | contexts/SceneContext.tsx:35-37 | Next either does nothing or moves to current+1 with direction +1 stamped `now`; it moves exactly when the guard admits current+1; on the last slide it is a no-op; validity is preserved. |
| SceneContext.PrevSlide | contexts/SceneContext.tsx:39-41 | Previous either does nothing or moves to current-1 with direction -1; it moves exactly when the guard admits current-1; on slide 0 it is a no-op. |
| SceneContext.GoToSlide | contexts/SceneContext.tsx:43-47 | Going to the current slide is a no-op even when forced; otherwise it moves iff admitted, lands on the index, direction +1 upward and -1 downward, so direction stays in {-1,0,1}. |
| SceneContext.SetScrollLocked | contexts/SceneContext.tsx:13 | Setting the lock changes only the lock, to the given value. |
| SceneContext.TransitionEnd | contexts/SceneContext.tsx:29-31 | A timer expiry clears the transition flag and nothing else. |
| SceneContext.Apply | contexts/SceneContext.tsx:16-47 | Any request keeps the state valid; the slide changes only on an accepted navigation request, which stamps the clock with the request's time; an unforced change needs the lock released and at least 800 ms since the last change. |
| SceneContext.RunKeepsValid | contexts/SceneContext.tsx:23 | Over any sequence of requests, forced or not, the current slide stays in [0,5) and the direction in {-1,0,1}. |
| SceneContext.UnforcedChangesAreSpaced | contexts/SceneContext.tsx:18-27 | Without forcing, k slide changes advance the last-change time by at least 800·k ms: the cooldown spaces out every unforced input source (keys, window wheel and touch, the HERO and MANIFESTO buttons). The Services exits, the menu and the logo are forced and are not spaced by it. |
| SceneContext.LockedUnforcedRunStays | contexts/SceneContext.tsx:18 | While locked, any sequence of unforced navigation requests and timer expiries leaves the slide and the timestamp unchanged. |
| SceneContext.DoubleNextWithinCooldown | contexts/SceneContext.tsx:20-21 | Two unforced nexts within one cooldown window produce exactly one transition; the second is dropped. |
| SceneContext.ForcedBypassesLockAndCooldown | contexts/SceneContext.tsx:16-27 | 1 ms after a change and with the lock held, a forced next still moves while an unforced one does not. |
| SceneContext.NextThenTimerScenario | contexts/SceneContext.tsx:29-37 | From the initial state, next moves to MANIFESTO with direction +1 and a transition; the timer expiry then clears the flag without moving. |
| SceneContext.GoToDirectionsScenario | contexts/SceneContext.tsx:43-47 | From WORK, going to CONTACT sets direction +1; from there, going to HERO sets direction -1. |
| SceneContext.KeyRequest | contexts/SceneContext.tsx:51-68 | ArrowDown/PageDown ask for an unforced next, ArrowUp/PageUp for an unforced previous; other keys, and every key while locked, ask for nothing; no key request is forced. |
| SceneContext.HandleKeyDown | contexts/SceneContext.tsx:50-72 | A key press while locked changes nothing; otherwise it moves at most one slide and keeps the state valid. |
| SceneController.WheelRequest | components/SceneController.tsx:40-51 | A wheel event asks for nothing iff locked or abs(deltaY) <= 20; above 20 down is an unforced next and up an unforced previous. |
| SceneController.TouchRequest | components/SceneController.tsx:57-70 | A swipe asks for nothing iff locked or abs(start-end) <= 50; an upward swipe beyond 50 px is an unforced next, a downward one an unforced previous. |
| SceneController.WheelIsSymmetric | components/SceneController.tsx:44-50 | Negating deltaY swaps next and previous and changes nothing else. |
| SceneController.TouchIsSymmetric | components/SceneController.tsx:61-69 | Swapping start and end of a swipe swaps next and previous. |
| SceneController.Slides | components/SceneController.tsx:14-20 | The slide table has five entries; entry i carries slide id i and the component registered under id i (HERO, MANIFESTO, WORK, SERVICES, CONTACT). |
| SceneController.ActiveSlide | components/SceneController.tsx:113 | For an index in [0,5) the rendered component is the one with that id; any other index falls back to HERO. |
| SceneController.ActiveSlideRoundTrip | components/SceneController.tsx:14-20 | Every component is rendered for its own id. |
| SceneController.EnterOffset | components/SceneController.tsx:85-89 | The entering slide starts a full screen away, from below exactly when direction > 0. |
| SceneController.ExitOffset | components/SceneController.tsx:99-110 | The exiting slide drifts 20% up exactly when direction > 0, down otherwise. |
| SceneController.OffsetsOppose | components/SceneController.tsx:84-111 | For every direction the exit drift is opposite to the entry, at a fifth of its distance. |
| Services.Mount | components/slides/Services.tsx:259-266 | Mounting the Services slide takes the scroll lock, changes nothing else in the scene, and closes the exit gate. |
| Services.ExitTimerFired | components/slides/Services.tsx:264-266 | The 2000 ms timer opens the exit gate. |
| Services.Unmount | components/slides/Services.tsx:268-271 | Unmounting releases the scroll lock and changes nothing else. |
| Services.TouchStart | components/slides/Services.tsx:295-297 | A touch start on the section records its y and leaves the gate alone. |
| Services.WheelExit | components/slides/Services.tsx:274-293 | Only with the gate open: scrolling down at the bottom (within 5 px) is a forced next, scrolling up at scrollTop 0 a forced previous, and every other wheel event navigates nowhere. |
| Services.TouchExit | components/slides/Services.tsx:299-317 | Only with the gate open and a swipe beyond 50 px: upward at the bottom is a forced next, downward at the top a forced previous; nothing else. |
| Services.CallToAction | components/slides/Services.tsx:371 | The "Iniciar Proyecto" button asks for a forced go-to CONTACT. |
| Services.NoExitBeforeTimer | components/slides/Services.tsx:256-290 | Right after mounting, no wheel or swipe exits, whatever the scroll position. |
| Services.ExitOvercomesOwnLock | components/slides/Services.tsx:260-289 | After mounting (lock held) and the timer, scrolling down at the bottom of SERVICES reaches CONTACT, and so does the call to action. |
| Services.ExitUpwardLandsOnWork | components/slides/Services.tsx:286-289 | With the gate open, scrolling up at the top of SERVICES reaches WORK with direction -1. |
| Portfolio.SampleProjects | data/projects.ts:28-137 | The shipped portfolio has four projects with ids 1..4 in order, distinct and non-zero. |
| ProjectList.SyncLock | components/slides/ProjectList.tsx:97-99 | The effect sets the lock to "a project is open" and changes nothing else. |
| ProjectList.Mount | components/slides/ProjectList.tsx:75-99 | The portfolio mounts with nothing hovered or open, and its effect releases the lock. |
| ProjectList.Handle | components/slides/ProjectList.tsx:157-159 | Mouse enter hovers the row's id, mouse leave clears the hover, a click opens the project, closing the modal clears the selection. |
| ProjectList.Step | components/slides/ProjectList.tsx:97-99 | After any change of selection the lock equals "a project is open"; an event that leaves the selection alone leaves the scene alone. |
| ProjectList.LockFollowsSelection | components/slides/ProjectList.tsx:97-99 | Once in step, the lock equals "a project is open" after any sequence of portfolio events, and the slide never moves. |
| ProjectList.FindById | components/slides/ProjectList.tsx:102 | The lookup returns the first project with the id, or nothing exactly when no project has it. |
| ProjectList.ActiveProject | components/slides/ProjectList.tsx:101-103 | Nothing hovered (null or id 0) previews nothing; otherwise the preview is a listed project with the hovered id, or nothing when no project has it. |
| ProjectList.OnlyHoveredRowLit | components/slides/ProjectList.tsx:162 | With distinct non-zero ids, hovering row k dims exactly the rows other than k; with nothing hovered no row is dimmed. |
| ProjectList.HoverPreviewsProject | components/slides/ProjectList.tsx:101-103 | Hovering any shipped project previews that very project. |
| CaseStudy.FindIndex | components/CaseStudyView.tsx:292 | The index of the first project with the id, or -1 exactly when none has it. |
| CaseStudy.NextProjectIndex | components/CaseStudyView.tsx:292-293 | The footer's index is always a valid index into a non-empty list. |
| CaseStudy.NextProject | components/CaseStudyView.tsx:293 | The footer always shows a project of the list. |
| CaseStudy.NextIsSuccessor | components/CaseStudyView.tsx:292-293 | With distinct ids, the project at i is followed by the one at (i+1) mod n; the last wraps to the first. |
| CaseStudy.NextOfUnknownIsFirst | components/CaseStudyView.tsx:292-293 | A project not in the list (findIndex -1) is followed by project 0. |
| CaseStudy.NextDiffersFromCurrent | components/CaseStudyView.tsx:292-293 | With more than one project and distinct ids, the footer never shows the project already open. |
| CaseStudy.SampleCycle | components/CaseStudyView.tsx:292-293 | The shipped portfolio's footers cycle 1, 2, 3, 4, 1. |
| CaseStudy.OrElse | components/CaseStudyView.tsx:196 | A non-empty text is shown as given and an empty one is replaced by the fallback, so a non-empty fallback never leaves the line blank. |
| CaseStudy.HeaderNeverBlank | components/CaseStudyView.tsx:196-200 | A project's client line is never blank ("Confidencial" for an empty client) and neither is its year line ("2024" for an empty year). |
| CaseStudy.DefaultMetrics | components/CaseStudyView.tsx:253-258 | The fallback impact strip has four entries drawn with Trophy, Target, TrendingUp and Users. |
| CaseStudy.ShownMetrics | components/CaseStudyView.tsx:253-258 | A project's own metrics are shown as given, even when empty; missing metrics show the four defaults. |
| CaseStudy.IconFor | components/CaseStudyView.tsx:252-261 | A metric's icon is the one registered under its name; a name no icon has draws a Trophy. |
| CaseStudy.IconRoundTrip | components/CaseStudyView.tsx:252 | Each of the four icons is found under its own name. |
| CaseStudy.FullscreenPlayer | components/CaseStudyView.tsx:62-95 | The overlay appears iff fullscreen is on and a full or teaser URL is present; a full URL containing youtube.com/embed plays in a frame at that URL plus ?autoplay=1; otherwise a non-empty video source, the full URL preferred over the teaser. |
| CaseStudy.SampleFullscreenIsYouTube | components/CaseStudyView.tsx:75-77 | Every shipped project opens its full cut as an autoplaying YouTube frame. |
| CaseStudy.ShowsSplitPair | components/CaseStudyView.tsx:229 | Gallery images 2 and 3 are shown, together, exactly when both exist and are non-empty. |
| CaseStudy.SamplesShowSplitPair | components/CaseStudyView.tsx:229 | Every shipped project has non-empty second and third gallery images, so each case study shows the split pair. |
| Contact.Offices | components/slides/Contact.tsx:21-126 | Eight offices with non-empty, pairwise distinct ids, the first being "cri". |
| Contact.InitialSelection | components/slides/Contact.tsx:129 | The slide opens with the first office, "cri", expanded. |
| Contact.Hover | components/slides/Contact.tsx:162 | Hovering a desktop column always expands that office. |
| Contact.Tap | components/slides/Contact.tsx:279 | Tapping the expanded office collapses everything (selection ''); tapping another expands it. |
| Contact.TapToggles | components/slides/Contact.tsx:279 | A tap flips whether the tapped office is expanded, and a double tap restores the previous selection when it was that office or none. |
| Contact.AtMostOneExpanded | components/slides/Contact.tsx:155-156 | With distinct ids at most one office is expanded, exactly one iff the selection names an office, none for ''. |
| Contact.StripSpaces | components/slides/Contact.tsx:225 | The stripped number contains no white space, is no longer than the input, and equals an input that had none. |
| Contact.StripSpacesConcat | components/slides/Contact.tsx:225 | Stripping a concatenation is concatenating the stripped parts. |
| Contact.StripSpacesIdempotent | components/slides/Contact.tsx:225 | Stripping twice is stripping once. |
| Contact.TelHref | components/slides/Contact.tsx:225 | The dial link is "tel:" followed by the phone number with all white space removed. |
| Contact.MailHref | components/slides/Contact.tsx:232 | The mail link is "mailto:" followed by the address verbatim. |
| Contact.StripOneSpace | components/slides/Contact.tsx:225 | A number written as two space-free parts around one space dials as the parts run together. |
| Contact.CostaRicaTel | components/slides/Contact.tsx:29 | The Costa Rica office dials "tel:+5064110-6000": the space is removed and the hyphen kept. |
| Navigation.NavItems | components/Navigation.tsx:14-20 | The menu has five items whose indices are exactly 0..4 in order, each once. |
| Navigation.Navigate | components/Navigation.tsx:23 | A menu click is a forced go-to: it reaches any other slide despite the lock and the cooldown; clicking the active item or an index off the menu changes nothing. |
| Navigation.LogoClick | components/Navigation.tsx:37 | The logo always lands on HERO, and is a no-op there. |
| Navigation.ActiveCountOfDistinct | components/Navigation.tsx:49-55 | Among items with distinct indices, one is highlighted if the current slide is among them, else none. |
| Navigation.ExactlyOneActive | components/Navigation.tsx:49-55 | On any slide in [0,5), exactly one menu item is highlighted, that slide's own. |
| Navigation.ClickHighlightsItem | components/Navigation.tsx:48-49 | With the lock held, clicking item k highlights item k. |
| Language.Toggle | contexts/LanguageContext.tsx:18-20 | Toggling always changes the language (es to en, en to es). |
| Language.SetLanguage | contexts/LanguageContext.tsx:16 | Setting a language yields exactly that language, whatever the current one. |
| Language.T | contexts/LanguageContext.tsx:26 | The dictionary in use is the Spanish one for es and the English one for en. |
| Language.ToggleRoundTrip | contexts/LanguageContext.tsx:16-20 | Toggling twice restores the language; the site starts in es and toggles to en. |
| Language.ToggleSwapsDictionary | contexts/LanguageContext.tsx:18-26 | After a toggle the other dictionary is in use; initially the Spanish one is. |
| Session.Initial | contexts/SceneContext.tsx:10-14 | The page starts with the scene context's initial state, no Services slide mounted, no project hovered or open and no touch recorded. |
| Session.WindowRequest | components/SceneController.tsx:38-70 | The window's wheel and touch-end handlers only ever ask for an unforced next or previous at the event's time. |
| Session.Gesture | components/slides/Services.tsx:281-292 | A gesture handled by the Services section and then by the window moves at most one slide: while the section holds the lock the window handler ignores the gesture; if the lock was released elsewhere, the forced exit has just stamped the clock, so the window's request at the same instant is inside the cooldown. |
| Session.Step | components/SceneController.tsx:39-81 | Every event keeps the state valid; a key, wheel or swipe moves at most one slide; touch starts, timers, mounts and portfolio events never move it; with Services mounted and locked only its own edge rule acts on a wheel event; the HERO and MANIFESTO buttons are stopped by the lock and the cooldown and otherwise reach their slide. |
| Session.SlideButtons | components/slides/Hero.tsx:157 | The hero's call to action is an unforced go-to WORK and the manifesto card an unforced go-to SERVICES (components/slides/Manifesto.tsx:145): while the lock is held or within the cooldown they change nothing, otherwise they land on their slide. |
| Session.ServicesExitsAreNotSpaced | components/slides/Services.tsx:286-289 | The section's exits are forced and bypass the cooldown: with the gate open and the section at its top, two wheel-ups 1 ms apart go from SERVICES to WORK and then to MANIFESTO. |
| Session.RunKeepsValid | contexts/SceneContext.tsx:23 | Any sequence of page events (every caller of the scene context's navigation, the two in-slide buttons included) keeps the current slide in [0,5) and the direction in {-1,0,1}. |
| Session.ReachableIsValid | contexts/SceneContext.tsx:10-27 | Every state reachable from the initial page state through any events, the in-slide buttons included, is valid. |
| Session.ServicesBottomExit | components/slides/Services.tsx:282-285 | With the Services gate open, one wheel-down at the bottom of SERVICES lands on CONTACT despite the lock. |

## Left out

- Animation and motion: framer-motion springs, easing and opacity, Lenis smooth scrolling (components/CaseStudyView.tsx:39-57), and the parallax and tilt maths of the hero and manifesto slides. These are floating-point and purely visual. The transition model keeps only the sign and size of the vertical offsets.
- Browser plumbing: registering and removing listeners, `preventDefault`, `navigator.vibrate` on slide change, document title and meta tags, and the `--vh` height fix. Scroll metrics and deltas are integers. No float tolerance is modelled beyond the `< 5` bottom test.
- `Date.now()` and `setTimeout` become the `now` argument and explicit expiry events. React re-rendering and stale `useCallback` closures are not modelled: every handler reads the current state.
- SceneContext.TransitionEnd: pending transition timers are never cancelled, so after rapid forced jumps an earlier timer can clear the flag early. The model does not tie an expiry to a particular change; it only states that an expiry clears the flag.
- SceneContext.SetScrollLocked and the `setTransitioning` setter are plain setters. `setTransitioning` is exported but no modelled component calls it, so it has no separate member.
- Session.Step: `stopPropagation` on the portfolio's mobile carousel (components/slides/ProjectList.tsx:105-120) keeps its swipes away from the window handler. The session sends every wheel and swipe to the window handler.
- Session.Step: which slide is mounted is driven by explicit mount and unmount events, not derived from `currentSlide`. The portfolio has no unmount event: its lock effect (components/slides/ProjectList.tsx:97-99) has no cleanup, so unmounting leaves the lock as the last selection set it, and its only cleanup (line 94) removes the mouse-move listener.
- ProjectList.Step: "the selection changed" is value inequality of project records, standing for React's reference comparison of the shipped project objects.
- CaseStudy.NextProject: the footer only shows the next project. Its "Ver Proyecto" click calls `onClose` (components/CaseStudyView.tsx:296), which is the `Close` event of `ProjectList.Handle`; no event opens the shown project.
- CaseStudy.IconFor: the icon map is a plain object. A name such as "constructor" would find an inherited property rather than fall back to Trophy. The model sends every unknown name to Trophy.
- The Google Maps embed URL on the contact slide uses `encodeURIComponent`, a foreign call.
- Static copy and data: the translations dictionaries are a type parameter. Project and office records keep only the fields the rules read; the sample data copies those fields verbatim.
- Purely visual components: footer, mobile section header, brand logo, custom cursor and the SEO tags. WorkShowcase and Team are never mounted. The theme switch in the menu is not modelled, because its context is not part of this model.
