/**
 * The navigation menu (components/Navigation.tsx): one item per slide,
 * the item of the current slide highlighted, and every click a forced
 * go-to, so the menu works while a slide holds the scroll lock.
 */
module Navigation {

  import opened SceneContext

  datatype NavItem = NavItem(caption: string, index: int)

  /** The menu, in display order. */
  function NavItems(): (items: seq<NavItem>)
    ensures |items| == TotalSlides
    ensures forall i :: 0 <= i < |items| ==> items[i].index == i
  {
    [ NavItem("Inicio", Hero),
      NavItem("Filosofía", Manifesto),
      NavItem("Portafolio", Work),
      NavItem("Servicios", ServicesSlideId),
      NavItem("Contacto", ContactSlideId) ]
  }

  /** A menu click: always a forced go-to. */
  function Navigate(s: NavState, index: int, now: int): (r: NavState)
    // neither the lock nor the cooldown stops a click on another slide
    ensures 0 <= index < TotalSlides && index != s.currentSlide ==>
      r.currentSlide == index && r.lastScrollTime == now && r.isTransitioning
    // clicking the active item, or an index off the menu, changes nothing
    ensures index == s.currentSlide || !(0 <= index < TotalSlides) ==> r == s
    ensures r.isScrollLocked == s.isScrollLocked
    ensures Valid(s) ==> Valid(r)
  {
    GoToSlide(s, index, true, now)
  }

  /** The logo goes home. */
  function LogoClick(s: NavState, now: int): (r: NavState)
    ensures Valid(s) ==> r.currentSlide == Hero
    ensures s.currentSlide == Hero ==> r == s
  {
    Navigate(s, Hero, now)
  }

  /** The highlight rule shared by the desktop pill and the mobile dots. */
  predicate IsActive(currentSlide: int, index: int)
  {
    currentSlide == index
  }

  /** How many items of `items` are highlighted. */
  function ActiveCount(items: seq<NavItem>, currentSlide: int): nat
    decreases |items|
  {
    if |items| == 0 then 0
    else (if IsActive(currentSlide, items[0].index) then 1 else 0) + ActiveCount(items[1..], currentSlide)
  }

  /** Items whose indices all differ highlight one item if `currentSlide` is among them, else none. */
  lemma {:induction false} ActiveCountOfDistinct(items: seq<NavItem>, currentSlide: int)
    requires forall i, j :: 0 <= i < j < |items| ==> items[i].index != items[j].index
    ensures ActiveCount(items, currentSlide) ==
      if exists i :: 0 <= i < |items| && items[i].index == currentSlide then 1 else 0
    decreases |items|
  {
    if |items| > 0 {
      var rest := items[1..];
      ActiveCountOfDistinct(rest, currentSlide);
      if items[0].index == currentSlide {
        assert forall i :: 0 <= i < |rest| ==> rest[i].index != currentSlide by {
          forall i | 0 <= i < |rest|
            ensures rest[i].index != currentSlide
          {
            assert items[0].index != items[i + 1].index;
          }
        }
      } else if exists i :: 0 <= i < |items| && items[i].index == currentSlide {
        var i :| 0 <= i < |items| && items[i].index == currentSlide;
        assert rest[i - 1].index == currentSlide;
      }
    }
  }

  /** On any real slide exactly one menu item is highlighted, the one of that slide. */
  lemma ExactlyOneActive(currentSlide: int)
    requires 0 <= currentSlide < TotalSlides
    ensures ActiveCount(NavItems(), currentSlide) == 1
    ensures IsActive(currentSlide, NavItems()[currentSlide].index)
  {
    var items := NavItems();
    ActiveCountOfDistinct(items, currentSlide);
    assert items[currentSlide].index == currentSlide;
  }

  /** A click on another item moves the highlight to it, whatever the lock says. */
  lemma ClickHighlightsItem(s: NavState, k: int, now: int)
    requires Valid(s) && s.isScrollLocked
    requires 0 <= k < TotalSlides
    ensures IsActive(Navigate(s, NavItems()[k].index, now).currentSlide, NavItems()[k].index)
  {
  }
}
