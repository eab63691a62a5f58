/**
 * The portfolio slide (components/slides/ProjectList.tsx): hovering a row
 * previews a project and dims the other rows, clicking opens the case
 * study, and the scene's scroll lock follows "a case study is open".
 */
module ProjectList {

  import opened Wrappers
  import opened SceneContext
  import opened Portfolio

  /** `hovered` is the hovered project's id; `selected` the open case study. */
  datatype ListState = ListState(hovered: Option<int>, selected: Option<Project>)

  datatype ListEvent =
    | MouseEnter(id: int)
    | MouseLeave
    | Open(project: Project)
    | Close

  /** JavaScript truthiness of the hovered id: both null and 0 mean "nothing hovered". */
  predicate HasHover(h: Option<int>)
  {
    h.Some? && h.value != 0
  }

  /** The effect run on mount and after each change of selection. */
  function SyncLock(s: NavState, ls: ListState): (r: NavState)
    ensures r.isScrollLocked <==> ls.selected.Some?
    ensures r.(isScrollLocked := s.isScrollLocked) == s
  {
    SetScrollLocked(s, ls.selected.Some?)
  }

  /** Mounting starts with nothing hovered or open, and releases the lock. */
  function Mount(s: NavState): (r: (ListState, NavState))
    ensures r.0.hovered.None? && r.0.selected.None?
    ensures !r.1.isScrollLocked
    ensures r.1.(isScrollLocked := s.isScrollLocked) == s
  {
    var ls := ListState(None, None);
    (ls, SyncLock(s, ls))
  }

  function Handle(ls: ListState, e: ListEvent): (r: ListState)
    ensures e.MouseEnter? ==> r == ls.(hovered := Some(e.id))
    ensures e.MouseLeave? ==> r == ls.(hovered := None)
    ensures e.Open? ==> r == ls.(selected := Some(e.project))
    ensures e.Close? ==> r == ls.(selected := None)
  {
    match e
    case MouseEnter(id) => ls.(hovered := Some(id))
    case MouseLeave => ls.(hovered := None)
    case Open(p) => ls.(selected := Some(p))
    case Close => ls.(selected := None)
  }

  /** One event, followed by the lock effect when the selection changed. */
  function Step(ls: ListState, s: NavState, e: ListEvent): (r: (ListState, NavState))
    ensures r.0 == Handle(ls, e)
    ensures r.0.selected != ls.selected ==> (r.1.isScrollLocked <==> r.0.selected.Some?)
    ensures r.0.selected == ls.selected ==> r.1 == s
    ensures r.1.(isScrollLocked := s.isScrollLocked) == s
  {
    var ls' := Handle(ls, e);
    if ls'.selected != ls.selected then (ls', SyncLock(s, ls')) else (ls', s)
  }

  function RunList(ls: ListState, s: NavState, es: seq<ListEvent>): (ListState, NavState)
    decreases |es|
  {
    if |es| == 0 then (ls, s)
    else
      var (ls', s') := Step(ls, s, es[0]);
      RunList(ls', s', es[1..])
  }

  /** Once in step (as after mount), the lock stays equal to "a project is open". */
  lemma {:induction false} LockFollowsSelection(ls: ListState, s: NavState, es: seq<ListEvent>)
    requires s.isScrollLocked <==> ls.selected.Some?
    ensures var (ls', s') := RunList(ls, s, es); s'.isScrollLocked <==> ls'.selected.Some?
    ensures RunList(ls, s, es).1.currentSlide == s.currentSlide
    decreases |es|
  {
    if |es| > 0 {
      var (ls', s') := Step(ls, s, es[0]);
      LockFollowsSelection(ls', s', es[1..]);
    }
  }

  /** The first project with the given id, if any. */
  function FindById(ps: seq<Project>, id: int): (r: Option<Project>)
    ensures r.Some? ==> r.value.id == id && r.value in ps
    ensures r.None? <==> forall i :: 0 <= i < |ps| ==> ps[i].id != id
    ensures r.Some? ==> exists k :: 0 <= k < |ps| && ps[k] == r.value && forall j :: 0 <= j < k ==> ps[j].id != id
    decreases |ps|
  {
    if |ps| == 0 then None
    else if ps[0].id == id then Some(ps[0])
    else
      var r := FindById(ps[1..], id);
      if r.Some? then
        ghost var k :| 0 <= k < |ps[1..]| && ps[1..][k] == r.value && forall j :: 0 <= j < k ==> ps[1..][j].id != id;
        assert ps[k + 1] == r.value;
        r
      else
        r
  }

  /** The project under the mouse, previewed beside the cursor. */
  function ActiveProject(ps: seq<Project>, hovered: Option<int>): (r: Option<Project>)
    ensures !HasHover(hovered) ==> r.None?
    ensures r.Some? ==> r.value in ps && Some(r.value.id) == hovered
    ensures HasHover(hovered) && r.None? ==> forall i :: 0 <= i < |ps| ==> ps[i].id != hovered.value
  {
    if HasHover(hovered) then FindById(ps, hovered.value) else None
  }

  /** Whether the row of project `rowId` is drawn faded. */
  predicate IsDimmed(hovered: Option<int>, rowId: int)
  {
    HasHover(hovered) && hovered.value != rowId
  }

  /** Hovering a row lights exactly that row and dims all others; no hover dims nothing. */
  lemma OnlyHoveredRowLit(ps: seq<Project>, hovered: Option<int>, k: int)
    requires DistinctIds(ps) && NonZeroIds(ps)
    requires 0 <= k < |ps|
    ensures hovered == Some(ps[k].id) ==> forall j :: 0 <= j < |ps| ==> (IsDimmed(hovered, ps[j].id) <==> j != k)
    ensures hovered.None? ==> forall j :: 0 <= j < |ps| ==> !IsDimmed(hovered, ps[j].id)
  {
  }

  /** Hovering a shipped project previews that very project. */
  lemma HoverPreviewsProject(k: int)
    requires 0 <= k < |SampleProjects()|
    ensures ActiveProject(SampleProjects(), Some(SampleProjects()[k].id)) == Some(SampleProjects()[k])
  {
    var ps := SampleProjects();
    var r := ActiveProject(ps, Some(ps[k].id));
    var m :| 0 <= m < |ps| && ps[m] == r.value && forall j :: 0 <= j < m ==> ps[j].id != ps[k].id;
    assert m == k;
  }
}
