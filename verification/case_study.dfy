/**
 * The case-study view (components/CaseStudyView.tsx): the "next project"
 * footer, the fallbacks for missing client, year, metrics and icons, the
 * choice of fullscreen player and which gallery images appear.
 */
module CaseStudy {

  import opened Wrappers
  import opened Portfolio

  // ---------------------------------------------------------------------
  // Next project

  /** `Array.prototype.findIndex` on ids: the first match, or -1. */
  function FindIndex(ps: seq<Project>, id: int): (i: int)
    ensures -1 <= i < |ps|
    ensures 0 <= i ==> ps[i].id == id && forall j :: 0 <= j < i ==> ps[j].id != id
    ensures i == -1 <==> forall j :: 0 <= j < |ps| ==> ps[j].id != id
    decreases |ps|
  {
    if |ps| == 0 then -1
    else if ps[0].id == id then 0
    else
      var k := FindIndex(ps[1..], id);
      if k == -1 then -1 else k + 1
  }

  /** Index of the project the footer shows after `current`. */
  function NextProjectIndex(ps: seq<Project>, current: Project): (k: int)
    requires |ps| > 0
    ensures 0 <= k < |ps|
  {
    (FindIndex(ps, current.id) + 1) % |ps|
  }

  function NextProject(ps: seq<Project>, current: Project): (p: Project)
    requires |ps| > 0
    ensures p in ps
  {
    ps[NextProjectIndex(ps, current)]
  }

  /** With distinct ids, the project at position `i` is followed by the one at `i + 1`, cyclically. */
  lemma NextIsSuccessor(ps: seq<Project>, i: int)
    requires DistinctIds(ps) && 0 <= i < |ps|
    ensures NextProjectIndex(ps, ps[i]) == (i + 1) % |ps|
    ensures i == |ps| - 1 ==> NextProject(ps, ps[i]) == ps[0]
  {
  }

  /** A project that is not in the list is followed by the first one. */
  lemma NextOfUnknownIsFirst(ps: seq<Project>, current: Project)
    requires |ps| > 0
    requires forall j :: 0 <= j < |ps| ==> ps[j].id != current.id
    ensures NextProject(ps, current) == ps[0]
  {
  }

  /** With more than one project and distinct ids, the footer never shows the project already open. */
  lemma NextDiffersFromCurrent(ps: seq<Project>, current: Project)
    requires |ps| > 1 && DistinctIds(ps)
    ensures NextProject(ps, current).id != current.id
  {
    var i := FindIndex(ps, current.id);
    var k := NextProjectIndex(ps, current);
    if i >= 0 {
      assert k == (i + 1) % |ps|;
      assert k != i;
      if k < i {
        assert ps[k].id != ps[i].id;
      } else {
        assert ps[i].id != ps[k].id;
      }
    }
  }

  /** The shipped portfolio cycles 1, 2, 3, 4, 1. */
  lemma SampleCycle()
    ensures var ps := SampleProjects();
      && NextProject(ps, ps[0]) == ps[1] && NextProject(ps, ps[1]) == ps[2]
      && NextProject(ps, ps[2]) == ps[3] && NextProject(ps, ps[3]) == ps[0]
  {
    var ps := SampleProjects();
    NextIsSuccessor(ps, 0);
    NextIsSuccessor(ps, 1);
    NextIsSuccessor(ps, 2);
    NextIsSuccessor(ps, 3);
  }

  // ---------------------------------------------------------------------
  // Fallbacks

  const ClientFallback: string := "Confidencial"
  const YearFallback: string := "2024"

  /** JavaScript's `text || fallback` on strings: only the empty string is falsy. */
  function OrElse(text: string, fallback: string): (r: string)
    ensures text != "" ==> r == text
    ensures text == "" ==> r == fallback
    ensures fallback != "" ==> r != ""
  {
    if text != "" then text else fallback
  }

  /** The client and year lines of the header are never blank. */
  lemma HeaderNeverBlank(p: Project)
    ensures OrElse(p.client, ClientFallback) != "" && OrElse(p.year, YearFallback) != ""
    ensures p.client == "" ==> OrElse(p.client, ClientFallback) == "Confidencial"
    ensures p.year == "" ==> OrElse(p.year, YearFallback) == "2024"
  {
  }

  /** The impact strip used when a project has no metrics of its own. */
  function DefaultMetrics(): (ms: seq<Metric>)
    ensures |ms| == 4
    ensures forall i :: 0 <= i < |ms| ==> IconFor(ms[i].icon) == [Trophy, Target, TrendingUp, Users][i]
  {
    [ Metric("Trophy", "Premios", "3 Lions"),
      Metric("Target", "Alcance", "+45M"),
      Metric("TrendingUp", "Engagement", "12%"),
      Metric("Users", "Conversión", "+150%") ]
  }

  /** The metrics shown: the project's own array (even an empty one, which is truthy), else the defaults. */
  function ShownMetrics(metrics: Option<seq<Metric>>): (ms: seq<Metric>)
    ensures metrics.Some? ==> ms == metrics.value
    ensures metrics.None? ==> ms == DefaultMetrics()
  {
    match metrics
    case Some(m) => m
    case None => DefaultMetrics()
  }

  datatype Icon = Trophy | Target | TrendingUp | Users

  /** The name each icon is registered under in the icon map. */
  function IconName(i: Icon): string
  {
    match i
    case Trophy => "Trophy"
    case Target => "Target"
    case TrendingUp => "TrendingUp"
    case Users => "Users"
  }

  /** The icon for a metric; a name missing from the icon map draws a trophy. */
  function IconFor(name: string): (i: Icon)
    ensures IconName(i) == name || (i == Trophy && forall j: Icon :: IconName(j) != name)
  {
    if name == "Target" then Target
    else if name == "TrendingUp" then TrendingUp
    else if name == "Users" then Users
    else Trophy
  }

  /** Every icon is found again under its own name. */
  lemma IconRoundTrip(i: Icon)
    ensures IconFor(IconName(i)) == i
  {
  }

  // ---------------------------------------------------------------------
  // Video

  /** JavaScript truthiness of an optional string: present and non-empty. */
  predicate Truthy(o: Option<string>)
  {
    o.Some? && o.value != ""
  }

  predicate IsPrefix(pre: string, s: string)
  {
    |pre| <= |s| && s[..|pre|] == pre
  }

  /** `s.includes(sub)`. */
  predicate Contains(s: string, sub: string)
    decreases |s|
  {
    IsPrefix(sub, s) || (|s| > 0 && Contains(s[1..], sub))
  }

  /** An occurrence at a known position is found. */
  lemma {:induction false} ContainsAt(s: string, sub: string, i: nat)
    requires i + |sub| <= |s| && s[i..i + |sub|] == sub
    ensures Contains(s, sub)
    decreases i
  {
    if i > 0 {
      assert s[1..][i - 1..i - 1 + |sub|] == s[i..i + |sub|];
      ContainsAt(s[1..], sub, i - 1);
    }
  }

  /** Whether the project offers the fullscreen button at all. */
  predicate HasFullscreen(p: Project)
  {
    Truthy(p.fullVideoUrl) || Truthy(p.videoUrl)
  }

  const YouTubeEmbed: string := "youtube.com/embed"
  const Autoplay: string := "?autoplay=1"

  datatype Player = EmbeddedFrame(src: string) | VideoFile(src: string)

  /** The fullscreen overlay: a YouTube embed in a frame, anything else as a video file. */
  function FullscreenPlayer(p: Project, isFullScreen: bool): (r: Option<Player>)
    ensures r.Some? <==> isFullScreen && HasFullscreen(p)
    // the frame is chosen by the full video URL alone and autoplays
    ensures r.Some? && r.value.EmbeddedFrame? ==>
      p.fullVideoUrl.Some? && Contains(p.fullVideoUrl.value, YouTubeEmbed)
      && r.value.src == p.fullVideoUrl.value + Autoplay
    ensures r.Some? && p.fullVideoUrl.Some? && Contains(p.fullVideoUrl.value, YouTubeEmbed) ==> r.value.EmbeddedFrame?
    // a video file prefers the full cut over the teaser, and is never empty
    ensures r.Some? && r.value.VideoFile? ==>
      r.value.src != ""
      && (Truthy(p.fullVideoUrl) ==> r.value.src == p.fullVideoUrl.value)
      && (!Truthy(p.fullVideoUrl) ==> r.value.src == p.videoUrl.value)
  {
    if !(isFullScreen && HasFullscreen(p)) then None
    else if p.fullVideoUrl.Some? && Contains(p.fullVideoUrl.value, YouTubeEmbed) then
      Some(EmbeddedFrame(p.fullVideoUrl.value + Autoplay))
    else if Truthy(p.fullVideoUrl) then Some(VideoFile(p.fullVideoUrl.value))
    else Some(VideoFile(p.videoUrl.value))
  }

  /** Every shipped project opens its full cut as an autoplaying YouTube frame. */
  lemma SampleFullscreenIsYouTube(k: int)
    requires 0 <= k < |SampleProjects()|
    ensures var p := SampleProjects()[k];
      FullscreenPlayer(p, true) == Some(EmbeddedFrame(p.fullVideoUrl.value + Autoplay))
  {
    var p := SampleProjects()[k];
    var url := p.fullVideoUrl.value;
    var base := "https://www.youtube.com/embed/";
    assert base[12..29] == YouTubeEmbed;
    assert url[..30] == base by {
      if k == 0 {
        assert url == base + "nDPLQdqdYLE";
      } else if k == 1 {
        assert url == base + "W_-UgnjJBRc";
      } else if k == 2 {
        assert url == base + "qJWU7dfDRog";
      } else {
        assert url == base + "koi8bZP_-0E";
      }
    }
    assert url[12..29] == base[12..29];
    ContainsAt(url, YouTubeEmbed, 12);
  }

  // ---------------------------------------------------------------------
  // Gallery

  /** `gallery?.[k]` is truthy. */
  predicate HasImage(gallery: seq<string>, k: int)
  {
    0 <= k < |gallery| && gallery[k] != ""
  }

  /** Images 2 and 3 (indices 1 and 2) are laid out as one split pair. */
  function ShowsSplitPair(gallery: seq<string>): (b: bool)
    ensures b ==> |gallery| >= 3
    ensures b <==> HasImage(gallery, 1) && HasImage(gallery, 2)
  {
    |gallery| > 2 && gallery[1] != "" && gallery[2] != ""
  }

  /** Every shipped project has the second and third gallery image, so each shows the split pair. */
  lemma SamplesShowSplitPair(k: int)
    requires 0 <= k < |SampleProjects()|
    ensures ShowsSplitPair(SampleProjects()[k].gallery)
  {
  }
}
