/**
 * The project record shown by the portfolio slide and the case-study view
 * (the `Project` interface of data/projects.ts), with the four projects
 * the site ships as sample data. Only the fields the navigation and
 * fallback rules read are kept.
 */
module Portfolio {

  import opened Wrappers

  /** One entry of a project's impact strip; `icon` names a lucide icon, `caption` holds a metric's `label` (`label` is a Dafny keyword). */
  datatype Metric = Metric(icon: string, caption: string, value: string)

  datatype Project = Project(
    id: int,
    title: string,
    client: string,
    year: string,
    videoUrl: Option<string>,
    fullVideoUrl: Option<string>,
    gallery: seq<string>,
    metrics: Option<seq<Metric>>
  )

  /** No two projects share an id. */
  predicate DistinctIds(ps: seq<Project>)
  {
    forall i, j :: 0 <= i < j < |ps| ==> ps[i].id != ps[j].id
  }

  /** Every id is non-zero (zero would read as "nothing hovered" in JavaScript). */
  predicate NonZeroIds(ps: seq<Project>)
  {
    forall i :: 0 <= i < |ps| ==> ps[i].id != 0
  }

  /** A gallery image served by Unsplash: the photo id and the requested width. */
  function Unsplash(photo: string, width: string): (url: string)
    ensures |url| > |photo|
  {
    "https://images.unsplash.com/" + photo + "?q=80&w=" + width + "&auto=format&fit=crop"
  }

  /** The shipped portfolio, in display order. */
  function SampleProjects(): (ps: seq<Project>)
    ensures |ps| == 4
    ensures DistinctIds(ps) && NonZeroIds(ps)
    ensures forall i :: 0 <= i < |ps| ==> ps[i].id == i + 1
  {
    [WelcomeToTheGroup(), JusticeByHerType(), BitCentenario(), HeroesTuristicos()]
  }

  function WelcomeToTheGroup(): (p: Project)
    ensures p.id == 1
  {
    Project(1, "Welcome to the Group", "Nosotras Women Connecting", "2023",
      Some("https://shiftvideos.b-cdn.net/Welcome%20to%20the%20group%20-%20SHIFT_PHD.mp4"),
      Some("https://www.youtube.com/embed/nDPLQdqdYLE"),
      ["/webps/welcome-to-the-group.webp", Unsplash("photo-1516321318423-f06f85e504b3", "1000"), Unsplash("photo-1573164713714-d95e436ab8d6", "1600")],
      Some([Metric("Trophy", "Cannes Lions", "Gold"), Metric("Target", "Leyes Aprobadas", "1"),
            Metric("TrendingUp", "Engagement", "High"), Metric("Users", "Votación", "100%")]))
  }

  function JusticeByHerType(): (p: Project)
    ensures p.id == 2
  {
    Project(2, "Justice by Her Type", "NGO Impacto Social", "2023",
      Some("https://shiftvideos.b-cdn.net/GFSF%20-%20Justice%20by%20her%20type.mp4"),
      Some("https://www.youtube.com/embed/W_-UgnjJBRc"),
      ["/webps/justice-by-her-type.webp", Unsplash("photo-1555443681-304724838662", "1000"), Unsplash("photo-1628155930542-3c7a64e2c833", "1600")],
      Some([Metric("Trophy", "SABRE Awards", "Top Global"), Metric("Target", "Nuevas Leyes", "3"),
            Metric("TrendingUp", "Prensa", "+15M"), Metric("Users", "Conciencia", "Total")]))
  }

  function BitCentenario(): (p: Project)
    ensures p.id == 3
  {
    Project(3, "Costa Rica del Bit Centenario", "Microsoft", "2022",
      Some("https://shiftvideos.b-cdn.net/Caso_BITCentenario_Microsoft.mp4"),
      Some("https://www.youtube.com/embed/qJWU7dfDRog"),
      ["/webps/bit-centenario.webp", Unsplash("photo-1550745165-9bc0b252726f", "1600"), Unsplash("photo-1593508512255-86ab42a8e620", "1600")],
      Some([Metric("Trophy", "Innovación", "Tech"), Metric("Target", "Propuestas", "4,000+"),
            Metric("TrendingUp", "Participación", "166%"), Metric("Users", "Alcance GenZ", "Masivo")]))
  }

  function HeroesTuristicos(): (p: Project)
    ensures p.id == 4
  {
    Project(4, "Héroes Turísticos", "Instituto Costarricense de Turismo", "2022",
      Some("https://shiftvideos.b-cdn.net/Reel_He%CC%81roesTuri%CC%81sticos_ICT.m4v"),
      Some("https://www.youtube.com/embed/koi8bZP_-0E"),
      ["/webps/heroes-turisticos.webp", Unsplash("photo-1470770841072-f978cf4d019e", "1000"), Unsplash("photo-1500964757637-c85e8a162699", "1600")],
      Some([Metric("Trophy", "Earned Media", "$4.5M"), Metric("Target", "Impressions", "87M"),
            Metric("TrendingUp", "Recuperación", "200k Jobs"), Metric("Users", "Impacto Local", "Total")]))
  }
}
