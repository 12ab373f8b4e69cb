/**
  The state behind the home page: the project carousel (pages of three
  projects), the image-gallery lightbox over one card of the current page, and
  the navbar's active section chosen from the sections' on-screen boxes.

  The component's `useState` slots become the fields of `HomePage`; each event
  handler becomes a method that updates them. The derived values
  (`totalPages`, `visibleProjects`, the section lookup of the scroll handler)
  are functions.
*/
module Home {
  import opened Wrappers
  import Cyclic

  /** A project card. Only what the carousel and the gallery compute with is
      kept: the title and the image list (the description, tags, link and
      gradient are display text). */
  datatype Project = Project(title: string, images: seq<string>)

  const ProjectsPerPage: nat := 3

  /** The four projects the page ships with, in display order. */
  const ShownProjects: seq<Project> := [
    Project("HTTP server from scratch", ["HTTP_GO.png"]),
    Project("E-Assessment Platforms for Axia Digital", ["UHCW_HOME.png", "UHCW_AC.png"]),
    Project("Mobile App for Axia Digital", ["MicroSkills.png"]),
    Project("Task Manager Application", ["TaskManager.gif", "TaskManager_create.png", "TaskManager_home.png"])
  ]

  function Min(a: int, b: int): (r: int)
    ensures r <= a && r <= b && (r == a || r == b)
  {
    if a <= b then a else b
  }

  /** `Math.ceil(count / 3)`: the least number of pages of three that holds
      every project. */
  function TotalPages(count: nat): (r: nat)
    ensures ProjectsPerPage * r >= count
    ensures r > 0 ==> ProjectsPerPage * (r - 1) < count
  {
    (count + ProjectsPerPage - 1) / ProjectsPerPage
  }

  /** With the four shipped projects there are two pages. */
  lemma ShownProjectsFillTwoPages()
    ensures TotalPages(|ShownProjects|) == 2
  {
  }

  /** The page arrows and page dots are rendered only when there is more than
      one page, that is, when the projects do not fit on a single page. */
  lemma PageControlsShown(count: nat)
    ensures TotalPages(count) > 1 <==> count > ProjectsPerPage
  {
  }

  /** `projects.slice(3 * page, 3 * (page + 1))`: the cards of one page,
      clipped to the end of the list (JavaScript's `slice` clips both ends). */
  function VisibleSlice(projects: seq<Project>, page: nat): (r: seq<Project>)
    ensures |r| <= ProjectsPerPage
    ensures |r| == if ProjectsPerPage * page < |projects|
                   then Min(ProjectsPerPage, |projects| - ProjectsPerPage * page) else 0
    ensures forall k :: 0 <= k < |r| ==>
              ProjectsPerPage * page + k < |projects| && r[k] == projects[ProjectsPerPage * page + k]
    ensures |r| > 0 <==> page < TotalPages(|projects|)
  {
    var start := Min(ProjectsPerPage * page, |projects|);
    var end := Min(ProjectsPerPage * (page + 1), |projects|);
    projects[start..end]
  }

  /** Pages `0 .. k-1` laid end to end. */
  function PagesUpTo(projects: seq<Project>, k: nat): (r: seq<Project>)
    ensures |r| == Min(ProjectsPerPage * k, |projects|)
  {
    if k == 0 then [] else PagesUpTo(projects, k - 1) + VisibleSlice(projects, k - 1)
  }

  /** The first `k` pages are exactly the first `3k` projects (or all of them). */
  lemma {:induction false} PagesUpToIsPrefix(projects: seq<Project>, k: nat)
    ensures PagesUpTo(projects, k) == projects[..Min(ProjectsPerPage * k, |projects|)]
  {
    if k > 0 {
      PagesUpToIsPrefix(projects, k - 1);
      var lo := Min(ProjectsPerPage * (k - 1), |projects|);
      var hi := Min(ProjectsPerPage * k, |projects|);
      assert VisibleSlice(projects, k - 1) == projects[lo..hi];
      assert projects[..lo] + projects[lo..hi] == projects[..hi];
    }
  }

  /** Paging through every page shows every project once, in order. */
  lemma PagesCoverProjects(projects: seq<Project>)
    ensures PagesUpTo(projects, TotalPages(|projects|)) == projects
  {
    PagesUpToIsPrefix(projects, TotalPages(|projects|));
  }

  /** The navbar sections, in the order the scroll handler tries them. */
  datatype Section = HomeSection | Journey | Skills | Projects

  const SectionOrder: seq<Section> := [HomeSection, Journey, Skills, Projects]

  /** The vertical extent of a section's bounding box, viewport-relative. */
  datatype Rect = Rect(top: int, bottom: int)

  /** The viewport line a section must straddle to become active. */
  const ProbeY: int := 100

  /** A section counts when it is in the document and its box spans the probe
      line; `geometry` holds a box for each section found in the document. */
  predicate Straddles(s: Section, geometry: map<Section, Rect>)
    ensures Straddles(s, geometry) ==> s in geometry && geometry[s].top <= geometry[s].bottom
    ensures s !in geometry ==> !Straddles(s, geometry)
  {
    s in geometry && geometry[s].top <= ProbeY && geometry[s].bottom >= ProbeY
  }

  /** `sections.find(...)`, by position: the index of the first section of
      `order` that straddles the probe line, or none. */
  function FindFirst(order: seq<Section>, geometry: map<Section, Rect>): (r: Option<nat>)
    ensures r.None? <==> forall k :: 0 <= k < |order| ==> !Straddles(order[k], geometry)
    ensures r.Some? ==> r.value < |order| && Straddles(order[r.value], geometry)
                        && forall j :: 0 <= j < r.value ==> !Straddles(order[j], geometry)
  {
    if order == [] then None
    else if Straddles(order[0], geometry) then Some(0)
    else
      match FindFirst(order[1..], geometry)
      case None => None
      case Some(k) => Some(k + 1)
  }

  /** Where a section stands in the order the scroll handler tries them. */
  function Rank(s: Section): (r: nat)
    ensures r < |SectionOrder| && SectionOrder[r] == s
  {
    match s
    case HomeSection => 0
    case Journey => 1
    case Skills => 2
    case Projects => 3
  }

  /** The section the scroll handler picks: one that straddles the probe line
      with no earlier section of the order straddling it, or none when no
      section straddles it. */
  function PickSection(geometry: map<Section, Rect>): (r: Option<Section>)
    ensures r.None? <==> forall s :: !Straddles(s, geometry)
    ensures r.Some? ==> Straddles(r.value, geometry)
    ensures r.Some? ==> forall s :: Rank(s) < Rank(r.value) ==> !Straddles(s, geometry)
  {
    match FindFirst(SectionOrder, geometry)
    case None =>
      assert forall s :: !Straddles(s, geometry) by {
        forall s ensures !Straddles(s, geometry) {
          assert SectionOrder[Rank(s)] == s;
        }
      }
      None
    case Some(k) =>
      assert Rank(SectionOrder[k]) == k;
      Some(SectionOrder[k])
  }

  /** Every shipped project has at least one image, so a click on any card
      opens the gallery. */
  lemma ShownProjectsHaveImages()
    ensures forall k :: 0 <= k < |ShownProjects| ==> |ShownProjects[k].images| > 0
  {
  }

  /** An open gallery shows an existing image of a card on `page`; a closed
      gallery has its image index reset. */
  predicate GalleryFits(projects: seq<Project>, page: nat, gallery: Option<nat>, image: nat)
  {
    match gallery
    case None => image == 0
    case Some(card) =>
      var visible := VisibleSlice(projects, page);
      card < |visible| && 0 < |visible[card].images| && image < |visible[card].images|
  }

  /** With the four shipped projects, a gallery open on the third card of the
      first page no longer fits once the page moves: the next page, the
      previous page (which wraps to the last) and the second page dot all
      lead to page 1, which holds a single card. */
  lemma OpenCardFallsOffPage()
    ensures GalleryFits(ShownProjects, 0, Some(2), 0)
    ensures Cyclic.Next(0, TotalPages(|ShownProjects|)) == 1
    ensures Cyclic.Prev(0, TotalPages(|ShownProjects|)) == 1
    ensures |VisibleSlice(ShownProjects, 1)| == 1
    ensures !GalleryFits(ShownProjects, 1, Some(2), 0)
  {
  }

  /** The state of the home page component. */
  class HomePage {
    const projects: seq<Project>
    var projectIndex: nat
    var galleryOpen: Option<nat>
    var currentImageIndex: nat
    var activeSection: Section

    /** `visibleProjects` for the current page. */
    function Visible(): (r: seq<Project>)
      reads this
      ensures |r| <= ProjectsPerPage
      ensures forall k :: 0 <= k < |r| ==>
                ProjectsPerPage * projectIndex + k < |projects|
                && r[k] == projects[ProjectsPerPage * projectIndex + k]
    {
      VisibleSlice(projects, projectIndex)
    }

    /** The page index is a real page (or 0 when there are none) and the
        gallery fits the current page. */
    ghost predicate Valid()
      reads this
    {
      && (projectIndex == 0 || projectIndex < TotalPages(|projects|))
      && GalleryFits(projects, projectIndex, galleryOpen, currentImageIndex)
    }

    /** The images of the open gallery's card: never empty, so the image
        steps never take a remainder by zero. */
    function OpenImages(): (r: seq<string>)
      reads this
      requires Valid() && galleryOpen.Some?
      ensures 0 < |r| && currentImageIndex < |r|
    {
      Visible()[galleryOpen.value].images
    }

    /** The initial state: first page, gallery closed, `home` active. */
    constructor (projects: seq<Project>)
      ensures Valid()
      ensures this.projects == projects
      ensures projectIndex == 0 && galleryOpen == None && currentImageIndex == 0
      ensures activeSection == HomeSection
    {
      this.projects := projects;
      projectIndex := 0;
      galleryOpen := None;
      currentImageIndex := 0;
      activeSection := HomeSection;
    }

    /** `goToNext` as the component has it: only the page index moves, also
        while the gallery is open (the arrows are buttons that stay reachable
        from the keyboard behind the overlay). The gallery then keeps its card
        index, which may no longer be a card of the new page
        (`OpenCardFallsOffPage`). */
    method GoToNextAsWritten()
      requires Valid() && TotalPages(|projects|) > 0
      modifies this`projectIndex
      ensures projectIndex == Cyclic.Next(old(projectIndex), TotalPages(|projects|))
      ensures galleryOpen == old(galleryOpen) && currentImageIndex == old(currentImageIndex)
      ensures galleryOpen.None? ==> Valid()
    {
      projectIndex := (projectIndex + 1) % TotalPages(|projects|);
    }

    /** `goToNext`: the next page, the last one wrapping to the first. A page
        change closes an open gallery, whose card belongs to the old page; with
        the gallery closed only the page index changes. */
    method GoToNext()
      requires Valid() && TotalPages(|projects|) > 0
      modifies this`projectIndex, this`galleryOpen, this`currentImageIndex
      ensures Valid()
      ensures projectIndex == Cyclic.Next(old(projectIndex), TotalPages(|projects|))
      ensures projectIndex < TotalPages(|projects|)
      ensures galleryOpen == None && currentImageIndex == 0
      ensures old(galleryOpen).None? ==>
                galleryOpen == old(galleryOpen) && currentImageIndex == old(currentImageIndex)
    {
      projectIndex := (projectIndex + 1) % TotalPages(|projects|);
      galleryOpen := None;
      currentImageIndex := 0;
    }

    /** `goToPrevious`: the previous page, the first one wrapping to the last;
        an open gallery is closed as in `GoToNext`. */
    method GoToPrevious()
      requires Valid() && TotalPages(|projects|) > 0
      modifies this`projectIndex, this`galleryOpen, this`currentImageIndex
      ensures Valid()
      ensures projectIndex == Cyclic.Prev(old(projectIndex), TotalPages(|projects|))
      ensures projectIndex < TotalPages(|projects|)
      ensures galleryOpen == None && currentImageIndex == 0
      ensures old(galleryOpen).None? ==>
                galleryOpen == old(galleryOpen) && currentImageIndex == old(currentImageIndex)
    {
      projectIndex := (projectIndex - 1 + TotalPages(|projects|)) % TotalPages(|projects|);
      galleryOpen := None;
      currentImageIndex := 0;
    }

    /** A page-dot click: one dot is rendered per page, so `page` is a page;
        an open gallery is closed as in `GoToNext`. */
    method GoToPage(page: nat)
      requires Valid() && page < TotalPages(|projects|)
      modifies this`projectIndex, this`galleryOpen, this`currentImageIndex
      ensures Valid() && projectIndex == page
      ensures galleryOpen == None && currentImageIndex == 0
      ensures old(galleryOpen).None? ==>
                galleryOpen == old(galleryOpen) && currentImageIndex == old(currentImageIndex)
    {
      projectIndex := page;
      galleryOpen := None;
      currentImageIndex := 0;
    }

    /** `openGallery(card)`: show the first image of a card of this page. */
    method OpenGallery(card: nat)
      requires Valid() && card < |Visible()| && 0 < |Visible()[card].images|
      modifies this`galleryOpen, this`currentImageIndex
      ensures Valid()
      ensures galleryOpen == Some(card) && currentImageIndex == 0
    {
      galleryOpen := Some(card);
      currentImageIndex := 0;
    }

    /** A click on a card's picture: opens the gallery only when the card has
        images (`project.images.length > 0 && openGallery(index)`). */
    method ClickCardImage(card: nat)
      requires Valid() && card < |Visible()|
      modifies this`galleryOpen, this`currentImageIndex
      ensures Valid()
      ensures 0 < |Visible()[card].images| ==> galleryOpen == Some(card) && currentImageIndex == 0
      ensures |Visible()[card].images| == 0 ==>
                galleryOpen == old(galleryOpen) && currentImageIndex == old(currentImageIndex)
    {
      if 0 < |Visible()[card].images| {
        OpenGallery(card);
      }
    }

    /** `closeGallery`: close the lightbox and reset the image index. */
    method CloseGallery()
      requires Valid()
      modifies this`galleryOpen, this`currentImageIndex
      ensures Valid()
      ensures galleryOpen == None && currentImageIndex == 0
    {
      galleryOpen := None;
      currentImageIndex := 0;
    }

    /** `nextImage`: with the gallery open, the next image of the card,
        wrapping; with it closed, nothing happens. */
    method NextImage()
      requires Valid()
      modifies this`currentImageIndex
      ensures Valid()
      ensures old(galleryOpen).None? ==> currentImageIndex == old(currentImageIndex)
      ensures galleryOpen.Some? ==>
                currentImageIndex == Cyclic.Next(old(currentImageIndex), |OpenImages()|)
    {
      if galleryOpen.Some? {
        var count := |Visible()[galleryOpen.value].images|;
        currentImageIndex := (currentImageIndex + 1) % count;
      }
    }

    /** `prevImage`: with the gallery open, the previous image of the card,
        wrapping; with it closed, nothing happens. */
    method PrevImage()
      requires Valid()
      modifies this`currentImageIndex
      ensures Valid()
      ensures old(galleryOpen).None? ==> currentImageIndex == old(currentImageIndex)
      ensures galleryOpen.Some? ==>
                currentImageIndex == Cyclic.Prev(old(currentImageIndex), |OpenImages()|)
    {
      if galleryOpen.Some? {
        var count := |Visible()[galleryOpen.value].images|;
        currentImageIndex := (currentImageIndex - 1 + count) % count;
      }
    }

    /** An image-dot click: one dot is rendered per image of the open card. */
    method SelectImage(idx: nat)
      requires Valid() && galleryOpen.Some? && idx < |OpenImages()|
      modifies this`currentImageIndex
      ensures Valid() && currentImageIndex == idx
    {
      currentImageIndex := idx;
    }

    /** `handleScroll`: make the first straddling section active; keep the
        active section when none straddles. */
    method HandleScroll(geometry: map<Section, Rect>)
      requires Valid()
      modifies this`activeSection
      ensures Valid()
      ensures activeSection == match PickSection(geometry)
                               case Some(s) => s
                               case None => old(activeSection)
    {
      var current := PickSection(geometry);
      if current.Some? {
        activeSection := current.value;
      }
    }
  }

  /** Next image then previous image leaves the gallery where it was. */
  method NextThenPrevImage(h: HomePage)
    requires h.Valid()
    modifies h`currentImageIndex
    ensures h.Valid()
    ensures h.galleryOpen == old(h.galleryOpen) && h.currentImageIndex == old(h.currentImageIndex)
  {
    h.NextImage();
    h.PrevImage();
    if h.galleryOpen.Some? {
      Cyclic.PrevAfterNext(old(h.currentImageIndex), |h.OpenImages()|);
    }
  }

  /** Next page then previous page comes back to the same page; with the
      gallery closed the whole state is as before. */
  method NextThenPrevPage(h: HomePage)
    requires h.Valid() && TotalPages(|h.projects|) > 0
    modifies h`projectIndex, h`galleryOpen, h`currentImageIndex
    ensures h.Valid() && h.projectIndex == old(h.projectIndex)
    ensures old(h.galleryOpen).None? ==>
              h.galleryOpen == old(h.galleryOpen) && h.currentImageIndex == old(h.currentImageIndex)
  {
    h.GoToNext();
    h.GoToPrevious();
    Cyclic.PrevAfterNext(old(h.projectIndex), TotalPages(|h.projects|));
  }
}
