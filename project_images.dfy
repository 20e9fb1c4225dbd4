/**
 * The project images page: each fetched image is shown with the title of its
 * project, looked up in an id-to-title table built from the project list.
 */
module ProjectImages {
  import opened Wrappers
  import opened Lists
  import opened ApiRoutes

  datatype Project = Project(id: int, title: string)

  /** An image as fetched (`projectTitle` absent) or as shown (`projectTitle` filled in). */
  datatype ProjectImage = ProjectImage(
    id: int,
    project: int,
    image: string,
    isMain: bool,
    createdAt: string,
    projectTitle: Option<string>)

  const UnknownProject := "Unknown Project"

  /** The title of the last project in the list with id `id`, if any. */
  function LastTitle(projects: seq<Project>, id: int): (r: Option<string>)
    ensures r.None? <==> forall k :: 0 <= k < |projects| ==> projects[k].id != id
    ensures r.Some? ==> exists k :: 0 <= k < |projects| && projects[k].id == id && projects[k].title == r.value
                                    && forall j :: k < j < |projects| ==> projects[j].id != id
  {
    if projects == [] then None
    else
      var last := projects[|projects| - 1];
      if last.id == id then Some(last.title) else LastTitle(projects[..|projects| - 1], id)
  }

  function Lookup(table: map<int, string>, id: int): Option<string> {
    if id in table then Some(table[id]) else None
  }

  /**
   * The `reduce` over the project list: one entry per project id, holding the
   * title of the last project with that id (a later one overwrites).
   */
  method BuildTitleTable(projects: seq<Project>) returns (table: map<int, string>)
    ensures forall id :: Lookup(table, id) == LastTitle(projects, id)
  {
    table := map[];
    var i := 0;
    while i < |projects|
      invariant 0 <= i <= |projects|
      invariant forall id :: Lookup(table, id) == LastTitle(projects[..i], id)
    {
      assert projects[..i + 1][..i] == projects[..i];
      table := table[projects[i].id := projects[i].title];
      i := i + 1;
    }
    assert projects[..i] == projects;
  }

  /** `projects[image.project] || "Unknown Project"`: an absent or empty title falls back to the default. */
  function TitleFor(table: map<int, string>, project: int): (t: string)
    ensures t != ""
  {
    if project in table && table[project] != "" then table[project] else UnknownProject
  }

  function WithTitle(table: map<int, string>): ProjectImage -> ProjectImage {
    (img: ProjectImage) => img.(projectTitle := Some(TitleFor(table, img.project)))
  }

  /**
   * The image `map`: same length and order as the fetched images, every field
   * of each image kept, and a non-empty `projectTitle` added.
   */
  function Join(images: seq<ProjectImage>, table: map<int, string>): (r: seq<ProjectImage>)
    ensures |r| == |images|
    ensures forall i :: 0 <= i < |images| ==> r[i].(projectTitle := images[i].projectTitle) == images[i]
    ensures forall i :: 0 <= i < |images| ==> r[i].projectTitle.Some? && r[i].projectTitle.value != ""
  {
    MapSeq(images, WithTitle(table))
  }

  function ForgetTitle(img: ProjectImage): ProjectImage {
    img.(projectTitle := None)
  }

  /** Dropping the added title again gives back the images as they were fetched. */
  lemma JoinThenForget(images: seq<ProjectImage>, table: map<int, string>)
    requires forall i :: 0 <= i < |images| ==> images[i].projectTitle.None?
    ensures MapSeq(Join(images, table), ForgetTitle) == images
  {
  }

  /**
   * The title shown for an image is the title of the last project with the
   * image's project id when that title is non-empty, and "Unknown Project"
   * when no project has that id or its title is empty.
   */
  lemma JoinedTitle(projects: seq<Project>, table: map<int, string>, images: seq<ProjectImage>, i: nat)
    requires forall id :: Lookup(table, id) == LastTitle(projects, id)
    requires i < |images|
    ensures
      var title := LastTitle(projects, images[i].project);
      Join(images, table)[i].projectTitle
        == Some(if title.Some? && title.value != "" then title.value else UnknownProject)
  {
    assert Lookup(table, images[i].project) == LastTitle(projects, images[i].project);
  }

  /** A later project with the same id overwrites the title of an earlier one. */
  lemma {:induction false} LaterProjectWins(projects: seq<Project>, later: seq<Project>, p: Project)
    ensures LastTitle(projects + [p] + later, p.id)
         == (if LastTitle(later, p.id).Some? then LastTitle(later, p.id) else Some(p.title))
  {
    if later == [] {
      assert projects + [p] + later == projects + [p];
    } else {
      var init := later[..|later| - 1];
      assert projects + [p] + later == (projects + [p] + init) + [later[|later| - 1]];
      assert (projects + [p] + later)[..|projects + [p] + later| - 1] == projects + [p] + init;
      LaterProjectWins(projects, init, p);
    }
  }

  function Digit(d: nat): char
    requires d < 10
  {
    "0123456789"[d]
  }

  function Digits(n: nat): string
    decreases n
  {
    if n < 10 then [Digit(n)] else Digits(n / 10) + [Digit(n % 10)]
  }

  /** A numeric id as a path segment. */
  function Decimal(n: int): string {
    if n < 0 then "-" + Digits(-n) else Digits(n)
  }

  function ImageId(img: ProjectImage): int {
    img.id
  }

  /** The page's state, and the service calls it has issued. */
  class ProjectImagesPage {
    var projectImages: seq<ProjectImage>
    var isDeleteDialogOpen: bool
    var imageToDelete: Option<ProjectImage>
    var calls: seq<ServiceCall>

    constructor ()
      ensures projectImages == [] && !isDeleteDialogOpen && imageToDelete == None && calls == []
    {
      projectImages := [];
      isDeleteDialogOpen := false;
      imageToDelete := None;
      calls := [];
    }

    /**
     * `fetchProjectImages`: both lists are requested; when both arrive, the
     * images are shown joined with the titles of the fetched projects, and
     * when either request fails the list stays as it was.
     */
    method FetchProjectImages(images: Option<seq<ProjectImage>>, projects: Option<seq<Project>>)
      modifies this
      ensures calls == old(calls) + [Crud(ProjectImages, GetAll), Crud(Projects, GetAll)]
      ensures images.Some? && projects.Some? ==>
        exists table: map<int, string> ::
          (forall id :: Lookup(table, id) == LastTitle(projects.value, id)) && projectImages == Join(images.value, table)
      ensures !(images.Some? && projects.Some?) ==> projectImages == old(projectImages)
      ensures isDeleteDialogOpen == old(isDeleteDialogOpen) && imageToDelete == old(imageToDelete)
    {
      calls := calls + [Crud(ProjectImages, GetAll), Crud(Projects, GetAll)];
      if images.Some? && projects.Some? {
        var table := BuildTitleTable(projects.value);
        projectImages := Join(images.value, table);
      }
    }

    /** `handleDeleteClick`: remembers the image and opens the dialog. */
    method HandleDeleteClick(image: ProjectImage)
      modifies this
      ensures imageToDelete == Some(image) && isDeleteDialogOpen
      ensures projectImages == old(projectImages) && calls == old(calls)
    {
      imageToDelete := Some(image);
      isDeleteDialogOpen := true;
    }

    /**
     * `confirmDelete`: with nothing selected, nothing happens. Otherwise one
     * delete call; when it succeeds the images with that id leave the list;
     * either way the dialog ends closed with nothing selected.
     */
    method ConfirmDelete(deleted: bool)
      modifies this
      ensures old(imageToDelete).None? ==>
        projectImages == old(projectImages) && isDeleteDialogOpen == old(isDeleteDialogOpen)
        && imageToDelete == None && calls == old(calls)
      ensures old(imageToDelete).Some? ==>
        && var id := old(imageToDelete).value.id;
        && calls == old(calls) + [Crud(ProjectImages, Remove(Decimal(id)))]
        && projectImages == (if deleted then Without(old(projectImages), ImageId, id) else old(projectImages))
        && !isDeleteDialogOpen && imageToDelete == None
    {
      if imageToDelete.None? {
        return;
      }
      var id := imageToDelete.value.id;
      calls := calls + [Crud(ProjectImages, Remove(Decimal(id)))];
      if deleted {
        projectImages := Without(projectImages, ImageId, id);
      }
      isDeleteDialogOpen := false;
      imageToDelete := None;
    }
  }
}
