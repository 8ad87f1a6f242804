/** The project page (`ProjectDetailsPage`): the effect that looks the route's
    id up in the project collection, the page's three-way render decision,
    and the optional links and image fallback of the details view. The
    collection itself comes from a data file that is not part of this model,
    so it is a parameter here. */
module ProjectDetails {
  import opened Wrappers

  /** The fields of `ProjectData` that the page's logic reads; `client` and
      `server` are the optional repository addresses. */
  datatype ProjectData = ProjectData(
    id: int,
    image: string,
    client: Option<string>,
    server: Option<string>,
    live: string)

  /** The position of the first project whose id is `id`, or `|projects|`. */
  function FirstIndexOf(projects: seq<ProjectData>, id: int): (i: nat)
    ensures i <= |projects|
    ensures forall j :: 0 <= j < i ==> projects[j].id != id
    ensures i < |projects| ==> projects[i].id == id
  {
    if projects == [] then 0
    else if projects[0].id == id then 0
    else 1 + FirstIndexOf(projects[1..], id)
  }

  /** `projects.find((p) => p.id === projectId) || null`, where `projectId`
      is `Number(params.id)`; `None` stands for NaN, which equals no id. */
  function FindById(projects: seq<ProjectData>, projectId: Option<int>): (r: Option<ProjectData>)
    ensures r.None? <==> projectId.None? || forall k :: 0 <= k < |projects| ==> projects[k].id != projectId.value
    ensures r.Some? ==> exists k :: 0 <= k < |projects| && projects[k] == r.value
                          && Some(projects[k].id) == projectId
                          && forall j :: 0 <= j < k ==> projects[j].id != projectId.value
  {
    if projectId.None? then None
    else
      var i := FirstIndexOf(projects, projectId.value);
      if i < |projects| then Some(projects[i]) else None
  }

  /** A project whose id occurs twice is found at its first occurrence. */
  lemma FindsFirstOfDuplicates(a: ProjectData, b: ProjectData)
    requires a.id == b.id
    ensures FindById([a, b], Some(a.id)) == Some(a)
  {
  }

  /** The three render branches. */
  datatype View = NotFound | Spinner | Details(project: ProjectData)

  /** The render decision: `!projects` tests the imported collection, whose
      truthiness is `collectionTruthy`, before `!project` tests the state. */
  function Render(collectionTruthy: bool, project: Option<ProjectData>): (v: View)
    ensures v == NotFound <==> !collectionTruthy
    ensures v == Spinner <==> collectionTruthy && project.None?
    ensures v.Details? ==> project == Some(v.project)
  {
    if !collectionTruthy then NotFound
    else if project.None? then Spinner
    else Details(project.value)
  }

  /** An array, even an empty one, is truthy, so the collection test never
      fails: an id that matches no project renders the spinner, never the
      not-found message, and a matching id renders that project. */
  lemma MissingIdShowsSpinner(projects: seq<ProjectData>, projectId: Option<int>)
    ensures Render(true, FindById(projects, projectId)) != NotFound
    ensures Render(true, FindById(projects, projectId)) == Spinner <==>
              projectId.None? || forall k :: 0 <= k < |projects| ==> projects[k].id != projectId.value
  {
  }

  /** `{project.client && ...}`: an absent or empty address shows no link. */
  predicate ShowsLink(address: Option<string>) {
    address.Some? && address.value != ""
  }

  /** The addresses of the call-to-action buttons, in order: the Live Demo
      button always, then Client Code and Server Code for the addresses that
      are present and non-empty. */
  function CtaLinks(p: ProjectData): (links: seq<string>)
    ensures |links| == 1 + (if ShowsLink(p.client) then 1 else 0) + (if ShowsLink(p.server) then 1 else 0)
    ensures links[0] == p.live
    ensures ShowsLink(p.client) ==> links[1] == p.client.value
    ensures ShowsLink(p.server) ==> links[|links| - 1] == p.server.value
    ensures |links| == 1 ==> !ShowsLink(p.client) && !ShowsLink(p.server)
    ensures forall k :: 1 <= k < |links| ==> links[k] != ""
    ensures forall k :: 1 <= k < |links| ==>
              (ShowsLink(p.client) && links[k] == p.client.value) || (ShowsLink(p.server) && links[k] == p.server.value)
  {
    [p.live]
      + (if ShowsLink(p.client) then [p.client.value] else [])
      + (if ShowsLink(p.server) then [p.server.value] else [])
  }

  /** `project.image || "/placeholder.svg"`. */
  function ImageSource(p: ProjectData): (src: string)
    ensures src != ""
    ensures p.image != "" ==> src == p.image
    ensures p.image == "" ==> src == "/placeholder.svg"
  {
    if p.image != "" then p.image else "/placeholder.svg"
  }

  /** The page state. */
  class ProjectDetailsPage {
    var project: Option<ProjectData>

    /** Before the effect has run the page shows the spinner. */
    constructor ()
      ensures project == None
    {
      project := None;
    }

    /** The effect for the route id. */
    method LoadProject(projects: seq<ProjectData>, projectId: Option<int>)
      modifies this
      ensures project == FindById(projects, projectId)
    {
      project := FindById(projects, projectId);
    }
  }
}
