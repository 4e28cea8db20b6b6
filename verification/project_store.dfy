/** The client-side store of the user's saved editor projects: the list last
    fetched (newest first as the backend orders it), the project open in the
    editor, and a loading flag. Each backend call is a parameter holding its
    outcome; only the in-memory changes made once it has returned are
    modelled, and the toast each raises is returned. */
module ProjectStore {
  import opened Outcomes
  import opened Sequences

  datatype Project = Project(id: string, userId: string, title: string, description: Option<string>,
                             htmlCode: string, cssCode: string, jsCode: string, isPublic: bool,
                             createdAt: string, updatedAt: string)

  /** What the editor hands over when saving: a project without the fields
      the backend fills in. */
  datatype ProjectDraft = ProjectDraft(title: string, description: Option<string>,
                                       htmlCode: string, cssCode: string, jsCode: string,
                                       isPublic: bool)

  /** The list with every project whose id is `id` replaced by `data`:
      same length, same order, every other project where it was. */
  function ReplaceById(projects: seq<Project>, id: string, data: Project): (r: seq<Project>)
    ensures |r| == |projects|
    ensures forall i :: 0 <= i < |projects| && projects[i].id == id ==> r[i] == data
    ensures forall i :: 0 <= i < |projects| && projects[i].id != id ==> r[i] == projects[i]
  {
    if projects == [] then []
    else [if projects[0].id == id then data else projects[0]] + ReplaceById(projects[1..], id, data)
  }

  /** The list without the projects whose id is `id`: exactly the others
      remain, in their order. */
  function RemoveById(projects: seq<Project>, id: string): (r: seq<Project>)
    ensures IsSubsequence(r, projects)
    ensures forall p :: p in r <==> p in projects && p.id != id
  {
    if projects == [] then []
    else if projects[0].id == id then
      var r := RemoveById(projects[1..], id);
      SubsequenceOfSuffix(r, projects, 1);
      r
    else
      [projects[0]] + RemoveById(projects[1..], id)
  }

  /** The number of projects whose id is `id`. */
  function CountId(projects: seq<Project>, id: string): nat {
    if projects == [] then 0
    else (if projects[0].id == id then 1 else 0) + CountId(projects[1..], id)
  }

  /** Removing takes away one element per project with the id, and nothing
      else. */
  lemma {:induction false} RemoveByIdLength(projects: seq<Project>, id: string)
    ensures |RemoveById(projects, id)| == |projects| - CountId(projects, id)
  {
    if projects != [] {
      RemoveByIdLength(projects[1..], id);
    }
  }

  /** A list that holds no project with the id is left as it is by both
      replacing and removing. */
  lemma {:induction false} AbsentIdChangesNothing(projects: seq<Project>, id: string, data: Project)
    requires forall i :: 0 <= i < |projects| ==> projects[i].id != id
    ensures ReplaceById(projects, id, data) == projects
    ensures RemoveById(projects, id) == projects
  {
    if projects != [] {
      AbsentIdChangesNothing(projects[1..], id, data);
    }
  }

  /** Replacing by the id is the same as replacing after removing: what is
      left once the id is removed no longer depends on the replacement. */
  lemma {:induction false} RemoveAfterReplace(projects: seq<Project>, id: string, data: Project)
    requires data.id == id
    ensures RemoveById(ReplaceById(projects, id, data), id) == RemoveById(projects, id)
  {
    if projects != [] {
      RemoveAfterReplace(projects[1..], id, data);
      assert ReplaceById(projects, id, data)[1..] == ReplaceById(projects[1..], id, data);
    }
  }

  /** The current project after the project with id `id` was replaced by
      `data`: replaced too when it is that project, else unchanged. */
  function CurrentAfterUpdate(current: Option<Project>, id: string, data: Project): (r: Option<Project>)
    ensures current.Some? && current.value.id == id ==> r == Some(data)
    ensures current.None? || current.value.id != id ==> r == current
  {
    if current.Some? && current.value.id == id then Some(data) else current
  }

  /** The current project after the project with id `id` was deleted:
      cleared exactly when it is that project. */
  function CurrentAfterDelete(current: Option<Project>, id: string): (r: Option<Project>)
    ensures r.None? <==> current.None? || current.value.id == id
    ensures r.Some? ==> r == current
  {
    if current.Some? && current.value.id == id then None else current
  }

  class Store {
    var projects: seq<Project>
    var currentProject: Option<Project>
    var loading: bool

    constructor ()
      ensures projects == [] && currentProject == None && !loading
    {
      projects := [];
      currentProject := None;
      loading := false;
    }

    /** A fetch is issued: the store is loading, nothing else changes. */
    method BeginFetch()
      modifies this`loading
      ensures loading
    {
      loading := true;
    }

    /** A fetch has returned: on success the list is replaced by the data
        (or emptied when there is none), on failure it is kept and an error
        toast is raised; loading ends either way and the current project is
        not touched. */
    method CompleteFetch(outcome: Outcome<Option<seq<Project>>>) returns (toast: Option<Toast>)
      modifies this`projects, this`loading
      ensures !loading
      ensures outcome.Ok? ==> projects == ListOrEmpty(outcome.data) && toast == None
      ensures outcome.Err? ==> projects == old(projects) && toast == Some(Error("Failed to fetch projects"))
    {
      toast := None;
      if outcome.Ok? {
        projects := ListOrEmpty(outcome.data);
      } else {
        toast := Some(Error("Failed to fetch projects"));
      }
      loading := false;
    }

    /** Fetching the user's projects, with the backend's answer as
        `outcome`. */
    method FetchProjects(userId: string, outcome: Outcome<Option<seq<Project>>>) returns (toast: Option<Toast>)
      modifies this`projects, this`loading
      ensures !loading
      ensures outcome.Ok? ==> projects == ListOrEmpty(outcome.data) && toast == None
      ensures outcome.Err? ==> projects == old(projects) && toast == Some(Error("Failed to fetch projects"))
    {
      BeginFetch();
      toast := CompleteFetch(outcome);
    }

    /** Saving a new project: the stored row the backend returns goes to
        the front of the list; on failure the list is kept. The current
        project is never touched. */
    method SaveProject(userId: string, draft: ProjectDraft, outcome: Outcome<Project>) returns (toast: Toast)
      modifies this`projects
      ensures outcome.Ok? ==> projects == [outcome.data] + old(projects) &&
                              toast == Success("Project saved successfully!")
      ensures outcome.Err? ==> projects == old(projects) && toast == Error("Failed to save project")
    {
      if outcome.Ok? {
        projects := [outcome.data] + projects;
        toast := Success("Project saved successfully!");
      } else {
        toast := Error("Failed to save project");
      }
    }

    /** Updating project `projectId`: on success the stored row the backend
        returns replaces every project with that id, in the list and as the
        current project; on failure nothing changes. */
    method UpdateProject(projectId: string, outcome: Outcome<Project>) returns (toast: Toast)
      modifies this`projects, this`currentProject
      ensures outcome.Ok? ==> projects == ReplaceById(old(projects), projectId, outcome.data) &&
                              currentProject == CurrentAfterUpdate(old(currentProject), projectId, outcome.data) &&
                              toast == Success("Project updated successfully!")
      ensures outcome.Err? ==> projects == old(projects) && currentProject == old(currentProject) &&
                               toast == Error("Failed to update project")
    {
      if outcome.Ok? {
        projects := ReplaceById(projects, projectId, outcome.data);
        currentProject := CurrentAfterUpdate(currentProject, projectId, outcome.data);
        toast := Success("Project updated successfully!");
      } else {
        toast := Error("Failed to update project");
      }
    }

    /** Deleting project `projectId`: on success no project with that id is
        left in the list or open; on failure nothing changes. */
    method DeleteProject(projectId: string, outcome: Outcome<()>) returns (toast: Toast)
      modifies this`projects, this`currentProject
      ensures outcome.Ok? ==> projects == RemoveById(old(projects), projectId) &&
                              currentProject == CurrentAfterDelete(old(currentProject), projectId) &&
                              toast == Success("Project deleted successfully!")
      ensures outcome.Ok? ==> (forall p :: p in projects ==> p.id != projectId) &&
                              (currentProject.None? || currentProject.value.id != projectId)
      ensures outcome.Err? ==> projects == old(projects) && currentProject == old(currentProject) &&
                               toast == Error("Failed to delete project")
    {
      if outcome.Ok? {
        projects := RemoveById(projects, projectId);
        currentProject := CurrentAfterDelete(currentProject, projectId);
        toast := Success("Project deleted successfully!");
      } else {
        toast := Error("Failed to delete project");
      }
    }

    /** Opening (or closing) a project changes only the current project. */
    method SetCurrentProject(project: Option<Project>)
      modifies this`currentProject
      ensures currentProject == project
    {
      currentProject := project;
    }
  }
}
