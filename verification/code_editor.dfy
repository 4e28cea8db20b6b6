/** The stand-alone live editor: three buffers shown one at a time in a
    tabbed text area, a preview of the page they make, and a dialog that
    saves the buffers as a project through the project store. Backend
    answers and the signed-in user are parameters; toasts are returned. */
module CodeEditor {
  import opened Outcomes
  import opened Buffers
  import Preview
  import ProjectStore
  import opened StarterCode

  /** The characters JavaScript's `trim` removes: the white-space and
      line-terminator characters of ECMAScript. */
  predicate IsJsWhitespace(c: char) {
    c == '\t' || c == '\U{000b}' || c == '\U{000c}' || c == ' ' || c == '\U{00a0}' || c == '\U{feff}' ||
    c == '\U{1680}' || ('\U{2000}' <= c <= '\U{200a}') || c == '\U{202f}' || c == '\U{205f}' || c == '\U{3000}' ||
    c == '\n' || c == '\r' || c == '\U{2028}' || c == '\U{2029}'
  }

  /** `s` without its leading white space: a suffix of `s`, all of whose
      dropped characters are white space, that does not itself start with
      white space. */
  function TrimStart(s: string): (r: string)
    ensures |r| <= |s| && r == s[|s| - |r|..]
    ensures forall i :: 0 <= i < |s| - |r| ==> IsJsWhitespace(s[i])
    ensures r != [] ==> !IsJsWhitespace(r[0])
  {
    if s != [] && IsJsWhitespace(s[0]) then TrimStart(s[1..]) else s
  }

  /** `s` without its trailing white space: a prefix of `s`, all of whose
      dropped characters are white space, that does not itself end with
      white space. */
  function TrimEnd(s: string): (r: string)
    ensures |r| <= |s| && r == s[..|r|]
    ensures forall i :: |r| <= i < |s| ==> IsJsWhitespace(s[i])
    ensures r != [] ==> !IsJsWhitespace(r[|r| - 1])
  {
    if s != [] && IsJsWhitespace(s[|s| - 1]) then TrimEnd(s[..|s| - 1]) else s
  }

  /** `s` without white space at either end, as JavaScript's `trim`. */
  function Trim(s: string): string {
    TrimEnd(TrimStart(s))
  }

  /** All characters of `s` are white space. */
  predicate IsBlank(s: string) {
    forall i :: 0 <= i < |s| ==> IsJsWhitespace(s[i])
  }

  /** A title trims to nothing exactly when it is blank. */
  lemma TrimEmptyIffBlank(s: string)
    ensures Trim(s) == [] <==> IsBlank(s)
  {
  }

  /** The save dialog's title check, `!title.trim()`: it fails exactly on
      a blank title. */
  predicate TitleMissing(title: string): (r: bool)
    ensures r <==> IsBlank(title)
  {
    TrimEmptyIffBlank(title);
    Trim(title) == []
  }

  class Editor {
    var code: Buffers
    var activeTab: BufferKind
    var showSaveModal: bool
    var projectTitle: string
    var projectDescription: string
    const store: ProjectStore.Store

    /** A fresh editor on the starting page, with the markup tab active and
        the save dialog closed and empty. */
    constructor (store: ProjectStore.Store)
      ensures this.store == store && activeTab == Html
      ensures !showSaveModal && projectTitle == "" && projectDescription == ""
      ensures code == InitialBuffers
    {
      this.store := store;
      activeTab := Html;
      showSaveModal := false;
      projectTitle := "";
      projectDescription := "";
      code := InitialBuffers;
    }

    /** The page the preview frame shows for the current buffers. */
    function PreviewDocument(): string
      reads this
    {
      Preview.EditorPreview(code)
    }

    /** When a user signs in, their projects are fetched; without a user
        nothing happens. */
    method LoadUserProjects(user: Option<User>, outcome: Outcome<Option<seq<ProjectStore.Project>>>)
      returns (toast: Option<Toast>)
      modifies store`projects, store`loading
      ensures user.None? ==> store.projects == old(store.projects) && store.loading == old(store.loading) && toast == None
      ensures user.Some? ==> !store.loading
      ensures user.Some? && outcome.Ok? ==> store.projects == ListOrEmpty(outcome.data) && toast == None
      ensures user.Some? && outcome.Err? ==> store.projects == old(store.projects) &&
                                             toast == Some(Error("Failed to fetch projects"))
    {
      toast := None;
      if user.Some? {
        toast := store.FetchProjects(user.value.id, outcome);
      }
    }

    /** Editing buffer `kind` sets it to `value` and leaves the other two as
        they were. */
    method HandleCodeChange(kind: BufferKind, value: string)
      modifies this`code
      ensures code.Get(kind) == value
      ensures forall other :: other != kind ==> code.Get(other) == old(code).Get(other)
    {
      code := code.With(kind, value);
    }

    /** Typing in the text area edits the buffer of the active tab. */
    method EditActiveBuffer(value: string)
      modifies this`code
      ensures code.Get(activeTab) == value
      ensures forall other :: other != activeTab ==> code.Get(other) == old(code).Get(other)
    {
      HandleCodeChange(activeTab, value);
    }

    /** Choosing a tab changes which buffer is shown and edited, and
        nothing else. */
    method SelectTab(kind: BufferKind)
      modifies this`activeTab
      ensures activeTab == kind
    {
      activeTab := kind;
    }

    /** A reset puts the reset page in all three buffers, whatever they
        held. */
    method ResetCode()
      modifies this`code
      ensures code == ResetBuffers
    {
      code := ResetBuffers;
    }

    /** Loading a saved project puts its three texts in the buffers, makes it
        the store's current project and announces it by title. */
    method LoadProject(project: ProjectStore.Project) returns (toast: Toast)
      modifies this`code, store`currentProject
      ensures code == Buffers(project.htmlCode, project.cssCode, project.jsCode)
      ensures store.currentProject == Some(project)
      ensures toast == Success("Loaded project: " + project.title)
    {
      code := Buffers(project.htmlCode, project.cssCode, project.jsCode);
      store.SetCurrentProject(Some(project));
      toast := Success("Loaded project: " + project.title);
    }

    method OpenSaveModal()
      modifies this`showSaveModal
      ensures showSaveModal
    {
      showSaveModal := true;
    }

    method CloseSaveModal()
      modifies this`showSaveModal
      ensures !showSaveModal
    {
      showSaveModal := false;
    }

    method SetProjectTitle(title: string)
      modifies this`projectTitle
      ensures projectTitle == title
    {
      projectTitle := title;
    }

    method SetProjectDescription(description: string)
      modifies this`projectDescription
      ensures projectDescription == description
    {
      projectDescription := description;
    }

    /** Saving from the dialog. Without a user, or with a title that is all
        white space, nothing is sent and nothing changes but an error toast.
        Otherwise the title, the description and the three buffers as they
        are go to the store as a private project; whatever the store's
        outcome, the dialog then closes and its fields are cleared. The
        buffers are outside the frame, so they are never changed. */
    method HandleSaveProject(user: Option<User>, outcome: Outcome<ProjectStore.Project>)
      returns (sent: Option<ProjectStore.ProjectDraft>, toast: Toast)
      modifies this`showSaveModal, this`projectTitle, this`projectDescription, store`projects
      ensures user.None? ==>
        sent == None && toast == Error("Please sign in to save projects") &&
        showSaveModal == old(showSaveModal) && projectTitle == old(projectTitle) &&
        projectDescription == old(projectDescription) && store.projects == old(store.projects)
      ensures user.Some? && IsBlank(old(projectTitle)) ==>
        sent == None && toast == Error("Please enter a project title") &&
        showSaveModal == old(showSaveModal) && projectTitle == old(projectTitle) &&
        projectDescription == old(projectDescription) && store.projects == old(store.projects)
      ensures user.Some? && !IsBlank(old(projectTitle)) ==>
        sent == Some(ProjectStore.ProjectDraft(old(projectTitle), Some(old(projectDescription)),
                                               code.html, code.css, code.javascript, false)) &&
        !showSaveModal && projectTitle == "" && projectDescription == ""
      ensures user.Some? && !IsBlank(old(projectTitle)) && outcome.Ok? ==>
        store.projects == [outcome.data] + old(store.projects) && toast == Success("Project saved successfully!")
      ensures user.Some? && !IsBlank(old(projectTitle)) && outcome.Err? ==>
        store.projects == old(store.projects) && toast == Error("Failed to save project")
    {
      if user.None? {
        sent := None;
        toast := Error("Please sign in to save projects");
      } else if TitleMissing(projectTitle) {
        sent := None;
        toast := Error("Please enter a project title");
      } else {
        var draft := ProjectStore.ProjectDraft(projectTitle, Some(projectDescription),
                                               code.html, code.css, code.javascript, false);
        sent := Some(draft);
        toast := store.SaveProject(user.value.id, draft, outcome);
        showSaveModal := false;
        projectTitle := "";
        projectDescription := "";
      }
    }
  }
}
