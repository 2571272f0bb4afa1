/** The `project` slice of the Redux store: the project being worked on, the
    selected project id, a loading flag and the last error. Each reducer
    mutates the draft state in place. */
module ProjectSlice {
  import opened Wrappers
  import P = ProjectTypes

  /** The whole slice state as a value. */
  datatype ProjectSnapshot = ProjectSnapshot(currentProject: Option<P.Project>, selectedProjectId: Option<string>,
                                             isLoading: bool, error: Option<string>)

  const InitialProject := ProjectSnapshot(None, None, false, None)

  /** `payload?.id || null`: the empty id is falsy and becomes null too. */
  function SelectedIdOf(p: Option<P.Project>): (r: Option<string>)
    ensures r.Some? <==> p.Some? && p.value.id != ""
    ensures r.Some? ==> r.value == p.value.id
  {
    if p.Some? && p.value.id != "" then Some(p.value.id) else None
  }

  class ProjectState {
    var currentProject: Option<P.Project>
    var selectedProjectId: Option<string>
    var isLoading: bool
    var error: Option<string>

    function Snapshot(): ProjectSnapshot
      reads this
    {
      ProjectSnapshot(currentProject, selectedProjectId, isLoading, error)
    }

    /** `initialState`. */
    constructor()
      ensures Snapshot() == InitialProject
    {
      currentProject := None;
      selectedProjectId := None;
      isLoading := false;
      error := None;
    }

    /** `setCurrentProject`: the project and its id are set together. */
    method SetCurrentProject(p: Option<P.Project>)
      modifies this
      ensures Snapshot() == old(Snapshot()).(currentProject := p, selectedProjectId := SelectedIdOf(p))
    {
      currentProject := p;
      selectedProjectId := if p.Some? && p.value.id != "" then Some(p.value.id) else None;
    }

    /** `setSelectedProjectId`: the current project is left as it is, so the
        two can disagree afterwards. */
    method SetSelectedProjectId(id: Option<string>)
      modifies this
      ensures Snapshot() == old(Snapshot()).(selectedProjectId := id)
    {
      selectedProjectId := id;
    }

    method SetLoading(loading: bool)
      modifies this
      ensures Snapshot() == old(Snapshot()).(isLoading := loading)
    {
      isLoading := loading;
    }

    method SetError(e: Option<string>)
      modifies this
      ensures Snapshot() == old(Snapshot()).(error := e)
    {
      error := e;
    }

    method ClearError()
      modifies this
      ensures Snapshot() == old(Snapshot()).(error := None)
    {
      error := None;
    }
  }

  /** After `setCurrentProject` the selection names the current project,
      unless the project is absent or has the empty id; a later
      `setSelectedProjectId` can make them disagree. */
  lemma SelectionFollowsProject(s: ProjectSnapshot, p: P.Project, other: string)
    requires p.id != "" && other != p.id
    ensures var s1 := s.(currentProject := Some(p), selectedProjectId := SelectedIdOf(Some(p)));
            && s1.selectedProjectId == Some(s1.currentProject.value.id)
            && s1.(selectedProjectId := Some(other)).selectedProjectId != Some(s1.currentProject.value.id)
    ensures SelectedIdOf(Some(p.(id := ""))) == None && SelectedIdOf(None) == None
  {
  }
}
