/** The `ui` slice of the Redux store: sidebar, active panel, the one open
    dialog, the notification snackbar, a loading flag and the colour theme.
    Each reducer mutates the draft state in place. */
module UiSlice {
  import opened Wrappers

  datatype Panel = ProjectsPanel | LayersPanel | AnalysisPanel | FlightPlanPanel

  datatype Dialog = CreateProject | UploadData | SettingsDialog

  datatype Severity = Success | Failure | Warning | Info

  datatype Snackbar = Snackbar(open: bool, message: string, severity: Severity)

  datatype Theme = Light | Dark

  /** The whole slice state as a value. */
  datatype UiSnapshot = UiSnapshot(sidebarOpen: bool, activePanel: Option<Panel>, dialogOpen: bool,
                                   dialogType: Option<Dialog>, snackbar: Snackbar, loading: bool, theme: Theme)

  const InitialUi := UiSnapshot(true, Some(ProjectsPanel), false, None, Snackbar(false, "", Info), false, Light)

  /** A dialog is open exactly when a dialog type is set. */
  predicate DialogConsistent(s: UiSnapshot)
  {
    s.dialogOpen <==> s.dialogType.Some?
  }

  function SidebarToggled(s: UiSnapshot): (r: UiSnapshot)
    ensures r.sidebarOpen != s.sidebarOpen
  {
    s.(sidebarOpen := !s.sidebarOpen)
  }

  function Flipped(t: Theme): (r: Theme)
    ensures r != t
  {
    if t == Light then Dark else Light
  }

  function ThemeToggled(s: UiSnapshot): (r: UiSnapshot)
    ensures r.theme != s.theme
  {
    s.(theme := Flipped(s.theme))
  }

  /** Both toggles undo themselves, and neither touches the dialog state. */
  lemma TogglesAreInvolutions(s: UiSnapshot)
    ensures SidebarToggled(SidebarToggled(s)) == s
    ensures ThemeToggled(ThemeToggled(s)) == s
    ensures DialogConsistent(s) ==> DialogConsistent(SidebarToggled(s)) && DialogConsistent(ThemeToggled(s))
  {
  }

  /** The severity a shown snackbar gets: the one given, or `info`. */
  function SeverityOrInfo(severity: Option<Severity>): (r: Severity)
    ensures severity.Some? ==> r == severity.value
    ensures severity.None? ==> r == Info
  {
    if severity.Some? then severity.value else Info
  }

  class UiState {
    var sidebarOpen: bool
    var activePanel: Option<Panel>
    var dialogOpen: bool
    var dialogType: Option<Dialog>
    var snackbar: Snackbar
    var loading: bool
    var theme: Theme

    function Snapshot(): UiSnapshot
      reads this
    {
      UiSnapshot(sidebarOpen, activePanel, dialogOpen, dialogType, snackbar, loading, theme)
    }

    predicate Valid()
      reads this
    {
      DialogConsistent(Snapshot())
    }

    /** `initialState`. */
    constructor()
      ensures Snapshot() == InitialUi && Valid()
    {
      sidebarOpen := true;
      activePanel := Some(ProjectsPanel);
      dialogOpen := false;
      dialogType := None;
      snackbar := Snackbar(false, "", Info);
      loading := false;
      theme := Light;
    }

    method ToggleSidebar()
      modifies this
      ensures Snapshot() == SidebarToggled(old(Snapshot()))
      ensures old(Valid()) ==> Valid()
    {
      sidebarOpen := !sidebarOpen;
    }

    method SetSidebarOpen(open: bool)
      modifies this
      ensures Snapshot() == old(Snapshot()).(sidebarOpen := open)
      ensures old(Valid()) ==> Valid()
    {
      sidebarOpen := open;
    }

    method SetActivePanel(panel: Option<Panel>)
      modifies this
      ensures Snapshot() == old(Snapshot()).(activePanel := panel)
      ensures old(Valid()) ==> Valid()
    {
      activePanel := panel;
    }

    /** `openDialog`: the flag and the type are set together. */
    method OpenDialog(d: Dialog)
      modifies this
      ensures Snapshot() == old(Snapshot()).(dialogOpen := true, dialogType := Some(d))
      ensures Valid()
    {
      dialogOpen := true;
      dialogType := Some(d);
    }

    /** `closeDialog`: the flag and the type are cleared together. */
    method CloseDialog()
      modifies this
      ensures Snapshot() == old(Snapshot()).(dialogOpen := false, dialogType := None)
      ensures Valid()
    {
      dialogOpen := false;
      dialogType := None;
    }

    /** `showSnackbar`: open, with the message and the given severity or
        `info`. */
    method ShowSnackbar(message: string, severity: Option<Severity>)
      modifies this
      ensures Snapshot() == old(Snapshot()).(snackbar := Snackbar(true, message, SeverityOrInfo(severity)))
      ensures old(Valid()) ==> Valid()
    {
      snackbar := Snackbar(true, message, SeverityOrInfo(severity));
    }

    /** `hideSnackbar`: only the open flag is cleared; the message and the
        severity stay. */
    method HideSnackbar()
      modifies this
      ensures Snapshot() == old(Snapshot()).(snackbar := old(snackbar).(open := false))
      ensures old(Valid()) ==> Valid()
    {
      snackbar := snackbar.(open := false);
    }

    method SetLoading(loading': bool)
      modifies this
      ensures Snapshot() == old(Snapshot()).(loading := loading')
      ensures old(Valid()) ==> Valid()
    {
      loading := loading';
    }

    method ToggleTheme()
      modifies this
      ensures Snapshot() == ThemeToggled(old(Snapshot()))
      ensures old(Valid()) ==> Valid()
    {
      theme := if theme == Light then Dark else Light;
    }
  }
}
