/** The window manager of the desktop (the `App` component): the list of live
    windows, the focused window, the global stacking counter and the
    boot/login/desktop phase, with the five operations that change them and
    the Dock's "open" indicator set derived from the list. */
module WindowManager {
  import opened Types
  import Registry
  import WindowFrame

  /** The registry as the window manager sees it: a total, read-only table. */
  type AppTable = AppId -> AppConfig

  /** The stacking counter's start value. */
  const InitialZIndex := 10
  /** A new window is placed at (CascadeX, CascadeY) shifted by CascadeStep
      per window already open. */
  const CascadeX := 100
  const CascadeY := 80
  const CascadeStep := 40

  datatype Phase = Boot | Login | Desktop

  // ---------------------------------------------------------------------
  // Queries and per-window rebuilds of the window list
  // ---------------------------------------------------------------------

  predicate HasWindow(ws: seq<WindowState>, id: WindowId) {
    exists i | 0 <= i < |ws| :: ws[i].id == id
  }

  /** `windows.find(w => w.appId === appId)`: the first window of an application. */
  function FindByApp(ws: seq<WindowState>, appId: AppId): (r: Option<WindowState>)
    ensures r.Some? ==> r.value in ws && r.value.appId == appId
    ensures r.Some? ==> exists k | 0 <= k < |ws| :: ws[k] == r.value && forall j | 0 <= j < k :: ws[j].appId != appId
    ensures r.None? ==> forall i | 0 <= i < |ws| :: ws[i].appId != appId
  {
    if ws == [] then None
    else if ws[0].appId == appId then Some(ws[0])
    else FindByApp(ws[1..], appId)
  }

  /** Clears `isMinimized` on the windows with the given id. */
  function Restored(ws: seq<WindowState>, id: WindowId): (r: seq<WindowState>)
    ensures |r| == |ws|
    ensures forall i | 0 <= i < |ws| ::
      && r[i].isMinimized == (ws[i].isMinimized && ws[i].id != id)
      && r[i] == ws[i].(isMinimized := r[i].isMinimized)
  {
    seq(|ws|, i requires 0 <= i < |ws| =>
      if ws[i].id == id then ws[i].(isMinimized := false) else ws[i])
  }

  /** Sets `isMinimized` on the windows with the given id. */
  function Minimized(ws: seq<WindowState>, id: WindowId): (r: seq<WindowState>)
    ensures |r| == |ws|
    ensures forall i | 0 <= i < |ws| ::
      && r[i].isMinimized == (ws[i].id == id || ws[i].isMinimized)
      && r[i] == ws[i].(isMinimized := r[i].isMinimized)
  {
    seq(|ws|, i requires 0 <= i < |ws| =>
      if ws[i].id == id then ws[i].(isMinimized := true) else ws[i])
  }

  /** Flips `isMaximized` on the windows with the given id. */
  function MaximizeToggled(ws: seq<WindowState>, id: WindowId): (r: seq<WindowState>)
    ensures |r| == |ws|
    ensures forall i | 0 <= i < |ws| ::
      && r[i].isMaximized == (ws[i].isMaximized != (ws[i].id == id))
      && r[i] == ws[i].(isMaximized := r[i].isMaximized)
  {
    seq(|ws|, i requires 0 <= i < |ws| =>
      if ws[i].id == id then ws[i].(isMaximized := !ws[i].isMaximized) else ws[i])
  }

  /** Gives the windows with the given id the stacking value z and un-minimises them. */
  function Raised(ws: seq<WindowState>, id: WindowId, z: int): (r: seq<WindowState>)
    ensures |r| == |ws|
    ensures forall i | 0 <= i < |ws| ::
      && (ws[i].id == id ==> r[i].zIndex == z && !r[i].isMinimized)
      && (ws[i].id != id ==> r[i] == ws[i])
      && r[i] == ws[i].(zIndex := r[i].zIndex, isMinimized := r[i].isMinimized)
  {
    seq(|ws|, i requires 0 <= i < |ws| =>
      if ws[i].id == id then ws[i].(zIndex := z, isMinimized := false) else ws[i])
  }

  /** `windows.filter(w => w.id !== id)`. */
  function Without(ws: seq<WindowState>, id: WindowId): (r: seq<WindowState>)
    ensures |r| <= |ws|
  {
    if ws == [] then []
    else if ws[0].id == id then Without(ws[1..], id)
    else [ws[0]] + Without(ws[1..], id)
  }

  // ---------------------------------------------------------------------
  // Invariants of the window list
  // ---------------------------------------------------------------------

  predicate UniqueIds(ws: seq<WindowState>) {
    forall i, j | 0 <= i < j < |ws| :: ws[i].id != ws[j].id
  }

  predicate DistinctZ(ws: seq<WindowState>) {
    forall i, j | 0 <= i < j < |ws| :: ws[i].zIndex != ws[j].zIndex
  }

  /** Every stacking value was handed out by the counter. */
  predicate ZBounded(ws: seq<WindowState>, counter: int) {
    InitialZIndex <= counter &&
    forall i | 0 <= i < |ws| :: InitialZIndex < ws[i].zIndex <= counter
  }

  /** Two windows of one application exist only if its entry allows several. */
  predicate SingleInstance(ws: seq<WindowState>, apps: AppTable) {
    forall i, j | 0 <= i < j < |ws| && ws[i].appId == ws[j].appId :: apps(ws[i].appId).allowMultiple
  }

  predicate WellFormed(ws: seq<WindowState>, counter: int, apps: AppTable) {
    UniqueIds(ws) && DistinctZ(ws) && ZBounded(ws, counter) && SingleInstance(ws, apps)
  }

  // ---------------------------------------------------------------------
  // Lemmas about the rebuilds
  // ---------------------------------------------------------------------

  /** Closing keeps exactly the windows with another id. */
  lemma {:induction false} WithoutKeepsOthers(ws: seq<WindowState>, id: WindowId)
    ensures forall w :: w in Without(ws, id) <==> w in ws && w.id != id
  {
    if ws != [] {
      WithoutKeepsOthers(ws[1..], id);
      assert ws == [ws[0]] + ws[1..];
    }
  }

  /** Closing an id that is not live changes nothing. */
  lemma {:induction false} WithoutAbsent(ws: seq<WindowState>, id: WindowId)
    requires !HasWindow(ws, id)
    ensures Without(ws, id) == ws
  {
    if ws != [] {
      assert !HasWindow(ws[1..], id) by {
        forall i | 0 <= i < |ws[1..]| ensures ws[1..][i].id != id {
          assert ws[1..][i] == ws[i + 1];
        }
      }
      WithoutAbsent(ws[1..], id);
      assert ws == [ws[0]] + ws[1..];
    }
  }

  /** With unique ids, closing a live id removes exactly that window and keeps
      the order of the others. */
  lemma {:induction false} WithoutRemovesOne(ws: seq<WindowState>, id: WindowId, k: nat)
    requires UniqueIds(ws)
    requires k < |ws| && ws[k].id == id
    ensures Without(ws, id) == ws[..k] + ws[k + 1..]
  {
    var tail := ws[1..];
    UniqueTail(ws);
    if k == 0 {
      WithoutAbsent(tail, id);
      assert ws[..0] + ws[1..] == tail;
    } else {
      assert ws[0].id != id;
      WithoutRemovesOne(tail, id, k - 1);
      assert ws[..k] + ws[k + 1..] == [ws[0]] + (tail[..k - 1] + tail[k..]);
    }
  }

  /** Past the first window, ids stay unique and the first id is gone. */
  lemma UniqueTail(ws: seq<WindowState>)
    requires UniqueIds(ws) && ws != []
    ensures UniqueIds(ws[1..]) && !HasWindow(ws[1..], ws[0].id)
  {
    var tail := ws[1..];
    assert forall i | 0 <= i < |tail| :: tail[i] == ws[i + 1];
  }

  /** Removing one position keeps every invariant. */
  lemma DropKeepsWellFormed(ws: seq<WindowState>, k: nat, counter: int, apps: AppTable)
    requires WellFormed(ws, counter, apps) && k < |ws|
    ensures WellFormed(ws[..k] + ws[k + 1..], counter, apps)
  {
    var r := ws[..k] + ws[k + 1..];
    assert forall i | 0 <= i < |r| :: r[i] == ws[if i < k then i else i + 1];
  }

  /** Appending a window with a fresh id and the next stacking value keeps
      every invariant, when its application has no window yet or allows
      several. */
  lemma AppendKeepsWellFormed(ws: seq<WindowState>, w: WindowState, counter: int, apps: AppTable)
    requires WellFormed(ws, counter, apps)
    requires !HasWindow(ws, w.id) && w.zIndex == counter + 1
    requires FindByApp(ws, w.appId).None? || apps(w.appId).allowMultiple
    ensures WellFormed(ws + [w], counter + 1, apps)
  {
    var r := ws + [w];
    assert forall i | 0 <= i < |ws| :: r[i] == ws[i];
    assert r[|ws|] == w;
  }

  /** Closing keeps every invariant. */
  lemma CloseKeepsWellFormed(ws: seq<WindowState>, id: WindowId, counter: int, apps: AppTable)
    requires WellFormed(ws, counter, apps)
    ensures WellFormed(Without(ws, id), counter, apps)
  {
    if k :| 0 <= k < |ws| && ws[k].id == id {
      WithoutRemovesOne(ws, id, k);
      DropKeepsWellFormed(ws, k, counter, apps);
    } else {
      WithoutAbsent(ws, id);
    }
  }

  /** Raising with the next counter value keeps every invariant and puts the
      raised window on top of all others, un-minimised. */
  lemma RaisedIsTopmost(ws: seq<WindowState>, id: WindowId, counter: int, apps: AppTable)
    requires WellFormed(ws, counter, apps)
    ensures var r := Raised(ws, id, counter + 1);
      && WellFormed(r, counter + 1, apps)
      && |r| == |ws|
      && (forall i | 0 <= i < |r| && r[i].id == id ::
            !r[i].isMinimized && forall j | 0 <= j < |r| :: r[j].zIndex <= r[i].zIndex)
      && (forall i | 0 <= i < |r| && ws[i].id != id :: r[i] == ws[i])
  {
  }

  /** Focusing twice in a row (a pointer-down on the title bar reaches two
      focus handlers) leaves the list as one focus with the later value. */
  lemma RaiseTwice(ws: seq<WindowState>, id: WindowId, z1: int, z2: int)
    ensures Raised(Raised(ws, id, z1), id, z2) == Raised(ws, id, z2)
  {
  }

  /** Un-minimising keeps every invariant: ids, stacking and applications stay. */
  lemma RestoreKeepsWellFormed(ws: seq<WindowState>, id: WindowId, counter: int, apps: AppTable)
    requires WellFormed(ws, counter, apps)
    ensures WellFormed(Restored(ws, id), counter, apps)
  {
    var r := Restored(ws, id);
    assert forall i | 0 <= i < |ws| :: r[i].id == ws[i].id && r[i].zIndex == ws[i].zIndex && r[i].appId == ws[i].appId;
  }

  /** Un-minimising before raising makes no difference: raising un-minimises too. */
  lemma RaiseAbsorbsRestore(ws: seq<WindowState>, id: WindowId, z: int)
    ensures Raised(Restored(ws, id), id, z) == Raised(ws, id, z)
  {
  }

  /** Maximising a window twice gives back its `isMaximized` flag and never
      touches its stored geometry or any other window's. */
  lemma MaximizeTwiceRestores(ws: seq<WindowState>, id: WindowId, z1: int, z2: int)
    ensures var once := Raised(MaximizeToggled(ws, id), id, z1);
      var twice := Raised(MaximizeToggled(once, id), id, z2);
      && |twice| == |ws|
      && forall i | 0 <= i < |ws| ::
        && twice[i].id == ws[i].id
        && twice[i].isMaximized == ws[i].isMaximized
        && twice[i].x == ws[i].x && twice[i].y == ws[i].y
        && twice[i].width == ws[i].width && twice[i].height == ws[i].height
        && (ws[i].id != id ==> twice[i] == ws[i])
  {
  }

  /** On screen, the maximise button fills the viewport, and pressing it again
      shows the window at its stored geometry, with only the stacking value
      of the second raise changed (and un-minimised, as every raise does). */
  lemma MaximizeRoundTripShows(ws: seq<WindowState>, id: WindowId, i: int, z1: int, z2: int,
                               isActive: bool, vp: WindowFrame.Viewport)
    requires 0 <= i < |ws| && ws[i].id == id && !ws[i].isMaximized
    ensures var once := Raised(MaximizeToggled(ws, id), id, z1);
      WindowFrame.Display(once[i], isActive, vp) ==
        WindowFrame.Shown(0, 0, vp.width, vp.height - WindowFrame.DockReserve, z1, 0, false, isActive)
    ensures var once := Raised(MaximizeToggled(ws, id), id, z1);
      var twice := Raised(MaximizeToggled(once, id), id, z2);
      WindowFrame.Display(twice[i], isActive, vp) ==
        WindowFrame.Display(ws[i].(zIndex := z2, isMinimized := false), isActive, vp)
  {
    var once := Raised(MaximizeToggled(ws, id), id, z1);
    var twice := Raised(MaximizeToggled(once, id), id, z2);
    assert twice[i] == ws[i].(zIndex := z2, isMinimized := false);
  }

  // ---------------------------------------------------------------------
  // The Dock's "open" set: Array.from(new Set(windows.map(w => w.appId)))
  // ---------------------------------------------------------------------

  function AppIds(ws: seq<WindowState>): (r: seq<AppId>)
    ensures |r| == |ws| && forall i | 0 <= i < |ws| :: r[i] == ws[i].appId
  {
    seq(|ws|, i requires 0 <= i < |ws| => ws[i].appId)
  }

  predicate Distinct<T(==)>(s: seq<T>) {
    forall i, j | 0 <= i < j < |s| :: s[i] != s[j]
  }

  /** A JavaScript `Set` built from a sequence, read back as an array: each
      value once, in order of first occurrence. */
  function Dedup(s: seq<AppId>): (r: seq<AppId>)
    ensures forall a :: a in r <==> a in s
    ensures Distinct(r)
    ensures |r| <= |s|
  {
    if s == [] then []
    else
      var r := Dedup(s[..|s| - 1]);
      if s[|s| - 1] in r then r else r + [s[|s| - 1]]
  }

  /** A sequence without repetitions is its own `Set`. */
  lemma {:induction false} DedupOfDistinct(s: seq<AppId>)
    requires Distinct(s)
    ensures Dedup(s) == s
  {
    if s != [] {
      var init := s[..|s| - 1];
      assert Distinct(init);
      DedupOfDistinct(init);
      assert s[|s| - 1] !in init;
      assert init + [s[|s| - 1]] == s;
    }
  }

  function OpenApps(ws: seq<WindowState>): (r: seq<AppId>)
    ensures Distinct(r) && |r| <= |ws|
  {
    Dedup(AppIds(ws))
  }

  /** The Dock marks an application as open exactly when some window of it
      exists, minimised windows included, and lists it once. */
  lemma DockOpenSet(ws: seq<WindowState>, a: AppId)
    ensures a in OpenApps(ws) <==> exists i | 0 <= i < |ws| :: ws[i].appId == a
  {
    if a in OpenApps(ws) {
      var k :| 0 <= k < |AppIds(ws)| && AppIds(ws)[k] == a;
      assert ws[k].appId == a;
    }
  }

  /** With the shipped registry every application has at most one window, so
      the Dock shows one indicator per window. */
  lemma ShippedRegistryOneWindowPerApp(ws: seq<WindowState>, counter: int)
    requires WellFormed(ws, counter, Registry.Apps)
    ensures Distinct(AppIds(ws))
    ensures OpenApps(ws) == AppIds(ws) && |OpenApps(ws)| == |ws|
  {
    assert Distinct(AppIds(ws)) by {
      forall i, j | 0 <= i < j < |ws| ensures ws[i].appId != ws[j].appId {
        assert !Registry.Apps(ws[i].appId).allowMultiple;
      }
    }
    DedupOfDistinct(AppIds(ws));
  }

  /** The Dock's icons in the registry's listing order, each with its
      indicator. */
  function DockIcons(ws: seq<WindowState>): (icons: seq<(AppId, bool)>)
    ensures |icons| == |Registry.DockOrder|
    ensures forall i | 0 <= i < |icons| :: icons[i].0 == Registry.DockOrder[i]
  {
    seq(|Registry.DockOrder|, i requires 0 <= i < |Registry.DockOrder| =>
      (Registry.DockOrder[i], Registry.DockOrder[i] in OpenApps(ws)))
  }

  /** Every application has exactly one icon in the Dock, lit exactly when
      a window of it exists. */
  lemma DockShowsEveryAppOnce(ws: seq<WindowState>, a: AppId)
    ensures exists i | 0 <= i < |DockIcons(ws)| :: DockIcons(ws)[i].0 == a
    ensures forall i, j | 0 <= i < j < |DockIcons(ws)| :: DockIcons(ws)[i].0 != DockIcons(ws)[j].0
    ensures forall i | 0 <= i < |DockIcons(ws)| && DockIcons(ws)[i].0 == a ::
      DockIcons(ws)[i].1 <==> exists k | 0 <= k < |ws| :: ws[k].appId == a
  {
    Registry.DockOrderListsEveryAppOnce();
    DockOpenSet(ws, a);
    var icons := DockIcons(ws);
    assert a in Registry.DockOrder;
    var i :| 0 <= i < |Registry.DockOrder| && Registry.DockOrder[i] == a;
    assert icons[i].0 == a;
  }

  // ---------------------------------------------------------------------
  // The App component's state
  // ---------------------------------------------------------------------

  class App {
    const registry: AppTable
    var phase: Phase
    var windows: seq<WindowState>
    var activeWindowId: Option<WindowId>
    var zIndexCounter: int

    ghost predicate Valid()
      reads this
    {
      WellFormed(windows, zIndexCounter, registry)
    }

    constructor (registry: AppTable)
      ensures Valid() && this.registry == registry
      ensures phase == Boot && windows == [] && activeWindowId == None
      ensures zIndexCounter == InitialZIndex
    {
      this.registry := registry;
      phase := Boot;
      windows := [];
      activeWindowId := None;
      zIndexCounter := InitialZIndex;
    }

    /** The boot timer fires; it is set once, on mount, during boot. */
    method FinishBoot()
      requires phase == Boot
      modifies this`phase
      ensures phase == Login
    {
      phase := Login;
    }

    /** The login screen reports a successful login; that screen is only
        shown in the login phase. */
    method HandleLogin()
      requires phase == Login
      modifies this`phase
      ensures phase == Desktop
    {
      phase := Desktop;
    }

    /** Focus: the window gets the next stacking value and is un-minimised;
        the counter advances and the id becomes active even if no such window
        exists. */
    method BringToFront(id: WindowId)
      requires Valid()
      modifies this`windows, this`zIndexCounter, this`activeWindowId
      ensures Valid()
      ensures windows == Raised(old(windows), id, old(zIndexCounter) + 1)
      ensures zIndexCounter == old(zIndexCounter) + 1
      ensures activeWindowId == Some(id)
      ensures forall i | 0 <= i < |windows| && windows[i].id == id ::
        && windows[i].zIndex == zIndexCounter && !windows[i].isMinimized
        && forall j | 0 <= j < |windows| :: windows[j].zIndex <= windows[i].zIndex
    {
      RaisedIsTopmost(windows, id, zIndexCounter, registry);
      windows := Raised(windows, id, zIndexCounter + 1);
      zIndexCounter := zIndexCounter + 1;
      activeWindowId := Some(id);
    }

    /** Opens an application (the Dock's click). `freshId` stands for the
        UUID the system generates. */
    method OpenApp(appId: AppId, freshId: WindowId)
      requires Valid()
      requires !HasWindow(windows, freshId)
      modifies this`windows, this`zIndexCounter, this`activeWindowId
      ensures Valid()
      ensures zIndexCounter == old(zIndexCounter) + 1
      ensures var existing := FindByApp(old(windows), appId);
        if !registry(appId).allowMultiple && existing.Some? then
          && windows == Raised(old(windows), existing.value.id, zIndexCounter)
          && activeWindowId == Some(existing.value.id)
        else
          && windows == old(windows) + [WindowState(
               freshId, appId, registry(appId).title,
               CascadeX + CascadeStep * |old(windows)|, CascadeY + CascadeStep * |old(windows)|,
               registry(appId).defaultWidth, registry(appId).defaultHeight,
               zIndexCounter, false, false)]
          && activeWindowId == Some(freshId)
    {
      var appConfig := registry(appId);
      var existing := FindByApp(windows, appId);
      if !appConfig.allowMultiple && existing.Some? {
        ghost var before := windows;
        if existing.value.isMinimized {
          RestoreKeepsWellFormed(windows, existing.value.id, zIndexCounter, registry);
          windows := Restored(windows, existing.value.id);
        }
        BringToFront(existing.value.id);
        RaiseAbsorbsRestore(before, existing.value.id, zIndexCounter);
        return;
      }
      var newWindow := WindowState(
        freshId, appId, appConfig.title,
        CascadeX + CascadeStep * |windows|, CascadeY + CascadeStep * |windows|,
        appConfig.defaultWidth, appConfig.defaultHeight,
        zIndexCounter + 1, false, false);
      AppendKeepsWellFormed(windows, newWindow, zIndexCounter, registry);
      windows := windows + [newWindow];
      zIndexCounter := zIndexCounter + 1;
      activeWindowId := Some(newWindow.id);
    }

    /** Removes the window; the active id is left as it was, even when it
        named the closed window. */
    method CloseWindow(id: WindowId)
      requires Valid()
      modifies this`windows
      ensures Valid()
      ensures windows == Without(old(windows), id)
      ensures !HasWindow(old(windows), id) ==> windows == old(windows)
      ensures forall k | 0 <= k < |old(windows)| && old(windows)[k].id == id ::
        windows == old(windows)[..k] + old(windows)[k + 1..]
    {
      CloseKeepsWellFormed(windows, id, zIndexCounter, registry);
      forall k | 0 <= k < |windows| && windows[k].id == id
        ensures Without(windows, id) == windows[..k] + windows[k + 1..]
      {
        WithoutRemovesOne(windows, id, k);
      }
      if !HasWindow(windows, id) {
        WithoutAbsent(windows, id);
      }
      windows := Without(windows, id);
    }

    /** Minimises the window and clears focus, whichever window held it. */
    method MinimizeWindow(id: WindowId)
      requires Valid()
      modifies this`windows, this`activeWindowId
      ensures Valid()
      ensures windows == Minimized(old(windows), id)
      ensures activeWindowId == None
    {
      windows := Minimized(windows, id);
      activeWindowId := None;
    }

    /** Flips `isMaximized`, then focuses the window. */
    method MaximizeWindow(id: WindowId)
      requires Valid()
      modifies this`windows, this`zIndexCounter, this`activeWindowId
      ensures Valid()
      ensures windows == Raised(MaximizeToggled(old(windows), id), id, old(zIndexCounter) + 1)
      ensures zIndexCounter == old(zIndexCounter) + 1
      ensures activeWindowId == Some(id)
    {
      windows := MaximizeToggled(windows, id);
      BringToFront(id);
    }

    /** Runs the handler a window frame called. */
    method Handle(intent: WindowFrame.Intent)
      requires Valid()
      modifies this`windows, this`zIndexCounter, this`activeWindowId
      ensures Valid()
      ensures intent.Focus? ==>
        && windows == Raised(old(windows), intent.id, old(zIndexCounter) + 1)
        && zIndexCounter == old(zIndexCounter) + 1 && activeWindowId == Some(intent.id)
      ensures intent.Minimize? ==>
        && windows == Minimized(old(windows), intent.id)
        && zIndexCounter == old(zIndexCounter) && activeWindowId == None
      ensures intent.Maximize? ==>
        && windows == Raised(MaximizeToggled(old(windows), intent.id), intent.id, old(zIndexCounter) + 1)
        && zIndexCounter == old(zIndexCounter) + 1 && activeWindowId == Some(intent.id)
      ensures intent.Close? ==>
        && windows == Without(old(windows), intent.id)
        && zIndexCounter == old(zIndexCounter) && activeWindowId == old(activeWindowId)
    {
      match intent
      case Focus(id) => BringToFront(id);
      case Minimize(id) => MinimizeWindow(id);
      case Maximize(id) => MaximizeWindow(id);
      case Close(id) => CloseWindow(id);
    }

    /** The Dock's indicator for one application. */
    function IsOpen(a: AppId): (b: bool)
      reads this
      ensures b <==> exists i | 0 <= i < |windows| :: windows[i].appId == a
    {
      DockOpenSet(windows, a);
      a in OpenApps(windows)
    }

    /** What the window layer shows, one frame per window in list order. */
    function Frames(vp: WindowFrame.Viewport): (fs: seq<WindowFrame.Frame>)
      reads this
      ensures |fs| == |windows|
      ensures forall i | 0 <= i < |windows| ::
        fs[i] == WindowFrame.Display(windows[i], activeWindowId == Some(windows[i].id), vp)
    {
      seq(|windows|, i reads this requires 0 <= i < |windows| =>
        WindowFrame.Display(windows[i], activeWindowId == Some(windows[i].id), vp))
    }
  }

  /** With the shipped registry, new windows cascade from (100, 80) and stack
      above the counter's start. */
  method ScenarioCascade()
  {
    var app := new App(Registry.Apps);
    app.OpenApp(Settings, "w1");
    assert app.windows[0].zIndex == 11 && app.windows[0].x == 100 && app.windows[0].y == 80;
    assert FindByApp(app.windows, Browser) == None;
    app.OpenApp(Browser, "w3");
    assert |app.windows| == 2 && app.windows[1].x == 140 && app.windows[1].zIndex == 12;
  }

  /** A second open of a single-instance application reuses its window. */
  method ScenarioReuse()
  {
    var app := new App(Registry.Apps);
    app.OpenApp(Settings, "w1");
    assert FindByApp(app.windows, Settings) == Some(app.windows[0]);
    app.OpenApp(Settings, "w2");
    assert |app.windows| == 1 && app.windows[0].id == "w1" && app.windows[0].zIndex == 12;
    assert app.activeWindowId == Some("w1");
  }

  /** Opening a minimised application's window brings it back. */
  method ScenarioMinimizeReopen()
  {
    var app := new App(Registry.Apps);
    app.OpenApp(Browser, "w3");
    app.MinimizeWindow("w3");
    assert app.windows[0].isMinimized && app.activeWindowId == None;
    assert FindByApp(app.windows, Browser) == Some(app.windows[0]);
    app.OpenApp(Browser, "w4");
    assert |app.windows| == 1 && !app.windows[0].isMinimized && app.windows[0].zIndex == 12;
  }

  /** Closing a window other than the focused one leaves the focus alone. */
  method ScenarioCloseOther()
  {
    var app := new App(Registry.Apps);
    app.OpenApp(Settings, "w1");
    assert FindByApp(app.windows, Browser) == None;
    app.OpenApp(Browser, "w3");
    var before := app.windows;
    assert before[0].id == "w1";
    app.CloseWindow("w1");
    assert app.windows == before[..0] + before[1..];
    assert |app.windows| == 1 && app.activeWindowId == Some("w3");
  }
}
