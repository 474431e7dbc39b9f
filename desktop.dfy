/** The window manager of src/components/interfaces/RetroOS/Desktop.tsx: a list of
    open windows with a z-order counter, minimise, focus and close, the start menu
    and the selected icon. */
module RetroDesktop {
  import opened Wrappers
  import Seqs
  import RetroIcon

  /** An entry of `openWindows` (the source's `OpenWindow` record). */
  datatype WindowRecord = WindowRecord(projectId: string, isMinimized: bool, zIndex: int)

  ghost predicate UniqueProjects(ws: seq<WindowRecord>) {
    forall i, j :: 0 <= i < j < |ws| ==> ws[i].projectId != ws[j].projectId
  }

  ghost predicate DistinctLayers(ws: seq<WindowRecord>) {
    forall i, j :: 0 <= i < j < |ws| ==> ws[i].zIndex != ws[j].zIndex
  }

  /** `Math.max(...openWindows.map((w) => w.zIndex))`. */
  function MaxZ(ws: seq<WindowRecord>): (m: int)
    requires ws != []
    ensures forall k :: 0 <= k < |ws| ==> ws[k].zIndex <= m
    ensures exists k :: 0 <= k < |ws| && ws[k].zIndex == m
  {
    if |ws| == 1 then ws[0].zIndex
    else
      var rest := MaxZ(ws[1..]);
      assert forall k :: 1 <= k < |ws| ==> ws[k] == ws[1..][k - 1];
      if ws[0].zIndex >= rest then ws[0].zIndex else rest
  }

  /** What `focusWindow` does to one entry: the matching window is raised to layer
      `z` and restored; any other entry is kept. */
  function Raised(w: WindowRecord, id: string, z: int): WindowRecord {
    if w.projectId == id then w.(zIndex := z, isMinimized := false) else w
  }

  /** What `minimizeWindow` does to one entry. */
  function Lowered(w: WindowRecord, id: string): WindowRecord {
    if w.projectId == id then w.(isMinimized := true) else w
  }

  /** The active-window rule shared by the window area and the taskbar: shown (not
      minimised) and holding the greatest z-index of all open windows. */
  predicate IsActive(ws: seq<WindowRecord>, k: int) {
    0 <= k < |ws| && !ws[k].isMinimized && ws[k].zIndex == MaxZ(ws)
  }

  /** Window `k` is the active one and every other window lies strictly below it. */
  ghost predicate InFront(ws: seq<WindowRecord>, k: int) {
    IsActive(ws, k) && forall m :: 0 <= m < |ws| && m != k ==> ws[m].zIndex < ws[k].zIndex
  }

  /** What `openWindow(id)` does to the window list at the new counter `z`: a project
      without a window gets a shown one appended at layer `z`; an open one is raised to
      `z` and restored. Either way that window is then in front. */
  ghost predicate Opened(before: seq<WindowRecord>, after: seq<WindowRecord>, id: string, z: int) {
    && ((forall k :: 0 <= k < |before| ==> before[k].projectId != id) ==>
          after == before + [WindowRecord(id, false, z)])
    && ((exists k :: 0 <= k < |before| && before[k].projectId == id) ==>
          |after| == |before| && forall k :: 0 <= k < |after| ==> after[k] == Raised(before[k], id, z))
    && (exists k :: 0 <= k < |after| && after[k].projectId == id && InFront(after, k))
  }

  /** `prev.filter((w) => w.projectId !== projectId)`. */
  function Without(ws: seq<WindowRecord>, id: string): (r: seq<WindowRecord>)
    ensures forall w :: w in r <==> w in ws && w.projectId != id
    ensures |r| <= |ws|
  {
    if ws == [] then []
    else (if ws[0].projectId == id then [] else [ws[0]]) + Without(ws[1..], id)
  }

  /** Without a matching window the filter keeps the list as it is. */
  lemma {:induction false} WithoutAbsent(ws: seq<WindowRecord>, id: string)
    requires forall k :: 0 <= k < |ws| ==> ws[k].projectId != id
    ensures Without(ws, id) == ws
  {
    if ws != [] {
      WithoutAbsent(ws[1..], id);
    }
  }

  /** With the id at exactly one position the filter removes that position and keeps
      the others in order. */
  lemma {:induction false} WithoutAt(ws: seq<WindowRecord>, id: string, k: nat)
    requires k < |ws| && ws[k].projectId == id
    requires forall m :: 0 <= m < |ws| && m != k ==> ws[m].projectId != id
    ensures Without(ws, id) == ws[..k] + ws[k + 1..]
  {
    var tail := ws[1..];
    if k == 0 {
      assert forall m :: 0 <= m < |tail| ==> tail[m] == ws[m + 1];
      WithoutAbsent(tail, id);
      assert Without(ws, id) == [] + Without(tail, id);
    } else {
      assert forall m :: 0 <= m < |tail| ==> tail[m] == ws[m + 1];
      WithoutAt(tail, id, k - 1);
      assert Without(ws, id) == [ws[0]] + (tail[..k - 1] + tail[k..]);
      SplicePrefix(ws, k);
    }
  }

  /** Splicing out position `k > 0` keeps the head in front of the spliced tail. */
  lemma SplicePrefix(ws: seq<WindowRecord>, k: nat)
    requires 0 < k < |ws|
    ensures [ws[0]] + (ws[1..][..k - 1] + ws[1..][k..]) == ws[..k] + ws[k + 1..]
  {
    assert ws[..k] == [ws[0]] + ws[1..][..k - 1];
    assert ws[k + 1..] == ws[1..][k..];
  }

  /** Removing one position keeps project ids and z-indices distinct. */
  lemma SpliceKeepsDistinct(ws: seq<WindowRecord>, k: nat)
    requires k < |ws| && UniqueProjects(ws) && DistinctLayers(ws)
    ensures UniqueProjects(ws[..k] + ws[k + 1..]) && DistinctLayers(ws[..k] + ws[k + 1..])
  {
    var r := ws[..k] + ws[k + 1..];
    assert forall i :: 0 <= i < |r| ==> r[i] == ws[if i < k then i else i + 1];
  }

  /** The second update of `openWindow` on an open project: the matching window is
      marked as shown. */
  function Restored(ws: seq<WindowRecord>, id: string): (r: seq<WindowRecord>)
    ensures |r| == |ws|
    ensures forall k :: 0 <= k < |r| ==> r[k] == (if ws[k].projectId == id then ws[k].(isMinimized := false) else ws[k])
  {
    seq(|ws|, k requires 0 <= k < |ws| => if ws[k].projectId == id then ws[k].(isMinimized := false) else ws[k])
  }

  /** Once the matching window is shown, marking it shown again changes nothing. */
  lemma RestoredShown(ws: seq<WindowRecord>, id: string)
    requires forall k :: 0 <= k < |ws| && ws[k].projectId == id ==> !ws[k].isMinimized
    ensures Restored(ws, id) == ws
  {
    assert forall k :: 0 <= k < |ws| ==> Restored(ws, id)[k] == ws[k];
  }

  /** A shown window appended above every layer is the active one. */
  lemma AppendedOnTop(ws: seq<WindowRecord>, w: WindowRecord)
    requires !w.isMinimized && forall k :: 0 <= k < |ws| ==> ws[k].zIndex < w.zIndex
    ensures InFront(ws + [w], |ws|) && (ws + [w])[|ws|] == w
  {
    var r := ws + [w];
    assert forall m :: 0 <= m < |ws| ==> r[m] == ws[m];
    assert r[|ws|] == w;
  }

  class Desktop {
    var selectedIcon: Option<string>
    var openWindows: seq<WindowRecord>
    var showStartMenu: bool
    var maxZIndex: int

    /** Project ids are unique among the open windows, z-indices are distinct and at
        most the counter, and the counter never drops below its initial 10. */
    ghost predicate Valid()
      reads this
    {
      UniqueProjects(openWindows) && DistinctLayers(openWindows) && maxZIndex >= 10 &&
      forall k :: 0 <= k < |openWindows| ==> openWindows[k].zIndex <= maxZIndex
    }

    constructor ()
      ensures Valid()
      ensures selectedIcon == None && openWindows == [] && !showStartMenu && maxZIndex == 10
    {
      selectedIcon := None;
      openWindows := [];
      showStartMenu := false;
      maxZIndex := 10;
    }

    /** The window with the greatest z-index is unique; with distinct layers at most
        one window is active. */
    lemma AtMostOneActive(i: int, j: int)
      requires Valid() && IsActive(openWindows, i) && IsActive(openWindows, j)
      ensures i == j
    {
    }

    /** `focusWindow(projectId)`: the matching window is raised above every other and
        restored; the counter grows by one. */
    method FocusWindow(id: string)
      requires Valid()
      modifies this
      ensures Valid()
      ensures maxZIndex == old(maxZIndex) + 1
      ensures |openWindows| == |old(openWindows)|
      ensures forall k :: 0 <= k < |openWindows| ==>
        openWindows[k] == Raised(old(openWindows)[k], id, maxZIndex)
      ensures forall k :: 0 <= k < |openWindows| && openWindows[k].projectId == id ==> InFront(openWindows, k)
      ensures selectedIcon == old(selectedIcon) && showStartMenu == old(showStartMenu)
    {
      var ws := openWindows;
      var z := maxZIndex + 1;
      maxZIndex := maxZIndex + 1;
      openWindows := seq(|ws|, k requires 0 <= k < |ws| =>
        if ws[k].projectId == id then ws[k].(zIndex := z, isMinimized := false) else ws[k]);
    }

    /** `openWindow(projectId)`: an open project is focused; otherwise a new window is
        appended on top. Either way the project's window is then the active one. */
    method OpenWindow(id: string)
      requires Valid()
      modifies this
      ensures Valid()
      ensures maxZIndex == old(maxZIndex) + 1
      ensures Opened(old(openWindows), openWindows, id, maxZIndex)
      ensures selectedIcon == old(selectedIcon) && showStartMenu == old(showStartMenu)
    {
      var existing := Seqs.FindIndex(openWindows, (w: WindowRecord) => w.projectId == id);
      if existing.Some? {
        var wasMinimized := openWindows[existing.value].isMinimized;
        FocusWindow(id);
        if wasMinimized {
          var ws := openWindows;
          openWindows := Restored(ws, id);
          RestoredShown(ws, id);
        }
        assert openWindows[existing.value].projectId == id;
      } else {
        var ws := openWindows;
        var w := WindowRecord(id, false, maxZIndex + 1);
        maxZIndex := maxZIndex + 1;
        openWindows := ws + [w];
        AppendedOnTop(ws, w);
      }
    }

    /** `closeWindow(projectId)`: the project's window is removed and the others keep
        their order, contents and layers. */
    method CloseWindow(id: string)
      requires Valid()
      modifies this
      ensures Valid()
      ensures openWindows == Without(old(openWindows), id)
      ensures forall k :: 0 <= k < |old(openWindows)| && old(openWindows)[k].projectId == id ==>
        openWindows == old(openWindows)[..k] + old(openWindows)[k + 1..]
      ensures (forall k :: 0 <= k < |old(openWindows)| ==> old(openWindows)[k].projectId != id) ==>
        openWindows == old(openWindows)
      ensures maxZIndex == old(maxZIndex)
      ensures selectedIcon == old(selectedIcon) && showStartMenu == old(showStartMenu)
    {
      var ws := openWindows;
      openWindows := Without(ws, id);
      var i := Seqs.FindIndex(ws, (w: WindowRecord) => w.projectId == id);
      if i.Some? {
        WithoutAt(ws, id, i.value);
        SpliceKeepsDistinct(ws, i.value);
      } else {
        WithoutAbsent(ws, id);
      }
    }

    /** `minimizeWindow(projectId)`: only the matching window is minimised and no
        z-index changes. */
    method MinimizeWindow(id: string)
      requires Valid()
      modifies this
      ensures Valid()
      ensures |openWindows| == |old(openWindows)|
      ensures forall k :: 0 <= k < |openWindows| ==>
        openWindows[k] == Lowered(old(openWindows)[k], id)
      ensures maxZIndex == old(maxZIndex)
      ensures selectedIcon == old(selectedIcon) && showStartMenu == old(showStartMenu)
    {
      var ws := openWindows;
      openWindows := seq(|ws|, k requires 0 <= k < |ws| =>
        if ws[k].projectId == id then ws[k].(isMinimized := true) else ws[k]);
    }

    /** `handleDesktopClick`: deselects the icon and closes the start menu. */
    method HandleDesktopClick()
      modifies this
      ensures selectedIcon == None && !showStartMenu
      ensures openWindows == old(openWindows) && maxZIndex == old(maxZIndex)
    {
      selectedIcon := None;
      showStartMenu := false;
    }

    /** An icon's `onSelect`. */
    method SelectIcon(id: string)
      modifies this
      ensures selectedIcon == Some(id)
      ensures openWindows == old(openWindows) && maxZIndex == old(maxZIndex)
      ensures showStartMenu == old(showStartMenu)
    {
      selectedIcon := Some(id);
    }

    /** The start button: `setShowStartMenu((prev) => !prev)`. */
    method ToggleStartMenu()
      modifies this
      ensures showStartMenu == !old(showStartMenu)
      ensures openWindows == old(openWindows) && maxZIndex == old(maxZIndex)
      ensures selectedIcon == old(selectedIcon)
    {
      showStartMenu := !showStartMenu;
    }

    /** A click on an icon as the browser dispatches it: the icon's handler runs, then
        the click bubbles to the desktop's handler, which clears the selection again. */
    method IconClickAsWritten(icon: RetroIcon.Icon, id: string) returns (outcome: RetroIcon.ClickOutcome)
      requires Valid() && icon.Valid()
      modifies this, icon
      ensures Valid() && icon.Valid()
      ensures outcome == (if old(icon.clickCount) == 0 then RetroIcon.Selected else RetroIcon.DoubleClicked)
      ensures selectedIcon == None && !showStartMenu
      ensures outcome == RetroIcon.Selected ==>
        openWindows == old(openWindows) && maxZIndex == old(maxZIndex)
      ensures outcome == RetroIcon.DoubleClicked ==>
        maxZIndex == old(maxZIndex) + 1 && Opened(old(openWindows), openWindows, id, maxZIndex)
    {
      outcome := icon.HandleClick();
      if outcome == RetroIcon.Selected {
        SelectIcon(id);
      } else {
        OpenWindow(id);
      }
      HandleDesktopClick();
    }

    /** The same click with the icon stopping propagation: a single click leaves that
        icon selected, a double click opens its window. */
    method IconClickContained(icon: RetroIcon.Icon, id: string) returns (outcome: RetroIcon.ClickOutcome)
      requires Valid() && icon.Valid()
      modifies this, icon
      ensures Valid() && icon.Valid()
      ensures outcome == (if old(icon.clickCount) == 0 then RetroIcon.Selected else RetroIcon.DoubleClicked)
      ensures outcome == RetroIcon.Selected ==>
        && selectedIcon == Some(id) && showStartMenu == old(showStartMenu)
        && openWindows == old(openWindows) && maxZIndex == old(maxZIndex)
      ensures outcome == RetroIcon.DoubleClicked ==>
        && selectedIcon == old(selectedIcon) && showStartMenu == old(showStartMenu)
        && maxZIndex == old(maxZIndex) + 1 && Opened(old(openWindows), openWindows, id, maxZIndex)
    {
      outcome := icon.HandleClick();
      if outcome == RetroIcon.Selected {
        SelectIcon(id);
      } else {
        OpenWindow(id);
      }
    }

    /** A click on a window's minimise button as the browser dispatches it: the
        button's `onMinimize`, then the window frame's `onFocus`, then the desktop. */
    method MinimizeButtonAsWritten(id: string)
      requires Valid()
      modifies this
      ensures Valid()
      ensures maxZIndex == old(maxZIndex) + 1 && |openWindows| == |old(openWindows)|
      ensures forall k :: 0 <= k < |openWindows| ==>
        openWindows[k] == Raised(old(openWindows)[k], id, maxZIndex)
      ensures forall k :: 0 <= k < |openWindows| && openWindows[k].projectId == id ==> !openWindows[k].isMinimized
      ensures selectedIcon == None && !showStartMenu
    {
      MinimizeWindow(id);
      FocusWindow(id);
      HandleDesktopClick();
    }

    /** The same click with the button stopping propagation: the window is minimised
        and no layer changes. */
    method MinimizeButtonContained(id: string)
      requires Valid()
      modifies this
      ensures Valid()
      ensures maxZIndex == old(maxZIndex) && |openWindows| == |old(openWindows)|
      ensures forall k :: 0 <= k < |openWindows| ==> openWindows[k] == Lowered(old(openWindows)[k], id)
      ensures forall k :: 0 <= k < |openWindows| && openWindows[k].projectId == id ==> openWindows[k].isMinimized
      ensures forall k :: 0 <= k < |openWindows| ==> openWindows[k].zIndex == old(openWindows)[k].zIndex
      ensures selectedIcon == old(selectedIcon) && showStartMenu == old(showStartMenu)
    {
      MinimizeWindow(id);
    }
  }

  /** Select an icon with one click as written: nothing stays selected. */
  method SelectIconByClick() returns (selected: Option<string>)
    ensures selected == None
  {
    var d := new Desktop();
    var icon := new RetroIcon.Icon();
    var _ := d.IconClickAsWritten(icon, "crym");
    selected := d.selectedIcon;
  }

  /** The same click when the icon contains it: the icon stays selected. */
  method SelectIconByContainedClick() returns (selected: Option<string>)
    ensures selected == Some("crym")
  {
    var d := new Desktop();
    var icon := new RetroIcon.Icon();
    var _ := d.IconClickContained(icon, "crym");
    selected := d.selectedIcon;
  }

  /** Open a window, press its minimise button as written: it is still shown. */
  method MinimizeByButton() returns (windows: seq<WindowRecord>)
    ensures windows == [WindowRecord("crym", false, 12)]
  {
    var d := new Desktop();
    d.OpenWindow("crym");
    d.MinimizeButtonAsWritten("crym");
    windows := d.openWindows;
  }

  /** The same press when the button contains the click: the window is minimised. */
  method MinimizeByContainedButton() returns (windows: seq<WindowRecord>)
    ensures windows == [WindowRecord("crym", true, 11)]
  {
    var d := new Desktop();
    d.OpenWindow("crym");
    d.MinimizeButtonContained("crym");
    windows := d.openWindows;
  }
}
