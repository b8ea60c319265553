/** The window registry of the XCB window manager (src/window_manager.h):
    the list of windows it knows, searched front to back by id, marked
    mapped in place and grown by appending. */
module WindowManagers {
  import opened Wrappers
  import opened Types

  /** A window the manager tracks (src/ewmh.h:24-33). */
  datatype WmWindow = WmWindow(id: Window, name: string, isMapped: bool, isCentered: bool, isFloating: bool,
                               isDirty: bool, position: Vector2D, size: Vector2D)

  /** The entry `AddWindowToMapped` creates: the named fields as given, the
      others value-initialised to false and zero. */
  function NewMapped(w: Window): (e: WmWindow)
    ensures e.id == w && e.name == "" && e.isMapped
    ensures !e.isCentered && !e.isFloating && !e.isDirty
    ensures e.position == Vector2D(0, 0) && e.size == Vector2D(0, 0)
  {
    WmWindow(w, "", true, false, false, false, Vector2D(0, 0), Vector2D(0, 0))
  }

  predicate Tracked(windows: seq<WmWindow>, w: Window) {
    exists k :: 0 <= k < |windows| && windows[k].id == w
  }

  /** `std::ranges::find_if` on the id: the position of the first entry for
      `w`, `None` when there is none. */
  function FindWindow(windows: seq<WmWindow>, w: Window): (r: Option<nat>)
    ensures r.Some? ==> r.value < |windows| && windows[r.value].id == w
    ensures r.Some? ==> forall k :: 0 <= k < r.value ==> windows[k].id != w
    ensures r.None? <==> !Tracked(windows, w)
    decreases |windows|
  {
    if windows == [] then None
    else if windows[0].id == w then Some(0)
    else
      match FindWindow(windows[1..], w)
      case None => None
      case Some(i) =>
        assert windows[i + 1] == windows[1..][i];
        Some(i + 1)
  }

  /** What `IsWindowMapped` answers: the first entry for `w` is mapped. */
  predicate MappedIn(windows: seq<WmWindow>, w: Window) {
    var r := FindWindow(windows, w);
    r.Some? && windows[r.value].isMapped
  }

  /** What `IsWindowUnmapped` answers: the first entry for `w` is unmapped. */
  predicate UnmappedIn(windows: seq<WmWindow>, w: Window) {
    var r := FindWindow(windows, w);
    r.Some? && !windows[r.value].isMapped
  }

  /** The list after `MoveUnmappedWindowToMapped(w)`: the first entry for
      `w`, if any, marked mapped. */
  function MarkMapped(windows: seq<WmWindow>, w: Window): (r: seq<WmWindow>)
    ensures |r| == |windows|
    ensures forall k :: 0 <= k < |windows| ==> r[k].id == windows[k].id
    ensures forall k :: 0 <= k < |windows| && Some(k) != FindWindow(windows, w) ==> r[k] == windows[k]
    ensures FindWindow(windows, w).Some? ==>
              var i := FindWindow(windows, w).value;
              r[i] == windows[i].(isMapped := true)
  {
    match FindWindow(windows, w)
    case None => windows
    case Some(i) => windows[i := windows[i].(isMapped := true)]
  }

  /** For a tracked window exactly one of the two lookups holds; for an
      untracked one neither does. */
  lemma MappedUnmappedComplement(windows: seq<WmWindow>, w: Window)
    ensures !(MappedIn(windows, w) && UnmappedIn(windows, w))
    ensures Tracked(windows, w) ==> (MappedIn(windows, w) <==> !UnmappedIn(windows, w))
    ensures !Tracked(windows, w) ==> !MappedIn(windows, w) && !UnmappedIn(windows, w)
  {
  }

  /** The lookups depend on the ids only, position by position. */
  lemma {:induction false} FindWindowSameIds(a: seq<WmWindow>, b: seq<WmWindow>, w: Window)
    requires |a| == |b|
    requires forall k :: 0 <= k < |a| ==> a[k].id == b[k].id
    ensures FindWindow(a, w) == FindWindow(b, w)
    decreases |a|
  {
    if a != [] && a[0].id != w {
      FindWindowSameIds(a[1..], b[1..], w);
    }
  }

  /** After `MoveUnmappedWindowToMapped(w)` a tracked `w` is mapped, an
      untracked one stays untracked, and every other window's lookups
      answer as before. */
  lemma MarkMappedEffect(windows: seq<WmWindow>, w: Window, v: Window)
    ensures Tracked(windows, w) ==> MappedIn(MarkMapped(windows, w), w)
    ensures !Tracked(windows, w) ==> MarkMapped(windows, w) == windows
    ensures v != w ==> (MappedIn(MarkMapped(windows, w), v) <==> MappedIn(windows, v))
    ensures v != w ==> (UnmappedIn(MarkMapped(windows, w), v) <==> UnmappedIn(windows, v))
  {
    var r := MarkMapped(windows, w);
    FindWindowSameIds(windows, r, w);
    FindWindowSameIds(windows, r, v);
  }

  /** Appending never changes the answer for a window already tracked: the
      search stops at the earlier entry. An untracked window is found at
      the new end. */
  lemma {:induction false} FindWindowAppend(windows: seq<WmWindow>, e: WmWindow, w: Window)
    ensures Tracked(windows, w) ==> FindWindow(windows + [e], w) == FindWindow(windows, w)
    ensures !Tracked(windows, w) && e.id == w ==> FindWindow(windows + [e], w) == Some(|windows|)
    ensures !Tracked(windows, w) && e.id != w ==> FindWindow(windows + [e], w).None?
    decreases |windows|
  {
    if windows != [] && windows[0].id != w {
      assert (windows + [e])[1..] == windows[1..] + [e];
      FindWindowAppend(windows[1..], e, w);
      if Tracked(windows, w) {
        var k :| 0 <= k < |windows| && windows[k].id == w;
        assert windows[1..][k - 1].id == w;
      }
      if Tracked(windows[1..], w) {
        var k :| 0 <= k < |windows[1..]| && windows[1..][k].id == w;
        assert windows[k + 1].id == w;
      }
    }
  }

  /** `AddWindowToMapped(w)` makes an untracked `w` mapped. For a tracked
      `w` it adds a second entry that the lookups never see: an unmapped
      window stays unmapped. */
  lemma AddShadowedByEarlierEntry(windows: seq<WmWindow>, w: Window)
    ensures !Tracked(windows, w) ==> MappedIn(windows + [NewMapped(w)], w)
    ensures Tracked(windows, w) ==>
              (MappedIn(windows + [NewMapped(w)], w) <==> MappedIn(windows, w)) &&
              (UnmappedIn(windows + [NewMapped(w)], w) <==> UnmappedIn(windows, w))
    ensures Tracked(windows, w) ==> Tracked(windows + [NewMapped(w)], w)
  {
    FindWindowAppend(windows, NewMapped(w), w);
    if Tracked(windows, w) {
      var i := FindWindow(windows, w).value;
      assert (windows + [NewMapped(w)])[i] == windows[i];
    }
  }

  /** `WindowManager`'s managed-window state (src/window_manager.h:83-87). */
  class WindowManager {
    var border: uint16
    var gap: uint16
    var windows: seq<WmWindow>
    var lastFocused: Option<Window>

    /** The member initialisers. */
    constructor ()
      ensures windows == [] && lastFocused == None
      ensures border == 2 && gap == 10
    {
      border := 2;
      gap := 10;
      windows := [];
      lastFocused := None;
    }

    /** The `find_if` scan on `windows_`. */
    method Find(w: Window) returns (r: Option<nat>)
      ensures r == FindWindow(windows, w)
    {
      var i := 0;
      while i < |windows|
        invariant 0 <= i <= |windows|
        invariant forall k :: 0 <= k < i ==> windows[k].id != w
      {
        if windows[i].id == w {
          FindFirst(windows, w, i);
          return Some(i);
        }
        i := i + 1;
      }
      r := None;
    }

    method IsWindowUnmapped(w: Window) returns (b: bool)
      ensures b <==> UnmappedIn(windows, w)
    {
      var it := Find(w);
      if it.Some? {
        return !windows[it.value].isMapped;
      }
      return false;
    }

    method IsWindowMapped(w: Window) returns (b: bool)
      ensures b <==> MappedIn(windows, w)
    {
      var it := Find(w);
      if it.Some? {
        return windows[it.value].isMapped;
      }
      return false;
    }

    method MoveUnmappedWindowToMapped(w: Window)
      modifies this
      ensures windows == MarkMapped(old(windows), w)
      ensures border == old(border) && gap == old(gap) && lastFocused == old(lastFocused)
    {
      var it := Find(w);
      if it.Some? {
        windows := windows[it.value := windows[it.value].(isMapped := true)];
      }
    }

    /** `emplace_back` of a fresh mapped entry; the result is that entry. */
    method AddWindowToMapped(w: Window) returns (e: WmWindow)
      modifies this
      ensures windows == old(windows) + [NewMapped(w)]
      ensures e == windows[|windows| - 1]
      ensures border == old(border) && gap == old(gap) && lastFocused == old(lastFocused)
    {
      windows := windows + [NewMapped(w)];
      e := windows[|windows| - 1];
    }
  }

  /** A scan that stops at the first entry for `w` has found `FindWindow`'s
      answer. */
  lemma FindFirst(windows: seq<WmWindow>, w: Window, i: nat)
    requires i < |windows| && windows[i].id == w
    requires forall k :: 0 <= k < i ==> windows[k].id != w
    ensures FindWindow(windows, w) == Some(i)
  {
  }
}
