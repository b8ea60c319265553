/** The Xlib reparenting window manager of src/window_manager.cpp: every
    client window it manages is reparented into a frame of its own, and the
    `clients_` map records each client's frame. The Xlib calls it makes are
    appended to a call log; the server's answers are inputs. */
module XlibWindowManager {
  import opened Types

  // Xlib constants (X.h).
  const SUBSTRUCTURE_NOTIFY_MASK: uint32 := 0x80000
  const SUBSTRUCTURE_REDIRECT_MASK: uint32 := 0x100000
  const BUTTON_PRESS_MASK: uint32 := 0x4
  const BUTTON_RELEASE_MASK: uint32 := 0x8
  const BUTTON_MOTION_MASK: uint32 := 0x2000
  const GRAB_MODE_ASYNC: uint8 := 1
  const IS_VIEWABLE: int32 := 2
  /** Xlib's `None` for a window or cursor argument. */
  const X_NONE: uint32 := 0

  /** The part of the `XGetWindowAttributes` reply that `Frame` reads. */
  datatype XWindowAttributes = XWindowAttributes(x: int32, y: int32, width: int32, height: int32,
                                                 overrideRedirect: bool, mapState: int32)

  /** `XWindowChanges`, filled field by field from the request. */
  datatype WindowChanges = WindowChanges(x: int32, y: int32, width: int32, height: int32,
                                         borderWidth: int32, sibling: Window, stackMode: int32)

  /** `XConfigureRequestEvent`. */
  datatype ConfigureRequestEvent = ConfigureRequestEvent(window: Window, x: int32, y: int32, width: int32, height: int32,
                                                         borderWidth: int32, above: Window, detail: int32, valueMask: uint32)

  /** `XUnmapEvent`: `event` is the window the event was reported on. */
  datatype UnmapEvent = UnmapEvent(event: Window, window: Window)

  /** The condition of an interaction: a pointer button or a key, each with
      its modifier mask, or some other alternative of the variant. */
  datatype Condition =
    | ButtonCondition(button: uint32, modifier: uint32)
    | KeyCondition(keysym: uint32, modifier: uint32)
    | OtherCondition

  datatype Interaction = Interaction(condition: Condition)

  /** The Xlib calls the window manager makes, with the arguments it passes;
      `CreateSimpleWindow` also records the id the call returned. The
      frame's border width and colours are passed through unmodelled. */
  datatype XCall =
    | CreateSimpleWindow(parent: Window, x: int32, y: int32, width: int32, height: int32, created: Window)
    | SelectInput(window: Window, eventMask: uint32)
    | AddToSaveSet(window: Window)
    | ReparentWindow(window: Window, parent: Window, x: int32, y: int32)
    | MapWindow(window: Window)
    | UnmapWindow(window: Window)
    | ConfigureWindow(window: Window, valueMask: uint32, changes: WindowChanges)
    | GrabButton(button: uint32, modifiers: uint32, grabWindow: Window, ownerEvents: bool, eventMask: uint32,
                 pointerMode: uint8, keyboardMode: uint8, confineTo: Window, cursor: uint32)
    | GrabKey(keycode: uint8, modifiers: uint32, grabWindow: Window, ownerEvents: bool,
              pointerMode: uint8, keyboardMode: uint8)

  // ------------------------------------------------------------ the clients map

  /** The guard of `Frame`: a window already framed is left alone, and a
      window found at start-up is framed only when it is viewable and not
      override-redirect. A window that asks to be mapped is always framed. */
  function WillFrame(clients: map<Window, Window>, w: Window, createdBefore: bool, attrs: XWindowAttributes): (b: bool)
    ensures w in clients ==> !b
    ensures w !in clients && !createdBefore ==> b
    ensures w !in clients && createdBefore ==> (b <==> !attrs.overrideRedirect && attrs.mapState == IS_VIEWABLE)
  {
    w !in clients && (!createdBefore || (!attrs.overrideRedirect && attrs.mapState == IS_VIEWABLE))
  }

  /** The calls `Frame` makes before recording the client: create the frame
      at the window's geometry, select the redirect and notify events on it,
      save the window, reparent it into the frame and map the frame. */
  function FrameCalls(root: Window, w: Window, attrs: XWindowAttributes, frame: Window): (cs: seq<XCall>)
    ensures |cs| == 5
    ensures cs[0] == CreateSimpleWindow(root, attrs.x, attrs.y, attrs.width, attrs.height, frame)
    ensures cs[3] == ReparentWindow(w, frame, 0, 0) && cs[4] == MapWindow(frame)
  {
    [CreateSimpleWindow(root, attrs.x, attrs.y, attrs.width, attrs.height, frame),
     SelectInput(frame, SUBSTRUCTURE_REDIRECT_MASK + SUBSTRUCTURE_NOTIFY_MASK),
     AddToSaveSet(w),
     ReparentWindow(w, frame, 0, 0),
     MapWindow(frame)]
  }

  /** The calls `UnFrame` makes for a client: unmap its frame and reparent
      the window back to the root. */
  function UnFrameCalls(root: Window, w: Window, frame: Window): seq<XCall> {
    [UnmapWindow(frame), ReparentWindow(w, root, 0, 0)]
  }

  // ------------------------------------------------------------ the window tree

  /** The part of the server's state the frame calls change: each window's
      parent, the set of mapped windows and the save-set. */
  datatype XTree = XTree(parent: map<Window, Window>, mapped: set<Window>, saveSet: set<Window>)

  /** The effect of one call on the tree. A new window starts unmapped under
      its parent; selecting input, configuring and grabbing leave the tree
      alone. */
  function ApplyCall(t: XTree, c: XCall): XTree {
    match c
    case CreateSimpleWindow(parent, _, _, _, _, created) => t.(parent := t.parent[created := parent], mapped := t.mapped - {created})
    case AddToSaveSet(w) => t.(saveSet := t.saveSet + {w})
    case ReparentWindow(w, parent, _, _) => t.(parent := t.parent[w := parent])
    case MapWindow(w) => t.(mapped := t.mapped + {w})
    case UnmapWindow(w) => t.(mapped := t.mapped - {w})
    case _ => t
  }

  /** The calls' effect, in order. */
  function ApplyCalls(t: XTree, cs: seq<XCall>): XTree
    decreases |cs|
  {
    if cs == [] then t else ApplyCalls(ApplyCall(t, cs[0]), cs[1..])
  }

  lemma {:induction false} ApplyCallsConcat(t: XTree, a: seq<XCall>, b: seq<XCall>)
    ensures ApplyCalls(t, a + b) == ApplyCalls(ApplyCalls(t, a), b)
    decreases |a|
  {
    if a == [] {
      assert a + b == b;
    } else {
      assert (a + b)[0] == a[0] && (a + b)[1..] == a[1..] + b;
      ApplyCallsConcat(ApplyCall(t, a[0]), a[1..], b);
    }
  }

  lemma ApplyCallsCons(t: XTree, c: XCall, rest: seq<XCall>)
    ensures ApplyCalls(t, [c] + rest) == ApplyCalls(ApplyCall(t, c), rest)
  {
    assert ([c] + rest)[0] == c && ([c] + rest)[1..] == rest;
  }

  /** The tree after `FrameCalls`, call by call. */
  lemma FrameCallsTree(t: XTree, root: Window, w: Window, attrs: XWindowAttributes, frame: Window)
    ensures ApplyCalls(t, FrameCalls(root, w, attrs, frame))
              == XTree(t.parent[frame := root][w := frame], (t.mapped - {frame}) + {frame}, t.saveSet + {w})
  {
    var cs := FrameCalls(root, w, attrs, frame);
    assert cs == [cs[0]] + ([cs[1]] + ([cs[2]] + ([cs[3]] + ([cs[4]] + []))));
    ApplyCallsCons(t, cs[0], cs[1..]);
    var t1 := ApplyCall(t, cs[0]);
    ApplyCallsCons(t1, cs[1], cs[2..]);
    assert cs[1..][1..] == cs[2..];
    ApplyCallsCons(t1, cs[2], cs[3..]);
    assert cs[2..][1..] == cs[3..];
    var t3 := ApplyCall(t1, cs[2]);
    ApplyCallsCons(t3, cs[3], cs[4..]);
    assert cs[3..][1..] == cs[4..];
    var t4 := ApplyCall(t3, cs[3]);
    ApplyCallsCons(t4, cs[4], []);
    assert cs[4..] == [cs[4]] + [];
  }

  /** After `FrameCalls` the window sits in the frame, the frame is a mapped
      child of the root, the window is in the save-set, and every other
      window keeps its parent and its mapped state. */
  lemma FrameCallsEffect(t: XTree, root: Window, w: Window, attrs: XWindowAttributes, frame: Window)
    requires w != frame
    ensures var after := ApplyCalls(t, FrameCalls(root, w, attrs, frame));
            w in after.parent && after.parent[w] == frame && frame in after.parent && after.parent[frame] == root &&
            frame in after.mapped && (w in after.mapped <==> w in t.mapped) && w in after.saveSet &&
            (forall v :: v != w && v != frame ==> (v in after.parent <==> v in t.parent) && (v in after.mapped <==> v in t.mapped)) &&
            (forall v :: v != w && v != frame && v in t.parent ==> after.parent[v] == t.parent[v]) &&
            after.saveSet == t.saveSet + {w}
  {
    FrameCallsTree(t, root, w, attrs, frame);
  }

  /** After `UnFrameCalls` the window is the root's child again and its frame
      is unmapped; nothing else changes, and the frame is not destroyed. */
  lemma UnFrameCallsEffect(t: XTree, root: Window, w: Window, frame: Window)
    ensures var after := ApplyCalls(t, UnFrameCalls(root, w, frame));
            after.parent == t.parent[w := root] && after.mapped == t.mapped - {frame} && after.saveSet == t.saveSet
  {
    var cs := UnFrameCalls(root, w, frame);
    assert cs == [cs[0]] + ([cs[1]] + []);
    ApplyCallsCons(t, cs[0], [cs[1]] + []);
    ApplyCallsCons(ApplyCall(t, cs[0]), cs[1], []);
  }

  /** Grabs leave the tree alone. */
  lemma {:induction false} GrabsKeepTree(t: XTree, cs: seq<XCall>)
    requires forall c :: c in cs ==> c.GrabButton? || c.GrabKey?
    ensures ApplyCalls(t, cs) == t
    decreases |cs|
  {
    if cs != [] {
      assert cs[0] in cs;
      assert forall c :: c in cs[1..] ==> c in cs;
      GrabsKeepTree(t, cs[1..]);
    }
  }

  /** Framing a top-level window with a fresh frame and unframing it again,
      grabs in between, puts the window back under the root and restores the
      clients map and the mapped windows; what remains is the frame itself, an
      unmapped child of the root, and the window's save-set entry. */
  lemma FrameUnFrameRoundTrip(t: XTree, clients: map<Window, Window>, root: Window, w: Window,
                              attrs: XWindowAttributes, frame: Window, grabs: seq<XCall>)
    requires w !in clients && w != frame && frame !in t.parent && frame !in t.mapped
    requires w in t.parent && t.parent[w] == root
    requires forall c :: c in grabs ==> c.GrabButton? || c.GrabKey?
    ensures clients[w := frame] - {w} == clients && clients[w := frame][w] == frame
    ensures var after := ApplyCalls(t, FrameCalls(root, w, attrs, frame) + grabs + UnFrameCalls(root, w, frame));
            after.parent == t.parent[frame := root] && after.mapped == t.mapped && after.saveSet == t.saveSet + {w}
  {
    var framed := ApplyCalls(t, FrameCalls(root, w, attrs, frame));
    FrameCallsTree(t, root, w, attrs, frame);
    ApplyCallsConcat(t, FrameCalls(root, w, attrs, frame), grabs);
    GrabsKeepTree(framed, grabs);
    ApplyCallsConcat(t, FrameCalls(root, w, attrs, frame) + grabs, UnFrameCalls(root, w, frame));
    UnFrameCallsEffect(framed, root, w, frame);
    assert t.parent[frame := root][w := frame][w := root] == t.parent[frame := root];
    assert (t.mapped - {frame}) + {frame} - {frame} == t.mapped;
  }

  /** The `OnUnmapNotify` guard: unframe only a client whose unmap was not
      reported on the root. */
  predicate UnmapUnframes(clients: map<Window, Window>, root: Window, e: UnmapEvent) {
    e.window in clients && e.event != root
  }

  // ------------------------------------------------------------- interactions

  /** `XKeysymToKeycode`: the keycode the keyboard mapping gives a keysym, 0
      when it has none. */
  function KeysymToKeycode(keymap: map<uint32, uint8>, keysym: uint32): uint8 {
    if keysym in keymap then keymap[keysym] else 0
  }

  /** The grab for one interaction on `w`; an interaction that is neither a
      button nor a key grabs nothing. */
  function InteractionGrab(keymap: map<uint32, uint8>, w: Window, c: Condition): (cs: seq<XCall>)
    ensures c.OtherCondition? <==> cs == []
    ensures |cs| <= 1
  {
    match c
    case ButtonCondition(button, modifier) =>
      [GrabButton(button, modifier, w, false, BUTTON_PRESS_MASK + BUTTON_RELEASE_MASK + BUTTON_MOTION_MASK,
                  GRAB_MODE_ASYNC, GRAB_MODE_ASYNC, X_NONE, X_NONE)]
    case KeyCondition(keysym, modifier) =>
      [GrabKey(KeysymToKeycode(keymap, keysym), modifier, w, false, GRAB_MODE_ASYNC, GRAB_MODE_ASYNC)]
    case OtherCondition => []
  }

  /** `RegisterInteractions` as written: the loop `break`s right after the
      first grab, so only the first button or key interaction is grabbed. */
  function InteractionGrabsAsWritten(keymap: map<uint32, uint8>, w: Window, interactions: seq<Interaction>): (cs: seq<XCall>)
    ensures |cs| <= 1
    decreases |interactions|
  {
    if interactions == [] then []
    else if interactions[0].condition.OtherCondition? then InteractionGrabsAsWritten(keymap, w, interactions[1..])
    else InteractionGrab(keymap, w, interactions[0].condition)
  }

  /** The loop as written grabs exactly the first interaction that is a
      button or a key, and nothing when there is none. */
  lemma {:induction false} AsWrittenGrabsFirst(keymap: map<uint32, uint8>, w: Window, interactions: seq<Interaction>, i: nat)
    requires i <= |interactions|
    requires forall k :: 0 <= k < i ==> interactions[k].condition.OtherCondition?
    ensures i < |interactions| && !interactions[i].condition.OtherCondition? ==>
              InteractionGrabsAsWritten(keymap, w, interactions) == InteractionGrab(keymap, w, interactions[i].condition)
    ensures i == |interactions| ==> InteractionGrabsAsWritten(keymap, w, interactions) == []
    decreases i
  {
    if i > 0 {
      assert interactions[0].condition.OtherCondition?;
      AsWrittenGrabsFirst(keymap, w, interactions[1..], i - 1);
    }
  }

  /** `RegisterInteractions` as evidently intended: one grab for every button
      or key interaction, in table order. */
  function InteractionGrabs(keymap: map<uint32, uint8>, w: Window, interactions: seq<Interaction>): (cs: seq<XCall>)
    ensures |cs| <= |interactions|
    decreases |interactions|
  {
    if interactions == [] then []
    else
      var n := |interactions| - 1;
      InteractionGrabs(keymap, w, interactions[..n]) + InteractionGrab(keymap, w, interactions[n].condition)
  }

  /** Every button or key interaction is grabbed on the window by the
      corrected loop, and every grab it makes comes from one. */
  lemma {:induction false} InteractionGrabsIff(keymap: map<uint32, uint8>, w: Window, interactions: seq<Interaction>, c: XCall)
    ensures c in InteractionGrabs(keymap, w, interactions) <==>
              exists i :: 0 <= i < |interactions| && c in InteractionGrab(keymap, w, interactions[i].condition)
    decreases |interactions|
  {
    if interactions != [] {
      var n := |interactions| - 1;
      var prefix := interactions[..n];
      var last := InteractionGrab(keymap, w, interactions[n].condition);
      InteractionGrabsIff(keymap, w, prefix, c);
      assert InteractionGrabs(keymap, w, interactions) == InteractionGrabs(keymap, w, prefix) + last;
      assert forall i :: 0 <= i < n ==> prefix[i] == interactions[i];
      if c in InteractionGrabs(keymap, w, interactions) && c !in last {
        var i :| 0 <= i < n && c in InteractionGrab(keymap, w, prefix[i].condition);
        assert c in InteractionGrab(keymap, w, interactions[i].condition);
      }
    }
  }

  /** Two key interactions: the loop as written grabs only the first key,
      the corrected loop grabs both. */
  lemma AsWrittenGrabsOnlyFirst(w: Window, first: uint32, second: uint32)
    requires first != second
    ensures var table := [Interaction(KeyCondition(first, 0)), Interaction(KeyCondition(second, 0))];
            var keymap := map[first := 10, second := 11];
            InteractionGrabsAsWritten(keymap, w, table) == [GrabKey(10, 0, w, false, GRAB_MODE_ASYNC, GRAB_MODE_ASYNC)] &&
            InteractionGrabs(keymap, w, table)
              == [GrabKey(10, 0, w, false, GRAB_MODE_ASYNC, GRAB_MODE_ASYNC), GrabKey(11, 0, w, false, GRAB_MODE_ASYNC, GRAB_MODE_ASYNC)]
  {
    var table := [Interaction(KeyCondition(first, 0)), Interaction(KeyCondition(second, 0))];
    assert table[..1] == [table[0]];
    assert table[..1][..0] == [];
  }

  // ---------------------------------------------------------------- the class

  class WindowManager {
    /** `root_`: the display's default root window. */
    const root: Window
    /** The interaction table every framed window is registered for. */
    const interactions: seq<Interaction>
    /** The keyboard mapping `XKeysymToKeycode` consults. */
    const keymap: map<uint32, uint8>
    /** `clients_`: each framed client window with its frame. */
    var clients: map<Window, Window>
    /** Every Xlib call made so far, in order. */
    var calls: seq<XCall>

    constructor (root: Window, interactions: seq<Interaction>, keymap: map<uint32, uint8>)
      ensures this.root == root && this.interactions == interactions && this.keymap == keymap
      ensures clients == map[] && calls == []
    {
      this.root := root;
      this.interactions := interactions;
      this.keymap := keymap;
      clients := map[];
      calls := [];
    }

    /** Reparent `w` into a new frame. `attrs` is the window's attributes
        reply and `frame` the id `XCreateSimpleWindow` returns. */
    method Frame(w: Window, createdBefore: bool, attrs: XWindowAttributes, frame: Window)
      modifies this
      ensures WillFrame(old(clients), w, createdBefore, attrs) ==>
                clients == old(clients)[w := frame] &&
                calls == old(calls) + FrameCalls(root, w, attrs, frame) + InteractionGrabsAsWritten(keymap, w, interactions)
      ensures !WillFrame(old(clients), w, createdBefore, attrs) ==> clients == old(clients) && calls == old(calls)
    {
      if w in clients {
        return;
      }
      if createdBefore {
        if attrs.overrideRedirect || attrs.mapState != IS_VIEWABLE {
          return;
        }
      }
      calls := calls + [CreateSimpleWindow(root, attrs.x, attrs.y, attrs.width, attrs.height, frame)];
      calls := calls + [SelectInput(frame, SUBSTRUCTURE_REDIRECT_MASK + SUBSTRUCTURE_NOTIFY_MASK)];
      calls := calls + [AddToSaveSet(w)];
      calls := calls + [ReparentWindow(w, frame, 0, 0)];
      calls := calls + [MapWindow(frame)];
      clients := clients[w := frame];
      ghost var framed := calls;
      assert framed == old(calls) + FrameCalls(root, w, attrs, frame);
      RegisterInteractions(w);
    }

    /** Reparent a client back to the root and forget its frame. */
    method UnFrame(w: Window)
      modifies this
      ensures w in old(clients) ==>
                clients == old(clients) - {w} && calls == old(calls) + UnFrameCalls(root, w, old(clients)[w])
      ensures w !in old(clients) ==> clients == old(clients) && calls == old(calls)
    {
      if w !in clients {
        return;
      }
      var frame := clients[w];
      calls := calls + [UnmapWindow(frame)];
      calls := calls + [ReparentWindow(w, root, 0, 0)];
      clients := clients - {w};
    }

    /** Grab the interactions on `w`: the loop leaves after the first button
        or key grab, so later interactions are never grabbed. */
    method RegisterInteractions(w: Window)
      modifies this
      ensures calls == old(calls) + InteractionGrabsAsWritten(keymap, w, interactions)
      ensures clients == old(clients)
    {
      var i := 0;
      while i < |interactions|
        invariant 0 <= i <= |interactions|
        invariant forall k :: 0 <= k < i ==> interactions[k].condition.OtherCondition?
        invariant calls == old(calls) && clients == old(clients)
      {
        match interactions[i].condition {
          case ButtonCondition(button, modifier) =>
            calls := calls + [GrabButton(button, modifier, w, false, BUTTON_PRESS_MASK + BUTTON_RELEASE_MASK + BUTTON_MOTION_MASK,
                                         GRAB_MODE_ASYNC, GRAB_MODE_ASYNC, X_NONE, X_NONE)];
            AsWrittenGrabsFirst(keymap, w, interactions, i);
            return;
          case KeyCondition(keysym, modifier) =>
            calls := calls + [GrabKey(KeysymToKeycode(keymap, keysym), modifier, w, false, GRAB_MODE_ASYNC, GRAB_MODE_ASYNC)];
            AsWrittenGrabsFirst(keymap, w, interactions, i);
            return;
          case OtherCondition =>
        }
        i := i + 1;
      }
      AsWrittenGrabsFirst(keymap, w, interactions, i);
    }

    /** Unframe a client that was unmapped, unless the unmap was reported on
        the root (a window framed at start-up being reparented). */
    method OnUnmapNotify(e: UnmapEvent)
      modifies this
      ensures UnmapUnframes(old(clients), root, e) ==>
                clients == old(clients) - {e.window} && calls == old(calls) + UnFrameCalls(root, e.window, old(clients)[e.window])
      ensures !UnmapUnframes(old(clients), root, e) ==> clients == old(clients) && calls == old(calls)
    {
      if e.window !in clients {
        return;
      }
      if e.event == root {
        return;
      }
      UnFrame(e.window);
    }

    /** Frame a window that asks to be mapped, whatever its attributes, then
        map it. */
    method OnMapRequest(w: Window, attrs: XWindowAttributes, frame: Window)
      modifies this
      ensures w !in old(clients) ==>
                clients == old(clients)[w := frame] &&
                calls == old(calls) + FrameCalls(root, w, attrs, frame) + InteractionGrabsAsWritten(keymap, w, interactions) + [MapWindow(w)]
      ensures w in old(clients) ==> clients == old(clients) && calls == old(calls) + [MapWindow(w)]
    {
      Frame(w, false, attrs, frame);
      calls := calls + [MapWindow(w)];
    }

    /** Pass a configure request on unchanged: to the client's frame when it
        has one, then to the window itself. */
    method OnConfigureRequest(e: ConfigureRequestEvent)
      modifies this
      ensures clients == old(clients)
      ensures calls == old(calls) + ConfigureCalls(old(clients), e)
    {
      var changes := WindowChanges(e.x, e.y, e.width, e.height, e.borderWidth, e.above, e.detail);
      if e.window in clients {
        var frame := clients[e.window];
        calls := calls + [ConfigureWindow(frame, e.valueMask, changes)];
      }
      calls := calls + [ConfigureWindow(e.window, e.valueMask, changes)];
    }
  }

  /** The changes a configure request asks for, field by field. */
  function RequestedChanges(e: ConfigureRequestEvent): (c: WindowChanges)
    ensures c.x == e.x && c.y == e.y && c.width == e.width && c.height == e.height
    ensures c.borderWidth == e.borderWidth && c.sibling == e.above && c.stackMode == e.detail
  {
    WindowChanges(e.x, e.y, e.width, e.height, e.borderWidth, e.above, e.detail)
  }

  /** What `OnConfigureRequest` calls. */
  function ConfigureCalls(clients: map<Window, Window>, e: ConfigureRequestEvent): (cs: seq<XCall>)
  {
    var own := ConfigureWindow(e.window, e.valueMask, RequestedChanges(e));
    if e.window in clients then [ConfigureWindow(clients[e.window], e.valueMask, RequestedChanges(e)), own] else [own]
  }

  /** The window itself is always configured last, with the request's own
      mask and values; a client's frame gets the very same mask and values
      first, and nothing else is configured. */
  lemma ConfigureReachesWindowAndFrame(clients: map<Window, Window>, e: ConfigureRequestEvent)
    ensures var cs := ConfigureCalls(clients, e);
            cs[|cs| - 1] == ConfigureWindow(e.window, e.valueMask, RequestedChanges(e)) &&
            (|cs| == 2 <==> e.window in clients) && 1 <= |cs| <= 2 &&
            (e.window in clients ==> cs[0] == ConfigureWindow(clients[e.window], e.valueMask, RequestedChanges(e))) &&
            (forall c :: c in cs ==> c.ConfigureWindow? && c.valueMask == e.valueMask && c.changes == RequestedChanges(e))
  {
  }
}
