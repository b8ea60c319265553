/** An abstract X server as the window manager sees it through XCB: the
    requests it can be sent, the protocol constants the core uses, and the
    effect of the property and stacking requests as stated by the X11 core
    protocol (ChangeProperty, DeleteProperty, GetProperty, ConfigureWindow).
    Window existence, events and every other server effect are not modelled. */
module XServer {
  import opened Wrappers
  import opened Types

  // Predefined atoms of the core protocol.
  const ATOM_ATOM: AtomId := 4
  const ATOM_WINDOW: AtomId := 33
  // `XCB_GET_PROPERTY_TYPE_ANY`
  const ANY_PROPERTY_TYPE: AtomId := 0

  // `XCB_CONFIG_WINDOW_*`: the value-mask bits of ConfigureWindow, in protocol order.
  const CONFIG_WINDOW_X: bv16 := 0x01
  const CONFIG_WINDOW_Y: bv16 := 0x02
  const CONFIG_WINDOW_WIDTH: bv16 := 0x04
  const CONFIG_WINDOW_HEIGHT: bv16 := 0x08
  const CONFIG_WINDOW_BORDER_WIDTH: bv16 := 0x10
  const CONFIG_WINDOW_SIBLING: bv16 := 0x20
  const CONFIG_WINDOW_STACK_MODE: bv16 := 0x40

  // `XCB_STACK_MODE_*`
  const STACK_MODE_ABOVE: uint32 := 0
  const STACK_MODE_BELOW: uint32 := 1

  // `XCB_CW_*`: value-mask bits of ChangeWindowAttributes.
  const CW_BORDER_PIXEL: uint32 := 0x08
  const CW_EVENT_MASK: uint32 := 0x800

  // `XCB_EVENT_MASK_*`
  const EVENT_MASK_ENTER_WINDOW: uint32 := 0x10
  const EVENT_MASK_LEAVE_WINDOW: uint32 := 0x20
  const EVENT_MASK_STRUCTURE_NOTIFY: uint32 := 0x2_0000
  const EVENT_MASK_SUBSTRUCTURE_NOTIFY: uint32 := 0x8_0000
  const EVENT_MASK_SUBSTRUCTURE_REDIRECT: uint32 := 0x10_0000
  const EVENT_MASK_FOCUS_CHANGE: uint32 := 0x20_0000

  // `XCB_INPUT_FOCUS_PARENT`, `XCB_CURRENT_TIME`
  const INPUT_FOCUS_PARENT: uint8 := 2
  const CURRENT_TIME: uint32 := 0

  // `XCB_MAP_STATE_VIEWABLE`
  const MAP_STATE_VIEWABLE: uint8 := 2

  // `XCB_GRAB_MODE_ASYNC`, `XCB_GRAB_ANY`, `XCB_MOD_MASK_ANY`
  const GRAB_MODE_ASYNC: uint8 := 1
  const GRAB_ANY: uint8 := 0
  const MOD_MASK_ANY: uint16 := 0x8000

  // `XCB_WINDOW_CLASS_INPUT_ONLY`, `XCB_COPY_FROM_PARENT`
  const WINDOW_CLASS_INPUT_ONLY: uint16 := 2
  const COPY_FROM_PARENT: uint32 := 0

  /** `XCB_PROP_MODE_REPLACE`, `_PREPEND`, `_APPEND`. */
  datatype PropMode = Replace | Prepend | Append

  /** A stored property: its type atom, its format (8, 16 or 32 bits per
      item) and its items. */
  datatype Property = Property(propType: AtomId, format: nat, data: seq<nat>)

  /** The reply part of `xcb_get_window_attributes_reply_t` the core reads. */
  datatype WindowAttributes = WindowAttributes(mapState: uint8, overrideRedirect: bool)

  datatype Request =
    | ChangeProperty(mode: PropMode, window: Window, property: AtomId, propType: AtomId, format: nat, data: seq<nat>)
    | DeleteProperty(window: Window, property: AtomId)
    | CreateWindow(depth: uint8, wid: Window, parent: Window, x: int16, y: int16, width: uint16, height: uint16,
                   borderWidth: uint16, windowClass: uint16, visual: uint32, createMask: uint32)
    | ConfigureWindow(window: Window, configMask: bv16, values: seq<uint32>)
    | ChangeWindowAttributes(window: Window, attributeMask: uint32, values: seq<uint32>)
    | SetInputFocus(revertTo: uint8, focus: Window, time: uint32)
    | GrabKey(ownerEvents: bool, grabWindow: Window, modifiers: uint16, key: uint8, pointerMode: uint8, keyboardMode: uint8)
    | UngrabKey(key: uint8, grabWindow: Window, modifiers: uint16)

  /** The properties of all windows, keyed by (window, property atom). */
  type PropertyStore = map<(Window, AtomId), Property>

  predicate ValidFormat(format: nat) { format == 8 || format == 16 || format == 32 }

  /** An atom argument the server accepts; `None` is rejected with an Atom error. */
  predicate ValidAtom(a: AtomId) { a != NONE }

  /** The effect of one request on the property store. A request that the
      server answers with an error (Atom, Value or Match) changes nothing. */
  function ApplyRequest(props: PropertyStore, r: Request): (r': PropertyStore)
    ensures r.ChangeProperty? && ValidAtom(r.property) && ValidAtom(r.propType) && ValidFormat(r.format) && r.mode == Replace
            ==> r' == props[(r.window, r.property) := Property(r.propType, r.format, r.data)]
    ensures !r.ChangeProperty? && !r.DeleteProperty? ==> r' == props
  {
    match r
    case ChangeProperty(mode, w, p, t, f, d) =>
      if !ValidAtom(p) || !ValidAtom(t) || !ValidFormat(f) then props
      else if mode == Replace then props[(w, p) := Property(t, f, d)]
      else if (w, p) !in props then props[(w, p) := Property(t, f, d)]
      else
        var prev := props[(w, p)];
        if prev.propType != t || prev.format != f then props
        else if mode == Append then props[(w, p) := Property(t, f, prev.data + d)]
        else props[(w, p) := Property(t, f, d + prev.data)]
    case DeleteProperty(w, p) =>
      if !ValidAtom(p) then props else props - {(w, p)}
    case _ => props
  }

  /** The effect of a batch of requests, applied in the order they are sent. */
  function ApplyAll(props: PropertyStore, rs: seq<Request>): PropertyStore
    decreases |rs|
  {
    if rs == [] then props else ApplyAll(ApplyRequest(props, rs[0]), rs[1..])
  }

  lemma {:induction false} ApplyAllConcat(props: PropertyStore, a: seq<Request>, b: seq<Request>)
    ensures ApplyAll(props, a + b) == ApplyAll(ApplyAll(props, a), b)
    decreases |a|
  {
    if a == [] {
      assert a + b == b;
    } else {
      assert (a + b)[1..] == a[1..] + b;
      ApplyAllConcat(ApplyRequest(props, a[0]), a[1..], b);
    }
  }

  lemma {:induction false} ApplyAllSnoc(props: PropertyStore, rs: seq<Request>, r: Request)
    ensures ApplyAll(props, rs + [r]) == ApplyRequest(ApplyAll(props, rs), r)
  {
    ApplyAllConcat(props, rs, [r]);
    assert [r][1..] == [];
  }

  /** Whether a request writes (changes or deletes) the property `key`. */
  predicate Writes(r: Request, key: (Window, AtomId)) {
    (r.ChangeProperty? || r.DeleteProperty?) && (r.window, r.property) == key
  }

  /** Two stores agree on the property `key`. */
  predicate SameAt(a: PropertyStore, b: PropertyStore, key: (Window, AtomId)) {
    (key in a <==> key in b) && (key in a ==> a[key] == b[key])
  }

  /** A batch none of whose requests writes `key` leaves it as it was. */
  lemma {:induction false} ApplyAllUntouched(props: PropertyStore, rs: seq<Request>, key: (Window, AtomId))
    requires forall i :: 0 <= i < |rs| ==> !Writes(rs[i], key)
    ensures SameAt(ApplyAll(props, rs), props, key)
    decreases |rs|
  {
    if rs != [] {
      assert !Writes(rs[0], key);
      ApplyAllUntouched(ApplyRequest(props, rs[0]), rs[1..], key);
    }
  }

  /** Property requests touch only the properties of their own window. */
  lemma {:induction false} ApplyAllFrames(props: PropertyStore, rs: seq<Request>, key: (Window, AtomId))
    requires forall i :: 0 <= i < |rs| ==> !((rs[i].ChangeProperty? || rs[i].DeleteProperty?) && rs[i].window == key.0)
    ensures SameAt(ApplyAll(props, rs), props, key)
  {
    ApplyAllUntouched(props, rs, key);
  }

  /** The value of a property after a batch is what the last request that
      writes it left. */
  lemma {:induction false} LastWrite(props: PropertyStore, rs: seq<Request>, i: nat, key: (Window, AtomId))
    requires i < |rs| && Writes(rs[i], key)
    requires forall j :: i < j < |rs| ==> !Writes(rs[j], key)
    ensures SameAt(ApplyAll(props, rs), ApplyRequest(ApplyAll(props, rs[..i]), rs[i]), key)
  {
    assert rs == rs[..i] + ([rs[i]] + rs[i + 1..]);
    ApplyAllConcat(props, rs[..i], [rs[i]] + rs[i + 1..]);
    var mid := ApplyRequest(ApplyAll(props, rs[..i]), rs[i]);
    assert ([rs[i]] + rs[i + 1..])[1..] == rs[i + 1..];
    var suffix := rs[i + 1..];
    forall j | 0 <= j < |suffix|
      ensures !Writes(suffix[j], key)
    {
      assert suffix[j] == rs[i + 1 + j];
    }
    ApplyAllUntouched(mid, suffix, key);
  }

  /** The reply to GetProperty(delete = false, window, property, type =
      AnyPropertyType, long-offset = 0, long-length): at most `4 * longLength`
      bytes of the value, and how many bytes are left after them. An absent
      property answers with type None, format 0 and no data. */
  datatype PropertyReply = PropertyReply(format: nat, propType: AtomId, bytesAfter: nat, value: seq<nat>)

  function ReadProperty(props: PropertyStore, window: Window, property: AtomId, longLength: nat): (r: Option<PropertyReply>)
    requires forall k :: k in props ==> ValidFormat(props[k].format)
    ensures r.None? <==> !ValidAtom(property)
    ensures r.Some? ==> |r.value.value| * (if r.value.format == 0 then 1 else r.value.format / 8) <= 4 * longLength
    ensures r.Some? && (window, property) in props ==>
              |r.value.value| <= |props[(window, property)].data| &&
              r.value.value == props[(window, property)].data[..|r.value.value|]
  {
    if !ValidAtom(property) then None
    else if (window, property) !in props then Some(PropertyReply(0, NONE, 0, []))
    else
      var p := props[(window, property)];
      assert ValidFormat(p.format);
      var unit := p.format / 8;
      var n := if |p.data| * unit <= 4 * longLength then |p.data| else (4 * longLength) / unit;
      TruncationFits(|p.data|, unit, 4 * longLength);
      Some(PropertyReply(p.format, p.propType, (|p.data| - n) * unit, p.data[..n]))
  }

  /** Truncating `count` items of `unit` bytes each to at most `limit` bytes
      keeps a prefix of the items that fits. */
  lemma TruncationFits(count: nat, unit: nat, limit: nat)
    requires unit > 0
    ensures count * unit > limit ==> limit / unit <= count && (limit / unit) * unit <= limit
  {
    if count * unit > limit {
      assert (limit / unit) * unit <= limit;
      ProductCancels(limit / unit, count, unit);
    }
  }

  /** Multiplying by the same factor keeps a strict order only when it is
      already there. */
  lemma ProductCancels(a: nat, b: nat, c: nat)
    requires a * c < b * c
    ensures a < b
  {
  }

  /** The effect of a ConfigureWindow that carries only a stack mode and no
      sibling: Above puts the window at the top of the stacking order, Below
      at the bottom. `stack` lists windows bottom to top. */
  function Restack(stack: seq<Window>, w: Window, mode: uint32): (r: seq<Window>)
    ensures w in stack && mode == STACK_MODE_ABOVE ==> |r| > 0 && r[|r| - 1] == w
    ensures w in stack && mode == STACK_MODE_BELOW ==> |r| > 0 && r[0] == w
    ensures forall x :: x in r <==> x in stack
  {
    if w !in stack then stack
    else
      var others := Without(stack, w);
      if mode == STACK_MODE_ABOVE then others + [w]
      else if mode == STACK_MODE_BELOW then [w] + others
      else stack
  }

  function Without(s: seq<Window>, w: Window): (r: seq<Window>)
    ensures forall x :: x in r <==> x in s && x != w
  {
    if s == [] then [] else (if s[0] == w then [] else [s[0]]) + Without(s[1..], w)
  }

  /** The stacking effect of the sibling-less stack-mode requests in a batch. */
  function ApplyStacking(stack: seq<Window>, rs: seq<Request>): seq<Window>
    decreases |rs|
  {
    if rs == [] then stack
    else
      var r := rs[0];
      var next := if r.ConfigureWindow? && r.configMask == CONFIG_WINDOW_STACK_MODE && |r.values| == 1
                  then Restack(stack, r.window, r.values[0]) else stack;
      ApplyStacking(next, rs[1..])
  }

  /** The input focus after a batch: the window of its last SetInputFocus,
      `focus` when it has none. */
  function InputFocus(focus: Window, rs: seq<Request>): Window
    decreases |rs|
  {
    if rs == [] then focus
    else InputFocus(if rs[0].SetInputFocus? then rs[0].focus else focus, rs[1..])
  }

  /** Appending to a log in two steps is appending once. */
  lemma AppendAssoc<T>(a: seq<T>, b: seq<T>, c: seq<T>)
    ensures a + b + c == a + (b + c)
  {
  }

  /** The server end of the connection: the property store and every request
      sent so far, in order. */
  class Server {
    var props: PropertyStore
    var log: seq<Request>

    constructor ()
      ensures props == map[] && log == []
    {
      props := map[];
      log := [];
    }

    /** Send one request without waiting for its outcome. */
    method Send(r: Request)
      modifies this
      ensures log == old(log) + [r]
      ensures props == ApplyRequest(old(props), r)
    {
      log := log + [r];
      props := ApplyRequest(props, r);
    }

    method SendAll(rs: seq<Request>)
      modifies this
      ensures log == old(log) + rs
      ensures props == ApplyAll(old(props), rs)
    {
      var i := 0;
      while i < |rs|
        invariant 0 <= i <= |rs|
        invariant log == old(log) + rs[..i]
        invariant ApplyAll(old(props), rs) == ApplyAll(props, rs[i..])
      {
        assert rs[..i + 1] == rs[..i] + [rs[i]];
        assert rs[i..][1..] == rs[i + 1..];
        Send(rs[i]);
        i := i + 1;
      }
    }
  }

}
