/** Event decoding and the handler decisions of src/event.h and
    src/event.cpp. A handler's effect is the list of requests it sends; the
    replies it waits for (window attributes, the focused window) are inputs. */
module Events {
  import opened Wrappers
  import opened Types
  import opened XServer

  // `XCB_*` event codes the dispatcher recognises.
  const KEY_PRESS: int := 2
  const MOTION_NOTIFY: int := 6
  const ENTER_NOTIFY: int := 7
  const LEAVE_NOTIFY: int := 8
  const FOCUS_IN: int := 9
  const FOCUS_OUT: int := 10
  const CREATE_NOTIFY: int := 16
  const DESTROY_NOTIFY: int := 17
  const UNMAP_NOTIFY: int := 18
  const MAP_REQUEST: int := 20
  const CONFIGURE_REQUEST: int := 23
  const PROPERTY_NOTIFY: int := 28
  const CLIENT_MESSAGE: int := 33

  // `XCB_NOTIFY_MODE_*` and `XCB_NOTIFY_DETAIL_*`
  const NOTIFY_MODE_NORMAL: uint8 := 0
  const NOTIFY_MODE_GRAB: uint8 := 1
  const NOTIFY_MODE_UNGRAB: uint8 := 2
  const NOTIFY_MODE_WHILE_GRABBED: uint8 := 3
  const NOTIFY_DETAIL_POINTER: uint8 := 5
  const NOTIFY_DETAIL_POINTER_ROOT: uint8 := 6
  const NOTIFY_DETAIL_NONE: uint8 := 7

  // src/config.h
  const BORDER_WIDTH: uint32 := 3
  const BORDER_COLOR_ACTIVE: uint32 := 0xff66_6666
  const BORDER_COLOR_INACTIVE: uint32 := 0xffff_ffff

  /** The member functions the dispatcher can call. */
  datatype Handler =
    | OnError | OnConfigureRequest | OnMotionNotify | OnKeyPress | OnEnterNotify | OnLeaveNotify
    | OnFocusIn | OnFocusOut | OnCreateNotify | OnDestroyNotify | OnMapRequest | OnUnmapNotify
    | OnPropertyNotify | OnClientMessage

  /** The event code each handler is registered for; 0 is an error. */
  function HandlerCode(h: Handler): int {
    match h
    case OnError => 0
    case OnConfigureRequest => CONFIGURE_REQUEST
    case OnMotionNotify => MOTION_NOTIFY
    case OnKeyPress => KEY_PRESS
    case OnEnterNotify => ENTER_NOTIFY
    case OnLeaveNotify => LEAVE_NOTIFY
    case OnFocusIn => FOCUS_IN
    case OnFocusOut => FOCUS_OUT
    case OnCreateNotify => CREATE_NOTIFY
    case OnDestroyNotify => DESTROY_NOTIFY
    case OnMapRequest => MAP_REQUEST
    case OnUnmapNotify => UNMAP_NOTIFY
    case OnPropertyNotify => PROPERTY_NOTIFY
    case OnClientMessage => CLIENT_MESSAGE
  }

  /** `EventHandler::DispatchEvent`: the one handler the switch selects, or
      none for an unrecognised type. */
  function DispatchEvent(eventType: int): (r: Option<Handler>)
    ensures r.Some? ==> HandlerCode(r.value) == eventType
    ensures r.None? ==> forall h: Handler :: HandlerCode(h) != eventType
  {
    match eventType
    case 0 => Some(OnError)
    case 23 => Some(OnConfigureRequest)
    case 6 => Some(OnMotionNotify)
    case 2 => Some(OnKeyPress)
    case 7 => Some(OnEnterNotify)
    case 8 => Some(OnLeaveNotify)
    case 9 => Some(OnFocusIn)
    case 10 => Some(OnFocusOut)
    case 16 => Some(OnCreateNotify)
    case 17 => Some(OnDestroyNotify)
    case 20 => Some(OnMapRequest)
    case 18 => Some(OnUnmapNotify)
    case 28 => Some(OnPropertyNotify)
    case 33 => Some(OnClientMessage)
    case _ => None
  }

  /** Every handler is reached from its own code and from no other: the
      switch and `HandlerCode` are inverse. */
  lemma DispatchRoundTrip(h: Handler)
    ensures DispatchEvent(HandlerCode(h)) == Some(h)
  {
  }

  /** Type 0 goes to the error handler only. */
  lemma ErrorOnlyFromZero(eventType: int)
    ensures DispatchEvent(eventType) == Some(OnError) <==> eventType == 0
  {
  }

  /** `static_cast<uint32_t>` of a signed value: reduction modulo 2^32. */
  function Wrap32(v: int): (r: uint32)
    ensures 0 <= v < 0x1_0000_0000 ==> r == v
    ensures -0x1_0000_0000 <= v < 0 ==> r == v + 0x1_0000_0000
    ensures (r - v) % 0x1_0000_0000 == 0
  {
    v % 0x1_0000_0000
  }

  /** `xcb_configure_request_event_t`, the fields the handler reads. */
  datatype ConfigureRequestEvent = ConfigureRequestEvent(
    window: Window, sibling: Window, x: int16, y: int16, width: uint16, height: uint16,
    borderWidth: uint16, valueMask: bv16, stackMode: uint8)

  /** The value-mask bits of ConfigureWindow in protocol order: X, Y, WIDTH,
      HEIGHT, BORDER_WIDTH, SIBLING, STACK_MODE. */
  function FieldBit(j: nat): bv16
    requires j < 7
  {
    (1 as bv16) << (j as bv5)
  }

  /** The field bits are the protocol's CONFIG_WINDOW bits, in order. */
  lemma FieldBitsAreProtocolBits(j: nat)
    requires j < 7
    ensures j == 0 ==> FieldBit(j) == CONFIG_WINDOW_X
    ensures j == 1 ==> FieldBit(j) == CONFIG_WINDOW_Y
    ensures j == 2 ==> FieldBit(j) == CONFIG_WINDOW_WIDTH
    ensures j == 3 ==> FieldBit(j) == CONFIG_WINDOW_HEIGHT
    ensures j == 4 ==> FieldBit(j) == CONFIG_WINDOW_BORDER_WIDTH
    ensures j == 5 ==> FieldBit(j) == CONFIG_WINDOW_SIBLING
    ensures j == 6 ==> FieldBit(j) == CONFIG_WINDOW_STACK_MODE
  {
  }

  predicate HasField(mask: bv16, j: nat)
    requires j < 7
  {
    mask & FieldBit(j) != 0
  }

  /** The seven candidate values in protocol order, converted to CARD32. */
  function FieldValues(e: ConfigureRequestEvent): (v: seq<uint32>)
    ensures |v| == 7
  {
    [Wrap32(e.x), Wrap32(e.y), e.width, e.height, e.borderWidth, e.sibling, e.stackMode]
  }

  /** The value list ConfigureWindow expects for `mask`: the values of the
      fields `j..6` whose bit is set, in protocol order. */
  function PackFrom(mask: bv16, fields: seq<uint32>, j: nat): (r: seq<uint32>)
    requires |fields| == 7 && j <= 7
    ensures |r| <= 7 - j
    decreases |fields| - j
  {
    if j == 7 then []
    else (if HasField(mask, j) then [fields[j]] else []) + PackFrom(mask, fields, j + 1)
  }

  /** How a server reads a value list back: one value per set bit, in
      protocol order; `None` for a field the mask leaves out. */
  function UnpackFrom(mask: bv16, values: seq<uint32>, j: nat): (r: seq<Option<uint32>>)
    requires j <= 7
    ensures |r| == 7 - j
    decreases 7 - j
  {
    if j == 7 then []
    else if HasField(mask, j) && values != [] then [Some(values[0])] + UnpackFrom(mask, values[1..], j + 1)
    else if HasField(mask, j) then [None] + UnpackFrom(mask, values, j + 1)
    else [None] + UnpackFrom(mask, values, j + 1)
  }

  /** The fields the mask selects. */
  function Selected(mask: bv16, fields: seq<uint32>): (r: seq<Option<uint32>>)
    requires |fields| == 7
    ensures |r| == 7
  {
    seq(7, j requires 0 <= j < 7 => if HasField(mask, j) then Some(fields[j]) else None)
  }

  /** Reading the packed list back with the same mask recovers exactly the
      selected fields, each at its own position. */
  lemma {:induction false} PackUnpackFrom(mask: bv16, fields: seq<uint32>, j: nat)
    requires |fields| == 7 && j <= 7
    ensures UnpackFrom(mask, PackFrom(mask, fields, j), j) == Selected(mask, fields)[j..]
    decreases |fields| - j
  {
    if j < 7 {
      PackUnpackFrom(mask, fields, j + 1);
      var packed := PackFrom(mask, fields, j);
      var rest := PackFrom(mask, fields, j + 1);
      assert Selected(mask, fields)[j..] == [Selected(mask, fields)[j]] + Selected(mask, fields)[j + 1..];
      if HasField(mask, j) {
        assert packed == [fields[j]] + rest;
        assert packed[1..] == rest;
        assert UnpackFrom(mask, packed, j) == [Some(fields[j])] + UnpackFrom(mask, rest, j + 1);
      } else {
        assert packed == rest;
        assert UnpackFrom(mask, packed, j) == [None] + UnpackFrom(mask, rest, j + 1);
      }
    }
  }

  lemma PackUnpackRoundTrip(mask: bv16, fields: seq<uint32>)
    requires |fields| == 7
    ensures UnpackFrom(mask, PackFrom(mask, fields, 0), 0) == Selected(mask, fields)
  {
    PackUnpackFrom(mask, fields, 0);
  }

  /** The packer's state after the fields `0..j-1`: `i` slots filled with
      what those fields contribute, the rest still zero. */
  ghost predicate PackedUpTo(a: array<uint32>, i: nat, mask: bv16, fields: seq<uint32>, j: nat, packed: seq<uint32>)
    reads a
    requires |fields| == 7 && j <= 7
  {
    a.Length == 7 && i <= 7 && |packed| <= 7 &&
    a[..i] + PackFrom(mask, fields, j) == packed &&
    forall k :: i <= k < 7 ==> a[k] == 0
  }

  /** One `if (mask & bit) values[i++] = value;` step of the packer. */
  method PackField(a: array<uint32>, i: nat, mask: bv16, fields: seq<uint32>, j: nat, ghost packed: seq<uint32>)
    returns (next: nat)
    requires |fields| == 7 && j < 7
    requires PackedUpTo(a, i, mask, fields, j, packed)
    modifies a
    ensures PackedUpTo(a, next, mask, fields, j + 1, packed)
    ensures next == i + (if HasField(mask, j) then 1 else 0)
  {
    assert PackFrom(mask, fields, j) == (if HasField(mask, j) then [fields[j]] else []) + PackFrom(mask, fields, j + 1);
    next := i;
    if HasField(mask, j) {
      ghost var before := a[..i];
      a[i] := fields[j];
      assert a[..i] == before;
      assert a[..i + 1] == before + [fields[j]];
      next := i + 1;
    }
  }

  /** The packer of `OnConfigureRequestEventHandler` (event.cpp:31-47): fill
      a zeroed 7-slot array with the selected fields, in protocol order.
      Returns the array's contents and the final running index. */
  method PackConfigureValues(e: ConfigureRequestEvent) returns (values: seq<uint32>, count: nat)
    ensures |values| == 7 && count <= 7
    ensures count == |PackFrom(e.valueMask, FieldValues(e), 0)|
    ensures values[..count] == PackFrom(e.valueMask, FieldValues(e), 0)
    ensures forall k :: count <= k < 7 ==> values[k] == 0
  {
    var fields := FieldValues(e);
    var mask := e.valueMask;
    var a := new uint32[7](_ => 0);
    ghost var packed := PackFrom(mask, fields, 0);
    assert a[..0] == [];
    var i := PackGeometry(a, mask, fields, packed);
    i := PackStacking(a, i, mask, fields, packed);
    values, count := FinishPack(a, i, mask, fields, packed);
  }

  /** The packer's first four steps: x, y, width and height. */
  method PackGeometry(a: array<uint32>, mask: bv16, fields: seq<uint32>, ghost packed: seq<uint32>) returns (i: nat)
    requires |fields| == 7
    requires PackedUpTo(a, 0, mask, fields, 0, packed)
    modifies a
    ensures PackedUpTo(a, i, mask, fields, 4, packed)
  {
    i := PackField(a, 0, mask, fields, 0, packed);  // x
    i := PackField(a, i, mask, fields, 1, packed);  // y
    i := PackField(a, i, mask, fields, 2, packed);  // width
    i := PackField(a, i, mask, fields, 3, packed);  // height
  }

  /** The packer's last three steps: border width, sibling and stack mode. */
  method PackStacking(a: array<uint32>, i0: nat, mask: bv16, fields: seq<uint32>, ghost packed: seq<uint32>) returns (i: nat)
    requires |fields| == 7
    requires PackedUpTo(a, i0, mask, fields, 4, packed)
    modifies a
    ensures PackedUpTo(a, i, mask, fields, 7, packed)
  {
    i := PackField(a, i0, mask, fields, 4, packed);  // border_width
    i := PackField(a, i, mask, fields, 5, packed);  // sibling
    i := PackField(a, i, mask, fields, 6, packed);  // stack_mode
  }

  /** The packer's result once every field has been considered: the filled
      prefix and the zeroed rest of the array. */
  method FinishPack(a: array<uint32>, i: nat, mask: bv16, fields: seq<uint32>, ghost packed: seq<uint32>)
    returns (values: seq<uint32>, count: nat)
    requires |fields| == 7
    requires PackedUpTo(a, i, mask, fields, 7, packed)
    ensures |values| == 7 && count == i && values[..count] == packed
    ensures forall k :: count <= k < 7 ==> values[k] == 0
  {
    assert a[..i] == packed;
    values := a[..];
    count := i;
    assert values[..count] == a[..i];
  }

  /** The request `OnConfigureRequestEventHandler` sends: the client's own
      mask, forwarded unchanged, with the packed values. */
  function ConfigureRequestRequests(e: ConfigureRequestEvent): (rs: seq<Request>)
    ensures |rs| == 1 && rs[0].ConfigureWindow? && rs[0].window == e.window && rs[0].configMask == e.valueMask
    ensures UnpackFrom(e.valueMask, rs[0].values, 0) == Selected(e.valueMask, FieldValues(e))
  {
    PackUnpackRoundTrip(e.valueMask, FieldValues(e));
    [ConfigureWindow(e.window, e.valueMask, PackFrom(e.valueMask, FieldValues(e), 0))]
  }

  /** `xcb_focus_in_event_t` / `xcb_focus_out_event_t`. */
  datatype FocusEvent = FocusEvent(detail: uint8, event: Window, mode: uint8)

  predicate GrabTransition(mode: uint8) {
    mode == NOTIFY_MODE_GRAB || mode == NOTIFY_MODE_UNGRAB
  }

  predicate PointerDetail(detail: uint8) {
    detail == NOTIFY_DETAIL_POINTER || detail == NOTIFY_DETAIL_POINTER_ROOT || detail == NOTIFY_DETAIL_NONE
  }

  function BorderColour(window: Window, colour: uint32): Request {
    ChangeWindowAttributes(window, CW_BORDER_PIXEL, [colour])
  }

  /** `OnFocusInEventHandler`: paint the border active unless the focus
      moved because of a grab or concerns the pointer. */
  function FocusInRequests(e: FocusEvent): (rs: seq<Request>)
    ensures rs != [] <==> !GrabTransition(e.mode) && !PointerDetail(e.detail)
    ensures rs != [] ==> rs == [BorderColour(e.event, BORDER_COLOR_ACTIVE)]
  {
    if GrabTransition(e.mode) || PointerDetail(e.detail) then []
    else [BorderColour(e.event, BORDER_COLOR_ACTIVE)]
  }

  /** `OnFocusOutEventHandler`: paint the border inactive unless the focus
      moved because of a grab; the detail is not looked at. */
  function FocusOutRequests(e: FocusEvent): (rs: seq<Request>)
    ensures rs != [] <==> !GrabTransition(e.mode)
    ensures rs != [] ==> rs == [BorderColour(e.event, BORDER_COLOR_INACTIVE)]
  {
    if GrabTransition(e.mode) then []
    else [BorderColour(e.event, BORDER_COLOR_INACTIVE)]
  }

  /** FocusOut filters less than FocusIn: whenever the same event would make
      FocusIn recolour, FocusOut recolours too; the converse fails for the
      pointer details. */
  lemma FocusInFilterIsStricter(e: FocusEvent)
    ensures FocusInRequests(e) != [] ==> FocusOutRequests(e) != []
    ensures !GrabTransition(e.mode) && PointerDetail(e.detail) ==> FocusInRequests(e) == [] && FocusOutRequests(e) != []
  {
  }

  /** FocusOut depends on the mode only. */
  lemma FocusOutIgnoresDetail(e: FocusEvent, detail: uint8)
    ensures FocusOutRequests(e.(detail := detail)) == FocusOutRequests(e)
  {
  }

  /** The two handlers paint different colours. */
  lemma FocusColoursDiffer(e: FocusEvent)
    requires FocusInRequests(e) != []
    ensures FocusInRequests(e) != FocusOutRequests(e)
  {
  }

  /** The event mask set on a newly created window:
      ENTER_WINDOW | LEAVE_WINDOW | FOCUS_CHANGE | STRUCTURE_NOTIFY. The four
      bits are distinct, so their union is their sum. */
  const CLIENT_EVENT_MASK: uint32 :=
    EVENT_MASK_ENTER_WINDOW + EVENT_MASK_LEAVE_WINDOW + EVENT_MASK_FOCUS_CHANGE + EVENT_MASK_STRUCTURE_NOTIFY

  /** `OnCreateNotifyEventHandler`. `attrs` is the GetWindowAttributes reply,
      which the source dereferences without a check. */
  function CreateNotifyRequests(window: Window, attrs: Option<WindowAttributes>): (rs: seq<Request>)
    requires attrs.Some?
    ensures attrs.value.overrideRedirect <==> rs == []
    ensures !attrs.value.overrideRedirect ==>
              rs == [ChangeWindowAttributes(window, CW_EVENT_MASK, [CLIENT_EVENT_MASK]),
                     ConfigureWindow(window, CONFIG_WINDOW_BORDER_WIDTH, [BORDER_WIDTH])]
  {
    if attrs.value.overrideRedirect then []
    else [ChangeWindowAttributes(window, CW_EVENT_MASK, [CLIENT_EVENT_MASK]),
          ConfigureWindow(window, CONFIG_WINDOW_BORDER_WIDTH, [BORDER_WIDTH])]
  }

  function StackRequest(window: Window, mode: uint32): Request {
    ConfigureWindow(window, CONFIG_WINDOW_STACK_MODE, [mode])
  }

  predicate Viewable(attrs: Option<WindowAttributes>) {
    attrs.Some? && attrs.value.mapState == MAP_STATE_VIEWABLE
  }

  /** `OnMapRequestEventHandler`. `attrs` is the GetWindowAttributes reply
      and `focused` what `Connection::FocusedWindow` returned. */
  function MapRequestRequests(window: Window, attrs: Option<WindowAttributes>, focused: Option<Window>): seq<Request> {
    if Viewable(attrs) then
      (if focused.Some? then [StackRequest(focused.value, STACK_MODE_BELOW)] else []) +
      [StackRequest(window, STACK_MODE_ABOVE), SetInputFocus(INPUT_FOCUS_PARENT, window, CURRENT_TIME)]
    else [StackRequest(window, STACK_MODE_BELOW)]
  }

  /** A viewable window ends on top of the stack and takes the input focus;
      the previously focused window, if another, ends at the bottom. Any
      other window only goes to the bottom. */
  lemma {:induction false} MapRequestStacking(stack: seq<Window>, window: Window, attrs: Option<WindowAttributes>, focused: Option<Window>)
    requires window in stack
    requires focused.Some? ==> focused.value in stack
    ensures var rs := MapRequestRequests(window, attrs, focused);
            var after := ApplyStacking(stack, rs);
            |after| > 0 && (forall x :: x in after <==> x in stack) &&
            (Viewable(attrs) ==> after[|after| - 1] == window && rs[|rs| - 1] == SetInputFocus(INPUT_FOCUS_PARENT, window, CURRENT_TIME)) &&
            (Viewable(attrs) && focused.Some? && focused.value != window ==> after[0] == focused.value) &&
            (!Viewable(attrs) ==> after[0] == window && |rs| == 1)
  {
    var rs := MapRequestRequests(window, attrs, focused);
    var raise := StackRequest(window, STACK_MODE_ABOVE);
    var focus := SetInputFocus(INPUT_FOCUS_PARENT, window, CURRENT_TIME);
    if Viewable(attrs) {
      var s1 := if focused.Some? then Restack(stack, focused.value, STACK_MODE_BELOW) else stack;
      assert forall x :: x in s1 <==> x in stack;
      var s2 := Restack(s1, window, STACK_MODE_ABOVE);
      assert ApplyStacking(s2, [focus]) == s2 by {
        assert [focus][1..] == [];
      }
      assert ApplyStacking(s1, [raise, focus]) == s2 by {
        assert [raise, focus][1..] == [focus];
      }
      if focused.Some? {
        var lower := StackRequest(focused.value, STACK_MODE_BELOW);
        assert rs == [lower, raise, focus];
        assert ApplyStacking(stack, rs) == ApplyStacking(s1, [raise, focus]) by {
          assert rs[1..] == [raise, focus];
        }
        if focused.value != window {
          RaiseKeepsBottom(s1, window, focused.value);
        }
      } else {
        assert rs == [raise, focus];
      }
      assert ApplyStacking(stack, rs) == s2;
    } else {
      assert rs == [StackRequest(window, STACK_MODE_BELOW)];
      assert rs[1..] == [];
    }
  }

  /** Raising one window keeps a different bottom window at the bottom. */
  lemma RaiseKeepsBottom(stack: seq<Window>, w: Window, bottom: Window)
    requires |stack| > 0 && stack[0] == bottom && bottom != w && w in stack
    ensures Restack(stack, w, STACK_MODE_ABOVE)[0] == bottom
  {
    assert stack[0] != w;
    assert Without(stack, w) == [stack[0]] + Without(stack[1..], w);
  }

  /** `OnEnterNotifyEventHandler`: focus the window the pointer entered. */
  function EnterNotifyRequests(event: Window): seq<Request> {
    [SetInputFocus(INPUT_FOCUS_PARENT, event, CURRENT_TIME)]
  }

  /** Whatever had the focus, the entered window has it afterwards; the
      stacking order and the properties are left alone. */
  lemma EnterNotifyFocusesEntered(focus: Window, stack: seq<Window>, props: PropertyStore, event: Window)
    ensures InputFocus(focus, EnterNotifyRequests(event)) == event
    ensures ApplyStacking(stack, EnterNotifyRequests(event)) == stack
    ensures ApplyAll(props, EnterNotifyRequests(event)) == props
  {
    var rs := EnterNotifyRequests(event);
    assert rs[1..] == [];
  }

  /** A viewable window that asks to be mapped ends up with the focus; any
      other request leaves the focus where it was. */
  lemma MapRequestFocus(focus: Window, window: Window, attrs: Option<WindowAttributes>, focused: Option<Window>)
    ensures Viewable(attrs) ==> InputFocus(focus, MapRequestRequests(window, attrs, focused)) == window
    ensures !Viewable(attrs) ==> InputFocus(focus, MapRequestRequests(window, attrs, focused)) == focus
  {
    var rs := MapRequestRequests(window, attrs, focused);
    var raise := StackRequest(window, STACK_MODE_ABOVE);
    var give := SetInputFocus(INPUT_FOCUS_PARENT, window, CURRENT_TIME);
    assert InputFocus(focus, [give]) == window by {
      assert [give][1..] == [];
    }
    assert InputFocus(focus, [raise, give]) == window by {
      assert [raise, give][1..] == [give];
    }
    if Viewable(attrs) && focused.Some? {
      assert rs[1..] == [raise, give];
    } else if !Viewable(attrs) {
      assert rs == [StackRequest(window, STACK_MODE_BELOW)];
      assert !rs[0].SetInputFocus? && rs[1..] == [];
      assert InputFocus(focus, rs) == InputFocus(focus, []);
    } else {
      assert rs == [raise, give];
    }
  }

  /** `xcb_event_get_error_label`: the name of a core error code, or none
      (a null pointer) past the last core error, BadImplementation = 17. */
  function ErrorLabel(code: uint8): (r: Option<string>)
    ensures r.Some? <==> code <= 17
    ensures code == 0 ==> r == Some("Success")
    ensures code != 0 && r.Some? ==> |r.value| > 3 && r.value[..3] == "Bad"
  {
    if code == 0 then Some("Success") else if code == 1 then Some("BadRequest") else if code == 2 then Some("BadValue")
    else if code == 3 then Some("BadWindow") else if code == 4 then Some("BadPixmap") else if code == 5 then Some("BadAtom")
    else if code == 6 then Some("BadCursor") else if code == 7 then Some("BadFont") else if code == 8 then Some("BadMatch")
    else if code == 9 then Some("BadDrawable") else if code == 10 then Some("BadAccess") else if code == 11 then Some("BadAlloc")
    else if code == 12 then Some("BadColor") else if code == 13 then Some("BadGC") else if code == 14 then Some("BadIDChoice")
    else if code == 15 then Some("BadName") else if code == 16 then Some("BadLength") else if code == 17 then Some("BadImplementation")
    else None
  }

  /** `OnErrorEventHandler` as written: it labels the event type it was
      dispatched with (converted to the `uint8_t` parameter) and logs the
      label unless it is "Success". It sends no request. */
  function ErrorHandlerLogAsWritten(eventType: int, errorCode: uint8): (log: Option<string>)
    requires ErrorLabel((eventType % 256) as uint8).Some?
    ensures log.Some? ==> log.value != "Success"
  {
    var text := ErrorLabel((eventType % 256) as uint8).value;
    if text != "Success" then Some(text) else None
  }

  /** The dispatcher calls the error handler with type 0 only, so no error is
      ever logged, whatever its code. */
  lemma ErrorsAreNeverLogged(errorCode: uint8)
    requires errorCode == 3
    ensures DispatchEvent(0) == Some(OnError)
    ensures ErrorHandlerLogAsWritten(0, errorCode) == None
    ensures ErrorLabel(errorCode) == Some("BadWindow")
  {
  }

  /** The handler as evidently intended: label the error's own code, and log
      every real error; a code past the core errors is logged without a
      label. */
  function ErrorHandlerLog(errorCode: uint8): (log: Option<(uint8, Option<string>)>)
    ensures log.Some? <==> errorCode != 0
    ensures log.Some? ==> log.value.0 == errorCode && log.value.1 == ErrorLabel(errorCode)
  {
    if errorCode == 0 then None else Some((errorCode, ErrorLabel(errorCode)))
  }

  /** The corrected handler logs the errors the written one misses. */
  lemma CorrectedHandlerLogsErrors(errorCode: uint8)
    requires 1 <= errorCode <= 17
    ensures ErrorHandlerLog(errorCode) == Some((errorCode, ErrorLabel(errorCode)))
    ensures ErrorHandlerLog(errorCode).value.1.value != "Success"
    ensures ErrorHandlerLogAsWritten(0, errorCode) == None
  {
  }
}
