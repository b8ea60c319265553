# unknown_wm core, modelled in Dafny

This project models the bookkeeping and decision logic at the core of
unknown_wm, a tiling window manager for X11 written in C++. Each piece runs
against an abstract X server:

- the properties every window has (`XServer.PropertyStore`), as the X11 core
  protocol defines ChangeProperty (Replace and Append), DeleteProperty and
  GetProperty;
- a log of every state-changing request sent, in order (`XServer.Server.log`).
  The queries (QueryTree, GetWindowAttributes, GetInputFocus, InternAtom,
  GetProperty and Xlib's `XGetWindowAttributes`) are not logged: their
  replies are parameters;
- the server's replies (intern-atom replies, query-tree children, window
  attributes, the input focus, RandR monitors, keycode tables), which are
  parameters: `Option` stands for a reply that may be missing, `bool` for a
  call that may fail.

The modules follow the source files:

| module | source | form |
|---|---|---|
| `WindowManagers` | src/window_manager.h | class `WindowManager` over a `seq<WmWindow>`, find-first scans as a loop |
| `Monitors` | src/monitor.cpp | class `MonitorRegistry` (the global `monitors_` list and `g_randr_event_base`); `SetupMonitors` is a method with a loop |
| `TypeUtils` | src/type_utils.h | pure: the rectangle test and the pointer wrappers |
| `Ewmh` | src/ewmh.cpp, src/ewmh.h | `Ewmh` is a value; `Init` fills the atom map and a 56-slot array in a loop and sends its writes on a `Server` |
| `Events` | src/event.h, src/event.cpp | the dispatch switch and the request lists of each handler; the ConfigureRequest packer fills a 7-slot array in place |
| `Connections` | src/connection.cpp | class `Connection` with the screens; the loops become methods proved against request-list functions |
| `Keys` | src/keys.h | pure: the key constants and `ToString` |
| `XlibWindowManager` | src/window_manager.cpp | class `WindowManager` holding the `clients_` map and a log of the Xlib calls |
| `XServer` | (the X11 core protocol) | the request datatype, the property store and the `Server` class |

Integer widths are explicit. `uint8`, `uint16`, `uint32`, `int16` and
`int32` are subset types. `static_cast<uint32_t>` of a signed field is
reduction modulo 2^32 (`Events.Wrap32`). A 32-bit modifier passed as a
16-bit mask is reduced modulo 2^16 (`Connections.CombinedModifier`). A
32-bit keysym passed as an 8-bit keycode is reduced modulo 2^8
(`Connections.KeysymAsKeycode`). Bit-wise or is computed on `bv32`.

In five places the source's behaviour is undefined, and a precondition
excludes that case rather than reproducing it:

- The attributes reply `attrs` of `OnCreateNotifyEventHandler` is
  dereferenced without a check. `Events.CreateNotifyRequests` requires it to
  be present.
- `ListMappedWindows` tests `reply` where it means `win_attr_reply`
  (src/connection.cpp:89). `Connections.AttributesKnown` requires an
  attributes reply for every child.
- The keycode array of `GetKeyCodes` is read up to its `XCB_NO_SYMBOL`.
  `Connections.Connection.GetKeyCodes` requires that the table contain one.
- `IsInRect` adds `top_left` and `size` in `int32_t` (src/type_utils.h:42-43),
  where an overflow is undefined. `TypeUtils.IsInRect` requires
  `NoOverflow`; `Monitors.BoundedNoOverflow` shows that monitors built from
  16-bit RandR geometry always meet it.
- The error handler builds a `std::string` from `xcb_event_get_error_label`
  (src/event.cpp:21), which is a null pointer past the last core error code.
  `Events.ErrorHandlerLogAsWritten` requires a label to exist for the code.

Two behaviours of the code are worth knowing:

- `SetupMonitors` empties the monitor list before anything else, so a
  failed set-up also loses the monitors found earlier.
- The `std::map::operator[]` look-ups at the end of `Ewmh::Init` insert the
  five names they read, mapped to zero, whenever their intern reply was
  missing.

## Model

| member | source | states |
|---|---|---|
| WindowManagers.NewMapped | src/window_manager.h:113-117 | the entry `AddWindowToMapped` builds: id `w`, empty name, mapped, not centred or floating; the omitted `is_dirty`, position and size are value-initialised to false and zero |
| WindowManagers.FindWindow | src/window_manager.h:91 | find_if on the id: a result is the index of an entry with that id, no earlier entry has it, and there is no result exactly when the window is untracked |
| WindowManagers.MarkMapped | src/window_manager.h:106-111 | same length and ids; the first entry for `w` gets `is_mapped = true`, every other entry is unchanged |
| WindowManagers.MappedUnmappedComplement | src/window_manager.h:90-104 | the two predicates never both hold; for a tracked window exactly one holds; for an untracked one neither does |
| WindowManagers.FindWindowSameIds | src/window_manager.h:91 | the lookup depends only on the ids, position by position |
| WindowManagers.MarkMappedEffect | src/window_manager.h:106-111 | afterwards a tracked `w` is mapped; an untracked `w` leaves the list unchanged (a no-op); every other window's two lookups answer as before |
| WindowManagers.FindWindowAppend | src/window_manager.h:90-117 | appending never changes the answer for a tracked window; an untracked one is found at the new end when the new entry has its id |
| WindowManagers.AddShadowedByEarlierEntry | src/window_manager.h:90-117 | adding an untracked id makes it mapped; adding a tracked id creates a duplicate that the lookups never see, so its mapped/unmapped status is unchanged |
| WindowManagers.WindowManager.constructor | src/window_manager.h:83-87 | `windows_` empty, `last_focused_window_` nullopt, `border_ = 2`, `gap_ = 10` |
| WindowManagers.WindowManager.Find | src/window_manager.h:91 | the front-to-back scan returns `FindWindow(windows, w)` |
| WindowManagers.WindowManager.IsWindowUnmapped | src/window_manager.h:90-96 | true iff the first entry with id `w` is unmapped; false for an untracked window |
| WindowManagers.WindowManager.IsWindowMapped | src/window_manager.h:98-104 | true iff the first entry with id `w` is mapped; false for an untracked window |
| WindowManagers.WindowManager.MoveUnmappedWindowToMapped | src/window_manager.h:106-111 | the new list is `MarkMapped(old list, w)`; the other fields are unchanged |
| WindowManagers.WindowManager.AddWindowToMapped | src/window_manager.h:113-117 | exactly one `NewMapped(w)` entry is appended and the earlier entries are unchanged; the result is the new last entry |
| WindowManagers.FindFirst | src/window_manager.h:91 | a scan that stops at the first matching index has found `FindWindow`'s answer |
| Monitors.ToMonitor | src/monitor.cpp:56-61 | the record keeps the fetched name, x, y, width and height unchanged; `primary` holds iff the server's field equals 1 |
| Monitors.Collect | src/monitor.cpp:46-63 | the records of the monitors whose name was fetched; what that means is stated by `CollectLength`, `CollectIsNamedMonitors`, `CollectEmptyIff` and `CollectAllNamed` |
| Monitors.CollectLength | src/monitor.cpp:46-63 | at most one record per monitor the server reported |
| Monitors.NamedIndices | src/monitor.cpp:49-54 | the indices whose name fetch succeeded, strictly increasing, and all of them |
| Monitors.CollectIsNamedMonitors | src/monitor.cpp:46-63 | the k-th record comes from the k-th monitor whose name was fetched: skipped monitors drop out, the rest keep server order |
| Monitors.CollectEmptyIff | src/monitor.cpp:46-67 | nothing is collected iff no name fetch succeeded |
| Monitors.CollectAllNamed | src/monitor.cpp:46-63 | when every name is fetched, the records copy the reply one to one |
| Monitors.BoundedNoOverflow | src/type_utils.h:42-43 | a record built from 16-bit geometry cannot overflow the int32 sums of `IsInRect` |
| Monitors.CollectBounded | src/monitor.cpp:56-61 | every collected record has 16-bit geometry |
| Monitors.FindMonitor | src/monitor.cpp:74-77 | the first monitor whose rectangle contains the point; none exactly when no monitor contains it |
| Monitors.MonitorRegistry.constructor | src/monitor.cpp:11-13 | the list starts empty |
| Monitors.MonitorRegistry.SetupMonitors | src/monitor.cpp:15-70 | the list is cleared first on every path; without the extension, with a failed version query, with no reply or with fewer than 1 monitor it ends empty; otherwise it is the collected named monitors; the result is true iff the list is non-empty; the event base is set whenever the extension is present, before the version check |
| Monitors.MonitorRegistry.GetMonitorFromPos | src/monitor.cpp:72-82 | requires a non-empty list; returns the first monitor containing the point, or the first monitor when none does |
| Monitors.FallbackIsFirst | src/monitor.cpp:78-80 | a point inside no monitor takes the fallback |
| Monitors.CornerFindsMonitor | src/monitor.cpp:74-81 | a monitor's own top-left corner finds that monitor unless an earlier monitor covers it |
| TypeUtils.CptrBoolIsInverted | src/type_utils.h:17 | `Cptr::operator bool` is true exactly for a null pointer, the opposite of a `unique_ptr` holding the same pointer |
| TypeUtils.PtrWrap | src/type_utils.h:25-27 | the `unique_ptr` holds the given pointer and converts to true iff it is non-null |
| TypeUtils.PtrWrapPair | src/type_utils.h:28-30 | wraps the first component and passes the ok flag through unchanged |
| TypeUtils.IsInRect | src/type_utils.h:40-44 | the rectangle test, defined only when the int32 sums cannot overflow; `IsInRectIsMembership` states what it decides |
| TypeUtils.IsInRectIsMembership | src/type_utils.h:40-44 | `IsInRect` is membership in the closed rectangle `[left, left+w] x [top, top+h]` |
| TypeUtils.CornersInside | src/type_utils.h:42-43 | for a non-negative size both `top_left` and `top_left + size` are inside |
| TypeUtils.NegativeSizeIsEmpty | src/type_utils.h:42-43 | a negative width or height leaves every point outside |
| Ewmh.CatalogueIndexOfName | src/ewmh.cpp:11-68 | `CatalogueIndex` is the inverse of indexing the catalogue |
| Ewmh.CatalogueDistinct | src/ewmh.cpp:11-68 | the catalogue holds 56 pairwise distinct names |
| Ewmh.NamePositions | src/ewmh.cpp:11-68 | the positions of the names the core looks up by name |
| Ewmh.InternedValues | src/ewmh.cpp:74-83 | the `atom_values` array has 56 slots |
| Ewmh.InternFromAt | src/ewmh.cpp:75-83 | after n replies, catalogue name i is a key iff i < n and its reply arrived, and then it maps to that reply's atom |
| Ewmh.InternFromKeys | src/ewmh.cpp:75-83 | after n replies every key is one of the first n catalogue names |
| Ewmh.InternFromSpec | src/ewmh.cpp:75-83 | after n replies, a catalogue name is a key iff it is among the first n and its reply arrived, and it maps to that reply's atom; no other key exists |
| Ewmh.InternedAtomsSpec | src/ewmh.cpp:73-83 | the interned map holds exactly the names whose reply arrived, with their atoms, and only catalogue names |
| Ewmh.IndexOrInsert | src/ewmh.cpp:92-102 | `std::map::operator[]`: the stored value for a key present, otherwise zero, and the key is inserted with zero |
| Ewmh.InsertAll | src/ewmh.cpp:92-102 | a run of `operator[]` look-ups adds the looked-up keys, keeps the old values and maps each new key to zero |
| Ewmh.DefaultEwmh | src/ewmh.h:39-73 | a default-constructed `Ewmh` is not valid and has no atoms |
| Ewmh.Atom | src/ewmh.h:49-54 | some iff the name is a key, and then its value |
| Ewmh.AtomAgreesWithAtoms | src/ewmh.h:46-54 | `Atom` is some exactly for the keys of `Atoms()`, with the same values |
| Ewmh.InitKeysInCatalogue | src/ewmh.cpp:73-102 | every key of the map `Init` builds is a catalogue name |
| Ewmh.AtomAfterInit | src/ewmh.cpp:81-102 | after `Init` the five names read by `operator[]` are always known, as zero when their intern failed; every other catalogue name is known iff its reply arrived |
| Ewmh.DefaultHasNoAtoms | src/ewmh.h:39-54 | a default context knows no atom |
| Ewmh.AsciiBytes | src/ewmh.cpp:93-99 | the bytes of the window manager's name, one per character |
| Ewmh.InitRequests | src/ewmh.cpp:88-102 | the seven requests after interning |
| Ewmh.InternCatalogue | src/ewmh.cpp:73-83 | the interning loop builds `InternedAtoms` and `InternedValues` |
| Ewmh.Init | src/ewmh.cpp:9-110 | the result is valid whatever interning failed, holds the map as the look-ups left it, and the server gets exactly `InitRequests` |
| Ewmh.ReferencedAtoms | src/ewmh.cpp:92-102 | the atoms the five look-ups find: the interned atom, or zero |
| Ewmh.InitWritesCheck | src/ewmh.cpp:91-97 | both windows' _NET_SUPPORTING_WM_CHECK reads `[ewmh_window]`, typed WINDOW, format 32 |
| Ewmh.InitWritesName | src/ewmh.cpp:93-99 | both windows' _NET_WM_NAME reads "unknown_wm", typed UTF8_STRING, format 8 |
| Ewmh.InitWritesSupported | src/ewmh.cpp:100-101 | the root's _NET_SUPPORTED is replaced by the value array, typed ATOM, format 32 |
| Ewmh.InitDeletesWorkarea | src/ewmh.cpp:102 | the root has no _NET_WORKAREA afterwards |
| Ewmh.InitSetsSupportingCheck | src/ewmh.cpp:91-97 | with the check atom interned, both windows name the supporting window in _NET_SUPPORTING_WM_CHECK |
| Ewmh.InitSetsName | src/ewmh.cpp:93-99 | with both atoms interned, _NET_WM_NAME reads "unknown_wm" on both windows |
| Ewmh.InitPublishesSupported | src/ewmh.cpp:11-101 | _NET_SUPPORTED lists the 56 catalogue atoms in catalogue order, with a zero for each intern that failed |
| Ewmh.InitRemovesWorkarea | src/ewmh.cpp:102 | with _NET_WORKAREA interned, the root has no such property afterwards |
| Ewmh.InitTouchesOnlyItsWindows | src/ewmh.cpp:88-102 | no property of any other window changes |
| Ewmh.GetProperty | src/ewmh.cpp:112-127 | none when the name is unknown; for a known name exactly the GetProperty reply for its atom, offset 0, at most 128 units, so none for an invalid atom |
| Ewmh.CurrentWindowRequests | src/ewmh.cpp:144-149 | the _NET_ACTIVE_WINDOW write, or nothing when the atom is unknown; `CurrentWindowReadsBack` states its effect |
| Ewmh.UpdateCurrentWindow | src/ewmh.cpp:144-149 | the server gets exactly `CurrentWindowRequests` |
| Ewmh.CurrentWindowReadsBack | src/ewmh.cpp:144-149 | nothing is sent when _NET_ACTIVE_WINDOW is unknown; otherwise the root's _NET_ACTIVE_WINDOW reads `[w]`, typed WINDOW |
| Ewmh.ApplyPreservesFormats | src/ewmh.cpp:144-170 | every stored property keeps a valid format after one request |
| Ewmh.ApplyAllPreservesFormats | src/ewmh.cpp:144-170 | every stored property keeps a valid format after a batch |
| Ewmh.UpdateWindowRequests | src/ewmh.cpp:151-170 | the WM_STATE write and, for a focused window, the _NET_WM_STATE append; `UpdateWindowSetsWmState`, `FocusedUpdateAppends`, `UnfocusedUpdateKeepsState` and `UpdateWindowTouchesOnlyWindow` state its effect |
| Ewmh.UpdateWindow | src/ewmh.cpp:151-170 | the server gets exactly `UpdateWindowRequests` |
| Ewmh.UpdateWindowSetsWmState | src/ewmh.cpp:156-160 | WM_STATE reads `[NormalState, None]`, typed WM_STATE, format 32 (section 4.1.3.1 of the ICCCM) |
| Ewmh.FocusedUpdateAppends | src/ewmh.cpp:161-169 | a focused update appends one _NET_WM_STATE_FOCUSED to the window's _NET_WM_STATE |
| Ewmh.Copies | src/ewmh.cpp:161-169 | n copies of a value |
| Ewmh.RepeatedFocusAccumulates | src/ewmh.cpp:161-169 | no deduplication: n focused updates leave n more copies of _NET_WM_STATE_FOCUSED |
| Ewmh.UnfocusedUpdateKeepsState | src/ewmh.cpp:161-169 | an unfocused update leaves _NET_WM_STATE alone |
| Ewmh.UpdateWindowTouchesOnlyWindow | src/ewmh.cpp:151-170 | only the window's own properties change |
| Events.DispatchEvent | src/event.h:50-97 | exactly one handler for type 0 and each of the 13 XCB codes, none for any other type |
| Events.DispatchRoundTrip | src/event.h:51-96 | every handler is reached from its own code: the switch and `HandlerCode` are inverse |
| Events.ErrorOnlyFromZero | src/event.h:52-54 | type 0 goes to the error handler, and only type 0 does |
| Events.Wrap32 | src/event.cpp:35-47 | `static_cast<uint32_t>`: the value modulo 2^32, unchanged when non-negative |
| Events.FieldBitsAreProtocolBits | src/event.cpp:34-47 | the packer tests X, Y, WIDTH, HEIGHT, BORDER_WIDTH, SIBLING and STACK_MODE in that order |
| Events.FieldValues | src/event.cpp:35-47 | the seven candidate values in protocol order, each converted to CARD32 |
| Events.PackFrom | src/event.cpp:34-47 | one value for each set bit among fields j to 6, in order |
| Events.UnpackFrom | src/event.cpp:48 | how the server reads the list back: one value per set bit |
| Events.Selected | src/event.cpp:34-47 | the fields the mask selects |
| Events.PackUnpackFrom | src/event.cpp:34-48 | reading the packed list back with the same mask recovers exactly the selected fields |
| Events.PackUnpackRoundTrip | src/event.cpp:34-48 | the round trip for the whole mask |
| Events.PackField | src/event.cpp:34-47 | one `if (mask & bit) values[i++] = value` step keeps the prefix packed and the rest zero |
| Events.PackConfigureValues | src/event.cpp:31-47 | the array has 7 slots; the count is the packed list's length and at most 7; the prefix is the packed list; the unused slots stay zero |
| Events.PackGeometry | src/event.cpp:34-41 | the first four steps |
| Events.PackStacking | src/event.cpp:42-47 | the last three steps |
| Events.FinishPack | src/event.cpp:47-48 | the filled prefix and the zeroed rest |
| Events.ConfigureRequestRequests | src/event.cpp:31-48 | a single ConfigureWindow request that forwards the client's own mask unchanged, and whose values read back as the selected fields |
| Events.FocusInRequests | src/event.cpp:72-83 | repaints the border active iff the mode is not GRAB/UNGRAB and the detail is not Pointer, PointerRoot or None; otherwise sends nothing |
| Events.FocusOutRequests | src/event.cpp:85-93 | repaints the border inactive iff the mode is not GRAB/UNGRAB |
| Events.FocusInFilterIsStricter | src/event.cpp:75-92 | whenever FocusIn repaints, FocusOut repaints too |
| Events.FocusOutIgnoresDetail | src/event.cpp:88-92 | FocusOut does not look at the detail |
| Events.FocusColoursDiffer | src/event.cpp:81-92 | the two handlers paint different colours |
| Events.CreateNotifyRequests | src/event.cpp:95-109 | nothing for an override-redirect window; otherwise the enter/leave/focus/structure event mask, then a border width of 3 |
| Events.MapRequestRequests | src/event.cpp:116-133 | the restacking and focus requests of the map-request handler; `MapRequestStacking` and `MapRequestFocus` state their effect |
| Events.MapRequestStacking | src/event.cpp:116-133 | a viewable window is raised on top and focused, and the previously focused window, if another, is lowered to the bottom; any other window is only lowered |
| Events.RaiseKeepsBottom | src/event.cpp:122-127 | raising one window keeps a different bottom window at the bottom |
| Events.MapRequestFocus | src/event.cpp:116-133 | a viewable window takes the input focus; a request for any other window leaves the focus where it was |
| Events.EnterNotifyFocusesEntered | src/event.cpp:60-65 | whatever had the focus, the entered window has it afterwards; stacking order and properties are unchanged |
| Events.ErrorLabel | src/event.cpp:21 | `xcb_event_get_error_label`: a label for codes 0 to 17 and none past them; 0 is "Success" and every other label starts with "Bad" |
| Events.ErrorHandlerLogAsWritten | src/event.cpp:20-25 | the handler as written logs only a label other than "Success" |
| Events.ErrorsAreNeverLogged | src/event.cpp:20-25 | dispatch calls the handler with type 0, so even a BadWindow error is not logged |
| Events.ErrorHandlerLog | src/event.cpp:20-25 | the corrected handler logs exactly the non-zero codes, with their own label |
| Events.CorrectedHandlerLogsErrors | src/event.cpp:20-25 | the corrected handler logs every core error that the written one drops |
| Connections.CollectScreens | src/connection.cpp:22-27 | one screen per element of the roots iterator, in order |
| Connections.Init | src/connection.cpp:9-31 | no connection when connecting fails; no connection and a disconnect when the error code is > 0; otherwise a fresh connection holding the roots in order |
| Connections.Connection.constructor | src/connection.cpp:33-36 | the connection keeps the screens it is given |
| Connections.SubscribeRequests | src/connection.cpp:48-55 | one event-mask change per root, in screen order, each with the same mask |
| Connections.SubscribeRedirectsEveryRoot | src/connection.cpp:48-55 | every root gets STRUCTURE_NOTIFY, SUBSTRUCTURE_NOTIFY and SUBSTRUCTURE_REDIRECT |
| Connections.Connection.SubscribeWMEvents | src/connection.cpp:48-55 | the server gets exactly `SubscribeRequests(screens)` and no property changes |
| Connections.Reverse | src/connection.cpp:77 | `std::reverse` as a value: element i comes from position n-1-i |
| Connections.ReverseMembers | src/connection.cpp:77 | reversing keeps the members |
| Connections.ReverseInPlace | src/connection.cpp:77 | the array becomes the reverse of its old contents |
| Connections.AdoptedOnScreen | src/connection.cpp:86-94 | the adoptable children, tagged with the screen index, in the order given |
| Connections.MappedWindows | src/connection.cpp:57-99 | the adopted windows of every screen in screen order |
| Connections.AdoptedOnScreenIff | src/connection.cpp:86-94 | a pair is kept iff the window is a child, it is adoptable, and the tag is the screen's index |
| Connections.MappedWindowsIff | src/connection.cpp:62-98 | `(w, k)` is listed iff screen k's reply arrived, lists `w`, and `w` is viewable and not override-redirect; a screen whose reply is missing contributes nothing, and every index is below the screen count |
| Connections.AdoptedKeepsReversedOrder | src/connection.cpp:75-94 | with every child adoptable, the list is the children from the top of the stack down |
| Connections.AdoptedAll | src/connection.cpp:86-94 | with every child adoptable, every child is kept in order |
| Connections.Connection.ListMappedWindows | src/connection.cpp:57-99 | the result is `MappedWindows(trees, attrs)` |
| Connections.Connection.AdoptChildren | src/connection.cpp:73-94 | one screen's children, reversed in place and then filtered |
| Connections.Connection.FocusedWindow | src/connection.cpp:101-124 | some iff the reply arrived, the focus is not NONE and it is no screen's root; then it is the focus |
| Connections.LockMasksAreDisjoint | src/connection.cpp:129-137 | the or-ed lock masks are 18, 130, 144 and 146 |
| Connections.ToggledModifiersAreLockSubsets | src/connection.cpp:129-137 | the table holds 8 distinct masks: each subset of {CapsLock, NumLock, ScrollLock} exactly once, and nothing else |
| Connections.GrabKeyRequests | src/connection.cpp:152-163 | one grab per root, in screen order |
| Connections.Connection.GrabKey | src/connection.cpp:152-163 | the server gets exactly `GrabKeyRequests` |
| Connections.SentinelPrefix | src/connection.cpp:169-172 | a prefix of the table without `NO_SYMBOL`, followed by `NO_SYMBOL` when shorter |
| Connections.SentinelPrefixUnique | src/connection.cpp:169-172 | that prefix stops at the first `NO_SYMBOL` |
| Connections.Connection.GetKeyCodes | src/connection.cpp:165-173 | the keycodes are exactly the prefix before the first `NO_SYMBOL` |
| Connections.ToggledGrabsHas | src/connection.cpp:144-145 | every lock combination is grabbed on every root |
| Connections.ToggledGrabsShape | src/connection.cpp:144-145 | each grab is on a root, for the key, with `modifier \| t` for some lock combination t |
| Connections.KeycodeGrabsAsWritten | src/connection.cpp:143-145 | the keycode loop as written: one block of toggled grabs per keycode, each for the truncated keysym; `KeycodeGrabsAsWrittenRepeats` states its shape |
| Connections.KeycodeGrabs | src/connection.cpp:143-145 | the intended keycode loop, grabbing each keycode; `KeycodeGrabsHas` and `KeycodeGrabsShape` state its properties |
| Connections.KeycodeGrabsHas | src/connection.cpp:143-145 | in the corrected loop every keycode is grabbed under every combination on every root |
| Connections.KeycodeGrabsShape | src/connection.cpp:143-145 | every grab of the corrected loop is on a root and names one of the keycodes |
| Connections.AsWrittenGrabsTruncatedKeysym | src/connection.cpp:143-145 | every grab of the loop as written names the keysym's low byte, whatever the keycodes are |
| Connections.AsWrittenMissesTheKeycode | src/connection.cpp:143-145 | Alt+Right with keycode 114: the corrected loop grabs 114; the loop as written never does |
| Connections.BindingGrabs | src/connection.cpp:142-147 | the intended grabs of every binding in turn |
| Connections.BindingGrabsHas | src/connection.cpp:142-147 | in the corrected loop every binding's keycodes are grabbed under every combination on every root |
| Connections.RegisterRequests | src/connection.cpp:139-149 | the intended registration: per root an ungrab, then `BindingGrabs` |
| Connections.RegisterGrabsEveryCombination | src/connection.cpp:139-149 | the intended registration grabs every binding on every root under every lock combination, for every keycode of its keysym |
| Connections.Repeated | src/connection.cpp:143-145 | n copies of a block of requests, empty for n = 0 |
| Connections.KeycodeGrabsAsWrittenRepeats | src/connection.cpp:143-145 | as written, the same block of toggled grabs for the truncated keysym is sent once per keycode, and nothing when the keysym has no keycode |
| Connections.KeycodeGrabsAsWrittenHas | src/connection.cpp:143-145 | as written, a keysym with at least one keycode is grabbed by its low byte under every combination on every root |
| Connections.AsWrittenGrabsOnRoots | src/connection.cpp:143-145 | every request of the keycode loop as written is a grab on a root |
| Connections.BindingGrabsAsWritten | src/connection.cpp:142-147 | the bindings' grabs as written, binding by binding |
| Connections.BindingGrabsAsWrittenHas | src/connection.cpp:142-147 | as written, every binding with a keycode is grabbed by its truncated keysym under every combination on every root |
| Connections.BindingGrabsAsWrittenShape | src/connection.cpp:142-147 | as written, every grab is on a root and names the truncated keysym of a binding that has a keycode |
| Connections.RegisterRequestsAsWritten | src/connection.cpp:139-149 | registration as written: per root an ungrab, then `BindingGrabsAsWritten` |
| Connections.RegisterAsWrittenUngrabs | src/connection.cpp:140 | every root's old key grabs are released |
| Connections.RegisterAsWrittenGrabsTruncatedKeysyms | src/connection.cpp:139-149 | registration as written ungrabs every root and grabs every binding with a keycode on every root, under every combination, by its keysym's low byte |
| Connections.RegisterAsWrittenShape | src/connection.cpp:139-149 | registration as written sends nothing but ungrabs of the roots and grabs on a root of some binding's truncated keysym |
| Connections.Connection.GrabToggled | src/connection.cpp:144-146 | the server gets exactly `ToggledGrabs` |
| Connections.Connection.GrabBinding | src/connection.cpp:143-147 | the server gets exactly `KeycodeGrabsAsWritten` for the table's keycodes, and no property changes |
| Connections.Connection.GrabCodes | src/connection.cpp:143-147 | the server gets exactly `KeycodeGrabsAsWritten`: the truncated keysym's grabs once per keycode |
| Connections.Connection.GrabBindings | src/connection.cpp:142-148 | the server gets exactly `BindingGrabsAsWritten` |
| Connections.Connection.RegisterKeybindings | src/connection.cpp:126-150 | the server gets exactly `RegisterRequestsAsWritten`: for each root an ungrab of every key, then every binding's grabs as written; no property changes |
| Keys.DigitChar | src/keys.h:109 | a decimal digit character with the given value |
| Keys.Decimal | src/keys.h:109 | `std::to_string`: at least one digit, all digits, no leading zero |
| Keys.DecimalRoundTrip | src/keys.h:109 | reading the digits back gives the number |
| Keys.DecimalInjective | src/keys.h:109 | distinct numbers render differently |
| Keys.ToString | src/keys.h:45-112 | never empty; a named key's text is not a number; any other key renders as digits |
| Keys.NamedKeysPrintTheirNames | src/keys.h:47-107 | each case constant prints its own name |
| Keys.NameRoundTrip | src/keys.h:47-107 | a named key's name reads back as that key |
| Keys.OtherKeysPrintDecimal | src/keys.h:108-110 | any other key prints as its decimal value |
| Keys.LockKeysPrintDecimal | src/keys.h:15-110 | CapsLock, NumLock and ScrollLock have no case: they print "2", "16" and "128" |
| Keys.NamedKeysDistinct | src/keys.h:47-107 | the case labels are pairwise distinct, and so are the names |
| Keys.ToStringInjective | src/keys.h:45-112 | distinct keys print differently |
| XlibWindowManager.WillFrame | src/window_manager.cpp:185-196 | no framing when already a client; a window that asks to be mapped is always framed; a window found at start-up only when viewable and not override-redirect |
| XlibWindowManager.ApplyCall | src/window_manager.cpp:199-219 | the effect of one Xlib call on each window's parent, the mapped windows and the save-set |
| XlibWindowManager.ApplyCalls | src/window_manager.cpp:199-219 | the effect of a run of calls, in order |
| XlibWindowManager.ApplyCallsConcat | src/window_manager.cpp:199-219 | applying two runs is applying their concatenation |
| XlibWindowManager.FrameCallsTree | src/window_manager.cpp:199-206 | after `FrameCalls` the frame is a child of the root and mapped, the window is the frame's child and in the save-set |
| XlibWindowManager.FrameCallsEffect | src/window_manager.cpp:199-206 | the window sits in the frame, the frame is a mapped child of the root, the window is saved and keeps its mapped state; every other window keeps its parent and mapped state |
| XlibWindowManager.UnFrameCallsEffect | src/window_manager.cpp:217-219 | the window is the root's child again and the frame is unmapped; the save-set is unchanged and the frame is not destroyed |
| XlibWindowManager.GrabsKeepTree | src/window_manager.cpp:226-239 | button and key grabs leave the tree alone |
| XlibWindowManager.FrameUnFrameRoundTrip | src/window_manager.cpp:184-222 | framing a root child with a fresh frame and unframing it restores the clients map, the window's parent and the mapped windows; the unmapped frame and the save-set entry remain |
| XlibWindowManager.KeysymToKeycode | src/window_manager.cpp:235 | `XKeysymToKeycode` over the keyboard mapping, 0 for an unmapped keysym |
| XlibWindowManager.InteractionGrab | src/window_manager.cpp:226-239 | a single button or key grab, and nothing for another condition |
| XlibWindowManager.InteractionGrabsAsWritten | src/window_manager.cpp:224-241 | the loop as written makes at most one grab |
| XlibWindowManager.AsWrittenGrabsFirst | src/window_manager.cpp:224-241 | the loop as written grabs exactly the first button or key interaction, and nothing when there is none |
| XlibWindowManager.InteractionGrabs | src/window_manager.cpp:224-241 | the corrected loop makes at most one grab per interaction |
| XlibWindowManager.InteractionGrabsIff | src/window_manager.cpp:224-241 | a call is made by the corrected loop iff it is the grab of some button or key interaction |
| XlibWindowManager.AsWrittenGrabsOnlyFirst | src/window_manager.cpp:231-238 | with two key interactions the loop as written grabs only the first; the corrected loop grabs both |
| XlibWindowManager.WindowManager.constructor | src/window_manager.cpp:27-28 | no clients and no calls yet |
| XlibWindowManager.WindowManager.Frame | src/window_manager.cpp:184-211 | when `WillFrame` holds: `clients_[w] = frame`, other entries unchanged, and the calls are `FrameCalls` then `InteractionGrabsAsWritten`, the first interaction's grab only; otherwise nothing changes |
| XlibWindowManager.WindowManager.UnFrame | src/window_manager.cpp:213-222 | a no-op for a non-client; otherwise it erases exactly `w` and makes the `UnFrameCalls` |
| XlibWindowManager.WindowManager.RegisterInteractions | src/window_manager.cpp:224-241 | the loop stops at the first button or key interaction: the calls grow by `InteractionGrabsAsWritten`; `clients_` is unchanged |
| XlibWindowManager.WindowManager.OnUnmapNotify | src/window_manager.cpp:151-161 | unframes iff the window is a client and the event was not reported on the root; otherwise nothing changes |
| XlibWindowManager.WindowManager.OnMapRequest | src/window_manager.cpp:163-166 | a non-client is framed as a new window whatever its attributes, with the first interaction's grab, and then mapped; a client is only mapped |
| XlibWindowManager.WindowManager.OnConfigureRequest | src/window_manager.cpp:125-139 | `clients_` is unchanged and the calls grow by `ConfigureCalls` |
| XlibWindowManager.RequestedChanges | src/window_manager.cpp:126-133 | each change copies its request field |
| XlibWindowManager.ConfigureCalls | src/window_manager.cpp:125-139 | the ConfigureWindow calls for a request; `ConfigureReachesWindowAndFrame` states which windows they reach |
| XlibWindowManager.ConfigureReachesWindowAndFrame | src/window_manager.cpp:134-138 | a client's frame is configured first, with the same mask and changes, and the window itself is always configured last; nothing else is |
| XServer.ApplyRequest | src/ewmh.cpp:91-102 | a valid Replace write stores its value; a request that is neither a property change nor a delete changes nothing |
| XServer.ReadProperty | src/ewmh.cpp:115-117 | GetProperty with offset 0: none for an invalid atom; otherwise at most `4 * long_length` bytes, a prefix of the stored value |
| XServer.InputFocus | src/event.cpp:60-65 | the input focus after a batch: the window of its last SetInputFocus, the old focus when there is none |
| XServer.Restack | src/event.cpp:122-131 | stacking Above puts the window on top, Below at the bottom; the set of windows is unchanged |

## Left out

- The paged three-column layout, `FocusWindow` and the focus transitions, `OnRandrScreenChange` and the XCB `Run` loop: src/window_manager.h declares them, but their implementation is not part of this model (the src/window_manager.cpp modelled here is the Xlib variant).
- The Xlib `Run` loop: `XOpenDisplay`, `XGrabServer`, the start-up `XQueryTree` pass and the `XNextEvent` dispatch (src/window_manager.cpp:32-121). These are I/O and an event source.
- The process-wide error handling: the error globals and their mutex, `OnXError` (which also lacks a return statement) and `OnWMDetected` (src/window_manager.cpp:15-16, 243-258). This is concurrency and global state.
- The handlers that do nothing (src/window_manager.cpp:123, 141-149, 168-182).
- `GrabICCCMSizeHints`, which discards its result (src/ewmh.cpp:129-142).
- The InternAtom cookies of `Ewmh::Init` (src/ewmh.cpp:69-72): each reply is an input, in catalogue order.
- libxcb and Xlib themselves: the checked-request helpers and reply wrappers, `Flush`, `WaitForEvent`, `xcb_generate_id`, `XKeysymToKeycode` and `XCreateSimpleWindow`. Their outcomes are parameters to the model.
- The key-symbol table allocation and the errors context of the `Connection` constructor, and its destructor.
- Memory ownership: `free`, the `unique_ptr` deleters, the `Cptr` destructor, `CastEventType`, and the `win_attr_reply` that `ListMappedWindows` frees only for kept windows.
- Event generation and any XCB server effect other than the property store, the stacking order and the input focus. `CreateWindow`, `ConfigureWindow` geometry, event masks and grabs are recorded in the log only.
- For the Xlib calls, `XlibWindowManager.XTree` holds only each window's parent, the mapped windows and the save-set. Geometry, event selection and grabs leave it unchanged. The window id `XCreateSimpleWindow` returns is a parameter. The frame is never destroyed, as in the source.
- The ConfigureWindow value list is modelled as one value per set bit. The wire length per popcount of the mask and the unused zero slots the source passes after the packed values are not modelled.
- The frame's border width and colours (src/window_manager.cpp:201): the globals holding them are not part of this model.
- `g_interactions` and the keyboard mapping are constructor parameters of `XlibWindowManager.WindowManager`. The `KEYBINDINGS` table of src/config.h is a parameter of `Connections.Connection.RegisterKeybindings`.
- Logging, like every `INFO` and `ERROR` line (src/logging.h), the action closures (src/actions.h), the window wrapper (src/window.h) and src/main.cpp.
- The server's own number of monitors: `SetupMonitors` takes the monitor list of the GetMonitors reply and compares its length with 1; the server-side RandR state is not modelled.
- Events.ErrorsAreNeverLogged: stated for one witness error (BadWindow). The as-written handler's log does not depend on the error code at all, so the witness stands for every code.

## Findings

| source | as written | input that shows it | evidently intended | confidence | as-written member | corrected member |
|---|---|---|---|---|---|---|
| src/event.cpp:20-25 | the error handler labels `event_type`, which the dispatcher (src/event.h:52-54) always passes as 0, so the label is always "Success" and nothing is ever logged | a BadWindow error (code 3) dispatched with type 0 | label and log the error's own code | not executed | Events.ErrorsAreNeverLogged | Events.CorrectedHandlerLogsErrors |
| src/connection.cpp:143-145 | the loop over a keysym's keycodes calls `GrabKey(..., key.key_symbol)`, so each grab names the keysym cut to 8 bits instead of the keycode | Alt+Right, keysym 0xff53 with keycode 114: the grab names keycode 0x53, never 114 | `GrabKey(key.modifier \| toggled_modifier, keycode)` | not executed | Connections.AsWrittenMissesTheKeycode | Connections.RegisterGrabsEveryCombination |
| src/window_manager.cpp:224-241 | both branches of the interaction loop `break` after the first grab, so only the first button or key interaction is ever grabbed | two key interactions: only the first key is grabbed | grab every interaction | not executed | XlibWindowManager.AsWrittenGrabsOnlyFirst | XlibWindowManager.InteractionGrabsIff |
