/** The connection to the X server (src/connection.cpp): the screens found
    at start-up, the event selection that makes the program the window
    manager, the windows already mapped when it starts, the focused window
    and the key grabs for the key bindings. Replies from the server are
    inputs; the requests sent are appended to a `Server`'s log. */
module Connections {
  import opened Wrappers
  import opened Types
  import opened XServer
  import Keys

  /** The part of `xcb_screen_t` the core reads. */
  datatype Screen = Screen(root: Window)

  predicate IsRoot(screens: seq<Screen>, w: Window) {
    exists i :: 0 <= i < |screens| && screens[i].root == w
  }

  /** The events selected on every root: STRUCTURE_NOTIFY, SUBSTRUCTURE_NOTIFY
      and SUBSTRUCTURE_REDIRECT (three distinct bits, so their `|` is their sum). */
  const WM_EVENT_MASK: uint32 := EVENT_MASK_STRUCTURE_NOTIFY + EVENT_MASK_SUBSTRUCTURE_NOTIFY + EVENT_MASK_SUBSTRUCTURE_REDIRECT

  /** The keycode that ends the array `xcb_key_symbols_get_keycode` returns. */
  const NO_SYMBOL: uint8 := 0

  // ---------------------------------------------------------------- screens

  /** The screen loop of `Connection::Init`: one entry per element of the
      roots iterator, in iterator order. */
  method CollectScreens(roots: seq<Screen>) returns (screens: seq<Screen>)
    ensures screens == roots
  {
    screens := [];
    var i := 0;
    while i < |roots|
      invariant 0 <= i <= |roots|
      invariant screens == roots[..i]
    {
      screens := screens + [roots[i]];
      i := i + 1;
    }
  }

  /** `Connection::Init`. `connected` says whether `xcb_connect` returned a
      connection, `connectionError` is what `xcb_connection_has_error`
      reports and `roots` is the setup's list of screens. `disconnected`
      says whether the connection was closed again. */
  method Init(connected: bool, connectionError: int32, roots: seq<Screen>) returns (c: Option<Connection>, disconnected: bool)
    ensures !connected ==> c.None? && !disconnected
    ensures connected && connectionError > 0 ==> c.None? && disconnected
    ensures connected && connectionError <= 0 ==>
              c.Some? && fresh(c.value) && c.value.screens == roots && c.value.toggledModifiers == TOGGLED_MODIFIERS && !disconnected
  {
    if !connected {
      return None, false;
    }
    if connectionError > 0 {
      return None, true;
    }
    var screens := CollectScreens(roots);
    var conn := new Connection(screens);
    return Some(conn), false;
  }

  // --------------------------------------------------------- event selection

  /** What `SubscribeWMEvents` sends: one event-mask change per root, in
      screen order. */
  function SubscribeRequests(screens: seq<Screen>): (rs: seq<Request>)
    ensures |rs| == |screens|
    ensures forall i :: 0 <= i < |screens| ==> rs[i] == ChangeWindowAttributes(screens[i].root, CW_EVENT_MASK, [WM_EVENT_MASK])
    decreases |screens|
  {
    if screens == [] then []
    else
      var n := |screens| - 1;
      SubscribeRequests(screens[..n]) + [ChangeWindowAttributes(screens[n].root, CW_EVENT_MASK, [WM_EVENT_MASK])]
  }

  /** Every root is asked for the same event mask, and that mask selects
      SubstructureRedirect, the selection only one client may hold. */
  lemma SubscribeRedirectsEveryRoot(screens: seq<Screen>, w: Window)
    requires IsRoot(screens, w)
    ensures ChangeWindowAttributes(w, CW_EVENT_MASK, [WM_EVENT_MASK]) in SubscribeRequests(screens)
    ensures (WM_EVENT_MASK / EVENT_MASK_SUBSTRUCTURE_REDIRECT) % 2 == 1
  {
    var i :| 0 <= i < |screens| && screens[i].root == w;
    assert SubscribeRequests(screens)[i] == ChangeWindowAttributes(w, CW_EVENT_MASK, [WM_EVENT_MASK]);
  }

  // ------------------------------------------------------------ mapped windows

  /** `std::reverse` as a value. */
  function Reverse<T>(s: seq<T>): (r: seq<T>)
    ensures |r| == |s|
    ensures forall i :: 0 <= i < |s| ==> r[i] == s[|s| - 1 - i]
    decreases |s|
  {
    if s == [] then [] else Reverse(s[1..]) + [s[0]]
  }

  lemma ReverseMembers<T>(s: seq<T>, x: T)
    ensures x in Reverse(s) <==> x in s
  {
    var r := Reverse(s);
    if x in s {
      var i :| 0 <= i < |s| && s[i] == x;
      assert r[|s| - 1 - i] == x;
    }
    if x in r {
      var i :| 0 <= i < |r| && r[i] == x;
      assert s[|s| - 1 - i] == x;
    }
  }

  /** `std::reverse` on the children buffer: swap the ends inwards. */
  method ReverseInPlace(a: array<Window>)
    modifies a
    ensures a[..] == Reverse(old(a[..]))
  {
    var n := a.Length;
    var i := 0;
    while i < n / 2
      invariant 0 <= i <= n / 2
      invariant forall k :: 0 <= k < i ==> a[k] == old(a[n - 1 - k]) && a[n - 1 - k] == old(a[k])
      invariant forall k :: i <= k < n - i ==> a[k] == old(a[k])
    {
      a[i], a[n - 1 - i] := a[n - 1 - i], a[i];
      i := i + 1;
    }
    assert forall k :: 0 <= k < n ==> a[k] == old(a[..])[n - 1 - k];
  }

  /** A child the window manager adopts: viewable and not override-redirect. */
  predicate Adoptable(attrs: WindowAttributes) {
    attrs.mapState == MAP_STATE_VIEWABLE && !attrs.overrideRedirect
  }

  /** Every child that a query-tree reply lists has an attributes reply; the
      source dereferences that reply without a null check. */
  predicate AttributesKnown(trees: seq<Option<seq<Window>>>, attrs: map<Window, WindowAttributes>) {
    forall s :: 0 <= s < |trees| && trees[s].Some? ==> forall w :: w in trees[s].value ==> w in attrs
  }

  /** The adoptable windows of one screen, in the order given, tagged with
      the screen's index. */
  function AdoptedOnScreen(children: seq<Window>, attrs: map<Window, WindowAttributes>, screenId: nat): (r: seq<(Window, nat)>)
    requires forall i :: 0 <= i < |children| ==> children[i] in attrs
    ensures |r| <= |children|
    ensures forall i :: 0 <= i < |r| ==> r[i].1 == screenId && r[i].0 in children
    decreases |children|
  {
    if children == [] then []
    else
      var n := |children| - 1;
      var w := children[n];
      AdoptedOnScreen(children[..n], attrs, screenId) + (if Adoptable(attrs[w]) then [(w, screenId)] else [])
  }

  /** What `ListMappedWindows` returns: per screen, in screen order, the
      children of the screen's root from the top of the stack down (the
      query-tree reply lists them bottom first), keeping the adoptable ones.
      `trees[s]` is the query-tree reply for screen `s`, `None` when missing. */
  function MappedWindows(trees: seq<Option<seq<Window>>>, attrs: map<Window, WindowAttributes>): (r: seq<(Window, nat)>)
    requires AttributesKnown(trees, attrs)
    ensures forall i :: 0 <= i < |r| ==> r[i].1 < |trees|
    ensures forall i, j :: 0 <= i < j < |r| ==> r[i].1 <= r[j].1
    decreases |trees|
  {
    if trees == [] then []
    else
      var s := |trees| - 1;
      assert AttributesKnown(trees[..s], attrs);
      MappedWindows(trees[..s], attrs) + (if trees[s].Some? then AdoptedOnScreen(Reverse(trees[s].value), attrs, s) else [])
  }

  lemma {:induction false} AdoptedOnScreenIff(children: seq<Window>, attrs: map<Window, WindowAttributes>, screenId: nat, w: Window, k: nat)
    requires forall i :: 0 <= i < |children| ==> children[i] in attrs
    ensures (w, k) in AdoptedOnScreen(children, attrs, screenId) <==> k == screenId && w in children && Adoptable(attrs[w])
    decreases |children|
  {
    if children != [] {
      var n := |children| - 1;
      AdoptedOnScreenIff(children[..n], attrs, screenId, w, k);
      assert children == children[..n] + [children[n]];
      assert w in children <==> w in children[..n] || w == children[n];
    }
  }

  /** A window is listed with screen index `k` exactly when screen `k`'s
      query-tree reply arrived, lists it as a child, and it is adoptable. So
      a screen whose reply is missing contributes nothing, and every index
      is below the number of screens. */
  lemma {:induction false} MappedWindowsIff(trees: seq<Option<seq<Window>>>, attrs: map<Window, WindowAttributes>, w: Window, k: nat)
    requires AttributesKnown(trees, attrs)
    ensures (w, k) in MappedWindows(trees, attrs) <==>
              k < |trees| && trees[k].Some? && w in trees[k].value && w in attrs && Adoptable(attrs[w])
    decreases |trees|
  {
    if trees != [] {
      var s := |trees| - 1;
      assert AttributesKnown(trees[..s], attrs);
      MappedWindowsIff(trees[..s], attrs, w, k);
      if trees[s].Some? {
        AdoptedOnScreenIff(Reverse(trees[s].value), attrs, s, w, k);
        ReverseMembers(trees[s].value, w);
      }
    }
  }

  /** With a single screen whose children are all adoptable, the list is
      the children in reverse order. */
  lemma {:induction false} AdoptedKeepsReversedOrder(children: seq<Window>, attrs: map<Window, WindowAttributes>, screenId: nat)
    requires forall i :: 0 <= i < |children| ==> children[i] in attrs && Adoptable(attrs[children[i]])
    ensures |AdoptedOnScreen(Reverse(children), attrs, screenId)| == |children|
    ensures forall i :: 0 <= i < |children| ==>
              AdoptedOnScreen(Reverse(children), attrs, screenId)[i] == (children[|children| - 1 - i], screenId)
  {
    AdoptedAll(Reverse(children), attrs, screenId);
  }

  lemma {:induction false} AdoptedAll(children: seq<Window>, attrs: map<Window, WindowAttributes>, screenId: nat)
    requires forall i :: 0 <= i < |children| ==> children[i] in attrs && Adoptable(attrs[children[i]])
    ensures |AdoptedOnScreen(children, attrs, screenId)| == |children|
    ensures forall i :: 0 <= i < |children| ==> AdoptedOnScreen(children, attrs, screenId)[i] == (children[i], screenId)
    decreases |children|
  {
    if children != [] {
      var n := |children| - 1;
      var prefix := children[..n];
      AdoptedAll(prefix, attrs, screenId);
      var before := AdoptedOnScreen(prefix, attrs, screenId);
      var all := AdoptedOnScreen(children, attrs, screenId);
      assert Adoptable(attrs[children[n]]);
      assert all == before + [(children[n], screenId)];
      forall i | 0 <= i < |children|
        ensures all[i] == (children[i], screenId)
      {
        if i < n {
          assert all[i] == before[i] && prefix[i] == children[i];
        }
      }
    }
  }

  // ---------------------------------------------------------------- key grabs

  /** `a | b` on 32-bit masks. */
  function Or(a: uint32, b: uint32): uint32 {
    ((a as bv32) | (b as bv32)) as int
  }

  /** The lock modifiers a grab must tolerate, every combination of them. */
  const TOGGLED_MODIFIERS: seq<uint32> := [
    0, Keys.CAPS_LOCK, Keys.NUM_LOCK, Keys.SCROLL_LOCK,
    Or(Keys.CAPS_LOCK, Keys.NUM_LOCK), Or(Keys.CAPS_LOCK, Keys.SCROLL_LOCK),
    Or(Keys.NUM_LOCK, Keys.SCROLL_LOCK), Or(Or(Keys.CAPS_LOCK, Keys.NUM_LOCK), Keys.SCROLL_LOCK)
  ]

  /** The lock modifiers selected by three switches. */
  function LockCombination(caps: bool, num: bool, scroll: bool): uint32 {
    (if caps then Keys.CAPS_LOCK else 0) + (if num then Keys.NUM_LOCK else 0) + (if scroll then Keys.SCROLL_LOCK else 0)
  }

  /** The lock bits are distinct, so or-ing them adds them. */
  lemma LockMasksAreDisjoint()
    ensures Or(Keys.CAPS_LOCK, Keys.NUM_LOCK) == 18
    ensures Or(Keys.CAPS_LOCK, Keys.SCROLL_LOCK) == 130
    ensures Or(Keys.NUM_LOCK, Keys.SCROLL_LOCK) == 144
    ensures Or(18, Keys.SCROLL_LOCK) == 146
  {
  }

  /** The table holds each subset of {CapsLock, NumLock, ScrollLock} exactly
      once and nothing else. */
  lemma ToggledModifiersAreLockSubsets()
    ensures |TOGGLED_MODIFIERS| == 8
    ensures forall i, j :: 0 <= i < j < |TOGGLED_MODIFIERS| ==> TOGGLED_MODIFIERS[i] != TOGGLED_MODIFIERS[j]
    ensures forall caps: bool, num: bool, scroll: bool :: LockCombination(caps, num, scroll) in TOGGLED_MODIFIERS
    ensures forall i :: 0 <= i < |TOGGLED_MODIFIERS| ==>
              exists caps: bool, num: bool, scroll: bool :: TOGGLED_MODIFIERS[i] == LockCombination(caps, num, scroll)
  {
    LockMasksAreDisjoint();
    var table := TOGGLED_MODIFIERS;
    assert table == [0, 2, 16, 128, 18, 130, 144, 146];
    forall caps: bool, num: bool, scroll: bool
      ensures LockCombination(caps, num, scroll) in table
    {
      var i := if caps && num && scroll then 7
               else if num && scroll then 6
               else if caps && scroll then 5
               else if caps && num then 4
               else if scroll then 3
               else if num then 2
               else if caps then 1
               else 0;
      assert table[i] == LockCombination(caps, num, scroll);
    }
    forall i | 0 <= i < |table|
      ensures exists caps: bool, num: bool, scroll: bool :: table[i] == LockCombination(caps, num, scroll)
    {
      var caps := i == 1 || i == 4 || i == 5 || i == 7;
      var num := i == 2 || i == 4 || i == 6 || i == 7;
      var scroll := i == 3 || i == 5 || i == 6 || i == 7;
      assert table[i] == LockCombination(caps, num, scroll);
    }
  }

  /** `key.modifier | toggled_modifier`, passed on as a 16-bit mask. */
  function CombinedModifier(modifier: uint32, toggled: uint32): uint16 {
    Or(modifier, toggled) % 0x1_0000
  }

  /** A 32-bit keysym passed where an 8-bit keycode is expected. */
  function KeysymAsKeycode(keySymbol: uint32): uint8 {
    keySymbol % 0x100
  }

  function Grab(root: Window, modifier: uint16, key: uint8): Request {
    XServer.GrabKey(true, root, modifier, key, GRAB_MODE_ASYNC, GRAB_MODE_ASYNC)
  }

  /** What `GrabKey` sends: the grab on every root, in screen order. */
  function GrabKeyRequests(screens: seq<Screen>, modifier: uint16, key: uint8): (rs: seq<Request>)
    ensures |rs| == |screens|
    ensures forall i :: 0 <= i < |screens| ==> rs[i] == Grab(screens[i].root, modifier, key)
    decreases |screens|
  {
    if screens == [] then []
    else
      var n := |screens| - 1;
      GrabKeyRequests(screens[..n], modifier, key) + [Grab(screens[n].root, modifier, key)]
  }

  /** The grabs for one key under each of the given lock combinations. */
  function ToggledGrabs(screens: seq<Screen>, modifier: uint32, toggled: seq<uint32>, key: uint8): seq<Request>
    decreases |toggled|
  {
    if toggled == [] then []
    else
      var n := |toggled| - 1;
      ToggledGrabs(screens, modifier, toggled[..n], key) + GrabKeyRequests(screens, CombinedModifier(modifier, toggled[n]), key)
  }

  /** The grabs for one binding, one keycode at a time. */
  function KeycodeGrabs(screens: seq<Screen>, modifier: uint32, toggled: seq<uint32>, codes: seq<uint8>): seq<Request>
    decreases |codes|
  {
    if codes == [] then []
    else
      var n := |codes| - 1;
      KeycodeGrabs(screens, modifier, toggled, codes[..n]) + ToggledGrabs(screens, modifier, toggled, codes[n])
  }

  /** The same loop as the source writes it: for each keycode it grabs the
      binding's keysym, cut down to eight bits, instead of the keycode. */
  function KeycodeGrabsAsWritten(screens: seq<Screen>, binding: Keys.Key, toggled: seq<uint32>, codes: seq<uint8>): seq<Request>
    decreases |codes|
  {
    if codes == [] then []
    else
      var n := |codes| - 1;
      KeycodeGrabsAsWritten(screens, binding, toggled, codes[..n])
        + ToggledGrabs(screens, binding.modifier, toggled, KeysymAsKeycode(binding.keySymbol))
  }

  /** The prefix of a keycode array before its first `NO_SYMBOL`. */
  function SentinelPrefix(table: seq<uint8>): (r: seq<uint8>)
    ensures |r| <= |table| && r == table[..|r|]
    ensures NO_SYMBOL !in r
    ensures |r| < |table| ==> table[|r|] == NO_SYMBOL
    decreases |table|
  {
    if table == [] || table[0] == NO_SYMBOL then []
    else [table[0]] + SentinelPrefix(table[1..])
  }

  lemma SentinelPrefixUnique(table: seq<uint8>, n: nat)
    requires n < |table| && table[n] == NO_SYMBOL && NO_SYMBOL !in table[..n]
    ensures SentinelPrefix(table) == table[..n]
  {

  }

  /** The grabs for the bindings, in table order; `tables[j]` is the keycode
      array for `bindings[j]`'s keysym. */
  function BindingGrabs(screens: seq<Screen>, toggled: seq<uint32>, bindings: seq<Keys.Key>, tables: seq<seq<uint8>>): seq<Request>
    requires |tables| == |bindings|
    decreases |bindings|
  {
    if bindings == [] then []
    else
      var n := |bindings| - 1;
      BindingGrabs(screens, toggled, bindings[..n], tables[..n]) + KeycodeGrabs(screens, bindings[n].modifier, toggled, SentinelPrefix(tables[n]))
  }

  /** What `RegisterKeybindings` sends: for each of `roots`, drop every key
      grab on it, then grab every binding on all the screens. */
  function RegisterRequests(screens: seq<Screen>, roots: seq<Screen>, toggled: seq<uint32>,
                            bindings: seq<Keys.Key>, tables: seq<seq<uint8>>): seq<Request>
    requires |tables| == |bindings|
    decreases |roots|
  {
    if roots == [] then []
    else
      var n := |roots| - 1;
      RegisterRequests(screens, roots[..n], toggled, bindings, tables)
        + [UngrabKey(GRAB_ANY, roots[n].root, MOD_MASK_ANY)] + BindingGrabs(screens, toggled, bindings, tables)
  }

  /** The grabs for the bindings as the source sends them: for each keycode
      of a binding's keysym, the toggled grabs of the truncated keysym. */
  function BindingGrabsAsWritten(screens: seq<Screen>, toggled: seq<uint32>, bindings: seq<Keys.Key>, tables: seq<seq<uint8>>): seq<Request>
    requires |tables| == |bindings|
    decreases |bindings|
  {
    if bindings == [] then []
    else
      var n := |bindings| - 1;
      BindingGrabsAsWritten(screens, toggled, bindings[..n], tables[..n])
        + KeycodeGrabsAsWritten(screens, bindings[n], toggled, SentinelPrefix(tables[n]))
  }

  /** What `RegisterKeybindings` sends as written: for each of `roots`, drop
      every key grab on it, then send the as-written grabs of every binding
      on all the screens. */
  function RegisterRequestsAsWritten(screens: seq<Screen>, roots: seq<Screen>, toggled: seq<uint32>,
                                     bindings: seq<Keys.Key>, tables: seq<seq<uint8>>): seq<Request>
    requires |tables| == |bindings|
    decreases |roots|
  {
    if roots == [] then []
    else
      var n := |roots| - 1;
      RegisterRequestsAsWritten(screens, roots[..n], toggled, bindings, tables)
        + [UngrabKey(GRAB_ANY, roots[n].root, MOD_MASK_ANY)] + BindingGrabsAsWritten(screens, toggled, bindings, tables)
  }

  lemma {:induction false} ToggledGrabsHas(screens: seq<Screen>, modifier: uint32, toggled: seq<uint32>, key: uint8, t: nat, s: nat)
    requires t < |toggled| && s < |screens|
    ensures Grab(screens[s].root, CombinedModifier(modifier, toggled[t]), key) in ToggledGrabs(screens, modifier, toggled, key)
    decreases |toggled|
  {
    var n := |toggled| - 1;
    var block := GrabKeyRequests(screens, CombinedModifier(modifier, toggled[n]), key);
    assert ToggledGrabs(screens, modifier, toggled, key) == ToggledGrabs(screens, modifier, toggled[..n], key) + block;
    if t == n {
      assert block[s] == Grab(screens[s].root, CombinedModifier(modifier, toggled[t]), key);
    } else {
      assert toggled[..n][t] == toggled[t];
      ToggledGrabsHas(screens, modifier, toggled[..n], key, t, s);
    }
  }

  /** Each grab for a key is on a root, with one of the lock combinations. */
  lemma {:induction false} ToggledGrabsShape(screens: seq<Screen>, modifier: uint32, toggled: seq<uint32>, key: uint8, r: Request)
    requires r in ToggledGrabs(screens, modifier, toggled, key)
    ensures r.GrabKey? && r.key == key && IsRoot(screens, r.grabWindow)
    ensures exists t :: 0 <= t < |toggled| && r.modifiers == CombinedModifier(modifier, toggled[t])
    decreases |toggled|
  {
    var n := |toggled| - 1;
    var prefix := toggled[..n];
    assert ToggledGrabs(screens, modifier, toggled, key)
        == ToggledGrabs(screens, modifier, prefix, key) + GrabKeyRequests(screens, CombinedModifier(modifier, toggled[n]), key);
    if r in ToggledGrabs(screens, modifier, prefix, key) {
      ToggledGrabsShape(screens, modifier, prefix, key, r);
      var t :| 0 <= t < |prefix| && r.modifiers == CombinedModifier(modifier, prefix[t]);
      assert toggled[t] == prefix[t];
    } else {
      var rs := GrabKeyRequests(screens, CombinedModifier(modifier, toggled[n]), key);
      var i :| 0 <= i < |rs| && rs[i] == r;
      assert screens[i].root == r.grabWindow;
    }
  }

  lemma {:induction false} KeycodeGrabsHas(screens: seq<Screen>, modifier: uint32, toggled: seq<uint32>, codes: seq<uint8>,
                                           k: nat, t: nat, s: nat)
    requires k < |codes| && t < |toggled| && s < |screens|
    ensures Grab(screens[s].root, CombinedModifier(modifier, toggled[t]), codes[k]) in KeycodeGrabs(screens, modifier, toggled, codes)
    decreases |codes|
  {
    var n := |codes| - 1;
    assert KeycodeGrabs(screens, modifier, toggled, codes)
        == KeycodeGrabs(screens, modifier, toggled, codes[..n]) + ToggledGrabs(screens, modifier, toggled, codes[n]);
    if k == n {
      ToggledGrabsHas(screens, modifier, toggled, codes[k], t, s);
    } else {
      assert codes[..n][k] == codes[k];
      KeycodeGrabsHas(screens, modifier, toggled, codes[..n], k, t, s);
    }
  }

  /** Every grab of the corrected loop names one of the binding's keycodes. */
  lemma {:induction false} KeycodeGrabsShape(screens: seq<Screen>, modifier: uint32, toggled: seq<uint32>, codes: seq<uint8>, r: Request)
    requires r in KeycodeGrabs(screens, modifier, toggled, codes)
    ensures r.GrabKey? && r.key in codes && IsRoot(screens, r.grabWindow)
    decreases |codes|
  {
    var n := |codes| - 1;
    assert KeycodeGrabs(screens, modifier, toggled, codes)
        == KeycodeGrabs(screens, modifier, toggled, codes[..n]) + ToggledGrabs(screens, modifier, toggled, codes[n]);
    if r in KeycodeGrabs(screens, modifier, toggled, codes[..n]) {
      KeycodeGrabsShape(screens, modifier, toggled, codes[..n], r);
    } else {
      ToggledGrabsShape(screens, modifier, toggled, codes[n], r);
    }
  }

  /** Every grab of the loop as written names the truncated keysym, whatever
      keycodes the keysym has. */
  lemma {:induction false} AsWrittenGrabsTruncatedKeysym(screens: seq<Screen>, binding: Keys.Key, toggled: seq<uint32>,
                                                         codes: seq<uint8>, r: Request)
    requires r in KeycodeGrabsAsWritten(screens, binding, toggled, codes)
    ensures r.GrabKey? && r.key == KeysymAsKeycode(binding.keySymbol)
    decreases |codes|
  {
    var n := |codes| - 1;
    var key := KeysymAsKeycode(binding.keySymbol);
    assert KeycodeGrabsAsWritten(screens, binding, toggled, codes)
        == KeycodeGrabsAsWritten(screens, binding, toggled, codes[..n]) + ToggledGrabs(screens, binding.modifier, toggled, key);
    if r in KeycodeGrabsAsWritten(screens, binding, toggled, codes[..n]) {
      AsWrittenGrabsTruncatedKeysym(screens, binding, toggled, codes[..n], r);
    } else {
      ToggledGrabsShape(screens, binding.modifier, toggled, KeysymAsKeycode(binding.keySymbol), r);
    }
  }

  /** Alt+Right where the Right arrow has keycode 114, on a single screen:
      the corrected loop grabs keycode 114, the loop as written grabs only
      keycode 0x53, the low byte of the keysym 0xff53. */
  lemma AsWrittenMissesTheKeycode(root: Window, toggled: seq<uint32>)
    requires |toggled| > 0
    ensures Grab(root, CombinedModifier(Keys.ALT, toggled[0]), 114) in KeycodeGrabs([Screen(root)], Keys.ALT, toggled, [114])
    ensures Grab(root, CombinedModifier(Keys.ALT, toggled[0]), 114) !in
              KeycodeGrabsAsWritten([Screen(root)], Keys.Key(Keys.ALT, Keys.RIGHT), toggled, [114])
  {
    KeycodeGrabsHas([Screen(root)], Keys.ALT, toggled, [114], 0, 0, 0);
    var r := Grab(root, CombinedModifier(Keys.ALT, toggled[0]), 114);
    if r in KeycodeGrabsAsWritten([Screen(root)], Keys.Key(Keys.ALT, Keys.RIGHT), toggled, [114]) {
      AsWrittenGrabsTruncatedKeysym([Screen(root)], Keys.Key(Keys.ALT, Keys.RIGHT), toggled, [114], r);
      assert false;
    }
  }

  lemma {:induction false} BindingGrabsHas(screens: seq<Screen>, toggled: seq<uint32>, bindings: seq<Keys.Key>,
                                           tables: seq<seq<uint8>>, j: nat, k: nat, t: nat, s: nat)
    requires |tables| == |bindings| && j < |bindings| && k < |SentinelPrefix(tables[j])|
    requires t < |toggled| && s < |screens|
    ensures Grab(screens[s].root, CombinedModifier(bindings[j].modifier, toggled[t]), SentinelPrefix(tables[j])[k])
              in BindingGrabs(screens, toggled, bindings, tables)
    decreases |bindings|
  {
    var n := |bindings| - 1;
    var codes := SentinelPrefix(tables[j]);
    assert BindingGrabs(screens, toggled, bindings, tables)
        == BindingGrabs(screens, toggled, bindings[..n], tables[..n]) + KeycodeGrabs(screens, bindings[n].modifier, toggled, SentinelPrefix(tables[n]));
    if j == n {
      KeycodeGrabsHas(screens, bindings[j].modifier, toggled, codes, k, t, s);
    } else {
      assert bindings[..n][j] == bindings[j];
      assert tables[..n][j] == tables[j];
      BindingGrabsHas(screens, toggled, bindings[..n], tables[..n], j, k, t, s);
    }
  }

  /** With at least one screen, every binding is grabbed on every root under
      every lock combination, for every keycode of its keysym. */
  lemma RegisterGrabsEveryCombination(screens: seq<Screen>, toggled: seq<uint32>, bindings: seq<Keys.Key>,
                                      tables: seq<seq<uint8>>, j: nat, code: uint8, t: nat, s: nat)
    requires |tables| == |bindings| && j < |bindings| && code in SentinelPrefix(tables[j])
    requires t < |toggled| && s < |screens|
    ensures Grab(screens[s].root, CombinedModifier(bindings[j].modifier, toggled[t]), code)
              in RegisterRequests(screens, screens, toggled, bindings, tables)
  {
    var k :| 0 <= k < |SentinelPrefix(tables[j])| && SentinelPrefix(tables[j])[k] == code;
    BindingGrabsHas(screens, toggled, bindings, tables, j, k, t, s);
    var n := |screens| - 1;
    assert RegisterRequests(screens, screens, toggled, bindings, tables)
        == RegisterRequests(screens, screens[..n], toggled, bindings, tables)
           + [UngrabKey(GRAB_ANY, screens[n].root, MOD_MASK_ANY)] + BindingGrabs(screens, toggled, bindings, tables);
  }

  /** A binding whose keysym has at least one keycode is grabbed, as written,
      under its truncated keysym, with every lock combination. */
  lemma {:induction false} KeycodeGrabsAsWrittenHas(screens: seq<Screen>, binding: Keys.Key, toggled: seq<uint32>,
                                                    codes: seq<uint8>, t: nat, s: nat)
    requires |codes| > 0 && t < |toggled| && s < |screens|
    ensures Grab(screens[s].root, CombinedModifier(binding.modifier, toggled[t]), KeysymAsKeycode(binding.keySymbol))
              in KeycodeGrabsAsWritten(screens, binding, toggled, codes)
  {
    var n := |codes| - 1;
    var key := KeysymAsKeycode(binding.keySymbol);
    assert KeycodeGrabsAsWritten(screens, binding, toggled, codes)
        == KeycodeGrabsAsWritten(screens, binding, toggled, codes[..n]) + ToggledGrabs(screens, binding.modifier, toggled, key);
    ToggledGrabsHas(screens, binding.modifier, toggled, key, t, s);
  }

  /** `n` copies of `block`, one after the other. */
  function Repeated(block: seq<Request>, n: nat): (r: seq<Request>)
    ensures n == 0 ==> r == []
    decreases n
  {
    if n == 0 then [] else Repeated(block, n - 1) + block
  }

  /** As written, a keysym's block of toggled grabs is sent once per keycode
      of the keysym, always the same block, and not at all when the keysym
      has no keycode. */
  lemma {:induction false} KeycodeGrabsAsWrittenRepeats(screens: seq<Screen>, binding: Keys.Key, toggled: seq<uint32>, codes: seq<uint8>)
    ensures KeycodeGrabsAsWritten(screens, binding, toggled, codes)
              == Repeated(ToggledGrabs(screens, binding.modifier, toggled, KeysymAsKeycode(binding.keySymbol)), |codes|)
    decreases |codes|
  {
    if codes != [] {
      KeycodeGrabsAsWrittenRepeats(screens, binding, toggled, codes[..|codes| - 1]);
    }
  }

  lemma {:induction false} BindingGrabsAsWrittenHas(screens: seq<Screen>, toggled: seq<uint32>, bindings: seq<Keys.Key>,
                                                    tables: seq<seq<uint8>>, j: nat, t: nat, s: nat)
    requires |tables| == |bindings| && j < |bindings| && |SentinelPrefix(tables[j])| > 0
    requires t < |toggled| && s < |screens|
    ensures Grab(screens[s].root, CombinedModifier(bindings[j].modifier, toggled[t]), KeysymAsKeycode(bindings[j].keySymbol))
              in BindingGrabsAsWritten(screens, toggled, bindings, tables)
    decreases |bindings|
  {
    var n := |bindings| - 1;
    assert BindingGrabsAsWritten(screens, toggled, bindings, tables)
        == BindingGrabsAsWritten(screens, toggled, bindings[..n], tables[..n])
           + KeycodeGrabsAsWritten(screens, bindings[n], toggled, SentinelPrefix(tables[n]));
    if j == n {
      KeycodeGrabsAsWrittenHas(screens, bindings[j], toggled, SentinelPrefix(tables[j]), t, s);
    } else {
      assert bindings[..n][j] == bindings[j];
      assert tables[..n][j] == tables[j];
      BindingGrabsAsWrittenHas(screens, toggled, bindings[..n], tables[..n], j, t, s);
    }
  }

  /** Every grab the bindings send as written is on a root and names the
      truncated keysym of a binding whose keysym has keycodes. */
  lemma {:induction false} BindingGrabsAsWrittenShape(screens: seq<Screen>, toggled: seq<uint32>, bindings: seq<Keys.Key>,
                                                      tables: seq<seq<uint8>>, r: Request)
    requires |tables| == |bindings| && r in BindingGrabsAsWritten(screens, toggled, bindings, tables)
    ensures r.GrabKey? && IsRoot(screens, r.grabWindow)
    ensures exists j :: 0 <= j < |bindings| && |SentinelPrefix(tables[j])| > 0 && r.key == KeysymAsKeycode(bindings[j].keySymbol)
    decreases |bindings|
  {
    var n := |bindings| - 1;
    var last := KeycodeGrabsAsWritten(screens, bindings[n], toggled, SentinelPrefix(tables[n]));
    assert BindingGrabsAsWritten(screens, toggled, bindings, tables)
        == BindingGrabsAsWritten(screens, toggled, bindings[..n], tables[..n]) + last;
    if r in BindingGrabsAsWritten(screens, toggled, bindings[..n], tables[..n]) {
      BindingGrabsAsWrittenShape(screens, toggled, bindings[..n], tables[..n], r);
      var j :| 0 <= j < n && |SentinelPrefix(tables[..n][j])| > 0 && r.key == KeysymAsKeycode(bindings[..n][j].keySymbol);
      assert bindings[..n][j] == bindings[j] && tables[..n][j] == tables[j];
    } else {
      AsWrittenGrabsTruncatedKeysym(screens, bindings[n], toggled, SentinelPrefix(tables[n]), r);
      AsWrittenGrabsOnRoots(screens, bindings[n], toggled, SentinelPrefix(tables[n]), r);
      assert |SentinelPrefix(tables[n])| > 0;
    }
  }

  lemma {:induction false} AsWrittenGrabsOnRoots(screens: seq<Screen>, binding: Keys.Key, toggled: seq<uint32>, codes: seq<uint8>, r: Request)
    requires r in KeycodeGrabsAsWritten(screens, binding, toggled, codes)
    ensures r.GrabKey? && IsRoot(screens, r.grabWindow)
    decreases |codes|
  {
    var n := |codes| - 1;
    var key := KeysymAsKeycode(binding.keySymbol);
    assert KeycodeGrabsAsWritten(screens, binding, toggled, codes)
        == KeycodeGrabsAsWritten(screens, binding, toggled, codes[..n]) + ToggledGrabs(screens, binding.modifier, toggled, key);
    if r in KeycodeGrabsAsWritten(screens, binding, toggled, codes[..n]) {
      AsWrittenGrabsOnRoots(screens, binding, toggled, codes[..n], r);
    } else {
      ToggledGrabsShape(screens, binding.modifier, toggled, key, r);
    }
  }

  /** Registration as written: every root loses its old key grabs, and every
      binding whose keysym has a keycode is grabbed on every root, under every
      lock combination, by the low byte of its keysym. */
  lemma RegisterAsWrittenGrabsTruncatedKeysyms(screens: seq<Screen>, toggled: seq<uint32>, bindings: seq<Keys.Key>,
                                               tables: seq<seq<uint8>>, j: nat, t: nat, s: nat)
    requires |tables| == |bindings| && j < |bindings| && |SentinelPrefix(tables[j])| > 0
    requires t < |toggled| && s < |screens|
    ensures UngrabKey(GRAB_ANY, screens[s].root, MOD_MASK_ANY) in RegisterRequestsAsWritten(screens, screens, toggled, bindings, tables)
    ensures Grab(screens[s].root, CombinedModifier(bindings[j].modifier, toggled[t]), KeysymAsKeycode(bindings[j].keySymbol))
              in RegisterRequestsAsWritten(screens, screens, toggled, bindings, tables)
  {
    BindingGrabsAsWrittenHas(screens, toggled, bindings, tables, j, t, s);
    RegisterAsWrittenUngrabs(screens, screens, toggled, bindings, tables, s);
    var n := |screens| - 1;
    assert RegisterRequestsAsWritten(screens, screens, toggled, bindings, tables)
        == RegisterRequestsAsWritten(screens, screens[..n], toggled, bindings, tables)
           + [UngrabKey(GRAB_ANY, screens[n].root, MOD_MASK_ANY)] + BindingGrabsAsWritten(screens, toggled, bindings, tables);
  }

  lemma {:induction false} RegisterAsWrittenUngrabs(screens: seq<Screen>, roots: seq<Screen>, toggled: seq<uint32>,
                                                    bindings: seq<Keys.Key>, tables: seq<seq<uint8>>, s: nat)
    requires |tables| == |bindings| && s < |roots|
    ensures UngrabKey(GRAB_ANY, roots[s].root, MOD_MASK_ANY) in RegisterRequestsAsWritten(screens, roots, toggled, bindings, tables)
    decreases |roots|
  {
    var n := |roots| - 1;
    var ungrab := UngrabKey(GRAB_ANY, roots[n].root, MOD_MASK_ANY);
    var prefix := RegisterRequestsAsWritten(screens, roots[..n], toggled, bindings, tables);
    assert RegisterRequestsAsWritten(screens, roots, toggled, bindings, tables)
        == prefix + [ungrab] + BindingGrabsAsWritten(screens, toggled, bindings, tables);
    if s < n {
      assert roots[..n][s] == roots[s];
      RegisterAsWrittenUngrabs(screens, roots[..n], toggled, bindings, tables, s);
    } else {
      assert (prefix + [ungrab])[|prefix|] == ungrab;
    }
  }

  /** Every request registration sends as written is an ungrab of one of the
      roots or a grab on a root of a binding's truncated keysym; no keycode
      from the keycode tables is ever named unless it equals such a byte. */
  lemma {:induction false} RegisterAsWrittenShape(screens: seq<Screen>, roots: seq<Screen>, toggled: seq<uint32>,
                                                  bindings: seq<Keys.Key>, tables: seq<seq<uint8>>, r: Request)
    requires |tables| == |bindings| && r in RegisterRequestsAsWritten(screens, roots, toggled, bindings, tables)
    ensures r.UngrabKey? ==> r.key == GRAB_ANY && r.modifiers == MOD_MASK_ANY && IsRoot(roots, r.grabWindow)
    ensures !r.UngrabKey? ==>
              r.GrabKey? && IsRoot(screens, r.grabWindow) &&
              exists j :: 0 <= j < |bindings| && |SentinelPrefix(tables[j])| > 0 && r.key == KeysymAsKeycode(bindings[j].keySymbol)
    decreases |roots|
  {
    var n := |roots| - 1;
    var ungrab := UngrabKey(GRAB_ANY, roots[n].root, MOD_MASK_ANY);
    var prefix := RegisterRequestsAsWritten(screens, roots[..n], toggled, bindings, tables);
    assert RegisterRequestsAsWritten(screens, roots, toggled, bindings, tables)
        == prefix + [ungrab] + BindingGrabsAsWritten(screens, toggled, bindings, tables);
    if r in prefix {
      RegisterAsWrittenShape(screens, roots[..n], toggled, bindings, tables, r);
      if r.UngrabKey? {
        var i :| 0 <= i < n && roots[..n][i].root == r.grabWindow;
        assert roots[i].root == r.grabWindow;
      }
    } else if r == ungrab {
      assert roots[n].root == r.grabWindow;
    } else {
      BindingGrabsAsWrittenShape(screens, toggled, bindings, tables, r);
    }
  }

  // ------------------------------------------- one loop iteration at a time

  lemma SubscribeSnoc(screens: seq<Screen>, i: nat)
    requires i < |screens|
    ensures SubscribeRequests(screens[..i + 1])
              == SubscribeRequests(screens[..i]) + [ChangeWindowAttributes(screens[i].root, CW_EVENT_MASK, [WM_EVENT_MASK])]
  {
    assert screens[..i + 1][..i] == screens[..i];
  }

  lemma GrabKeySnoc(screens: seq<Screen>, modifier: uint16, key: uint8, i: nat)
    requires i < |screens|
    ensures GrabKeyRequests(screens[..i + 1], modifier, key)
              == GrabKeyRequests(screens[..i], modifier, key) + [Grab(screens[i].root, modifier, key)]
  {
    assert screens[..i + 1][..i] == screens[..i];
  }

  lemma ToggledGrabsSnoc(screens: seq<Screen>, modifier: uint32, toggled: seq<uint32>, key: uint8, t: nat)
    requires t < |toggled|
    ensures ToggledGrabs(screens, modifier, toggled[..t + 1], key)
              == ToggledGrabs(screens, modifier, toggled[..t], key) + GrabKeyRequests(screens, CombinedModifier(modifier, toggled[t]), key)
  {
    assert toggled[..t + 1][..t] == toggled[..t];
  }

  lemma KeycodeGrabsAsWrittenSnoc(screens: seq<Screen>, binding: Keys.Key, toggled: seq<uint32>, codes: seq<uint8>, k: nat)
    requires k < |codes|
    ensures KeycodeGrabsAsWritten(screens, binding, toggled, codes[..k + 1])
              == KeycodeGrabsAsWritten(screens, binding, toggled, codes[..k])
                 + ToggledGrabs(screens, binding.modifier, toggled, KeysymAsKeycode(binding.keySymbol))
  {
    assert codes[..k + 1][..k] == codes[..k];
  }

  lemma BindingGrabsAsWrittenSnoc(screens: seq<Screen>, toggled: seq<uint32>, bindings: seq<Keys.Key>, tables: seq<seq<uint8>>, j: nat)
    requires |tables| == |bindings| && j < |bindings|
    ensures BindingGrabsAsWritten(screens, toggled, bindings[..j + 1], tables[..j + 1])
              == BindingGrabsAsWritten(screens, toggled, bindings[..j], tables[..j])
                 + KeycodeGrabsAsWritten(screens, bindings[j], toggled, SentinelPrefix(tables[j]))
  {
    assert bindings[..j + 1][..j] == bindings[..j];
    assert tables[..j + 1][..j] == tables[..j];
  }

  lemma RegisterAsWrittenSnoc(screens: seq<Screen>, roots: seq<Screen>, toggled: seq<uint32>,
                              bindings: seq<Keys.Key>, tables: seq<seq<uint8>>, s: nat)
    requires |tables| == |bindings| && s < |roots|
    ensures RegisterRequestsAsWritten(screens, roots[..s + 1], toggled, bindings, tables)
              == RegisterRequestsAsWritten(screens, roots[..s], toggled, bindings, tables)
                 + ([UngrabKey(GRAB_ANY, roots[s].root, MOD_MASK_ANY)] + BindingGrabsAsWritten(screens, toggled, bindings, tables))
  {
    assert roots[..s + 1][..s] == roots[..s];
  }

  lemma AttributesKnownPrefix(trees: seq<Option<seq<Window>>>, attrs: map<Window, WindowAttributes>, s: nat)
    requires AttributesKnown(trees, attrs) && s <= |trees|
    ensures AttributesKnown(trees[..s], attrs)
  {
  }

  lemma MappedWindowsSnoc(trees: seq<Option<seq<Window>>>, attrs: map<Window, WindowAttributes>, s: nat)
    requires AttributesKnown(trees, attrs) && s < |trees|
    ensures AttributesKnown(trees[..s], attrs) && AttributesKnown(trees[..s + 1], attrs)
    ensures trees[s].Some? ==> forall i :: 0 <= i < |Reverse(trees[s].value)| ==> Reverse(trees[s].value)[i] in attrs
    ensures MappedWindows(trees[..s + 1], attrs)
              == MappedWindows(trees[..s], attrs)
                 + (if trees[s].Some? then AdoptedOnScreen(Reverse(trees[s].value), attrs, s) else [])
  {
    AttributesKnownPrefix(trees, attrs, s);
    AttributesKnownPrefix(trees, attrs, s + 1);
    assert trees[..s + 1][..s] == trees[..s];
  }

  lemma AdoptedSnoc(children: seq<Window>, attrs: map<Window, WindowAttributes>, screenId: nat, i: nat)
    requires forall k :: 0 <= k < |children| ==> children[k] in attrs
    requires i < |children|
    ensures AdoptedOnScreen(children[..i + 1], attrs, screenId)
              == AdoptedOnScreen(children[..i], attrs, screenId)
                 + (if Adoptable(attrs[children[i]]) then [(children[i], screenId)] else [])
  {
    assert children[..i + 1][..i] == children[..i];
  }

  // --------------------------------------------------------------- the class

  /** A connection: the fixed list of screens found at start-up. */
  class Connection {
    const screens: seq<Screen>
    /** The lock combinations every binding is grabbed under. */
    const toggledModifiers: seq<uint32>

    constructor (screens: seq<Screen>)
      ensures this.screens == screens
      ensures toggledModifiers == TOGGLED_MODIFIERS
    {
      this.screens := screens;
      toggledModifiers := TOGGLED_MODIFIERS;
    }

    /** Become the window manager on every screen. */
    method SubscribeWMEvents(server: Server)
      modifies server
      ensures server.log == old(server.log) + SubscribeRequests(screens)
      ensures server.props == old(server.props)
    {
      var i := 0;
      while i < |screens|
        invariant 0 <= i <= |screens|
        invariant server.log == old(server.log) + SubscribeRequests(screens[..i])
        invariant server.props == old(server.props)
      {
        var change := ChangeWindowAttributes(screens[i].root, CW_EVENT_MASK, [WM_EVENT_MASK]);
        server.Send(change);
        SubscribeSnoc(screens, i);
        AppendAssoc(old(server.log), SubscribeRequests(screens[..i]), [change]);
        i := i + 1;
      }
      assert screens[..|screens|] == screens;
    }

    /** The windows to adopt at start-up. `trees[s]` is the query-tree reply
        for screen `s` (children bottom first), `attrs` the attributes reply
        of each child. */
    method ListMappedWindows(trees: seq<Option<seq<Window>>>, attrs: map<Window, WindowAttributes>)
      returns (windows: seq<(Window, nat)>)
      requires |trees| == |screens|
      requires AttributesKnown(trees, attrs)
      ensures windows == MappedWindows(trees, attrs)
    {
      windows := [];
      var s := 0;
      while s < |trees|
        invariant 0 <= s <= |trees|
        invariant windows == MappedWindows(trees[..s], attrs)
      {
        MappedWindowsSnoc(trees, attrs, s);
        if trees[s].Some? {
          var adopted := AdoptChildren(trees[s].value, attrs, s);
          windows := windows + adopted;
        }
        s := s + 1;
      }
      assert trees[..|trees|] == trees;
    }

    /** One screen's part of `ListMappedWindows`: reverse the children in
        place, then keep the adoptable ones. */
    method AdoptChildren(children: seq<Window>, attrs: map<Window, WindowAttributes>, screenId: nat)
      returns (adopted: seq<(Window, nat)>)
      requires forall w :: w in children ==> w in attrs
      ensures adopted == AdoptedOnScreen(Reverse(children), attrs, screenId)
    {
      var parents := new Window[|children|](k requires 0 <= k < |children| => children[k]);
      assert parents[..] == children;
      ReverseInPlace(parents);
      var stack := parents[..];
      assert forall k :: 0 <= k < |stack| ==> stack[k] in attrs by {
        forall k | 0 <= k < |stack| ensures stack[k] in attrs {
          assert stack[k] == children[|children| - 1 - k];
        }
      }
      adopted := [];
      var i := 0;
      while i < |stack|
        invariant 0 <= i <= |stack|
        invariant adopted == AdoptedOnScreen(stack[..i], attrs, screenId)
      {
        AdoptedSnoc(stack, attrs, screenId, i);
        var a := attrs[stack[i]];
        if a.mapState == MAP_STATE_VIEWABLE && !a.overrideRedirect {
          adopted := adopted + [(stack[i], screenId)];
        }
        i := i + 1;
      }
      assert stack[..|stack|] == stack;
    }

    /** The focused window if it is a client: `reply` is the input-focus
        reply, `None` when the request failed. */
    method FocusedWindow(reply: Option<Window>) returns (res: Option<Window>)
      ensures res.Some? <==> reply.Some? && reply.value != NONE && !IsRoot(screens, reply.value)
      ensures res.Some? ==> res == reply
    {
      res := None;
      if reply.Some? && reply.value != NONE {
        var focus := reply.value;
        var isRoot := false;
        var i := 0;
        while i < |screens|
          invariant 0 <= i <= |screens|
          invariant !isRoot
          invariant forall k :: 0 <= k < i ==> screens[k].root != focus
        {
          if screens[i].root == focus {
            isRoot := true;
            break;
          }
          i := i + 1;
        }
        if !isRoot {
          res := Some(focus);
        }
      }
    }

    /** The keycodes of a keysym: `table` is the array
        `xcb_key_symbols_get_keycode` returns, which ends with `NO_SYMBOL`. */
    method GetKeyCodes(table: seq<uint8>) returns (codes: seq<uint8>)
      requires NO_SYMBOL in table
      ensures codes == SentinelPrefix(table)
      ensures |codes| < |table| && table[|codes|] == NO_SYMBOL
    {
      var count := 0;
      while table[count] != NO_SYMBOL
        invariant 0 <= count < |table|
        invariant NO_SYMBOL in table[count..]
        invariant NO_SYMBOL !in table[..count]
        decreases |table| - count
      {
        assert table[count..] == [table[count]] + table[count + 1..];
        assert table[..count + 1] == table[..count] + [table[count]];
        count := count + 1;
      }
      codes := table[..count];
      SentinelPrefixUnique(table, count);
    }

    method GrabKey(server: Server, modifier: uint16, key: uint8)
      modifies server
      ensures server.log == old(server.log) + GrabKeyRequests(screens, modifier, key)
      ensures server.props == old(server.props)
    {
      var i := 0;
      while i < |screens|
        invariant 0 <= i <= |screens|
        invariant server.log == old(server.log) + GrabKeyRequests(screens[..i], modifier, key)
        invariant server.props == old(server.props)
      {
        var grab := Grab(screens[i].root, modifier, key);
        server.Send(grab);
        GrabKeySnoc(screens, modifier, key, i);
        AppendAssoc(old(server.log), GrabKeyRequests(screens[..i], modifier, key), [grab]);
        i := i + 1;
      }
      assert screens[..|screens|] == screens;
    }

    /** The grabs for one key under each lock combination. */
    method GrabToggled(server: Server, modifier: uint32, toggled: seq<uint32>, key: uint8)
      modifies server
      ensures server.log == old(server.log) + ToggledGrabs(screens, modifier, toggled, key)
      ensures server.props == old(server.props)
    {
      var t := 0;
      while t < |toggled|
        invariant 0 <= t <= |toggled|
        invariant server.log == old(server.log) + ToggledGrabs(screens, modifier, toggled[..t], key)
        invariant server.props == old(server.props)
      {
        var combined := CombinedModifier(modifier, toggled[t]);
        GrabKey(server, combined, key);
        ToggledGrabsSnoc(screens, modifier, toggled, key, t);
        AppendAssoc(old(server.log), ToggledGrabs(screens, modifier, toggled[..t], key), GrabKeyRequests(screens, combined, key));
        t := t + 1;
      }
      assert toggled[..|toggled|] == toggled;
    }

    /** The grabs for one binding, as the source sends them. */
    method GrabBinding(server: Server, binding: Keys.Key, toggled: seq<uint32>, table: seq<uint8>)
      requires NO_SYMBOL in table
      modifies server
      ensures server.log == old(server.log) + KeycodeGrabsAsWritten(screens, binding, toggled, SentinelPrefix(table))
      ensures server.props == old(server.props)
    {
      var codes := GetKeyCodes(table);
      GrabCodes(server, binding, toggled, codes);
    }

    /** The loop over a keysym's keycodes: each pass grabs the binding's
        keysym, narrowed to a keycode, and never the loop's own keycode. */
    method GrabCodes(server: Server, binding: Keys.Key, toggled: seq<uint32>, codes: seq<uint8>)
      modifies server
      ensures server.log == old(server.log) + KeycodeGrabsAsWritten(screens, binding, toggled, codes)
      ensures server.props == old(server.props)
    {
      var key := KeysymAsKeycode(binding.keySymbol);
      var k := 0;
      while k < |codes|
        invariant 0 <= k <= |codes|
        invariant server.log == old(server.log) + KeycodeGrabsAsWritten(screens, binding, toggled, codes[..k])
        invariant server.props == old(server.props)
      {
        GrabToggled(server, binding.modifier, toggled, key);
        KeycodeGrabsAsWrittenSnoc(screens, binding, toggled, codes, k);
        AppendAssoc(old(server.log), KeycodeGrabsAsWritten(screens, binding, toggled, codes[..k]),
                    ToggledGrabs(screens, binding.modifier, toggled, key));
        k := k + 1;
      }
      assert codes[..|codes|] == codes;
    }

    /** The grabs for each binding in turn. */
    method GrabBindings(server: Server, toggled: seq<uint32>, bindings: seq<Keys.Key>, tables: seq<seq<uint8>>)
      requires |tables| == |bindings|
      requires forall j :: 0 <= j < |tables| ==> NO_SYMBOL in tables[j]
      modifies server
      ensures server.log == old(server.log) + BindingGrabsAsWritten(screens, toggled, bindings, tables)
      ensures server.props == old(server.props)
    {
      var j := 0;
      while j < |bindings|
        invariant 0 <= j <= |bindings|
        invariant server.log == old(server.log) + BindingGrabsAsWritten(screens, toggled, bindings[..j], tables[..j])
        invariant server.props == old(server.props)
      {
        ghost var done := BindingGrabsAsWritten(screens, toggled, bindings[..j], tables[..j]);
        ghost var grabs := KeycodeGrabsAsWritten(screens, bindings[j], toggled, SentinelPrefix(tables[j]));
        GrabBinding(server, bindings[j], toggled, tables[j]);
        BindingGrabsAsWrittenSnoc(screens, toggled, bindings, tables, j);
        AppendAssoc(old(server.log), done, grabs);
        j := j + 1;
      }
      assert bindings[..|bindings|] == bindings;
      assert tables[..|tables|] == tables;
    }

    /** Grab every key binding on every root, tolerating the lock modifiers;
        `tables[j]` is the keycode array of `bindings[j]`'s keysym. */
    method RegisterKeybindings(server: Server, bindings: seq<Keys.Key>, tables: seq<seq<uint8>>)
      requires |tables| == |bindings|
      requires forall j :: 0 <= j < |tables| ==> NO_SYMBOL in tables[j]
      modifies server
      ensures server.log == old(server.log) + RegisterRequestsAsWritten(screens, screens, toggledModifiers, bindings, tables)
      ensures server.props == old(server.props)
    {
      var toggled := toggledModifiers;
      var s := 0;
      while s < |screens|
        invariant 0 <= s <= |screens|
        invariant server.log == old(server.log) + RegisterRequestsAsWritten(screens, screens[..s], toggled, bindings, tables)
        invariant server.props == old(server.props)
      {
        var ungrab := UngrabKey(GRAB_ANY, screens[s].root, MOD_MASK_ANY);
        ghost var before := server.log;
        server.Send(ungrab);
        GrabBindings(server, toggled, bindings, tables);
        AppendAssoc(before, [ungrab], BindingGrabsAsWritten(screens, toggled, bindings, tables));
        RegisterAsWrittenSnoc(screens, screens, toggled, bindings, tables, s);
        AppendAssoc(old(server.log), RegisterRequestsAsWritten(screens, screens[..s], toggled, bindings, tables),
                    [ungrab] + BindingGrabsAsWritten(screens, toggled, bindings, tables));
        s := s + 1;
      }
      assert screens[..|screens|] == screens;
    }
  }
}
