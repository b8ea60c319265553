/** The EWMH/ICCCM support of the window manager (ewmh.h, ewmh.cpp): the
    catalogue of atoms it interns at start-up, the properties it publishes on
    its supporting window and the root, and the per-window state it writes.
    `Ewmh` is immutable once built, so it is a value; its server side effects
    are requests sent on a `Server`. */
module Ewmh {
  import opened Wrappers
  import opened Types
  import opened XServer

  // `XCB_ICCCM_WM_STATE_NORMAL`
  const WM_STATE_NORMAL: uint32 := 1
  // The window manager's name, "unknown_wm", published as _NET_WM_NAME.
  const WM_NAME: string := "unknown_wm"
  // `Property` asks for at most this many 32-bit units of a value.
  const PROPERTY_LONG_LENGTH: nat := 128

  // The 56 atom names interned at start-up, in the order the source lists
  // them (ewmh.cpp:12-67). Written as seven blocks of eight names.
  const Block0: seq<string> := ["_NET_SUPPORTED", "_NET_SUPPORTING_WM_CHECK", "_NET_WM_NAME", "_NET_WM_VISIBLE_NAME", "_NET_WM_MOVERESIZE", "_NET_WM_STATE_STICKY", "_NET_WM_STATE_FULLSCREEN", "_NET_WM_STATE_DEMANDS_ATTENTION"]
  const Block1: seq<string> := ["_NET_WM_STATE_MODAL", "_NET_WM_STATE_HIDDEN", "_NET_WM_STATE_FOCUSED", "_NET_WM_STATE", "_NET_WM_WINDOW_TYPE", "_NET_WM_WINDOW_TYPE_NORMAL", "_NET_WM_WINDOW_TYPE_DOCK", "_NET_WM_WINDOW_TYPE_DIALOG"]
  const Block2: seq<string> := ["_NET_WM_WINDOW_TYPE_UTILITY", "_NET_WM_WINDOW_TYPE_TOOLBAR", "_NET_WM_WINDOW_TYPE_SPLASH", "_NET_WM_WINDOW_TYPE_MENU", "_NET_WM_WINDOW_TYPE_DROPDOWN_MENU", "_NET_WM_WINDOW_TYPE_POPUP_MENU", "_NET_WM_WINDOW_TYPE_TOOLTIP", "_NET_WM_WINDOW_TYPE_NOTIFICATION"]
  const Block3: seq<string> := ["_NET_WM_DESKTOP", "_NET_WM_STRUT_PARTIAL", "_NET_CLIENT_LIST", "_NET_CLIENT_LIST_STACKING", "_NET_CURRENT_DESKTOP", "_NET_NUMBER_OF_DESKTOPS", "_NET_DESKTOP_NAMES", "_NET_DESKTOP_VIEWPORT"]
  const Block4: seq<string> := ["_NET_ACTIVE_WINDOW", "_NET_CLOSE_WINDOW", "_NET_MOVERESIZE_WINDOW", "_NET_WM_USER_TIME", "_NET_STARTUP_ID", "_NET_WORKAREA", "_NET_WM_ICON", "WM_PROTOCOLS"]
  const Block5: seq<string> := ["WM_DELETE_WINDOW", "UTF8_STRING", "WM_STATE", "WM_CLIENT_LEADER", "WM_TAKE_FOCUS", "WM_WINDOW_ROLE", "_NET_REQUEST_FRAME_EXTENTS", "_NET_FRAME_EXTENTS"]
  const Block6: seq<string> := ["_MOTIF_WM_HINTS", "WM_CHANGE_STATE", "_NET_SYSTEM_TRAY_OPCODE", "_NET_SYSTEM_TRAY_COLORS", "_NET_SYSTEM_TRAY_VISUAL", "_NET_SYSTEM_TRAY_ORIENTATION", "_XEMBED_INFO", "MANAGER"]

  const AtomNames: seq<string> := Block0 + Block1 + Block2 + Block3 + Block4 + Block5 + Block6

  /** The position of `name` in `AtomNames`, or -1 when it is not there. */
  function CatalogueIndex(name: string): int {
    match |name|
    case 14 =>
      if name == "_NET_SUPPORTED" then 0 else if name == "WM_WINDOW_ROLE" then 45 else -1
    case 24 =>
      if name == "_NET_SUPPORTING_WM_CHECK" then 1 else if name == "_NET_WM_STATE_FULLSCREEN" then 6 else if name == "_NET_WM_WINDOW_TYPE_DOCK" then 14 else if name == "_NET_WM_WINDOW_TYPE_MENU" then 19 else -1
    case 12 =>
      if name == "_NET_WM_NAME" then 2 else if name == "_NET_WM_ICON" then 38 else if name == "WM_PROTOCOLS" then 39 else if name == "_XEMBED_INFO" then 54 else -1
    case 20 =>
      if name == "_NET_WM_VISIBLE_NAME" then 3 else if name == "_NET_WM_STATE_STICKY" then 5 else if name == "_NET_WM_STATE_HIDDEN" then 9 else if name == "_NET_CURRENT_DESKTOP" then 28 else -1
    case 18 =>
      if name == "_NET_WM_MOVERESIZE" then 4 else if name == "_NET_DESKTOP_NAMES" then 30 else if name == "_NET_ACTIVE_WINDOW" then 32 else if name == "_NET_FRAME_EXTENTS" then 47 else -1
    case 31 =>
      if name == "_NET_WM_STATE_DEMANDS_ATTENTION" then 7 else -1
    case 19 =>
      if name == "_NET_WM_STATE_MODAL" then 8 else if name == "_NET_WM_WINDOW_TYPE" then 12 else -1
    case 21 =>
      if name == "_NET_WM_STATE_FOCUSED" then 10 else if name == "_NET_WM_STRUT_PARTIAL" then 25 else if name == "_NET_DESKTOP_VIEWPORT" then 31 else -1
    case 13 =>
      if name == "_NET_WM_STATE" then 11 else if name == "_NET_WORKAREA" then 37 else if name == "WM_TAKE_FOCUS" then 44 else -1
    case 26 =>
      if name == "_NET_WM_WINDOW_TYPE_NORMAL" then 13 else if name == "_NET_WM_WINDOW_TYPE_DIALOG" then 15 else if name == "_NET_WM_WINDOW_TYPE_SPLASH" then 18 else if name == "_NET_REQUEST_FRAME_EXTENTS" then 46 else -1
    case 27 =>
      if name == "_NET_WM_WINDOW_TYPE_UTILITY" then 16 else if name == "_NET_WM_WINDOW_TYPE_TOOLBAR" then 17 else if name == "_NET_WM_WINDOW_TYPE_TOOLTIP" then 22 else -1
    case 33 =>
      if name == "_NET_WM_WINDOW_TYPE_DROPDOWN_MENU" then 20 else -1
    case 30 =>
      if name == "_NET_WM_WINDOW_TYPE_POPUP_MENU" then 21 else -1
    case 32 =>
      if name == "_NET_WM_WINDOW_TYPE_NOTIFICATION" then 23 else -1
    case 15 =>
      if name == "_NET_WM_DESKTOP" then 24 else if name == "_NET_STARTUP_ID" then 36 else if name == "_MOTIF_WM_HINTS" then 48 else if name == "WM_CHANGE_STATE" then 49 else -1
    case 16 =>
      if name == "_NET_CLIENT_LIST" then 26 else if name == "WM_DELETE_WINDOW" then 40 else if name == "WM_CLIENT_LEADER" then 43 else -1
    case 25 =>
      if name == "_NET_CLIENT_LIST_STACKING" then 27 else -1
    case 23 =>
      if name == "_NET_NUMBER_OF_DESKTOPS" then 29 else if name == "_NET_SYSTEM_TRAY_OPCODE" then 50 else if name == "_NET_SYSTEM_TRAY_COLORS" then 51 else if name == "_NET_SYSTEM_TRAY_VISUAL" then 52 else -1
    case 17 =>
      if name == "_NET_CLOSE_WINDOW" then 33 else if name == "_NET_WM_USER_TIME" then 35 else -1
    case 22 =>
      if name == "_NET_MOVERESIZE_WINDOW" then 34 else -1
    case 11 =>
      if name == "UTF8_STRING" then 41 else -1
    case 8 =>
      if name == "WM_STATE" then 42 else -1
    case 28 =>
      if name == "_NET_SYSTEM_TRAY_ORIENTATION" then 53 else -1
    case 7 =>
      if name == "MANAGER" then 55 else -1
    case _ => -1
  }

  lemma IndexInBlock0(i: int)
    requires 0 <= i < 8
    ensures CatalogueIndex(Block0[i]) == 0 + i
  {
    if i == 0 { }
    else if i == 1 { }
    else if i == 2 { }
    else if i == 3 { }
    else if i == 4 { }
    else if i == 5 { }
    else if i == 6 { }
    else if i == 7 { }
  }

  lemma IndexInBlock1(i: int)
    requires 0 <= i < 8
    ensures CatalogueIndex(Block1[i]) == 8 + i
  {
    if i == 0 { }
    else if i == 1 { }
    else if i == 2 { }
    else if i == 3 { }
    else if i == 4 { }
    else if i == 5 { }
    else if i == 6 { }
    else if i == 7 { }
  }

  lemma IndexInBlock2(i: int)
    requires 0 <= i < 8
    ensures CatalogueIndex(Block2[i]) == 16 + i
  {
    if i == 0 { }
    else if i == 1 { }
    else if i == 2 { }
    else if i == 3 { }
    else if i == 4 { }
    else if i == 5 { }
    else if i == 6 { }
    else if i == 7 { }
  }

  lemma IndexInBlock3(i: int)
    requires 0 <= i < 8
    ensures CatalogueIndex(Block3[i]) == 24 + i
  {
    if i == 0 { }
    else if i == 1 { }
    else if i == 2 { }
    else if i == 3 { }
    else if i == 4 { }
    else if i == 5 { }
    else if i == 6 { }
    else if i == 7 { }
  }

  lemma IndexInBlock4(i: int)
    requires 0 <= i < 8
    ensures CatalogueIndex(Block4[i]) == 32 + i
  {
    if i == 0 { }
    else if i == 1 { }
    else if i == 2 { }
    else if i == 3 { }
    else if i == 4 { }
    else if i == 5 { }
    else if i == 6 { }
    else if i == 7 { }
  }

  lemma IndexInBlock5(i: int)
    requires 0 <= i < 8
    ensures CatalogueIndex(Block5[i]) == 40 + i
  {
    if i == 0 { }
    else if i == 1 { }
    else if i == 2 { }
    else if i == 3 { }
    else if i == 4 { }
    else if i == 5 { }
    else if i == 6 { }
    else if i == 7 { }
  }

  lemma IndexInBlock6(i: int)
    requires 0 <= i < 8
    ensures CatalogueIndex(Block6[i]) == 48 + i
  {
    if i == 0 { }
    else if i == 1 { }
    else if i == 2 { }
    else if i == 3 { }
    else if i == 4 { }
    else if i == 5 { }
    else if i == 6 { }
    else if i == 7 { }
  }

  /** `CatalogueIndex` is the inverse of indexing the catalogue. */
  lemma {:induction false} CatalogueIndexOfName(i: int)
    requires 0 <= i < |AtomNames|
    ensures CatalogueIndex(AtomNames[i]) == i
  {
    if i < 8 { IndexInBlock0(i); }
    else if i < 16 { IndexInBlock1(i - 8); }
    else if i < 24 { IndexInBlock2(i - 16); }
    else if i < 32 { IndexInBlock3(i - 24); }
    else if i < 40 { IndexInBlock4(i - 32); }
    else if i < 48 { IndexInBlock5(i - 40); }
    else { IndexInBlock6(i - 48); }
  }

  /** The catalogue holds 56 pairwise distinct names, so interning them
      builds a map with one entry per successfully interned name. */
  lemma {:induction false} CatalogueDistinct()
    ensures |AtomNames| == 56
    ensures forall i, j :: 0 <= i < j < |AtomNames| ==> AtomNames[i] != AtomNames[j]
  {
    forall i, j | 0 <= i < j < |AtomNames|
      ensures AtomNames[i] != AtomNames[j]
    {
      CatalogueIndexOfName(i);
      CatalogueIndexOfName(j);
    }
  }

  /** The positions of the names the core looks up by name. */
  lemma NamePositions()
    ensures AtomNames[0] == "_NET_SUPPORTED" && AtomNames[1] == "_NET_SUPPORTING_WM_CHECK" && AtomNames[2] == "_NET_WM_NAME"
    ensures AtomNames[10] == "_NET_WM_STATE_FOCUSED" && AtomNames[11] == "_NET_WM_STATE" && AtomNames[32] == "_NET_ACTIVE_WINDOW"
    ensures AtomNames[37] == "_NET_WORKAREA" && AtomNames[41] == "UTF8_STRING" && AtomNames[42] == "WM_STATE"
  {
    assert AtomNames[0] == Block0[0];
    assert AtomNames[1] == Block0[1];
    assert AtomNames[2] == Block0[2];
    assert AtomNames[10] == Block1[2];
    assert AtomNames[11] == Block1[3];
    assert AtomNames[32] == Block4[0];
    assert AtomNames[37] == Block4[5];
    assert AtomNames[41] == Block5[1];
    assert AtomNames[42] == Block5[2];
  }

  /** The reply to each of the 56 InternAtom requests: the atom, or `None`
      when the reply could not be fetched. */
  type InternReplies = r: seq<Option<AtomId>> | |r| == 56
    witness seq(56, _ => None)

  /** The X server interns distinct names to distinct atoms. */
  predicate DistinctAtoms(replies: InternReplies) {
    forall i, j :: 0 <= i < 56 && 0 <= j < 56 && i != j && replies[i].Some? && replies[j].Some? ==>
      replies[i].value != replies[j].value
  }

  /** The `atoms` map after the first `n` replies have been handled by the
      interning loop (ewmh.cpp:75-83). */
  function InternFrom(replies: InternReplies, n: nat): map<string, AtomId>
    requires n <= 56
  {
    if n == 0 then map[]
    else
      var m := InternFrom(replies, n - 1);
      if replies[n - 1].Some? then m[AtomNames[n - 1] := replies[n - 1].value] else m
  }

  /** The `atoms` map built from all the replies. */
  function InternedAtoms(replies: InternReplies): map<string, AtomId> {
    InternFrom(replies, 56)
  }

  /** The `atom_values` array built from the replies: a zero for each name
      whose reply did not arrive. */
  function InternedValues(replies: InternReplies): (v: seq<AtomId>)
    ensures |v| == 56
  {
    seq(56, i requires 0 <= i < 56 => if replies[i].Some? then replies[i].value else NONE)
  }

  /** After `n` replies, a name is in the map exactly when it is among the
      first `n` and its reply arrived, and it maps to that reply's atom. */
  lemma {:induction false} InternFromSpec(replies: InternReplies, n: nat)
    requires n <= 56
    ensures forall i :: 0 <= i < 56 ==>
      (AtomNames[i] in InternFrom(replies, n) <==> i < n && replies[i].Some?) &&
      (AtomNames[i] in InternFrom(replies, n) ==> InternFrom(replies, n)[AtomNames[i]] == replies[i].value)
    ensures forall name :: name in InternFrom(replies, n) ==> name in AtomNames[..n]
  {
    forall i | 0 <= i < 56
      ensures AtomNames[i] in InternFrom(replies, n) <==> i < n && replies[i].Some?
      ensures AtomNames[i] in InternFrom(replies, n) ==> InternFrom(replies, n)[AtomNames[i]] == replies[i].value
    {
      InternFromAt(replies, n, i);
    }
    InternFromKeys(replies, n);
  }

  /** One catalogue name's entry after `n` replies. */
  lemma {:induction false} InternFromAt(replies: InternReplies, n: nat, i: nat)
    requires n <= 56 && i < 56
    ensures AtomNames[i] in InternFrom(replies, n) <==> i < n && replies[i].Some?
    ensures AtomNames[i] in InternFrom(replies, n) ==> InternFrom(replies, n)[AtomNames[i]] == replies[i].value
    decreases n
  {
    if n > 0 {
      InternFromAt(replies, n - 1, i);
      if i != n - 1 {
        CatalogueIndexOfName(i);
        CatalogueIndexOfName(n - 1);
      }
    }
  }

  /** After `n` replies, only the first `n` names can be in the map. */
  lemma {:induction false} InternFromKeys(replies: InternReplies, n: nat)
    requires n <= 56
    ensures forall name :: name in InternFrom(replies, n) ==> name in AtomNames[..n]
    decreases n
  {
    if n > 0 {
      InternFromKeys(replies, n - 1);
      var prefix := AtomNames[..n];
      forall name | name in InternFrom(replies, n)
        ensures name in prefix
      {
        if name == AtomNames[n - 1] {
          assert prefix[n - 1] == name;
        } else {
          assert name in InternFrom(replies, n - 1);
          var k :| 0 <= k < n - 1 && AtomNames[..n - 1][k] == name;
          assert prefix[k] == name;
        }
      }
    }
  }

  /** The interned map: a name of the catalogue is there exactly when its
      reply arrived, with that reply's atom, and nothing else is. */
  lemma {:induction false} InternedAtomsSpec(replies: InternReplies)
    ensures forall i :: 0 <= i < 56 ==>
      (AtomNames[i] in InternedAtoms(replies) <==> replies[i].Some?) &&
      (replies[i].Some? ==> InternedAtoms(replies)[AtomNames[i]] == replies[i].value)
    ensures forall name :: name in InternedAtoms(replies) ==> name in AtomNames
  {
    InternFromSpec(replies, 56);
    assert AtomNames[..56] == AtomNames;
  }

  /** `std::map::operator[]`: the value at `key`, inserting a zero when the
      key is absent. */
  function IndexOrInsert(m: map<string, AtomId>, key: string): (r: (AtomId, map<string, AtomId>))
    ensures key in m ==> r.0 == m[key] && r.1 == m
    ensures key !in m ==> r.0 == NONE && r.1 == m[key := NONE]
  {
    if key in m then (m[key], m) else (NONE, m[key := NONE])
  }

  /** The names `Init` looks up with `operator[]` (ewmh.cpp:92-102). */
  const ReferencedNames: seq<string> :=
    ["_NET_SUPPORTING_WM_CHECK", "_NET_WM_NAME", "UTF8_STRING", "_NET_SUPPORTED", "_NET_WORKAREA"]

  /** The map after the `operator[]` look-ups of `Init`. */
  function WithReferencedNames(m: map<string, AtomId>): map<string, AtomId> {
    InsertAll(m, ReferencedNames)
  }

  function InsertAll(m: map<string, AtomId>, keys: seq<string>): (r: map<string, AtomId>)
    ensures r.Keys == m.Keys + set k | k in keys
    ensures forall k :: k in m ==> r[k] == m[k]
    ensures forall k :: k in r && k !in m ==> r[k] == NONE
    decreases |keys|
  {
    if keys == [] then m else InsertAll(IndexOrInsert(m, keys[0]).1, keys[1..])
  }

  /** The EWMH context (ewmh.h:35-78). `isValid` is false for the default
      value and true for one built by `Init`. `root` stands for the root window
      of `screen_`. */
  datatype Ewmh = Ewmh(isValid: bool, atoms: map<string, AtomId>, ewmhWindow: Window, screenNumber: int, root: Window)

  /** `Ewmh() = default`: not valid, no atoms, no window. */
  function DefaultEwmh(): (e: Ewmh)
    ensures !e.isValid && e.atoms == map[] && e.ewmhWindow == NONE
  {
    Ewmh(false, map[], NONE, 0, NONE)
  }

  /** `Ewmh::Atom`: the atom recorded for `name`, if any. */
  function Atom(e: Ewmh, name: string): (r: Option<AtomId>)
    ensures r.Some? <==> name in e.atoms
    ensures r.Some? ==> r.value == e.atoms[name]
  {
    if name in e.atoms then Some(e.atoms[name]) else None
  }

  /** `Ewmh::Atoms`: the whole atom map. */
  function Atoms(e: Ewmh): map<string, AtomId> {
    e.atoms
  }

  /** `Atom` agrees with `Atoms`: some exactly for its keys, with its values. */
  lemma AtomAgreesWithAtoms(e: Ewmh, name: string)
    ensures Atom(e, name).Some? <==> name in Atoms(e)
    ensures Atom(e, name).Some? ==> Atom(e, name).value == Atoms(e)[name]
  {
  }

  /** Every key of the map `Init` builds is a catalogue name. */
  lemma {:induction false} InitKeysInCatalogue(replies: InternReplies)
    ensures forall name :: name in WithReferencedNames(InternedAtoms(replies)) ==> name in AtomNames
  {
    InternedAtomsSpec(replies);
    NamePositions();
  }

  /** What `Atom` answers after `Init`: the five names the start-up code
      looked up with `operator[]` are always known, as zero when their reply
      did not arrive; every other catalogue name is known exactly when its
      reply arrived. */
  lemma {:induction false} AtomAfterInit(replies: InternReplies, e: Ewmh, i: nat)
    requires e.atoms == WithReferencedNames(InternedAtoms(replies))
    requires i < 56
    ensures AtomNames[i] in ReferencedNames ==> Atom(e, AtomNames[i]) == Some(InternedValues(replies)[i])
    ensures AtomNames[i] !in ReferencedNames ==>
            Atom(e, AtomNames[i]) == (if replies[i].Some? then Some(replies[i].value) else None)
  {
    InternedAtomsSpec(replies);
  }

  /** A default context knows no atom. */
  lemma DefaultHasNoAtoms(name: string)
    ensures Atom(DefaultEwmh(), name) == None
  {
  }

  /** The bytes of an ASCII string, as stored in a format-8 property. */
  function AsciiBytes(s: string): (b: seq<nat>)
    ensures |b| == |s|
    ensures forall i :: 0 <= i < |s| ==> b[i] == s[i] as nat
  {
    seq(|s|, i requires 0 <= i < |s| => s[i] as nat)
  }

  /** The requests `Init` sends after interning (ewmh.cpp:88-102): create the
      supporting window, name both it and the root, publish _NET_SUPPORTED,
      and remove _NET_WORKAREA from the root. */
  function InitRequests(atoms: map<string, AtomId>, values: seq<AtomId>, ewmhWindow: Window, root: Window): (rs: seq<Request>)
    requires forall name :: name in ReferencedNames ==> name in atoms
    ensures |rs| == 7
  {
    var check := atoms["_NET_SUPPORTING_WM_CHECK"];
    var name := atoms["_NET_WM_NAME"];
    var utf8 := atoms["UTF8_STRING"];
    [ CreateWindow(0, ewmhWindow, root, -1, -1, 1, 1, 0, WINDOW_CLASS_INPUT_ONLY, COPY_FROM_PARENT, 0),
      ChangeProperty(Replace, ewmhWindow, check, ATOM_WINDOW, 32, [ewmhWindow as nat]),
      ChangeProperty(Replace, ewmhWindow, name, utf8, 8, AsciiBytes(WM_NAME)),
      ChangeProperty(Replace, root, check, ATOM_WINDOW, 32, [ewmhWindow as nat]),
      ChangeProperty(Replace, root, name, utf8, 8, AsciiBytes(WM_NAME)),
      ChangeProperty(Replace, root, atoms["_NET_SUPPORTED"], ATOM_ATOM, 32, seq(|values|, i requires 0 <= i < |values| => values[i] as nat)),
      DeleteProperty(root, atoms["_NET_WORKAREA"]) ]
  }

  /** The interning loop of `Init` (ewmh.cpp:73-83), one reply per name in
      catalogue order. */
  method InternCatalogue(replies: InternReplies) returns (atoms: map<string, AtomId>, values: seq<AtomId>)
    ensures atoms == InternedAtoms(replies)
    ensures values == InternedValues(replies)
  {
    atoms := map[];
    var atomValues := new AtomId[56](_ => NONE);
    var i := 0;
    while i != 56
      invariant 0 <= i <= 56
      invariant atoms == InternFrom(replies, i)
      invariant forall j :: 0 <= j < 56 ==> atomValues[j] == (if j < i && replies[j].Some? then replies[j].value else NONE)
    {
      if replies[i].None? {
        i := i + 1;
        continue;
      }
      atoms := atoms[AtomNames[i] := replies[i].value];
      atomValues[i] := replies[i].value;
      i := i + 1;
    }
    values := atomValues[..];
  }

  /** `Ewmh::Init`: intern the catalogue, set up the supporting window and the
      root's properties, and return a valid context holding the atom map as
      the look-ups left it. `ewmhWindow` is the id `xcb_generate_id` hands out. */
  method Init(server: Server, replies: InternReplies, screenNumber: int, root: Window, ewmhWindow: Window)
    returns (e: Ewmh)
    modifies server
    ensures e == Ewmh(true, WithReferencedNames(InternedAtoms(replies)), ewmhWindow, screenNumber, root)
    ensures server.log == old(server.log) + InitRequests(e.atoms, InternedValues(replies), ewmhWindow, root)
    ensures server.props == ApplyAll(old(server.props), InitRequests(e.atoms, InternedValues(replies), ewmhWindow, root))
  {
    var atoms, values := InternCatalogue(replies);
    // The operator[] look-ups of ewmh.cpp:92-102 insert zeros for missing names.
    atoms := WithReferencedNames(atoms);
    server.SendAll(InitRequests(atoms, values, ewmhWindow, root));
    e := Ewmh(true, atoms, ewmhWindow, screenNumber, root);
  }

  /** The atoms the look-ups of `Init` find: the interned atom, or the zero
      `operator[]` inserted when the reply did not arrive. */
  lemma {:induction false} ReferencedAtoms(replies: InternReplies)
    ensures var atoms := WithReferencedNames(InternedAtoms(replies));
            var v := InternedValues(replies);
            (forall name :: name in ReferencedNames ==> name in atoms) &&
            atoms["_NET_SUPPORTED"] == v[0] && atoms["_NET_SUPPORTING_WM_CHECK"] == v[1] &&
            atoms["_NET_WM_NAME"] == v[2] && atoms["_NET_WORKAREA"] == v[37] && atoms["UTF8_STRING"] == v[41]
  {
    InternedAtomsSpec(replies);
    NamePositions();
  }

  /** The effect of the `Init` requests for an arbitrary atom map, one
      property at a time: a property the batch writes last with a Replace
      holds what was written, and _NET_WORKAREA is gone. */
  lemma {:induction false} InitWritesCheck(props: PropertyStore, atoms: map<string, AtomId>, values: seq<AtomId>,
                                          ewmhWindow: Window, root: Window)
    requires forall name :: name in ReferencedNames ==> name in atoms
    requires ewmhWindow != root
    requires atoms["_NET_SUPPORTING_WM_CHECK"] != NONE && atoms["_NET_SUPPORTING_WM_CHECK"] != atoms["_NET_WM_NAME"]
    requires atoms["_NET_SUPPORTING_WM_CHECK"] != atoms["_NET_SUPPORTED"] && atoms["_NET_SUPPORTING_WM_CHECK"] != atoms["_NET_WORKAREA"]
    ensures var after := ApplyAll(props, InitRequests(atoms, values, ewmhWindow, root));
            var check := atoms["_NET_SUPPORTING_WM_CHECK"];
            (ewmhWindow, check) in after && after[(ewmhWindow, check)] == Property(ATOM_WINDOW, 32, [ewmhWindow as nat]) &&
            (root, check) in after && after[(root, check)] == Property(ATOM_WINDOW, 32, [ewmhWindow as nat])
  {
    var rs := InitRequests(atoms, values, ewmhWindow, root);
    var check := atoms["_NET_SUPPORTING_WM_CHECK"];
    LastWrite(props, rs, 1, (ewmhWindow, check));
    LastWrite(props, rs, 3, (root, check));
  }

  lemma {:induction false} InitWritesName(props: PropertyStore, atoms: map<string, AtomId>, values: seq<AtomId>,
                                         ewmhWindow: Window, root: Window)
    requires forall name :: name in ReferencedNames ==> name in atoms
    requires ewmhWindow != root
    requires atoms["_NET_WM_NAME"] != NONE && atoms["UTF8_STRING"] != NONE
    requires atoms["_NET_WM_NAME"] != atoms["_NET_SUPPORTED"] && atoms["_NET_WM_NAME"] != atoms["_NET_WORKAREA"]
    ensures var after := ApplyAll(props, InitRequests(atoms, values, ewmhWindow, root));
            var name, p := atoms["_NET_WM_NAME"], Property(atoms["UTF8_STRING"], 8, AsciiBytes(WM_NAME));
            (ewmhWindow, name) in after && after[(ewmhWindow, name)] == p &&
            (root, name) in after && after[(root, name)] == p
  {
    var rs := InitRequests(atoms, values, ewmhWindow, root);
    var name := atoms["_NET_WM_NAME"];
    LastWrite(props, rs, 2, (ewmhWindow, name));
    LastWrite(props, rs, 4, (root, name));
  }

  lemma {:induction false} InitWritesSupported(props: PropertyStore, atoms: map<string, AtomId>, values: seq<AtomId>,
                                              ewmhWindow: Window, root: Window)
    requires forall name :: name in ReferencedNames ==> name in atoms
    requires atoms["_NET_SUPPORTED"] != NONE && atoms["_NET_SUPPORTED"] != atoms["_NET_WORKAREA"]
    ensures var after := ApplyAll(props, InitRequests(atoms, values, ewmhWindow, root));
            var key := (root, atoms["_NET_SUPPORTED"]);
            key in after && after[key] == Property(ATOM_ATOM, 32, seq(|values|, i requires 0 <= i < |values| => values[i] as nat))
  {
    var rs := InitRequests(atoms, values, ewmhWindow, root);
    LastWrite(props, rs, 5, (root, atoms["_NET_SUPPORTED"]));
  }

  lemma {:induction false} InitDeletesWorkarea(props: PropertyStore, atoms: map<string, AtomId>, values: seq<AtomId>,
                                              ewmhWindow: Window, root: Window)
    requires forall name :: name in ReferencedNames ==> name in atoms
    requires atoms["_NET_WORKAREA"] != NONE
    ensures (root, atoms["_NET_WORKAREA"]) !in ApplyAll(props, InitRequests(atoms, values, ewmhWindow, root))
  {
    var rs := InitRequests(atoms, values, ewmhWindow, root);
    LastWrite(props, rs, 6, (root, atoms["_NET_WORKAREA"]));
  }

  /** The supporting window and the root both name the supporting window in
      _NET_SUPPORTING_WM_CHECK, provided that atom was interned. */
  lemma {:induction false} InitSetsSupportingCheck(props: PropertyStore, replies: InternReplies, ewmhWindow: Window, root: Window)
    requires DistinctAtoms(replies) && ewmhWindow != root
    requires replies[1].Some? && replies[1].value != NONE
    ensures var after := ApplyAll(props, InitRequests(WithReferencedNames(InternedAtoms(replies)), InternedValues(replies), ewmhWindow, root));
            var check := replies[1].value;
            (ewmhWindow, check) in after && after[(ewmhWindow, check)] == Property(ATOM_WINDOW, 32, [ewmhWindow as nat]) &&
            (root, check) in after && after[(root, check)] == Property(ATOM_WINDOW, 32, [ewmhWindow as nat])
  {
    ReferencedAtoms(replies);
    var v := InternedValues(replies);
    assert v[2] != v[1] && v[0] != v[1] && v[37] != v[1];
    InitWritesCheck(props, WithReferencedNames(InternedAtoms(replies)), v, ewmhWindow, root);
  }

  /** _NET_WM_NAME reads "unknown_wm" on both windows, typed UTF8_STRING,
      provided both atoms were interned. */
  lemma {:induction false} InitSetsName(props: PropertyStore, replies: InternReplies, ewmhWindow: Window, root: Window)
    requires DistinctAtoms(replies) && ewmhWindow != root
    requires replies[2].Some? && replies[2].value != NONE && replies[41].Some? && replies[41].value != NONE
    ensures var after := ApplyAll(props, InitRequests(WithReferencedNames(InternedAtoms(replies)), InternedValues(replies), ewmhWindow, root));
            var name := replies[2].value;
            var p := Property(replies[41].value, 8, AsciiBytes(WM_NAME));
            (ewmhWindow, name) in after && after[(ewmhWindow, name)] == p &&
            (root, name) in after && after[(root, name)] == p
  {
    ReferencedAtoms(replies);
    var v := InternedValues(replies);
    assert v[0] != v[2] && v[37] != v[2];
    InitWritesName(props, WithReferencedNames(InternedAtoms(replies)), v, ewmhWindow, root);
  }

  /** _NET_SUPPORTED on the root lists the 56 catalogue atoms in catalogue
      order, a zero in place of each that could not be interned. */
  lemma {:induction false} InitPublishesSupported(props: PropertyStore, replies: InternReplies, ewmhWindow: Window, root: Window)
    requires DistinctAtoms(replies) && ewmhWindow != root
    requires replies[0].Some? && replies[0].value != NONE
    ensures var after := ApplyAll(props, InitRequests(WithReferencedNames(InternedAtoms(replies)), InternedValues(replies), ewmhWindow, root));
            var key := (root, replies[0].value);
            key in after && after[key].propType == ATOM_ATOM && after[key].format == 32 && |after[key].data| == 56 &&
            forall i :: 0 <= i < 56 ==> after[key].data[i] == (if replies[i].Some? then replies[i].value as nat else 0)
  {
    ReferencedAtoms(replies);
    var v := InternedValues(replies);
    assert v[37] != v[0];
    InitWritesSupported(props, WithReferencedNames(InternedAtoms(replies)), v, ewmhWindow, root);
  }

  /** The root has no _NET_WORKAREA afterwards, provided that atom was
      interned. */
  lemma {:induction false} InitRemovesWorkarea(props: PropertyStore, replies: InternReplies, ewmhWindow: Window, root: Window)
    requires ewmhWindow != root
    requires replies[37].Some? && replies[37].value != NONE
    ensures var after := ApplyAll(props, InitRequests(WithReferencedNames(InternedAtoms(replies)), InternedValues(replies), ewmhWindow, root));
            (root, replies[37].value) !in after
  {
    ReferencedAtoms(replies);
    InitDeletesWorkarea(props, WithReferencedNames(InternedAtoms(replies)), InternedValues(replies), ewmhWindow, root);
  }

  /** No property of any other window changes. */
  lemma {:induction false} InitTouchesOnlyItsWindows(props: PropertyStore, atoms: map<string, AtomId>, values: seq<AtomId>,
                                                    ewmhWindow: Window, root: Window, key: (Window, AtomId))
    requires forall name :: name in ReferencedNames ==> name in atoms
    requires key.0 != ewmhWindow && key.0 != root
    ensures SameAt(ApplyAll(props, InitRequests(atoms, values, ewmhWindow, root)), props, key)
  {
    ApplyAllFrames(props, InitRequests(atoms, values, ewmhWindow, root), key);
  }

  /** `Ewmh::Property`: read up to 128 units of the property `name` of
      `window`, when the name is known; `None` stands for the null pointer the
      source returns when the name is unknown or the reply carries an error. */
  function GetProperty(e: Ewmh, props: PropertyStore, name: string, window: Window): (r: Option<PropertyReply>)
    requires forall k :: k in props ==> ValidFormat(props[k].format)
    ensures Atom(e, name).None? ==> r.None?
    ensures Atom(e, name).Some? ==> r == ReadProperty(props, window, Atom(e, name).value, PROPERTY_LONG_LENGTH)
    ensures r.Some? ==> ValidAtom(e.atoms[name]) &&
                        r == ReadProperty(props, window, e.atoms[name], PROPERTY_LONG_LENGTH)
  {
    match Atom(e, name)
    case None => None
    case Some(atom) => ReadProperty(props, window, atom, PROPERTY_LONG_LENGTH)
  }

  /** The requests `UpdateCurrentWindow` sends (ewmh.cpp:144-149). */
  function CurrentWindowRequests(e: Ewmh, window: Window): seq<Request> {
    match Atom(e, "_NET_ACTIVE_WINDOW")
    case None => []
    case Some(atom) => [ChangeProperty(Replace, e.root, atom, ATOM_WINDOW, 32, [window as nat])]
  }

  /** `Ewmh::UpdateCurrentWindow`: publish `window` as the root's
      _NET_ACTIVE_WINDOW. */
  method UpdateCurrentWindow(server: Server, e: Ewmh, window: Window)
    modifies server
    ensures server.log == old(server.log) + CurrentWindowRequests(e, window)
    ensures server.props == ApplyAll(old(server.props), CurrentWindowRequests(e, window))
  {
    var atom := Atom(e, "_NET_ACTIVE_WINDOW");
    if atom.Some? {
      server.Send(ChangeProperty(Replace, e.root, atom.value, ATOM_WINDOW, 32, [window as nat]));
    }
  }

  /** After `UpdateCurrentWindow`, reading _NET_ACTIVE_WINDOW on the root
      gives exactly the window, as a single 32-bit WINDOW item; nothing
      is sent when the atom is unknown. */
  lemma {:induction false} CurrentWindowReadsBack(e: Ewmh, props: PropertyStore, window: Window)
    requires forall k :: k in props ==> ValidFormat(props[k].format)
    ensures Atom(e, "_NET_ACTIVE_WINDOW").None? ==> CurrentWindowRequests(e, window) == []
    ensures var after := ApplyAll(props, CurrentWindowRequests(e, window));
            (forall k :: k in after ==> ValidFormat(after[k].format)) &&
            (Atom(e, "_NET_ACTIVE_WINDOW").Some? && ValidAtom(e.atoms["_NET_ACTIVE_WINDOW"]) ==>
              GetProperty(e, after, "_NET_ACTIVE_WINDOW", e.root) == Some(PropertyReply(32, ATOM_WINDOW, 0, [window as nat])))
  {
    var rs := CurrentWindowRequests(e, window);
    if rs != [] {
      ApplyAllSnoc(props, [], rs[0]);
      assert [] + [rs[0]] == rs;
      ApplyPreservesFormats(props, rs[0]);
      var atom := e.atoms["_NET_ACTIVE_WINDOW"];
      if ValidAtom(atom) {
        var after := ApplyAll(props, rs);
        assert after[(e.root, atom)] == Property(ATOM_WINDOW, 32, [window as nat]);
        assert [window as nat][..1] == [window as nat];
      }
    }
  }

  lemma ApplyPreservesFormats(props: PropertyStore, r: Request)
    requires forall k :: k in props ==> ValidFormat(props[k].format)
    ensures forall k :: k in ApplyRequest(props, r) ==> ValidFormat(ApplyRequest(props, r)[k].format)
  {
  }

  lemma {:induction false} ApplyAllPreservesFormats(props: PropertyStore, rs: seq<Request>)
    requires forall k :: k in props ==> ValidFormat(props[k].format)
    ensures forall k :: k in ApplyAll(props, rs) ==> ValidFormat(ApplyAll(props, rs)[k].format)
    decreases |rs|
  {
    if rs != [] {
      ApplyPreservesFormats(props, rs[0]);
      ApplyAllPreservesFormats(ApplyRequest(props, rs[0]), rs[1..]);
    }
  }

  /** The requests `UpdateWindow` sends (ewmh.cpp:151-170): WM_STATE = Normal
      with no icon window, then, for a focused window, _NET_WM_STATE_FOCUSED
      appended to _NET_WM_STATE. */
  function UpdateWindowRequests(e: Ewmh, window: Window, focused: bool): seq<Request> {
    var wmState :=
      match Atom(e, "WM_STATE")
      case None => []
      case Some(atom) => [ChangeProperty(Replace, window, atom, atom, 32, [WM_STATE_NORMAL as nat, NONE as nat])];
    var focus :=
      if !focused then []
      else match (Atom(e, "_NET_WM_STATE_FOCUSED"), Atom(e, "_NET_WM_STATE"))
        case (Some(stateFocused), Some(state)) => [ChangeProperty(Append, window, state, ATOM_ATOM, 32, [stateFocused as nat])]
        case _ => [];
    wmState + focus
  }

  /** `Ewmh::UpdateWindow`. */
  method UpdateWindow(server: Server, e: Ewmh, window: Window, focused: bool)
    modifies server
    ensures server.log == old(server.log) + UpdateWindowRequests(e, window, focused)
    ensures server.props == ApplyAll(old(server.props), UpdateWindowRequests(e, window, focused))
  {
    ghost var sent: seq<Request> := [];
    var wmState := Atom(e, "WM_STATE");
    if wmState.Some? {
      var r := ChangeProperty(Replace, window, wmState.value, wmState.value, 32, [WM_STATE_NORMAL as nat, NONE as nat]);
      server.Send(r);
      ApplyAllSnoc(old(server.props), sent, r);
      sent := sent + [r];
    }
    if focused {
      var stateFocused := Atom(e, "_NET_WM_STATE_FOCUSED");
      if stateFocused.Some? {
        var state := Atom(e, "_NET_WM_STATE");
        if state.Some? {
          var r := ChangeProperty(Append, window, state.value, ATOM_ATOM, 32, [stateFocused.value as nat]);
          server.Send(r);
          ApplyAllSnoc(old(server.props), sent, r);
          sent := sent + [r];
        }
      }
    }
    assert sent == UpdateWindowRequests(e, window, focused);
  }

  /** After `UpdateWindow`, the window's WM_STATE reads Normal with no icon
      window, typed WM_STATE, whenever that atom is a real one. */
  lemma {:induction false} UpdateWindowSetsWmState(e: Ewmh, props: PropertyStore, window: Window, focused: bool)
    requires forall k :: k in props ==> ValidFormat(props[k].format)
    requires "WM_STATE" in e.atoms && ValidAtom(e.atoms["WM_STATE"])
    requires "_NET_WM_STATE" in e.atoms ==> e.atoms["_NET_WM_STATE"] != e.atoms["WM_STATE"]
    ensures var after := ApplyAll(props, UpdateWindowRequests(e, window, focused));
            var wmState := e.atoms["WM_STATE"];
            (forall k :: k in after ==> ValidFormat(after[k].format)) &&
            GetProperty(e, after, "WM_STATE", window) ==
              Some(PropertyReply(32, wmState, 0, [WM_STATE_NORMAL as nat, NONE as nat]))
  {
    var rs := UpdateWindowRequests(e, window, focused);
    var wmState := e.atoms["WM_STATE"];
    LastWrite(props, rs, 0, (window, wmState));
    assert rs[..0] == [];
    ApplyAllPreservesFormats(props, rs);
    assert [WM_STATE_NORMAL as nat, NONE as nat][..2] == [WM_STATE_NORMAL as nat, NONE as nat];
  }

  /** The _NET_WM_STATE list a window has in `props`: empty when absent. */
  function StateList(props: PropertyStore, window: Window, state: AtomId): seq<nat> {
    if (window, state) in props then props[(window, state)].data else []
  }

  /** A list the append can extend: absent, or a 32-bit ATOM list. */
  predicate AtomList(props: PropertyStore, window: Window, state: AtomId) {
    (window, state) in props ==> props[(window, state)].propType == ATOM_ATOM && props[(window, state)].format == 32
  }

  /** A focused update appends _NET_WM_STATE_FOCUSED to the window's
      _NET_WM_STATE list and keeps what was there. */
  lemma {:induction false} FocusedUpdateAppends(e: Ewmh, props: PropertyStore, window: Window)
    requires "_NET_WM_STATE_FOCUSED" in e.atoms && "_NET_WM_STATE" in e.atoms && ValidAtom(e.atoms["_NET_WM_STATE"])
    requires "WM_STATE" in e.atoms ==> e.atoms["_NET_WM_STATE"] != e.atoms["WM_STATE"]
    requires AtomList(props, window, e.atoms["_NET_WM_STATE"])
    ensures var after := ApplyAll(props, UpdateWindowRequests(e, window, true));
            var state := e.atoms["_NET_WM_STATE"];
            (window, state) in after && AtomList(after, window, state) &&
            StateList(after, window, state) == StateList(props, window, state) + [e.atoms["_NET_WM_STATE_FOCUSED"] as nat]
  {
    var rs := UpdateWindowRequests(e, window, true);
    var state := e.atoms["_NET_WM_STATE"];
    var i := |rs| - 1;
    LastWrite(props, rs, i, (window, state));
    assert rs[..i] == [] || rs[..i] == [rs[0]];
    if rs[..i] != [] {
      ApplyAllSnoc(props, [], rs[0]);
      assert [] + [rs[0]] == rs[..i];
    }
  }

  /** `n` copies of `x`. */
  function Copies(x: nat, n: nat): (r: seq<nat>)
    ensures |r| == n && forall i :: 0 <= i < n ==> r[i] == x
  {
    if n == 0 then [] else Copies(x, n - 1) + [x]
  }

  /** The requests of `n` successive updates of the same window. */
  function RepeatRequests(rs: seq<Request>, n: nat): seq<Request> {
    if n == 0 then [] else RepeatRequests(rs, n - 1) + rs
  }

  /** The append is not idempotent: `n` focused updates of the same window
      leave `n` copies of _NET_WM_STATE_FOCUSED at the end of its
      _NET_WM_STATE list. */
  lemma {:induction false} RepeatedFocusAccumulates(e: Ewmh, props: PropertyStore, window: Window, n: nat)
    requires "_NET_WM_STATE_FOCUSED" in e.atoms && "_NET_WM_STATE" in e.atoms && ValidAtom(e.atoms["_NET_WM_STATE"])
    requires "WM_STATE" in e.atoms ==> e.atoms["_NET_WM_STATE"] != e.atoms["WM_STATE"]
    requires AtomList(props, window, e.atoms["_NET_WM_STATE"])
    ensures var after := ApplyAll(props, RepeatRequests(UpdateWindowRequests(e, window, true), n));
            var state := e.atoms["_NET_WM_STATE"];
            AtomList(after, window, state) &&
            StateList(after, window, state) == StateList(props, window, state) + Copies(e.atoms["_NET_WM_STATE_FOCUSED"] as nat, n)
  {
    var state := e.atoms["_NET_WM_STATE"];
    var focusedAtom := e.atoms["_NET_WM_STATE_FOCUSED"] as nat;
    if n == 0 {
      assert StateList(props, window, state) + [] == StateList(props, window, state);
    } else {
      var rs := UpdateWindowRequests(e, window, true);
      RepeatedFocusAccumulates(e, props, window, n - 1);
      var mid := ApplyAll(props, RepeatRequests(rs, n - 1));
      ApplyAllConcat(props, RepeatRequests(rs, n - 1), rs);
      FocusedUpdateAppends(e, mid, window);
      assert StateList(props, window, state) + Copies(focusedAtom, n - 1) + [focusedAtom] ==
             StateList(props, window, state) + Copies(focusedAtom, n);
    }
  }

  /** An unfocused update leaves _NET_WM_STATE alone. */
  lemma {:induction false} UnfocusedUpdateKeepsState(e: Ewmh, props: PropertyStore, window: Window, state: AtomId)
    requires "WM_STATE" in e.atoms ==> state != e.atoms["WM_STATE"]
    ensures SameAt(ApplyAll(props, UpdateWindowRequests(e, window, false)), props, (window, state))
  {
    var rs := UpdateWindowRequests(e, window, false);
    ApplyAllUntouched(props, rs, (window, state));
  }

  /** `UpdateWindow` writes only the window's own properties. */
  lemma {:induction false} UpdateWindowTouchesOnlyWindow(e: Ewmh, props: PropertyStore, window: Window, focused: bool, key: (Window, AtomId))
    requires key.0 != window
    ensures SameAt(ApplyAll(props, UpdateWindowRequests(e, window, focused)), props, key)
  {
    ApplyAllFrames(props, UpdateWindowRequests(e, window, focused), key);
  }
}
