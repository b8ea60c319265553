/** The monitor registry of src/monitor.cpp: rebuilt from the RandR 1.5
    GetMonitors reply, and searched for the monitor under a point. The
    server's replies are inputs. */
module Monitors {
  import opened Wrappers
  import opened Types
  import opened TypeUtils

  /** What `xcb_get_extension_data` reports for RandR. */
  datatype ExtensionData = ExtensionData(present: bool, firstEvent: uint8)

  /** One `xcb_randr_monitor_info_t` of the GetMonitors reply. */
  datatype MonitorInfo = MonitorInfo(name: AtomId, primary: uint8, x: int16, y: int16, width: uint16, height: uint16)

  /** The record stored for a monitor whose name atom resolved to `name`. */
  function ToMonitor(info: MonitorInfo, name: string): (m: Monitor)
    ensures m.name == name
    ensures m.primary <==> info.primary == 1
    ensures m.position.x == info.x && m.position.y == info.y
    ensures m.size.x == info.width && m.size.y == info.height
  {
    Monitor(name, info.primary == 1, Vector2D(info.x, info.y), Vector2D(info.width, info.height))
  }

  /** The records the loop of monitor.cpp:46-63 appends, given the
      GetAtomName reply for each monitor: the monitors whose name could not be
      fetched are skipped, the rest keep the server's order. */
  function Collect(infos: seq<MonitorInfo>, names: seq<Option<string>>): seq<Monitor>
    requires |names| == |infos|
    decreases |infos|
  {
    if infos == [] then []
    else
      var n := |infos| - 1;
      Collect(infos[..n], names[..n]) + (if names[n].Some? then [ToMonitor(infos[n], names[n].value)] else [])
  }

  /** At most one record per reported monitor. */
  lemma {:induction false} CollectLength(infos: seq<MonitorInfo>, names: seq<Option<string>>)
    requires |names| == |infos|
    ensures |Collect(infos, names)| <= |infos|
    decreases |infos|
  {
    if infos != [] {
      CollectLength(infos[..|infos| - 1], names[..|infos| - 1]);
    }
  }

  /** The records are exactly the named monitors, in server order: the
      `k`-th record comes from the `k`-th monitor whose name was fetched. */
  function NamedIndices(names: seq<Option<string>>): (r: seq<nat>)
    ensures forall k :: 0 <= k < |r| ==> r[k] < |names| && names[r[k]].Some?
    ensures forall k, l :: 0 <= k < l < |r| ==> r[k] < r[l]
    ensures forall i :: 0 <= i < |names| && names[i].Some? ==> i in r
    decreases |names|
  {
    if names == [] then []
    else
      var n := |names| - 1;
      NamedIndices(names[..n]) + (if names[n].Some? then [n] else [])
  }

  lemma {:induction false} CollectIsNamedMonitors(infos: seq<MonitorInfo>, names: seq<Option<string>>)
    requires |names| == |infos|
    ensures |Collect(infos, names)| == |NamedIndices(names)|
    ensures forall k :: 0 <= k < |Collect(infos, names)| ==>
              Collect(infos, names)[k] == ToMonitor(infos[NamedIndices(names)[k]], names[NamedIndices(names)[k]].value)
    decreases |infos|
  {
    if infos != [] {
      var n := |infos| - 1;
      CollectIsNamedMonitors(infos[..n], names[..n]);
      var before := Collect(infos[..n], names[..n]);
      var indices := NamedIndices(names[..n]);
      var all := Collect(infos, names);
      assert all == before + (if names[n].Some? then [ToMonitor(infos[n], names[n].value)] else []);
      assert NamedIndices(names) == indices + (if names[n].Some? then [n] else []);
      forall k | 0 <= k < |all|
        ensures all[k] == ToMonitor(infos[NamedIndices(names)[k]], names[NamedIndices(names)[k]].value)
      {
        if k < |before| {
          var i := indices[k];
          assert i < n && infos[..n][i] == infos[i] && names[..n][i] == names[i];
        }
      }
    }
  }

  /** Nothing is collected exactly when no name could be fetched. */
  lemma {:induction false} CollectEmptyIff(infos: seq<MonitorInfo>, names: seq<Option<string>>)
    requires |names| == |infos|
    ensures Collect(infos, names) == [] <==> forall i :: 0 <= i < |names| ==> names[i].None?
  {
    CollectIsNamedMonitors(infos, names);
    if Collect(infos, names) == [] {
      assert |NamedIndices(names)| == 0;
    } else {
      var i := NamedIndices(names)[0];
      assert names[i].Some?;
    }
  }

  /** When every name is fetched, the records copy the reply one to one. */
  lemma {:induction false} CollectAllNamed(infos: seq<MonitorInfo>, names: seq<Option<string>>)
    requires |names| == |infos|
    requires forall i :: 0 <= i < |names| ==> names[i].Some?
    ensures |Collect(infos, names)| == |infos|
    ensures forall i :: 0 <= i < |infos| ==> Collect(infos, names)[i] == ToMonitor(infos[i], names[i].value)
    decreases |infos|
  {
    if infos != [] {
      var n := |infos| - 1;
      CollectAllNamed(infos[..n], names[..n]);
    }
  }

  /** A record built from the reply's 16-bit geometry cannot overflow the
      int32 sums of `IsInRect`. */
  predicate Bounded(m: Monitor) {
    -0x8000 <= m.position.x < 0x8000 && -0x8000 <= m.position.y < 0x8000 &&
    0 <= m.size.x < 0x1_0000 && 0 <= m.size.y < 0x1_0000
  }

  predicate AllBounded(ms: seq<Monitor>) {
    forall i :: 0 <= i < |ms| ==> Bounded(ms[i])
  }

  lemma BoundedNoOverflow(m: Monitor)
    requires Bounded(m)
    ensures NoOverflow(m.position, m.size)
  {
  }

  lemma {:induction false} CollectBounded(infos: seq<MonitorInfo>, names: seq<Option<string>>)
    requires |names| == |infos|
    ensures AllBounded(Collect(infos, names))
    decreases |infos|
  {
    if infos != [] {
      CollectBounded(infos[..|infos| - 1], names[..|infos| - 1]);
    }
  }

  /** The index of the first monitor whose rectangle contains `pos`. */
  function FindMonitor(ms: seq<Monitor>, pos: Vector2D): (r: Option<nat>)
    requires AllBounded(ms)
    ensures r.Some? ==> r.value < |ms| && IsInRect(pos, ms[r.value].position, ms[r.value].size)
    ensures r.Some? ==> forall j :: 0 <= j < r.value ==> !IsInRect(pos, ms[j].position, ms[j].size)
    ensures r.None? ==> forall j :: 0 <= j < |ms| ==> !IsInRect(pos, ms[j].position, ms[j].size)
    decreases |ms|
  {
    if ms == [] then None
    else if IsInRect(pos, ms[0].position, ms[0].size) then Some(0)
    else
      match FindMonitor(ms[1..], pos)
      case None => None
      case Some(i) => Some(i + 1)
  }

  /** The monitor registry: the global `monitors_` list and
      `g_randr_event_base`. */
  class MonitorRegistry {
    var monitors: seq<Monitor>
    var randrEventBase: int32

    predicate Valid()
      reads this
    {
      AllBounded(monitors)
    }

    constructor ()
      ensures monitors == [] && randrEventBase == 0 && Valid()
    {
      monitors := [];
      randrEventBase := 0;
    }

    /** `SetupMonitors`. `extension` is the extension data, `versionOk`
        whether QueryVersion succeeded, `reply` the GetMonitors reply (`None`
        when it failed) and `names` one GetAtomName reply per monitor. The
        old list is discarded first, on every path. */
    method SetupMonitors(extension: ExtensionData, versionOk: bool, reply: Option<seq<MonitorInfo>>,
                         names: seq<Option<string>>) returns (ok: bool)
      requires reply.Some? ==> |names| == |reply.value|
      modifies this
      ensures ok <==> monitors != []
      ensures monitors == (if extension.present && versionOk && reply.Some? && |reply.value| >= 1
                           then Collect(reply.value, names) else [])
      ensures randrEventBase == (if extension.present then extension.firstEvent else old(randrEventBase))
      ensures Valid()
    {
      monitors := [];
      if !extension.present {
        return false;
      }
      randrEventBase := extension.firstEvent;
      if !versionOk {
        return false;
      }
      if reply.None? {
        return false;
      }
      var infos := reply.value;
      if |infos| < 1 {
        return false;
      }
      var i := 0;
      while i < |infos|
        invariant 0 <= i <= |infos|
        invariant monitors == Collect(infos[..i], names[..i])
        invariant randrEventBase == extension.firstEvent
      {
        assert infos[..i + 1][..i] == infos[..i] && names[..i + 1][..i] == names[..i];
        if names[i].None? {
          i := i + 1;
          continue;
        }
        monitors := monitors + [ToMonitor(infos[i], names[i].value)];
        i := i + 1;
      }
      assert infos[..i] == infos && names[..i] == names;
      CollectBounded(infos, names);
      if monitors == [] {
        return false;
      }
      return true;
    }

    /** `GetMonitorFromPos`: the first monitor containing `pos`, or the first
        monitor when none does. */
    function GetMonitorFromPos(pos: Vector2D): (m: Monitor)
      reads this
      requires monitors != [] && Valid()
      ensures m in monitors
      ensures FindMonitor(monitors, pos).Some? ==> m == monitors[FindMonitor(monitors, pos).value]
      ensures FindMonitor(monitors, pos).None? ==> m == monitors[0]
    {
      match FindMonitor(monitors, pos)
      case Some(i) => monitors[i]
      case None => monitors[0]
    }
  }

  /** The fallback: a point inside no monitor gets the first one. */
  lemma FallbackIsFirst(ms: seq<Monitor>, pos: Vector2D)
    requires AllBounded(ms)
    requires |ms| > 0
    requires forall j :: 0 <= j < |ms| ==> !IsInRect(pos, ms[j].position, ms[j].size)
    ensures FindMonitor(ms, pos).None?
  {
  }

  /** A monitor's own top-left corner finds it, unless an earlier monitor
      covers that corner too. */
  lemma CornerFindsMonitor(ms: seq<Monitor>, i: nat)
    requires AllBounded(ms)
    requires i < |ms|
    requires forall j :: 0 <= j < i ==> !IsInRect(ms[i].position, ms[j].position, ms[j].size)
    ensures FindMonitor(ms, ms[i].position) == Some(i)
  {
    assert IsInRect(ms[i].position, ms[i].position, ms[i].size);
  }
}
