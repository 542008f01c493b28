/** The bridge's global state and the plugin's reference-counted use of it. */
module Lifecycle {

  const NULL: nat := 0

  /** `wclap-bridge.cpp`: init, open, close, deinit.  An abort ends the process: nothing is promised after one. */
  class Bridge {
    var globalInitOK: bool
    var globalInitMs: nat
    var activeWclapCount: nat
    var engine: bool                    // the runtime engine exists
    ghost var open: set<nat>            // handles handed out and not yet closed
    var nextHandle: nat

    ghost predicate Valid()
      reads this
    {
      && (engine <==> globalInitOK)
      && activeWclapCount == |open|
      && (open != {} ==> globalInitOK)
      && NULL !in open && nextHandle > NULL && forall h :: h in open ==> h < nextHandle
    }

    constructor ()
      ensures Valid() && open == {} && !globalInitOK
    {
      globalInitOK, globalInitMs, activeWclapCount, engine, nextHandle := false, 0, 0, false, 1;
      open := {};
    }

    /** `engineStarts` is what the runtime answers.  Reconfiguring aborts exactly when the limit changes under an open
        handle. */
    method GlobalInit(timeLimitMs: nat, engineStarts: bool) returns (ok: bool, aborted: bool)
      requires Valid()
      modifies this`globalInitOK, this`globalInitMs, this`engine
      ensures aborted <==> old(globalInitOK) && timeLimitMs != old(globalInitMs) && open != {}
      ensures !aborted ==> Valid() && (ok <==> globalInitOK)
      ensures !aborted && ok ==> globalInitMs == timeLimitMs
      ensures !aborted ==> (ok <==> (old(globalInitOK) && timeLimitMs == old(globalInitMs)) || engineStarts)
    {
      ok, aborted := false, false;
      if globalInitOK {
        if timeLimitMs == globalInitMs { return true, false; }
        if activeWclapCount > 0 { return false, true; }
        engine := false;
      }
      globalInitMs := timeLimitMs;
      engine := engineStarts;
      globalInitOK := engineStarts;
      ok := globalInitOK;
    }

    method GlobalDeinit() returns (aborted: bool)
      requires Valid()
      modifies this`globalInitOK, this`engine
      ensures aborted <==> open != {}
      ensures !aborted ==> Valid() && !globalInitOK && !engine
    {
      if !globalInitOK { return false; }
      if activeWclapCount > 0 { return true; }
      engine := false;
      globalInitOK := false;
      return false;
    }

    /** `loads`: the file could be read and compiled.  A handle is counted exactly when it is handed out. */
    method Open(loads: bool) returns (handle: nat)
      requires Valid()
      modifies this`activeWclapCount, this`open, this`nextHandle
      ensures Valid()
      ensures handle != NULL <==> globalInitOK && loads
      ensures handle == NULL ==> open == old(open)
      ensures handle != NULL ==> handle !in old(open) && open == old(open) + {handle}
    {
      if !globalInitOK || !loads { return NULL; }
      activeWclapCount := activeWclapCount + 1;
      handle := nextHandle;
      nextHandle := nextHandle + 1;
      open := open + {handle};
    }

    /** Only an open handle may be closed, so none is closed twice. */
    method Close(handle: nat)
      requires Valid() && handle in open
      modifies this`activeWclapCount, this`open
      ensures Valid() && open == old(open) - {handle}
    {
      activeWclapCount := activeWclapCount - 1;
      open := open - {handle};
    }
  }

  /** `std::vector<Wclap>`: growing moves every element and destroys the moved-from ones. */
  class WclapVector {
    var items: array<nat>              // the `handle` field of each element; null when moved from
    var size: nat

    ghost predicate Valid()
      reads this, items
    {
      size <= items.Length
    }

    ghost function Contents(): (s: seq<nat>)
      requires Valid()
      reads this, items
      ensures |s| == size
    {
      items[..size]
    }

    constructor ()
      ensures Valid() && Contents() == [] && fresh(items)
    {
      items := new nat[0];
      size := 0;
    }

    /** `Wclap::~Wclap`. */
    static method Destroy(bridge: Bridge, handle: nat)
      requires bridge.Valid() && (handle != NULL ==> handle in bridge.open)
      modifies bridge`activeWclapCount, bridge`open
      ensures bridge.Valid()
      ensures bridge.open == old(bridge.open) - (if handle != NULL then {handle} else {})
    {
      if handle != NULL { bridge.Close(handle); }
    }

    /** A reallocation: move each element across, then destroy the old ones.  No handle is closed. */
    method Grow(bridge: Bridge)
      requires Valid() && bridge.Valid()
      modifies this`items, items, bridge`activeWclapCount, bridge`open
      ensures Valid() && fresh(items) && items.Length > size && bridge.Valid()
      ensures Contents() == old(Contents()) && bridge.open == old(bridge.open)
    {
      var was, n := items, size;
      var moved := new nat[2 * n + 1](_ => NULL);
      for i := 0 to n
        modifies was, moved
        invariant moved[..i] == old(items[..i])
        invariant forall k :: 0 <= k < i ==> was[k] == NULL
        invariant forall k :: i <= k < n ==> was[k] == old(items[k])
      {
        moved[i] := was[i];
        was[i] := NULL;
      }
      for i := 0 to n
        modifies bridge`activeWclapCount, bridge`open
        invariant forall k :: 0 <= k < n ==> was[k] == NULL
        invariant bridge.Valid() && bridge.open == old(bridge.open)
      {
        Destroy(bridge, was[i]);
      }
      items := moved;
    }

    method EmplaceBack(bridge: Bridge, handle: nat)
      requires Valid() && bridge.Valid()
      modifies this, items, bridge`activeWclapCount, bridge`open
      ensures Valid() && bridge.Valid() && (items == old(items) || fresh(items))
      ensures Contents() == old(Contents()) + [handle] && bridge.open == old(bridge.open)
    {
      if size == items.Length { Grow(bridge); }
      items[size] := handle;
      size := size + 1;
    }

    /** Destroys every element: each handle is closed, once. */
    method Clear(bridge: Bridge)
      requires Valid() && bridge.Valid() && Holds(Contents(), bridge.open)
      modifies this`size, bridge`activeWclapCount, bridge`open
      ensures Valid() && bridge.Valid() && Contents() == [] && bridge.open == {}
    {
      ghost var all := Contents();
      for i := 0 to size
        invariant bridge.Valid() && size == |all| && Contents() == all
        invariant Holds(all[i..], bridge.open)
      {
        assert all[i..][0] == all[i] && all[i..][1..] == all[i + 1..];
        HoldsTail(all[i..], bridge.open);
        Destroy(bridge, items[i]);
      }
      assert all[size..] == [];
      size := 0;
    }
  }

  /** The list holds each open handle once, and nothing else. */
  ghost predicate Holds(list: seq<nat>, open: set<nat>) {
    && (forall i :: 0 <= i < |list| ==> list[i] in open && list[i] != NULL)
    && (forall h :: h in open ==> h in list)
    && (forall i, j :: 0 <= i < j < |list| ==> list[i] != list[j])
  }

  lemma {:induction false} HoldsTail(list: seq<nat>, open: set<nat>)
    requires Holds(list, open) && list != []
    ensures Holds(list[1..], open - {list[0]})
  {
    forall h | h in open - {list[0]} ensures h in list[1..] {
      var i :| 0 <= i < |list| && list[i] == h;
      assert list[1..][i - 1] == h;
    }
  }

  /** A file found by the scan: whether it can be read and compiled, and then whether setting the module up leaves an
      error. */
  datatype Found = Found(loads: bool, hasError: bool)

  predicate AllLoad(found: seq<Found>) { forall i :: 0 <= i < |found| ==> found[i].loads }

  /** `wclap-bridge-plugin.cpp`: `clap_init` and `clap_deinit` around one bridge of their own. */
  class BridgePlugin {
    const bridge: Bridge
    const wclapList: WclapVector
    var initCounter: int

    ghost predicate Valid()
      reads this, bridge, wclapList, wclapList.items
    {
      && bridge.Valid() && wclapList.Valid()
      && initCounter >= 0
      && Holds(wclapList.Contents(), bridge.open)
      && (initCounter == 0 ==> !bridge.globalInitOK)
      && (bridge.globalInitOK ==> bridge.globalInitMs == 250)
    }

    constructor ()
      ensures Valid() && initCounter == 0 && fresh(bridge) && fresh(wclapList) && fresh(wclapList.items)
    {
      bridge := new Bridge();
      wclapList := new WclapVector();
      initCounter := 0;
    }

    /** Modules with an error are closed at once, the others are kept.  A file that does not load gives the null handle,
        which goes straight to `wclap_get_error` and is dereferenced there: the process crashes. */
    method ScanWclapDirectories(found: seq<Found>) returns (crashed: bool)
      requires bridge.Valid() && wclapList.Valid() && bridge.globalInitOK && Holds(wclapList.Contents(), bridge.open)
      modifies wclapList, wclapList.items, bridge`activeWclapCount, bridge`open, bridge`nextHandle
      ensures crashed <==> !AllLoad(found)
      ensures bridge.Valid() && wclapList.Valid() && Holds(wclapList.Contents(), bridge.open)
      ensures wclapList.items == old(wclapList.items) || fresh(wclapList.items)
      ensures !crashed ==> |wclapList.Contents()| == |old(wclapList.Contents())| + Kept(found)
    {
      assert found[..|found|] == found && found[..0] == [];
      for i := 0 to |found|
        invariant bridge.Valid() && wclapList.Valid() && bridge.globalInitOK && Holds(wclapList.Contents(), bridge.open)
        invariant wclapList.items == old(wclapList.items) || fresh(wclapList.items)
        invariant AllLoad(found[..i])
        invariant |wclapList.Contents()| == |old(wclapList.Contents())| + Kept(found[..i])
      {
        assert found[..i + 1][..i] == found[..i];
        var dead := ScanFile(found[i]);
        if dead { return true; }
      }
      return false;
    }

    /** One file of the scan. */
    method ScanFile(file: Found) returns (crashed: bool)
      requires bridge.Valid() && wclapList.Valid() && bridge.globalInitOK && Holds(wclapList.Contents(), bridge.open)
      modifies wclapList, wclapList.items, bridge`activeWclapCount, bridge`open, bridge`nextHandle
      ensures crashed <==> !file.loads
      ensures bridge.Valid() && wclapList.Valid() && Holds(wclapList.Contents(), bridge.open)
      ensures wclapList.items == old(wclapList.items) || fresh(wclapList.items)
      ensures !crashed ==>
                |wclapList.Contents()| == |old(wclapList.Contents())| + if file.hasError then 0 else 1
    {
      ghost var was, open := wclapList.Contents(), bridge.open;
      var handle := bridge.Open(file.loads);
      if handle == NULL { return true; }
      if file.hasError {
        bridge.Close(handle);
        assert bridge.open == open;
        return false;
      }
      wclapList.EmplaceBack(bridge, handle);
      HoldsAppend(was, open, handle);
      return false;
    }

    /** The first call initialises; later ones only count - also after a first call that failed. */
    method ClapInit(engineStarts: bool, found: seq<Found>) returns (ok: bool, crashed: bool)
      requires Valid()
      modifies this, bridge, wclapList, wclapList.items
      ensures crashed <==> old(initCounter) == 0 && engineStarts && !AllLoad(found)
      ensures Valid() && initCounter == old(initCounter) + 1
      ensures wclapList.items == old(wclapList.items) || fresh(wclapList.items)
      ensures !crashed ==> (ok <==> old(initCounter) > 0 || engineStarts)
      ensures !crashed && old(initCounter) == 0 ==>
                bridge.globalInitOK == engineStarts && |bridge.open| == if engineStarts then Kept(found) else 0
    {
      initCounter := initCounter + 1;
      if initCounter - 1 != 0 { return true, false; }
      assert bridge.open == {};
      var aborted;
      ok, aborted := bridge.GlobalInit(250, engineStarts);
      HoldsSize(wclapList.Contents(), bridge.open);
      if !ok { return false, false; }
      crashed := ScanWclapDirectories(found);
      HoldsSize(wclapList.Contents(), bridge.open);
      return !crashed, crashed;
    }

    /** The last balanced call closes every handle, takes the engine down, and never reaches the abort. */
    method ClapDeinit() returns (aborted: bool)
      requires Valid() && initCounter > 0
      modifies this, bridge, wclapList
      ensures !aborted && Valid() && initCounter == old(initCounter) - 1
      ensures initCounter == 0 ==> bridge.open == {} && !bridge.engine && wclapList.Contents() == []
      ensures initCounter > 0 ==> bridge.open == old(bridge.open) && bridge.engine == old(bridge.engine)
    {
      initCounter := initCounter - 1;
      if initCounter != 0 { return false; }
      wclapList.Clear(bridge);
      aborted := bridge.GlobalDeinit();
    }
  }

  /** How many of the found modules stay open. */
  function Kept(found: seq<Found>): nat {
    if found == [] then 0 else
      var last := found[|found| - 1];
      Kept(found[..|found| - 1]) + if last.loads && !last.hasError then 1 else 0
  }

  /** One unreadable file among the directories is enough. */
  method OneUnreadableFile() returns (crashed: bool)
    ensures crashed
  {
    var plugin := new BridgePlugin();
    var found := [Found(false, false)];
    assert !found[0].loads;
    var ok;
    ok, crashed := plugin.ClapInit(true, found);
  }

  lemma {:induction false} HoldsAppend(list: seq<nat>, open: set<nat>, handle: nat)
    requires Holds(list, open) && handle !in open && handle != NULL
    ensures Holds(list + [handle], open + {handle})
  {
    var all := list + [handle];
    forall h | h in open + {handle} ensures h in all {
      if h in open {
        var i :| 0 <= i < |list| && list[i] == h;
        assert all[i] == h;
      } else {
        assert all[|list|] == h;
      }
    }
  }

  /** As many handles in the list as are open. */
  lemma {:induction false} HoldsSize(list: seq<nat>, open: set<nat>)
    requires Holds(list, open)
    ensures |list| == |open|
    decreases |list|
  {
    if list == [] {
      assert open == {};
    } else {
      HoldsTail(list, open);
      HoldsSize(list[1..], open - {list[0]});
    }
  }
}
