/** `wclap-bridge-plugin.cpp`: the plugin list built from every module's factory, and plugin creation from it. */
module Scan {
  import opened Wrappers
  import opened SemVer

  datatype Descriptor = Descriptor(id: string, version: Option<Version>)

  /** A module's factory, if it has one, and what it answers for each index. */
  datatype Wclap = Wclap(factory: Option<seq<Option<Descriptor>>>)

  datatype Plugin = Plugin(desc: Descriptor, wclapIndex: nat)

  /** What module `w` offers, in order, without the null descriptors. */
  function Listed(descs: seq<Option<Descriptor>>, w: nat): (ps: seq<Plugin>) {
    if descs == [] then []
    else
      var last := descs[|descs| - 1];
      Listed(descs[..|descs| - 1], w) + if last.Some? then [Plugin(last.value, w)] else []
  }

  /** What all modules offer, in the order of the scan. */
  function Offered(wclaps: seq<Wclap>): (ps: seq<Plugin>) {
    if wclaps == [] then []
    else
      var w := |wclaps| - 1;
      Offered(wclaps[..w]) + if wclaps[w].factory.Some? then Listed(wclaps[w].factory.value, w) else []
  }

  lemma {:induction false} ListedPrefix(descs: seq<Option<Descriptor>>, w: nat, n: nat)
    requires n <= |descs|
    ensures Listed(descs[..n], w) <= Listed(descs, w)
  {
    if n == |descs| {
      assert descs[..n] == descs;
    } else {
      assert descs[..|descs| - 1][..n] == descs[..n];
      ListedPrefix(descs[..|descs| - 1], w, n);
    }
  }

  lemma {:induction false} OfferedPrefix(wclaps: seq<Wclap>, n: nat)
    requires n <= |wclaps|
    ensures Offered(wclaps[..n]) <= Offered(wclaps)
  {
    if n == |wclaps| {
      assert wclaps[..n] == wclaps;
    } else {
      assert wclaps[..|wclaps| - 1][..n] == wclaps[..n];
      OfferedPrefix(wclaps[..|wclaps| - 1], n);
    }
  }

  /** What the scan has seen when it reaches descriptor `i` of module `w`, then that descriptor. */
  lemma {:induction false} OfferedAt(wclaps: seq<Wclap>, w: nat, i: nat)
    requires w < |wclaps| && wclaps[w].factory.Some? && i < |wclaps[w].factory.value|
    requires wclaps[w].factory.value[i].Some?
    ensures Offered(wclaps[..w]) + Listed(wclaps[w].factory.value[..i], w)
            + [Plugin(wclaps[w].factory.value[i].value, w)] <= Offered(wclaps)
  {
    var descs := wclaps[w].factory.value;
    assert descs[..i + 1][..i] == descs[..i];
    ListedPrefix(descs, w, i + 1);
    assert wclaps[..w + 1][..w] == wclaps[..w];
    OfferedPrefix(wclaps, w + 1);
  }

  ghost predicate Offers(wclap: Wclap, desc: Descriptor) {
    wclap.factory.Some? && Some(desc) in wclap.factory.value
  }

  lemma {:induction false} ListedIsOffered(descs: seq<Option<Descriptor>>, w: nat, k: nat)
    requires k < |Listed(descs, w)|
    ensures Listed(descs, w)[k].wclapIndex == w && Some(Listed(descs, w)[k].desc) in descs
  {
    var front := descs[..|descs| - 1];
    if k < |Listed(front, w)| {
      ListedIsOffered(front, w, k);
    } else {
      assert descs[|descs| - 1] in descs;
    }
  }

  /** Everything in the scan's order is offered by the module at its index. */
  lemma {:induction false} OfferedIsOffered(wclaps: seq<Wclap>, k: nat)
    requires k < |Offered(wclaps)|
    ensures var p := Offered(wclaps)[k]; p.wclapIndex < |wclaps| && Offers(wclaps[p.wclapIndex], p.desc)
  {
    var w := |wclaps| - 1;
    var before := |Offered(wclaps[..w])|;
    if k < before {
      OfferedIsOffered(wclaps[..w], k);
    } else {
      ListedIsOffered(wclaps[w].factory.value, w, k - before);
    }
  }

  predicate Has(ps: seq<Plugin>, id: string) {
    exists i :: 0 <= i < |ps| && ps[i].desc.id == id
  }

  ghost predicate DistinctIds(ps: seq<Plugin>) {
    forall i, j :: 0 <= i < j < |ps| ==> ps[i].desc.id != ps[j].desc.id
  }

  lemma {:induction false} DistinctAppend(ps: seq<Plugin>, p: Plugin)
    requires DistinctIds(ps) && !Has(ps, p.desc.id)
    ensures DistinctIds(ps + [p])
  {}

  /** The place of the first descriptor whose id came before, or the end. */
  function FirstDuplicate(all: seq<Plugin>): (n: nat)
    ensures n <= |all| && DistinctIds(all[..n])
    ensures n < |all| ==> Has(all[..n], all[n].desc.id)
  {
    if all == [] then 0
    else
      var front := all[..|all| - 1];
      var m := FirstDuplicate(front);
      assert front[..m] == all[..m];
      if m < |front| then m
      else if Has(front, all[|front|].desc.id) then (assert all[..m] == front; m)
      else (assert all[..|all|] == front + [all[|front|]]; assert front[..m] == front; |all|)
  }

  lemma {:induction false} NotYetDuplicate(all: seq<Plugin>, m: nat, n: nat)
    requires m < n <= |all| && DistinctIds(all[..n])
    ensures !Has(all[..m], all[m].desc.id)
  {
    forall i | 0 <= i < m ensures all[..m][i].desc.id != all[m].desc.id {
      assert all[..n][i] == all[..m][i] && all[..n][m] == all[m];
    }
  }

  /** Only one place fits. */
  lemma {:induction false} FirstDuplicateIs(all: seq<Plugin>, n: nat)
    requires n <= |all| && DistinctIds(all[..n])
    requires n < |all| ==> Has(all[..n], all[n].desc.id)
    ensures FirstDuplicate(all) == n
  {
    var m := FirstDuplicate(all);
    if m < n {
      NotYetDuplicate(all, m, n);
    } else if n < m {
      NotYetDuplicate(all, n, m);
    }
  }

  /** What the scan has looked at when it stops: up to and including the first duplicate. */
  function Examined(all: seq<Plugin>): seq<Plugin> {
    var n := FirstDuplicate(all);
    if n < |all| then all[..n + 1] else all
  }

  /** `list` holds, for each id among `seen`, one of the newest plugins of that id, each id once. */
  ghost predicate NewestOfEach(list: seq<Plugin>, seen: seq<Plugin>) {
    && DistinctIds(list)
    && (forall i :: 0 <= i < |list| ==> list[i] in seen)
    && (forall k :: 0 <= k < |seen| ==> Covered(list, seen[k]))
  }

  /** `list` has a plugin of the same id that is no older. */
  ghost predicate Covered(list: seq<Plugin>, p: Plugin) {
    exists i :: 0 <= i < |list| && list[i].desc.id == p.desc.id && !Below(list[i].desc.version, p.desc.version)
  }

  /** A plugin found again takes the place of one without a version, or of an older one. */
  predicate Supersedes(p: Plugin, existing: Plugin) {
    existing.desc.version.None? || Below(existing.desc.version, p.desc.version)
  }

  /** Exactly: an entry without a version always gives way, even to one without; with one it keeps its place against
      missing, equal and older versions. */
  lemma {:induction false} SupersedesIff(p: Plugin, existing: Plugin)
    ensures Supersedes(p, existing) <==>
              match existing.desc.version
              case None => true
              case Some(old_) => p.desc.version.Some? && Precedes(old_, p.desc.version.value)
  {
    BelowIff(existing.desc.version, p.desc.version);
  }

  /** Entry `i` in the end: as first found, unless the first duplicate is of the same id and supersedes it. */
  function Settled(all: seq<Plugin>, i: nat): Plugin
    requires i < |all|
  {
    var n := FirstDuplicate(all);
    if n < |all| && all[n].desc.id == all[i].desc.id && Supersedes(all[n], all[i]) then all[n] else all[i]
  }

  class PluginFactory {
    const wclapList: seq<Wclap>
    var pluginList: seq<Plugin>

    constructor (wclaps: seq<Wclap>)
      ensures wclapList == wclaps && pluginList == []
    {
      wclapList, pluginList := wclaps, [];
    }

    /** Started on the empty list, as `clap_init` does.  At every stop the list is the newest of each id examined; the
        scan ends for good at the first duplicate. */
    method ScanWclapPlugins()
      requires pluginList == []
      modifies this
      ensures NewestOfEach(pluginList, Examined(Offered(wclapList)))
      ensures |pluginList| == FirstDuplicate(Offered(wclapList))
      ensures forall i :: 0 <= i < |pluginList| ==> pluginList[i] == Settled(Offered(wclapList), i)
    {
      ghost var all := Offered(wclapList);
      for w := 0 to |wclapList|
        invariant pluginList == Offered(wclapList[..w]) && DistinctIds(pluginList)
      {
        assert wclapList[..w + 1][..w] == wclapList[..w];
        if wclapList[w].factory.None? { continue; }
        var descs := wclapList[w].factory.value;
        assert descs[..|descs|] == descs;
        for i := 0 to |descs|
          invariant pluginList == Offered(wclapList[..w]) + Listed(descs[..i], w) && DistinctIds(pluginList)
        {
          assert descs[..i + 1][..i] == descs[..i];
          if descs[i].Some? {
            var desc := descs[i].value;
            ghost var was := pluginList;
            OfferedAt(wclapList, w, i);
            assert was + [Plugin(desc, w)] <= all;
            ghost var k;
            var duplicate;
            duplicate, k := FoundAgain(Plugin(desc, w));
            if duplicate {
              StopsAtDuplicate(was, Plugin(desc, w), k, Supersedes(Plugin(desc, w), was[k]), all);
              return;
            }
            DistinctAppend(pluginList, Plugin(desc, w));
            pluginList := pluginList + [Plugin(desc, w)];
          }
        }
      }
      assert wclapList[..|wclapList|] == wclapList;
      NoDuplicate(all);
    }

    /** The search for an entry of the same id; a newer plugin takes its place. */
    method FoundAgain(plugin: Plugin) returns (duplicate: bool, ghost at: nat)
      modifies this
      ensures duplicate <==> Has(old(pluginList), plugin.desc.id)
      ensures !duplicate ==> pluginList == old(pluginList)
      ensures duplicate ==>
                at < |old(pluginList)| && old(pluginList)[at].desc.id == plugin.desc.id
                && pluginList == Replaced(old(pluginList), plugin, at, Supersedes(plugin, old(pluginList)[at]))
    {
      duplicate, at := false, 0;
      for k := 0 to |pluginList|
        invariant pluginList == old(pluginList) && !Has(pluginList[..k], plugin.desc.id)
      {
        var existing := pluginList[k];
        if plugin.desc.id == existing.desc.id {
          var newer := false;
          if existing.desc.version.None? {
            newer := true;
          } else if plugin.desc.version.Some? {
            newer := Compare(plugin.desc.version.value, existing.desc.version.value) > 0;
          }
          if newer { pluginList := pluginList[k := plugin]; }
          PrecedenceIsTotalOrder();
          return true, k;
        }
      }
    }

    /** `pluginFactory_create_plugin`: the index of the module asked to create it, or nothing for an unknown id. */
    method CreatePlugin(pluginId: string) returns (wclapIndex: Option<nat>)
      ensures wclapIndex.None? <==> !Has(pluginList, pluginId)
      ensures wclapIndex.Some? ==>
                exists k :: 0 <= k < |pluginList| && pluginList[k].desc.id == pluginId
                            && pluginList[k].wclapIndex == wclapIndex.value
    {
      for k := 0 to |pluginList|
        invariant forall j :: 0 <= j < k ==> pluginList[j].desc.id != pluginId
      {
        if pluginList[k].desc.id == pluginId { return Some(pluginList[k].wclapIndex); }
      }
      return None;
    }
  }

  /** `list`, with the duplicate put in place of entry `k` if it is newer. */
  function Replaced(list: seq<Plugin>, p: Plugin, k: nat, newer: bool): seq<Plugin>
    requires k < |list|
  {
    if newer then list[k := p] else list
  }

  lemma {:induction false} NewestOfThemselves(list: seq<Plugin>)
    requires DistinctIds(list)
    ensures NewestOfEach(list, list)
  {
    PrecedenceIsTotalOrder();
    forall k | 0 <= k < |list| ensures Covered(list, list[k]) {
      assert !Below(list[k].desc.version, list[k].desc.version);
    }
  }

  lemma {:induction false} ReplacedIsNewest(list: seq<Plugin>, p: Plugin, k: nat, newer: bool)
    requires k < |list| && DistinctIds(list) && list[k].desc.id == p.desc.id
    requires newer <==> Supersedes(p, list[k])
    ensures NewestOfEach(Replaced(list, p, k, newer), list + [p])
  {
    PrecedenceIsTotalOrder();
    var now, seen := Replaced(list, p, k, newer), list + [p];
    forall i | 0 <= i < |now| ensures now[i] in seen && now[i].desc.id == list[i].desc.id {
      assert now[i] == if i == k && newer then seen[|list|] else seen[i];
    }
    forall j | 0 <= j < |seen| ensures Covered(now, seen[j]) {
      var at := if j == |list| then k else j;
      assert now[at].desc.id == seen[j].desc.id && !Below(now[at].desc.version, seen[j].desc.version);
    }
  }

  /** `list`, then a duplicate of its entry `k`, begin the scan's order. */
  lemma {:induction false} StopsAtDuplicate(list: seq<Plugin>, p: Plugin, k: nat, newer: bool, all: seq<Plugin>)
    requires k < |list| && DistinctIds(list) && list[k].desc.id == p.desc.id
    requires newer <==> Supersedes(p, list[k])
    requires list + [p] <= all
    ensures FirstDuplicate(all) == |list| && NewestOfEach(Replaced(list, p, k, newer), Examined(all))
    ensures forall i :: 0 <= i < |list| ==> Replaced(list, p, k, newer)[i] == Settled(all, i)
  {
    assert all[..|list| + 1] == list + [p];
    assert all[..|list|] == list && all[|list|] == p;
    FirstDuplicateIs(all, |list|);
    ReplacedIsNewest(list, p, k, newer);
  }

  lemma {:induction false} NoDuplicate(all: seq<Plugin>)
    requires DistinctIds(all)
    ensures FirstDuplicate(all) == |all| && NewestOfEach(all, Examined(all))
  {
    assert all[..|all|] == all;
    FirstDuplicateIs(all, |all|);
    NewestOfThemselves(all);
  }

  /** Whatever the modules, an entry is a descriptor of the module at its index. */
  lemma {:induction false} EntriesAreOffered(wclaps: seq<Wclap>, list: seq<Plugin>, i: nat)
    requires NewestOfEach(list, Examined(Offered(wclaps))) && i < |list|
    ensures list[i].wclapIndex < |wclaps| && Offers(wclaps[list[i].wclapIndex], list[i].desc)
  {
    var all := Offered(wclaps);
    assert list[i] in Examined(all);
    var k :| 0 <= k < |Examined(all)| && Examined(all)[k] == list[i];
    OfferedIsOffered(wclaps, k);
  }

  /** No descriptor examined with the id of an entry is newer than the entry. */
  lemma {:induction false} EntriesAreNewest(list: seq<Plugin>, seen: seq<Plugin>, i: nat, k: nat)
    requires NewestOfEach(list, seen) && i < |list| && k < |seen| && list[i].desc.id == seen[k].desc.id
    ensures !Below(list[i].desc.version, seen[k].desc.version)
  {
    assert Covered(list, seen[k]);
  }

  /** A plugin no newer than a covered one is covered. */
  lemma {:induction false} CoveredThrough(list: seq<Plugin>, seen: seq<Plugin>, p: Plugin)
    requires Covered(seen, p) && forall j :: 0 <= j < |seen| ==> Covered(list, seen[j])
    ensures Covered(list, p)
  {
    var j :| 0 <= j < |seen| && seen[j].desc.id == p.desc.id && !Below(seen[j].desc.version, p.desc.version);
    assert Covered(list, seen[j]);
    var i :| 0 <= i < |list| && list[i].desc.id == seen[j].desc.id
             && !Below(list[i].desc.version, seen[j].desc.version);
    BelowIsTransitive(p.desc.version, seen[j].desc.version, list[i].desc.version);
  }

  lemma {:induction false} CoveredByLarger(list: seq<Plugin>, seen: seq<Plugin>, p: Plugin)
    requires Covered(list, p) && forall i :: 0 <= i < |list| ==> list[i] in seen
    ensures Covered(seen, p)
  {
    var i :| 0 <= i < |list| && list[i].desc.id == p.desc.id && !Below(list[i].desc.version, p.desc.version);
    var j :| 0 <= j < |seen| && seen[j] == list[i];
  }

  /** The early return keeps the list from being the newest of everything offered - unless each descriptor past the
      first duplicate is no newer than an examined one of its id. */
  lemma {:induction false} WholeOfferIsListedIff(all: seq<Plugin>, list: seq<Plugin>)
    requires NewestOfEach(list, Examined(all))
    ensures NewestOfEach(list, all) <==>
            forall k :: FirstDuplicate(all) < k < |all| ==> Covered(Examined(all), all[k])
  {
    var n, seen := FirstDuplicate(all), Examined(all);
    if NewestOfEach(list, all) {
      forall k | n < k < |all| ensures Covered(seen, all[k]) {
        CoveredByLarger(list, seen, all[k]);
      }
    }
    if forall k :: n < k < |all| ==> Covered(seen, all[k]) {
      forall k | 0 <= k < |all| ensures Covered(list, all[k]) {
        if k < |seen| {
          assert seen[k] == all[k];
        } else {
          CoveredThrough(list, seen, all[k]);
        }
      }
      assert forall p :: p in seen ==> p in all;
    }
  }

  lemma {:induction false} ListedOne(desc: Descriptor, w: nat)
    ensures Listed([Some(desc)], w) == [Plugin(desc, w)]
  {
    assert [Some(desc)][..0] == [];
  }

  /** Two modules share one plugin; the second one's other plugin is never listed. */
  lemma {:induction false} SecondPluginIsLost(list: seq<Plugin>)
    ensures var a, b := Descriptor("a", None), Descriptor("b", None);
            var all := Offered([Wclap(Some([Some(a)])), Wclap(Some([Some(a), Some(b)]))]);
            NewestOfEach(list, Examined(all)) ==> !Has(list, "b")
  {
    var a, b := Descriptor("a", None), Descriptor("b", None);
    var first, second := [Some(a)], [Some(a), Some(b)];
    var wclaps := [Wclap(Some(first)), Wclap(Some(second))];
    ListedOne(a, 0);
    ListedOne(a, 1);
    assert second[..1] == [Some(a)];
    assert Listed(second, 1) == [Plugin(a, 1), Plugin(b, 1)];
    assert wclaps[..1][..0] == [];
    var all := Offered(wclaps);
    assert Offered(wclaps[..1]) == [Plugin(a, 0)];
    assert wclaps[1].factory == Some(second);
    assert all == [Plugin(a, 0), Plugin(a, 1), Plugin(b, 1)];
    assert all[..1][0].desc.id == "a";
    FirstDuplicateIs(all, 1);
    if NewestOfEach(list, Examined(all)) {
      forall i | 0 <= i < |list| ensures list[i].desc.id[0] == 'a' {
        assert list[i] in all[..2];
      }
    }
  }
}
