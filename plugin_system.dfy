/** The plugin marketplace panel: the catalogue of available plugins with their installed
    and enabled flags, the list of installed plugins, and the search and category filter.
    The catalogue arrives after a simulated delay; here it is handed to `Load`, together
    with the last-used times the panel draws at random. */
module PluginSystem {
  import opened Wrappers
  import opened Seqs
  import opened Text
  import opened ChatTypes

  datatype Plugin = Plugin(
    id: string,
    name: string,
    description: string,
    version: string,
    author: string,
    category: string,
    icon: string,
    isInstalled: bool,
    isEnabled: bool,
    rating: real,
    downloads: nat,
    features: seq<string>,
    permissions: seq<string>)

  /** An installed plugin: the catalogue record, its (always empty) settings and when it was
      last used. */
  datatype InstalledPlugin = InstalledPlugin(info: Plugin, settings: map<string, string>, lastUsed: Timestamp)

  const AllCategories: string := "all"

  function InstalledId(p: InstalledPlugin): string { p.info.id }

  function InstalledIds(installed: seq<InstalledPlugin>): set<string> {
    set i | 0 <= i < |installed| :: installed[i].info.id
  }

  function CatalogueIds(available: seq<Plugin>): set<string> {
    set j | 0 <= j < |available| :: available[j].id
  }

  predicate DistinctIds(available: seq<Plugin>) {
    forall j, k :: 0 <= j < k < |available| ==> available[j].id != available[k].id
  }

  /** The two lists agree: a catalogue entry is flagged installed exactly when its id is in
      the installed list, every installed plugin is in the catalogue, and both lists carry
      the same enabled flag for the same id. */
  predicate Consistent(available: seq<Plugin>, installed: seq<InstalledPlugin>) {
    FlagsMatch(available, installed) && InCatalogue(available, installed) && EnabledAgree(available, installed)
  }

  predicate FlagsMatch(available: seq<Plugin>, installed: seq<InstalledPlugin>) {
    forall j :: 0 <= j < |available| ==> (available[j].isInstalled <==> available[j].id in InstalledIds(installed))
  }

  predicate InCatalogue(available: seq<Plugin>, installed: seq<InstalledPlugin>) {
    forall i :: 0 <= i < |installed| ==> installed[i].info.id in CatalogueIds(available)
  }

  predicate EnabledAgree(available: seq<Plugin>, installed: seq<InstalledPlugin>) {
    forall i, j :: 0 <= i < |installed| && 0 <= j < |available| && installed[i].info.id == available[j].id ==>
      installed[i].info.isEnabled == available[j].isEnabled
  }

  /** Two catalogues with the same id at every position have the same ids. */
  lemma CatalogueIdsPointwise(a: seq<Plugin>, b: seq<Plugin>)
    requires |a| == |b|
    requires forall j :: 0 <= j < |a| ==> a[j].id == b[j].id
    ensures CatalogueIds(a) == CatalogueIds(b)
  {
    forall x | x in CatalogueIds(a) ensures x in CatalogueIds(b) {
      var j :| 0 <= j < |a| && a[j].id == x;
      assert b[j].id == x;
    }
    forall x | x in CatalogueIds(b) ensures x in CatalogueIds(a) {
      var j :| 0 <= j < |b| && b[j].id == x;
      assert a[j].id == x;
    }
  }

  /** Two installed lists with the same id at every position have the same ids. */
  lemma InstalledIdsPointwise(a: seq<InstalledPlugin>, b: seq<InstalledPlugin>)
    requires |a| == |b|
    requires forall i :: 0 <= i < |a| ==> a[i].info.id == b[i].info.id
    ensures InstalledIds(a) == InstalledIds(b)
  {
    forall x | x in InstalledIds(a) ensures x in InstalledIds(b) {
      var i :| 0 <= i < |a| && a[i].info.id == x;
      assert b[i].info.id == x;
    }
    forall x | x in InstalledIds(b) ensures x in InstalledIds(a) {
      var i :| 0 <= i < |b| && b[i].info.id == x;
      assert a[i].info.id == x;
    }
  }

  // ---------------------------------------------------------------------------
  // Loading

  predicate Flagged(p: Plugin) { p.isInstalled }

  /** The installed list the panel starts from: the flagged catalogue entries, in order. */
  function InitialInstalled(catalogue: seq<Plugin>, lastUsed: Plugin -> Timestamp): (r: seq<InstalledPlugin>)
    ensures |r| == |Filter(Flagged, catalogue)|
  {
    Map((p: Plugin) => InstalledPlugin(p, map[], lastUsed(p)), Filter(Flagged, catalogue))
  }

  /** With distinct ids, the initial lists are consistent. */
  lemma InitialConsistent(catalogue: seq<Plugin>, lastUsed: Plugin -> Timestamp)
    requires DistinctIds(catalogue)
    ensures Consistent(catalogue, InitialInstalled(catalogue, lastUsed))
  {
    var flagged := Filter(Flagged, catalogue);
    var inst := InitialInstalled(catalogue, lastUsed);
    FilterMembers(Flagged, catalogue);
    forall i | 0 <= i < |inst|
      ensures exists j :: 0 <= j < |catalogue| && catalogue[j] == inst[i].info && catalogue[j].isInstalled
    {
      assert inst[i].info == flagged[i];
      var j :| 0 <= j < |catalogue| && catalogue[j] == flagged[i];
    }
    assert FlagsMatch(catalogue, inst) by {
      forall j | 0 <= j < |catalogue| ensures catalogue[j].isInstalled <==> catalogue[j].id in InstalledIds(inst) {
        if catalogue[j].isInstalled {
          var i :| 0 <= i < |flagged| && flagged[i] == catalogue[j];
          assert inst[i].info.id == catalogue[j].id;
        }
      }
    }
    assert InCatalogue(catalogue, inst) by {
      forall i | 0 <= i < |inst| ensures inst[i].info.id in CatalogueIds(catalogue) {
        var k :| 0 <= k < |catalogue| && catalogue[k] == inst[i].info && catalogue[k].isInstalled;
      }
    }
    assert EnabledAgree(catalogue, inst) by {
      forall i, j | 0 <= i < |inst| && 0 <= j < |catalogue| && inst[i].info.id == catalogue[j].id
        ensures inst[i].info.isEnabled == catalogue[j].isEnabled
      {
        var k :| 0 <= k < |catalogue| && catalogue[k] == inst[i].info && catalogue[k].isInstalled;
        assert k == j;
      }
    }
  }

  // ---------------------------------------------------------------------------
  // Install, uninstall, toggle

  /** `availablePlugins.find(p => p.id === id)`: the first catalogue plugin with that id. */
  function FindPlugin(available: seq<Plugin>, id: string): (r: Option<Plugin>)
    ensures r.Some? ==> r.value in available && r.value.id == id
    ensures r.Some? ==> exists k :: 0 <= k < |available| && available[k] == r.value
                                   && forall j :: 0 <= j < k ==> available[j].id != id
    ensures r.None? ==> id !in CatalogueIds(available)
  {
    if available == [] then None
    else if available[0].id == id then Some(available[0])
    else
      var r := FindPlugin(available[1..], id);
      CatalogueIdsCons(available);
      if r.Some? then
        ghost var k :| 0 <= k < |available[1..]| && available[1..][k] == r.value
                   && forall j :: 0 <= j < k ==> available[1..][j].id != id;
        assert available[k + 1] == r.value && forall j :: 0 <= j < k + 1 ==> available[j].id != id;
        r
      else r
  }

  /** The ids of a non-empty catalogue: its head's and its tail's. */
  lemma CatalogueIdsCons(available: seq<Plugin>)
    requires available != []
    ensures CatalogueIds(available) == {available[0].id} + CatalogueIds(available[1..])
  {
    forall x | x in CatalogueIds(available) ensures x in {available[0].id} + CatalogueIds(available[1..]) {
      var j :| 0 <= j < |available| && available[j].id == x;
      if j > 0 { assert available[1..][j - 1] == available[j]; }
    }
    forall x | x in CatalogueIds(available[1..]) ensures x in CatalogueIds(available) {
      var j :| 0 <= j < |available[1..]| && available[1..][j].id == x;
      assert available[j + 1] == available[1..][j];
    }
  }

  function MarkInstalled(available: seq<Plugin>, id: string): (r: seq<Plugin>)
    ensures |r| == |available|
    ensures forall j :: 0 <= j < |available| ==>
              r[j] == if available[j].id == id then available[j].(isInstalled := true, isEnabled := true) else available[j]
  {
    Map((p: Plugin) => if p.id == id then p.(isInstalled := true, isEnabled := true) else p, available)
  }

  function MarkUninstalled(available: seq<Plugin>, id: string): (r: seq<Plugin>)
    ensures |r| == |available|
    ensures forall j :: 0 <= j < |available| ==>
              r[j] == if available[j].id == id then available[j].(isInstalled := false, isEnabled := false) else available[j]
  {
    Map((p: Plugin) => if p.id == id then p.(isInstalled := false, isEnabled := false) else p, available)
  }

  function FlipAvailable(available: seq<Plugin>, id: string): (r: seq<Plugin>)
    ensures |r| == |available|
    ensures forall j :: 0 <= j < |available| ==>
              r[j] == if available[j].id == id then available[j].(isEnabled := !available[j].isEnabled) else available[j]
  {
    Map((p: Plugin) => if p.id == id then p.(isEnabled := !p.isEnabled) else p, available)
  }

  function FlipInstalled(installed: seq<InstalledPlugin>, id: string): (r: seq<InstalledPlugin>)
    ensures |r| == |installed|
    ensures forall i :: 0 <= i < |installed| ==>
              r[i] == if installed[i].info.id == id then installed[i].(info := installed[i].info.(isEnabled := !installed[i].info.isEnabled)) else installed[i]
  {
    Map((p: InstalledPlugin) => if p.info.id == id then p.(info := p.info.(isEnabled := !p.info.isEnabled)) else p, installed)
  }

  function WithoutInstalled(installed: seq<InstalledPlugin>, id: string): seq<InstalledPlugin> {
    Filter((p: InstalledPlugin) => p.info.id != id, installed)
  }

  /** The installed entry an install appends: the catalogue record, flagged on, without
      settings. */
  function NewInstall(p: Plugin, now: Timestamp): InstalledPlugin {
    InstalledPlugin(p.(isInstalled := true, isEnabled := true), map[], now)
  }

  lemma InstalledIdsAppend(installed: seq<InstalledPlugin>, e: InstalledPlugin)
    ensures InstalledIds(installed + [e]) == InstalledIds(installed) + {e.info.id}
  {
    var l := installed + [e];
    forall x | x in InstalledIds(l) ensures x in InstalledIds(installed) + {e.info.id} {
      var i :| 0 <= i < |l| && l[i].info.id == x;
      if i < |installed| { assert l[i] == installed[i]; }
    }
    forall x | x in InstalledIds(installed) ensures x in InstalledIds(l) {
      var i :| 0 <= i < |installed| && installed[i].info.id == x;
      assert l[i] == installed[i];
    }
    assert l[|installed|] == e;
  }

  /** Installing a plugin that is not yet installed keeps the lists consistent. */
  lemma InstallPreservesConsistency(available: seq<Plugin>, installed: seq<InstalledPlugin>, id: string, now: Timestamp)
    requires Consistent(available, installed)
    requires FindPlugin(available, id).Some?
    requires id !in InstalledIds(installed)
    ensures Consistent(MarkInstalled(available, id), installed + [NewInstall(FindPlugin(available, id).value, now)])
  {
    var p := FindPlugin(available, id).value;
    InstallKeepsFlagsMatch(available, installed, p, now);
    InstallKeepsInCatalogue(available, installed, p, now);
    InstallKeepsEnabledAgree(available, installed, p, now);
  }

  lemma InstallKeepsFlagsMatch(available: seq<Plugin>, installed: seq<InstalledPlugin>, p: Plugin, now: Timestamp)
    requires FlagsMatch(available, installed)
    ensures FlagsMatch(MarkInstalled(available, p.id), installed + [NewInstall(p, now)])
  {
    InstalledIdsAppend(installed, NewInstall(p, now));
  }

  lemma InstallKeepsInCatalogue(available: seq<Plugin>, installed: seq<InstalledPlugin>, p: Plugin, now: Timestamp)
    requires InCatalogue(available, installed)
    requires p in available
    ensures InCatalogue(MarkInstalled(available, p.id), installed + [NewInstall(p, now)])
  {
    var av := MarkInstalled(available, p.id);
    var inst := installed + [NewInstall(p, now)];
    CatalogueIdsPointwise(av, available);
    forall i | 0 <= i < |inst| ensures inst[i].info.id in CatalogueIds(av) {
      if i < |installed| {
        assert inst[i] == installed[i];
      } else {
        var j :| 0 <= j < |available| && available[j] == p;
        assert available[j].id == p.id;
      }
    }
  }

  lemma InstallKeepsEnabledAgree(available: seq<Plugin>, installed: seq<InstalledPlugin>, p: Plugin, now: Timestamp)
    requires FlagsMatch(available, installed) && EnabledAgree(available, installed)
    requires p.id !in InstalledIds(installed)
    ensures EnabledAgree(MarkInstalled(available, p.id), installed + [NewInstall(p, now)])
  {
    var av := MarkInstalled(available, p.id);
    var inst := installed + [NewInstall(p, now)];
    forall i, j | 0 <= i < |inst| && 0 <= j < |av| && inst[i].info.id == av[j].id
      ensures inst[i].info.isEnabled == av[j].isEnabled
    {
      if i < |installed| {
        assert inst[i] == installed[i];
        assert installed[i].info.id in InstalledIds(installed);
      }
    }
  }

  lemma InstalledIdsWithout(installed: seq<InstalledPlugin>, id: string)
    ensures InstalledIds(WithoutInstalled(installed, id)) == InstalledIds(installed) - {id}
  {
    var p := (e: InstalledPlugin) => e.info.id != id;
    var w := WithoutInstalled(installed, id);
    FilterMembers(p, installed);
    forall x | x in InstalledIds(w) ensures x in InstalledIds(installed) - {id} {
      var i :| 0 <= i < |w| && w[i].info.id == x;
      var k :| 0 <= k < |installed| && installed[k] == w[i];
    }
    forall x | x in InstalledIds(installed) - {id} ensures x in InstalledIds(w) {
      var k :| 0 <= k < |installed| && installed[k].info.id == x;
      var i :| 0 <= i < |w| && w[i] == installed[k];
    }
  }

  /** Uninstalling keeps the lists consistent and leaves no installed entry with that id. */
  lemma UninstallPreservesConsistency(available: seq<Plugin>, installed: seq<InstalledPlugin>, id: string)
    requires Consistent(available, installed)
    ensures Consistent(MarkUninstalled(available, id), WithoutInstalled(installed, id))
    ensures id !in InstalledIds(WithoutInstalled(installed, id))
  {
    InstalledIdsWithout(installed, id);
    UninstallKeepsInCatalogue(available, installed, id);
    UninstallKeepsEnabledAgree(available, installed, id);
  }

  lemma UninstallKeepsInCatalogue(available: seq<Plugin>, installed: seq<InstalledPlugin>, id: string)
    requires InCatalogue(available, installed)
    ensures InCatalogue(MarkUninstalled(available, id), WithoutInstalled(installed, id))
  {
    var av := MarkUninstalled(available, id);
    var w := WithoutInstalled(installed, id);
    FilterMembers((e: InstalledPlugin) => e.info.id != id, installed);
    CatalogueIdsPointwise(av, available);
    forall i | 0 <= i < |w| ensures w[i].info.id in CatalogueIds(av) {
      var k :| 0 <= k < |installed| && installed[k] == w[i];
    }
  }

  lemma UninstallKeepsEnabledAgree(available: seq<Plugin>, installed: seq<InstalledPlugin>, id: string)
    requires EnabledAgree(available, installed)
    ensures EnabledAgree(MarkUninstalled(available, id), WithoutInstalled(installed, id))
  {
    var av := MarkUninstalled(available, id);
    var w := WithoutInstalled(installed, id);
    FilterMembers((e: InstalledPlugin) => e.info.id != id, installed);
    forall i, j | 0 <= i < |w| && 0 <= j < |av| && w[i].info.id == av[j].id
      ensures w[i].info.isEnabled == av[j].isEnabled
    {
      var k :| 0 <= k < |installed| && installed[k] == w[i];
    }
  }

  /** Toggling keeps the lists consistent. */
  lemma TogglePreservesConsistency(available: seq<Plugin>, installed: seq<InstalledPlugin>, id: string)
    requires Consistent(available, installed)
    ensures Consistent(FlipAvailable(available, id), FlipInstalled(installed, id))
  {
    var av := FlipAvailable(available, id);
    var inst := FlipInstalled(installed, id);
    InstalledIdsPointwise(inst, installed);
    CatalogueIdsPointwise(av, available);
    assert FlagsMatch(av, inst);
    assert InCatalogue(av, inst);
  }

  /** Toggling the same plugin twice restores both lists. */
  lemma ToggleTwiceRestores(available: seq<Plugin>, installed: seq<InstalledPlugin>, id: string)
    ensures FlipAvailable(FlipAvailable(available, id), id) == available
    ensures FlipInstalled(FlipInstalled(installed, id), id) == installed
  {
    var a := FlipAvailable(FlipAvailable(available, id), id);
    assert |a| == |available|;
    forall j | 0 <= j < |a| ensures a[j] == available[j] {
    }
    var b := FlipInstalled(FlipInstalled(installed, id), id);
    assert |b| == |installed|;
    forall i | 0 <= i < |b| ensures b[i] == installed[i] {
    }
  }

  // ---------------------------------------------------------------------------
  // Filter and count

  predicate MatchesPlugin(p: Plugin, query: string, category: string) {
    (ContainsIgnoringCase(p.name, query) || ContainsIgnoringCase(p.description, query))
    && (category == AllCategories || p.category == category)
  }

  function FilteredPlugins(available: seq<Plugin>, query: string, category: string): seq<Plugin> {
    Filter((p: Plugin) => MatchesPlugin(p, query, category), available)
  }

  /** The empty pattern occurs in every string. */
  lemma ContainsEmpty(s: string)
    ensures ContainsIgnoringCase(s, "")
  {
    assert OccursAt(ToLower(s), ToLower(""), 0);
  }

  /** The filter keeps, in order, exactly the plugins whose name or description contains the
      query ignoring case and whose category is the selected one (or any, for "all"); with
      an empty query and "all" it keeps the whole catalogue. */
  lemma FilteredPluginsExact(available: seq<Plugin>, query: string, category: string)
    ensures forall i :: 0 <= i < |FilteredPlugins(available, query, category)| ==>
              FilteredPlugins(available, query, category)[i] in available
              && MatchesPlugin(FilteredPlugins(available, query, category)[i], query, category)
    ensures forall j :: 0 <= j < |available| && MatchesPlugin(available[j], query, category) ==>
              available[j] in FilteredPlugins(available, query, category)
    ensures query == "" && category == AllCategories ==> FilteredPlugins(available, query, category) == available
  {
    var p := (x: Plugin) => MatchesPlugin(x, query, category);
    FilterMembers(p, available);
    if query == "" && category == AllCategories {
      forall j | 0 <= j < |available| ensures p(available[j]) {
        ContainsEmpty(available[j].name);
      }
      FilterAll(p, available);
    }
  }

  predicate Active(p: InstalledPlugin) { p.info.isEnabled }

  /** The "Active" figure: installed plugins that are enabled. */
  function ActiveCount(installed: seq<InstalledPlugin>): (n: nat)
    ensures n == |Filter(Active, installed)|
    ensures n <= |installed|
  {
    CountIsFilterLength(Active, installed);
    Count(Active, installed)
  }

  /** After an uninstall no active plugin carries that id, and the count does not grow. */
  lemma UninstallActive(installed: seq<InstalledPlugin>, id: string)
    ensures ActiveCount(WithoutInstalled(installed, id)) <= ActiveCount(installed)
    ensures forall i :: 0 <= i < |Filter(Active, WithoutInstalled(installed, id))| ==>
              Filter(Active, WithoutInstalled(installed, id))[i].info.id != id
  {
    var w := WithoutInstalled(installed, id);
    FilterMembers((e: InstalledPlugin) => e.info.id != id, installed);
    FilterMembers(Active, w);
    FilterSubset(installed, id);
  }

  lemma {:induction false} FilterSubset(installed: seq<InstalledPlugin>, id: string)
    ensures |Filter(Active, WithoutInstalled(installed, id))| <= |Filter(Active, installed)|
  {
    if installed != [] {
      var rest := WithoutInstalled(installed[1..], id);
      var h := if installed[0].info.id != id then [installed[0]] else [];
      assert WithoutInstalled(installed, id) == h + rest;
      FilterAppend(Active, h, rest);
      FilterSubset(installed[1..], id);
    }
  }

  // ---------------------------------------------------------------------------
  // The component

  class PluginRegistry {
    var available: seq<Plugin>
    var installed: seq<InstalledPlugin>
    var searchQuery: string
    var selectedCategory: string
    var isLoading: bool

    constructor ()
      ensures available == [] && installed == [] && searchQuery == "" && selectedCategory == AllCategories
      ensures isLoading
      ensures Consistent(available, installed)
    {
      available := [];
      installed := [];
      searchQuery := "";
      selectedCategory := AllCategories;
      isLoading := true;
    }

    /** The delayed catalogue arrives: the installed list is made from its flagged entries
        and loading ends. */
    method Load(catalogue: seq<Plugin>, lastUsed: Plugin -> Timestamp)
      modifies this
      ensures available == catalogue && installed == InitialInstalled(catalogue, lastUsed) && !isLoading
      ensures DistinctIds(catalogue) ==> Consistent(available, installed)
      ensures searchQuery == old(searchQuery) && selectedCategory == old(selectedCategory)
    {
      available := catalogue;
      installed := InitialInstalled(catalogue, lastUsed);
      isLoading := false;
      if DistinctIds(catalogue) {
        InitialConsistent(catalogue, lastUsed);
      }
    }

    /** An unknown id changes nothing; otherwise the catalogue entries with that id are
        flagged installed and enabled and one installed entry is appended, whether or not
        the plugin was already installed. */
    method InstallPlugin(id: string, now: Timestamp)
      modifies this
      ensures FindPlugin(old(available), id).None? ==> available == old(available) && installed == old(installed)
      ensures FindPlugin(old(available), id).Some? ==>
                && available == MarkInstalled(old(available), id)
                && installed == old(installed) + [NewInstall(FindPlugin(old(available), id).value, now)]
      ensures old(Consistent(available, installed)) && id !in old(InstalledIds(installed)) ==> Consistent(available, installed)
      ensures searchQuery == old(searchQuery) && selectedCategory == old(selectedCategory) && isLoading == old(isLoading)
    {
      var plugin := FindPlugin(available, id);
      if plugin.None? {
        return;
      }
      if Consistent(available, installed) && id !in InstalledIds(installed) {
        InstallPreservesConsistency(available, installed, id, now);
      }
      available := MarkInstalled(available, id);
      installed := installed + [NewInstall(plugin.value, now)];
    }

    method UninstallPlugin(id: string)
      modifies this
      ensures available == MarkUninstalled(old(available), id)
      ensures installed == WithoutInstalled(old(installed), id)
      ensures old(Consistent(available, installed)) ==> Consistent(available, installed)
      ensures searchQuery == old(searchQuery) && selectedCategory == old(selectedCategory) && isLoading == old(isLoading)
    {
      if Consistent(available, installed) {
        UninstallPreservesConsistency(available, installed, id);
      }
      available := MarkUninstalled(available, id);
      installed := WithoutInstalled(installed, id);
    }

    method TogglePlugin(id: string)
      modifies this
      ensures installed == FlipInstalled(old(installed), id)
      ensures available == FlipAvailable(old(available), id)
      ensures old(Consistent(available, installed)) ==> Consistent(available, installed)
      ensures searchQuery == old(searchQuery) && selectedCategory == old(selectedCategory) && isLoading == old(isLoading)
    {
      if Consistent(available, installed) {
        TogglePreservesConsistency(available, installed, id);
      }
      installed := FlipInstalled(installed, id);
      available := FlipAvailable(available, id);
    }

    method SetSearch(query: string, category: string)
      modifies this
      ensures searchQuery == query && selectedCategory == category
      ensures available == old(available) && installed == old(installed) && isLoading == old(isLoading)
    {
      searchQuery := query;
      selectedCategory := category;
    }
  }
}
