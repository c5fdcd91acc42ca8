/**
 * `PluginRegistry::load`: the enabled plugin identifiers are normalised; the plugin
 * directories under the search directories are scanned for manifests; every enabled plugin
 * must be found exactly once; then the enabled plugins are merged into a registry in enabled
 * order, failing on the first conflicting or unusable declaration.
 *
 * Manifests arrive already parsed (or marked unreadable or malformed), directory listings are
 * given per directory, and the prompt files that can be read are given by path.
 */
module PluginLoad {
  import opened Wrappers
  import opened Text
  import opened Ordering
  import opened RoleIds
  import opened CollaborationModes
  import opened Plugins

  // ----- Manifests -----

  datatype ModeOverrideManifest = ModeOverrideManifest(promptFile: string)

  datatype RoleManifest = RoleManifest(
    kind: RoleKind,
    displayName: Option<string>,
    description: Option<string>,
    promptFile: string,
    readOnly: Option<bool>,
    allowsCollabTools: Option<bool>,
    model: Option<string>,
    reasoningEffort: Option<ReasoningEffort>)

  datatype CategoryManifest = CategoryManifest(displayName: Option<string>, promptAppendFile: string)

  datatype UiManifest = UiManifest(tabPickerRoles: seq<string>, agentConfigCallers: seq<string>, agentConfigTargets: seq<string>)

  /**
   * A parsed `plugin.toml`.  The collaboration-mode table and the spawn-defaults table are hash
   * maps: they are given as their entries in iteration order.  Roles and categories are ordered
   * maps, iterated by key.
   */
  datatype PluginManifest = PluginManifest(
    id: string,
    defaultAgentRole: Option<string>,
    collaborationModes: seq<(ModeKind, ModeOverrideManifest)>,
    roles: map<string, RoleManifest>,
    categories: map<string, CategoryManifest>,
    ui: UiManifest,
    spawnDefaultsAllow: seq<(string, seq<string>)>)

  datatype ManifestFile = Parsed(manifest: PluginManifest) | Unreadable | Malformed

  /** An entry of a search directory: is it a directory, and what its `plugin.toml` file holds, if it has one. */
  datatype DirEntry = DirEntry(path: PathBuf, isDir: bool, manifestFile: Option<ManifestFile>)

  datatype LoadError =
    | ManifestUnreadable(path: PathBuf)
    | ManifestMalformed(path: PathBuf)
    | DuplicatePlugin(pluginId: string)
    | PluginsNotFound(missing: seq<string>)
    | MissingManifest(pluginId: string)
    | DuplicateModeOverride(mode: ModeKind)
    | InvalidModePromptPath(mode: ModeKind, error: PathError)
    | UnreadableModePrompt(path: PathBuf)
    | EmptyModePrompt(path: PathBuf)
    | RenderedEmptyModePrompt(path: PathBuf)
    | DuplicateRole(roleId: string)
    | InvalidRolePromptPath(rawRoleId: string, error: PathError)
    | DuplicateCategory(categoryId: string)
    | InvalidCategoryPromptPath(rawCategoryId: string, error: PathError)

  // ----- Normalised identifier lists -----

  predicate IsNonEmpty(id: string) {
    id != []
  }

  /** The normalised, non-empty identifiers of a list, in order (`enabled` and the UI lists). */
  function NormalizedIds(raw: seq<string>): seq<string> {
    Filter(Map(raw, NormalizeId), IsNonEmpty)
  }

  /** An identifier is listed exactly when some entry normalises to it and it is not empty. */
  lemma NormalizedIdsMembers(raw: seq<string>, x: string)
    ensures x in NormalizedIds(raw) <==> x != [] && exists i :: 0 <= i < |raw| && NormalizeId(raw[i]) == x
  {
    var m := Map(raw, NormalizeId);
    assert x in m <==> exists i :: 0 <= i < |raw| && m[i] == x;
  }

  /**
   * Normalisation works entry by entry and keeps the order; in particular an identifier listed
   * twice stays listed twice.
   */
  lemma NormalizedIdsAppend(a: seq<string>, b: seq<string>)
    ensures NormalizedIds(a + b) == NormalizedIds(a) + NormalizedIds(b)
  {
    MapAppend(a, b, NormalizeId);
    FilterAppend(Map(a, NormalizeId), Map(b, NormalizeId), IsNonEmpty);
  }

  // ----- Discovery -----

  const ManifestFileName: string := "plugin.toml"

  /** The identifier a directory entry's manifest declares, if the entry is a plugin directory with a parsed manifest. */
  function DeclaredId(e: DirEntry): Option<string> {
    if e.isDir && e.manifestFile.Some? && e.manifestFile.value.Parsed? then
      Some(NormalizeId(e.manifestFile.value.manifest.id))
    else None
  }

  type Found = map<string, (PathBuf, PluginManifest)>

  /** One step of the scan: entries that are not plugin directories are skipped; a manifest that cannot be read or parsed stops the load. */
  function DiscoverEntry(e: DirEntry, enabled: set<string>, found: Found): Result<Found, LoadError> {
    if !e.isDir || e.manifestFile.None? then Ok(found)
    else
      match e.manifestFile.value
      case Unreadable => Err(ManifestUnreadable(Child(e.path, ManifestFileName)))
      case Malformed => Err(ManifestMalformed(Child(e.path, ManifestFileName)))
      case Parsed(m) =>
        var id := NormalizeId(m.id);
        if id !in enabled then Ok(found)
        else if id in found then Err(DuplicatePlugin(id))
        else Ok(found[id := (e.path, m)])
  }

  function DiscoverEntries(entries: seq<DirEntry>, enabled: set<string>, found: Found): Result<Found, LoadError>
    decreases |entries|
  {
    if entries == [] then Ok(found)
    else
      var found' :- DiscoverEntry(entries[0], enabled, found);
      DiscoverEntries(entries[1..], enabled, found')
  }

  /** The entries of the search directories in order; a directory that cannot be listed contributes nothing. */
  function Listed(dirs: seq<PathBuf>, listing: map<PathBuf, seq<DirEntry>>): seq<DirEntry> {
    if dirs == [] then []
    else (if dirs[0] in listing then listing[dirs[0]] else []) + Listed(dirs[1..], listing)
  }

  /** The plugins found, by normalised identifier, with their directories and manifests. */
  function Discover(dirs: seq<PathBuf>, listing: map<PathBuf, seq<DirEntry>>, enabled: set<string>): Result<Found, LoadError> {
    DiscoverEntries(Listed(dirs, listing), enabled, map[])
  }

  // ----- Merging -----

  /** The default agent role a manifest brings: its normalised value, unless that is empty. */
  function DefaultRoleOf(m: PluginManifest): (r: Option<string>)
    ensures r.Some? ==> r.value != [] && IsNormalized(r.value)
    ensures r.Some? <==> m.defaultAgentRole.Some? && !IsBlank(m.defaultAgentRole.value)
  {
    match m.defaultAgentRole
    case None => None
    case Some(raw) =>
      NormalizeIdIsNormalized(raw);
      var id := NormalizeId(raw);
      if id == [] then None else Some(id)
  }

  /** How a mode's prompt template becomes the stored prompt. */
  type Renderer = (string, ModeKind) -> string

  /** `render_collaboration_mode_template`, for the given tool availability. */
  function ModeRenderer(allows: ModeKind -> bool): Renderer {
    (template: string, mode: ModeKind) => Render(template, mode, allows)
  }

  /** Adds the rendered prompt for one collaboration-mode override. */
  function MergeMode(reg: Registry, dir: PathBuf, entry: (ModeKind, ModeOverrideManifest),
                     prompts: map<PathBuf, string>, render: Renderer): Result<Registry, LoadError>
  {
    var mode := entry.0;
    if mode in reg.modeOverrides then Err(DuplicateModeOverride(mode))
    else
      match ResolvePluginPath(dir, entry.1.promptFile)
      case Err(e) => Err(InvalidModePromptPath(mode, e))
      case Ok(path) =>
        if path !in prompts then Err(UnreadableModePrompt(path))
        else if IsBlank(prompts[path]) then Err(EmptyModePrompt(path))
        else
          var rendered := render(prompts[path], mode);
          if IsBlank(rendered) then Err(RenderedEmptyModePrompt(path))
          else Ok(reg.(modeOverrides := reg.modeOverrides[mode := rendered]))
  }

  function MergeModes(reg: Registry, dir: PathBuf, entries: seq<(ModeKind, ModeOverrideManifest)>,
                      prompts: map<PathBuf, string>, render: Renderer): Result<Registry, LoadError>
    decreases |entries|
  {
    if entries == [] then Ok(reg)
    else
      var reg' :- MergeMode(reg, dir, entries[0], prompts, render);
      MergeModes(reg', dir, entries[1..], prompts, render)
  }

  /** The definition a role declaration yields, with its defaults filled in. */
  function RoleFrom(id: string, pluginId: string, rm: RoleManifest, path: PathBuf): RoleDefinition {
    RoleDefinition(id, pluginId, rm.kind, rm.displayName.GetOr(id), rm.description, path,
      rm.readOnly.GetOr(false), rm.allowsCollabTools.GetOr(true), rm.model, rm.reasoningEffort)
  }

  /** Adds one role; a role whose identifier normalises to nothing is skipped. */
  function MergeRole(reg: Registry, pluginId: string, dir: PathBuf, rawId: string, rm: RoleManifest): Result<Registry, LoadError> {
    var id := NormalizeId(rawId);
    if id == [] then Ok(reg)
    else if id in reg.roles then Err(DuplicateRole(id))
    else
      match ResolvePluginPath(dir, rm.promptFile)
      case Err(e) => Err(InvalidRolePromptPath(rawId, e))
      case Ok(path) => Ok(reg.(roles := reg.roles[id := RoleFrom(id, pluginId, rm, path)]))
  }

  function MergeRoles(reg: Registry, pluginId: string, dir: PathBuf, roles: map<string, RoleManifest>, keys: seq<string>): Result<Registry, LoadError>
    requires forall k :: k in keys ==> k in roles
    decreases |keys|
  {
    if keys == [] then Ok(reg)
    else
      var reg' :- MergeRole(reg, pluginId, dir, keys[0], roles[keys[0]]);
      MergeRoles(reg', pluginId, dir, roles, keys[1..])
  }

  /** The definition a category declaration yields; its label defaults to the identifier as written. */
  function CategoryFrom(id: string, pluginId: string, rawId: string, cm: CategoryManifest, path: PathBuf): CategoryDefinition {
    CategoryDefinition(id, pluginId, cm.displayName.GetOr(rawId), path)
  }

  /** Adds one category; a category whose identifier normalises to nothing is skipped. */
  function MergeCategory(reg: Registry, pluginId: string, dir: PathBuf, rawId: string, cm: CategoryManifest): Result<Registry, LoadError> {
    var id := NormalizeId(rawId);
    if id == [] then Ok(reg)
    else if id in reg.categories then Err(DuplicateCategory(id))
    else
      match ResolvePluginPath(dir, cm.promptAppendFile)
      case Err(e) => Err(InvalidCategoryPromptPath(rawId, e))
      case Ok(path) => Ok(reg.(categories := reg.categories[id := CategoryFrom(id, pluginId, rawId, cm, path)]))
  }

  function MergeCategories(reg: Registry, pluginId: string, dir: PathBuf, categories: map<string, CategoryManifest>, keys: seq<string>): Result<Registry, LoadError>
    requires forall k :: k in keys ==> k in categories
    decreases |keys|
  {
    if keys == [] then Ok(reg)
    else
      var reg' :- MergeCategory(reg, pluginId, dir, keys[0], categories[keys[0]]);
      MergeCategories(reg', pluginId, dir, categories, keys[1..])
  }

  /** Spawn defaults: each entry replaces whatever an earlier one stored for the same normalised caller. */
  function MergeSpawnDefaults(allow: map<string, seq<string>>, entries: seq<(string, seq<string>)>): map<string, seq<string>>
    decreases |entries|
  {
    if entries == [] then allow
    else MergeSpawnDefaults(allow[NormalizeId(entries[0].0) := entries[0].1], entries[1..])
  }

  function ExtendUi(ui: UiSpec, m: UiManifest): UiSpec {
    UiSpec(ui.tabPickerRoles + NormalizedIds(m.tabPickerRoles),
      ui.agentConfigCallers + NormalizedIds(m.agentConfigCallers),
      ui.agentConfigTargets + NormalizedIds(m.agentConfigTargets))
  }

  /** The first stage of a plugin's merge: its default agent role is taken only when none is set yet. */
  function StartPlugin(reg: Registry, m: PluginManifest): Registry {
    if reg.defaultAgentRole.None? then reg.(defaultAgentRole := DefaultRoleOf(m)) else reg
  }

  /** The roles, then the categories, a plugin declares, each in key order. */
  function MergeDeclarations(reg: Registry, pluginId: string, dir: PathBuf, m: PluginManifest): Result<Registry, LoadError> {
    var reg3 :- MergeRoles(reg, pluginId, dir, m.roles, SortedElements(m.roles.Keys));
    MergeCategories(reg3, pluginId, dir, m.categories, SortedElements(m.categories.Keys))
  }

  /** The last stage of a plugin's merge: its spawn defaults and its UI lists. */
  function FinishPlugin(reg: Registry, m: PluginManifest): Registry {
    reg.(spawnDefaultsAllow := MergeSpawnDefaults(reg.spawnDefaultsAllow, m.spawnDefaultsAllow),
         ui := ExtendUi(reg.ui, m.ui))
  }

  /** Merges one enabled plugin into the registry. */
  function MergePlugin(reg: Registry, pluginId: string, dir: PathBuf, m: PluginManifest,
                       prompts: map<PathBuf, string>, render: Renderer): Result<Registry, LoadError>
  {
    var reg2 :- MergeModes(StartPlugin(reg, m), dir, m.collaborationModes, prompts, render);
    var reg4 :- MergeDeclarations(reg2, pluginId, dir, m);
    Ok(FinishPlugin(reg4, m))
  }

  function MergeAll(ids: seq<string>, found: Found, reg: Registry,
                    prompts: map<PathBuf, string>, render: Renderer): Result<Registry, LoadError>
    decreases |ids|
  {
    if ids == [] then Ok(reg)
    else if ids[0] !in found then Err(MissingManifest(ids[0]))
    else
      var reg' :- MergePlugin(reg, ids[0], found[ids[0]].0, found[ids[0]].1, prompts, render);
      MergeAll(ids[1..], found, reg', prompts, render)
  }

  /** The enabled identifiers that no manifest declared. */
  function MissingIds(enabled: seq<string>, found: Found): seq<string> {
    Filter(enabled, (id: string) => id !in found)
  }

  function SetOf(xs: seq<string>): set<string> {
    set x | x in xs
  }

  /** What `load` returns, given the search directories. */
  function LoadFrom(enabledRaw: seq<string>, dirs: seq<PathBuf>, listing: map<PathBuf, seq<DirEntry>>,
                    prompts: map<PathBuf, string>, allows: ModeKind -> bool): Result<Registry, LoadError>
  {
    var enabled := NormalizedIds(enabledRaw);
    if enabled == [] then Ok(EmptyRegistry)
    else
      var found :- Discover(dirs, listing, SetOf(enabled));
      var missing := MissingIds(enabled, found);
      if missing != [] then Err(PluginsNotFound(missing))
      else MergeAll(enabled, found, EmptyRegistry.(enabled := enabled), prompts, ModeRenderer(allows))
  }

  // ----- The loader, step by step -----

  lemma NormalizedIdsSingle(x: string)
    ensures NormalizedIds([x]) == if NormalizeId(x) == [] then [] else [NormalizeId(x)]
  {
    assert Map([x], NormalizeId) == [NormalizeId(x)] + Map([x][1..], NormalizeId);
    assert [x][1..] == [];
    var m := [NormalizeId(x)];
    assert Filter(m, IsNonEmpty) == (if IsNonEmpty(m[0]) then [m[0]] else []) + Filter(m[1..], IsNonEmpty);
    assert m[1..] == [];
  }

  /** The enabled identifiers, normalised, with the empty ones dropped. */
  method NormalizeEnabled(raw: seq<string>) returns (ids: seq<string>)
    ensures ids == NormalizedIds(raw)
  {
    ids := [];
    var i := 0;
    while i < |raw|
      invariant 0 <= i <= |raw|
      invariant ids == NormalizedIds(raw[..i])
    {
      var id := NormalizeId(raw[i]);
      assert raw[..i + 1] == raw[..i] + [raw[i]];
      NormalizedIdsAppend(raw[..i], [raw[i]]);
      NormalizedIdsSingle(raw[i]);
      if id != [] {
        ids := ids + [id];
      }
      i := i + 1;
    }
    assert raw[..i] == raw;
  }

  lemma ListedStep(dirs: seq<PathBuf>, d: nat, listing: map<PathBuf, seq<DirEntry>>)
    requires d < |dirs|
    ensures Listed(dirs[d..], listing) == (if dirs[d] in listing then listing[dirs[d]] else []) + Listed(dirs[d + 1..], listing)
  {
    assert dirs[d..][0] == dirs[d];
    assert dirs[d..][1..] == dirs[d + 1..];
  }

  lemma DiscoverEntriesStep(entries: seq<DirEntry>, j: nat, enabled: set<string>, found: Found)
    requires j < |entries|
    ensures var step := DiscoverEntry(entries[j], enabled, found);
      step.Err? ==> DiscoverEntries(entries[j..], enabled, found) == Err(step.error)
    ensures var step := DiscoverEntry(entries[j], enabled, found);
      step.Ok? ==> DiscoverEntries(entries[j..], enabled, found) == DiscoverEntries(entries[j + 1..], enabled, step.value)
  {
    assert entries[j..][0] == entries[j];
    assert entries[j..][1..] == entries[j + 1..];
  }

  /** Scanning one listing after another is scanning the first, then the second from where the first stopped. */
  lemma {:induction false} DiscoverEntriesAppend(a: seq<DirEntry>, b: seq<DirEntry>, enabled: set<string>, found: Found)
    ensures DiscoverEntries(a, enabled, found).Err? ==> DiscoverEntries(a + b, enabled, found) == DiscoverEntries(a, enabled, found)
    ensures DiscoverEntries(a, enabled, found).Ok? ==>
      DiscoverEntries(a + b, enabled, found) == DiscoverEntries(b, enabled, DiscoverEntries(a, enabled, found).value)
  {
    if a == [] {
      assert a + b == b;
    } else {
      assert (a + b)[0] == a[0];
      assert (a + b)[1..] == a[1..] + b;
      var step := DiscoverEntry(a[0], enabled, found);
      if step.Ok? {
        DiscoverEntriesAppend(a[1..], b, enabled, step.value);
      }
    }
  }

  /** One entry of a search directory (the body of the inner loop of the scan). */
  method ScanEntry(e: DirEntry, enabled: set<string>, found: Found) returns (r: Result<Found, LoadError>)
    ensures r == DiscoverEntry(e, enabled, found)
  {
    if !e.isDir || e.manifestFile.None? {
      return Ok(found);
    }
    match e.manifestFile.value
    case Unreadable =>
      return Err(ManifestUnreadable(Child(e.path, ManifestFileName)));
    case Malformed =>
      return Err(ManifestMalformed(Child(e.path, ManifestFileName)));
    case Parsed(m) =>
      var id := NormalizeId(m.id);
      if id !in enabled {
        return Ok(found);
      }
      if id in found {
        return Err(DuplicatePlugin(id));
      }
      return Ok(found[id := (e.path, m)]);
  }

  /** The inner loop of the scan: the entries of one search directory. */
  method DiscoverInDir(entries: seq<DirEntry>, enabled: set<string>, found0: Found) returns (r: Result<Found, LoadError>)
    ensures r == DiscoverEntries(entries, enabled, found0)
  {
    var found := found0;
    var j := 0;
    while j < |entries|
      invariant 0 <= j <= |entries|
      invariant DiscoverEntries(entries, enabled, found0) == DiscoverEntries(entries[j..], enabled, found)
    {
      DiscoverEntriesStep(entries, j, enabled, found);
      var step := ScanEntry(entries[j], enabled, found);
      if step.Err? {
        return Err(step.error);
      }
      found := step.value;
      j := j + 1;
    }
    return Ok(found);
  }

  /** The scan of the search directories, in order; a directory that cannot be listed is skipped. */
  method DiscoverPlugins(dirs: seq<PathBuf>, listing: map<PathBuf, seq<DirEntry>>, enabled: set<string>)
    returns (r: Result<Found, LoadError>)
    ensures r == Discover(dirs, listing, enabled)
  {
    var found: Found := map[];
    var d := 0;
    while d < |dirs|
      invariant 0 <= d <= |dirs|
      invariant Discover(dirs, listing, enabled) == DiscoverEntries(Listed(dirs[d..], listing), enabled, found)
    {
      ListedStep(dirs, d, listing);
      var rest := Listed(dirs[d + 1..], listing);
      if dirs[d] in listing {
        var entries := listing[dirs[d]];
        DiscoverEntriesAppend(entries, rest, enabled, found);
        var step := DiscoverInDir(entries, enabled, found);
        if step.Err? {
          return Err(step.error);
        }
        found := step.value;
      } else {
        assert Listed(dirs[d..], listing) == rest;
      }
      d := d + 1;
    }
    return Ok(found);
  }

  lemma MissingIdsSnoc(xs: seq<string>, x: string, found: Found)
    ensures MissingIds(xs + [x], found) == MissingIds(xs, found) + (if x in found then [] else [x])
  {
    FilterAppend(xs, [x], (id: string) => id !in found);
    assert [x][1..] == [];
  }

  /** The enabled identifiers no manifest was found for, in enabled order. */
  method CollectMissing(enabled: seq<string>, found: Found) returns (missing: seq<string>)
    ensures missing == MissingIds(enabled, found)
  {
    missing := [];
    var i := 0;
    while i < |enabled|
      invariant 0 <= i <= |enabled|
      invariant missing == MissingIds(enabled[..i], found)
    {
      assert enabled[..i + 1] == enabled[..i] + [enabled[i]];
      MissingIdsSnoc(enabled[..i], enabled[i], found);
      if enabled[i] !in found {
        missing := missing + [enabled[i]];
      }
      i := i + 1;
    }
    assert enabled[..i] == enabled;
  }

  lemma MergeModesStep(reg: Registry, dir: PathBuf, entries: seq<(ModeKind, ModeOverrideManifest)>, i: nat,
                       prompts: map<PathBuf, string>, render: Renderer)
    requires i < |entries|
    ensures var step := MergeMode(reg, dir, entries[i], prompts, render);
      step.Err? ==> MergeModes(reg, dir, entries[i..], prompts, render) == Err(step.error)
    ensures var step := MergeMode(reg, dir, entries[i], prompts, render);
      step.Ok? ==> MergeModes(reg, dir, entries[i..], prompts, render) == MergeModes(step.value, dir, entries[i + 1..], prompts, render)
  {
    assert entries[i..][0] == entries[i];
    assert entries[i..][1..] == entries[i + 1..];
  }

  /** One collaboration-mode override: checked, read, rendered and stored. */
  method MergeModeOverride(reg: Registry, dir: PathBuf, entry: (ModeKind, ModeOverrideManifest),
                           prompts: map<PathBuf, string>, render: Renderer)
    returns (r: Result<Registry, LoadError>)
    ensures r == MergeMode(reg, dir, entry, prompts, render)
  {
    var mode := entry.0;
    if mode in reg.modeOverrides {
      return Err(DuplicateModeOverride(mode));
    }
    var resolved := ResolvePluginPath(dir, entry.1.promptFile);
    if resolved.Err? {
      return Err(InvalidModePromptPath(mode, resolved.error));
    }
    var path := resolved.value;
    if path !in prompts {
      return Err(UnreadableModePrompt(path));
    }
    if IsBlank(prompts[path]) {
      return Err(EmptyModePrompt(path));
    }
    var rendered := render(prompts[path], mode);
    if IsBlank(rendered) {
      return Err(RenderedEmptyModePrompt(path));
    }
    return Ok(reg.(modeOverrides := reg.modeOverrides[mode := rendered]));
  }

  /** The collaboration-mode overrides of one plugin, in the manifest's iteration order. */
  method MergeModeOverrides(reg0: Registry, dir: PathBuf, entries: seq<(ModeKind, ModeOverrideManifest)>,
                            prompts: map<PathBuf, string>, render: Renderer)
    returns (r: Result<Registry, LoadError>)
    ensures r == MergeModes(reg0, dir, entries, prompts, render)
  {
    var reg := reg0;
    var i := 0;
    while i < |entries|
      invariant 0 <= i <= |entries|
      invariant MergeModes(reg0, dir, entries, prompts, render) == MergeModes(reg, dir, entries[i..], prompts, render)
    {
      MergeModesStep(reg, dir, entries, i, prompts, render);
      var step := MergeModeOverride(reg, dir, entries[i], prompts, render);
      if step.Err? {
        return Err(step.error);
      }
      reg := step.value;
      i := i + 1;
    }
    return Ok(reg);
  }

  lemma MergeRolesStep(reg: Registry, pluginId: string, dir: PathBuf, roles: map<string, RoleManifest>, keys: seq<string>, i: nat)
    requires i < |keys| && forall k :: k in keys ==> k in roles
    ensures var step := MergeRole(reg, pluginId, dir, keys[i], roles[keys[i]]);
      step.Err? ==> MergeRoles(reg, pluginId, dir, roles, keys[i..]) == Err(step.error)
    ensures var step := MergeRole(reg, pluginId, dir, keys[i], roles[keys[i]]);
      step.Ok? ==> MergeRoles(reg, pluginId, dir, roles, keys[i..]) == MergeRoles(step.value, pluginId, dir, roles, keys[i + 1..])
  {
    assert keys[i..][0] == keys[i];
    assert keys[i..][1..] == keys[i + 1..];
  }

  /** One role declaration: skipped when its identifier normalises to nothing, else checked and stored. */
  method MergeRoleDeclaration(reg: Registry, pluginId: string, dir: PathBuf, rawId: string, rm: RoleManifest)
    returns (r: Result<Registry, LoadError>)
    ensures r == MergeRole(reg, pluginId, dir, rawId, rm)
  {
    var id := NormalizeId(rawId);
    if id == [] {
      return Ok(reg);
    }
    if id in reg.roles {
      return Err(DuplicateRole(id));
    }
    var resolved := ResolvePluginPath(dir, rm.promptFile);
    if resolved.Err? {
      return Err(InvalidRolePromptPath(rawId, resolved.error));
    }
    return Ok(reg.(roles := reg.roles[id := RoleFrom(id, pluginId, rm, resolved.value)]));
  }

  /** The roles of one plugin, by raw identifier in key order. */
  method MergeRoleDefinitions(reg0: Registry, pluginId: string, dir: PathBuf, roles: map<string, RoleManifest>, keys: seq<string>)
    returns (r: Result<Registry, LoadError>)
    requires forall k :: k in keys ==> k in roles
    ensures r == MergeRoles(reg0, pluginId, dir, roles, keys)
  {
    var reg := reg0;
    var i := 0;
    while i < |keys|
      invariant 0 <= i <= |keys|
      invariant MergeRoles(reg0, pluginId, dir, roles, keys) == MergeRoles(reg, pluginId, dir, roles, keys[i..])
    {
      MergeRolesStep(reg, pluginId, dir, roles, keys, i);
      var step := MergeRoleDeclaration(reg, pluginId, dir, keys[i], roles[keys[i]]);
      if step.Err? {
        return Err(step.error);
      }
      reg := step.value;
      i := i + 1;
    }
    return Ok(reg);
  }

  lemma MergeCategoriesStep(reg: Registry, pluginId: string, dir: PathBuf, categories: map<string, CategoryManifest>, keys: seq<string>, i: nat)
    requires i < |keys| && forall k :: k in keys ==> k in categories
    ensures var step := MergeCategory(reg, pluginId, dir, keys[i], categories[keys[i]]);
      step.Err? ==> MergeCategories(reg, pluginId, dir, categories, keys[i..]) == Err(step.error)
    ensures var step := MergeCategory(reg, pluginId, dir, keys[i], categories[keys[i]]);
      step.Ok? ==> MergeCategories(reg, pluginId, dir, categories, keys[i..]) == MergeCategories(step.value, pluginId, dir, categories, keys[i + 1..])
  {
    assert keys[i..][0] == keys[i];
    assert keys[i..][1..] == keys[i + 1..];
  }

  /** One category declaration: skipped when its identifier normalises to nothing, else checked and stored. */
  method MergeCategoryDeclaration(reg: Registry, pluginId: string, dir: PathBuf, rawId: string, cm: CategoryManifest)
    returns (r: Result<Registry, LoadError>)
    ensures r == MergeCategory(reg, pluginId, dir, rawId, cm)
  {
    var id := NormalizeId(rawId);
    if id == [] {
      return Ok(reg);
    }
    if id in reg.categories {
      return Err(DuplicateCategory(id));
    }
    var resolved := ResolvePluginPath(dir, cm.promptAppendFile);
    if resolved.Err? {
      return Err(InvalidCategoryPromptPath(rawId, resolved.error));
    }
    return Ok(reg.(categories := reg.categories[id := CategoryFrom(id, pluginId, rawId, cm, resolved.value)]));
  }

  /** The categories of one plugin, by raw identifier in key order. */
  method MergeCategoryDefinitions(reg0: Registry, pluginId: string, dir: PathBuf, categories: map<string, CategoryManifest>, keys: seq<string>)
    returns (r: Result<Registry, LoadError>)
    requires forall k :: k in keys ==> k in categories
    ensures r == MergeCategories(reg0, pluginId, dir, categories, keys)
  {
    var reg := reg0;
    var i := 0;
    while i < |keys|
      invariant 0 <= i <= |keys|
      invariant MergeCategories(reg0, pluginId, dir, categories, keys) == MergeCategories(reg, pluginId, dir, categories, keys[i..])
    {
      MergeCategoriesStep(reg, pluginId, dir, categories, keys, i);
      var step := MergeCategoryDeclaration(reg, pluginId, dir, keys[i], categories[keys[i]]);
      if step.Err? {
        return Err(step.error);
      }
      reg := step.value;
      i := i + 1;
    }
    return Ok(reg);
  }

  /** The spawn defaults of one plugin, entry by entry. */
  method MergeSpawnDefaultEntries(allow0: map<string, seq<string>>, entries: seq<(string, seq<string>)>)
    returns (allow: map<string, seq<string>>)
    ensures allow == MergeSpawnDefaults(allow0, entries)
  {
    allow := allow0;
    var i := 0;
    while i < |entries|
      invariant 0 <= i <= |entries|
      invariant MergeSpawnDefaults(allow0, entries) == MergeSpawnDefaults(allow, entries[i..])
    {
      assert entries[i..][0] == entries[i] && entries[i..][1..] == entries[i + 1..];
      allow := allow[NormalizeId(entries[i].0) := entries[i].1];
      i := i + 1;
    }
  }

  /** One enabled plugin, merged into the registry (the body of the outer loop of the merge). */
  method MergeEnabledPlugin(reg: Registry, pluginId: string, dir: PathBuf, m: PluginManifest,
                            prompts: map<PathBuf, string>, render: Renderer)
    returns (r: Result<Registry, LoadError>)
    ensures r == MergePlugin(reg, pluginId, dir, m, prompts, render)
  {
    var reg1 := reg;
    if reg1.defaultAgentRole.None? {
      reg1 := reg1.(defaultAgentRole := DefaultRoleOf(m));
    }
    var reg2 :- MergeModeOverrides(reg1, dir, m.collaborationModes, prompts, render);
    var reg3 :- MergeRoleDefinitions(reg2, pluginId, dir, m.roles, SortedElements(m.roles.Keys));
    var reg4 :- MergeCategoryDefinitions(reg3, pluginId, dir, m.categories, SortedElements(m.categories.Keys));
    var allow := MergeSpawnDefaultEntries(reg4.spawnDefaultsAllow, m.spawnDefaultsAllow);
    return Ok(reg4.(spawnDefaultsAllow := allow, ui := ExtendUi(reg4.ui, m.ui)));
  }

  lemma MergeAllStep(ids: seq<string>, i: nat, found: Found, reg: Registry, prompts: map<PathBuf, string>, render: Renderer)
    requires i < |ids|
    ensures ids[i] !in found ==> MergeAll(ids[i..], found, reg, prompts, render) == Err(MissingManifest(ids[i]))
    ensures ids[i] in found ==>
      var step := MergePlugin(reg, ids[i], found[ids[i]].0, found[ids[i]].1, prompts, render);
      MergeAll(ids[i..], found, reg, prompts, render) == if step.Err? then Err(step.error) else MergeAll(ids[i + 1..], found, step.value, prompts, render)
  {
    assert ids[i..][0] == ids[i];
    assert ids[i..][1..] == ids[i + 1..];
  }

  /** The enabled plugins merged in enabled order. */
  method MergeEnabled(ids: seq<string>, found: Found, reg0: Registry, prompts: map<PathBuf, string>, render: Renderer)
    returns (r: Result<Registry, LoadError>)
    ensures r == MergeAll(ids, found, reg0, prompts, render)
  {
    var reg := reg0;
    var i := 0;
    while i < |ids|
      invariant 0 <= i <= |ids|
      invariant MergeAll(ids, found, reg0, prompts, render) == MergeAll(ids[i..], found, reg, prompts, render)
    {
      MergeAllStep(ids, i, found, reg, prompts, render);
      var id := ids[i];
      if id !in found {
        return Err(MissingManifest(id));
      }
      var step := MergeEnabledPlugin(reg, id, found[id].0, found[id].1, prompts, render);
      if step.Err? {
        return Err(step.error);
      }
      reg := step.value;
      i := i + 1;
    }
    return Ok(reg);
  }

  /**
   * `PluginRegistry::load`.  The search directories come from the working directory, the Codex
   * home and the repository root containing the working directory, if any; `simplify` is the
   * path simplification the directories go through.
   */
  method Load(enabledRaw: seq<string>, cwd: PathBuf, codexHome: PathBuf, repoRoot: Option<PathBuf>,
              simplify: PathBuf -> PathBuf, listing: map<PathBuf, seq<DirEntry>>,
              prompts: map<PathBuf, string>, allows: ModeKind -> bool)
    returns (r: Result<Registry, LoadError>)
    ensures r == LoadFrom(enabledRaw, Dedup(Map(SearchCandidates(cwd, codexHome, repoRoot), simplify)), listing, prompts, allows)
  {
    var enabled := NormalizeEnabled(enabledRaw);
    if enabled == [] {
      return Ok(EmptyRegistry);
    }
    var dirs := PluginSearchDirs(cwd, codexHome, repoRoot, simplify);
    var found :- DiscoverPlugins(dirs, listing, SetOf(enabled));
    var missing := CollectMissing(enabled, found);
    if missing != [] {
      return Err(PluginsNotFound(missing));
    }
    r := MergeEnabled(enabled, found, EmptyRegistry.(enabled := enabled), prompts, ModeRenderer(allows));
  }
}
