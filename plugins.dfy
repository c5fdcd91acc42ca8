/**
 * The plugin registry: what enabled plugins contribute (agent roles, prompt categories,
 * collaboration-mode prompt overrides, default spawn permissions, UI lists), the lookups the
 * rest of the program uses, and the two path helpers of plugin loading.
 */
module Plugins {
  import opened Wrappers
  import opened Text
  import opened Ordering
  import opened RoleIds
  import opened CollaborationModes

  // ----- Paths -----

  /** A filesystem path: rooted or not, and its components. */
  datatype PathBuf = PathBuf(absolute: bool, components: seq<string>)

  predicate IsNamedComponent(c: string) {
    c != "" && c != "."
  }

  /**
   * `PathBuf::from(raw)` on a Unix system: rooted or not, and its named pieces. Unlike
   * `Path::components`, every `.` is dropped, including the leading `CurDir` Rust keeps for a
   * relative path; an interior `.` Rust drops too. Neither the `..` guard of
   * `ResolvePluginPath` nor the joined path depends on the difference.
   */
  function ParsePath(raw: string): PathBuf {
    PathBuf(|raw| > 0 && raw[0] == '/', Filter(Split(raw, '/'), IsNamedComponent))
  }

  /** A path is rooted exactly when it starts with `/`; its components are the named pieces between separators. */
  lemma ParsePathFacts(raw: string)
    ensures ParsePath(raw).absolute <==> |raw| > 0 && raw[0] == '/'
    ensures forall c :: c in ParsePath(raw).components <==> c in Split(raw, '/') && IsNamedComponent(c)
  {
  }

  /** `Path::join`: an absolute right-hand side replaces the base. */
  function JoinPath(base: PathBuf, rel: PathBuf): PathBuf {
    if rel.absolute then rel else PathBuf(base.absolute, base.components + rel.components)
  }

  function Child(base: PathBuf, name: string): PathBuf {
    JoinPath(base, PathBuf(false, [name]))
  }

  datatype PathError = MustBeRelative(raw: string) | MustNotContainParent(raw: string)

  /**
   * `resolve_plugin_path`: a file a manifest names must lie inside the plugin directory.  An
   * absolute path is refused first, then any path with a `..` component; otherwise the result
   * is the plugin directory followed by the path's components.
   */
  function ResolvePluginPath(pluginDir: PathBuf, raw: string): Result<PathBuf, PathError> {
    var rel := ParsePath(raw);
    if rel.absolute then Err(MustBeRelative(raw))
    else if ".." in rel.components then Err(MustNotContainParent(raw))
    else Ok(JoinPath(pluginDir, rel))
  }

  /**
   * An absolute path is refused as such; a relative one with a `..` component is refused as
   * such; an accepted path keeps the plugin directory as its prefix and has no `..` after it.
   */
  lemma ResolvePluginPathContained(pluginDir: PathBuf, raw: string)
    ensures var r := ResolvePluginPath(pluginDir, raw);
      (r == Err(MustBeRelative(raw)) <==> ParsePath(raw).absolute)
      && (r == Err(MustNotContainParent(raw)) <==> !ParsePath(raw).absolute && ".." in ParsePath(raw).components)
      && (r.Ok? ==> (r.value.absolute == pluginDir.absolute
            && |pluginDir.components| <= |r.value.components|
            && r.value.components[..|pluginDir.components|] == pluginDir.components
            && ".." !in r.value.components[|pluginDir.components|..]))
  {
    var rel := ParsePath(raw);
    if !rel.absolute && ".." !in rel.components {
      var joined := JoinPath(pluginDir, rel);
      assert joined.components[|pluginDir.components|..] == rel.components;
    }
  }

  /** An accepted path is exactly the plugin directory joined with it. */
  lemma ResolvedIsJoin(pluginDir: PathBuf, raw: string)
    ensures ResolvePluginPath(pluginDir, raw).Ok? ==> ResolvePluginPath(pluginDir, raw).value == JoinPath(pluginDir, ParsePath(raw))
  {
  }

  /** The directories searched for plugins before de-duplication: home, then the repository root or the working directory. */
  function SearchCandidates(cwd: PathBuf, codexHome: PathBuf, repoRoot: Option<PathBuf>): seq<PathBuf> {
    [Child(codexHome, "plugins"), Child(repoRoot.GetOr(cwd), "plugins")]
  }

  /**
   * `plugin_search_dirs`.  `repoRoot` is the repository root found from `cwd`, if any, and
   * `simplify` is the platform's path simplification; both are computed elsewhere.
   */
  method PluginSearchDirs(cwd: PathBuf, codexHome: PathBuf, repoRoot: Option<PathBuf>, simplify: PathBuf -> PathBuf)
    returns (dirs: seq<PathBuf>)
    ensures dirs == Dedup(Map(SearchCandidates(cwd, codexHome, repoRoot), simplify))
  {
    var candidates := [Child(codexHome, "plugins")];
    match repoRoot {
      case Some(root) => candidates := candidates + [Child(root, "plugins")];
      case None => candidates := candidates + [Child(cwd, "plugins")];
    }
    assert candidates == SearchCandidates(cwd, codexHome, repoRoot);
    ghost var simplified := Map(candidates, simplify);
    var seen: set<PathBuf> := {};
    dirs := [];
    var i := 0;
    while i < |candidates|
      invariant 0 <= i <= |candidates|
      invariant dirs + DedupFrom(simplified[i..], seen) == Dedup(simplified)
    {
      var normalized := simplify(candidates[i]);
      DedupFromStep(simplified[i..], seen);
      assert simplified[i..][1..] == simplified[i + 1..];
      if normalized !in seen {
        seen := seen + {normalized};
        dirs := dirs + [normalized];
      }
      i := i + 1;
    }
    assert simplified[i..] == [];
  }

  /** Home's directory always comes first; the second is kept only when it differs from the first. */
  lemma SearchDirsShape(cwd: PathBuf, codexHome: PathBuf, repoRoot: Option<PathBuf>, simplify: PathBuf -> PathBuf)
    ensures var dirs := Dedup(Map(SearchCandidates(cwd, codexHome, repoRoot), simplify));
      var home, other := simplify(Child(codexHome, "plugins")), simplify(Child(repoRoot.GetOr(cwd), "plugins"));
      dirs == if home == other then [home] else [home, other]
  {
    var xs := Map(SearchCandidates(cwd, codexHome, repoRoot), simplify);
    assert xs == [xs[0], xs[1]];
    DedupOfPair(xs[0], xs[1]);
  }

  // ----- The registry -----

  datatype RoleKind = Primary | Spawnable | Hidden

  /** An agent role a plugin defines. */
  datatype RoleDefinition = RoleDefinition(
    id: string,
    pluginId: string,
    kind: RoleKind,
    displayName: string,
    description: Option<string>,
    promptPath: PathBuf,
    readOnly: bool,
    allowsCollabTools: bool,
    model: Option<string>,
    reasoningEffort: Option<ReasoningEffort>)

  /** A prompt category a plugin defines: text appended to a prompt. */
  datatype CategoryDefinition = CategoryDefinition(id: string, pluginId: string, displayName: string, promptAppendPath: PathBuf)

  /** Which roles the terminal UI lists where. */
  datatype UiSpec = UiSpec(tabPickerRoles: seq<string>, agentConfigCallers: seq<string>, agentConfigTargets: seq<string>)

  /** `PluginRegistry`; `roles` and `categories` are ordered maps, iterated by key. */
  datatype Registry = Registry(
    enabled: seq<string>,
    defaultAgentRole: Option<string>,
    roles: map<string, RoleDefinition>,
    categories: map<string, CategoryDefinition>,
    modeOverrides: map<ModeKind, string>,
    spawnDefaultsAllow: map<string, seq<string>>,
    ui: UiSpec)

  /** `PluginRegistry::default()`. */
  const EmptyRegistry: Registry := Registry([], None, map[], map[], map[], map[], UiSpec([], [], []))

  /** `is_empty`: nothing enabled and nothing contributed; the default agent role is not consulted. */
  predicate IsEmpty(r: Registry) {
    r.enabled == [] && r.roles == map[] && r.categories == map[] && r.modeOverrides == map[]
    && r.spawnDefaultsAllow == map[] && r.ui.tabPickerRoles == [] && r.ui.agentConfigCallers == []
    && r.ui.agentConfigTargets == []
  }

  /** A registry is empty exactly when it is the default one, whatever its default agent role. */
  lemma IsEmptyIffDefault(r: Registry)
    ensures IsEmpty(r) <==> r == EmptyRegistry.(defaultAgentRole := r.defaultAgentRole)
  {
  }

  /** Every key of the role and category maps is the identifier stored under it. */
  predicate KeysAreIds(r: Registry) {
    (forall k :: k in r.roles ==> r.roles[k].id == k)
    && (forall k :: k in r.categories ==> r.categories[k].id == k)
  }

  /** `role(id)`: lookup by the normalised identifier. */
  function Role(r: Registry, id: string): (res: Option<RoleDefinition>)
    ensures res.Some? <==> NormalizeId(id) in r.roles
    ensures res.Some? ==> res.value in r.roles.Values
    ensures KeysAreIds(r) && res.Some? ==> res.value.id == NormalizeId(id)
  {
    var key := NormalizeId(id);
    if key in r.roles then Some(r.roles[key]) else None
  }

  /** `category(id)`: lookup by the normalised identifier. */
  function Category(r: Registry, id: string): (res: Option<CategoryDefinition>)
    ensures res.Some? <==> NormalizeId(id) in r.categories
    ensures res.Some? ==> res.value in r.categories.Values
    ensures KeysAreIds(r) && res.Some? ==> res.value.id == NormalizeId(id)
  {
    var key := NormalizeId(id);
    if key in r.categories then Some(r.categories[key]) else None
  }

  /** Spellings that normalise alike find the same role. */
  lemma RoleLookupIgnoresSpelling(r: Registry, id: string, id': string)
    requires NormalizeId(id) == NormalizeId(id')
    ensures Role(r, id) == Role(r, id')
    ensures Role(r, NormalizeId(id)) == Role(r, id)
  {
    NormalizeIdIdempotent(id);
  }

  /** Spellings that normalise alike find the same category. */
  lemma CategoryLookupIgnoresSpelling(r: Registry, id: string, id': string)
    requires NormalizeId(id) == NormalizeId(id')
    ensures Category(r, id) == Category(r, id')
    ensures Category(r, NormalizeId(id)) == Category(r, id)
  {
    NormalizeIdIdempotent(id);
  }

  /** `collaboration_mode_override(mode)`. */
  function ModeOverride(r: Registry, mode: ModeKind): (res: Option<string>)
    ensures res.Some? <==> mode in r.modeOverrides
    ensures res.Some? ==> res.value == r.modeOverrides[mode]
  {
    if mode in r.modeOverrides then Some(r.modeOverrides[mode]) else None
  }

  /** The values of `m` stored under `keys`, in that order. */
  function ValuesAt<V>(m: map<string, V>, keys: seq<string>): (r: seq<V>)
    requires forall k :: k in keys ==> k in m
    ensures |r| == |keys| && forall i :: 0 <= i < |keys| ==> r[i] == m[keys[i]]
  {
    if keys == [] then [] else [m[keys[0]]] + ValuesAt(m, keys[1..])
  }

  /** Listing the values under every key lists exactly the map's values. */
  lemma ValuesAtAllKeys<V>(m: map<string, V>, keys: seq<string>)
    requires forall k :: k in keys <==> k in m
    ensures forall x :: x in ValuesAt(m, keys) <==> x in m.Values
  {
    var res := ValuesAt(m, keys);
    forall x | x in m.Values ensures x in res {
      var k :| k in m && m[k] == x;
      var i :| 0 <= i < |keys| && keys[i] == k;
      assert res[i] == x;
    }
  }

  /** `roles()`: the role definitions in ascending order of their identifiers. */
  function RolesInOrder(r: Registry): (res: seq<RoleDefinition>)
    ensures |res| == |r.roles|
    ensures forall x :: x in res <==> x in r.roles.Values
  {
    var keys := SortedElements(r.roles.Keys);
    ValuesAtAllKeys(r.roles, keys);
    ValuesAt(r.roles, keys)
  }

  /** `spawnable_roles()`: the roles of kind `Spawnable`, in ascending order of their identifiers. */
  function SpawnableRoles(r: Registry): (res: seq<RoleDefinition>)
    ensures forall x :: x in res <==> x in r.roles.Values && x.kind == Spawnable
  {
    Filter(RolesInOrder(r), (x: RoleDefinition) => x.kind == Spawnable)
  }

  /** `categories()`: the category definitions in ascending order of their identifiers. */
  function CategoriesInOrder(r: Registry): (res: seq<CategoryDefinition>)
    ensures |res| == |r.categories|
    ensures forall x :: x in res <==> x in r.categories.Values
  {
    var keys := SortedElements(r.categories.Keys);
    ValuesAtAllKeys(r.categories, keys);
    ValuesAt(r.categories, keys)
  }

  datatype PromptError =
    | UnknownRole(roleId: string)
    | UnreadableRolePrompt(path: PathBuf)
    | UnknownCategory(categoryId: string)
    | UnreadableCategoryPrompt(path: PathBuf)

  /**
   * `read_role_prompt`; `files` holds the files that can be read, by path.  An unknown role is
   * reported before the file is looked at.
   */
  function ReadRolePrompt(r: Registry, roleId: string, files: map<PathBuf, string>): (res: Result<string, PromptError>)
    ensures res == Err(UnknownRole(roleId)) <==> NormalizeId(roleId) !in r.roles
    ensures res.Ok? <==> NormalizeId(roleId) in r.roles && r.roles[NormalizeId(roleId)].promptPath in files
    ensures res.Ok? ==> res.value == files[r.roles[NormalizeId(roleId)].promptPath]
  {
    match Role(r, roleId)
    case None => Err(UnknownRole(roleId))
    case Some(role) =>
      if role.promptPath in files then Ok(files[role.promptPath]) else Err(UnreadableRolePrompt(role.promptPath))
  }

  /** `read_category_prompt_append`, as `ReadRolePrompt` for categories. */
  function ReadCategoryPromptAppend(r: Registry, categoryId: string, files: map<PathBuf, string>): (res: Result<string, PromptError>)
    ensures res == Err(UnknownCategory(categoryId)) <==> NormalizeId(categoryId) !in r.categories
    ensures res.Ok? <==> NormalizeId(categoryId) in r.categories && r.categories[NormalizeId(categoryId)].promptAppendPath in files
    ensures res.Ok? ==> res.value == files[r.categories[NormalizeId(categoryId)].promptAppendPath]
  {
    match Category(r, categoryId)
    case None => Err(UnknownCategory(categoryId))
    case Some(category) =>
      if category.promptAppendPath in files then Ok(files[category.promptAppendPath])
      else Err(UnreadableCategoryPrompt(category.promptAppendPath))
  }
}
