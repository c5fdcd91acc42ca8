/**
 * What `PluginRegistry::load` guarantees, stated over the fold that models it: the merge of
 * one plugin adds to the registry and never takes anything away, declarations that clash fail
 * the load, the first default agent role wins, the UI lists are concatenated in enabled order,
 * later spawn defaults replace earlier ones, and every loaded registry is well formed.
 */
module LoadFacts {
  import opened Wrappers
  import opened Text
  import opened Ordering
  import opened RoleIds
  import opened CollaborationModes
  import opened Plugins
  import opened PluginLoad

  /** `b` keeps every entry of `a`. */
  predicate Extends<K, V(==)>(a: map<K, V>, b: map<K, V>) {
    forall k :: k in a ==> k in b && b[k] == a[k]
  }

  lemma ExtendsTransitive<K, V>(a: map<K, V>, b: map<K, V>, c: map<K, V>)
    requires Extends(a, b) && Extends(b, c)
    ensures Extends(a, c)
  {
  }

  predicate OverridesNonBlank(reg: Registry) {
    forall m :: m in reg.modeOverrides ==> !IsBlank(reg.modeOverrides[m])
  }

  // ----- Collaboration-mode overrides -----

  /**
   * One override is stored, rendered, exactly when its mode is new, its prompt path resolves
   * inside the plugin, the prompt can be read and it is not blank; a blank prompt is the
   * `EmptyModePrompt` error, and the rendered-empty error never happens.
   */
  lemma MergeModeOutcome(reg: Registry, dir: PathBuf, entry: (ModeKind, ModeOverrideManifest),
                         prompts: map<PathBuf, string>, render: Renderer)
    ensures var r := MergeMode(reg, dir, entry, prompts, render);
      var res := ResolvePluginPath(dir, entry.1.promptFile);
      (r.Ok? <==> entry.0 !in reg.modeOverrides && res.Ok? && res.value in prompts && !IsBlank(prompts[res.value])
                  && !IsBlank(render(prompts[res.value], entry.0)))
      && (r.Ok? ==> r.value == reg.(modeOverrides := reg.modeOverrides[entry.0 := render(prompts[res.value], entry.0)]))
      && (r.Ok? ==> !IsBlank(r.value.modeOverrides[entry.0]))
      && (r.Err? && r.error.EmptyModePrompt? <==> entry.0 !in reg.modeOverrides && res.Ok? && res.value in prompts && IsBlank(prompts[res.value]))
  {
  }

  /** With the template renderer of `load`, a prompt that is not blank never renders blank. */
  lemma ModeRendererKeepsNonBlank(allows: ModeKind -> bool, template: string, mode: ModeKind)
    requires !IsBlank(template)
    ensures !IsBlank(ModeRenderer(allows)(template, mode))
  {
    RenderKeepsNonBlank(template, mode, allows);
  }

  /** What the fold over the overrides needs of one step. */
  lemma MergeModeAdds(reg: Registry, dir: PathBuf, entry: (ModeKind, ModeOverrideManifest),
                      prompts: map<PathBuf, string>, render: Renderer)
    ensures var r := MergeMode(reg, dir, entry, prompts, render);
      r.Ok? ==> entry.0 !in reg.modeOverrides && entry.0 in r.value.modeOverrides
                && r.value == reg.(modeOverrides := reg.modeOverrides[entry.0 := r.value.modeOverrides[entry.0]])
                && !IsBlank(r.value.modeOverrides[entry.0])
  {
    MergeModeOutcome(reg, dir, entry, prompts, render);
  }

  /** The overrides of one plugin change nothing else in the registry and keep every earlier override. */
  lemma {:induction false} MergeModesFrame(reg: Registry, dir: PathBuf, entries: seq<(ModeKind, ModeOverrideManifest)>,
                                           prompts: map<PathBuf, string>, render: Renderer)
    ensures var r := MergeModes(reg, dir, entries, prompts, render);
      r.Ok? ==> r.value == reg.(modeOverrides := r.value.modeOverrides) && Extends(reg.modeOverrides, r.value.modeOverrides)
    decreases |entries|
  {
    if entries != [] {
      var step := MergeMode(reg, dir, entries[0], prompts, render);
      if step.Ok? {
        MergeModeAdds(reg, dir, entries[0], prompts, render);
        var reg' := step.value;
        assert MergeModes(reg, dir, entries, prompts, render) == MergeModes(reg', dir, entries[1..], prompts, render);
        MergeModesFrame(reg', dir, entries[1..], prompts, render);
        assert Extends(reg.modeOverrides, reg'.modeOverrides);
        var r := MergeModes(reg', dir, entries[1..], prompts, render);
        if r.Ok? {
          ExtendsTransitive(reg.modeOverrides, reg'.modeOverrides, r.value.modeOverrides);
        }
      }
    }
  }

  /** The modes a list of override declarations names. */
  function ModesOf(entries: seq<(ModeKind, ModeOverrideManifest)>): (r: set<ModeKind>)
    ensures forall i :: 0 <= i < |entries| ==> entries[i].0 in r
    ensures forall m :: m in r ==> exists i :: 0 <= i < |entries| && entries[i].0 == m
  {
    if entries == [] then {}
    else
      var rest := ModesOf(entries[1..]);
      assert forall i :: 1 <= i < |entries| ==> entries[i] == entries[1..][i - 1];
      {entries[0].0} + rest
  }

  /** The modes a plugin overrides are exactly the manifest's. */
  lemma {:induction false} MergeModesAdded(reg: Registry, dir: PathBuf, entries: seq<(ModeKind, ModeOverrideManifest)>,
                                           prompts: map<PathBuf, string>, render: Renderer)
    ensures var r := MergeModes(reg, dir, entries, prompts, render);
      r.Ok? ==> r.value.modeOverrides.Keys == reg.modeOverrides.Keys + ModesOf(entries)
    decreases |entries|
  {
    if entries != [] {
      var step := MergeMode(reg, dir, entries[0], prompts, render);
      if step.Ok? {
        MergeModeAdds(reg, dir, entries[0], prompts, render);
        var reg' := step.value;
        assert MergeModes(reg, dir, entries, prompts, render) == MergeModes(reg', dir, entries[1..], prompts, render);
        MergeModesAdded(reg', dir, entries[1..], prompts, render);
        assert reg'.modeOverrides.Keys == reg.modeOverrides.Keys + {entries[0].0};
        assert ModesOf(entries) == {entries[0].0} + ModesOf(entries[1..]);
      }
    }
  }

  /** No stored override prompt is blank. */
  lemma {:induction false} MergeModesNonBlank(reg: Registry, dir: PathBuf, entries: seq<(ModeKind, ModeOverrideManifest)>,
                                              prompts: map<PathBuf, string>, render: Renderer)
    requires OverridesNonBlank(reg)
    ensures var r := MergeModes(reg, dir, entries, prompts, render);
      r.Ok? ==> OverridesNonBlank(r.value)
    decreases |entries|
  {
    if entries != [] {
      var step := MergeMode(reg, dir, entries[0], prompts, render);
      if step.Ok? {
        MergeModeAdds(reg, dir, entries[0], prompts, render);
        var reg' := step.value;
        assert MergeModes(reg, dir, entries, prompts, render) == MergeModes(reg', dir, entries[1..], prompts, render);
        assert OverridesNonBlank(reg');
        MergeModesNonBlank(reg', dir, entries[1..], prompts, render);
      }
    }
  }

  /** A mode that already has an override cannot be overridden again. */
  lemma {:induction false} MergeModesRejectsTaken(reg: Registry, dir: PathBuf, entries: seq<(ModeKind, ModeOverrideManifest)>,
                                                  prompts: map<PathBuf, string>, render: Renderer, i: nat)
    requires i < |entries| && entries[i].0 in reg.modeOverrides
    ensures MergeModes(reg, dir, entries, prompts, render).Err?
    decreases |entries|
  {
    var step := MergeMode(reg, dir, entries[0], prompts, render);
    MergeModeAdds(reg, dir, entries[0], prompts, render);
    if i > 0 && step.Ok? {
      var reg' := step.value;
      assert MergeModes(reg, dir, entries, prompts, render) == MergeModes(reg', dir, entries[1..], prompts, render);
      assert entries[1..][i - 1] == entries[i];
      MergeModesRejectsTaken(reg', dir, entries[1..], prompts, render, i - 1);
    }
  }

  // ----- Roles -----

  lemma TailIndex<T>(xs: seq<T>, i: nat)
    requires 0 < i < |xs|
    ensures xs[1..][i - 1] == xs[i]
  {
  }

  /** The normalised identifiers a list of raw keys declares, the empty one left out. */
  function DeclaredIds(keys: seq<string>): (r: set<string>)
    ensures forall i :: 0 <= i < |keys| && NormalizeId(keys[i]) != [] ==> NormalizeId(keys[i]) in r
    ensures forall id :: id in r ==> id != [] && exists i :: 0 <= i < |keys| && NormalizeId(keys[i]) == id
  {
    if keys == [] then {}
    else
      var id := NormalizeId(keys[0]);
      var rest := DeclaredIds(keys[1..]);
      assert forall i :: 1 <= i < |keys| ==> keys[i] == keys[1..][i - 1];
      (if id == [] then {} else {id}) + rest
  }

  /** The definition `d` is what the declaration `rawId = rm` of plugin `pluginId` yields, defaults filled in. */
  predicate RoleFromDeclaration(d: RoleDefinition, pluginId: string, dir: PathBuf, rawId: string, rm: RoleManifest) {
    d.id == NormalizeId(rawId) && d.pluginId == pluginId && d.kind == rm.kind
    && d.displayName == rm.displayName.GetOr(d.id) && d.description == rm.description
    && d.readOnly == rm.readOnly.GetOr(false) && d.allowsCollabTools == rm.allowsCollabTools.GetOr(true)
    && d.model == rm.model && d.reasoningEffort == rm.reasoningEffort
    && ResolvePluginPath(dir, rm.promptFile) == Ok(d.promptPath)
  }

  /** A declaration whose identifier normalises to nothing leaves the registry as it is. */
  lemma MergeRoleSkips(reg: Registry, pluginId: string, dir: PathBuf, rawId: string, rm: RoleManifest)
    requires NormalizeId(rawId) == []
    ensures MergeRole(reg, pluginId, dir, rawId, rm) == Ok(reg)
  {
  }

  /** An identifier already taken is the `DuplicateRole` error; existing roles are never replaced. */
  lemma MergeRoleRejectsTaken(reg: Registry, pluginId: string, dir: PathBuf, rawId: string, rm: RoleManifest)
    requires NormalizeId(rawId) != [] && NormalizeId(rawId) in reg.roles
    ensures MergeRole(reg, pluginId, dir, rawId, rm) == Err(DuplicateRole(NormalizeId(rawId)))
  {
  }

  /** A stored declaration adds exactly one role, under its normalised identifier, and changes nothing else. */
  lemma MergeRoleAdds(reg: Registry, pluginId: string, dir: PathBuf, rawId: string, rm: RoleManifest)
    ensures var r := MergeRole(reg, pluginId, dir, rawId, rm);
      var id := NormalizeId(rawId);
      r.Ok? && id != [] ==>
        id !in reg.roles && id in r.value.roles
        && r.value == reg.(roles := reg.roles[id := r.value.roles[id]])
        && RoleFromDeclaration(r.value.roles[id], pluginId, dir, rawId, rm)
  {
  }

  /** Whatever happens to one declaration, a successful step keeps the frame of the registry. */
  lemma MergeRoleFrame(reg: Registry, pluginId: string, dir: PathBuf, rawId: string, rm: RoleManifest)
    ensures var r := MergeRole(reg, pluginId, dir, rawId, rm);
      r.Ok? ==> r.value == reg.(roles := r.value.roles) && Extends(reg.roles, r.value.roles)
                && r.value.roles.Keys == reg.roles.Keys + (if NormalizeId(rawId) == [] then {} else {NormalizeId(rawId)})
  {
    var r := MergeRole(reg, pluginId, dir, rawId, rm);
    if NormalizeId(rawId) == [] {
      MergeRoleSkips(reg, pluginId, dir, rawId, rm);
    } else {
      MergeRoleAdds(reg, pluginId, dir, rawId, rm);
    }
  }

  /** The roles of one plugin change nothing else in the registry and keep every earlier role. */
  lemma {:induction false} MergeRolesFrame(reg: Registry, pluginId: string, dir: PathBuf, roles: map<string, RoleManifest>, keys: seq<string>)
    requires forall k :: k in keys ==> k in roles
    ensures var r := MergeRoles(reg, pluginId, dir, roles, keys);
      r.Ok? ==> r.value == reg.(roles := r.value.roles) && Extends(reg.roles, r.value.roles)
    decreases |keys|
  {
    if keys != [] {
      var step := MergeRole(reg, pluginId, dir, keys[0], roles[keys[0]]);
      if step.Ok? {
        MergeRoleFrame(reg, pluginId, dir, keys[0], roles[keys[0]]);
        var reg' := step.value;
        assert MergeRoles(reg, pluginId, dir, roles, keys) == MergeRoles(reg', pluginId, dir, roles, keys[1..]);
        MergeRolesFrame(reg', pluginId, dir, roles, keys[1..]);
        assert Extends(reg.roles, reg'.roles);
        var r := MergeRoles(reg', pluginId, dir, roles, keys[1..]);
        if r.Ok? {
          ExtendsTransitive(reg.roles, reg'.roles, r.value.roles);
        }
      }
    }
  }

  /** The roles a plugin adds are exactly its non-empty normalised identifiers. */
  lemma {:induction false} MergeRolesKeys(reg: Registry, pluginId: string, dir: PathBuf, roles: map<string, RoleManifest>, keys: seq<string>)
    requires forall k :: k in keys ==> k in roles
    ensures var r := MergeRoles(reg, pluginId, dir, roles, keys);
      r.Ok? ==> r.value.roles.Keys == reg.roles.Keys + DeclaredIds(keys)
    decreases |keys|
  {
    if keys != [] {
      var step := MergeRole(reg, pluginId, dir, keys[0], roles[keys[0]]);
      if step.Ok? {
        MergeRoleFrame(reg, pluginId, dir, keys[0], roles[keys[0]]);
        var reg' := step.value;
        assert MergeRoles(reg, pluginId, dir, roles, keys) == MergeRoles(reg', pluginId, dir, roles, keys[1..]);
        MergeRolesKeys(reg', pluginId, dir, roles, keys[1..]);
        var id0 := NormalizeId(keys[0]);
        assert DeclaredIds(keys) == (if id0 == [] then {} else {id0}) + DeclaredIds(keys[1..]);
      }
    }
  }

  /** Each role a plugin adds is the definition one of its declarations yields. */
  lemma {:induction false} MergeRolesDefinitions(reg: Registry, pluginId: string, dir: PathBuf, roles: map<string, RoleManifest>, keys: seq<string>)
    requires forall k :: k in keys ==> k in roles
    ensures var r := MergeRoles(reg, pluginId, dir, roles, keys);
      r.Ok? ==> forall id :: id in r.value.roles && id !in reg.roles ==>
                  exists k :: k in keys && NormalizeId(k) == id && RoleFromDeclaration(r.value.roles[id], pluginId, dir, k, roles[k])
    decreases |keys|
  {
    if keys != [] {
      var step := MergeRole(reg, pluginId, dir, keys[0], roles[keys[0]]);
      if step.Ok? {
        var reg' := step.value;
        assert MergeRoles(reg, pluginId, dir, roles, keys) == MergeRoles(reg', pluginId, dir, roles, keys[1..]);
        MergeRolesDefinitions(reg', pluginId, dir, roles, keys[1..]);
        var r := MergeRoles(reg', pluginId, dir, roles, keys[1..]);
        if r.Ok? {
          MergeRoleFrame(reg, pluginId, dir, keys[0], roles[keys[0]]);
          MergeRoleAdds(reg, pluginId, dir, keys[0], roles[keys[0]]);
          MergeRolesFrame(reg', pluginId, dir, roles, keys[1..]);
          forall id | id in r.value.roles && id !in reg.roles
            ensures exists k :: k in keys && NormalizeId(k) == id && RoleFromDeclaration(r.value.roles[id], pluginId, dir, k, roles[k])
          {
            if id in reg'.roles {
              assert r.value.roles[id] == reg'.roles[id];
              assert RoleFromDeclaration(r.value.roles[id], pluginId, dir, keys[0], roles[keys[0]]);
            } else {
              var k :| k in keys[1..] && NormalizeId(k) == id && RoleFromDeclaration(r.value.roles[id], pluginId, dir, k, roles[k]);
              assert k in keys;
            }
          }
        }
      }
    }
  }


  /** A role identifier already taken, by an earlier plugin or an earlier declaration, cannot be declared again. */
  lemma {:induction false} MergeRolesRejectsTaken(reg: Registry, pluginId: string, dir: PathBuf, roles: map<string, RoleManifest>, keys: seq<string>, i: nat)
    requires forall k :: k in keys ==> k in roles
    requires i < |keys| && NormalizeId(keys[i]) != [] && NormalizeId(keys[i]) in reg.roles
    ensures MergeRoles(reg, pluginId, dir, roles, keys).Err?
    decreases |keys|
  {
    var step := MergeRole(reg, pluginId, dir, keys[0], roles[keys[0]]);
    if i == 0 {
      MergeRoleRejectsTaken(reg, pluginId, dir, keys[0], roles[keys[0]]);
    } else if step.Ok? {
      MergeRoleFrame(reg, pluginId, dir, keys[0], roles[keys[0]]);
      var reg' := step.value;
      assert NormalizeId(keys[i]) in reg'.roles;
      assert MergeRoles(reg, pluginId, dir, roles, keys) == MergeRoles(reg', pluginId, dir, roles, keys[1..]);
      TailIndex(keys, i);
      MergeRolesRejectsTaken(reg', pluginId, dir, roles, keys[1..], i - 1);
    }
  }

  /** Merging the roles of `a + b` is merging those of `a`, then those of `b`. */
  lemma {:induction false} MergeRolesAppend(reg: Registry, pluginId: string, dir: PathBuf, roles: map<string, RoleManifest>, a: seq<string>, b: seq<string>)
    requires forall k :: k in a + b ==> k in roles
    ensures forall k :: k in a ==> k in roles
    ensures forall k :: k in b ==> k in roles
    ensures MergeRoles(reg, pluginId, dir, roles, a + b)
            == match MergeRoles(reg, pluginId, dir, roles, a)
               case Ok(mid) => MergeRoles(mid, pluginId, dir, roles, b)
               case Err(e) => Err(e)
    decreases |a|
  {
    assert forall k :: k in a ==> k in a + b;
    assert forall k :: k in b ==> k in a + b;
    if a == [] {
      assert a + b == b;
    } else {
      assert (a + b)[0] == a[0] && (a + b)[1..] == a[1..] + b;
      var step := MergeRole(reg, pluginId, dir, a[0], roles[a[0]]);
      if step.Ok? {
        MergeRolesAppend(step.value, pluginId, dir, roles, a[1..], b);
      }
    }
  }

  /** Two declarations of one plugin that normalise to the same non-empty identifier fail the load. */
  lemma MergeRolesRejectsRepeat(reg: Registry, pluginId: string, dir: PathBuf, roles: map<string, RoleManifest>, keys: seq<string>, i: nat, j: nat)
    requires forall k :: k in keys ==> k in roles
    requires i < j < |keys| && NormalizeId(keys[i]) != [] && NormalizeId(keys[i]) == NormalizeId(keys[j])
    ensures MergeRoles(reg, pluginId, dir, roles, keys).Err?
  {
    var a, b := keys[..j], keys[j..];
    assert keys == a + b;
    MergeRolesAppend(reg, pluginId, dir, roles, a, b);
    var first := MergeRoles(reg, pluginId, dir, roles, a);
    if first.Ok? {
      MergeRolesKeys(reg, pluginId, dir, roles, a);
      assert a[i] == keys[i];
      assert NormalizeId(keys[j]) in first.value.roles;
      assert b[0] == keys[j];
      MergeRolesRejectsTaken(first.value, pluginId, dir, roles, b, 0);
    }
  }



  // ----- Categories -----

  /** The definition `d` is what the declaration `rawId = cm` of plugin `pluginId` yields; its label defaults to `rawId` as written. */
  predicate CategoryFromDeclaration(d: CategoryDefinition, pluginId: string, dir: PathBuf, rawId: string, cm: CategoryManifest) {
    d.id == NormalizeId(rawId) && d.pluginId == pluginId && d.displayName == cm.displayName.GetOr(rawId)
    && ResolvePluginPath(dir, cm.promptAppendFile) == Ok(d.promptAppendPath)
  }

  /** A declaration whose identifier normalises to nothing leaves the registry as it is. */
  lemma MergeCategorySkips(reg: Registry, pluginId: string, dir: PathBuf, rawId: string, cm: CategoryManifest)
    requires NormalizeId(rawId) == []
    ensures MergeCategory(reg, pluginId, dir, rawId, cm) == Ok(reg)
  {
  }

  /** An identifier already taken is the `DuplicateCategory` error; existing categories are never replaced. */
  lemma MergeCategoryRejectsTaken(reg: Registry, pluginId: string, dir: PathBuf, rawId: string, cm: CategoryManifest)
    requires NormalizeId(rawId) != [] && NormalizeId(rawId) in reg.categories
    ensures MergeCategory(reg, pluginId, dir, rawId, cm) == Err(DuplicateCategory(NormalizeId(rawId)))
  {
  }

  /** A stored declaration adds exactly one category, under its normalised identifier, and changes nothing else. */
  lemma MergeCategoryAdds(reg: Registry, pluginId: string, dir: PathBuf, rawId: string, cm: CategoryManifest)
    ensures var r := MergeCategory(reg, pluginId, dir, rawId, cm);
      var id := NormalizeId(rawId);
      r.Ok? && id != [] ==>
        id !in reg.categories && id in r.value.categories
        && r.value == reg.(categories := reg.categories[id := r.value.categories[id]])
        && CategoryFromDeclaration(r.value.categories[id], pluginId, dir, rawId, cm)
  {
  }

  /** Whatever happens to one declaration, a successful step keeps the frame of the registry. */
  lemma MergeCategoryFrame(reg: Registry, pluginId: string, dir: PathBuf, rawId: string, cm: CategoryManifest)
    ensures var r := MergeCategory(reg, pluginId, dir, rawId, cm);
      r.Ok? ==> r.value == reg.(categories := r.value.categories) && Extends(reg.categories, r.value.categories)
                && r.value.categories.Keys == reg.categories.Keys + (if NormalizeId(rawId) == [] then {} else {NormalizeId(rawId)})
  {
    var r := MergeCategory(reg, pluginId, dir, rawId, cm);
    if NormalizeId(rawId) == [] {
      MergeCategorySkips(reg, pluginId, dir, rawId, cm);
    } else {
      MergeCategoryAdds(reg, pluginId, dir, rawId, cm);
    }
  }

  /** The categories of one plugin change nothing else in the registry and keep every earlier category. */
  lemma {:induction false} MergeCategoriesFrame(reg: Registry, pluginId: string, dir: PathBuf, categories: map<string, CategoryManifest>, keys: seq<string>)
    requires forall k :: k in keys ==> k in categories
    ensures var r := MergeCategories(reg, pluginId, dir, categories, keys);
      r.Ok? ==> r.value == reg.(categories := r.value.categories) && Extends(reg.categories, r.value.categories)
    decreases |keys|
  {
    if keys != [] {
      var step := MergeCategory(reg, pluginId, dir, keys[0], categories[keys[0]]);
      if step.Ok? {
        MergeCategoryFrame(reg, pluginId, dir, keys[0], categories[keys[0]]);
        var reg' := step.value;
        assert MergeCategories(reg, pluginId, dir, categories, keys) == MergeCategories(reg', pluginId, dir, categories, keys[1..]);
        MergeCategoriesFrame(reg', pluginId, dir, categories, keys[1..]);
        assert Extends(reg.categories, reg'.categories);
        var r := MergeCategories(reg', pluginId, dir, categories, keys[1..]);
        if r.Ok? {
          ExtendsTransitive(reg.categories, reg'.categories, r.value.categories);
        }
      }
    }
  }

  /** The categories a plugin adds are exactly its non-empty normalised identifiers. */
  lemma {:induction false} MergeCategoriesKeys(reg: Registry, pluginId: string, dir: PathBuf, categories: map<string, CategoryManifest>, keys: seq<string>)
    requires forall k :: k in keys ==> k in categories
    ensures var r := MergeCategories(reg, pluginId, dir, categories, keys);
      r.Ok? ==> r.value.categories.Keys == reg.categories.Keys + DeclaredIds(keys)
    decreases |keys|
  {
    if keys != [] {
      var step := MergeCategory(reg, pluginId, dir, keys[0], categories[keys[0]]);
      if step.Ok? {
        MergeCategoryFrame(reg, pluginId, dir, keys[0], categories[keys[0]]);
        var reg' := step.value;
        assert MergeCategories(reg, pluginId, dir, categories, keys) == MergeCategories(reg', pluginId, dir, categories, keys[1..]);
        MergeCategoriesKeys(reg', pluginId, dir, categories, keys[1..]);
        var id0 := NormalizeId(keys[0]);
        assert DeclaredIds(keys) == (if id0 == [] then {} else {id0}) + DeclaredIds(keys[1..]);
      }
    }
  }

  /** Each category a plugin adds is the definition one of its declarations yields. */
  lemma {:induction false} MergeCategoriesDefinitions(reg: Registry, pluginId: string, dir: PathBuf, categories: map<string, CategoryManifest>, keys: seq<string>)
    requires forall k :: k in keys ==> k in categories
    ensures var r := MergeCategories(reg, pluginId, dir, categories, keys);
      r.Ok? ==> forall id :: id in r.value.categories && id !in reg.categories ==>
                  exists k :: k in keys && NormalizeId(k) == id && CategoryFromDeclaration(r.value.categories[id], pluginId, dir, k, categories[k])
    decreases |keys|
  {
    if keys != [] {
      var step := MergeCategory(reg, pluginId, dir, keys[0], categories[keys[0]]);
      if step.Ok? {
        var reg' := step.value;
        assert MergeCategories(reg, pluginId, dir, categories, keys) == MergeCategories(reg', pluginId, dir, categories, keys[1..]);
        MergeCategoriesDefinitions(reg', pluginId, dir, categories, keys[1..]);
        var r := MergeCategories(reg', pluginId, dir, categories, keys[1..]);
        if r.Ok? {
          MergeCategoryFrame(reg, pluginId, dir, keys[0], categories[keys[0]]);
          MergeCategoryAdds(reg, pluginId, dir, keys[0], categories[keys[0]]);
          MergeCategoriesFrame(reg', pluginId, dir, categories, keys[1..]);
          forall id | id in r.value.categories && id !in reg.categories
            ensures exists k :: k in keys && NormalizeId(k) == id && CategoryFromDeclaration(r.value.categories[id], pluginId, dir, k, categories[k])
          {
            if id in reg'.categories {
              assert r.value.categories[id] == reg'.categories[id];
              assert CategoryFromDeclaration(r.value.categories[id], pluginId, dir, keys[0], categories[keys[0]]);
            } else {
              var k :| k in keys[1..] && NormalizeId(k) == id && CategoryFromDeclaration(r.value.categories[id], pluginId, dir, k, categories[k]);
              assert k in keys;
            }
          }
        }
      }
    }
  }


  /** A category identifier already taken, by an earlier plugin or an earlier declaration, cannot be declared again. */
  lemma {:induction false} MergeCategoriesRejectsTaken(reg: Registry, pluginId: string, dir: PathBuf, categories: map<string, CategoryManifest>, keys: seq<string>, i: nat)
    requires forall k :: k in keys ==> k in categories
    requires i < |keys| && NormalizeId(keys[i]) != [] && NormalizeId(keys[i]) in reg.categories
    ensures MergeCategories(reg, pluginId, dir, categories, keys).Err?
    decreases |keys|
  {
    var step := MergeCategory(reg, pluginId, dir, keys[0], categories[keys[0]]);
    if i == 0 {
      MergeCategoryRejectsTaken(reg, pluginId, dir, keys[0], categories[keys[0]]);
    } else if step.Ok? {
      MergeCategoryFrame(reg, pluginId, dir, keys[0], categories[keys[0]]);
      var reg' := step.value;
      assert NormalizeId(keys[i]) in reg'.categories;
      assert MergeCategories(reg, pluginId, dir, categories, keys) == MergeCategories(reg', pluginId, dir, categories, keys[1..]);
      TailIndex(keys, i);
      MergeCategoriesRejectsTaken(reg', pluginId, dir, categories, keys[1..], i - 1);
    }
  }

  /** Merging the categories of `a + b` is merging those of `a`, then those of `b`. */
  lemma {:induction false} MergeCategoriesAppend(reg: Registry, pluginId: string, dir: PathBuf, categories: map<string, CategoryManifest>, a: seq<string>, b: seq<string>)
    requires forall k :: k in a + b ==> k in categories
    ensures forall k :: k in a ==> k in categories
    ensures forall k :: k in b ==> k in categories
    ensures MergeCategories(reg, pluginId, dir, categories, a + b)
            == match MergeCategories(reg, pluginId, dir, categories, a)
               case Ok(mid) => MergeCategories(mid, pluginId, dir, categories, b)
               case Err(e) => Err(e)
    decreases |a|
  {
    assert forall k :: k in a ==> k in a + b;
    assert forall k :: k in b ==> k in a + b;
    if a == [] {
      assert a + b == b;
    } else {
      assert (a + b)[0] == a[0] && (a + b)[1..] == a[1..] + b;
      var step := MergeCategory(reg, pluginId, dir, a[0], categories[a[0]]);
      if step.Ok? {
        MergeCategoriesAppend(step.value, pluginId, dir, categories, a[1..], b);
      }
    }
  }

  /** Two declarations of one plugin that normalise to the same non-empty identifier fail the load. */
  lemma MergeCategoriesRejectsRepeat(reg: Registry, pluginId: string, dir: PathBuf, categories: map<string, CategoryManifest>, keys: seq<string>, i: nat, j: nat)
    requires forall k :: k in keys ==> k in categories
    requires i < j < |keys| && NormalizeId(keys[i]) != [] && NormalizeId(keys[i]) == NormalizeId(keys[j])
    ensures MergeCategories(reg, pluginId, dir, categories, keys).Err?
  {
    var a, b := keys[..j], keys[j..];
    assert keys == a + b;
    MergeCategoriesAppend(reg, pluginId, dir, categories, a, b);
    var first := MergeCategories(reg, pluginId, dir, categories, a);
    if first.Ok? {
      MergeCategoriesKeys(reg, pluginId, dir, categories, a);
      assert a[i] == keys[i];
      assert NormalizeId(keys[j]) in first.value.categories;
      assert b[0] == keys[j];
      MergeCategoriesRejectsTaken(first.value, pluginId, dir, categories, b, 0);
    }
  }



  // ----- Spawn defaults -----

  /** The spawn defaults of `a + b` are those of `a`, then those of `b`. */
  lemma {:induction false} MergeSpawnDefaultsAppend(allow: map<string, seq<string>>, a: seq<(string, seq<string>)>, b: seq<(string, seq<string>)>)
    ensures MergeSpawnDefaults(allow, a + b) == MergeSpawnDefaults(MergeSpawnDefaults(allow, a), b)
    decreases |a|
  {
    if a == [] {
      assert a + b == b;
    } else {
      assert (a + b)[0] == a[0] && (a + b)[1..] == a[1..] + b;
      MergeSpawnDefaultsAppend(allow[NormalizeId(a[0].0) := a[0].1], a[1..], b);
    }
  }

  /** A caller that no entry names keeps what it had, or stays absent. */
  lemma {:induction false} MergeSpawnDefaultsUntouched(allow: map<string, seq<string>>, entries: seq<(string, seq<string>)>, caller: string)
    requires forall i :: 0 <= i < |entries| ==> NormalizeId(entries[i].0) != caller
    ensures var r := MergeSpawnDefaults(allow, entries);
      (caller in r <==> caller in allow) && (caller in allow ==> r[caller] == allow[caller])
    decreases |entries|
  {
    if entries != [] {
      assert forall i :: 1 <= i < |entries| ==> entries[1..][i - 1] == entries[i];
      MergeSpawnDefaultsUntouched(allow[NormalizeId(entries[0].0) := entries[0].1], entries[1..], caller);
    }
  }

  /** The last entry for a caller wins: its targets are stored as written, not normalised. */
  lemma MergeSpawnDefaultsLastWins(allow: map<string, seq<string>>, entries: seq<(string, seq<string>)>, i: nat)
    requires i < |entries|
    requires forall j :: i < j < |entries| ==> NormalizeId(entries[j].0) != NormalizeId(entries[i].0)
    ensures var r := MergeSpawnDefaults(allow, entries);
      NormalizeId(entries[i].0) in r && r[NormalizeId(entries[i].0)] == entries[i].1
  {
    var post := entries[i + 1..];
    assert entries == entries[..i] + [entries[i]] + post;
    assert forall j :: 0 <= j < |post| ==> post[j] == entries[i + 1 + j];
    MergeSpawnDefaultsEntryWins(allow, entries[..i], entries[i], post);
  }

  lemma MergeSpawnDefaultsEntryWins(allow: map<string, seq<string>>, pre: seq<(string, seq<string>)>, e: (string, seq<string>),
                                    post: seq<(string, seq<string>)>)
    requires forall j :: 0 <= j < |post| ==> NormalizeId(post[j].0) != NormalizeId(e.0)
    ensures var r := MergeSpawnDefaults(allow, pre + [e] + post);
      NormalizeId(e.0) in r && r[NormalizeId(e.0)] == e.1
  {
    MergeSpawnDefaultsAppend(allow, pre + [e], post);
    MergeSpawnDefaultsAppend(allow, pre, [e]);
    var mid := MergeSpawnDefaults(allow, pre);
    assert [e][1..] == [];
    assert MergeSpawnDefaults(mid, [e]) == mid[NormalizeId(e.0) := e.1];
    MergeSpawnDefaultsUntouched(MergeSpawnDefaults(allow, pre + [e]), post, NormalizeId(e.0));
  }

  // ----- One plugin -----

  /** A plugin's roles and categories change nothing else in the registry and keep every earlier one. */
  lemma MergeDeclarationsFrame(reg: Registry, pluginId: string, dir: PathBuf, m: PluginManifest)
    ensures var r := MergeDeclarations(reg, pluginId, dir, m);
      r.Ok? ==> r.value == reg.(roles := r.value.roles, categories := r.value.categories)
                && Extends(reg.roles, r.value.roles) && Extends(reg.categories, r.value.categories)
  {
    var keys := SortedElements(m.roles.Keys);
    MergeRolesFrame(reg, pluginId, dir, m.roles, keys);
    var reg3 := MergeRoles(reg, pluginId, dir, m.roles, keys);
    if reg3.Ok? {
      MergeCategoriesFrame(reg3.value, pluginId, dir, m.categories, SortedElements(m.categories.Keys));
    }
  }

  /**
   * A merged plugin is its last stage applied to the registry after its first stage, with only the
   * overrides, roles and categories changed in between.
   */
  lemma MergePluginShape(reg: Registry, pluginId: string, dir: PathBuf, m: PluginManifest, prompts: map<PathBuf, string>, render: Renderer)
    ensures var r := MergePlugin(reg, pluginId, dir, m, prompts, render);
      r.Ok? ==> exists mid: Registry ::
        mid == StartPlugin(reg, m).(modeOverrides := mid.modeOverrides, roles := mid.roles, categories := mid.categories)
        && r.value == FinishPlugin(mid, m)
  {
    var reg2 := MergeModes(StartPlugin(reg, m), dir, m.collaborationModes, prompts, render);
    MergeModesFrame(StartPlugin(reg, m), dir, m.collaborationModes, prompts, render);
    if reg2.Ok? {
      MergeDeclarationsFrame(reg2.value, pluginId, dir, m);
      var reg4 := MergeDeclarations(reg2.value, pluginId, dir, m);
      if reg4.Ok? {
        var mid := reg4.value;
        assert mid == StartPlugin(reg, m).(modeOverrides := mid.modeOverrides, roles := mid.roles, categories := mid.categories);
      }
    }
  }

  /**
   * Merging one plugin keeps the enabled list, takes its default role only when none is set yet,
   * appends its normalised UI lists and applies its spawn defaults.
   */
  lemma MergePluginFields(reg: Registry, pluginId: string, dir: PathBuf, m: PluginManifest, prompts: map<PathBuf, string>, render: Renderer)
    ensures var r := MergePlugin(reg, pluginId, dir, m, prompts, render);
      r.Ok? ==> r.value.enabled == reg.enabled
                && r.value.defaultAgentRole == (if reg.defaultAgentRole.Some? then reg.defaultAgentRole else DefaultRoleOf(m))
                && r.value.spawnDefaultsAllow == MergeSpawnDefaults(reg.spawnDefaultsAllow, m.spawnDefaultsAllow)
                && r.value.ui == ExtendUi(reg.ui, m.ui)
  {
    MergePluginShape(reg, pluginId, dir, m, prompts, render);
  }

  /** Merging one plugin never drops or replaces an override, a role or a category already there. */
  lemma MergePluginExtends(reg: Registry, pluginId: string, dir: PathBuf, m: PluginManifest, prompts: map<PathBuf, string>, render: Renderer)
    ensures var r := MergePlugin(reg, pluginId, dir, m, prompts, render);
      r.Ok? ==> Extends(reg.modeOverrides, r.value.modeOverrides) && Extends(reg.roles, r.value.roles)
                && Extends(reg.categories, r.value.categories)
  {
    var reg2 := MergeModes(StartPlugin(reg, m), dir, m.collaborationModes, prompts, render);
    MergeModesFrame(StartPlugin(reg, m), dir, m.collaborationModes, prompts, render);
    if reg2.Ok? {
      MergeDeclarationsFrame(reg2.value, pluginId, dir, m);
    }
  }

  /** After one plugin, every mode it overrides has an override, and no other mode gained one. */
  lemma MergePluginModes(reg: Registry, pluginId: string, dir: PathBuf, m: PluginManifest, prompts: map<PathBuf, string>, render: Renderer)
    ensures var r := MergePlugin(reg, pluginId, dir, m, prompts, render);
      r.Ok? ==> r.value.modeOverrides.Keys == reg.modeOverrides.Keys + ModesOf(m.collaborationModes)
  {
    var reg2 := MergeModes(StartPlugin(reg, m), dir, m.collaborationModes, prompts, render);
    MergeModesAdded(StartPlugin(reg, m), dir, m.collaborationModes, prompts, render);
    if reg2.Ok? {
      MergeDeclarationsFrame(reg2.value, pluginId, dir, m);
    }
  }

  /** A plugin that overrides a mode some earlier plugin already overrides fails the load. */
  lemma MergePluginRejectsTakenMode(reg: Registry, pluginId: string, dir: PathBuf, m: PluginManifest, prompts: map<PathBuf, string>, render: Renderer, e: nat)
    requires e < |m.collaborationModes| && m.collaborationModes[e].0 in reg.modeOverrides
    ensures MergePlugin(reg, pluginId, dir, m, prompts, render).Err?
  {
    MergeModesRejectsTaken(StartPlugin(reg, m), dir, m.collaborationModes, prompts, render, e);
  }

  // ----- All enabled plugins -----

  /** The default agent role of the first enabled plugin, in order, that declares a non-empty one. */
  function FirstDefaultRole(ids: seq<string>, found: Found): (r: Option<string>)
    ensures r.Some? ==> r.value != [] && IsNormalized(r.value)
  {
    if ids == [] then None
    else if ids[0] in found && DefaultRoleOf(found[ids[0]].1).Some? then DefaultRoleOf(found[ids[0]].1)
    else FirstDefaultRole(ids[1..], found)
  }

  /** The UI lists of the enabled plugins, concatenated in order, as written. */
  function ContributedUi(ids: seq<string>, found: Found): UiManifest {
    if ids == [] then UiManifest([], [], [])
    else
      var rest := ContributedUi(ids[1..], found);
      if ids[0] !in found then rest
      else
        var u := found[ids[0]].1.ui;
        UiManifest(u.tabPickerRoles + rest.tabPickerRoles, u.agentConfigCallers + rest.agentConfigCallers,
          u.agentConfigTargets + rest.agentConfigTargets)
  }

  /** The spawn-default entries of the enabled plugins, concatenated in order. */
  function SpawnEntriesOf(ids: seq<string>, found: Found): seq<(string, seq<string>)> {
    if ids == [] then []
    else (if ids[0] in found then found[ids[0]].1.spawnDefaultsAllow else []) + SpawnEntriesOf(ids[1..], found)
  }

  /** The errors a merge step can raise once every enabled plugin has a manifest. */
  predicate IsMergeError(e: LoadError) {
    e.DuplicateModeOverride? || e.InvalidModePromptPath? || e.UnreadableModePrompt? || e.EmptyModePrompt?
    || e.RenderedEmptyModePrompt? || e.DuplicateRole? || e.InvalidRolePromptPath? || e.DuplicateCategory?
    || e.InvalidCategoryPromptPath?
  }

  lemma ExtendUiAppend(ui: UiSpec, a: UiManifest, b: UiManifest)
    ensures ExtendUi(ExtendUi(ui, a), b)
            == ExtendUi(ui, UiManifest(a.tabPickerRoles + b.tabPickerRoles, a.agentConfigCallers + b.agentConfigCallers,
                 a.agentConfigTargets + b.agentConfigTargets))
  {
    NormalizedIdsAppend(a.tabPickerRoles, b.tabPickerRoles);
    NormalizedIdsAppend(a.agentConfigCallers, b.agentConfigCallers);
    NormalizedIdsAppend(a.agentConfigTargets, b.agentConfigTargets);
    AppendAssoc(ui.tabPickerRoles, NormalizedIds(a.tabPickerRoles), NormalizedIds(b.tabPickerRoles));
    AppendAssoc(ui.agentConfigCallers, NormalizedIds(a.agentConfigCallers), NormalizedIds(b.agentConfigCallers));
    AppendAssoc(ui.agentConfigTargets, NormalizedIds(a.agentConfigTargets), NormalizedIds(b.agentConfigTargets));
  }

  lemma AppendAssoc<T>(x: seq<T>, y: seq<T>, z: seq<T>)
    ensures (x + y) + z == x + (y + z)
  {
  }

  /** The enabled list a load starts with is the one it ends with. */
  lemma {:induction false} MergeAllKeepsEnabled(ids: seq<string>, found: Found, reg: Registry, prompts: map<PathBuf, string>, render: Renderer)
    ensures var r := MergeAll(ids, found, reg, prompts, render);
      r.Ok? ==> r.value.enabled == reg.enabled
    decreases |ids|
  {
    if ids != [] && ids[0] in found {
      var step := MergePlugin(reg, ids[0], found[ids[0]].0, found[ids[0]].1, prompts, render);
      if step.Ok? {
        MergePluginFields(reg, ids[0], found[ids[0]].0, found[ids[0]].1, prompts, render);
        MergeAllKeepsEnabled(ids[1..], found, step.value, prompts, render);
      }
    }
  }

  /** First writer wins: the default role is the first one an enabled plugin declares. */
  lemma {:induction false} MergeAllDefaultRole(ids: seq<string>, found: Found, reg: Registry, prompts: map<PathBuf, string>, render: Renderer)
    ensures var r := MergeAll(ids, found, reg, prompts, render);
      r.Ok? ==> r.value.defaultAgentRole == if reg.defaultAgentRole.Some? then reg.defaultAgentRole else FirstDefaultRole(ids, found)
    decreases |ids|
  {
    if ids != [] && ids[0] in found {
      var step := MergePlugin(reg, ids[0], found[ids[0]].0, found[ids[0]].1, prompts, render);
      if step.Ok? {
        MergePluginFields(reg, ids[0], found[ids[0]].0, found[ids[0]].1, prompts, render);
        MergeAllDefaultRole(ids[1..], found, step.value, prompts, render);
      }
    }
  }

  /** The UI lists are the normalised concatenation of every enabled plugin's lists, duplicates kept. */
  lemma {:induction false} MergeAllUi(ids: seq<string>, found: Found, reg: Registry, prompts: map<PathBuf, string>, render: Renderer)
    ensures var r := MergeAll(ids, found, reg, prompts, render);
      r.Ok? ==> r.value.ui == ExtendUi(reg.ui, ContributedUi(ids, found))
    decreases |ids|
  {
    if ids == [] {
      assert ExtendUi(reg.ui, UiManifest([], [], [])) == reg.ui by {
        assert NormalizedIds([]) == [];
      }
    } else if ids[0] in found {
      var m := found[ids[0]].1;
      var step := MergePlugin(reg, ids[0], found[ids[0]].0, m, prompts, render);
      if step.Ok? {
        MergePluginFields(reg, ids[0], found[ids[0]].0, m, prompts, render);
        MergeAllUi(ids[1..], found, step.value, prompts, render);
        ExtendUiAppend(reg.ui, m.ui, ContributedUi(ids[1..], found));
      }
    }
  }

  /** The spawn defaults are those of every enabled plugin applied in order, so a later plugin's entry replaces an earlier one. */
  lemma {:induction false} MergeAllSpawnDefaults(ids: seq<string>, found: Found, reg: Registry, prompts: map<PathBuf, string>, render: Renderer)
    ensures var r := MergeAll(ids, found, reg, prompts, render);
      r.Ok? ==> r.value.spawnDefaultsAllow == MergeSpawnDefaults(reg.spawnDefaultsAllow, SpawnEntriesOf(ids, found))
    decreases |ids|
  {
    if ids != [] && ids[0] in found {
      var m := found[ids[0]].1;
      var step := MergePlugin(reg, ids[0], found[ids[0]].0, m, prompts, render);
      if step.Ok? {
        MergePluginFields(reg, ids[0], found[ids[0]].0, m, prompts, render);
        MergeAllSpawnDefaults(ids[1..], found, step.value, prompts, render);
        MergeSpawnDefaultsAppend(reg.spawnDefaultsAllow, m.spawnDefaultsAllow, SpawnEntriesOf(ids[1..], found));
      }
    }
  }

  /** Once every enabled plugin has a manifest, a failed merge is one of the merge errors, never a missing manifest. */
  lemma {:induction false} MergeAllErrors(ids: seq<string>, found: Found, reg: Registry, prompts: map<PathBuf, string>, render: Renderer)
    requires forall i :: 0 <= i < |ids| ==> ids[i] in found
    ensures var r := MergeAll(ids, found, reg, prompts, render);
      r.Err? ==> IsMergeError(r.error)
    decreases |ids|
  {
    if ids != [] {
      var step := MergePlugin(reg, ids[0], found[ids[0]].0, found[ids[0]].1, prompts, render);
      MergePluginErrors(reg, ids[0], found[ids[0]].0, found[ids[0]].1, prompts, render);
      if step.Ok? {
        assert forall i :: 0 <= i < |ids[1..]| ==> ids[1..][i] == ids[i + 1];
        MergeAllErrors(ids[1..], found, step.value, prompts, render);
      }
    }
  }

  lemma MergeDeclarationsErrors(reg: Registry, pluginId: string, dir: PathBuf, m: PluginManifest)
    ensures var r := MergeDeclarations(reg, pluginId, dir, m);
      r.Err? ==> IsMergeError(r.error)
  {
    var keys := SortedElements(m.roles.Keys);
    MergeRolesErrors(reg, pluginId, dir, m.roles, keys);
    var reg3 := MergeRoles(reg, pluginId, dir, m.roles, keys);
    if reg3.Ok? {
      MergeCategoriesErrors(reg3.value, pluginId, dir, m.categories, SortedElements(m.categories.Keys));
    }
  }

  lemma MergePluginErrors(reg: Registry, pluginId: string, dir: PathBuf, m: PluginManifest, prompts: map<PathBuf, string>, render: Renderer)
    ensures var r := MergePlugin(reg, pluginId, dir, m, prompts, render);
      r.Err? ==> IsMergeError(r.error)
  {
    MergeModesErrors(StartPlugin(reg, m), dir, m.collaborationModes, prompts, render);
    var reg2 := MergeModes(StartPlugin(reg, m), dir, m.collaborationModes, prompts, render);
    if reg2.Ok? {
      MergeDeclarationsErrors(reg2.value, pluginId, dir, m);
    }
  }

  lemma {:induction false} MergeModesErrors(reg: Registry, dir: PathBuf, entries: seq<(ModeKind, ModeOverrideManifest)>, prompts: map<PathBuf, string>, render: Renderer)
    ensures var r := MergeModes(reg, dir, entries, prompts, render);
      r.Err? ==> IsMergeError(r.error)
    decreases |entries|
  {
    if entries != [] {
      var step := MergeMode(reg, dir, entries[0], prompts, render);
      if step.Ok? {
        MergeModesErrors(step.value, dir, entries[1..], prompts, render);
      }
    }
  }

  lemma {:induction false} MergeRolesErrors(reg: Registry, pluginId: string, dir: PathBuf, roles: map<string, RoleManifest>, keys: seq<string>)
    requires forall k :: k in keys ==> k in roles
    ensures var r := MergeRoles(reg, pluginId, dir, roles, keys);
      r.Err? ==> r.error.DuplicateRole? || r.error.InvalidRolePromptPath?
    decreases |keys|
  {
    if keys != [] {
      var step := MergeRole(reg, pluginId, dir, keys[0], roles[keys[0]]);
      if step.Ok? {
        MergeRolesErrors(step.value, pluginId, dir, roles, keys[1..]);
      }
    }
  }

  lemma {:induction false} MergeCategoriesErrors(reg: Registry, pluginId: string, dir: PathBuf, categories: map<string, CategoryManifest>, keys: seq<string>)
    requires forall k :: k in keys ==> k in categories
    ensures var r := MergeCategories(reg, pluginId, dir, categories, keys);
      r.Err? ==> r.error.DuplicateCategory? || r.error.InvalidCategoryPromptPath?
    decreases |keys|
  {
    if keys != [] {
      var step := MergeCategory(reg, pluginId, dir, keys[0], categories[keys[0]]);
      if step.Ok? {
        MergeCategoriesErrors(step.value, pluginId, dir, categories, keys[1..]);
      }
    }
  }

  /** A plugin whose mode override is already taken when its turn comes fails the load. */
  lemma {:induction false} MergeAllRejectsTakenMode(ids: seq<string>, found: Found, reg: Registry, prompts: map<PathBuf, string>, render: Renderer, k: nat, e: nat)
    requires k < |ids| && ids[k] in found
    requires e < |found[ids[k]].1.collaborationModes| && found[ids[k]].1.collaborationModes[e].0 in reg.modeOverrides
    ensures MergeAll(ids, found, reg, prompts, render).Err?
    decreases |ids|
  {
    if ids[0] in found {
      var step := MergePlugin(reg, ids[0], found[ids[0]].0, found[ids[0]].1, prompts, render);
      if k == 0 {
        MergePluginRejectsTakenMode(reg, ids[0], found[ids[0]].0, found[ids[0]].1, prompts, render, e);
      } else if step.Ok? {
        assert MergeAll(ids, found, reg, prompts, render) == MergeAll(ids[1..], found, step.value, prompts, render);
        MergePluginExtends(reg, ids[0], found[ids[0]].0, found[ids[0]].1, prompts, render);
        TailIndex(ids, k);
        MergeAllRejectsTakenMode(ids[1..], found, step.value, prompts, render, k - 1, e);
      }
    }
  }

  /** Merging the plugins of `a + b` is merging those of `a`, then those of `b`. */
  lemma {:induction false} MergeAllAppend(a: seq<string>, b: seq<string>, found: Found, reg: Registry, prompts: map<PathBuf, string>, render: Renderer)
    ensures MergeAll(a + b, found, reg, prompts, render)
            == match MergeAll(a, found, reg, prompts, render)
               case Ok(mid) => MergeAll(b, found, mid, prompts, render)
               case Err(e) => Err(e)
    decreases |a|
  {
    if a == [] {
      assert a + b == b;
    } else {
      assert (a + b)[0] == a[0] && (a + b)[1..] == a[1..] + b;
      if a[0] in found {
        var step := MergePlugin(reg, a[0], found[a[0]].0, found[a[0]].1, prompts, render);
        if step.Ok? {
          MergeAllAppend(a[1..], b, found, step.value, prompts, render);
        }
      }
    }
  }

  /** After the last plugin of `a + [x]`, every mode `x` overrides has an override. */
  lemma MergeAllLastModes(a: seq<string>, x: string, found: Found, reg: Registry, prompts: map<PathBuf, string>, render: Renderer)
    requires x in found
    ensures var r := MergeAll(a + [x], found, reg, prompts, render);
      r.Ok? ==> ModesOf(found[x].1.collaborationModes) <= r.value.modeOverrides.Keys
  {
    MergeAllAppend(a, [x], found, reg, prompts, render);
    var mid := MergeAll(a, found, reg, prompts, render);
    if mid.Ok? {
      MergePluginModes(mid.value, x, found[x].0, found[x].1, prompts, render);
      var step := MergePlugin(mid.value, x, found[x].0, found[x].1, prompts, render);
      if step.Ok? {
        assert [x][1..] == [];
        assert MergeAll([x], found, mid.value, prompts, render) == MergeAll([], found, step.value, prompts, render);
      }
    }
  }

  /** A plugin that overrides a mode fails the load when it comes round a second time. */
  lemma MergeAllRejectsReturn(pre: seq<string>, x: string, post: seq<string>, found: Found, reg: Registry,
                              prompts: map<PathBuf, string>, render: Renderer, k: nat)
    requires x in found && found[x].1.collaborationModes != [] && k < |post| && post[k] == x
    ensures MergeAll(pre + [x] + post, found, reg, prompts, render).Err?
  {
    MergeAllAppend(pre + [x], post, found, reg, prompts, render);
    MergeAllLastModes(pre, x, found, reg, prompts, render);
    var mid := MergeAll(pre + [x], found, reg, prompts, render);
    if mid.Ok? {
      var entries := found[x].1.collaborationModes;
      assert entries[0].0 in ModesOf(entries);
      MergeAllRejectsTakenMode(post, found, mid.value, prompts, render, k, 0);
    }
  }

  /**
   * Enabled identifiers are not de-duplicated: a plugin enabled twice that overrides a
   * collaboration mode collides with itself and fails the load.
   */
  lemma MergeAllRejectsTwice(ids: seq<string>, found: Found, reg: Registry, prompts: map<PathBuf, string>, render: Renderer, i: nat, j: nat)
    requires i < j < |ids| && ids[i] == ids[j] && ids[i] in found && found[ids[i]].1.collaborationModes != []
    ensures MergeAll(ids, found, reg, prompts, render).Err?
  {
    assert ids == ids[..i] + [ids[i]] + ids[i + 1..];
    assert ids[i + 1..][j - i - 1] == ids[j];
    MergeAllRejectsReturn(ids[..i], ids[i], ids[i + 1..], found, reg, prompts, render, j - i - 1);
  }

  // ----- Discovery -----

  /** A plugin directory whose manifest cannot be read or parsed. */
  predicate IsBroken(e: DirEntry) {
    e.isDir && e.manifestFile.Some? && !e.manifestFile.value.Parsed?
  }

  /** A plugin directory whose manifest declares one of the enabled plugins. */
  predicate DeclaresEnabled(e: DirEntry, enabled: set<string>) {
    DeclaredId(e).Some? && DeclaredId(e).value in enabled
  }

  /** One scanned entry: a broken manifest stops the scan; an enabled plugin seen twice stops it; an enabled plugin is recorded; anything else is skipped. */
  lemma DiscoverEntryOutcome(e: DirEntry, enabled: set<string>, found: Found)
    ensures var r := DiscoverEntry(e, enabled, found);
      (IsBroken(e) ==> r.Err?)
      && (DeclaresEnabled(e, enabled) && DeclaredId(e).value in found ==> r == Err(DuplicatePlugin(DeclaredId(e).value)))
      && (DeclaresEnabled(e, enabled) && DeclaredId(e).value !in found ==>
            r == Ok(found[DeclaredId(e).value := (e.path, e.manifestFile.value.manifest)]))
      && (!IsBroken(e) && !DeclaresEnabled(e, enabled) ==> r == Ok(found))
  {
  }

  /** A successful scan only adds plugins. */
  lemma {:induction false} DiscoverEntriesExtends(entries: seq<DirEntry>, enabled: set<string>, found: Found)
    ensures var r := DiscoverEntries(entries, enabled, found);
      r.Ok? ==> Extends(found, r.value)
    decreases |entries|
  {
    if entries != [] {
      DiscoverEntryOutcome(entries[0], enabled, found);
      var step := DiscoverEntry(entries[0], enabled, found);
      if step.Ok? {
        DiscoverEntriesExtends(entries[1..], enabled, step.value);
        var r := DiscoverEntries(entries[1..], enabled, step.value);
        if r.Ok? {
          ExtendsTransitive(found, step.value, r.value);
        }
      }
    }
  }

  /** Every plugin a successful scan records is enabled, is keyed by its normalised manifest identifier, and comes from a scanned directory. */
  lemma {:induction false} DiscoverEntriesSound(entries: seq<DirEntry>, enabled: set<string>, found: Found)
    ensures var r := DiscoverEntries(entries, enabled, found);
      r.Ok? ==> forall id :: id in r.value && id !in found ==>
        id in enabled && NormalizeId(r.value[id].1.id) == id
        && exists i :: 0 <= i < |entries| && DeclaredId(entries[i]) == Some(id) && r.value[id].0 == entries[i].path
    decreases |entries|
  {
    if entries != [] {
      DiscoverEntryOutcome(entries[0], enabled, found);
      var step := DiscoverEntry(entries[0], enabled, found);
      if step.Ok? {
        DiscoverEntriesSound(entries[1..], enabled, step.value);
        DiscoverEntriesExtends(entries[1..], enabled, step.value);
        var r := DiscoverEntries(entries[1..], enabled, step.value);
        if r.Ok? {
          forall id | id in r.value && id !in found
            ensures id in enabled && NormalizeId(r.value[id].1.id) == id
            ensures exists i :: 0 <= i < |entries| && DeclaredId(entries[i]) == Some(id) && r.value[id].0 == entries[i].path
          {
            if id in step.value {
              assert r.value[id] == step.value[id];
              assert DeclaredId(entries[0]) == Some(id);
            } else {
              var i :| 0 <= i < |entries[1..]| && DeclaredId(entries[1..][i]) == Some(id) && r.value[id].0 == entries[1..][i].path;
              assert entries[1..][i] == entries[i + 1];
            }
          }
        }
      }
    }
  }

  /** A successful scan records every enabled plugin it saw. */
  lemma {:induction false} DiscoverEntriesComplete(entries: seq<DirEntry>, enabled: set<string>, found: Found)
    ensures var r := DiscoverEntries(entries, enabled, found);
      r.Ok? ==> forall i :: 0 <= i < |entries| && DeclaresEnabled(entries[i], enabled) ==> DeclaredId(entries[i]).value in r.value
    decreases |entries|
  {
    if entries != [] {
      DiscoverEntryOutcome(entries[0], enabled, found);
      var step := DiscoverEntry(entries[0], enabled, found);
      if step.Ok? {
        DiscoverEntriesComplete(entries[1..], enabled, step.value);
        DiscoverEntriesExtends(entries[1..], enabled, step.value);
        var r := DiscoverEntries(entries[1..], enabled, step.value);
        if r.Ok? {
          forall i | 0 <= i < |entries| && DeclaresEnabled(entries[i], enabled)
            ensures DeclaredId(entries[i]).value in r.value
          {
            if i > 0 {
              assert entries[1..][i - 1] == entries[i];
            }
          }
        }
      }
    }
  }

  /** The scan fails only for a broken manifest or an enabled plugin declared twice. */
  lemma {:induction false} DiscoverEntriesErrors(entries: seq<DirEntry>, enabled: set<string>, found: Found)
    ensures var r := DiscoverEntries(entries, enabled, found);
      r.Err? ==> r.error.ManifestUnreadable? || r.error.ManifestMalformed? || r.error.DuplicatePlugin?
    decreases |entries|
  {
    if entries != [] {
      var step := DiscoverEntry(entries[0], enabled, found);
      if step.Ok? {
        DiscoverEntriesErrors(entries[1..], enabled, step.value);
      }
    }
  }

  /** A broken manifest anywhere in the scan fails the load. */
  lemma DiscoverEntriesRejectsBroken(entries: seq<DirEntry>, enabled: set<string>, found: Found, i: nat)
    requires i < |entries| && IsBroken(entries[i])
    ensures DiscoverEntries(entries, enabled, found).Err?
  {
    assert entries == entries[..i] + entries[i..];
    DiscoverEntriesAppend(entries[..i], entries[i..], enabled, found);
    var mid := DiscoverEntries(entries[..i], enabled, found);
    if mid.Ok? {
      DiscoverEntriesStep(entries, i, enabled, mid.value);
      DiscoverEntryOutcome(entries[i], enabled, mid.value);
    }
  }

  /** Two scanned directories that declare the same enabled plugin fail the load. */
  lemma DiscoverEntriesRejectsDuplicate(entries: seq<DirEntry>, enabled: set<string>, found: Found, i: nat, j: nat)
    requires i < j < |entries| && DeclaresEnabled(entries[i], enabled) && DeclaredId(entries[j]) == DeclaredId(entries[i])
    ensures DiscoverEntries(entries, enabled, found).Err?
  {
    assert entries == entries[..j] + entries[j..];
    DiscoverEntriesAppend(entries[..j], entries[j..], enabled, found);
    var mid := DiscoverEntries(entries[..j], enabled, found);
    if mid.Ok? {
      DiscoverEntriesComplete(entries[..j], enabled, found);
      assert entries[..j][i] == entries[i];
      DiscoverEntriesStep(entries, j, enabled, mid.value);
      DiscoverEntryOutcome(entries[j], enabled, mid.value);
    }
  }

  /** The scan succeeds when no manifest is broken and no enabled plugin is declared twice. */
  lemma {:induction false} DiscoverEntriesSucceeds(entries: seq<DirEntry>, enabled: set<string>, found: Found)
    requires forall i :: 0 <= i < |entries| ==> !IsBroken(entries[i])
    requires forall i :: 0 <= i < |entries| && DeclaresEnabled(entries[i], enabled) ==> DeclaredId(entries[i]).value !in found
    requires forall i, j :: 0 <= i < j < |entries| && DeclaresEnabled(entries[i], enabled) ==> DeclaredId(entries[j]) != DeclaredId(entries[i])
    ensures DiscoverEntries(entries, enabled, found).Ok?
    decreases |entries|
  {
    if entries != [] {
      DiscoverEntryOutcome(entries[0], enabled, found);
      var found' := DiscoverEntry(entries[0], enabled, found).value;
      var rest := entries[1..];
      assert forall i :: 0 <= i < |rest| ==> rest[i] == entries[i + 1];
      forall i | 0 <= i < |rest| && DeclaresEnabled(rest[i], enabled)
        ensures DeclaredId(rest[i]).value !in found'
      {
        assert DeclaredId(entries[i + 1]) != DeclaredId(entries[0]);
      }
      DiscoverEntriesSucceeds(rest, enabled, found');
    }
  }

  // ----- Well-formedness of the loaded registry -----

  /** Every identifier of the list is normalised and non-empty. */
  predicate AllIds(xs: seq<string>) {
    forall i :: 0 <= i < |xs| ==> xs[i] != [] && IsNormalized(xs[i])
  }

  /** Every role is stored under its own normalised, non-empty identifier and comes from an enabled plugin. */
  predicate RolesWellFormed(reg: Registry) {
    forall k :: k in reg.roles ==> k != [] && IsNormalized(k) && reg.roles[k].id == k && reg.roles[k].pluginId in reg.enabled
  }

  /** Every category is stored under its own normalised, non-empty identifier and comes from an enabled plugin. */
  predicate CategoriesWellFormed(reg: Registry) {
    forall k :: k in reg.categories ==> k != [] && IsNormalized(k) && reg.categories[k].id == k && reg.categories[k].pluginId in reg.enabled
  }

  /** The enabled list, the UI lists, the default role and the spawn-default callers are all normalised identifiers. */
  predicate IdsWellFormed(reg: Registry) {
    AllIds(reg.enabled) && AllIds(reg.ui.tabPickerRoles) && AllIds(reg.ui.agentConfigCallers) && AllIds(reg.ui.agentConfigTargets)
    && (reg.defaultAgentRole.Some? ==> reg.defaultAgentRole.value != [] && IsNormalized(reg.defaultAgentRole.value))
    && (forall k :: k in reg.spawnDefaultsAllow ==> IsNormalized(k))
  }

  /** What a loaded registry always satisfies. */
  predicate WellFormed(reg: Registry) {
    RolesWellFormed(reg) && CategoriesWellFormed(reg) && IdsWellFormed(reg) && OverridesNonBlank(reg)
  }

  lemma WellFormedKeysAreIds(reg: Registry)
    requires WellFormed(reg)
    ensures KeysAreIds(reg)
  {
  }

  /** Normalising a list yields only normalised, non-empty identifiers. */
  lemma NormalizedIdsAreIds(raw: seq<string>)
    ensures AllIds(NormalizedIds(raw))
  {
    var r := NormalizedIds(raw);
    forall i | 0 <= i < |r|
      ensures r[i] != [] && IsNormalized(r[i])
    {
      NormalizedIdsMembers(raw, r[i]);
      var j :| 0 <= j < |raw| && NormalizeId(raw[j]) == r[i];
      NormalizeIdIsNormalized(raw[j]);
    }
  }

  lemma AllIdsAppend(a: seq<string>, b: seq<string>)
    requires AllIds(a) && AllIds(b)
    ensures AllIds(a + b)
  {
    assert forall i :: |a| <= i < |a + b| ==> (a + b)[i] == b[i - |a|];
  }

  lemma ExtendUiAllIds(ui: UiSpec, m: UiManifest)
    requires AllIds(ui.tabPickerRoles) && AllIds(ui.agentConfigCallers) && AllIds(ui.agentConfigTargets)
    ensures var u := ExtendUi(ui, m);
      AllIds(u.tabPickerRoles) && AllIds(u.agentConfigCallers) && AllIds(u.agentConfigTargets)
  {
    NormalizedIdsAreIds(m.tabPickerRoles);
    NormalizedIdsAreIds(m.agentConfigCallers);
    NormalizedIdsAreIds(m.agentConfigTargets);
    AllIdsAppend(ui.tabPickerRoles, NormalizedIds(m.tabPickerRoles));
    AllIdsAppend(ui.agentConfigCallers, NormalizedIds(m.agentConfigCallers));
    AllIdsAppend(ui.agentConfigTargets, NormalizedIds(m.agentConfigTargets));
  }

  /** Spawn-default callers are stored normalised. */
  lemma {:induction false} MergeSpawnDefaultsNormalized(allow: map<string, seq<string>>, entries: seq<(string, seq<string>)>)
    requires forall k :: k in allow ==> IsNormalized(k)
    ensures forall k :: k in MergeSpawnDefaults(allow, entries) ==> IsNormalized(k)
    decreases |entries|
  {
    if entries != [] {
      NormalizeIdIsNormalized(entries[0].0);
      MergeSpawnDefaultsNormalized(allow[NormalizeId(entries[0].0) := entries[0].1], entries[1..]);
    }
  }

  /** The roles an enabled plugin adds keep the roles well formed. */
  lemma MergeRolesWellFormed(reg: Registry, pluginId: string, dir: PathBuf, roles: map<string, RoleManifest>, keys: seq<string>)
    requires forall k :: k in keys ==> k in roles
    requires RolesWellFormed(reg) && pluginId in reg.enabled
    ensures var r := MergeRoles(reg, pluginId, dir, roles, keys);
      r.Ok? ==> RolesWellFormed(r.value)
  {
    var r := MergeRoles(reg, pluginId, dir, roles, keys);
    if r.Ok? {
      MergeRolesFrame(reg, pluginId, dir, roles, keys);
      MergeRolesKeys(reg, pluginId, dir, roles, keys);
      MergeRolesDefinitions(reg, pluginId, dir, roles, keys);
      forall id | id in r.value.roles
        ensures id != [] && IsNormalized(id) && r.value.roles[id].id == id && r.value.roles[id].pluginId in r.value.enabled
      {
        if id !in reg.roles {
          var k :| k in keys && NormalizeId(k) == id && RoleFromDeclaration(r.value.roles[id], pluginId, dir, k, roles[k]);
          NormalizeIdIsNormalized(k);
        }
      }
    }
  }

  /** The categories an enabled plugin adds keep the categories well formed. */
  lemma MergeCategoriesWellFormed(reg: Registry, pluginId: string, dir: PathBuf, categories: map<string, CategoryManifest>, keys: seq<string>)
    requires forall k :: k in keys ==> k in categories
    requires CategoriesWellFormed(reg) && pluginId in reg.enabled
    ensures var r := MergeCategories(reg, pluginId, dir, categories, keys);
      r.Ok? ==> CategoriesWellFormed(r.value)
  {
    var r := MergeCategories(reg, pluginId, dir, categories, keys);
    if r.Ok? {
      MergeCategoriesFrame(reg, pluginId, dir, categories, keys);
      MergeCategoriesKeys(reg, pluginId, dir, categories, keys);
      MergeCategoriesDefinitions(reg, pluginId, dir, categories, keys);
      forall id | id in r.value.categories
        ensures id != [] && IsNormalized(id) && r.value.categories[id].id == id && r.value.categories[id].pluginId in r.value.enabled
      {
        if id !in reg.categories {
          var k :| k in keys && NormalizeId(k) == id && CategoryFromDeclaration(r.value.categories[id], pluginId, dir, k, categories[k]);
          NormalizeIdIsNormalized(k);
        }
      }
    }
  }

  /** Taking a plugin's default role keeps the registry well formed. */
  lemma StartPluginWellFormed(reg: Registry, m: PluginManifest)
    requires WellFormed(reg)
    ensures WellFormed(StartPlugin(reg, m))
  {
  }

  /** A plugin's overrides keep the registry well formed. */
  lemma MergeModesWellFormed(reg: Registry, dir: PathBuf, entries: seq<(ModeKind, ModeOverrideManifest)>,
                             prompts: map<PathBuf, string>, render: Renderer)
    requires WellFormed(reg)
    ensures var r := MergeModes(reg, dir, entries, prompts, render);
      r.Ok? ==> WellFormed(r.value) && r.value.enabled == reg.enabled
  {
    MergeModesFrame(reg, dir, entries, prompts, render);
    MergeModesNonBlank(reg, dir, entries, prompts, render);
  }

  /** The roles and categories of an enabled plugin keep the registry well formed. */
  lemma MergeDeclarationsWellFormed(reg: Registry, pluginId: string, dir: PathBuf, m: PluginManifest)
    requires WellFormed(reg) && pluginId in reg.enabled
    ensures var r := MergeDeclarations(reg, pluginId, dir, m);
      r.Ok? ==> WellFormed(r.value)
  {
    var keys := SortedElements(m.roles.Keys);
    var reg3 := MergeRoles(reg, pluginId, dir, m.roles, keys);
    if reg3.Ok? {
      MergeRolesFrame(reg, pluginId, dir, m.roles, keys);
      MergeRolesWellFormed(reg, pluginId, dir, m.roles, keys);
      var ckeys := SortedElements(m.categories.Keys);
      assert CategoriesWellFormed(reg3.value);
      MergeCategoriesFrame(reg3.value, pluginId, dir, m.categories, ckeys);
      MergeCategoriesWellFormed(reg3.value, pluginId, dir, m.categories, ckeys);
    }
  }

  /** A plugin's spawn defaults and UI lists keep the registry well formed. */
  lemma FinishPluginWellFormed(reg: Registry, m: PluginManifest)
    requires WellFormed(reg)
    ensures WellFormed(FinishPlugin(reg, m))
  {
    MergeSpawnDefaultsNormalized(reg.spawnDefaultsAllow, m.spawnDefaultsAllow);
    ExtendUiAllIds(reg.ui, m.ui);
  }

  /** The stages after the overrides keep an enabled plugin's registry well formed. */
  lemma DeclareAndFinishWellFormed(reg: Registry, pluginId: string, dir: PathBuf, m: PluginManifest)
    requires WellFormed(reg) && pluginId in reg.enabled
    ensures var r := MergeDeclarations(reg, pluginId, dir, m);
      r.Ok? ==> WellFormed(FinishPlugin(r.value, m))
  {
    MergeDeclarationsWellFormed(reg, pluginId, dir, m);
    var r := MergeDeclarations(reg, pluginId, dir, m);
    if r.Ok? {
      FinishPluginWellFormed(r.value, m);
    }
  }

  /** Merging an enabled plugin keeps the registry well formed. */
  lemma MergePluginWellFormed(reg: Registry, pluginId: string, dir: PathBuf, m: PluginManifest, prompts: map<PathBuf, string>, render: Renderer)
    requires WellFormed(reg) && pluginId in reg.enabled
    ensures var r := MergePlugin(reg, pluginId, dir, m, prompts, render);
      r.Ok? ==> WellFormed(r.value)
  {
    MergePluginStages(reg, pluginId, dir, m, prompts, render);
    var start := StartPlugin(reg, m);
    StartPluginWellFormed(reg, m);
    MergeModesWellFormed(start, dir, m.collaborationModes, prompts, render);
    var reg2 := MergeModes(start, dir, m.collaborationModes, prompts, render);
    if reg2.Ok? {
      DeclareAndFinishWellFormed(reg2.value, pluginId, dir, m);
    }
  }

  /** A merged plugin is its last stage applied to the outcome of its overrides and declarations. */
  lemma MergePluginStages(reg: Registry, pluginId: string, dir: PathBuf, m: PluginManifest, prompts: map<PathBuf, string>, render: Renderer)
    ensures var r := MergePlugin(reg, pluginId, dir, m, prompts, render);
      var reg2 := MergeModes(StartPlugin(reg, m), dir, m.collaborationModes, prompts, render);
      r.Ok? ==> reg2.Ok? && MergeDeclarations(reg2.value, pluginId, dir, m).Ok?
                && r.value == FinishPlugin(MergeDeclarations(reg2.value, pluginId, dir, m).value, m)
  {
  }

  /** Merging the enabled plugins keeps the registry well formed. */
  lemma {:induction false} MergeAllWellFormed(ids: seq<string>, found: Found, reg: Registry, prompts: map<PathBuf, string>, render: Renderer)
    requires WellFormed(reg) && forall i :: 0 <= i < |ids| ==> ids[i] in reg.enabled
    ensures var r := MergeAll(ids, found, reg, prompts, render);
      r.Ok? ==> WellFormed(r.value)
    decreases |ids|
  {
    if ids != [] && ids[0] in found {
      var step := MergePlugin(reg, ids[0], found[ids[0]].0, found[ids[0]].1, prompts, render);
      if step.Ok? {
        MergePluginWellFormed(reg, ids[0], found[ids[0]].0, found[ids[0]].1, prompts, render);
        MergePluginFields(reg, ids[0], found[ids[0]].0, found[ids[0]].1, prompts, render);
        assert forall i :: 0 <= i < |ids[1..]| ==> ids[1..][i] == ids[i + 1];
        MergeAllWellFormed(ids[1..], found, step.value, prompts, render);
      }
    }
  }

  // ----- The whole load -----

  /** Normalising the enabled list leaves nothing exactly when every entry is blank. */
  lemma NormalizedIdsEmpty(raw: seq<string>)
    ensures NormalizedIds(raw) == [] <==> forall i :: 0 <= i < |raw| ==> IsBlank(raw[i])
  {
    if NormalizedIds(raw) == [] {
      forall i | 0 <= i < |raw|
        ensures IsBlank(raw[i])
      {
        NormalizeIdIsNormalized(raw[i]);
        NormalizedIdsMembers(raw, NormalizeId(raw[i]));
      }
    } else {
      var x := NormalizedIds(raw)[0];
      NormalizedIdsMembers(raw, x);
      var i :| 0 <= i < |raw| && NormalizeId(raw[i]) == x;
      NormalizeIdIsNormalized(raw[i]);
    }
  }

  /** When nothing is enabled the load succeeds with the empty registry; a successful load is empty only then. */
  lemma LoadNothingEnabled(enabledRaw: seq<string>, dirs: seq<PathBuf>, listing: map<PathBuf, seq<DirEntry>>,
                           prompts: map<PathBuf, string>, allows: ModeKind -> bool)
    ensures (forall i :: 0 <= i < |enabledRaw| ==> IsBlank(enabledRaw[i])) ==> LoadFrom(enabledRaw, dirs, listing, prompts, allows) == Ok(EmptyRegistry)
    ensures var r := LoadFrom(enabledRaw, dirs, listing, prompts, allows);
      r.Ok? ==> (IsEmpty(r.value) <==> forall i :: 0 <= i < |enabledRaw| ==> IsBlank(enabledRaw[i]))
  {
    NormalizedIdsEmpty(enabledRaw);
    var enabled := NormalizedIds(enabledRaw);
    if enabled != [] {
      var found := Discover(dirs, listing, SetOf(enabled));
      if found.Ok? {
        MergeAllKeepsEnabled(enabled, found.value, EmptyRegistry.(enabled := enabled), prompts, ModeRenderer(allows));
      }
    }
  }

  /** Every registry a load produces is well formed. */
  lemma LoadWellFormed(enabledRaw: seq<string>, dirs: seq<PathBuf>, listing: map<PathBuf, seq<DirEntry>>,
                       prompts: map<PathBuf, string>, allows: ModeKind -> bool)
    ensures var r := LoadFrom(enabledRaw, dirs, listing, prompts, allows);
      r.Ok? ==> WellFormed(r.value)
  {
    var enabled := NormalizedIds(enabledRaw);
    if enabled != [] {
      var found := Discover(dirs, listing, SetOf(enabled));
      if found.Ok? {
        NormalizedIdsAreIds(enabledRaw);
        var reg0 := EmptyRegistry.(enabled := enabled);
        assert NormalizedIds([]) == [];
        assert IdsWellFormed(reg0);
        MergeAllWellFormed(enabled, found.value, reg0, prompts, ModeRenderer(allows));
      }
    }
  }

  lemma NoMissingMeansAllFound(enabled: seq<string>, found: Found)
    requires MissingIds(enabled, found) == []
    ensures forall i :: 0 <= i < |enabled| ==> enabled[i] in found
  {
    forall i | 0 <= i < |enabled|
      ensures enabled[i] in found
    {
      assert enabled[i] in enabled;
    }
  }

  /**
   * After a successful scan the load reports missing plugins exactly when some enabled plugin
   * was not found, and it reports exactly those.
   */
  lemma LoadReportsMissing(enabledRaw: seq<string>, dirs: seq<PathBuf>, listing: map<PathBuf, seq<DirEntry>>,
                           prompts: map<PathBuf, string>, allows: ModeKind -> bool, found: Found)
    requires Discover(dirs, listing, SetOf(NormalizedIds(enabledRaw))) == Ok(found)
    ensures var r := LoadFrom(enabledRaw, dirs, listing, prompts, allows);
      (r.Err? && r.error.PluginsNotFound?) <==> exists x :: x in NormalizedIds(enabledRaw) && x !in found
    ensures var r := LoadFrom(enabledRaw, dirs, listing, prompts, allows);
      r.Err? && r.error.PluginsNotFound? ==>
        forall x :: x in r.error.missing <==> x in NormalizedIds(enabledRaw) && x !in found
  {
    var enabled := NormalizedIds(enabledRaw);
    var missing := MissingIds(enabled, found);
    assert forall x :: x in missing <==> x in enabled && x !in found;
    if enabled != [] {
      if missing == [] {
        NoMissingMeansAllFound(enabled, found);
        MergeAllErrors(enabled, found, EmptyRegistry.(enabled := enabled), prompts, ModeRenderer(allows));
        assert LoadFrom(enabledRaw, dirs, listing, prompts, allows)
            == MergeAll(enabled, found, EmptyRegistry.(enabled := enabled), prompts, ModeRenderer(allows));
      } else {
        assert missing[0] in missing;
        assert LoadFrom(enabledRaw, dirs, listing, prompts, allows) == Err(PluginsNotFound(missing));
      }
    }
  }

  /** A load never fails for a missing manifest: every enabled plugin is found before any is merged. */
  lemma LoadNeverMissesManifest(enabledRaw: seq<string>, dirs: seq<PathBuf>, listing: map<PathBuf, seq<DirEntry>>,
                                prompts: map<PathBuf, string>, allows: ModeKind -> bool)
    ensures var r := LoadFrom(enabledRaw, dirs, listing, prompts, allows);
      !(r.Err? && r.error.MissingManifest?)
  {
    var enabled := NormalizedIds(enabledRaw);
    if enabled != [] {
      var found := Discover(dirs, listing, SetOf(enabled));
      DiscoverEntriesErrors(Listed(dirs, listing), SetOf(enabled), map[]);
      if found.Ok? && MissingIds(enabled, found.value) == [] {
        NoMissingMeansAllFound(enabled, found.value);
        MergeAllErrors(enabled, found.value, EmptyRegistry.(enabled := enabled), prompts, ModeRenderer(allows));
        assert LoadFrom(enabledRaw, dirs, listing, prompts, allows)
            == MergeAll(enabled, found.value, EmptyRegistry.(enabled := enabled), prompts, ModeRenderer(allows));
      }
    }
  }

  /**
   * What a successful load holds: the first default role an enabled plugin declares, every
   * enabled plugin's UI lists in order, and their spawn defaults applied in order.
   */
  lemma LoadAccumulates(enabledRaw: seq<string>, dirs: seq<PathBuf>, listing: map<PathBuf, seq<DirEntry>>,
                        prompts: map<PathBuf, string>, allows: ModeKind -> bool, found: Found)
    requires NormalizedIds(enabledRaw) != [] ==> Discover(dirs, listing, SetOf(NormalizedIds(enabledRaw))) == Ok(found)
    ensures var r := LoadFrom(enabledRaw, dirs, listing, prompts, allows);
      r.Ok? ==> r.value.defaultAgentRole == FirstDefaultRole(NormalizedIds(enabledRaw), found)
    ensures var r := LoadFrom(enabledRaw, dirs, listing, prompts, allows);
      r.Ok? ==> r.value.ui == ExtendUi(UiSpec([], [], []), ContributedUi(NormalizedIds(enabledRaw), found))
    ensures var r := LoadFrom(enabledRaw, dirs, listing, prompts, allows);
      r.Ok? ==> r.value.spawnDefaultsAllow == MergeSpawnDefaults(map[], SpawnEntriesOf(NormalizedIds(enabledRaw), found))
  {
    var enabled := NormalizedIds(enabledRaw);
    if enabled == [] {
      assert NormalizedIds([]) == [];
    } else {
      var reg0 := EmptyRegistry.(enabled := enabled);
      MergeAllDefaultRole(enabled, found, reg0, prompts, ModeRenderer(allows));
      MergeAllUi(enabled, found, reg0, prompts, ModeRenderer(allows));
      MergeAllSpawnDefaults(enabled, found, reg0, prompts, ModeRenderer(allows));
    }
  }

  /** Enabling the same plugin twice fails the load when that plugin overrides a collaboration mode. */
  lemma LoadRejectsDoubleEnable(enabledRaw: seq<string>, dirs: seq<PathBuf>, listing: map<PathBuf, seq<DirEntry>>,
                                prompts: map<PathBuf, string>, allows: ModeKind -> bool, found: Found, i: nat, j: nat)
    requires Discover(dirs, listing, SetOf(NormalizedIds(enabledRaw))) == Ok(found)
    requires i < j < |NormalizedIds(enabledRaw)| && NormalizedIds(enabledRaw)[i] == NormalizedIds(enabledRaw)[j]
    requires NormalizedIds(enabledRaw)[i] in found && found[NormalizedIds(enabledRaw)[i]].1.collaborationModes != []
    ensures LoadFrom(enabledRaw, dirs, listing, prompts, allows).Err?
  {
    var enabled := NormalizedIds(enabledRaw);
    MergeAllRejectsTwice(enabled, found, EmptyRegistry.(enabled := enabled), prompts, ModeRenderer(allows), i, j);
  }

  /** A broken manifest in any searched directory fails a load that enables anything. */
  lemma LoadRejectsBrokenManifest(enabledRaw: seq<string>, dirs: seq<PathBuf>, listing: map<PathBuf, seq<DirEntry>>,
                                  prompts: map<PathBuf, string>, allows: ModeKind -> bool, i: nat)
    requires NormalizedIds(enabledRaw) != []
    requires i < |Listed(dirs, listing)| && IsBroken(Listed(dirs, listing)[i])
    ensures LoadFrom(enabledRaw, dirs, listing, prompts, allows).Err?
  {
    DiscoverEntriesRejectsBroken(Listed(dirs, listing), SetOf(NormalizedIds(enabledRaw)), map[], i);
  }

  /**
   * A `heavy_plan` override whose template asks for the mode names and the tool availability is
   * stored with the visible modes listed and with the availability sentence for Heavy Plan.
   */
  lemma HeavyPlanOverrideRendered(reg: Registry, dir: PathBuf, entry: (ModeKind, ModeOverrideManifest),
                                  prompts: map<PathBuf, string>, allows: ModeKind -> bool)
    requires entry.0 == HeavyPlan && HeavyPlan !in reg.modeOverrides && allows(HeavyPlan)
    requires var res := ResolvePluginPath(dir, entry.1.promptFile);
      res.Ok? && res.value in prompts
      && Contains(prompts[res.value], KnownNamesLead + KnownModeNamesPlaceholder + ".")
      && Contains(prompts[res.value], AvailabilityPlaceholder)
    ensures var r := MergeMode(reg, dir, entry, prompts, ModeRenderer(allows));
      r.Ok? && HeavyPlan in r.value.modeOverrides
      && Contains(r.value.modeOverrides[HeavyPlan], KnownNamesLead + KnownModeNames + ".")
      && Contains(r.value.modeOverrides[HeavyPlan], AvailablePrefix + "Heavy Plan" + " mode.")
  {
    var path := ResolvePluginPath(dir, entry.1.promptFile).value;
    var template := prompts[path];
    assert AvailabilityPlaceholder[0] == '{';
    ContainsNonBlank(template, AvailabilityPlaceholder);
    RenderKeepsNonBlank(template, HeavyPlan, allows);
    RenderFillsPlaceholders(template, HeavyPlan, allows);
    MergeModeOutcome(reg, dir, entry, prompts, ModeRenderer(allows));
  }
}
