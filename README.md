# Collaboration control plane, modelled in Dafny

This project models the part of the Codex agent that decides which agents exist, which of
them may spawn which, and how their collaboration is reported. It has four parts:

- **Plugin registry** (`codex-rs/core/src/plugins/mod.rs`). `load` reads the enabled plugin
  ids and searches the plugin directories for `plugin.toml` manifests. It then merges the
  enabled plugins, in order, into one `PluginRegistry`. The registry holds the default agent
  role, the role and category definitions, per-mode prompt overrides, spawn defaults and UI
  lists. The registry's accessors and its path helpers are modelled too. Modules:
  `Plugins`, `PluginLoad` (the loops, as methods proved against fold functions) and
  `LoadFacts` (what a load guarantees).
- **Collaboration-mode presets**
  (`codex-rs/core/src/models_manager/collaboration_mode_presets.rs`). These are the four
  built-in modes. The `{{KNOWN_MODE_NAMES}}` and `{{REQUEST_USER_INPUT_AVAILABILITY}}`
  placeholders are filled into their instruction templates. Modules: `CollaborationModes`,
  `CollaborationModePresets` and `Substitution` (Rust's `str::replace`).
- **Spawn-permission editor**
  (`codex-rs/tui/src/bottom_pane/agent_spawn_config_view.rs`). This is the view in which a
  user says which agent roles a caller role may spawn. The pure policy is in
  `SpawnPermissions`: defaults from the registry, overrides, normalised writes, and saving
  and reading the persisted map. The editor as a value under key actions is in
  `SpawnEditor`. `SpawnConfigView` holds the view as a class whose fields its methods
  update, and the builder loops as methods.
- **Collaboration history cells** (`codex-rs/tui/src/collab.rs`). These are the lines the
  TUI shows for spawn, interaction, wait, close and resume events. They include the wait
  summary, `<n> total` followed by the non-zero status counts. Module: `Collab`.

Shared modules:
- `Wrappers`: `Option` and `Result`.
- `Text`: trimming, lines, joining, whitespace splitting and decimal rendering.
- `Ordering`: Rust's string order, `BTreeSet` iteration, de-duplication, `filter` and `map`.
- `RoleIds`: `normalize_id`, and the editor's allow-all token test. `plugins/mod.rs` and the
  spawn-permission editor each define the same normalisation (`normalize_id` and
  `normalize_role_id`), which is modelled once; the allow-all token test is defined only in the
  editor.

Collections the source mutates are modelled as Dafny maps and sets. The registry, file
system and persisted configuration are given to the model as values. A hash map's iteration
order is an arbitrary listing of its entries, and every property is proved for all listings.

`load` (`plugins/mod.rs` lines 146-150) normalises the enabled ids and drops empty ones. It
does not de-duplicate them, so enabling a plugin that overrides a mode twice fails with a
duplicate-override error (`LoadFacts.MergeAllRejectsTwice`, `LoadFacts.LoadRejectsDoubleEnable`).

## Model

| member | source | states |
|---|---|---|
| Text.Trim | codex-rs/tui/src/collab.rs:161 | the trimmed text is no longer than the input and neither starts nor ends with whitespace |
| Text.TrimIdempotent | codex-rs/tui/src/bottom_pane/agent_spawn_config_view.rs:708 | trimming twice is trimming once |
| Text.BlankIffAllWhitespace | codex-rs/tui/src/collab.rs:161-164 | `trim().is_empty()` holds exactly when every character is whitespace |
| Text.JoinContainsPart | codex-rs/tui/src/collab.rs:181-185 | every id of a joined list occurs in the joined text |
| Text.LinesJoin | codex-rs/tui/src/collab.rs:167 | for text without carriage returns and no final line feed, `lines()` are the pieces between line feeds and joining them with line feeds gives the text back |
| Text.SplitWhitespace | codex-rs/tui/src/collab.rs:265 | `split_whitespace` yields only non-empty runs of non-whitespace characters |
| Text.SplitWhitespaceOfJoin | codex-rs/tui/src/collab.rs:265 | words joined by single spaces split back into the same words |
| Text.CollapseWhitespaceKeepsWords | codex-rs/tui/src/collab.rs:265 | collapsing an error text keeps its words in order, leaves single spaces as the only whitespace, and removes every line break |
| Text.NatToStringRoundTrip | codex-rs/tui/src/collab.rs:211 | the decimal rendering of a count reads back as that count |
| Text.NatToStringInjective | codex-rs/tui/src/collab.rs:289 | different counts are rendered as different texts |
| Ordering.Minimum | codex-rs/tui/src/bottom_pane/agent_spawn_config_view.rs:463 | the least element of a non-empty set of strings, in Rust's string order |
| Ordering.SortedElements | codex-rs/tui/src/bottom_pane/agent_spawn_config_view.rs:463 | a `BTreeSet` iterates over exactly its elements, each once |
| Ordering.SortedElementsOrdered | codex-rs/tui/src/collab.rs:248 | the elements come out in strictly ascending string order |
| Ordering.Dedup | codex-rs/core/src/plugins/mod.rs:479-489 | keeps the first occurrence of each element: the result has no repeats and the same elements |
| Ordering.DedupOfPair | codex-rs/core/src/plugins/mod.rs:479-489 | two candidate directories are both kept unless they are equal, when one is kept |
| Ordering.Filter | codex-rs/core/src/plugins/mod.rs:149 | `filter` keeps exactly the elements that satisfy the predicate |
| Ordering.Map | codex-rs/core/src/plugins/mod.rs:148 | `map` applies the function to every element, in order |
| Substitution.ReplaceAllRemoves | codex-rs/core/src/models_manager/collaboration_mode_presets.rs:73-78 | after `replace` no occurrence of the placeholder is left when the replacement cannot forge one |
| Substitution.ReplaceAllKeepsAbsent | codex-rs/core/src/models_manager/collaboration_mode_presets.rs:73-78 | a pattern absent from the text stays absent when the replacement cannot forge it |
| Substitution.ReplaceAllInserts | codex-rs/core/src/models_manager/collaboration_mode_presets.rs:73-78 | wherever the placeholder occurs, the replacement occurs in the output |
| Substitution.ReplaceAllInContext | codex-rs/core/src/models_manager/collaboration_mode_presets.rs:73-78 | an occurrence of `u + placeholder + v`, with a context free of the placeholder's delimiters, becomes `u + replacement + v` |
| Substitution.ReplaceAllKeepsPlaceholder | codex-rs/core/src/models_manager/collaboration_mode_presets.rs:73-78 | replacing one placeholder leaves the other placeholder in place |
| Substitution.ReplaceAllKeepsNonBlank | codex-rs/core/src/plugins/mod.rs:369-378 | replacing with non-blank text never makes a non-blank template blank |
| Substitution.PlaceholdersDoNotOverlap | codex-rs/core/src/plugins/mod.rs:366-367 | the two placeholders cannot start inside one another |
| RoleIds.LowerAndDashChars | codex-rs/tui/src/bottom_pane/agent_spawn_config_view.rs:708 | `to_ascii_lowercase().replace('_', "-")` works character by character and keeps the length |
| RoleIds.NormalizeIdIsNormalized | codex-rs/core/src/plugins/mod.rs:505-507 | a normalised id has no surrounding whitespace, no ASCII capital and no `_`, and is empty exactly when the raw id is blank |
| RoleIds.NormalizeNormalized | codex-rs/core/src/plugins/mod.rs:505-507 | normalising an id already in normal form returns it unchanged |
| RoleIds.NormalizeIdIdempotent | codex-rs/core/src/plugins/mod.rs:505-507 | normalising twice is normalising once |
| RoleIds.EqIgnoreCaseOfLower | codex-rs/tui/src/bottom_pane/agent_spawn_config_view.rs:713 | without ASCII capitals, `eq_ignore_ascii_case` is plain equality |
| RoleIds.LowerAllowAllToken | codex-rs/tui/src/bottom_pane/agent_spawn_config_view.rs:711-714 | a token without ASCII capitals is a wildcard exactly when it is `*` or `all` |
| RoleIds.NormalizedAllowAllToken | codex-rs/tui/src/bottom_pane/agent_spawn_config_view.rs:711-714 | a normalised id matches the wildcard test exactly when it is `*` or `all` |
| CollaborationModes.DisplayName | codex-rs/core/src/plugins/mod.rs:549 | display names are `Default`, `Plan`, `Heavy`, `Heavy Plan`: at least four characters and brace-free |
| CollaborationModes.DisplayNames | codex-rs/core/src/models_manager/collaboration_mode_presets.rs:82 | the display names of the given modes, one per mode, in order |
| CollaborationModes.FormatNamesMentionsAll | codex-rs/core/src/models_manager/collaboration_mode_presets.rs:81-89 | the English list names every given name and is `none` exactly when there are none |
| CollaborationModes.FormatModeNamesMentionsAll | codex-rs/core/src/models_manager/collaboration_mode_presets.rs:81-89 | `format_mode_names` names every given mode and is `none` exactly when given none |
| CollaborationModes.FormatVisibleModes | codex-rs/core/src/plugins/mod.rs:549 | for the visible modes the list reads `Default, Plan, Heavy, Heavy Plan` |
| CollaborationModes.AvailabilityMentionsMode | codex-rs/core/src/models_manager/collaboration_mode_presets.rs:91-100 | the availability sentence names the mode |
| CollaborationModes.AvailabilityDistinguishes | codex-rs/core/src/models_manager/collaboration_mode_presets.rs:91-100 | two sentences for one mode are equal exactly when both say the tool is allowed, or both say it is not |
| CollaborationModes.AvailabilityMessagePlain | codex-rs/core/src/models_manager/collaboration_mode_presets.rs:91-100 | the sentence is brace-free, longer than a placeholder and starts with a non-whitespace character |
| CollaborationModes.ReplaceTwoPlaceholders | codex-rs/core/src/models_manager/collaboration_mode_presets.rs:73-78 | two chained replacements of distinct placeholders leave neither placeholder, fill in the first in its context and insert the second |
| CollaborationModes.RenderFillsPlaceholders | codex-rs/core/src/models_manager/collaboration_mode_presets.rs:116-139 | a template with both placeholders renders with neither left, with `Known mode names are Default, Plan, Heavy, Heavy Plan.`, and with the mode's availability sentence |
| CollaborationModes.RenderKeepsNonBlank | codex-rs/core/src/plugins/mod.rs:266-272 | a non-blank template never renders blank |
| CollaborationModePresets.PresetList | codex-rs/core/src/models_manager/collaboration_mode_presets.rs:15-68 | four presets, one per visible mode in UI order, each named after its mode, with no model and with instructions set |
| CollaborationModePresets.BuiltinPresets | codex-rs/core/src/models_manager/collaboration_mode_presets.rs:15-22 | the same four presets, with Default and Heavy instructions rendered for their modes |
| CollaborationModePresets.PresetsCoverVisibleModes | codex-rs/core/src/models_manager/collaboration_mode_presets.rs:142-154 | every visible mode has a preset, and no two presets share a mode |
| CollaborationModePresets.PresetEffortAndInstructions | codex-rs/core/src/models_manager/collaboration_mode_presets.rs:24-68 | Plan and Heavy Plan ask for medium effort and carry their templates as written; Default and Heavy set no effort and carry rendered instructions |
| CollaborationModePresets.RenderedPresetInstructions | codex-rs/core/src/models_manager/collaboration_mode_presets.rs:116-139 | the Default instructions list the mode names, carry the Default availability sentence and keep no placeholder; the Heavy instructions carry the Heavy sentence |
| Plugins.ParsePathFacts | codex-rs/core/src/plugins/mod.rs:493-497 | a path is absolute exactly when it starts with `/`; its components are the named pieces between separators |
| Plugins.ResolvePluginPathContained | codex-rs/core/src/plugins/mod.rs:492-503 | an absolute path is refused as such, then a path with a `..` component; an accepted path lies under the plugin directory with no `..` after it |
| Plugins.ResolvedIsJoin | codex-rs/core/src/plugins/mod.rs:502 | an accepted path is the plugin directory joined with the relative path |
| Plugins.PluginSearchDirs | codex-rs/core/src/plugins/mod.rs:471-490 | the loop returns the simplified candidates with repeats dropped, first occurrences kept |
| Plugins.SearchDirsShape | codex-rs/core/src/plugins/mod.rs:471-490 | home's `plugins` comes first; the repository root's (or the working directory's) is kept only when it differs |
| Plugins.IsEmptyIffDefault | codex-rs/core/src/plugins/mod.rs:68-77 | a registry is empty exactly when it is the default registry, whatever its default role |
| Plugins.Role | codex-rs/core/src/plugins/mod.rs:87-89 | a role is found exactly when the normalised id is a key; it is a registry role, and its id is the normalised id when keys are ids |
| Plugins.Category | codex-rs/core/src/plugins/mod.rs:101-103 | a category is found exactly when the normalised id is a key; it is a registry category, and its id is the normalised id when keys are ids |
| Plugins.RoleLookupIgnoresSpelling | codex-rs/core/src/plugins/mod.rs:87-89 | ids that normalise alike find the same role |
| Plugins.CategoryLookupIgnoresSpelling | codex-rs/core/src/plugins/mod.rs:101-103 | ids that normalise alike find the same category |
| Plugins.ModeOverride | codex-rs/core/src/plugins/mod.rs:105-109 | an override is returned exactly when one is stored for the mode, and it is that text |
| Plugins.ValuesAtAllKeys | codex-rs/core/src/plugins/mod.rs:83-85 | listing the values under every key lists exactly the map's values |
| Plugins.RolesInOrder | codex-rs/core/src/plugins/mod.rs:83-85 | `roles()` has one entry per role and lists exactly the role definitions |
| Plugins.SpawnableRoles | codex-rs/core/src/plugins/mod.rs:91-95 | `spawnable_roles()` lists exactly the roles of kind `Spawnable` |
| Plugins.CategoriesInOrder | codex-rs/core/src/plugins/mod.rs:97-99 | `categories()` has one entry per category and lists exactly the category definitions |
| Plugins.ReadRolePrompt | codex-rs/core/src/plugins/mod.rs:119-125 | an unknown role is an error; otherwise the result is the prompt file's text when it can be read |
| Plugins.ReadCategoryPromptAppend | codex-rs/core/src/plugins/mod.rs:127-137 | an unknown category is an error; otherwise the result is the file's text when it can be read |
| PluginLoad.NormalizedIdsMembers | codex-rs/core/src/plugins/mod.rs:146-150 | an id is enabled exactly when it is non-empty and some raw entry normalises to it |
| PluginLoad.NormalizedIdsAppend | codex-rs/core/src/plugins/mod.rs:146-150 | normalisation works entry by entry and keeps duplicates |
| PluginLoad.DefaultRoleOf | codex-rs/core/src/plugins/mod.rs:236-241 | a manifest gives a default role exactly when it declares a non-blank one, and that role is normalised |
| PluginLoad.NormalizeEnabled | codex-rs/core/src/plugins/mod.rs:146-150 | the loop computes the normalised, non-empty enabled ids in order |
| PluginLoad.DiscoverEntriesAppend | codex-rs/core/src/plugins/mod.rs:159-205 | scanning two listings is scanning the first, then the second from where the first stopped, and an error stops the scan |
| PluginLoad.ScanEntry | codex-rs/core/src/plugins/mod.rs:165-203 | one directory entry is scanned as the scan function says |
| PluginLoad.DiscoverInDir | codex-rs/core/src/plugins/mod.rs:164-204 | the inner scan loop computes the scan of one directory |
| PluginLoad.DiscoverPlugins | codex-rs/core/src/plugins/mod.rs:159-205 | the outer scan loop computes the scan of every search directory, an unlistable one skipped |
| PluginLoad.CollectMissing | codex-rs/core/src/plugins/mod.rs:207-211 | the loop collects the enabled ids no manifest declared, in enabled order |
| PluginLoad.MergeModeOverride | codex-rs/core/src/plugins/mod.rs:245-273 | one override is checked, read, rendered and stored as the merge function says |
| PluginLoad.MergeModeOverrides | codex-rs/core/src/plugins/mod.rs:244-274 | the override loop computes the merge of all of a plugin's overrides |
| PluginLoad.MergeRoleDeclaration | codex-rs/core/src/plugins/mod.rs:277-302 | one role declaration is merged as the merge function says |
| PluginLoad.MergeRoleDefinitions | codex-rs/core/src/plugins/mod.rs:276-303 | the role loop computes the merge of all of a plugin's roles |
| PluginLoad.MergeCategoryDeclaration | codex-rs/core/src/plugins/mod.rs:306-325 | one category declaration is merged as the merge function says |
| PluginLoad.MergeCategoryDefinitions | codex-rs/core/src/plugins/mod.rs:305-326 | the category loop computes the merge of all of a plugin's categories |
| PluginLoad.MergeSpawnDefaultEntries | codex-rs/core/src/plugins/mod.rs:328-334 | the spawn-default loop computes the merge of a plugin's entries |
| PluginLoad.MergeEnabledPlugin | codex-rs/core/src/plugins/mod.rs:230-359 | one enabled plugin is merged as the merge function says |
| PluginLoad.MergeEnabled | codex-rs/core/src/plugins/mod.rs:229-360 | the merge loop computes the merge of every enabled plugin in order |
| PluginLoad.Load | codex-rs/core/src/plugins/mod.rs:145-363 | `load` is the load function applied to the de-duplicated, simplified search directories |
| LoadFacts.MergeModeOutcome | codex-rs/core/src/plugins/mod.rs:244-273 | an override is stored, rendered, exactly when its mode is new, its path resolves, its prompt can be read and is not blank; a blank prompt is the empty-prompt error and the rendered-empty error never happens |
| LoadFacts.ModeRendererKeepsNonBlank | codex-rs/core/src/plugins/mod.rs:266-272 | the renderer of `load` turns a non-blank prompt into a non-blank one |
| LoadFacts.MergeModesFrame | codex-rs/core/src/plugins/mod.rs:244-274 | a plugin's overrides change nothing else and keep every earlier override |
| LoadFacts.MergeModesAdded | codex-rs/core/src/plugins/mod.rs:244-274 | the modes gaining an override are exactly those the manifest names |
| LoadFacts.MergeModesNonBlank | codex-rs/core/src/plugins/mod.rs:260-273 | no stored override prompt is blank |
| LoadFacts.MergeModesRejectsTaken | codex-rs/core/src/plugins/mod.rs:245-249 | overriding a mode that already has an override fails |
| LoadFacts.MergeRoleSkips | codex-rs/core/src/plugins/mod.rs:277-280 | a role whose id normalises to nothing is skipped |
| LoadFacts.MergeRoleRejectsTaken | codex-rs/core/src/plugins/mod.rs:281-283 | a role id already taken is the duplicate-role error |
| LoadFacts.MergeRoleAdds | codex-rs/core/src/plugins/mod.rs:285-302 | a stored role adds exactly one entry, under its normalised id, and changes nothing else |
| LoadFacts.MergeRolesFrame | codex-rs/core/src/plugins/mod.rs:276-303 | a plugin's roles change nothing else and keep every earlier role |
| LoadFacts.MergeRolesKeys | codex-rs/core/src/plugins/mod.rs:276-303 | the role ids added are exactly the plugin's non-empty normalised ids |
| LoadFacts.MergeRolesDefinitions | codex-rs/core/src/plugins/mod.rs:287-301 | each added role is the definition its declaration yields: label defaulting to the normalised id, read-only to false, collab tools to true |
| LoadFacts.MergeRolesRejectsTaken | codex-rs/core/src/plugins/mod.rs:281-283 | a role id taken by an earlier plugin or declaration fails the merge |
| LoadFacts.MergeRolesRejectsRepeat | codex-rs/core/src/plugins/mod.rs:276-283 | two declarations of one plugin normalising to the same id fail the merge |
| LoadFacts.MergeCategorySkips | codex-rs/core/src/plugins/mod.rs:306-309 | a category whose id normalises to nothing is skipped |
| LoadFacts.MergeCategoryRejectsTaken | codex-rs/core/src/plugins/mod.rs:310-312 | a category id already taken is the duplicate-category error |
| LoadFacts.MergeCategoryAdds | codex-rs/core/src/plugins/mod.rs:313-325 | a stored category adds exactly one entry, under its normalised id, and changes nothing else |
| LoadFacts.MergeCategoriesFrame | codex-rs/core/src/plugins/mod.rs:305-326 | a plugin's categories change nothing else and keep every earlier category |
| LoadFacts.MergeCategoriesKeys | codex-rs/core/src/plugins/mod.rs:305-326 | the category ids added are exactly the plugin's non-empty normalised ids |
| LoadFacts.MergeCategoriesDefinitions | codex-rs/core/src/plugins/mod.rs:317-324 | each added category is its declaration, its label defaulting to the raw id, keyed by its own id |
| LoadFacts.MergeCategoriesRejectsTaken | codex-rs/core/src/plugins/mod.rs:310-312 | a category id taken by an earlier plugin or declaration fails the merge |
| LoadFacts.MergeCategoriesRejectsRepeat | codex-rs/core/src/plugins/mod.rs:305-312 | two declarations of one plugin normalising to the same id fail the merge |
| LoadFacts.MergeSpawnDefaultsUntouched | codex-rs/core/src/plugins/mod.rs:328-334 | a caller no entry names keeps what it had |
| LoadFacts.MergeSpawnDefaultsLastWins | codex-rs/core/src/plugins/mod.rs:329-333 | the last entry for a normalised caller wins, its targets stored as written |
| LoadFacts.MergeSpawnDefaultsNormalized | codex-rs/core/src/plugins/mod.rs:332 | spawn-default callers are stored normalised |
| LoadFacts.MergeDeclarationsFrame | codex-rs/core/src/plugins/mod.rs:276-326 | a plugin's roles and categories change nothing else and keep every earlier one |
| LoadFacts.MergePluginShape | codex-rs/core/src/plugins/mod.rs:230-359 | merging a plugin is its last stage after its first, with only overrides, roles and categories changed between |
| LoadFacts.MergePluginFields | codex-rs/core/src/plugins/mod.rs:235-242 | merging keeps the enabled list, takes the default role only when none is set, appends the normalised UI lists and applies the spawn defaults |
| LoadFacts.MergePluginExtends | codex-rs/core/src/plugins/mod.rs:244-326 | merging a plugin never drops or replaces an earlier override, role or category |
| LoadFacts.MergePluginModes | codex-rs/core/src/plugins/mod.rs:244-274 | after a plugin, exactly the modes it overrides have gained an override |
| LoadFacts.MergePluginRejectsTakenMode | codex-rs/core/src/plugins/mod.rs:245-249 | a plugin overriding a mode an earlier plugin overrode fails |
| LoadFacts.FirstDefaultRole | codex-rs/core/src/plugins/mod.rs:235-242 | the first declared default role is non-empty and normalised |
| LoadFacts.MergeAllKeepsEnabled | codex-rs/core/src/plugins/mod.rs:224-227 | the enabled list the merge starts with is the one it ends with |
| LoadFacts.MergeAllDefaultRole | codex-rs/core/src/plugins/mod.rs:235-242 | first writer wins: the default role is the first one an enabled plugin declares |
| LoadFacts.MergeAllUi | codex-rs/core/src/plugins/mod.rs:336-359 | the UI lists are the normalised, non-empty ids of every enabled plugin's lists, concatenated in order |
| LoadFacts.MergeAllSpawnDefaults | codex-rs/core/src/plugins/mod.rs:328-334 | the spawn defaults are every enabled plugin's entries applied in order |
| LoadFacts.MergeAllErrors | codex-rs/core/src/plugins/mod.rs:229-233 | once every enabled plugin has a manifest, a failed merge is a merge error, never a missing manifest |
| LoadFacts.MergeAllRejectsTakenMode | codex-rs/core/src/plugins/mod.rs:244-249 | a plugin whose override is taken when its turn comes fails the load |
| LoadFacts.MergeAllLastModes | codex-rs/core/src/plugins/mod.rs:244-274 | after the last plugin every mode it overrides has an override |
| LoadFacts.MergeAllRejectsReturn | codex-rs/core/src/plugins/mod.rs:229-249 | a plugin with an override fails when it comes round a second time |
| LoadFacts.MergeAllRejectsTwice | codex-rs/core/src/plugins/mod.rs:146-249 | an enabled list naming an overriding plugin twice fails, since enabled ids are not de-duplicated |
| LoadFacts.DiscoverEntryOutcome | codex-rs/core/src/plugins/mod.rs:165-203 | one entry: a broken manifest stops the scan, an enabled plugin seen twice stops it, an enabled plugin is recorded, anything else is skipped |
| LoadFacts.DiscoverEntriesExtends | codex-rs/core/src/plugins/mod.rs:164-204 | a successful scan only adds plugins |
| LoadFacts.DiscoverEntriesSound | codex-rs/core/src/plugins/mod.rs:189-203 | every recorded plugin is enabled, keyed by its normalised manifest id and from a scanned directory |
| LoadFacts.DiscoverEntriesComplete | codex-rs/core/src/plugins/mod.rs:189-203 | a successful scan records every enabled plugin it saw |
| LoadFacts.DiscoverEntriesErrors | codex-rs/core/src/plugins/mod.rs:179-202 | the scan fails only for a broken manifest or an enabled plugin declared twice |
| LoadFacts.DiscoverEntriesRejectsBroken | codex-rs/core/src/plugins/mod.rs:179-187 | a broken manifest anywhere fails the scan |
| LoadFacts.DiscoverEntriesRejectsDuplicate | codex-rs/core/src/plugins/mod.rs:193-202 | two directories declaring the same enabled plugin fail the scan |
| LoadFacts.DiscoverEntriesSucceeds | codex-rs/core/src/plugins/mod.rs:159-205 | with no broken manifest and no enabled plugin declared twice the scan succeeds |
| LoadFacts.NormalizedIdsAreIds | codex-rs/core/src/plugins/mod.rs:146-150 | normalising yields only normalised, non-empty ids |
| LoadFacts.MergeRolesWellFormed | codex-rs/core/src/plugins/mod.rs:276-303 | added roles are stored under their own normalised non-empty ids and come from enabled plugins |
| LoadFacts.MergeCategoriesWellFormed | codex-rs/core/src/plugins/mod.rs:305-326 | added categories are stored under their own normalised non-empty ids and come from enabled plugins |
| LoadFacts.MergePluginWellFormed | codex-rs/core/src/plugins/mod.rs:230-359 | merging an enabled plugin keeps the registry well formed |
| LoadFacts.MergeAllWellFormed | codex-rs/core/src/plugins/mod.rs:229-360 | merging the enabled plugins keeps the registry well formed |
| LoadFacts.NormalizedIdsEmpty | codex-rs/core/src/plugins/mod.rs:146-151 | nothing is enabled exactly when every entry is blank |
| LoadFacts.LoadNothingEnabled | codex-rs/core/src/plugins/mod.rs:146-153 | with nothing enabled the load returns the empty registry, and a successful load is empty only then |
| LoadFacts.LoadWellFormed | codex-rs/core/src/plugins/mod.rs:145-363 | every loaded registry is well formed |
| LoadFacts.LoadReportsMissing | codex-rs/core/src/plugins/mod.rs:207-222 | after a successful scan the load reports missing plugins exactly when some enabled plugin was not found, and it reports exactly those |
| LoadFacts.LoadNeverMissesManifest | codex-rs/core/src/plugins/mod.rs:229-233 | the merge never fails for a missing manifest |
| LoadFacts.LoadAccumulates | codex-rs/core/src/plugins/mod.rs:229-360 | a loaded registry holds the first declared default role, every plugin's UI lists in order and their spawn defaults applied in order |
| LoadFacts.LoadRejectsDoubleEnable | codex-rs/core/src/plugins/mod.rs:146-249 | enabling an overriding plugin twice fails the load |
| LoadFacts.LoadRejectsBrokenManifest | codex-rs/core/src/plugins/mod.rs:179-187 | a broken manifest in a searched directory fails any load that enables something |
| LoadFacts.HeavyPlanOverrideRendered | codex-rs/core/src/plugins/mod.rs:515-555 | a `heavy_plan` override is stored with the visible mode names and the Heavy Plan availability sentence filled in |
| SpawnPermissions.AllowsIsMembership | codex-rs/tui/src/bottom_pane/agent_spawn_config_view.rs:62-68 | `allows` is always true under `All`, membership under an allow-list, and always false under `None` |
| SpawnPermissions.DefaultForCases | codex-rs/tui/src/bottom_pane/agent_spawn_config_view.rs:169-193 | a caller without a registry entry gets `None`; a wildcard token gives `All`; otherwise the known normalised targets, `None` when there are none |
| SpawnPermissions.DefaultsForShape | codex-rs/tui/src/bottom_pane/agent_spawn_config_view.rs:169-193 | every caller gets exactly one default, and no default names an unknown target or is an empty allow-list |
| SpawnPermissions.EffectiveLayers | codex-rs/tui/src/bottom_pane/agent_spawn_config_view.rs:260-275 | an override wins over the default and is reported as the source; the permission then stands for exactly the targets the override stores |
| SpawnPermissions.NormalizedWriteEffect | codex-rs/tui/src/bottom_pane/agent_spawn_config_view.rs:418-451 | after the write the caller allows exactly the written set; its override is absent exactly when the set is the default's; other callers are unchanged |
| SpawnPermissions.NormalizedWriteWithin | codex-rs/tui/src/bottom_pane/agent_spawn_config_view.rs:418-451 | the write keeps every override within the known targets and adds no caller but the written one |
| SpawnPermissions.NormalizedWriteAllows | codex-rs/tui/src/bottom_pane/agent_spawn_config_view.rs:418-451 | within the known targets, the written caller allows exactly the written set |
| SpawnPermissions.ToggleWriteFlips | codex-rs/tui/src/bottom_pane/agent_spawn_config_view.rs:392-416 | toggling flips the target in the caller's expanded allow-set and changes no other target or caller |
| SpawnPermissions.ToggleTwiceRestores | codex-rs/tui/src/bottom_pane/agent_spawn_config_view.rs:392-416 | toggling the same target twice restores what the caller allows |
| SpawnPermissions.AllowAllWriteEffect | codex-rs/tui/src/bottom_pane/agent_spawn_config_view.rs:381-390 | allow-all lets the caller spawn every target, drops the override exactly when the default is `All`, and changes nothing else |
| SpawnPermissions.AllowAllWriteWithin | codex-rs/tui/src/bottom_pane/agent_spawn_config_view.rs:381-390 | allow-all keeps every override within the known targets |
| SpawnPermissions.ClearRestoresDefault | codex-rs/tui/src/bottom_pane/agent_spawn_config_view.rs:374-379 | clearing removes only the caller's key, which then falls back to its default |
| SpawnPermissions.BuildAllowOverridesShape | codex-rs/tui/src/bottom_pane/agent_spawn_config_view.rs:457-467 | the saved map has the override keys, `All` saved as `["*"]` and an allow-list as its elements in order |
| SpawnPermissions.ParseFromKeys | codex-rs/tui/src/bottom_pane/agent_spawn_config_view.rs:204-233 | reading keeps earlier overrides and adds exactly the known callers the entries name |
| SpawnPermissions.ParseFromWithin | codex-rs/tui/src/bottom_pane/agent_spawn_config_view.rs:216-232 | overrides read in name only known targets |
| SpawnPermissions.ParseOverridesKept | codex-rs/tui/src/bottom_pane/agent_spawn_config_view.rs:196-236 | the parsed overrides are exactly for the known callers named, and every allow-list names only known targets |
| SpawnPermissions.ParseFromWarnings | codex-rs/tui/src/bottom_pane/agent_spawn_config_view.rs:204-231 | each entry's warnings are appended in turn |
| SpawnPermissions.ParseOverridesWarns | codex-rs/tui/src/bottom_pane/agent_spawn_config_view.rs:205-231 | an unknown caller is dropped with a warning naming it; unknown targets of a known caller are listed in a warning |
| SpawnPermissions.ParseFromLastWins | codex-rs/tui/src/bottom_pane/agent_spawn_config_view.rs:211-232 | the last entry for a caller decides its override: `All` on a wildcard, else its known normalised targets |
| SpawnPermissions.ParseFromUntouched | codex-rs/tui/src/bottom_pane/agent_spawn_config_view.rs:204-233 | a caller no entry names keeps what it had |
| SpawnPermissions.ParseOverridesLastWins | codex-rs/tui/src/bottom_pane/agent_spawn_config_view.rs:204-233 | `parse_overrides` keeps, for each known caller, what its last entry gives |
| SpawnPermissions.SavedEntryReadsBack | codex-rs/tui/src/bottom_pane/agent_spawn_config_view.rs:211-232 | one saved override reads back as itself without a warning |
| SpawnPermissions.SavedTargetsReadBack | codex-rs/tui/src/bottom_pane/agent_spawn_config_view.rs:216-225 | a saved allow-list of known, normalised, non-wildcard targets reads back as itself with no unknown target |
| SpawnPermissions.SaveReadRoundTrip | codex-rs/tui/src/bottom_pane/agent_spawn_config_view.rs:457-467 | saving the overrides and parsing the saved map, in any order, gives the same overrides and no warning |
| SpawnPermissions.SavedEntries | codex-rs/tui/src/bottom_pane/agent_spawn_config_view.rs:457-467 | the saved entries name every caller with an override, each with its saved tokens |
| SpawnPermissions.RoleSpecsFacts | codex-rs/tui/src/bottom_pane/agent_spawn_config_view.rs:146-162 | the listed roles are the registry roles the ids name, with their labels, each once, and all of them |
| SpawnPermissions.RoleSpecsFromSound | codex-rs/tui/src/bottom_pane/agent_spawn_config_view.rs:149-160 | every listed role is named by some id and was not already listed |
| SpawnPermissions.RoleSpecsFromDistinct | codex-rs/tui/src/bottom_pane/agent_spawn_config_view.rs:153-155 | no role is listed twice |
| SpawnPermissions.RoleSpecsFromComplete | codex-rs/tui/src/bottom_pane/agent_spawn_config_view.rs:149-160 | every role an id names is listed |
| SpawnEditor.SelectedListed | codex-rs/tui/src/bottom_pane/agent_spawn_config_view.rs:248-251 | a selected caller or target is one of the listed roles |
| SpawnEditor.InitialValid | codex-rs/tui/src/bottom_pane/agent_spawn_config_view.rs:92-144 | a new editor is valid and clean, focused on callers, not complete, selecting the first caller and target exactly when they exist |
| SpawnEditor.ApplyPreservesValid | codex-rs/tui/src/bottom_pane/agent_spawn_config_view.rs:471-569 | every action keeps the editor valid and leaves its configuration, selections and initial overrides alone |
| SpawnEditor.ToggleKeepsValid | codex-rs/tui/src/bottom_pane/agent_spawn_config_view.rs:392-416 | toggling keeps the editor valid |
| SpawnEditor.AllowAllKeepsValid | codex-rs/tui/src/bottom_pane/agent_spawn_config_view.rs:381-390 | allow-all keeps the editor valid |
| SpawnEditor.ApplyCompletes | codex-rs/tui/src/bottom_pane/agent_spawn_config_view.rs:548-566 | the editor completes exactly on save or quit, which change no permission; only a save of a dirty editor sends, and it sends the overrides in saved form |
| SpawnEditor.ActivateFlipsSelected | codex-rs/tui/src/bottom_pane/agent_spawn_config_view.rs:525-537 | on the targets panel, activating flips exactly the selected target for the selected caller; with nothing selected it changes nothing |
| SpawnEditor.ActivateTwiceRestores | codex-rs/tui/src/bottom_pane/agent_spawn_config_view.rs:392-416 | activating twice restores what the selected caller is allowed |
| SpawnEditor.AllowAllAndUseDefault | codex-rs/tui/src/bottom_pane/agent_spawn_config_view.rs:538-547 | allow-all lets the caller spawn every target; use-default drops only that caller's override |
| SpawnEditor.NoCallerNoEdit | codex-rs/tui/src/bottom_pane/agent_spawn_config_view.rs:374-390 | with no caller selected, allow-all and use-default change nothing |
| SpawnEditor.RoleSpecsNormalized | codex-rs/tui/src/bottom_pane/agent_spawn_config_view.rs:146-162 | listed role ids are normalised when registry keys are their roles' ids |
| SpawnEditor.SaveReadsBack | codex-rs/tui/src/bottom_pane/agent_spawn_config_view.rs:548-559 | what a save sends parses back, with the parser the editor opens with, as exactly the saved overrides and no warning, provided no target is named `*` or `all` and the callers are normalised |
| SpawnConfigView.BuildRoleSpecs | codex-rs/tui/src/bottom_pane/agent_spawn_config_view.rs:146-162 | the loop computes `RoleSpecs`: the registry roles the ids name, each once, in first-mention order |
| SpawnConfigView.BuildDefaultPermissions | codex-rs/tui/src/bottom_pane/agent_spawn_config_view.rs:164-194 | the loop over the callers in ascending order computes one default per caller |
| SpawnConfigView.DefaultForCaller | codex-rs/tui/src/bottom_pane/agent_spawn_config_view.rs:170-191 | one iteration computes the caller's default |
| SpawnConfigView.ParseTargetTokens | codex-rs/tui/src/bottom_pane/agent_spawn_config_view.rs:216-225 | the loop computes the known normalised targets and the unknown raw tokens, in order |
| SpawnConfigView.ParseOverrideEntry | codex-rs/tui/src/bottom_pane/agent_spawn_config_view.rs:204-233 | one persisted entry is read as the parse function says |
| SpawnConfigView.ParseAllowOverrides | codex-rs/tui/src/bottom_pane/agent_spawn_config_view.rs:196-236 | the loop computes the overrides and warnings `parse_overrides` gives |
| SpawnConfigView.AgentSpawnConfigView.constructor | codex-rs/tui/src/bottom_pane/agent_spawn_config_view.rs:92-144 | the new view is the initial editor state; it is valid and clean |
| SpawnConfigView.AgentSpawnConfigView.InitializeSelection | codex-rs/tui/src/bottom_pane/agent_spawn_config_view.rs:238-246 | selects the first caller and target, or nothing when there are no callers |
| SpawnConfigView.AgentSpawnConfigView.ClearOverrideForSelectedCaller | codex-rs/tui/src/bottom_pane/agent_spawn_config_view.rs:374-379 | removes the selected caller's override |
| SpawnConfigView.AgentSpawnConfigView.SetAllowAllForSelectedCaller | codex-rs/tui/src/bottom_pane/agent_spawn_config_view.rs:381-390 | drops the override when the default is `All`, else stores `All` |
| SpawnConfigView.AgentSpawnConfigView.SetOverrideAllowlistNormalized | codex-rs/tui/src/bottom_pane/agent_spawn_config_view.rs:418-451 | stores the set unless it is what the default stands for, when the override is removed |
| SpawnConfigView.AgentSpawnConfigView.ToggleSelectedTarget | codex-rs/tui/src/bottom_pane/agent_spawn_config_view.rs:392-416 | flips the selected target for the selected caller and writes the set back normalised |
| SpawnConfigView.AgentSpawnConfigView.HandleAction | codex-rs/tui/src/bottom_pane/agent_spawn_config_view.rs:471-569 | the new state and the emitted map are those of the action; validity is kept |
| SpawnConfigView.AgentSpawnConfigView.OnCtrlC | codex-rs/tui/src/bottom_pane/agent_spawn_config_view.rs:575-578 | marks the view complete and changes nothing else |
| Collab.Rank | codex-rs/tui/src/collab.rs:200-208 | each status adds to exactly one of the six counters, the one listed under its own word |
| Collab.StatusLabelsDistinguishRanks | codex-rs/tui/src/collab.rs:149-157 | two statuses show the same word exactly when they are counted together |
| Collab.PromptLines | codex-rs/tui/src/collab.rs:160-175 | the loop computes the prompt's detail lines |
| Collab.PromptDetailsFacts | codex-rs/tui/src/collab.rs:160-175 | a blank prompt gives no lines; only the first line is labelled `prompt`; the values are the lines of the trimmed prompt, which join back into it |
| Collab.FormatThreadIdsReadsBack | codex-rs/tui/src/collab.rs:177-187 | `none` for no ids, else the ids joined by `, `, which read back as the same ids in order |
| Collab.CountStatuses | codex-rs/tui/src/collab.rs:194-209 | in any visiting order, each counter ends up as the number of threads with a status of its kind |
| Collab.CountsTotal | codex-rs/tui/src/collab.rs:194-211 | the six counters add up to the number of threads |
| Collab.PushStatusCount | codex-rs/tui/src/collab.rs:278-290 | a zero count appends nothing; otherwise a separator and `<count> <word>` |
| Collab.SummaryUpToFrom | codex-rs/tui/src/collab.rs:211-242 | the six `push_status_count` calls build the summary listed in fixed counter order |
| Collab.WaitCompleteLines | codex-rs/tui/src/collab.rs:189-276 | `wait_complete_lines` computes the wait-complete lines |
| Collab.SummaryReadsBack | codex-rs/tui/src/collab.rs:211-242 | the summary reads back as `<len> total` and the six counters; after the total it lists only non-zero counters, each once, in fixed order |
| Collab.WaitCompleteShape | codex-rs/tui/src/collab.rs:189-252 | an empty result is the single line `agents: none`; otherwise the summary and then one entry per thread, in ascending id order, each thread once |
| Collab.EntryLineShows | codex-rs/tui/src/collab.rs:252-273 | an entry shows the thread id and its status word; a completion message in full, an error as the preview of its collapsed text, nothing for other statuses |
| Collab.EventCellShowsCallAndStatus | codex-rs/tui/src/collab.rs:20-129 | every cell starts with its call id, and every event that carries a status shows it |
| Collab.SpawnEndShows | codex-rs/tui/src/collab.rs:29-43 | a missing thread id shows `not created`, a missing role `unknown`; the whole trimmed prompt follows, line by line |
| Collab.WaitingBeginShows | codex-rs/tui/src/collab.rs:64-75 | the receivers shown read back as the given thread ids, in order |
| Collab.WaitCompleteShowsCompletion | codex-rs/tui/src/collab.rs:346-369 | a completed thread's message appears in full among the wait-complete lines |
| Collab.WaitingEndShowsCompletion | codex-rs/tui/src/collab.rs:77-86 | a completed thread's message appears in full in the wait-complete cell |

## Left out

Outside the model:
- File system and TOML: directory listings, manifest parse results and prompt-file contents are given as maps. Reading and parsing are not modelled, only whether they succeed.
- `dunce::simplified` and `resolve_root_git_project_for_trust`: passed in as a function and as an optional repository root, since they query the file system.
- `include_str!` templates: a parameter record (`CollaborationModePresets.Templates`). The proofs assume only what the templates are documented to contain, namely the two placeholders.
- `ModeKind::allows_request_user_input`: defined outside the modelled files, so it is a parameter `allows`. The display names and the visible-mode list are pinned by the test at `plugins/mod.rs` line 549.
- `truncate_text` (the 160-grapheme error preview): a parameter `truncate`, applied to the collapsed error text with the 160 limit. Grapheme segmentation is not modelled.
- Hash-map iteration order: any listing of a map's entries. Properties that depend on it are proved for every listing.
- Sending on the `AppEventSender` channel: `HandleAction` returns the map it would send, as `emitted`.
- Key decoding: `handle_key_event` works on an `Action` datatype, one constructor per key binding except the scrolling keys (Up, Down, `k`, `j`, Ctrl-P, Ctrl-N). Those are read as `OtherKey`, which leaves the selection unchanged where the source moves it; see Scrolling below.

Not modelled:
- Error display texts: `LoadError`, `PathError` and `PromptError` keep their variants and the values they carry, but not their `Display` strings. The editor's warnings for unknown callers and targets are modelled with their text.
- Rendering: `render`, `desired_height`, row building, `describe_permission`, the hint line, styles and colours, `prefix_lines` and the bullet title of each cell. A line is the sequence of its span texts.
- Scrolling: `move_up`, `move_down` and `ensure_visible` in the view. The model keeps its selection as the selected index, or none.
- The sender thread id of collab events: it is not shown in any cell and is left out.
- `ThreadId`: modelled by its string form. Thread ids are sorted as strings.
- Thread lifecycle, agent processes and the `coder.rs` role wiring: not part of this model.

Deliberately weaker contracts:
- SpawnEditor.SaveReadsBack: the read-back holds only when no target role is itself named `*` or `all` and the saved callers are normalised. A target named `*` or `all` would read back as allow-all.
- SpawnPermissions.SaveReadRoundTrip: same conditions as `SpawnEditor.SaveReadsBack`.
- Collab.WaitingBeginShows: the read-back needs every thread id to contain no comma and to differ from `none`. Real thread ids are UUIDs, but their format is defined outside the modelled files.
- Collab.SpawnEndShows: the join-back of prompt lines is stated only for prompts without carriage returns, since `str::lines` drops a `\r` before each line feed.
- Text.LinesJoin: stated for text without carriage returns that does not end in a line feed.

Naming:
- `EffectivePermission::None` is named `NoTargets`, so it cannot be confused with `Option`'s `None`.
- The `label` field of a role spec is named `labelText`, since `label` is a reserved word in Dafny.
