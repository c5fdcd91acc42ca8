/**
 * The policy behind the agent spawn-permission editor: which target roles a caller role may
 * spawn by default (from the plugin registry's spawn defaults) and after the user's overrides,
 * how an edit is written back so that an override equal to the default is not stored, and how
 * the overrides are saved as token lists and read in again.
 */
module SpawnPermissions {
  import opened Wrappers
  import opened Text
  import opened Ordering
  import opened RoleIds
  import opened Plugins

  // ----- Permissions -----

  /** `EffectivePermission`: every target, a set of targets, or none (Rust's `None`, spelt `NoTargets`). */
  datatype EffectivePermission = All | AllowList(allowed: set<string>) | NoTargets

  /** `OverridePermission`: what the user may store for a caller. */
  datatype OverridePermission = OverrideAll | OverrideList(allowed: set<string>)

  /** `EffectivePermission::allows`. */
  predicate Allows(p: EffectivePermission, role: string) {
    match p
    case All => true
    case AllowList(allowed) => role in allowed
    case NoTargets => false
  }

  /** The targets a permission stands for, `All` read as every target and `NoTargets` as none. */
  function AllowedSet(p: EffectivePermission, all: set<string>): set<string> {
    match p
    case All => all
    case AllowList(allowed) => allowed
    case NoTargets => {}
  }

  /** A permission that names no target outside `all`. */
  predicate Within(p: EffectivePermission, all: set<string>) {
    p.AllowList? ==> p.allowed <= all
  }

  /**
   * Over the known targets, `allows` is membership in the targets a permission stands for:
   * always under `All`, never under `NoTargets`, by membership under an allow-list.
   */
  lemma AllowsIsMembership(p: EffectivePermission, all: set<string>, t: string)
    requires Within(p, all) && t in all
    ensures Allows(p, t) <==> t in AllowedSet(p, all)
    ensures p == All ==> Allows(p, t)
    ensures p == NoTargets ==> !Allows(p, t)
  {
  }

  // ----- Defaults -----

  /** Whether some token means "allow all" (`iter().any(matches_allow_all_token)`). */
  predicate AnyAllowAll(tokens: seq<string>) {
    exists i :: 0 <= i < |tokens| && MatchesAllowAllToken(tokens[i])
  }

  /** The normalised tokens that name a known target. */
  function KnownTargets(tokens: seq<string>, targets: set<string>): set<string> {
    set i | 0 <= i < |tokens| && NormalizeId(tokens[i]) in targets :: NormalizeId(tokens[i])
  }

  /** The default permission of one caller (`build_default_permissions`, one iteration). */
  function DefaultFor(spawnDefaults: map<string, seq<string>>, caller: string, targets: set<string>): EffectivePermission {
    if caller !in spawnDefaults then NoTargets
    else if AnyAllowAll(spawnDefaults[caller]) then All
    else
      var allowList := KnownTargets(spawnDefaults[caller], targets);
      if allowList == {} then NoTargets else AllowList(allowList)
  }

  /** The default permission of every caller. */
  function DefaultsFor(spawnDefaults: map<string, seq<string>>, callers: set<string>, targets: set<string>): map<string, EffectivePermission> {
    map c | c in callers :: DefaultFor(spawnDefaults, c, targets)
  }

  /**
   * A caller's default allows every target exactly when one of its registry tokens is a wildcard;
   * otherwise it allows the known targets its tokens name, and nothing when they name none or the
   * caller has no registry entry.
   */
  lemma DefaultForCases(spawnDefaults: map<string, seq<string>>, caller: string, targets: set<string>)
    ensures var p := DefaultFor(spawnDefaults, caller, targets);
      (p == All <==> caller in spawnDefaults && AnyAllowAll(spawnDefaults[caller]))
      && (caller !in spawnDefaults ==> p == NoTargets)
      && (p.AllowList? ==> p.allowed != {} && p.allowed <= targets)
      && (caller in spawnDefaults && !AnyAllowAll(spawnDefaults[caller]) ==>
            forall t :: t in AllowedSet(p, targets) <==>
              t in targets && exists i :: 0 <= i < |spawnDefaults[caller]| && NormalizeId(spawnDefaults[caller][i]) == t)
  {
  }

  /** Defaults that name no unknown target and never hold an empty allow-list. */
  predicate DefaultsWithin(defaults: map<string, EffectivePermission>, targets: set<string>) {
    forall c :: c in defaults ==> Within(defaults[c], targets) && defaults[c] != AllowList({})
  }

  /** Every caller gets exactly one default, and none names an unknown target. */
  lemma DefaultsForShape(spawnDefaults: map<string, seq<string>>, callers: set<string>, targets: set<string>)
    ensures DefaultsFor(spawnDefaults, callers, targets).Keys == callers
    ensures DefaultsWithin(DefaultsFor(spawnDefaults, callers, targets), targets)
  {
  }

  // ----- Effective permission -----

  /** An override as a permission: an empty allow-list allows nothing. */
  function FromOverride(o: OverridePermission): EffectivePermission {
    match o
    case OverrideAll => All
    case OverrideList(allowed) => if allowed == {} then NoTargets else AllowList(allowed)
  }

  /** The targets an override stands for. */
  function OverrideSet(o: OverridePermission, all: set<string>): set<string> {
    match o
    case OverrideAll => all
    case OverrideList(allowed) => allowed
  }

  /** Overrides that name no target outside `targets`. */
  predicate OverridesWithin(overrides: map<string, OverridePermission>, targets: set<string>) {
    forall c :: c in overrides ==> OverrideSet(overrides[c], targets) <= targets
  }

  /** `default_permission`: a caller without a computed default allows nothing. */
  function DefaultPermission(defaults: map<string, EffectivePermission>, caller: string): EffectivePermission {
    if caller in defaults then defaults[caller] else NoTargets
  }

  const DefaultOrigin: string := "default"
  const OverrideOrigin: string := "override"

  /** `effective_permission`: the override when there is one, else the default, with where it came from. */
  function Effective(overrides: map<string, OverridePermission>, defaults: map<string, EffectivePermission>, caller: string): (EffectivePermission, string) {
    if caller in overrides then (FromOverride(overrides[caller]), OverrideOrigin)
    else (DefaultPermission(defaults, caller), DefaultOrigin)
  }

  /** The targets a caller may spawn, with `All` read as every known target. */
  function AllowedTargets(overrides: map<string, OverridePermission>, defaults: map<string, EffectivePermission>,
                          all: set<string>, caller: string): set<string> {
    AllowedSet(Effective(overrides, defaults, caller).0, all)
  }

  /**
   * An override wins over the default and is reported as such; the permission it yields stands for
   * exactly the targets the override stores.
   */
  lemma EffectiveLayers(overrides: map<string, OverridePermission>, defaults: map<string, EffectivePermission>, caller: string, all: set<string>)
    ensures var (p, origin) := Effective(overrides, defaults, caller);
      (origin == OverrideOrigin <==> caller in overrides)
      && (caller !in overrides ==> p == DefaultPermission(defaults, caller))
      && (caller in overrides ==> AllowedSet(p, all) == OverrideSet(overrides[caller], all) && p != AllowList({}))
      && (caller in overrides && overrides[caller] == OverrideAll ==> p == All)
      && (caller in overrides && overrides[caller] == OverrideList({}) ==> p == NoTargets)
  {
  }

  // ----- Edits -----

  /** Whether a set of targets is what the default already stands for. */
  predicate MatchesDefault(default: EffectivePermission, all: set<string>, allowList: set<string>) {
    match default
    case All => allowList == all
    case AllowList(defaultAllowed) => allowList == defaultAllowed
    case NoTargets => allowList == {}
  }

  /** `set_override_allowlist_normalized`: store the set as an override unless it is the default, in which case drop the override. */
  function NormalizedWrite(overrides: map<string, OverridePermission>, default: EffectivePermission, all: set<string>,
                           caller: string, allowList: set<string>): map<string, OverridePermission> {
    if MatchesDefault(default, all, allowList) then overrides - {caller}
    else overrides[caller := OverrideList(allowList)]
  }

  /**
   * After a normalised write the caller stands for exactly the written targets; its override is
   * gone exactly when those are the default's; no other caller's entry changes.
   */
  lemma NormalizedWriteEffect(overrides: map<string, OverridePermission>, defaults: map<string, EffectivePermission>,
                              all: set<string>, caller: string, allowList: set<string>)
    ensures var r := NormalizedWrite(overrides, DefaultPermission(defaults, caller), all, caller, allowList);
      AllowedTargets(r, defaults, all, caller) == allowList
      && (caller !in r <==> allowList == AllowedSet(DefaultPermission(defaults, caller), all))
      && r - {caller} == overrides - {caller}
  {
  }

  /** A normalised write of known targets keeps every override within the known targets and adds no caller but the written one. */
  lemma NormalizedWriteWithin(overrides: map<string, OverridePermission>, default: EffectivePermission,
                              all: set<string>, caller: string, allowList: set<string>)
    requires OverridesWithin(overrides, all) && allowList <= all
    ensures OverridesWithin(NormalizedWrite(overrides, default, all, caller, allowList), all)
    ensures NormalizedWrite(overrides, default, all, caller, allowList).Keys <= overrides.Keys + {caller}
  {
  }

  /** Within the known targets, the written caller allows exactly the written set. */
  lemma NormalizedWriteAllows(overrides: map<string, OverridePermission>, defaults: map<string, EffectivePermission>,
                              all: set<string>, caller: string, allowList: set<string>, t: string)
    requires allowList <= all && Within(DefaultPermission(defaults, caller), all) && t in all
    ensures var r := NormalizedWrite(overrides, DefaultPermission(defaults, caller), all, caller, allowList);
      Allows(Effective(r, defaults, caller).0, t) <==> t in allowList
  {
    var r := NormalizedWrite(overrides, DefaultPermission(defaults, caller), all, caller, allowList);
    NormalizedWriteEffect(overrides, defaults, all, caller, allowList);
    var p := Effective(r, defaults, caller).0;
    assert Within(p, all);
    AllowsIsMembership(p, all, t);
  }

  /** Flip one target in a set. */
  function Toggled(allowed: set<string>, t: string): set<string> {
    if t in allowed then allowed - {t} else allowed + {t}
  }

  /** `toggle_selected_target` for a caller and a target: flip the target in what the caller now allows, then write it back. */
  function ToggleWrite(overrides: map<string, OverridePermission>, defaults: map<string, EffectivePermission>,
                       all: set<string>, caller: string, t: string): map<string, OverridePermission> {
    var current := AllowedTargets(overrides, defaults, all, caller);
    NormalizedWrite(overrides, DefaultPermission(defaults, caller), all, caller, Toggled(current, t))
  }

  /** A toggle flips the selected target for the caller and nothing else, for it or for any other caller. */
  lemma ToggleWriteFlips(overrides: map<string, OverridePermission>, defaults: map<string, EffectivePermission>,
                         all: set<string>, caller: string, t: string)
    ensures t in AllowedTargets(ToggleWrite(overrides, defaults, all, caller, t), defaults, all, caller)
            <==> t !in AllowedTargets(overrides, defaults, all, caller)
    ensures forall u :: u != t ==>
              (u in AllowedTargets(ToggleWrite(overrides, defaults, all, caller, t), defaults, all, caller)
               <==> u in AllowedTargets(overrides, defaults, all, caller))
    ensures ToggleWrite(overrides, defaults, all, caller, t) - {caller} == overrides - {caller}
  {
    var before := AllowedTargets(overrides, defaults, all, caller);
    NormalizedWriteEffect(overrides, defaults, all, caller, Toggled(before, t));
  }

  /** Toggling the same target twice restores which targets the caller allows. */
  lemma ToggleTwiceRestores(overrides: map<string, OverridePermission>, defaults: map<string, EffectivePermission>,
                            all: set<string>, caller: string, t: string)
    ensures var r := ToggleWrite(ToggleWrite(overrides, defaults, all, caller, t), defaults, all, caller, t);
      AllowedTargets(r, defaults, all, caller) == AllowedTargets(overrides, defaults, all, caller)
      && r - {caller} == overrides - {caller}
  {
    var once := ToggleWrite(overrides, defaults, all, caller, t);
    ToggleWriteFlips(overrides, defaults, all, caller, t);
    ToggleWriteFlips(once, defaults, all, caller, t);
  }

  /** `set_allow_all_for_selected_caller` for a caller: drop the override when the default already allows all, else store allow-all. */
  function AllowAllWrite(overrides: map<string, OverridePermission>, defaults: map<string, EffectivePermission>, caller: string): map<string, OverridePermission> {
    if DefaultPermission(defaults, caller) == All then overrides - {caller}
    else overrides[caller := OverrideAll]
  }

  /** After allow-all the caller allows every target, its override is gone exactly when the default is allow-all, and nothing else changes. */
  lemma AllowAllWriteEffect(overrides: map<string, OverridePermission>, defaults: map<string, EffectivePermission>, caller: string)
    ensures var r := AllowAllWrite(overrides, defaults, caller);
      Effective(r, defaults, caller).0 == All
      && (caller !in r <==> DefaultPermission(defaults, caller) == All)
      && r - {caller} == overrides - {caller}
  {
  }

  /** Allow-all keeps every override within the known targets and adds no caller but the written one. */
  lemma AllowAllWriteWithin(overrides: map<string, OverridePermission>, defaults: map<string, EffectivePermission>, all: set<string>, caller: string)
    requires OverridesWithin(overrides, all)
    ensures OverridesWithin(AllowAllWrite(overrides, defaults, caller), all)
    ensures AllowAllWrite(overrides, defaults, caller).Keys <= overrides.Keys + {caller}
  {
  }

  /** `clear_override_for_selected_caller` for a caller: the caller falls back to its default. */
  lemma ClearRestoresDefault(overrides: map<string, OverridePermission>, defaults: map<string, EffectivePermission>, caller: string)
    ensures Effective(overrides - {caller}, defaults, caller) == (DefaultPermission(defaults, caller), DefaultOrigin)
    ensures (overrides - {caller}).Keys == overrides.Keys - {caller}
  {
  }

  // ----- Saving and reading overrides -----

  /** The tokens an override is saved as: `*` for allow-all, else its targets in order. */
  function OverrideTokens(o: OverridePermission): seq<string> {
    match o
    case OverrideAll => ["*"]
    case OverrideList(allowed) => SortedElements(allowed)
  }

  /** `build_allow_overrides`. */
  function BuildAllowOverrides(overrides: map<string, OverridePermission>): map<string, seq<string>> {
    map c | c in overrides :: OverrideTokens(overrides[c])
  }

  /** Saving keeps the callers; allow-all is saved as `["*"]` and an allow-list as its targets, each once and in order. */
  lemma BuildAllowOverridesShape(overrides: map<string, OverridePermission>)
    ensures var saved := BuildAllowOverrides(overrides);
      saved.Keys == overrides.Keys
      && forall c :: c in overrides ==>
           (overrides[c] == OverrideAll ==> saved[c] == ["*"])
           && (overrides[c].OverrideList? ==>
                 (forall t :: t in saved[c] <==> t in overrides[c].allowed) && Sorted(saved[c]) && Distinct(saved[c]))
  {
    forall c | c in overrides && overrides[c].OverrideList? {
      SortedElementsOrdered(overrides[c].allowed);
    }
  }

  /** The result of `parse_overrides`: the overrides it keeps and the warnings it records. */
  datatype Parsed = Parsed(overrides: map<string, OverridePermission>, warnings: seq<string>)

  /** What one persisted entry stores for a known caller: allow-all on a wildcard, else the known targets it names. */
  function EntryPermission(tokens: seq<string>, targets: set<string>): OverridePermission {
    if AnyAllowAll(tokens) then OverrideAll else OverrideList(KnownTargets(tokens, targets))
  }

  /** The raw tokens that name no known target, in order. */
  function UnknownTargets(tokens: seq<string>, targets: set<string>): seq<string> {
    Filter(tokens, UnknownIn(targets))
  }

  /** Whether a raw token names no known target. */
  function UnknownIn(targets: set<string>): string -> bool {
    (raw: string) => NormalizeId(raw) !in targets
  }

  function UnknownCallerWarning(callerRaw: string): string {
    "Unknown caller role: " + callerRaw
  }

  function UnknownTargetsWarning(callerRaw: string, unknown: seq<string>): string {
    "Unknown targets for " + callerRaw + ": " + Join(unknown, ", ")
  }

  /** The warnings one persisted entry records. */
  function EntryWarnings(entry: (string, seq<string>), callers: set<string>, targets: set<string>): seq<string> {
    if NormalizeId(entry.0) !in callers then [UnknownCallerWarning(entry.0)]
    else if AnyAllowAll(entry.1) then []
    else if UnknownTargets(entry.1, targets) == [] then []
    else [UnknownTargetsWarning(entry.0, UnknownTargets(entry.1, targets))]
  }

  /** One persisted entry read into the accumulated result. */
  function ParseEntry(acc: Parsed, entry: (string, seq<string>), callers: set<string>, targets: set<string>): Parsed {
    var caller := NormalizeId(entry.0);
    Parsed(if caller in callers then acc.overrides[caller := EntryPermission(entry.1, targets)] else acc.overrides,
           acc.warnings + EntryWarnings(entry, callers, targets))
  }

  function ParseFrom(entries: seq<(string, seq<string>)>, callers: set<string>, targets: set<string>, acc: Parsed): Parsed
    decreases |entries|
  {
    if entries == [] then acc
    else ParseFrom(entries[1..], callers, targets, ParseEntry(acc, entries[0], callers, targets))
  }

  /** `parse_overrides`, over the persisted map's entries in its iteration order. */
  function ParseOverrides(entries: seq<(string, seq<string>)>, callers: set<string>, targets: set<string>): Parsed {
    ParseFrom(entries, callers, targets, Parsed(map[], []))
  }

  /** A caller whose normalised name is one of the entries' and is known. */
  predicate DeclaresCaller(entries: seq<(string, seq<string>)>, callers: set<string>, c: string) {
    c in callers && exists i :: 0 <= i < |entries| && NormalizeId(entries[i].0) == c
  }

  /** Reading keeps earlier overrides and adds exactly the known callers the entries name. */
  lemma {:induction false} ParseFromKeys(entries: seq<(string, seq<string>)>, callers: set<string>, targets: set<string>, acc: Parsed)
    ensures forall c :: c in ParseFrom(entries, callers, targets, acc).overrides <==> c in acc.overrides || DeclaresCaller(entries, callers, c)
    decreases |entries|
  {
    if entries != [] {
      var acc' := ParseEntry(acc, entries[0], callers, targets);
      ParseFromKeys(entries[1..], callers, targets, acc');
      forall c ensures DeclaresCaller(entries, callers, c) <==> (c in callers && NormalizeId(entries[0].0) == c) || DeclaresCaller(entries[1..], callers, c) {
        if DeclaresCaller(entries, callers, c) && !(NormalizeId(entries[0].0) == c) {
          var i :| 0 <= i < |entries| && NormalizeId(entries[i].0) == c;
          assert entries[1..][i - 1] == entries[i];
        }
        if DeclaresCaller(entries[1..], callers, c) {
          var i :| 0 <= i < |entries[1..]| && NormalizeId(entries[1..][i].0) == c;
          assert entries[i + 1] == entries[1..][i];
        }
      }
    }
  }

  /** What one entry stores names only known targets. */
  lemma EntryPermissionWithin(tokens: seq<string>, targets: set<string>)
    ensures OverrideSet(EntryPermission(tokens, targets), targets) <= targets
  {
    if !AnyAllowAll(tokens) {
      forall t | t in KnownTargets(tokens, targets) ensures t in targets {
        var i :| 0 <= i < |tokens| && NormalizeId(tokens[i]) in targets && NormalizeId(tokens[i]) == t;
      }
    }
  }

  /** Overrides read in only ever name known targets, when the accumulated ones do. */
  lemma {:induction false} ParseFromWithin(entries: seq<(string, seq<string>)>, callers: set<string>, targets: set<string>, acc: Parsed)
    requires OverridesWithin(acc.overrides, targets)
    ensures OverridesWithin(ParseFrom(entries, callers, targets, acc).overrides, targets)
    decreases |entries|
  {
    if entries != [] {
      var acc' := ParseEntry(acc, entries[0], callers, targets);
      EntryPermissionWithin(entries[0].1, targets);
      ParseFromWithin(entries[1..], callers, targets, acc');
    }
  }

  /**
   * Reading the persisted overrides keeps exactly the known callers they name, every kept allow-list
   * names only known targets, and no stored key is unknown.
   */
  lemma ParseOverridesKept(entries: seq<(string, seq<string>)>, callers: set<string>, targets: set<string>)
    ensures forall c :: c in ParseOverrides(entries, callers, targets).overrides <==> DeclaresCaller(entries, callers, c)
    ensures OverridesWithin(ParseOverrides(entries, callers, targets).overrides, targets)
  {
    ParseFromKeys(entries, callers, targets, Parsed(map[], []));
    ParseFromWithin(entries, callers, targets, Parsed(map[], []));
  }

  /** Reading appends the warnings of each entry in turn to what came before. */
  lemma {:induction false} ParseFromWarnings(entries: seq<(string, seq<string>)>, callers: set<string>, targets: set<string>, acc: Parsed, k: nat)
    requires k < |entries|
    ensures var w := ParseFrom(entries, callers, targets, acc).warnings;
      forall x :: x in EntryWarnings(entries[k], callers, targets) ==> x in w
    decreases |entries|
  {
    var acc' := ParseEntry(acc, entries[0], callers, targets);
    ParseFromPrefix(entries[1..], callers, targets, acc');
    if k == 0 {
      var w := ParseFrom(entries, callers, targets, acc).warnings;
      var own := EntryWarnings(entries[0], callers, targets);
      forall x | x in own ensures x in w {
        var j :| 0 <= j < |own| && own[j] == x;
        assert acc'.warnings[|acc.warnings| + j] == x;
        assert w[..|acc'.warnings|][|acc.warnings| + j] == x;
      }
    } else {
      assert entries[1..][k - 1] == entries[k];
      ParseFromWarnings(entries[1..], callers, targets, acc', k - 1);
    }
  }

  /** Reading never drops a warning already recorded. */
  lemma {:induction false} ParseFromPrefix(entries: seq<(string, seq<string>)>, callers: set<string>, targets: set<string>, acc: Parsed)
    ensures var w := ParseFrom(entries, callers, targets, acc).warnings;
      |acc.warnings| <= |w| && w[..|acc.warnings|] == acc.warnings
    decreases |entries|
  {
    if entries != [] {
      var acc' := ParseEntry(acc, entries[0], callers, targets);
      ParseFromPrefix(entries[1..], callers, targets, acc');
      var w := ParseFrom(entries, callers, targets, acc).warnings;
      assert w[..|acc'.warnings|][..|acc.warnings|] == acc.warnings;
    }
  }

  /**
   * An entry for an unknown caller is dropped with a warning naming it; an entry for a known caller
   * without a wildcard that names unknown targets records a warning listing them.
   */
  lemma ParseOverridesWarns(entries: seq<(string, seq<string>)>, callers: set<string>, targets: set<string>, k: nat)
    requires k < |entries|
    ensures var r := ParseOverrides(entries, callers, targets);
      (NormalizeId(entries[k].0) !in callers ==> UnknownCallerWarning(entries[k].0) in r.warnings)
      && (NormalizeId(entries[k].0) in callers && !AnyAllowAll(entries[k].1) && UnknownTargets(entries[k].1, targets) != [] ==>
            UnknownTargetsWarning(entries[k].0, UnknownTargets(entries[k].1, targets)) in r.warnings)
  {
    ParseFromWarnings(entries, callers, targets, Parsed(map[], []), k);
    var own := EntryWarnings(entries[k], callers, targets);
    if NormalizeId(entries[k].0) !in callers {
      assert UnknownCallerWarning(entries[k].0) in own;
    } else if !AnyAllowAll(entries[k].1) && UnknownTargets(entries[k].1, targets) != [] {
      assert UnknownTargetsWarning(entries[k].0, UnknownTargets(entries[k].1, targets)) in own;
    }
  }

  /**
   * The entry read last for a caller decides what is stored for it: allow-all when one of its tokens
   * is a wildcard, else the known targets its tokens name.
   */
  lemma {:induction false} ParseFromLastWins(entries: seq<(string, seq<string>)>, callers: set<string>, targets: set<string>, acc: Parsed, k: nat)
    requires k < |entries| && NormalizeId(entries[k].0) in callers
    requires forall j :: k < j < |entries| ==> NormalizeId(entries[j].0) != NormalizeId(entries[k].0)
    ensures var r := ParseFrom(entries, callers, targets, acc).overrides;
      NormalizeId(entries[k].0) in r && r[NormalizeId(entries[k].0)] == EntryPermission(entries[k].1, targets)
    decreases |entries|
  {
    var acc' := ParseEntry(acc, entries[0], callers, targets);
    if k == 0 {
      ParseFromUntouched(entries[1..], callers, targets, acc', NormalizeId(entries[0].0));
    } else {
      assert entries[1..][k - 1] == entries[k];
      forall j | k - 1 < j < |entries[1..]| ensures NormalizeId(entries[1..][j].0) != NormalizeId(entries[1..][k - 1].0) {
        assert entries[1..][j] == entries[j + 1];
      }
      ParseFromLastWins(entries[1..], callers, targets, acc', k - 1);
    }
  }

  /** A caller no entry names keeps what it had. */
  lemma {:induction false} ParseFromUntouched(entries: seq<(string, seq<string>)>, callers: set<string>, targets: set<string>, acc: Parsed, c: string)
    requires c in acc.overrides
    requires forall j :: 0 <= j < |entries| ==> NormalizeId(entries[j].0) != c
    ensures var r := ParseFrom(entries, callers, targets, acc).overrides;
      c in r && r[c] == acc.overrides[c]
    decreases |entries|
  {
    if entries != [] {
      var acc' := ParseEntry(acc, entries[0], callers, targets);
      forall j | 0 <= j < |entries[1..]| ensures NormalizeId(entries[1..][j].0) != c {
        assert entries[1..][j] == entries[j + 1];
      }
      ParseFromUntouched(entries[1..], callers, targets, acc', c);
    }
  }

  /** `parse_overrides` keeps, for each known caller, what its last entry stores. */
  lemma ParseOverridesLastWins(entries: seq<(string, seq<string>)>, callers: set<string>, targets: set<string>, k: nat)
    requires k < |entries| && NormalizeId(entries[k].0) in callers
    requires forall j :: k < j < |entries| ==> NormalizeId(entries[j].0) != NormalizeId(entries[k].0)
    ensures var r := ParseOverrides(entries, callers, targets).overrides;
      NormalizeId(entries[k].0) in r && r[NormalizeId(entries[k].0)] == EntryPermission(entries[k].1, targets)
  {
    ParseFromLastWins(entries, callers, targets, Parsed(map[], []), k);
  }

  // ----- The save/read round trip -----

  /** The entries list every key of the map with its value, in some order and with no other pairs. */
  predicate Enumerates(entries: seq<(string, seq<string>)>, m: map<string, seq<string>>) {
    (forall i :: 0 <= i < |entries| ==> entries[i].0 in m && entries[i].1 == m[entries[i].0])
    && (forall k :: k in m ==> exists i :: 0 <= i < |entries| && entries[i].0 == k)
  }

  /** Overrides the save/read round trip reproduces: known normalised callers, targets normalised, known, and not wildcards. */
  predicate Restorable(overrides: map<string, OverridePermission>, callers: set<string>, targets: set<string>) {
    (forall c :: c in overrides ==> c in callers && IsNormalized(c))
    && OverridesWithin(overrides, targets)
    && (forall t :: t in targets ==> IsNormalized(t) && t != "*" && t != "all")
  }

  /** A saved override reads back as itself, without a warning. */
  lemma SavedEntryReadsBack(overrides: map<string, OverridePermission>, callers: set<string>, targets: set<string>, c: string)
    requires Restorable(overrides, callers, targets) && c in overrides
    ensures NormalizeId(c) == c
    ensures EntryPermission(OverrideTokens(overrides[c]), targets) == overrides[c]
    ensures EntryWarnings((c, OverrideTokens(overrides[c])), callers, targets) == []
  {
    NormalizeNormalized(c);
    var tokens := OverrideTokens(overrides[c]);
    match overrides[c]
    case OverrideAll =>
      NormalizedAllowAllToken("*");
      assert MatchesAllowAllToken(tokens[0]);
    case OverrideList(allowed) =>
      SavedTargetsReadBack(allowed, targets);
  }

  /** A saved allow-list of known, normalised, non-wildcard targets reads back as itself and warns of nothing. */
  lemma SavedTargetsReadBack(allowed: set<string>, targets: set<string>)
    requires allowed <= targets
    requires forall t :: t in targets ==> IsNormalized(t) && t != "*" && t != "all"
    ensures !AnyAllowAll(SortedElements(allowed))
    ensures KnownTargets(SortedElements(allowed), targets) == allowed
    ensures UnknownTargets(SortedElements(allowed), targets) == []
  {
    var tokens := SortedElements(allowed);
    forall i | 0 <= i < |tokens| ensures !MatchesAllowAllToken(tokens[i]) && NormalizeId(tokens[i]) == tokens[i] {
      assert tokens[i] in allowed;
      SavedTargetReadsBack(tokens[i]);
    }
    KnownTargetsOfNormalized(tokens, allowed, targets);
    NoUnknownTargets(tokens, targets);
  }

  /** Tokens already in normal form that list exactly `allowed`, all known, name exactly `allowed`. */
  lemma KnownTargetsOfNormalized(tokens: seq<string>, allowed: set<string>, targets: set<string>)
    requires allowed <= targets
    requires forall i :: 0 <= i < |tokens| ==> NormalizeId(tokens[i]) == tokens[i]
    requires forall t :: t in tokens <==> t in allowed
    ensures KnownTargets(tokens, targets) == allowed
  {
    forall t | t in allowed ensures t in KnownTargets(tokens, targets) {
      var i :| 0 <= i < |tokens| && tokens[i] == t;
    }
  }

  /** A normalised target that is not a wildcard reads back as itself. */
  lemma SavedTargetReadsBack(t: string)
    requires IsNormalized(t) && t != "*" && t != "all"
    ensures !MatchesAllowAllToken(t) && NormalizeId(t) == t
  {
    NormalizedAllowAllToken(t);
    NormalizeNormalized(t);
  }

  /** Tokens that all name known targets leave nothing unknown. */
  lemma {:induction false} NoUnknownTargets(tokens: seq<string>, targets: set<string>)
    requires forall i :: 0 <= i < |tokens| ==> NormalizeId(tokens[i]) in targets
    ensures UnknownTargets(tokens, targets) == []
  {
    if tokens != [] {
      assert forall i :: 0 <= i < |tokens[1..]| ==> tokens[1..][i] == tokens[i + 1];
      NoUnknownTargets(tokens[1..], targets);
    }
  }

  /** The callers the entries name, as written. */
  function EntryKeys(entries: seq<(string, seq<string>)>): set<string> {
    set i | 0 <= i < |entries| :: entries[i].0
  }

  lemma EntryKeysCons(entries: seq<(string, seq<string>)>)
    requires entries != []
    ensures EntryKeys(entries) == {entries[0].0} + EntryKeys(entries[1..])
  {
    forall k | k in EntryKeys(entries) ensures k in {entries[0].0} + EntryKeys(entries[1..]) {
      var i :| 0 <= i < |entries| && entries[i].0 == k;
      if i > 0 {
        assert entries[1..][i - 1] == entries[i];
      }
    }
    forall k | k in EntryKeys(entries[1..]) ensures k in EntryKeys(entries) {
      var i :| 0 <= i < |entries[1..]| && entries[1..][i].0 == k;
      assert entries[i + 1] == entries[1..][i];
    }
  }

  /** Overrides that agree with `overrides` wherever they are defined. */
  predicate AgreesWith(acc: map<string, OverridePermission>, overrides: map<string, OverridePermission>) {
    forall k :: k in acc ==> k in overrides && acc[k] == overrides[k]
  }

  /** Reading entries that are saved overrides adds exactly those callers, with their overrides, and no warning. */
  lemma {:induction false} ParseFromSaved(entries: seq<(string, seq<string>)>, overrides: map<string, OverridePermission>,
                                          callers: set<string>, targets: set<string>, acc: Parsed)
    requires Restorable(overrides, callers, targets) && AgreesWith(acc.overrides, overrides)
    requires forall i :: 0 <= i < |entries| ==> entries[i].0 in overrides && entries[i].1 == OverrideTokens(overrides[entries[i].0])
    ensures var r := ParseFrom(entries, callers, targets, acc);
      r.warnings == acc.warnings && AgreesWith(r.overrides, overrides)
      && r.overrides.Keys == acc.overrides.Keys + EntryKeys(entries)
    decreases |entries|
  {
    if entries != [] {
      var c := entries[0].0;
      SavedEntryReadsBack(overrides, callers, targets, c);
      var acc' := ParseEntry(acc, entries[0], callers, targets);
      assert acc' == Parsed(acc.overrides[c := overrides[c]], acc.warnings);
      assert forall i :: 0 <= i < |entries[1..]| ==> entries[1..][i] == entries[i + 1];
      ParseFromSaved(entries[1..], overrides, callers, targets, acc');
      EntryKeysCons(entries);
    }
  }

  /**
   * Saving the overrides and reading the saved map back, in any iteration order, gives the same
   * overrides and no warning.
   */
  lemma SaveReadRoundTrip(overrides: map<string, OverridePermission>, callers: set<string>, targets: set<string>,
                          entries: seq<(string, seq<string>)>)
    requires Restorable(overrides, callers, targets)
    requires Enumerates(entries, BuildAllowOverrides(overrides))
    ensures ParseOverrides(entries, callers, targets) == Parsed(overrides, [])
  {
    SavedEntries(overrides, entries);
    var empty := Parsed(map[], []);
    ParseFromSaved(entries, overrides, callers, targets, empty);
    ReadBackEqual(ParseFrom(entries, callers, targets, empty), empty, overrides, EntryKeys(entries));
  }

  /** A read-back without warnings that agrees with `overrides` on exactly its keys is `overrides`. */
  lemma ReadBackEqual(r: Parsed, acc: Parsed, overrides: map<string, OverridePermission>, keys: set<string>)
    requires acc == Parsed(map[], []) && keys == overrides.Keys
    requires r.warnings == acc.warnings && AgreesWith(r.overrides, overrides) && r.overrides.Keys == acc.overrides.Keys + keys
    ensures r == Parsed(overrides, [])
  {
    assert r.overrides.Keys == overrides.Keys;
  }

  /** The entries of the saved map name every caller with an override, and each with its saved tokens. */
  lemma SavedEntries(overrides: map<string, OverridePermission>, entries: seq<(string, seq<string>)>)
    requires Enumerates(entries, BuildAllowOverrides(overrides))
    ensures forall i :: 0 <= i < |entries| ==> entries[i].0 in overrides && entries[i].1 == OverrideTokens(overrides[entries[i].0])
    ensures EntryKeys(entries) == overrides.Keys
  {
    var saved := BuildAllowOverrides(overrides);
    forall i | 0 <= i < |entries| ensures entries[i].0 in overrides && entries[i].1 == OverrideTokens(overrides[entries[i].0]) {
      assert entries[i].0 in saved;
    }
    forall k | k in overrides ensures k in EntryKeys(entries) {
      assert k in saved;
      var i :| 0 <= i < |entries| && entries[i].0 == k;
    }
  }

  // ----- Role lists -----

  /** `RoleSpec`: a role the editor lists, with its label. */
  datatype RoleSpec = RoleSpec(id: string, labelText: string)

  /** The identifiers of the listed roles. */
  function SpecIds(specs: seq<RoleSpec>): set<string> {
    set i | 0 <= i < |specs| :: specs[i].id
  }

  /** The entry an identifier contributes if it names a registry role. */
  function Named(reg: Registry, id: string): Option<RoleSpec> {
    match Role(reg, id)
    case None => None
    case Some(role) => Some(RoleSpec(role.id, role.displayName))
  }

  /** `build_role_specs` from a point on, with the set of roles already listed. */
  function RoleSpecsFrom(ids: seq<string>, reg: Registry, seen: set<string>): seq<RoleSpec>
    decreases |ids|
  {
    if ids == [] then []
    else match Named(reg, ids[0])
      case None => RoleSpecsFrom(ids[1..], reg, seen)
      case Some(spec) =>
        if spec.id in seen then RoleSpecsFrom(ids[1..], reg, seen)
        else [spec] + RoleSpecsFrom(ids[1..], reg, seen + {spec.id})
  }

  /** `build_role_specs`: the registry roles the identifiers name, each once, in first-mention order. */
  function RoleSpecs(ids: seq<string>, reg: Registry): seq<RoleSpec> {
    RoleSpecsFrom(ids, reg, {})
  }

  /** A role, with its label, that one of the identifiers names. */
  predicate NamesRole(ids: seq<string>, reg: Registry, spec: RoleSpec) {
    exists i :: 0 <= i < |ids| && Named(reg, ids[i]) == Some(spec)
  }

  /** Every listed role is named by an identifier and is not among `seen`. */
  predicate SoundSpecs(specs: seq<RoleSpec>, ids: seq<string>, reg: Registry, seen: set<string>) {
    forall k :: 0 <= k < |specs| ==> NamesRole(ids, reg, specs[k]) && specs[k].id !in seen
  }

  /** No role is listed twice. */
  predicate DistinctIds(specs: seq<RoleSpec>) {
    forall k, l :: 0 <= k < l < |specs| ==> specs[k].id != specs[l].id
  }

  /** Every role an identifier names is listed or among `seen`. */
  predicate CompleteSpecs(specs: seq<RoleSpec>, ids: seq<string>, reg: Registry, seen: set<string>) {
    forall i :: 0 <= i < |ids| && Named(reg, ids[i]).Some? ==> Named(reg, ids[i]).value.id in SpecIds(specs) + seen
  }

  /** An identifier further on names a role the whole list names. */
  lemma NamesRoleTail(ids: seq<string>, reg: Registry, spec: RoleSpec)
    requires ids != [] && NamesRole(ids[1..], reg, spec)
    ensures NamesRole(ids, reg, spec)
  {
    var i :| 0 <= i < |ids[1..]| && Named(reg, ids[1..][i]) == Some(spec);
    assert ids[i + 1] == ids[1..][i];
  }

  /** Roles listed from further on are sound for the whole list and a smaller `seen`. */
  lemma SoundSpecsTail(ids: seq<string>, reg: Registry, seen: set<string>, seen': set<string>, rest: seq<RoleSpec>)
    requires ids != [] && seen <= seen' && SoundSpecs(rest, ids[1..], reg, seen')
    ensures SoundSpecs(rest, ids, reg, seen)
  {
    forall k | 0 <= k < |rest| ensures NamesRole(ids, reg, rest[k]) {
      NamesRoleTail(ids, reg, rest[k]);
    }
  }

  lemma SoundSpecsCons(spec: RoleSpec, rest: seq<RoleSpec>, ids: seq<string>, reg: Registry, seen: set<string>)
    requires NamesRole(ids, reg, spec) && spec.id !in seen && SoundSpecs(rest, ids, reg, seen)
    ensures SoundSpecs([spec] + rest, ids, reg, seen)
  {
    forall k | 1 <= k < |[spec] + rest| ensures NamesRole(ids, reg, ([spec] + rest)[k]) && ([spec] + rest)[k].id !in seen {
      assert ([spec] + rest)[k] == rest[k - 1];
    }
  }

  lemma {:induction false} RoleSpecsFromSound(ids: seq<string>, reg: Registry, seen: set<string>)
    ensures SoundSpecs(RoleSpecsFrom(ids, reg, seen), ids, reg, seen)
    decreases |ids|
  {
    if ids != [] {
      var specs := RoleSpecsFrom(ids, reg, seen);
      var named := Named(reg, ids[0]);
      var seen' := if named.Some? && named.value.id !in seen then seen + {named.value.id} else seen;
      RoleSpecsFromSound(ids[1..], reg, seen');
      var rest := RoleSpecsFrom(ids[1..], reg, seen');
      SoundSpecsTail(ids, reg, seen, seen', rest);
      if named.Some? && named.value.id !in seen {
        assert specs == [named.value] + rest;
        assert NamesRole(ids, reg, named.value) by {
          assert Named(reg, ids[0]) == Some(named.value);
        }
        SoundSpecsCons(named.value, rest, ids, reg, seen);
      }
    }
  }

  lemma DistinctIdsCons(spec: RoleSpec, rest: seq<RoleSpec>, ids: seq<string>, reg: Registry, seen: set<string>)
    requires DistinctIds(rest) && SoundSpecs(rest, ids, reg, seen) && spec.id in seen
    ensures DistinctIds([spec] + rest)
  {
    var specs := [spec] + rest;
    forall k, l | 0 <= k < l < |specs| ensures specs[k].id != specs[l].id {
      assert specs[l] == rest[l - 1];
      if k > 0 {
        assert specs[k] == rest[k - 1];
      }
    }
  }

  lemma {:induction false} RoleSpecsFromDistinct(ids: seq<string>, reg: Registry, seen: set<string>)
    ensures DistinctIds(RoleSpecsFrom(ids, reg, seen))
    decreases |ids|
  {
    if ids != [] {
      var specs := RoleSpecsFrom(ids, reg, seen);
      var named := Named(reg, ids[0]);
      var seen' := if named.Some? && named.value.id !in seen then seen + {named.value.id} else seen;
      RoleSpecsFromDistinct(ids[1..], reg, seen');
      var rest := RoleSpecsFrom(ids[1..], reg, seen');
      if named.Some? && named.value.id !in seen {
        RoleSpecsFromSound(ids[1..], reg, seen');
        assert specs == [named.value] + rest;
        DistinctIdsCons(named.value, rest, ids[1..], reg, seen');
      }
    }
  }

  lemma {:induction false} RoleSpecsFromComplete(ids: seq<string>, reg: Registry, seen: set<string>)
    ensures CompleteSpecs(RoleSpecsFrom(ids, reg, seen), ids, reg, seen)
    decreases |ids|
  {
    if ids != [] {
      var specs := RoleSpecsFrom(ids, reg, seen);
      var named := Named(reg, ids[0]);
      var seen' := if named.Some? && named.value.id !in seen then seen + {named.value.id} else seen;
      RoleSpecsFromComplete(ids[1..], reg, seen');
      var rest := RoleSpecsFrom(ids[1..], reg, seen');
      assert forall i :: 1 <= i < |ids| ==> ids[1..][i - 1] == ids[i];
      if named.Some? && named.value.id !in seen {
        assert specs == [named.value] + rest;
        assert SpecIds(specs) == {named.value.id} + SpecIds(rest) by {
          assert specs[0] == named.value;
          forall x | x in SpecIds(specs) ensures x in {named.value.id} + SpecIds(rest) {
            var k :| 0 <= k < |specs| && specs[k].id == x;
            if k > 0 {
              assert specs[k] == rest[k - 1];
            }
          }
          forall x | x in SpecIds(rest) ensures x in SpecIds(specs) {
            var k :| 0 <= k < |rest| && rest[k].id == x;
            assert specs[k + 1] == rest[k];
          }
        }
      }
    }
  }

  /** The listed roles are the registry roles the identifiers name, with their labels, each once, and all of them. */
  lemma RoleSpecsFacts(ids: seq<string>, reg: Registry)
    ensures SoundSpecs(RoleSpecs(ids, reg), ids, reg, {})
    ensures DistinctIds(RoleSpecs(ids, reg))
    ensures CompleteSpecs(RoleSpecs(ids, reg), ids, reg, {})
  {
    RoleSpecsFromSound(ids, reg, {});
    RoleSpecsFromDistinct(ids, reg, {});
    RoleSpecsFromComplete(ids, reg, {});
  }
}
