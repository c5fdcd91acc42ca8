/**
 * Collaboration modes and the developer-instruction templates written for them.  A template
 * mentions two placeholders, one for the list of mode names the user can pick and one for the
 * sentence saying whether the `request_user_input` tool may be called in this mode; rendering
 * replaces every occurrence of each.  The built-in presets and plugin-supplied mode prompts are
 * rendered by two identical copies of this code; it is modelled once.
 */
module CollaborationModes {
  import opened Text
  import opened Substitution

  /** The protocol's collaboration modes. */
  datatype ModeKind = Default | Plan | Heavy | HeavyPlan

  /** The protocol's reasoning-effort levels, by name; only `medium` is named by this code. */
  datatype ReasoningEffort = ReasoningEffort(level: string)

  const Medium: ReasoningEffort := ReasoningEffort("medium")

  function DisplayName(mode: ModeKind): (r: string)
    ensures |r| >= 4 && '{' !in r && '}' !in r
  {
    match mode
    case Default => "Default"
    case Plan => "Plan"
    case Heavy => "Heavy"
    case HeavyPlan => "Heavy Plan"
  }

  /** The modes offered in the terminal UI, in the order they are listed. */
  const VisibleModes: seq<ModeKind> := [Default, Plan, Heavy, HeavyPlan]

  const KnownModeNamesPlaceholder: string := PlaceholderOf(KnownModeNamesName)
  const KnownModeNamesName: string := "KNOWN_MODE_NAMES"
  const AvailabilityName: string := "REQUEST_USER_INPUT_AVAILABILITY"
  const AvailabilityPlaceholder: string := PlaceholderOf(AvailabilityName)

  /** The display names of `modes`, in order. */
  function DisplayNames(modes: seq<ModeKind>): (r: seq<string>)
    ensures |r| == |modes| && forall k :: 0 <= k < |modes| ==> r[k] == DisplayName(modes[k])
  {
    if modes == [] then [] else [DisplayName(modes[0])] + DisplayNames(modes[1..])
  }

  /** The English list of names: `none`, `A`, `A and B`, or `A, B, C, ...` (`format_mode_names`). */
  function FormatNames(names: seq<string>): string {
    if |names| == 0 then "none"
    else if |names| == 1 then names[0]
    else if |names| == 2 then names[0] + " and " + names[1]
    else Join(names, ", ")
  }

  function FormatModeNames(modes: seq<ModeKind>): string {
    FormatNames(DisplayNames(modes))
  }

  lemma DisplayNameNotNone(mode: ModeKind)
    ensures DisplayName(mode) != "none"
  {
    assert DisplayName(mode)[0] != 'n';
  }

  lemma PairMentionsBoth(a: string, b: string)
    requires |a| >= 4
    ensures Contains(a + " and " + b, a) && Contains(a + " and " + b, b)
    ensures a + " and " + b != "none"
  {
    var r := a + " and " + b;
    assert r[0..][..|a|] == a;
    ContainsAt(r, a, 0);
    assert r[|a| + 5..] == b;
    assert r[|a| + 5..][..|b|] == b;
    ContainsAt(r, b, |a| + 5);
  }

  lemma SingleMentions(a: string)
    ensures Contains(a, a)
  {
    assert a[0..][..|a|] == a;
    ContainsAt(a, a, 0);
  }

  lemma ListMentionsAll(names: seq<string>)
    requires |names| >= 3 && |names[0]| >= 4
    ensures forall k :: 0 <= k < |names| ==> Contains(Join(names, ", "), names[k])
    ensures Join(names, ", ") != "none"
  {
    forall k | 0 <= k < |names| ensures Contains(Join(names, ", "), names[k]) {
      JoinContainsPart(names, ", ", k);
    }
    JoinLength(names, ", ");
  }

  lemma FormatNamesMentionsAll(names: seq<string>)
    requires forall k :: 0 <= k < |names| ==> |names[k]| >= 4 && names[k] != "none"
    ensures names == [] <==> FormatNames(names) == "none"
    ensures forall k :: 0 <= k < |names| ==> Contains(FormatNames(names), names[k])
  {
    var r := FormatNames(names);
    if |names| == 1 {
      assert r == names[0];
      SingleMentions(names[0]);
    } else if |names| == 2 {
      assert r == names[0] + " and " + names[1];
      PairMentionsBoth(names[0], names[1]);
    } else if |names| >= 3 {
      assert r == Join(names, ", ");
      ListMentionsAll(names);
    }
  }

  /** The list names every mode it was given, and says `none` exactly when it was given none. */
  lemma FormatModeNamesMentionsAll(modes: seq<ModeKind>)
    ensures modes == [] <==> FormatModeNames(modes) == "none"
    ensures forall k :: 0 <= k < |modes| ==> Contains(FormatModeNames(modes), DisplayName(modes[k]))
  {
    var names := DisplayNames(modes);
    forall k | 0 <= k < |names| ensures |names[k]| >= 4 && names[k] != "none" {
      DisplayNameNotNone(modes[k]);
    }
    FormatNamesMentionsAll(names);
  }

  lemma {:induction false} JoinLength(parts: seq<string>, sep: string)
    requires |parts| >= 2
    ensures |Join(parts, sep)| >= |parts[0]| + |sep| + |parts[1]|
  {
    if |parts| > 2 {
      JoinLength(parts[1..], sep);
    }
  }

  /** `Default, Plan, Heavy, Heavy Plan`: the list of the modes offered in the terminal UI. */
  const KnownModeNames: string := "Default" + ", " + ("Plan" + ", " + ("Heavy" + ", " + "Heavy Plan"))

  /** With the modes offered in the terminal UI the list reads `Default, Plan, Heavy, Heavy Plan`. */
  lemma FormatVisibleModes()
    ensures FormatModeNames(VisibleModes) == KnownModeNames
  {
    var names := DisplayNames(VisibleModes);
    assert names == ["Default", "Plan", "Heavy", "Heavy Plan"];
    assert names[1..][1..][1..] == ["Heavy Plan"];
  }

  lemma KnownModeNamesFacts()
    ensures |KnownModeNames| == 32 && '{' !in KnownModeNames && '}' !in KnownModeNames
    ensures !IsWhitespace(KnownModeNames[0])
  {
  }

  const KnownNamesLead: string := "Known mode names are "

  lemma KnownNamesLeadFacts()
    ensures |KnownNamesLead| == 21 && '{' !in KnownNamesLead && '}' !in KnownNamesLead
  {
  }

  const ToolSentenceStart: string := "The `request_user_input` tool is "
  const AvailablePrefix: string := ToolSentenceStart + "available in "
  const UnavailablePrefix: string := ToolSentenceStart + "unavailable in "
  const UnavailableMiddle: string := " mode. If you call it while in "
  const UnavailableSuffix: string := " mode, it will return an error."

  /** The sentence telling the model whether `request_user_input` may be called in `mode`. */
  function AvailabilityMessage(mode: ModeKind, allows: ModeKind -> bool): string {
    var name := DisplayName(mode);
    if allows(mode) then AvailablePrefix + name + " mode."
    else UnavailablePrefix + name + UnavailableMiddle + name + UnavailableSuffix
  }

  lemma SentenceStartFacts()
    ensures |ToolSentenceStart| == 33 && ToolSentenceStart[0] == 'T'
    ensures '{' !in ToolSentenceStart && '}' !in ToolSentenceStart
  {
  }

  lemma PrefixFacts()
    ensures |AvailablePrefix| == 46 && |UnavailablePrefix| == 48
    ensures '{' !in AvailablePrefix && '}' !in AvailablePrefix
    ensures '{' !in UnavailablePrefix && '}' !in UnavailablePrefix
    ensures AvailablePrefix[33] == 'a' && UnavailablePrefix[33] == 'u' && AvailablePrefix[0] == 'T' && UnavailablePrefix[0] == 'T'
  {
    SentenceStartFacts();
  }

  lemma UnavailableMiddleFacts()
    ensures '{' !in UnavailableMiddle && '}' !in UnavailableMiddle
  {
  }

  lemma UnavailableSuffixFacts()
    ensures '{' !in UnavailableSuffix && '}' !in UnavailableSuffix
  {
  }

  lemma UnavailableTailFacts()
    ensures '{' !in UnavailableMiddle && '}' !in UnavailableMiddle
    ensures '{' !in UnavailableSuffix && '}' !in UnavailableSuffix
    ensures '{' !in " mode." && '}' !in " mode."
  {
    UnavailableMiddleFacts();
    UnavailableSuffixFacts();
  }

  lemma MessagePiecesFacts()
    ensures |AvailablePrefix| == 46 && |UnavailablePrefix| == 48
    ensures '{' !in AvailablePrefix && '}' !in AvailablePrefix
    ensures '{' !in UnavailablePrefix && '}' !in UnavailablePrefix
    ensures '{' !in UnavailableMiddle && '}' !in UnavailableMiddle
    ensures '{' !in UnavailableSuffix && '}' !in UnavailableSuffix
    ensures '{' !in " mode." && '}' !in " mode."
    ensures AvailablePrefix[33] == 'a' && UnavailablePrefix[33] == 'u' && AvailablePrefix[0] == 'T' && UnavailablePrefix[0] == 'T'
  {
    PrefixFacts();
    UnavailableTailFacts();
  }

  /** The sentence names the mode. */
  lemma AvailabilityMentionsMode(mode: ModeKind, allows: ModeKind -> bool)
    ensures Contains(AvailabilityMessage(mode, allows), DisplayName(mode))
  {
    var m, name := AvailabilityMessage(mode, allows), DisplayName(mode);
    var pre := if allows(mode) then AvailablePrefix else UnavailablePrefix;
    assert m[|pre|..][..|name|] == name;
    ContainsAt(m, name, |pre|);
  }

  /** The sentence tells a mode that allows the tool from one that does not. */
  lemma AvailabilityDistinguishes(mode: ModeKind, allows: ModeKind -> bool, allows': ModeKind -> bool)
    ensures AvailabilityMessage(mode, allows) == AvailabilityMessage(mode, allows') <==> allows(mode) == allows'(mode)
  {
    MessagePiecesFacts();
    var m, m' := AvailabilityMessage(mode, allows), AvailabilityMessage(mode, allows');
    assert m[33] == (if allows(mode) then 'a' else 'u');
    assert m'[33] == (if allows'(mode) then 'a' else 'u');
  }

  /** The sentence has no braces and is longer than either placeholder, and it is not blank. */
  lemma AvailabilityMessagePlain(mode: ModeKind, allows: ModeKind -> bool)
    ensures '{' !in AvailabilityMessage(mode, allows) && '}' !in AvailabilityMessage(mode, allows)
    ensures |AvailabilityMessage(mode, allows)| > 46 && !IsWhitespace(AvailabilityMessage(mode, allows)[0])
  {
    MessagePiecesFacts();
  }

  /** `render_collaboration_mode_template` / `mode_instructions`. */
  function Render(template: string, mode: ModeKind, allows: ModeKind -> bool): string {
    ReplaceAll(
      ReplaceAll(template, KnownModeNamesPlaceholder, FormatModeNames(VisibleModes)),
      AvailabilityPlaceholder, AvailabilityMessage(mode, allows))
  }

  /**
   * Two successive replacements of distinct placeholders by brace-free texts longer than the
   * placeholders: neither placeholder is left, the context around the first is filled in, and
   * the second text is inserted.
   */
  lemma {:induction false} ReplaceTwoPlaceholders(template: string, a: string, b: string, x: string, y: string, u: string, v: string)
    requires IsPlaceholderName(a) && IsPlaceholderName(b) && a != b
    requires '{' !in x && '}' !in x && '{' !in y && '}' !in y
    requires '{' !in u && '}' !in u && '{' !in v && '}' !in v
    requires |x| > |PlaceholderOf(a)| && |y| > |PlaceholderOf(a)| && |y| > |PlaceholderOf(b)|
    requires |u| > |PlaceholderOf(a)| && |u| + |x| + |v| > |PlaceholderOf(b)|
    requires Contains(template, u + PlaceholderOf(a) + v) && Contains(template, PlaceholderOf(b))
    ensures !Contains(ReplaceAll(ReplaceAll(template, PlaceholderOf(a), x), PlaceholderOf(b), y), PlaceholderOf(a))
    ensures !Contains(ReplaceAll(ReplaceAll(template, PlaceholderOf(a), x), PlaceholderOf(b), y), PlaceholderOf(b))
    ensures Contains(ReplaceAll(ReplaceAll(template, PlaceholderOf(a), x), PlaceholderOf(b), y), u + x + v)
    ensures Contains(ReplaceAll(ReplaceAll(template, PlaceholderOf(a), x), PlaceholderOf(b), y), y)
  {
    var p1, p2 := PlaceholderOf(a), PlaceholderOf(b);
    var t1 := ReplaceAll(template, p1, x);
    ShortDoesNotContain(p1, x);
    ReplaceAllRemoves(template, p1, x);
    ShortDoesNotContain(p1, u);
    ReplaceAllInContext(template, p1, x, u, v);
    ReplaceAllKeepsPlaceholder(template, a, x, b);
    ShortDoesNotContain(p2, y);
    ReplaceAllRemoves(t1, p2, y);
    ShortDoesNotContain(p1, y);
    ReplaceAllKeepsAbsent(t1, p2, y, p1);
    var w := u + x + v;
    ShortDoesNotContain(p2, w);
    ReplaceAllKeepsPlain(t1, p2, y, w);
    ReplaceAllInserts(t1, p2, y);
  }

  lemma KnownModeNamesNameFacts()
    ensures IsPlaceholderName(KnownModeNamesName) && |KnownModeNamesName| == 16
  {
  }

  lemma AvailabilityNameFacts()
    ensures IsPlaceholderName(AvailabilityName) && |AvailabilityName| == 31
  {
  }

  lemma PlaceholderFacts()
    ensures IsPlaceholderName(KnownModeNamesName) && IsPlaceholderName(AvailabilityName)
    ensures |KnownModeNamesPlaceholder| == 20 && |AvailabilityPlaceholder| == 35
    ensures KnownModeNamesName != AvailabilityName
  {
    KnownModeNamesNameFacts();
    AvailabilityNameFacts();
  }

  /**
   * A template that says `Known mode names are {{KNOWN_MODE_NAMES}}.` and mentions the
   * availability placeholder renders to text with neither placeholder left, with the sentence
   * listing the visible modes, and with the availability sentence for the mode.
   */
  lemma RenderFillsPlaceholders(template: string, mode: ModeKind, allows: ModeKind -> bool)
    requires Contains(template, KnownNamesLead + KnownModeNamesPlaceholder + ".")
    requires Contains(template, AvailabilityPlaceholder)
    ensures !Contains(Render(template, mode, allows), KnownModeNamesPlaceholder)
    ensures !Contains(Render(template, mode, allows), AvailabilityPlaceholder)
    ensures Contains(Render(template, mode, allows), KnownNamesLead + KnownModeNames + ".")
    ensures Contains(Render(template, mode, allows), AvailabilityMessage(mode, allows))
  {
    FormatVisibleModes();
    KnownModeNamesFacts();
    AvailabilityMessagePlain(mode, allows);
    PlaceholderFacts();
    KnownNamesLeadFacts();
    var u := KnownNamesLead;
    ReplaceTwoPlaceholders(template, KnownModeNamesName, AvailabilityName,
      KnownModeNames, AvailabilityMessage(mode, allows), u, ".");
  }

  /** A template with some non-whitespace text never renders blank. */
  lemma RenderKeepsNonBlank(template: string, mode: ModeKind, allows: ModeKind -> bool)
    requires !IsBlank(template)
    ensures !IsBlank(Render(template, mode, allows))
  {
    var names, msg := FormatModeNames(VisibleModes), AvailabilityMessage(mode, allows);
    FormatVisibleModes();
    KnownModeNamesFacts();
    AvailabilityMessagePlain(mode, allows);
    NotBlankAt(names, 0);
    NotBlankAt(msg, 0);
    ReplaceAllKeepsNonBlank(template, KnownModeNamesPlaceholder, names);
    ReplaceAllKeepsNonBlank(ReplaceAll(template, KnownModeNamesPlaceholder, names), AvailabilityPlaceholder, msg);
  }
}
