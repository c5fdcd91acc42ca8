/**
 * The history cells the terminal UI shows for collaboration events: an agent spawned, input
 * sent, waiting for agents, wait complete, agent closed, resuming and resumed. Styling is
 * dropped: a line is the list of its span texts, a cell is its title and its detail lines.
 * A thread id is represented by its string form.
 */
module Collab {
  import opened Wrappers
  import opened Text
  import opened Ordering

  /** The grapheme budget handed to `truncate_text` for an error preview. */
  const ErrorPreviewGraphemes: nat := 160

  /** The span between two counts of the wait summary. */
  const Separator: string := " \U{B7} "

  /** A line of a history cell: the texts of its spans, in order. */
  type Line = seq<string>

  /** The text a line shows. */
  function LineText(line: Line): string {
    Join(line, "")
  }

  /** The value a line shows after its label: its last span. */
  function Value(line: Line): string {
    if line == [] then "" else line[|line| - 1]
  }

  /** `detail_line`: a `name: ` span followed by the value. */
  function DetailLine(name: string, value: string): Line {
    [name + ": ", value]
  }

  /** `detail_line_spans`: a `name: ` span followed by several value spans. */
  function DetailLineSpans(name: string, value: seq<string>): Line {
    [name + ": "] + value
  }

  // ---------------------------------------------------------------------------------------
  // Agent status
  // ---------------------------------------------------------------------------------------

  /** An agent's state as the protocol reports it. */
  datatype AgentStatus =
    | PendingInit
    | Running
    | Completed(message: Option<string>)
    | Errored(error: string)
    | Shutdown
    | NotFound

  /** The status words of the wait summary, in the order its counts are listed. */
  const SummaryLabels: seq<string> :=
    ["pending init", "running", "completed", "errored", "shutdown", "not found"]

  /** `status_span` without its style. */
  function StatusLabel(status: AgentStatus): string {
    match status
    case PendingInit => "pending init"
    case Running => "running"
    case Completed(_) => "completed"
    case Errored(_) => "errored"
    case Shutdown => "shutdown"
    case NotFound => "not found"
  }

  /** The counter of the wait summary a status adds to, which is listed under the status's own word. */
  function Rank(status: AgentStatus): (r: nat)
    ensures r < |SummaryLabels| && SummaryLabels[r] == StatusLabel(status)
  {
    match status
    case PendingInit => 0
    case Running => 1
    case Completed(_) => 2
    case Errored(_) => 3
    case Shutdown => 4
    case NotFound => 5
  }

  lemma SummaryLabelsDistinct()
    ensures Distinct(SummaryLabels)
  {
    forall i, j | 0 <= i < j < |SummaryLabels| ensures SummaryLabels[i] != SummaryLabels[j] {
      assert SummaryLabels[i][0] != SummaryLabels[j][0];
    }
  }

  /** Two statuses show the same word exactly when they are counted together. */
  lemma StatusLabelsDistinguishRanks(a: AgentStatus, b: AgentStatus)
    ensures StatusLabel(a) == StatusLabel(b) <==> Rank(a) == Rank(b)
  {
    SummaryLabelsDistinct();
  }

  /** The status line of a cell. */
  function StatusLine(status: AgentStatus): Line {
    DetailLine("status", StatusLabel(status))
  }

  // ---------------------------------------------------------------------------------------
  // Prompt lines
  // ---------------------------------------------------------------------------------------

  /** The line showing line `index` of a prompt: only the first is labelled `prompt`. */
  function PromptLine(index: nat, line: string): Line {
    DetailLine(if index == 0 then "prompt" else "", line)
  }

  /** The detail lines of a prompt: none when it is blank, else one per line of the trimmed prompt. */
  function PromptDetails(prompt: string): seq<Line> {
    var trimmed := Trim(prompt);
    var ls := Lines(trimmed);
    if trimmed == [] then [] else seq(|ls|, k requires 0 <= k < |ls| => PromptLine(k, ls[k]))
  }

  /** `prompt_lines`. */
  method PromptLines(prompt: string) returns (lines: seq<Line>)
    ensures lines == PromptDetails(prompt)
  {
    var trimmed := Trim(prompt);
    if trimmed == [] {
      return [];
    }
    var ls := Lines(trimmed);
    lines := [];
    for index := 0 to |ls|
      invariant |lines| == index
      invariant forall k :: 0 <= k < index ==> lines[k] == PromptLine(k, ls[k])
    {
      if index == 0 {
        lines := lines + [DetailLine("prompt", ls[index])];
      } else {
        lines := lines + [DetailLine("", ls[index])];
      }
    }
  }

  /** Every character of the trimmed text comes from the text. */
  lemma TrimChars(s: string, x: char)
    requires x in Trim(s)
    ensures x in s
  {
    var t := TrimStart(s);
    TrimStartShape(s);
    TrimEndShape(t);
    var i :| 0 <= i < |Trim(s)| && Trim(s)[i] == x;
    assert t[i] == x;
    assert s[|s| - |t| + i] == x;
  }

  /** Text that does not end in a line feed has at least one line. */
  lemma LinesNonEmpty(s: string)
    requires s != [] && s[|s| - 1] != '\n'
    ensures Lines(s) != []
  {
    LastPieceNonEmpty(s, '\n');
  }

  /**
   * A prompt shows no lines exactly when it is blank; only its first line is labelled
   * `prompt`; the values shown are the lines of the trimmed prompt, so for a prompt without
   * carriage returns joining them with line feeds gives back the whole trimmed prompt.
   */
  lemma PromptDetailsFacts(prompt: string, r: seq<Line>)
    requires r == PromptDetails(prompt)
    ensures r == [] <==> IsBlank(prompt)
    ensures forall k :: 0 <= k < |r| ==> |r[k]| == 2 && r[k][0] == (if k == 0 then "prompt: " else ": ")
    ensures Map(r, Value) == Lines(Trim(prompt))
    ensures '\r' !in prompt ==> Join(Map(r, Value), "\n") == Trim(prompt)
  {
    var trimmed := Trim(prompt);
    if trimmed != [] {
      LinesNonEmpty(trimmed);
      assert Map(r, Value) == Lines(trimmed);
      if '\r' !in prompt {
        if '\r' in trimmed {
          TrimChars(prompt, '\r');
        }
        LinesJoin(trimmed);
      }
    }
  }

  // ---------------------------------------------------------------------------------------
  // Thread id lists
  // ---------------------------------------------------------------------------------------

  /** `format_thread_ids`: `none` for no ids, else the ids joined by `, ` in the given order. */
  function FormatThreadIds(ids: seq<string>): string {
    if ids == [] then "none" else Join(ids, ", ")
  }

  /** What a thread id's string form never is: it has no comma and is not the word `none`. */
  predicate ThreadIdText(s: string) {
    ',' !in s && s != "none"
  }

  function DropSpace(piece: string): string {
    if piece != [] && piece[0] == ' ' then piece[1..] else piece
  }

  /** Reads a list shown by `format_thread_ids` back into its ids. */
  function ReadThreadIds(s: string): seq<string> {
    if s == "none" then []
    else
      var pieces := Split(s, ',');
      [pieces[0]] + Map(pieces[1..], DropSpace)
  }

  lemma {:induction false} SplitCommaJoin(ids: seq<string>)
    requires ids != [] && forall k :: 0 <= k < |ids| ==> ',' !in ids[k]
    ensures |Split(Join(ids, ", "), ',')| == |ids| && Split(Join(ids, ", "), ',')[0] == ids[0]
    ensures forall k :: 1 <= k < |ids| ==> Split(Join(ids, ", "), ',')[k] == " " + ids[k]
  {
    if |ids| == 1 {
      SplitNoSeparator(ids[0], ',');
    } else {
      var tail := Join(ids[1..], ", ");
      SplitCommaJoin(ids[1..]);
      var rest := Split(tail, ',');
      assert Join(ids, ", ") == ids[0] + [','] + ([' '] + tail);
      SplitAtSeparator(ids[0], ',', [' '] + tail);
      assert ([' '] + tail)[1..] == tail;
      var spaced := Split([' '] + tail, ',');
      assert spaced == [[' '] + rest[0]] + rest[1..];
      forall k | 1 <= k < |ids| ensures ([ids[0]] + spaced)[k] == " " + ids[k] {
        if k > 1 {
          assert ([ids[0]] + spaced)[k] == rest[k - 1];
        }
      }
    }
  }

  /** Reading a formatted id list gives back the ids, in their order. */
  lemma FormatThreadIdsReadsBack(ids: seq<string>)
    requires forall k :: 0 <= k < |ids| ==> ThreadIdText(ids[k])
    ensures ReadThreadIds(FormatThreadIds(ids)) == ids
  {
    if ids != [] {
      var s := Join(ids, ", ");
      SplitCommaJoin(ids);
      var pieces := Split(s, ',');
      SplitNoSeparator("none", ',');
      assert ThreadIdText(ids[0]);
      assert s != "none";
      var read := [pieces[0]] + Map(pieces[1..], DropSpace);
      forall k | 0 <= k < |ids| ensures read[k] == ids[k] {
        if k > 0 {
          assert read[k] == DropSpace(pieces[k]);
          assert pieces[k] == [' '] + ids[k];
        }
      }
      assert read == ids;
    }
  }

  // ---------------------------------------------------------------------------------------
  // The wait summary
  // ---------------------------------------------------------------------------------------

  /** How many of the threads in `keys` have a status counted at `rank`. */
  function Tally(statuses: map<string, AgentStatus>, keys: set<string>, rank: nat): nat {
    |set id | id in keys && id in statuses && Rank(statuses[id]) == rank|
  }

  /** The six counters of a wait result, in summary order. */
  function Counts(statuses: map<string, AgentStatus>): (r: seq<nat>)
    ensures |r| == |SummaryLabels|
  {
    var keys := statuses.Keys;
    [Tally(statuses, keys, 0), Tally(statuses, keys, 1), Tally(statuses, keys, 2),
     Tally(statuses, keys, 3), Tally(statuses, keys, 4), Tally(statuses, keys, 5)]
  }

  function Total(counts: seq<nat>): nat {
    if counts == [] then 0 else counts[0] + Total(counts[1..])
  }

  /** Counting one more thread adds one to its own counter and nothing to the others. */
  lemma TallyStep(statuses: map<string, AgentStatus>, done: set<string>, id: string, rank: nat)
    requires id in statuses && id !in done
    ensures Tally(statuses, done + {id}, rank)
         == Tally(statuses, done, rank) + (if Rank(statuses[id]) == rank then 1 else 0)
  {
    var before := set x | x in done && x in statuses && Rank(statuses[x]) == rank;
    var after := set x | x in done + {id} && x in statuses && Rank(statuses[x]) == rank;
    if Rank(statuses[id]) == rank {
      assert after == before + {id};
    } else {
      assert after == before;
    }
  }

  /** Every thread is counted exactly once. */
  lemma {:induction false} TallySum(statuses: map<string, AgentStatus>, keys: set<string>)
    requires keys <= statuses.Keys
    ensures Tally(statuses, keys, 0) + Tally(statuses, keys, 1) + Tally(statuses, keys, 2)
          + Tally(statuses, keys, 3) + Tally(statuses, keys, 4) + Tally(statuses, keys, 5) == |keys|
    decreases |keys|
  {
    if keys == {} {
      forall rank ensures Tally(statuses, keys, rank) == 0 {
        assert (set x | x in keys && x in statuses && Rank(statuses[x]) == rank) == {};
      }
    } else {
      var id :| id in keys;
      var rest := keys - {id};
      TallySum(statuses, rest);
      assert rest + {id} == keys;
      TallyStep(statuses, rest, id, 0);
      TallyStep(statuses, rest, id, 1);
      TallyStep(statuses, rest, id, 2);
      TallyStep(statuses, rest, id, 3);
      TallyStep(statuses, rest, id, 4);
      TallyStep(statuses, rest, id, 5);
    }
  }

  /** The six counters add up to the number of threads. */
  lemma CountsTotal(statuses: map<string, AgentStatus>)
    ensures Total(Counts(statuses)) == |statuses|
  {
    TallySum(statuses, statuses.Keys);
    var c := Counts(statuses);
    assert Total(c[5..]) == c[5];
    assert Total(c[4..]) == c[4] + c[5];
    assert Total(c[3..]) == c[3] + c[4] + c[5];
    assert Total(c[2..]) == c[2] + c[3] + c[4] + c[5];
    assert Total(c[1..]) == c[1] + c[2] + c[3] + c[4] + c[5];
  }

  /** What `push_status_count` appends: nothing for a zero count, else a separator and `<count> <word>`. */
  function CountSpans(count: nat, word: string): seq<string> {
    if count == 0 then [] else [Separator, NatToString(count) + " " + word]
  }

  /** `push_status_count`. */
  method PushStatusCount(spans: seq<string>, count: nat, word: string) returns (r: seq<string>)
    ensures r == spans + CountSpans(count, word)
  {
    r := spans;
    if count == 0 {
      return;
    }
    r := r + [Separator];
    r := r + [NatToString(count) + " " + word];
  }

  /** The count spans of the summary from counter `i` on, each counter listed under its word. */
  function SummaryFrom(counts: seq<nat>, words: seq<string>, i: nat): seq<string>
    requires |counts| == |words|
    decreases |words| - i
  {
    if i >= |words| then []
    else CountSpans(counts[i], words[i]) + SummaryFrom(counts, words, i + 1)
  }

  /** The count spans the first `n` calls of `push_status_count` append. */
  function SummaryUpTo(counts: seq<nat>, words: seq<string>, n: nat): seq<string>
    requires |counts| == |words| && n <= |words|
  {
    if n == 0 then [] else SummaryUpTo(counts, words, n - 1) + CountSpans(counts[n - 1], words[n - 1])
  }

  /** One more call of `push_status_count` extends the spans by the next counter's. */
  lemma SummaryPush(total: seq<string>, counts: seq<nat>, words: seq<string>, k: nat, summary: seq<string>)
    requires |counts| == |words| && k < |words| && summary == total + SummaryUpTo(counts, words, k)
    ensures summary + CountSpans(counts[k], words[k]) == total + SummaryUpTo(counts, words, k + 1)
  {
    assert summary + CountSpans(counts[k], words[k])
        == total + (SummaryUpTo(counts, words, k) + CountSpans(counts[k], words[k]));
  }

  /** Appending the counters one by one builds the same spans as listing them from the front. */
  lemma {:induction false} SummaryUpToFrom(counts: seq<nat>, words: seq<string>, n: nat)
    requires |counts| == |words| && n <= |words|
    ensures SummaryUpTo(counts, words, n) + SummaryFrom(counts, words, n) == SummaryFrom(counts, words, 0)
  {
    if n > 0 {
      SummaryUpToFrom(counts, words, n - 1);
      var u := SummaryUpTo(counts, words, n - 1);
      var c := CountSpans(counts[n - 1], words[n - 1]);
      var f := SummaryFrom(counts, words, n);
      assert SummaryFrom(counts, words, n - 1) == c + f;
      assert (u + c) + f == u + (c + f);
    }
  }

  /** The summary spans: `<len> total`, then the non-zero counters in summary order. */
  function SummarySpans(statuses: map<string, AgentStatus>): seq<string> {
    [NatToString(|statuses|) + " total"] + SummaryFrom(Counts(statuses), SummaryLabels, 0)
  }

  /** The suffix of a thread's entry: the full completion message, or an error preview. */
  function EntrySuffix(status: AgentStatus, truncate: (string, nat) -> string): seq<string> {
    match status
    case Completed(Some(message)) => [": ", message]
    case Errored(error) => [": ", truncate(CollapseWhitespace(error), ErrorPreviewGraphemes)]
    case _ => []
  }

  /** One thread's entry: its id, its status word and the status's suffix. */
  function EntryLine(id: string, status: AgentStatus, truncate: (string, nat) -> string): Line {
    [id, " ", StatusLabel(status)] + EntrySuffix(status, truncate)
  }

  function EntryLines(statuses: map<string, AgentStatus>, ids: seq<string>, truncate: (string, nat) -> string): seq<Line>
    requires forall id :: id in ids ==> id in statuses
  {
    seq(|ids|, k requires 0 <= k < |ids| => EntryLine(ids[k], statuses[ids[k]], truncate))
  }

  /** The lines `wait_complete_lines` produces. */
  function WaitCompleteDetails(statuses: map<string, AgentStatus>, truncate: (string, nat) -> string): seq<Line> {
    if |statuses| == 0 then [DetailLine("agents", "none")]
    else
      [DetailLineSpans("agents", SummarySpans(statuses))] + EntryLines(statuses, SortedElements(statuses.Keys), truncate)
  }

  /** `TallyStep` for every counter at once. */
  lemma TallySteps(statuses: map<string, AgentStatus>, done: set<string>, id: string)
    requires id in statuses && id !in done
    ensures forall rank ::
      Tally(statuses, done + {id}, rank) == Tally(statuses, done, rank) + (if Rank(statuses[id]) == rank then 1 else 0)
  {
    forall rank ensures Tally(statuses, done + {id}, rank)
         == Tally(statuses, done, rank) + (if Rank(statuses[id]) == rank then 1 else 0) {
      TallyStep(statuses, done, id, rank);
    }
  }

  /**
   * The counting loop of `wait_complete_lines`. It visits the threads in an arbitrary order,
   * as a hash map's values are, and counts each status under its own counter.
   */
  method CountStatuses(statuses: map<string, AgentStatus>)
    returns (pendingInit: nat, running: nat, completed: nat, errored: nat, shutdown: nat, notFound: nat)
    ensures [pendingInit, running, completed, errored, shutdown, notFound] == Counts(statuses)
  {
    pendingInit, running, completed, errored, shutdown, notFound := 0, 0, 0, 0, 0, 0;
    var remaining := statuses.Keys;
    while remaining != {}
      invariant remaining <= statuses.Keys
      invariant pendingInit == Tally(statuses, statuses.Keys - remaining, 0)
      invariant running == Tally(statuses, statuses.Keys - remaining, 1)
      invariant completed == Tally(statuses, statuses.Keys - remaining, 2)
      invariant errored == Tally(statuses, statuses.Keys - remaining, 3)
      invariant shutdown == Tally(statuses, statuses.Keys - remaining, 4)
      invariant notFound == Tally(statuses, statuses.Keys - remaining, 5)
      decreases |remaining|
    {
      var id :| id in remaining;
      TallySteps(statuses, statuses.Keys - remaining, id);
      match statuses[id] {
        case PendingInit => pendingInit := pendingInit + 1;
        case Running => running := running + 1;
        case Completed(_) => completed := completed + 1;
        case Errored(_) => errored := errored + 1;
        case Shutdown => shutdown := shutdown + 1;
        case NotFound => notFound := notFound + 1;
      }
      assert statuses.Keys - (remaining - {id}) == (statuses.Keys - remaining) + {id};
      remaining := remaining - {id};
    }
    assert statuses.Keys - remaining == statuses.Keys;
  }

  /**
   * `wait_complete_lines`. The entries are sorted by thread id; as the ids are distinct, that
   * order is the ascending order of the key set.
   */
  method WaitCompleteLines(statuses: map<string, AgentStatus>, truncate: (string, nat) -> string)
    returns (lines: seq<Line>)
    ensures lines == WaitCompleteDetails(statuses, truncate)
  {
    if |statuses| == 0 {
      return [DetailLine("agents", "none")];
    }
    var pendingInit, running, completed, errored, shutdown, notFound := CountStatuses(statuses);
    ghost var counts := Counts(statuses);
    var total := [NatToString(|statuses|) + " total"];
    var summary := total;
    SummaryPush(total, counts, SummaryLabels, 0, summary);
    summary := PushStatusCount(summary, pendingInit, "pending init");
    SummaryPush(total, counts, SummaryLabels, 1, summary);
    summary := PushStatusCount(summary, running, "running");
    SummaryPush(total, counts, SummaryLabels, 2, summary);
    summary := PushStatusCount(summary, completed, "completed");
    SummaryPush(total, counts, SummaryLabels, 3, summary);
    summary := PushStatusCount(summary, errored, "errored");
    SummaryPush(total, counts, SummaryLabels, 4, summary);
    summary := PushStatusCount(summary, shutdown, "shutdown");
    SummaryPush(total, counts, SummaryLabels, 5, summary);
    summary := PushStatusCount(summary, notFound, "not found");
    SummaryUpToFrom(counts, SummaryLabels, 6);
    assert summary == SummarySpans(statuses);

    var ids := SortedElements(statuses.Keys);
    lines := [DetailLineSpans("agents", summary)];
    lines := lines + EntryLines(statuses, ids, truncate);
  }

  // ---------------------------------------------------------------------------------------
  // Reading the summary back
  // ---------------------------------------------------------------------------------------

  /** The first position of `x` in `xs`, or `|xs|` when it does not occur. */
  function IndexOf(xs: seq<string>, x: string): (r: nat)
    ensures r <= |xs| && (r < |xs| ==> xs[r] == x) && (r == |xs| ==> x !in xs)
  {
    if xs == [] then 0 else if xs[0] == x then 0 else 1 + IndexOf(xs[1..], x)
  }

  lemma {:induction false} IndexOfDistinct(xs: seq<string>, i: nat)
    requires Distinct(xs) && i < |xs|
    ensures IndexOf(xs, xs[i]) == i
  {
    if i > 0 {
      assert xs[0] != xs[i];
      IndexOfDistinct(xs[1..], i - 1);
    }
  }

  /** Reads a `<number> <word>` span: the leading digits as a number and the text after the space. */
  function ReadCount(span: string): (nat, string) {
    var d := WordLength(span);
    var digits := span[..d];
    if forall i :: 0 <= i < |digits| ==> IsDigit(digits[i]) then
      (ParseDigits(digits), if d < |span| then span[d + 1..] else "")
    else (0, span)
  }

  lemma ReadCountOf(n: nat, word: string)
    ensures ReadCount(NatToString(n) + " " + word) == (n, word)
  {
    var d := NatToString(n);
    var s := d + " " + word;
    forall i | 0 <= i < |d| ensures !IsWhitespace(s[i]) {
      assert s[i] == d[i] && IsDigit(d[i]);
    }
    assert s[|d|] == ' ';
    WordLengthAt(s, |d|);
    assert s[..|d|] == d;
    NatToStringRoundTrip(n);
    assert s[|d| + 1..] == word;
  }

  /** Reads `separator, <count> <word>` pairs into the counters the words name. */
  function ReadCounts(pairs: seq<string>, words: seq<string>, acc: seq<nat>): (r: seq<nat>)
    decreases |pairs|
  {
    if |pairs| < 2 then acc
    else
      var read := ReadCount(pairs[1]);
      var i := IndexOf(words, read.1);
      ReadCounts(pairs[2..], words, if i < |acc| then acc[i := read.0] else acc)
  }

  /**
   * The pairs are separators each followed by a positive count, whose words come in strictly
   * increasing order from position `from` of `words`.
   */
  predicate ListedInOrder(pairs: seq<string>, words: seq<string>, from: nat)
    decreases |pairs|
  {
    pairs == [] ||
    (|pairs| >= 2 && pairs[0] == Separator &&
     var read := ReadCount(pairs[1]);
     var i := IndexOf(words, read.1);
     from <= i < |words| && read.0 > 0 && ListedInOrder(pairs[2..], words, i + 1))
  }

  lemma ListedInOrderWeaken(pairs: seq<string>, words: seq<string>, from: nat, from': nat)
    requires from' <= from && ListedInOrder(pairs, words, from)
    ensures ListedInOrder(pairs, words, from')
  {
  }

  const Zeros: seq<nat> := [0, 0, 0, 0, 0, 0]

  /** Reads a summary back into its total and its six counters. */
  function ReadSummary(spans: seq<string>): (nat, seq<nat>) {
    if spans == [] then (0, Zeros) else (ReadCount(spans[0]).0, ReadCounts(spans[1..], SummaryLabels, Zeros))
  }

  /** One listed counter is read into its own position. */
  lemma ReadCountsPair(c: nat, words: seq<string>, i: nat, rest: seq<string>, acc: seq<nat>, from: nat)
    requires Distinct(words) && from <= i < |words| == |acc| && c > 0
    ensures ReadCounts([Separator, NatToString(c) + " " + words[i]] + rest, words, acc)
         == ReadCounts(rest, words, acc[i := c])
    ensures ListedInOrder(rest, words, i + 1) ==> ListedInOrder([Separator, NatToString(c) + " " + words[i]] + rest, words, from)
  {
    var pairs := [Separator, NatToString(c) + " " + words[i]] + rest;
    ReadCountOf(c, words[i]);
    IndexOfDistinct(words, i);
    assert pairs[2..] == rest;
  }

  lemma {:induction false} SummaryFromReadsBack(counts: seq<nat>, words: seq<string>, i: nat, acc: seq<nat>)
    requires Distinct(words) && |counts| == |words| == |acc| && i <= |words|
    requires forall j :: 0 <= j < i ==> acc[j] == counts[j]
    requires forall j :: i <= j < |acc| ==> acc[j] == 0
    ensures ReadCounts(SummaryFrom(counts, words, i), words, acc) == counts
    ensures ListedInOrder(SummaryFrom(counts, words, i), words, i)
    decreases |words| - i
  {
    if i == |words| {
      assert acc == counts;
    } else {
      var rest := SummaryFrom(counts, words, i + 1);
      if counts[i] == 0 {
        assert SummaryFrom(counts, words, i) == rest;
        SummaryFromReadsBack(counts, words, i + 1, acc);
        ListedInOrderWeaken(rest, words, i + 1, i);
        assert ReadCounts(rest, words, acc) == counts;
        assert ListedInOrder(rest, words, i);
      } else {
        var pairs := [Separator, NatToString(counts[i]) + " " + words[i]] + rest;
        assert SummaryFrom(counts, words, i) == pairs;
        SummaryFromReadsBack(counts, words, i + 1, acc[i := counts[i]]);
        ReadCountsPair(counts[i], words, i, rest, acc, i);
        assert ReadCounts(pairs, words, acc) == counts;
        assert ListedInOrder(pairs, words, i);
      }
    }
  }

  /**
   * The summary determines the wait result's counts: it reads back as the number of threads
   * and the six counters, which add up to that number; after the total it lists only
   * non-zero counters, each once, in the fixed summary order.
   */
  lemma SummaryReadsBack(statuses: map<string, AgentStatus>)
    ensures ReadSummary(SummarySpans(statuses)) == (|statuses|, Counts(statuses))
    ensures Total(Counts(statuses)) == |statuses|
    ensures ListedInOrder(SummarySpans(statuses)[1..], SummaryLabels, 0)
  {
    var spans := SummarySpans(statuses);
    TotalReadsBack(|statuses|);
    SummaryLabelsDistinct();
    SummaryFromReadsBack(Counts(statuses), SummaryLabels, 0, Zeros);
    assert spans[1..] == SummaryFrom(Counts(statuses), SummaryLabels, 0);
    CountsTotal(statuses);
  }

  /** The total span reads back as the total. */
  lemma TotalReadsBack(total: nat)
    ensures ReadCount(NatToString(total) + " total").0 == total
  {
    ReadCountOf(total, "total");
    assert NatToString(total) + " total" == NatToString(total) + " " + "total";
  }

  /**
   * An empty wait result shows the single line `agents: none`; otherwise the summary line is
   * followed by one entry per thread, the entries of the threads listed in ascending id
   * order, each thread once.
   */
  lemma WaitCompleteShape(statuses: map<string, AgentStatus>, truncate: (string, nat) -> string, r: seq<Line>, ids: seq<string>)
    requires r == WaitCompleteDetails(statuses, truncate) && ids == SortedElements(statuses.Keys)
    ensures |statuses| == 0 ==> r == [DetailLine("agents", "none")]
    ensures |statuses| > 0 ==> |r| == |statuses| + 1 && r[0] == DetailLineSpans("agents", SummarySpans(statuses))
    ensures Sorted(ids) && Distinct(ids) && |ids| == |statuses| && forall id :: id in ids <==> id in statuses
    ensures |statuses| > 0 ==> forall k :: 0 <= k < |ids| ==> r[k + 1] == EntryLine(ids[k], statuses[ids[k]], truncate)
  {
    SortedElementsOrdered(statuses.Keys);
    if |statuses| > 0 {
      var e := EntryLines(statuses, ids, truncate);
      EntryLinesFacts(statuses, ids, truncate, e);
      assert r == [r[0]] + e;
      forall k | 0 <= k < |ids| ensures r[k + 1] == EntryLine(ids[k], statuses[ids[k]], truncate) {
        assert r[k + 1] == e[k];
      }
    }
  }

  lemma EntryLinesFacts(statuses: map<string, AgentStatus>, ids: seq<string>, truncate: (string, nat) -> string, e: seq<Line>)
    requires (forall id :: id in ids ==> id in statuses) && e == EntryLines(statuses, ids, truncate)
    ensures |e| == |ids|
    ensures forall k :: 0 <= k < |e| ==>
      |e[k]| >= 3 && e[k][0] == ids[k] && e[k] == EntryLine(ids[k], statuses[ids[k]], truncate)
  {
  }

  /**
   * An entry starts with the thread id and its status word; a completion message is shown in
   * full, an error as the preview of its collapsed text, and other statuses add nothing.
   */
  lemma EntryLineShows(id: string, status: AgentStatus, truncate: (string, nat) -> string)
    ensures EntryLine(id, status, truncate)[..3] == [id, " ", StatusLabel(status)]
    ensures status.Completed? && status.message.Some? ==>
      Value(EntryLine(id, status, truncate)) == status.message.value
      && Contains(LineText(EntryLine(id, status, truncate)), status.message.value)
    ensures status.Errored? ==>
      Value(EntryLine(id, status, truncate)) == truncate(CollapseWhitespace(status.error), ErrorPreviewGraphemes)
    ensures !(status.Completed? && status.message.Some?) && !status.Errored? ==> |EntryLine(id, status, truncate)| == 3
  {
    if status.Completed? && status.message.Some? {
      JoinContainsPart(EntryLine(id, status, truncate), "", 4);
    }
  }

  // ---------------------------------------------------------------------------------------
  // Event cells
  // ---------------------------------------------------------------------------------------

  /** The collaboration events the history shows (the sender's thread id is not displayed). */
  datatype CollabEvent =
    | SpawnEnd(callId: string, newThreadId: Option<string>, agentRole: Option<string>, prompt: string, status: AgentStatus)
    | InteractionEnd(callId: string, receiverThreadId: string, prompt: string, status: AgentStatus)
    | WaitingBegin(callId: string, receiverThreadIds: seq<string>)
    | WaitingEnd(callId: string, statuses: map<string, AgentStatus>)
    | CloseEnd(callId: string, receiverThreadId: string, status: AgentStatus)
    | ResumeBegin(callId: string, receiverThreadId: string)
    | ResumeEnd(callId: string, receiverThreadId: string, status: AgentStatus)

  /** A history cell: the title of `collab_event` and the detail lines shown beneath it. */
  datatype HistoryCell = HistoryCell(title: string, details: seq<Line>)

  /** `spawn_end`: a missing thread id shows as `not created`, a missing role as `unknown`. */
  function SpawnEndCell(callId: string, newThreadId: Option<string>, agentRole: Option<string>,
                        prompt: string, status: AgentStatus): HistoryCell {
    HistoryCell("Agent spawned",
      [DetailLine("call", callId), DetailLine("agent", newThreadId.GetOr("not created")),
       DetailLine("role", agentRole.GetOr("unknown")), StatusLine(status)] + PromptDetails(prompt))
  }

  /** `interaction_end`. */
  function InteractionEndCell(callId: string, receiver: string, prompt: string, status: AgentStatus): HistoryCell {
    HistoryCell("Input sent",
      [DetailLine("call", callId), DetailLine("receiver", receiver), StatusLine(status)] + PromptDetails(prompt))
  }

  /** `waiting_begin`. */
  function WaitingBeginCell(callId: string, receivers: seq<string>): HistoryCell {
    HistoryCell("Waiting for agents", [DetailLine("call", callId), DetailLine("receivers", FormatThreadIds(receivers))])
  }

  /** `waiting_end`. */
  function WaitingEndCell(callId: string, statuses: map<string, AgentStatus>, truncate: (string, nat) -> string): HistoryCell {
    HistoryCell("Wait complete", [DetailLine("call", callId)] + WaitCompleteDetails(statuses, truncate))
  }

  /** `close_end`. */
  function CloseEndCell(callId: string, receiver: string, status: AgentStatus): HistoryCell {
    HistoryCell("Agent closed", [DetailLine("call", callId), DetailLine("receiver", receiver), StatusLine(status)])
  }

  /** `resume_begin`. */
  function ResumeBeginCell(callId: string, receiver: string): HistoryCell {
    HistoryCell("Resuming agent", [DetailLine("call", callId), DetailLine("receiver", receiver)])
  }

  /** `resume_end`. */
  function ResumeEndCell(callId: string, receiver: string, status: AgentStatus): HistoryCell {
    HistoryCell("Agent resumed", [DetailLine("call", callId), DetailLine("receiver", receiver), StatusLine(status)])
  }

  /** The cell each event becomes. */
  function EventCell(ev: CollabEvent, truncate: (string, nat) -> string): HistoryCell {
    match ev
    case SpawnEnd(callId, newThreadId, agentRole, prompt, status) => SpawnEndCell(callId, newThreadId, agentRole, prompt, status)
    case InteractionEnd(callId, receiver, prompt, status) => InteractionEndCell(callId, receiver, prompt, status)
    case WaitingBegin(callId, receivers) => WaitingBeginCell(callId, receivers)
    case WaitingEnd(callId, statuses) => WaitingEndCell(callId, statuses, truncate)
    case CloseEnd(callId, receiver, status) => CloseEndCell(callId, receiver, status)
    case ResumeBegin(callId, receiver) => ResumeBeginCell(callId, receiver)
    case ResumeEnd(callId, receiver, status) => ResumeEndCell(callId, receiver, status)
  }

  /** Every cell starts with its call id, and every event that carries a status shows it. */
  lemma EventCellShowsCallAndStatus(ev: CollabEvent, truncate: (string, nat) -> string)
    ensures EventCell(ev, truncate).details != [] && EventCell(ev, truncate).details[0] == DetailLine("call", ev.callId)
    ensures (ev.SpawnEnd? || ev.InteractionEnd? || ev.CloseEnd? || ev.ResumeEnd?) ==>
      StatusLine(ev.status) in EventCell(ev, truncate).details
  {
  }

  /**
   * A spawn shows `not created` when no thread was created and `unknown` when no role was
   * given, and shows the whole trimmed prompt, line by line.
   */
  lemma SpawnEndShows(callId: string, newThreadId: Option<string>, agentRole: Option<string>,
                      prompt: string, status: AgentStatus, cell: HistoryCell)
    requires cell == SpawnEndCell(callId, newThreadId, agentRole, prompt, status)
    ensures |cell.details| >= 4
    ensures Value(cell.details[1]) == (if newThreadId.Some? then newThreadId.value else "not created")
    ensures Value(cell.details[2]) == (if agentRole.Some? then agentRole.value else "unknown")
    ensures Map(cell.details[4..], Value) == Lines(Trim(prompt))
    ensures '\r' !in prompt ==> Join(Map(cell.details[4..], Value), "\n") == Trim(prompt)
  {
    PromptDetailsFacts(prompt, PromptDetails(prompt));
    assert cell.details[4..] == PromptDetails(prompt);
  }

  /** The receivers of a wait are shown so that they read back as the given ids, in order. */
  lemma WaitingBeginShows(callId: string, receivers: seq<string>)
    requires forall k :: 0 <= k < |receivers| ==> ThreadIdText(receivers[k])
    ensures ReadThreadIds(Value(WaitingBeginCell(callId, receivers).details[1])) == receivers
  {
    FormatThreadIdsReadsBack(receivers);
  }

  /** A completed thread's message appears in full among the wait-complete lines. */
  lemma WaitCompleteShowsCompletion(statuses: map<string, AgentStatus>, truncate: (string, nat) -> string,
                                    id: string, message: string, r: seq<Line>)
    requires id in statuses && statuses[id] == Completed(Some(message))
    requires r == WaitCompleteDetails(statuses, truncate)
    ensures exists k :: 0 <= k < |r| && Contains(LineText(r[k]), message)
  {
    var ids := SortedElements(statuses.Keys);
    WaitCompleteShape(statuses, truncate, r, ids);
    var k :| 0 <= k < |ids| && ids[k] == id;
    EntryLineShows(id, statuses[id], truncate);
    assert Contains(LineText(r[k + 1]), message);
  }

  /** A completed thread's message appears in full in the wait-complete cell. */
  lemma WaitingEndShowsCompletion(callId: string, statuses: map<string, AgentStatus>, truncate: (string, nat) -> string,
                                  id: string, message: string, cell: HistoryCell)
    requires id in statuses && statuses[id] == Completed(Some(message))
    requires cell == WaitingEndCell(callId, statuses, truncate)
    ensures exists k :: 0 <= k < |cell.details| && Contains(LineText(cell.details[k]), message)
  {
    var r := WaitCompleteDetails(statuses, truncate);
    WaitCompleteShowsCompletion(statuses, truncate, id, message, r);
    var k :| 0 <= k < |r| && Contains(LineText(r[k]), message);
    assert cell.details[k + 1] == r[k];
  }
}
