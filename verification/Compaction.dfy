/** Planning a compaction and deriving what a turn is sent (src/context.rs). */
module Compaction {
  import opened Prelude
  import opened Messages
  import opened Text
  import opened FileLedger

  // ----- where history may be cut -----

  /** Walk `i` back over messages of one kind, to the first message before it that is of another, or to the start. */
  function BackOverResults(ms: seq<Message>, i: nat): (j: nat)
    requires i < |ms|
    ensures j <= i && forall k :: j < k <= i ==> ms[k].ToolResult?
    ensures j == 0 || !ms[j].ToolResult?
  {
    if i > 0 && ms[i].ToolResult? then BackOverResults(ms, i - 1) else i
  }

  function BackOverCalls(ms: seq<Message>, i: nat): (j: nat)
    requires i < |ms|
    ensures j <= i && forall k :: j < k <= i ==> ms[k].ToolCall?
    ensures j == 0 || !ms[j].ToolCall?
  {
    if i > 0 && ms[i].ToolCall? then BackOverCalls(ms, i - 1) else i
  }

  function Split(ms: seq<Message>, keepRecent: nat): (split: nat)
    requires keepRecent >= 1
    ensures split <= |ms| && (|ms| <= keepRecent ==> split == 0)
    ensures |ms| > keepRecent ==> split <= |ms| - keepRecent
  {
    if |ms| <= keepRecent then 0
    else
      var call := BackOverResults(ms, |ms| - keepRecent);
      if call > 0 && ms[call].ToolCall? && ms[BackOverCalls(ms, call)].Reasoning? then BackOverCalls(ms, call) else call
  }

  /** `safe_split`: start `keepRecent` from the end, and walk back out of a tool block. */
  method SafeSplit(ms: seq<Message>, keepRecent: nat) returns (split: nat)
    requires keepRecent >= 1
    ensures split == Split(ms, keepRecent)
  {
    if |ms| <= keepRecent {
      return 0;
    }
    split := |ms| - keepRecent;
    while split > 0 && ms[split].ToolResult?
      invariant split < |ms| && BackOverResults(ms, split) == BackOverResults(ms, |ms| - keepRecent)
    {
      split := split - 1;
    }
    if split > 0 && ms[split].ToolCall? {
      var blockStart := split;
      while blockStart > 0 && ms[blockStart].ToolCall?
        invariant blockStart <= split && BackOverCalls(ms, blockStart) == BackOverCalls(ms, split)
      {
        blockStart := blockStart - 1;
      }
      if ms[blockStart].Reasoning? {
        split := blockStart;
      }
    }
  }

  // ----- records and what they hide -----

  datatype Record = Record(summary: string, firstKept: nat, tokensBefore: nat, ledger: Ledger)

  const SUMMARY_MARKER := "[Summary of earlier conversation]"

  function RenderedSummary(r: Record): string {
    SUMMARY_MARKER + ": " + r.summary
    + if r.ledger.read == [] && r.ledger.modified == [] then "" else "\n\n" + Render(r.ledger)
  }

  /** Where the newest record says the kept window starts, clamped to the journal. */
  function Boundary(journal: seq<Message>, records: seq<Record>): (b: nat)
    ensures b <= |journal|
  {
    if records == [] then 0 else Min(records[|records| - 1].firstKept, |journal|)
  }

  /** The messages a turn is sent. */
  function EffectiveContext(journal: seq<Message>, records: seq<Record>): seq<Message> {
    if records == [] then journal
    else [Assistant(RenderedSummary(records[|records| - 1]))] + journal[Boundary(journal, records)..]
  }

  function CharsOf(ms: seq<Message>): nat {
    if ms == [] then 0
    else
      (match ms[0]
       case User(t) => |t|
       case Assistant(t) => |t|
       case ToolCall(_, name, args) => |name| + |args.text|
       case ToolResult(_, name, result) => |name| + |result|
       case Reasoning(_, encrypted) => |encrypted|) + CharsOf(ms[1..])
  }

  function EffectiveTokens(journal: seq<Message>, records: seq<Record>): nat {
    if records == [] then CharsOf(journal) / 4
    else (|RenderedSummary(records[|records| - 1])| + CharsOf(journal[Boundary(journal, records)..])) / 4
  }

  /** The estimate measures exactly what the turn is sent. */
  lemma TokensMeasureContext(journal: seq<Message>, records: seq<Record>)
    ensures EffectiveTokens(journal, records) == CharsOf(EffectiveContext(journal, records)) / 4
  {
    if records != [] {
      var kept := journal[Boundary(journal, records)..];
      assert EffectiveContext(journal, records)[1..] == kept;
    }
  }

  // ----- planning -----

  /** Fold `journal[from..upTo]`. */
  datatype Plan = Plan(from: nat, upTo: nat)

  function PlanCompaction(journal: seq<Message>, records: seq<Record>, keepRecent: nat): (p: Option<Plan>)
    requires keepRecent >= 1
    ensures p.Some? ==> p.value.from == Boundary(journal, records) < p.value.upTo <= |journal|
  {
    var from := Boundary(journal, records);
    var split := Split(journal[from..], keepRecent);
    if split > 0 then Some(Plan(from, from + split)) else None
  }

  lemma {:induction false} BackOverResultsShifts(ms: seq<Message>, i: nat, f: nat)
    requires f <= i < |ms|
    ensures BackOverResults(ms[f..], i - f) == if BackOverResults(ms, i) < f then 0 else BackOverResults(ms, i) - f
    decreases i
  {
    if i > f && ms[i].ToolResult? {
      BackOverResultsShifts(ms, i - 1, f);
    }
  }

  lemma {:induction false} BackOverCallsShifts(ms: seq<Message>, i: nat, f: nat)
    requires f <= i < |ms|
    ensures BackOverCalls(ms[f..], i - f) == if BackOverCalls(ms, i) < f then 0 else BackOverCalls(ms, i) - f
    decreases i
  {
    if i > f && ms[i].ToolCall? {
      BackOverCallsShifts(ms, i - 1, f);
    }
  }

  /** What the first split keeps has nothing left to cut, even when that split had walked back out of a tool block. */
  lemma SplitIsIdempotent(ms: seq<Message>, keepRecent: nat)
    requires keepRecent >= 1
    ensures Split(ms[Split(ms, keepRecent)..], keepRecent) == 0
  {
    var f := Split(ms, keepRecent);
    if |ms| - f > keepRecent {
      var raw := |ms| - keepRecent;
      BackOverResultsShifts(ms, raw, f);
      var call := BackOverResults(ms, raw);
      BackOverCallsShifts(ms, call, f);
      assert |ms[f..]| - keepRecent == raw - f;
    }
  }

  /** Planning again right after recording a plan, with nothing appended, finds nothing to fold. */
  lemma PlanningIsIdempotent(journal: seq<Message>, records: seq<Record>, keepRecent: nat, r: Record)
    requires keepRecent >= 1 && PlanCompaction(journal, records, keepRecent).Some?
    requires r.firstKept == PlanCompaction(journal, records, keepRecent).value.upTo
    ensures PlanCompaction(journal, records + [r], keepRecent).None?
  {
    var from := Boundary(journal, records);
    var tail := journal[from..];
    SplitIsIdempotent(tail, keepRecent);
    assert tail[Split(tail, keepRecent)..] == journal[r.firstKept..];
  }

  // ----- the summarizer's input -----

  function Truncated(s: string, max: nat): string {
    if |s| <= max then s else s[..max] + "..."
  }

  const USER_PREFIX := "User: "
  const ASSISTANT_PREFIX := "Assistant: "
  const CALL_PREFIX := "Tool call: "
  const RESULT_PREFIX := "Tool result ["

  /** One message's line of the transcript; reasoning has none. */
  function Line(m: Message): string {
    match m
    case User(t) => USER_PREFIX + t + "\n"
    case Assistant(t) => ASSISTANT_PREFIX + t + "\n"
    case ToolCall(_, name, args) => CALL_PREFIX + name + "(" + Truncated(args.text, 200) + ")\n"
    case ToolResult(_, name, result) => RESULT_PREFIX + name + "]: " + Truncated(result, 500) + "\n"
    case Reasoning(_, _) => ""
  }

  function LinesOf(ms: seq<Message>): (ls: seq<string>)
    ensures |ls| == |ms| && forall i :: 0 <= i < |ms| ==> ls[i] == Line(ms[i])
  {
    seq(|ms|, i requires 0 <= i < |ms| => Line(ms[i]))
  }

  /** The first `k` parts, one after the other. */
  function Concat(parts: seq<string>, k: nat): string
    requires k <= |parts|
  {
    if k == 0 then "" else Concat(parts, k - 1) + parts[k - 1]
  }

  /** The transcript of a region. */
  function Transcript(previous: Option<string>, ms: seq<Message>): string {
    Preface(previous) + Concat(LinesOf(ms), |ms|)
  }

  const PREFACE := "Summary of the conversation before this transcript:\n"

  function Preface(previous: Option<string>): string {
    match previous
    case None => ""
    case Some(s) => PREFACE + s + "\n\n"
  }

  /** `summarizer_input`. */
  method SummarizerInput(previous: Option<string>, ms: seq<Message>) returns (transcript: string)
    ensures transcript == Transcript(previous, ms)
  {
    hide Line;
    var body := "";
    ghost var lines := LinesOf(ms);
    for i := 0 to |ms|
      invariant body == Concat(lines, i)
    {
      var line := Line(ms[i]);
      assert lines[i] == line;
      body := body + line;
    }
    transcript := Preface(previous) + body;
  }

  lemma {:induction false} PartIsWithin(parts: seq<string>, i: nat, k: nat)
    requires i < k <= |parts|
    ensures Within(parts[i], Concat(parts, k))
    decreases k
  {
    if i == k - 1 {
      WithinSelf(Concat(parts, k - 1), parts[i], "");
      assert Concat(parts, k) == Concat(parts, k - 1) + parts[i] + "";
    } else {
      PartIsWithin(parts, i, k - 1);
      WithinJoins(parts[i], "", Concat(parts, k - 1), parts[k - 1]);
      assert Concat(parts, k) == "" + Concat(parts, k - 1) + parts[k - 1];
    }
  }

  lemma PrefaceCarries(previous: Option<string>, rest: string)
    requires previous.Some?
    ensures Within(previous.value, Preface(previous) + rest)
  {
    WithinSelf(PREFACE, previous.value, "\n\n" + rest);
    assert Preface(previous) + rest == PREFACE + previous.value + ("\n\n" + rest);
  }

  /** The transcript of a region carries the previous summary and the line of every message of the region. */
  lemma InputCarriesRegion(previous: Option<string>, ms: seq<Message>)
    ensures previous.Some? ==> Within(previous.value, Transcript(previous, ms))
    ensures forall i :: 0 <= i < |ms| ==> Within(LinesOf(ms)[i], Transcript(previous, ms))
  {
    var preface, lines := Preface(previous), LinesOf(ms);
    if previous.Some? {
      PrefaceCarries(previous, Concat(lines, |ms|));
    }
    forall i | 0 <= i < |lines|
      ensures Within(lines[i], preface + Concat(lines, |ms|))
    {
      PartIsWithin(lines, i, |ms|);
      WithinJoins(lines[i], preface, Concat(lines, |ms|), "");
      assert preface + Concat(lines, |ms|) == preface + Concat(lines, |ms|) + "";
    }
  }

  /** What is said in the region stands in the transcript in full. */
  lemma InputCarriesText(previous: Option<string>, ms: seq<Message>, i: nat)
    requires i < |ms| && (ms[i].User? || ms[i].Assistant?)
    ensures Within(ms[i].text, Transcript(previous, ms))
  {
    hide Within, Transcript;
    InputCarriesRegion(previous, ms);
    var prefix := if ms[i].User? then USER_PREFIX else ASSISTANT_PREFIX;
    assert Line(ms[i]) == prefix + ms[i].text + "\n";
    WithinSelf(prefix, ms[i].text, "\n");
    assert LinesOf(ms)[i] == Line(ms[i]);
    WithinWithin(ms[i].text, Line(ms[i]), Transcript(previous, ms));
  }

  // ----- what a compacted turn is told -----

  /** The newest summary is in view, and nothing of the older records is. */
  lemma SummaryIsInView(journal: seq<Message>, records: seq<Record>)
    requires records != []
    ensures EffectiveContext(journal, records)[0].Assistant?
    ensures Within(records[|records| - 1].summary, EffectiveContext(journal, records)[0].text)
    ensures EffectiveContext(journal, records) == EffectiveContext(journal, [records[|records| - 1]])
  {
    hide Within, Render;
    var r := records[|records| - 1];
    var ledger := if r.ledger.read == [] && r.ledger.modified == [] then "" else "\n\n" + Render(r.ledger);
    WithinSelf(SUMMARY_MARKER + ": ", r.summary, ledger);
    assert RenderedSummary(r) == SUMMARY_MARKER + ": " + r.summary + ledger;
  }

  /** So is every listed path of its ledger, with how it was touched, and the number of those left out. */
  lemma LedgerIsInView(journal: seq<Message>, records: seq<Record>, i: nat)
    requires records != [] && i < |Listed(records[|records| - 1].ledger)|
    ensures var l := records[|records| - 1].ledger;
      Within("- " + Listed(l)[i] + " (" + How(l, Listed(l)[i]) + ")\n", EffectiveContext(journal, records)[0].text)
    ensures var l := records[|records| - 1].ledger;
      |Paths(l)| > 20 ==>
        Within("[... " + Decimal(|Paths(l)| - 20) + " more files elided ...]\n",
               EffectiveContext(journal, records)[0].text)
  {
    hide Within, Render, How, Listed, Paths;
    var r := records[|records| - 1];
    var l := r.ledger;
    RenderedInView(journal, records, i);
    var line := "- " + Listed(l)[i] + " (" + How(l, Listed(l)[i]) + ")\n";
    var before, after := RenderShows(l, i);
    WithinSelf(before, line, after);
    WithinWithin(line, Render(l), RenderedSummary(r));
    if |Paths(l)| > 20 {
      var elision := "[... " + Decimal(|Paths(l)| - 20) + " more files elided ...]\n";
      var before', after' := RenderShows(l, 19);
      var last := "- " + Listed(l)[19] + " (" + How(l, Listed(l)[19]) + ")\n";
      WithinSelf(before' + last, elision, "");
      assert Render(l) == (before' + last) + elision + "";
      WithinWithin(elision, Render(l), RenderedSummary(r));
    }
  }

  lemma RenderedInView(journal: seq<Message>, records: seq<Record>, i: nat)
    requires records != [] && i < |Listed(records[|records| - 1].ledger)|
    ensures EffectiveContext(journal, records)[0].Assistant?
    ensures EffectiveContext(journal, records)[0].text == RenderedSummary(records[|records| - 1])
    ensures Within(Render(records[|records| - 1].ledger), RenderedSummary(records[|records| - 1]))
  {
    hide Within, Render, Paths;
    var r := records[|records| - 1];
    NothingListed(r.ledger);
    WithinSelf(SUMMARY_MARKER + ": " + r.summary + "\n\n", Render(r.ledger), "");
    assert RenderedSummary(r) == (SUMMARY_MARKER + ": " + r.summary + "\n\n") + Render(r.ledger) + "";
  }

  lemma NothingListed(l: Ledger)
    ensures l.read == [] && l.modified == [] ==> Listed(l) == []
  {
  }

  /** A record whose boundary lies beyond the journal leaves the summary alone in view. */
  lemma StaleBoundaryKeepsSummary(journal: seq<Message>, records: seq<Record>)
    requires records != [] && records[|records| - 1].firstKept >= |journal|
    ensures |EffectiveContext(journal, records)| == 1
  {
    hide RenderedSummary;
  }

  // ----- what texts cost -----

  lemma {:induction false} CharsOfJoins(a: seq<Message>, b: seq<Message>)
    ensures CharsOf(a + b) == CharsOf(a) + CharsOf(b)
  {
    if a == [] {
      assert a + b == b;
    } else {
      assert (a + b)[1..] == a[1..] + b;
      CharsOfJoins(a[1..], b);
    }
  }

  /** A message costs the text that is sent for it. */
  lemma CharsOfOne(id: string, name: string, text: string, path: Option<string>)
    ensures CharsOf([User(text)]) == CharsOf([Assistant(text)]) == CharsOf([Reasoning(id, text)]) == |text|
    ensures CharsOf([ToolCall(id, name, Args(text, path))]) == CharsOf([ToolResult(id, name, text)]) == |name + text|
  {
  }

  /** A call or a result is told by its tool's name and what it says: in full up to 200 or 500 characters. */
  lemma LinesTell(id: string, name: string, text: string, path: Option<string>)
    ensures |text| <= 200 ==> Line(ToolCall(id, name, Args(text, path))) == "Tool call: " + name + "(" + text + ")\n"
    ensures |text| > 200 ==>
              Line(ToolCall(id, name, Args(text, path))) == "Tool call: " + name + "(" + (text[..200] + "...") + ")\n"
    ensures |text| <= 500 ==> Line(ToolResult(id, name, text)) == "Tool result [" + name + "]: " + text + "\n"
    ensures |text| > 500 ==>
              Line(ToolResult(id, name, text)) == "Tool result [" + name + "]: " + (text[..500] + "...") + "\n"
  {
  }

  // ----- the order of a transcript -----

  lemma {:induction false} ConcatJoins(a: seq<string>, b: seq<string>, k: nat)
    requires k <= |b|
    ensures Concat(a + b, |a| + k) == Concat(a, |a|) + Concat(b, k)
    decreases k
  {
    if k == 0 {
      ConcatPrefix(a, b, |a|);
    } else {
      ConcatJoins(a, b, k - 1);
      assert (a + b)[|a| + k - 1] == b[k - 1];
      Regroup(Concat(a, |a|), Concat(b, k - 1), b[k - 1]);
    }
  }

  lemma {:induction false} ConcatPrefix(a: seq<string>, b: seq<string>, k: nat)
    requires k <= |a|
    ensures Concat(a + b, k) == Concat(a, k)
    decreases k
  {
    if k > 0 {
      ConcatPrefix(a, b, k - 1);
    }
  }

  /** A transcript tells the previous summary first, and then its messages one after the other. */
  lemma TranscriptKeepsOrder(previous: Option<string>, a: seq<Message>, b: seq<Message>)
    ensures Transcript(previous, a + b) == Transcript(previous, a) + Transcript(None, b)
    ensures previous.Some? ==> Transcript(previous, []) == PREFACE + previous.value + "\n\n"
  {
    hide Line, Concat;
    assert LinesOf(a + b) == LinesOf(a) + LinesOf(b);
    ConcatJoins(LinesOf(a), LinesOf(b), |b|);
    Regroup(Preface(previous), Concat(LinesOf(a), |a|), Concat(LinesOf(b), |b|));
    assert "" + Concat(LinesOf(b), |b|) == Concat(LinesOf(b), |b|);
    NothingToTell(previous);
  }

  lemma NothingToTell(previous: Option<string>)
    ensures Transcript(previous, []) == Preface(previous)
  {
  }
}
