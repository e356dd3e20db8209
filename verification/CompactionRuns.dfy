/** Whole conversations: turns, compactions and what they leave, in any order (src/context.rs). */
module CompactionRuns {
  import opened Prelude
  import opened Messages
  import Text
  import opened FileLedger
  import opened Compaction
  import opened Pieces
  import opened CompactionBlocks

  // ----- one compaction -----

  type Keep = n: nat | n >= 1 witness 1

  datatype Config = Config(thresholdTokens: nat, keepRecent: Keep)

  datatype Trigger = Threshold | Forced

  /** The summarizing model's answer to a transcript; none when the call failed. */
  type Model = string -> Option<string>

  datatype Compacted = Skipped | CallFailed | Made(record: Record)

  function ShouldSummarize(tokens: nat, folded: nat, config: Config, trigger: Trigger): bool {
    folded != 0 && (trigger == Forced || tokens >= config.thresholdTokens)
  }

  function PreviousSummary(records: seq<Record>): Option<string> {
    if records == [] then None else Some(records[|records| - 1].summary)
  }

  /** The sets a pass starts from: those of the previous record, collected into ordered sets again. */
  function PreviousLedger(records: seq<Record>): Ledger {
    if records == [] then NO_FILES else Reopened(records[|records| - 1].ledger)
  }

  function Reopened(l: Ledger): Ledger {
    Ledger(InsertAll([], l.read), InsertAll([], l.modified))
  }

  function Region(journal: seq<Message>, p: Plan): seq<Message> {
    if p.from <= p.upTo <= |journal| then journal[p.from..p.upTo] else []
  }

  function CompactOutcome(
    journal: seq<Message>, records: seq<Record>, config: Config, model: Model, trigger: Trigger): Compacted
  {
    match PlanCompaction(journal, records, config.keepRecent)
    case None => Skipped
    case Some(p) =>
      var tokens := EffectiveTokens(journal, records);
      if !ShouldSummarize(tokens, p.upTo - p.from, config, trigger) then Skipped
      else
        match model(Transcript(PreviousSummary(records), Region(journal, p)))
        case None => CallFailed
        case Some(summary) => Made(Record(summary, p.upTo, tokens,
          TouchAll(PreviousLedger(records), Region(journal, p))))
  }

  /** A conversation's records, which a pass may append to; the journal itself is only read. */
  class CompactionLog {
    var records: seq<Record>

    constructor ()
      ensures records == []
    {
      records := [];
    }

    method CompactWith(journal: seq<Message>, config: Config, model: Model, trigger: Trigger) returns (r: Compacted)
      modifies this
      ensures r == CompactOutcome(journal, old(records), config, model, trigger)
      ensures records == if r.Made? then old(records) + [r.record] else old(records)
    {
      var tokens := EffectiveTokens(journal, records);
      var plan := PlanCompaction(journal, records, config.keepRecent);
      if plan.None? {
        return Skipped;
      }
      var p := plan.value;
      if !ShouldSummarize(tokens, p.upTo - p.from, config, trigger) {
        return Skipped;
      }
      var folded := journal[p.from..p.upTo];
      var transcript := SummarizerInput(PreviousSummary(records), folded);
      var summary := model(transcript);
      if summary.None? {
        return CallFailed;
      }
      var ledger := CollectFileOps(folded, PreviousLedger(records));
      var record := Record(summary.value, p.upTo, tokens, ledger);
      records := records + [record];
      return Made(record);
    }
  }

  /** Whether a threshold compaction would pay for a call, asked without a model. */
  function NeedsCompaction(journal: seq<Message>, records: seq<Record>, config: Config): bool {
    var plan := PlanCompaction(journal, records, config.keepRecent);
    ShouldSummarize(EffectiveTokens(journal, records), if plan.Some? then plan.value.upTo - plan.value.from else 0,
      config, Threshold)
  }

  /** What is announced is exactly what is done. */
  lemma AnnouncementAgrees(journal: seq<Message>, records: seq<Record>, config: Config, model: Model)
    ensures NeedsCompaction(journal, records, config)
        <==> !CompactOutcome(journal, records, config, model, Threshold).Skipped?
  {
  }

  /** A pass goes to the model exactly when there is something to fold and it is forced or the context is large. */
  lemma CompactsExactly(
    journal: seq<Message>, records: seq<Record>, config: Config, model: Model, trigger: Trigger)
    ensures CompactOutcome(journal, records, config, model, trigger) != Skipped <==>
      && PlanCompaction(journal, records, config.keepRecent).Some?
      && (trigger == Forced || EffectiveTokens(journal, records) >= config.thresholdTokens)
  {
    hide EffectiveTokens, Transcript, TouchAll, Region, PreviousLedger;
  }

  /** What a record holds: the model's answer to the region behind the last boundary, and how large the context was. */
  lemma RecordHolds(
    journal: seq<Message>, records: seq<Record>, config: Config, model: Model, trigger: Trigger, p: Plan,
    region: seq<Message>)
    requires CompactOutcome(journal, records, config, model, trigger) != Skipped
    requires PlanCompaction(journal, records, config.keepRecent) == Some(p) && region == journal[p.from..p.upTo]
    ensures var previous := if records == [] then None else Some(records[|records| - 1].summary);
      var outcome := CompactOutcome(journal, records, config, model, trigger);
      match model(Transcript(previous, region))
      case None => outcome == CallFailed
      case Some(summary) =>
        outcome.Made? && outcome.record.summary == summary && outcome.record.firstKept == p.upTo
        && outcome.record.tokensBefore == EffectiveTokens(journal, records)
  {
    hide EffectiveTokens, Transcript, TouchAll, PreviousLedger;
  }

  // ----- one turn -----

  class AgentState {
    var messages: seq<Message>

    constructor (messages: seq<Message>)
      ensures this.messages == messages
    {
      this.messages := messages;
    }
  }

  /** The journal, held aside while a turn runs on the derived context. */
  datatype HeldJournal = HeldJournal(messages: seq<Message>, contextLen: nat)

  function Restored(h: HeldJournal, after: seq<Message>): seq<Message> {
    h.messages + if |after| > h.contextLen then after[h.contextLen..] else []
  }

  method Derive(state: AgentState, records: seq<Record>) returns (held: Option<HeldJournal>)
    modifies state
    ensures records == [] ==> held.None?
    ensures records != [] ==> held == Some(HeldJournal(old(state.messages), |state.messages|))
    ensures state.messages == EffectiveContext(old(state.messages), records)
  {
    if records == [] {
      return None;
    }
    var messages := state.messages;
    state.messages := EffectiveContext(messages, records);
    return Some(HeldJournal(messages, |state.messages|));
  }

  method Restore(held: HeldJournal, state: AgentState)
    modifies state
    ensures state.messages == Restored(held, old(state.messages))
  {
    var journal := held.messages;
    if |state.messages| > held.contextLen {
      journal := journal + state.messages[held.contextLen..];
    }
    state.messages := journal;
  }

  /** A turn: whatever it makes of the messages it is given. */
  type Turn = seq<Message> -> seq<Message>

  /** The journal after a turn, as deriving, running and restoring leave it. */
  function Turned(journal: seq<Message>, records: seq<Record>, turn: Turn): seq<Message> {
    var context := EffectiveContext(journal, records);
    var after := turn(context);
    if records == [] then after else Restored(HeldJournal(journal, |context|), after)
  }

  /** A turn on the derived context, with the journal held aside. */
  method RunTurn(state: AgentState, records: seq<Record>, turn: Turn)
    modifies state
    ensures state.messages == Turned(old(state.messages), records, turn)
  {
    hide EffectiveContext, Restored;
    var held := Derive(state, records);
    state.messages := turn(state.messages);
    if held.Some? {
      Restore(held.value, state);
    }
  }

  /** What a turn adds to the messages it is given. */
  function SaidIn(context: seq<Message>, turn: Turn): seq<Message> {
    if |turn(context)| > |context| then turn(context)[|context|..] else []
  }

  /**
   * A turn adds exactly what it said to the journal, never the derived summary it was given; only on an uncompacted
   * conversation, which is its own context, must it leave what it was given in place.
   */
  lemma TurnAppends(journal: seq<Message>, records: seq<Record>, turn: Turn)
    ensures Turned(journal, records, turn) == journal + SaidIn(EffectiveContext(journal, records), turn)
       <==> records != [] || journal <= turn(journal)
  {
    if records == [] {
      var after := turn(journal);
      assert |after| <= |journal| ==> journal + SaidIn(journal, turn) == journal;
      if journal <= after {
        assert after == journal + after[|journal|..];
      }
    }
  }

  // ----- whole conversations -----

  datatype Event = Speak(turn: Turn) | Compact(config: Config, model: Model, trigger: Trigger)

  /** One pass: the region it folded, and what the model was given. */
  datatype Pass = Pass(plan: Plan, transcript: string)

  datatype Chat = Chat(journal: seq<Message>, records: seq<Record>, passes: seq<Pass>)

  const NEW_CHAT := Chat([], [], [])

  function Next(c: Chat, ev: Event): Chat {
    match ev
    case Speak(turn) => c.(journal := Turned(c.journal, c.records, turn))
    case Compact(config, model, trigger) =>
      match CompactOutcome(c.journal, c.records, config, model, trigger)
      case Made(record) =>
        var p := PlanCompaction(c.journal, c.records, config.keepRecent).value;
        Chat(c.journal, c.records + [record],
          c.passes + [Pass(p, Transcript(PreviousSummary(c.records), Region(c.journal, p)))])
      case _ => c
  }

  /** The chat after the first `k` events. */
  function RunTo(c: Chat, evs: seq<Event>, k: nat): Chat
    requires k <= |evs|
  {
    if k == 0 then c else Next(RunTo(c, evs, k - 1), evs[k - 1])
  }

  function RunAll(c: Chat, evs: seq<Event>): Chat {
    RunTo(c, evs, |evs|)
  }

  /** A chat driven through its state and its log of records, event by event; `c` is that chat, with its passes. */
  method Converse(state: AgentState, log: CompactionLog, evs: seq<Event>, ghost c: Chat)
    requires state.messages == c.journal && log.records == c.records
    modifies state, log
    ensures state.messages == RunAll(c, evs).journal && log.records == RunAll(c, evs).records
  {
    hide Turned, CompactOutcome, PlanCompaction;
    for k := 0 to |evs|
      invariant state.messages == RunTo(c, evs, k).journal && log.records == RunTo(c, evs, k).records
    {
      match evs[k] {
        case Speak(turn) =>
          RunTurn(state, log.records, turn);
        case Compact(config, model, trigger) =>
          var r := log.CompactWith(state.messages, config, model, trigger);
      }
    }
  }

  /** What an event adds to the conversation. */
  function SaidBy(c: Chat, ev: Event): seq<Message> {
    if ev.Speak? then SaidIn(EffectiveContext(c.journal, c.records), ev.turn) else []
  }

  /** Everything said in the first `k` events. */
  function SaidTo(c: Chat, evs: seq<Event>, k: nat): seq<Message>
    requires k <= |evs|
  {
    if k == 0 then [] else SaidTo(c, evs, k - 1) + SaidBy(RunTo(c, evs, k - 1), evs[k - 1])
  }

  /** A turn on an uncompacted conversation only appends to it. */
  predicate Appends(c: Chat, ev: Event) {
    ev.Speak? && c.records == [] ==> c.journal <= ev.turn(c.journal)
  }

  ghost predicate AllAppend(c: Chat, evs: seq<Event>, k: nat)
    requires k <= |evs|
  {
    forall i :: 0 <= i < k ==> Appends(RunTo(c, evs, i), evs[i])
  }

  lemma NextAppends(c: Chat, ev: Event)
    requires Appends(c, ev)
    ensures Next(c, ev).journal == c.journal + SaidBy(c, ev)
  {
    hide CompactOutcome, PlanCompaction, EffectiveContext, Turned, SaidIn;
    match ev {
      case Speak(turn) =>
        TurnAppends(c.journal, c.records, turn);
      case Compact(_, _, _) =>
        assert c.journal + [] == c.journal;
    }
  }

  /**
   * The journal is everything said, in order, and nothing else, over any turns and passes in any order; dropping the
   * records puts all of it back in view.
   */
  lemma {:induction false} JournalConserved(c: Chat, evs: seq<Event>, k: nat)
    requires k <= |evs| && AllAppend(c, evs, k)
    ensures RunTo(c, evs, k).journal == c.journal + SaidTo(c, evs, k)
    ensures EffectiveContext(RunTo(c, evs, k).journal, []) == c.journal + SaidTo(c, evs, k)
    decreases k
  {
    hide Next, SaidBy, Appends;
    if k > 0 {
      JournalConserved(c, evs, k - 1);
      var before := RunTo(c, evs, k - 1);
      assert Appends(before, evs[k - 1]);
      NextAppends(before, evs[k - 1]);
      assert c.journal + SaidTo(c, evs, k - 1) + SaidBy(before, evs[k - 1]) == c.journal + SaidTo(c, evs, k);
    }
  }

  /** A message that reads like a derived summary. */
  predicate IsDerived(m: Message) {
    m.Assistant? && SUMMARY_MARKER <= m.text
  }

  ghost predicate NoneDerived(ms: seq<Message>) {
    forall i :: 0 <= i < |ms| ==> !IsDerived(ms[i])
  }

  /**
   * A compacted conversation's context begins with a derived summary; the rest of it, and an uncompacted one, has
   * none.
   */
  lemma ContextIsLedBySummary(journal: seq<Message>, records: seq<Record>)
    requires NoneDerived(journal)
    ensures records == [] ==> NoneDerived(EffectiveContext(journal, records))
    ensures records != [] ==> IsDerived(EffectiveContext(journal, records)[0])
    ensures records != [] ==> NoneDerived(EffectiveContext(journal, records)[1..])
  {
    if records != [] {
      var context := EffectiveContext(journal, records);
      assert context[0].text == SUMMARY_MARKER + context[0].text[|SUMMARY_MARKER|..];
      assert context[1..] == journal[Boundary(journal, records)..];
    }
  }

  /** No derived summary enters the journal, although every turn of a compacted conversation is given one. */
  lemma {:induction false} NoSummaryEnters(c: Chat, evs: seq<Event>, k: nat)
    requires k <= |evs| && AllAppend(c, evs, k) && NoneDerived(c.journal)
    requires forall i :: 0 <= i < k ==> NoneDerived(SaidBy(RunTo(c, evs, i), evs[i]))
    ensures NoneDerived(RunTo(c, evs, k).journal)
    decreases k
  {
    hide Next, SaidBy, Appends, IsDerived;
    if k > 0 {
      NoSummaryEnters(c, evs, k - 1);
      var before := RunTo(c, evs, k - 1);
      assert Appends(before, evs[k - 1]);
      NextAppends(before, evs[k - 1]);
    }
  }

  function Start(records: seq<Record>, i: nat): nat
    requires i <= |records|
  {
    if i == 0 then 0 else records[i - 1].firstKept
  }

  function Before(records: seq<Record>, i: nat): Option<string>
    requires i <= |records|
  {
    if i == 0 then None else Some(records[i - 1].summary)
  }

  /** Pass `i` starts where the one before ended, and folds something. */
  ghost predicate Placed(c: Chat, i: nat)
    requires i < |c.records| == |c.passes|
  {
    && c.passes[i].plan == Plan(Start(c.records, i), c.records[i].firstKept)
    && Start(c.records, i) < c.records[i].firstKept <= |c.journal|
  }

  /** Pass `i` was given the previous summary and its region, and its ledger covers everything before its boundary. */
  ghost predicate Carried(c: Chat, i: nat)
    requires i < |c.records| == |c.passes|
  {
    && c.passes[i].transcript == Transcript(Before(c.records, i), Region(c.journal, c.passes[i].plan))
    && c.records[i].firstKept <= |c.journal|
    && c.records[i].ledger == TouchAll(NO_FILES, c.journal[..c.records[i].firstKept])
  }

  ghost predicate AllPlaced(c: Chat) {
    |c.records| == |c.passes| && forall i :: 0 <= i < |c.records| ==> Placed(c, i)
  }

  ghost predicate CarriedUpTo(c: Chat, k: nat)
    requires k <= |c.records| == |c.passes|
  {
    k == 0 || (Carried(c, k - 1) && CarriedUpTo(c, k - 1))
  }

  ghost predicate AllCarried(c: Chat) {
    |c.records| == |c.passes| && CarriedUpTo(c, |c.records|)
  }

  lemma {:induction false} CarriedAt(c: Chat, k: nat, i: nat)
    requires i < k <= |c.records| == |c.passes| && CarriedUpTo(c, k)
    ensures Carried(c, i)
    decreases k
  {
    hide Carried;
    if i < k - 1 {
      CarriedAt(c, k - 1, i);
    }
  }

  ghost predicate Tiled(c: Chat) {
    AllPlaced(c) && AllCarried(c)
  }

  lemma {:induction false} InsertAtEnd(xs: seq<string>, x: string)
    requires Ascending(xs + [x])
    ensures Insert(xs, x) == xs + [x]
  {
    if xs != [] {
      var all := xs + [x];
      assert Text.Less(all[0], all[|xs|]);
      LessAsymmetric(xs[0], x);
      assert xs[1..] + [x] == all[1..];
      InsertAtEnd(xs[1..], x);
    }
  }

  lemma {:induction false} LessAsymmetric(a: string, b: string)
    requires Text.Less(a, b)
    ensures !Text.Less(b, a) && a != b
  {
    Text.LessIrreflexive(a);
    if Text.Less(b, a) {
      Text.LessTransitive(a, b, a);
    }
  }

  /** Collecting an ordered set into an ordered set changes nothing. */
  lemma {:induction false} InsertAllSame(xs: seq<string>, more: seq<string>)
    requires Ascending(xs + more)
    ensures InsertAll(xs, more) == xs + more
    decreases |more|
  {
    if more == [] {
      assert xs + more == xs;
    } else {
      assert (xs + [more[0]]) + more[1..] == xs + more;
      assert xs + [more[0]] == (xs + more)[..|xs| + 1];
      InsertAtEnd(xs, more[0]);
      InsertAllSame(xs + [more[0]], more[1..]);
    }
  }

  lemma ReopenedSame(l: Ledger)
    requires Ordered(l)
    ensures Reopened(l) == l
  {
    assert [] + l.read == l.read && [] + l.modified == l.modified;
    InsertAllSame([], l.read);
    InsertAllSame([], l.modified);
  }

  lemma SliceJoins<T>(xs: seq<T>, i: nat, j: nat)
    requires i <= j <= |xs|
    ensures xs[..i] + xs[i..j] == xs[..j]
  {
  }

  /** The ledger a pass records is the one-pass ledger of everything before its boundary. */
  lemma PassFoldsLedger(journal: seq<Message>, from: nat, upTo: nat, previous: Ledger)
    requires from <= upTo <= |journal| && previous == TouchAll(NO_FILES, journal[..from])
    ensures TouchAll(Reopened(previous), journal[from..upTo]) == TouchAll(NO_FILES, journal[..upTo])
  {
    TouchAllCollects(journal[..from]);
    ReopenedSame(previous);
    TouchAllJoins(NO_FILES, journal[..from], journal[from..upTo]);
    SliceJoins(journal, from, upTo);
  }

  lemma BoundaryIsStart(c: Chat)
    requires AllPlaced(c)
    ensures Boundary(c.journal, c.records) == Start(c.records, |c.records|) <= |c.journal|
  {
    if c.records != [] {
      assert Placed(c, |c.records| - 1);
    }
  }

  /** `c'` continues `c`: its journal, records and passes begin with those of `c`. */
  ghost predicate Continues(c: Chat, c': Chat) {
    c.journal <= c'.journal && c.records <= c'.records && c.passes <= c'.passes
  }

  lemma CarriedStays(c: Chat, c': Chat, i: nat)
    requires i < |c.records| == |c.passes| && |c'.records| == |c'.passes| && Continues(c, c')
    requires Placed(c, i) && Carried(c, i)
    ensures Carried(c', i)
  {
    hide Transcript, TouchAll;
    assert c'.records[i] == c.records[i] && c'.passes[i] == c.passes[i];
    assert Before(c'.records, i) == Before(c.records, i);
    assert Region(c'.journal, c.passes[i].plan) == Region(c.journal, c.passes[i].plan);
    assert c'.journal[..c.records[i].firstKept] == c.journal[..c.records[i].firstKept];
  }

  lemma {:induction false} CarriedUpToStays(c: Chat, c': Chat, k: nat)
    requires k <= |c.records| && |c'.records| == |c'.passes| && Continues(c, c')
    requires AllPlaced(c) && CarriedUpTo(c, k)
    ensures CarriedUpTo(c', k)
    decreases k
  {
    hide Carried, Placed;
    if k > 0 {
      assert Placed(c, k - 1);
      CarriedStays(c, c', k - 1);
      CarriedUpToStays(c, c', k - 1);
    }
  }

  lemma TurnStaysTiled(c: Chat, turn: Turn)
    requires Tiled(c)
    ensures Tiled(c.(journal := Turned(c.journal, c.records, turn)))
  {
    hide EffectiveContext, Carried, Placed;
    var c' := c.(journal := Turned(c.journal, c.records, turn));
    if c.records != [] {
      assert c.journal <= c'.journal;
      forall i | 0 <= i < |c.records|
        ensures Placed(c', i)
      {
        PlacedStays(c, c', i);
      }
      CarriedUpToStays(c, c', |c.records|);
    }
  }

  lemma PlacedStays(c: Chat, c': Chat, i: nat)
    requires i < |c.records| == |c.passes| && c' == c.(journal := c'.journal) && |c.journal| <= |c'.journal|
    requires Placed(c, i)
    ensures Placed(c', i)
  {
  }

  /** What a made pass adds to the chat. */
  ghost predicate Adds(c: Chat, p: Plan, record: Record, pass: Pass) {
    && p.from == Start(c.records, |c.records|) < p.upTo <= |c.journal| && record.firstKept == p.upTo
    && record.ledger == TouchAll(PreviousLedger(c.records), Region(c.journal, p))
    && pass == Pass(p, Transcript(PreviousSummary(c.records), Region(c.journal, p)))
  }

  function WithPass(c: Chat, record: Record, pass: Pass): Chat {
    Chat(c.journal, c.records + [record], c.passes + [pass])
  }

  lemma AddStaysPlaced(c: Chat, p: Plan, record: Record, pass: Pass)
    requires AllPlaced(c) && Adds(c, p, record, pass)
    ensures AllPlaced(WithPass(c, record, pass))
  {
    hide Adds, Placed;
    var c' := WithPass(c, record, pass);
    forall i | 0 <= i < |c'.records|
      ensures Placed(c', i)
    {
      if i < |c.records| {
        AddedKeepsPlace(c, record, pass, i);
      } else {
        AddedIsPlaced(c, p, record, pass);
      }
    }
  }

  lemma AddedKeepsPlace(c: Chat, record: Record, pass: Pass, i: nat)
    requires i < |c.records| == |c.passes| && Placed(c, i)
    ensures Placed(WithPass(c, record, pass), i)
  {
  }

  lemma AddedIsPlaced(c: Chat, p: Plan, record: Record, pass: Pass)
    requires |c.records| == |c.passes| && Adds(c, p, record, pass)
    ensures Placed(WithPass(c, record, pass), |c.records|)
  {
    hide TouchAll, Transcript;
  }

  lemma AddIsCarried(c: Chat, p: Plan, record: Record, pass: Pass)
    requires Tiled(c) && Adds(c, p, record, pass)
    ensures Carried(WithPass(c, record, pass), |c.records|)
  {
    var n := |c.records|;
    var c' := WithPass(c, record, pass);
    assert Before(c'.records, n) == PreviousSummary(c.records);
    if n > 0 {
      assert Placed(c, n - 1);
      CarriedAt(c, n, n - 1);
      PassFoldsLedger(c.journal, p.from, p.upTo, c.records[n - 1].ledger);
    } else {
      assert c.journal[..p.upTo] == Region(c.journal, p);
    }
  }

  lemma AddStaysCarried(c: Chat, record: Record, pass: Pass)
    requires Tiled(c) && Carried(WithPass(c, record, pass), |c.records|)
    ensures AllCarried(WithPass(c, record, pass))
  {
    hide Carried, Placed;
    CarriedUpToStays(c, WithPass(c, record, pass), |c.records|);
  }

  /** What the model's yes adds. */
  lemma MadeAdds(c: Chat, config: Config, model: Model, trigger: Trigger) returns (p: Plan, record: Record, pass: Pass)
    requires AllPlaced(c) && CompactOutcome(c.journal, c.records, config, model, trigger).Made?
    ensures Adds(c, p, record, pass) && Next(c, Compact(config, model, trigger)) == WithPass(c, record, pass)
  {
    BoundaryIsStart(c);
    p := PlanCompaction(c.journal, c.records, config.keepRecent).value;
    record := CompactOutcome(c.journal, c.records, config, model, trigger).record;
    pass := Pass(p, Transcript(PreviousSummary(c.records), Region(c.journal, p)));
  }

  lemma NextStaysTiled(c: Chat, ev: Event)
    requires Tiled(c)
    ensures Tiled(Next(c, ev))
  {
    match ev {
      case Speak(turn) =>
        TurnStaysTiled(c, turn);
      case Compact(config, model, trigger) =>
        if CompactOutcome(c.journal, c.records, config, model, trigger).Made? {
          var p, record, pass := MadeAdds(c, config, model, trigger);
          AddStaysPlaced(c, p, record, pass);
          AddIsCarried(c, p, record, pass);
          AddStaysCarried(c, record, pass);
        }
    }
  }

  lemma {:induction false} RunToStaysTiled(c: Chat, evs: seq<Event>, k: nat)
    requires Tiled(c) && k <= |evs|
    ensures Tiled(RunTo(c, evs, k))
    decreases k
  {
    hide Next, Tiled;
    if k > 0 {
      RunToStaysTiled(c, evs, k - 1);
      NextStaysTiled(RunTo(c, evs, k - 1), evs[k - 1]);
    }
  }

  lemma RunStaysTiled(evs: seq<Event>)
    ensures Tiled(RunAll(NEW_CHAT, evs))
  {
    RunToStaysTiled(NEW_CHAT, evs, |evs|);
  }

  function Regions(c: Chat): (ps: seq<seq<Message>>)
    ensures |ps| == |c.passes| && forall i :: 0 <= i < |ps| ==> ps[i] == Region(c.journal, c.passes[i].plan)
  {
    seq(|c.passes|, i requires 0 <= i < |c.passes| => Region(c.journal, c.passes[i].plan))
  }

  ghost predicate SliceAt(journal: seq<Message>, starts: seq<nat>, ps: seq<seq<Message>>, i: nat)
    requires i < |ps| && |starts| == |ps| + 1
  {
    starts[i] <= starts[i + 1] <= |journal| && ps[i] == journal[starts[i]..starts[i + 1]]
  }

  /** Regions that start at zero and each where the one before ended add up to a prefix of the journal. */
  lemma {:induction false} SlicesAddUp(journal: seq<Message>, starts: seq<nat>, ps: seq<seq<Message>>, k: nat)
    requires |starts| == |ps| + 1 && starts[0] == 0 && k <= |ps|
    requires forall i :: 0 <= i < |ps| ==> SliceAt(journal, starts, ps, i)
    ensures starts[k] <= |journal| && JoinedTo(ps, k) == journal[..starts[k]] && Offset(ps, k) == starts[k]
    decreases k
  {
    if k > 0 {
      SlicesAddUp(journal, starts, ps, k - 1);
      assert SliceAt(journal, starts, ps, k - 1);
      SliceJoins(journal, starts[k - 1], starts[k]);
    }
  }

  lemma RegionsReach(c: Chat, k: nat)
    requires AllPlaced(c) && k <= |c.records|
    ensures Start(c.records, k) <= |c.journal| && JoinedTo(Regions(c), k) == c.journal[..Start(c.records, k)]
    ensures Offset(Regions(c), k) == Start(c.records, k)
  {
    var ps := Regions(c);
    var starts := seq(|c.records| + 1, i requires 0 <= i <= |c.records| => Start(c.records, i));
    forall i | 0 <= i < |ps|
      ensures SliceAt(c.journal, starts, ps, i)
    {
      assert Placed(c, i);
      assert ps[i] == Region(c.journal, c.passes[i].plan);
    }
    SlicesAddUp(c.journal, starts, ps, k);
  }

  /** The folded regions are non-empty, follow one another, and tile exactly the journal before the newest boundary. */
  lemma RegionsTile(evs: seq<Event>)
    ensures NoneEmpty(Regions(RunAll(NEW_CHAT, evs)))
    ensures Joined(Regions(RunAll(NEW_CHAT, evs)))
         == RunAll(NEW_CHAT, evs).journal[..Boundary(RunAll(NEW_CHAT, evs).journal, RunAll(NEW_CHAT, evs).records)]
  {
    var c := RunAll(NEW_CHAT, evs);
    RunStaysTiled(evs);
    TiledRegions(c);
  }

  lemma TiledRegions(c: Chat)
    requires AllPlaced(c)
    ensures NoneEmpty(Regions(c)) && Joined(Regions(c)) == c.journal[..Boundary(c.journal, c.records)]
  {
    RegionsReach(c, |c.records|);
    BoundaryIsStart(c);
    forall i | 0 <= i < |c.passes|
      ensures |Regions(c)[i]| > 0
    {
      assert Placed(c, i);
    }
  }

  /** Message `j` is in the region pass `i` folded. */
  predicate Folds(c: Chat, i: nat, j: nat)
    requires i < |c.passes|
  {
    c.passes[i].plan.from <= j < c.passes[i].plan.upTo
  }

  /** What a pass was given: the summary before it, and a line for every message of its region. */
  lemma PassCarries(c: Chat, i: nat, j: nat)
    requires Tiled(c) && i < |c.passes| && Folds(c, i, j)
    ensures i > 0 ==> Text.Within(c.records[i - 1].summary, c.passes[i].transcript)
    ensures j < |c.journal| && Text.Within(Line(c.journal[j]), c.passes[i].transcript)
    ensures c.journal[j].User? || c.journal[j].Assistant? ==> Text.Within(c.journal[j].text, c.passes[i].transcript)
  {
    hide Line, Transcript, Text.Within, TouchAll, CarriedUpTo;
    assert Placed(c, i);
    CarriedAt(c, |c.records|, i);
    var region, k := Region(c.journal, c.passes[i].plan), j - c.passes[i].plan.from;
    InputCarriesRegion(Before(c.records, i), region);
    assert region[k] == c.journal[j];
    assert Text.Within(LinesOf(region)[k], c.passes[i].transcript);
    if region[k].User? || region[k].Assistant? {
      InputCarriesText(Before(c.records, i), region, k);
    }
  }

  lemma {:induction false} StartsGrow(c: Chat, i: nat, k: nat)
    requires AllPlaced(c) && i <= k <= |c.records|
    ensures Start(c.records, i) <= Start(c.records, k)
    decreases k - i
  {
    if i < k {
      StartsGrow(c, i, k - 1);
      assert Placed(c, k - 1);
    }
  }

  lemma OnePassOnly(c: Chat, i: nat, k: nat, j: nat)
    requires AllPlaced(c) && i < |c.passes| && k < |c.passes| && Folds(c, i, j) && Folds(c, k, j)
    ensures i == k
  {
    assert Placed(c, i) && Placed(c, k);
    if k < i {
      StartsGrow(c, k + 1, i);
    } else if i < k {
      StartsGrow(c, i + 1, k);
    }
  }

  lemma SomePassFolds(c: Chat, j: nat) returns (i: nat)
    requires AllPlaced(c) && j < Boundary(c.journal, c.records)
    ensures i < |c.passes| && Folds(c, i, j)
  {
    BoundaryIsStart(c);
    RegionsReach(c, |c.records|);
    i := Locate(Regions(c), j, |c.records|);
    RegionsReach(c, i);
    RegionsReach(c, i + 1);
    assert Placed(c, i);
  }

  /** A message that is not behind the newest boundary is in the context verbatim, at its place behind the summary. */
  lemma KeptIsVerbatim(c: Chat, j: nat)
    requires Boundary(c.journal, c.records) <= j < |c.journal|
    ensures c.records == [] ==> EffectiveContext(c.journal, c.records)[j] == c.journal[j]
    ensures c.records != [] ==>
              EffectiveContext(c.journal, c.records)[j - Boundary(c.journal, c.records) + 1] == c.journal[j]
  {
  }

  /**
   * Nothing said is unrepresented: a message behind the newest boundary is in the region of exactly one pass, whose
   * input has its line: the full text of a user or an assistant, the shortened form of a call or a result, nothing of
   * reasoning.
   */
  lemma FoldedIsCovered(evs: seq<Event>, c: Chat, j: nat) returns (i: nat)
    requires c == RunAll(NEW_CHAT, evs) && j < Boundary(c.journal, c.records)
    ensures i < |c.passes| && Folds(c, i, j) && forall k :: 0 <= k < |c.passes| && Folds(c, k, j) ==> k == i
    ensures j < |c.journal| && Text.Within(Line(c.journal[j]), c.passes[i].transcript)
    ensures c.journal[j].User? || c.journal[j].Assistant? ==> Text.Within(c.journal[j].text, c.passes[i].transcript)
    ensures |c.records| == |c.passes| && (i > 0 ==> Text.Within(c.records[i - 1].summary, c.passes[i].transcript))
  {
    RunStaysTiled(evs);
    i := SomePassFolds(c, j);
    PassCarries(c, i, j);
    forall k | 0 <= k < |c.passes| && Folds(c, k, j)
      ensures k == i
    {
      OnePassOnly(c, i, k, j);
    }
  }

  /** Every earlier summary is in the next pass's input, so the newest record stands for them all. */
  lemma SummariesChain(evs: seq<Event>, c: Chat, i: nat)
    requires c == RunAll(NEW_CHAT, evs) && 0 < i < |c.passes|
    ensures |c.records| == |c.passes| && Text.Within(c.records[i - 1].summary, c.passes[i].transcript)
  {
    RunStaysTiled(evs);
    assert Placed(c, i);
    PassCarries(c, i, c.passes[i].plan.from);
  }

  /** The newest record's sets are exactly the paths of the read and of the write calls before its boundary. */
  lemma LedgerEqualsOnePass(evs: seq<Event>, c: Chat, r: Record)
    requires c == RunAll(NEW_CHAT, evs) && c.records != [] && r == c.records[|c.records| - 1]
    ensures r.firstKept <= |c.journal|
    ensures forall p ::
              p in r.ledger.read <==>
                exists m :: m in c.journal[..r.firstKept] && Reads(m) && m.args.path.value == p
    ensures forall p ::
              p in r.ledger.modified <==>
                exists m :: m in c.journal[..r.firstKept] && Writes(m) && m.args.path.value == p
    ensures Ordered(r.ledger)
  {
    RunStaysTiled(evs);
    CarriedAt(c, |c.records|, |c.records| - 1);
    TouchAllCollects(c.journal[..r.firstKept]);
  }

  // ----- conversations made of blocks -----

  datatype BlockEvent = SayBlocks(blocks: seq<Block>) | CompactNow(config: Config, model: Model, trigger: Trigger)

  function ToEvent(e: BlockEvent): Event {
    match e
    case SayBlocks(blocks) => Speak(context => context + Joined(Flats(blocks)))
    case CompactNow(config, model, trigger) => Compact(config, model, trigger)
  }

  function ToEvents(es: seq<BlockEvent>): (evs: seq<Event>)
    ensures |evs| == |es| && forall i :: 0 <= i < |es| ==> evs[i] == ToEvent(es[i])
  {
    seq(|es|, i requires 0 <= i < |es| => ToEvent(es[i]))
  }

  function BlocksOf(e: BlockEvent): seq<Block> {
    if e.SayBlocks? then e.blocks else []
  }

  /** The blocks said in the first `k` events. */
  function BlocksTo(es: seq<BlockEvent>, k: nat): seq<Block>
    requires k <= |es|
  {
    if k == 0 then [] else BlocksTo(es, k - 1) + BlocksOf(es[k - 1])
  }

  ghost predicate ValidBlocks(bs: seq<Block>) {
    forall i :: 0 <= i < |bs| ==> ValidBlock(bs[i])
  }

  ghost predicate BoundariesOf(records: seq<Record>, bs: seq<Block>) {
    forall i :: 0 <= i < |records| ==> AtBoundary(Flats(bs), records[i].firstKept)
  }

  lemma FlatsJoin(bs: seq<Block>, more: seq<Block>)
    ensures Flats(bs + more) == Flats(bs) + Flats(more)
  {
    hide Flat;
  }

  /** What is said later changes no boundary of what was said before. */
  lemma SayKeepsBoundaries(records: seq<Record>, bs: seq<Block>, more: seq<Block>)
    requires forall i :: 0 <= i < |records| ==> records[i].firstKept <= |Joined(Flats(bs))|
    ensures BoundariesOf(records, bs + more) <==> BoundariesOf(records, bs)
    ensures Joined(Flats(bs + more)) == Joined(Flats(bs)) + Joined(Flats(more))
  {
    hide Joined, AtBoundary, Flat, Flats;
    FlatsJoin(bs, more);
    JoinedJoins(Flats(bs), Flats(more));
    forall i | 0 <= i < |records|
      ensures AtBoundary(Flats(bs + more), records[i].firstKept) <==> AtBoundary(Flats(bs), records[i].firstKept)
    {
      BoundaryStays(Flats(bs), Flats(more), records[i].firstKept);
    }
  }

  /** The pass is made, and its naive boundary is inside an unled batch of two calls or more. */
  ghost predicate CutsUnled(c: Chat, bs: seq<Block>, e: BlockEvent) {
    && e.CompactNow? && CompactOutcome(c.journal, c.records, e.config, e.model, e.trigger).Made?
    && InsideUnled(Flats(bs), bs, |c.journal| - e.config.keepRecent)
  }

  lemma CompactAddsBoundary(c: Chat, bs: seq<Block>, e: BlockEvent)
    requires AllPlaced(c) && c.journal == Joined(Flats(bs)) && ValidBlocks(bs) && e.CompactNow?
    ensures BoundariesOf(Next(c, ToEvent(e)).records, bs) <==> BoundariesOf(c.records, bs) && !CutsUnled(c, bs, e)
  {
    hide Flats, Joined, AtBoundary, InsideUnled, AllPlaced, ValidBlocks, PlanCompaction, CompactOutcome, Next,
      BoundariesOf;
    RecordsAfter(c, e);
    var outcome := CompactOutcome(c.journal, c.records, e.config, e.model, e.trigger);
    if outcome.Made? {
      BoundariesGrow(c.records, outcome.record, bs);
      if BoundariesOf(c.records, bs) {
        LastIsBoundary(c, bs);
        PlanBoundaryExactly(Flats(bs), bs, c.journal, c.records, e.config.keepRecent);
      }
    }
  }

  lemma RecordsAfter(c: Chat, e: BlockEvent)
    requires e.CompactNow?
    ensures var outcome := CompactOutcome(c.journal, c.records, e.config, e.model, e.trigger);
      && Next(c, ToEvent(e)).journal == c.journal
      && Next(c, ToEvent(e)).records == (if outcome.Made? then c.records + [outcome.record] else c.records)
      && (outcome.Made? ==>
            && PlanCompaction(c.journal, c.records, e.config.keepRecent).Some?
            && outcome.record.firstKept == PlanCompaction(c.journal, c.records, e.config.keepRecent).value.upTo)
  {
    hide PlanCompaction, EffectiveTokens, TouchAll, Transcript, PreviousLedger, Region;
  }

  lemma BoundariesGrow(records: seq<Record>, record: Record, bs: seq<Block>)
    ensures BoundariesOf(records + [record], bs)
       <==> BoundariesOf(records, bs) && AtBoundary(Flats(bs), record.firstKept)
  {
    hide AtBoundary, Flats;
    var longer := records + [record];
    assert longer[|records|] == record;
    if BoundariesOf(longer, bs) {
      forall i | 0 <= i < |records|
        ensures AtBoundary(Flats(bs), records[i].firstKept)
      {
        assert longer[i] == records[i];
      }
    }
  }

  lemma LastIsBoundary(c: Chat, bs: seq<Block>)
    requires AllPlaced(c) && ValidBlocks(bs) && BoundariesOf(c.records, bs)
    ensures AtBoundary(Flats(bs), Boundary(c.journal, c.records)) && MadeOf(Flats(bs), bs)
  {
    hide ValidBlock, Flat;
    var n := |c.records|;
    if n > 0 {
      assert Placed(c, n - 1) && AtBoundary(Flats(bs), c.records[n - 1].firstKept);
    } else {
      StartIsBoundary(Flats(bs));
    }
  }

  lemma NothingCutBySaying(c: Chat, bs: seq<Block>, e: BlockEvent)
    ensures e.SayBlocks? ==> !CutsUnled(c, bs, e)
  {
  }

  lemma PlacedInJournal(c: Chat)
    requires AllPlaced(c)
    ensures forall i :: 0 <= i < |c.records| ==> c.records[i].firstKept <= |c.journal|
  {
    forall i | 0 <= i < |c.records|
      ensures c.records[i].firstKept <= |c.journal|
    {
      assert Placed(c, i);
    }
  }

  /** One event: every boundary still falls between blocks exactly when it did, and no pass cut an unled batch. */
  lemma BlockEventKeepsBoundaries(c: Chat, bs: seq<Block>, e: BlockEvent, after: seq<Block>)
    requires AllPlaced(c) && c.journal == Joined(Flats(bs)) && ValidBlocks(bs)
    requires after == bs + BlocksOf(e)
    ensures Next(c, ToEvent(e)).journal == Joined(Flats(after))
    ensures BoundariesOf(Next(c, ToEvent(e)).records, after)
       <==> BoundariesOf(c.records, bs) && !CutsUnled(c, bs, e)
  {
    hide Joined, Flats, AllPlaced, BoundariesOf, ValidBlocks, CutsUnled, Next, CompactOutcome, PlanCompaction;
    NothingCutBySaying(c, bs, e);
    if e.SayBlocks? {
      SayingAppends(c, e);
      PlacedInJournal(c);
      SayKeepsBoundaries(c.records, bs, e.blocks);
    } else {
      assert after == bs;
      RecordsAfter(c, e);
      CompactAddsBoundary(c, bs, e);
    }
  }

  lemma SayingAppends(c: Chat, e: BlockEvent)
    requires e.SayBlocks?
    ensures Next(c, ToEvent(e)) == c.(journal := c.journal + Joined(Flats(e.blocks)))
  {
    hide EffectiveContext, Joined, Flats;
    var said, context := Joined(Flats(e.blocks)), EffectiveContext(c.journal, c.records);
    TurnAppends(c.journal, c.records, ToEvent(e).turn);
    assert (context + said)[|context|..] == said;
  }

  lemma PrefixStaysValid(before: seq<Block>, all: seq<Block>)
    requires before <= all && ValidBlocks(all)
    ensures ValidBlocks(before)
  {
    hide ValidBlock;
    assert forall i :: 0 <= i < |before| ==> all[i] == before[i];
  }

  lemma RunToStaysPlaced(evs: seq<Event>, k: nat)
    requires k <= |evs|
    ensures AllPlaced(RunTo(NEW_CHAT, evs, k))
  {
    hide Next, RunTo;
    RunToStaysTiled(NEW_CHAT, evs, k);
  }

  lemma NothingSaidYet()
    ensures Joined(Flats([])) == [] && BoundariesOf([], [])
  {
  }

  /** The conversation after the first `k` events. */
  function ChatAt(es: seq<BlockEvent>, k: nat): Chat
    requires k <= |es|
  {
    RunTo(NEW_CHAT, ToEvents(es), k)
  }

  /** No pass among the first `k` events cut an unled batch. */
  ghost predicate NoneCut(es: seq<BlockEvent>, k: nat)
    requires k <= |es|
  {
    forall i :: 0 <= i < k ==> !CutsUnled(ChatAt(es, i), BlocksTo(es, i), es[i])
  }

  lemma NoCutYet(es: seq<BlockEvent>)
    ensures NoneCut(es, 0)
  {
  }

  lemma NoneCutSplits(es: seq<BlockEvent>, k: nat)
    requires 0 < k <= |es|
    ensures NoneCut(es, k) <==> NoneCut(es, k - 1) && !CutsUnled(ChatAt(es, k - 1), BlocksTo(es, k - 1), es[k - 1])
  {
    hide CutsUnled, ChatAt, BlocksTo;
  }

  /**
   * In a conversation made of blocks, every boundary of any number of passes falls between blocks exactly when no pass
   * was made whose naive boundary was inside an unled batch of two calls or more.
   */
  lemma {:induction false} BoundariesExactly(es: seq<BlockEvent>, k: nat)
    requires k <= |es| && ValidBlocks(BlocksTo(es, k))
    ensures ChatAt(es, k).journal == Joined(Flats(BlocksTo(es, k)))
    ensures BoundariesOf(ChatAt(es, k).records, BlocksTo(es, k)) <==> NoneCut(es, k)
    decreases k
  {
    hide Next, AllPlaced, BoundariesOf, ValidBlocks, Joined, Flats, CutsUnled, ToEvents, NoneCut;
    if k == 0 {
      NothingSaidYet();
      NoCutYet(es);
    } else {
      PrefixStaysValid(BlocksTo(es, k - 1), BlocksTo(es, k));
      BoundariesExactly(es, k - 1);
      RunToStaysPlaced(ToEvents(es), k - 1);
      BlockEventKeepsBoundaries(ChatAt(es, k - 1), BlocksTo(es, k - 1), es[k - 1], BlocksTo(es, k));
      NoneCutSplits(es, k);
    }
  }

  ghost predicate NoUnled(bs: seq<Block>) {
    forall i :: 0 <= i < |bs| ==> !Unled(bs[i])
  }

  lemma {:induction false} BlocksGrow(es: seq<BlockEvent>, i: nat, k: nat)
    requires i <= k <= |es|
    ensures BlocksTo(es, i) <= BlocksTo(es, k)
    decreases k
  {
    hide BlocksOf;
    if i < k {
      BlocksGrow(es, i, k - 1);
    }
  }

  /** So without unled batches of two calls or more, every boundary does. */
  lemma EveryBoundaryBetweenBlocks(es: seq<BlockEvent>, k: nat)
    requires k <= |es| && ValidBlocks(BlocksTo(es, k)) && NoUnled(BlocksTo(es, k))
    ensures BoundariesOf(ChatAt(es, k).records, BlocksTo(es, k))
  {
    hide BoundariesOf, ValidBlocks, Flats, ChatAt, Unled;
    BoundariesExactly(es, k);
    forall i | 0 <= i < k
      ensures !CutsUnled(ChatAt(es, i), BlocksTo(es, i), es[i])
    {
      BlocksGrow(es, i, k);
      assert forall j :: 0 <= j < |BlocksTo(es, i)| ==> BlocksTo(es, i)[j] == BlocksTo(es, k)[j];
    }
  }
}
