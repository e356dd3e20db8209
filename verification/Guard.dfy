/** The step guard: error spirals and loops, told from a bounded window of recent calls (src/guard.rs). */
module Guard {
  import opened Prelude
  import opened Text
  import opened Messages

  /** The guard's configuration. `hash` is the hash of a call's name and serialized arguments, whatever it is. */
  datatype Config = Config(
    maxConsecutiveErrors: nat,
    maxIdenticalRepeats: nat,
    maxPollRepeats: nat,
    pollTools: set<string>,
    hash: (string, string) -> nat)
  {
    /** How many identical calls in a row a tool is allowed; 0 is no limit. */
    function Limit(tool: string): nat {
      if tool in pollTools then maxPollRepeats else maxIdenticalRepeats
    }

    /** How many calls the window holds. */
    function Keep(): nat {
      var most := if maxIdenticalRepeats >= maxPollRepeats then maxIdenticalRepeats else maxPollRepeats;
      if most >= 1 then most else 1
    }
  }

  /** A remembered call. */
  datatype Entry = Entry(id: string, hash: nat)

  datatype NewCall = NewCall(entry: Entry, name: string)

  datatype Action = Continue | ErrorSpiral(turns: nat) | Loop(tool: string, times: nat)

  /** A result that stands for a call that was denied or interrupted, and so never ran. */
  predicate IsDenial(result: string) {
    || Contains(result, "User denied tool")
    || Contains(result, "interrupted by user")
    || Contains(result, "Failed to read approval input")
  }

  predicate IsError(result: string) {
    "ERROR:" <= result
  }

  // ----- what a batch of messages holds -----

  function CallsIn(g: Config, batch: seq<Message>, k: nat): seq<NewCall>
    requires k <= |batch|
  {
    if k == 0 then []
    else
      CallsIn(g, batch, k - 1)
      + match batch[k - 1]
        case ToolCall(id, name, args) => [NewCall(Entry(id, g.hash(name, args.text)), name)]
        case _ => []
  }

  function DeniedIn(batch: seq<Message>, k: nat): set<string>
    requires k <= |batch|
  {
    if k == 0 then {}
    else
      DeniedIn(batch, k - 1)
      + if batch[k - 1].ToolResult? && IsDenial(batch[k - 1].result) then {batch[k - 1].id} else {}
  }

  /** Whether each executed call's result is an error. */
  function ResultsIn(batch: seq<Message>, k: nat): seq<bool>
    requires k <= |batch|
  {
    if k == 0 then []
    else
      ResultsIn(batch, k - 1)
      + if batch[k - 1].ToolResult? && !IsDenial(batch[k - 1].result) then [IsError(batch[k - 1].result)] else []
  }

  function Retained(entries: seq<Entry>, denied: set<string>, k: nat): (kept: seq<Entry>)
    requires k <= |entries|
    ensures |kept| <= k && forall e :: e in kept ==> e.id !in denied
  {
    if k == 0 then []
    else Retained(entries, denied, k - 1) + if entries[k - 1].id in denied then [] else [entries[k - 1]]
  }

  /** The calls left once the denied ones are retracted. */
  function Retain(entries: seq<Entry>, denied: set<string>): (kept: seq<Entry>)
    ensures |kept| <= |entries| && forall e :: e in kept ==> e.id !in denied
  {
    Retained(entries, denied, |entries|)
  }

  function ExecutedTo(calls: seq<NewCall>, denied: set<string>, k: nat): seq<NewCall>
    requires k <= |calls|
  {
    if k == 0 then []
    else ExecutedTo(calls, denied, k - 1) + if calls[k - 1].entry.id in denied then [] else [calls[k - 1]]
  }

  function Executed(calls: seq<NewCall>, denied: set<string>): seq<NewCall> {
    ExecutedTo(calls, denied, |calls|)
  }

  function Entries(calls: seq<NewCall>): (entries: seq<Entry>)
    ensures |entries| == |calls| && forall i :: 0 <= i < |calls| ==> entries[i] == calls[i].entry
  {
    seq(|calls|, i requires 0 <= i < |calls| => calls[i].entry)
  }

  function Hashes(entries: seq<Entry>): (hashes: seq<nat>)
    ensures |hashes| == |entries| && forall i :: 0 <= i < |entries| ==> hashes[i] == entries[i].hash
  {
    seq(|entries|, i requires 0 <= i < |entries| => entries[i].hash)
  }

  /** How many of the last elements of `s` are `x`, up to the first that is not. */
  function Streak<T(==)>(s: seq<T>, x: T): (n: nat)
    ensures n <= |s| && forall i :: |s| - n <= i < |s| ==> s[i] == x
    ensures n < |s| ==> s[|s| - n - 1] != x
  {
    if s != [] && s[|s| - 1] == x then Streak(s[..|s| - 1], x) + 1 else 0
  }

  // ----- one check -----

  /** What the guard remembers between checks. */
  datatype Memory = Memory(seen: nat, errors: nat, recent: seq<Entry>)

  datatype Outcome = Outcome(memory: Memory, action: Action)

  function AllErrors(results: seq<bool>): bool {
    forall i :: 0 <= i < |results| ==> results[i]
  }

  /** The error counter after a batch with these results. */
  function ErrorTurns(g: Config, errors: nat, results: seq<bool>): nat {
    if g.maxConsecutiveErrors == 0 || results == [] then errors
    else if AllErrors(results) then errors + 1 else 0
  }

  predicate Spirals(g: Config, turns: nat, results: seq<bool>) {
    g.maxConsecutiveErrors > 0 && results != [] && turns >= g.maxConsecutiveErrors
  }

  predicate Loops(g: Config, kept: seq<Entry>, call: NewCall) {
    0 < g.Limit(call.name) <= Streak(Hashes(kept), call.entry.hash)
  }

  /** The verdict on a batch's executed calls and results, given the remembered calls that survive its denials. */
  function Judged(g: Config, m: Memory, kept: seq<Entry>, calls: seq<NewCall>, results: seq<bool>): Outcome {
    var turns := ErrorTurns(g, m.errors, results);
    if Spirals(g, turns, results) then Outcome(Memory(m.seen, turns, kept), ErrorSpiral(turns))
    else if calls == [] then Outcome(Memory(m.seen, turns, kept), Continue)
    else if Loops(g, kept, calls[0]) then
      Outcome(Memory(m.seen, turns, kept), Loop(calls[0].name, Streak(Hashes(kept), calls[0].entry.hash) + 1))
    else Outcome(Memory(m.seen, turns, Newest(kept + Entries(calls), g.Keep())), Continue)
  }

  /** The check of one batch, given the memory it starts from. */
  function OnBatch(g: Config, m: Memory, batch: seq<Message>): Outcome {
    var denied := DeniedIn(batch, |batch|);
    Judged(g, m, Retain(m.recent, denied), Executed(CallsIn(g, batch, |batch|), denied), ResultsIn(batch, |batch|))
  }

  /** The memory a check of a list of `n` messages starts from: nothing, if the list shrank. */
  function Clamped(m: Memory, n: nat): Memory {
    if m.seen > n then Memory(0, 0, []) else m
  }

  function Checked(g: Config, m: Memory, messages: seq<Message>): Outcome {
    var was := Clamped(m, |messages|);
    OnBatch(g, was.(seen := |messages|), messages[was.seen..])
  }

  class GuardTracker {
    const config: Config
    var seenUpTo: nat
    var consecutiveErrorTurns: nat
    var recentCalls: seq<Entry>

    ghost function Remembered(): Memory
      reads this
    {
      Memory(seenUpTo, consecutiveErrorTurns, recentCalls)
    }

    constructor (config: Config)
      ensures this.config == config && Remembered() == Memory(0, 0, [])
    {
      this.config := config;
      seenUpTo, consecutiveErrorTurns, recentCalls := 0, 0, [];
    }

    /** Inspect what the conversation gained since the last check. */
    method Check(messages: seq<Message>) returns (action: Action)
      modifies this
      ensures Outcome(Remembered(), action) == Checked(config, old(Remembered()), messages)
    {
      hide Streak, Newest, IsDenial, IsError;
      if seenUpTo > |messages| {
        seenUpTo, consecutiveErrorTurns, recentCalls := 0, 0, [];
      }
      var batch := messages[seenUpTo..];
      seenUpTo := |messages|;
      ghost var was := Remembered();
      action := CheckBatch(batch);
      assert was == Clamped(old(Remembered()), |messages|).(seen := |messages|);
    }

    method CheckBatch(batch: seq<Message>) returns (action: Action)
      modifies this
      ensures Outcome(Remembered(), action) == OnBatch(config, old(Remembered()), batch)
    {
      hide Streak, Newest, IsDenial, IsError, CallsIn, DeniedIn, ResultsIn, Executed, Retain, Hashes, Entries;
      var calls, denied, results := Collect(config, batch);
      if denied != {} {
        calls := RetainExecuted(calls, denied);
        recentCalls := RetainEntries(recentCalls, denied);
      } else {
        NothingDenied(calls, recentCalls);
      }
      if config.maxConsecutiveErrors > 0 && results != [] {
        if AllErrors(results) {
          consecutiveErrorTurns := consecutiveErrorTurns + 1;
        } else {
          consecutiveErrorTurns := 0;
        }
        if consecutiveErrorTurns >= config.maxConsecutiveErrors {
          return ErrorSpiral(consecutiveErrorTurns);
        }
      }
      if calls != [] {
        var limit := config.Limit(calls[0].name);
        if limit > 0 {
          var streak := CountStreak(recentCalls, calls[0].entry.hash);
          if streak >= limit {
            return Loop(calls[0].name, streak + 1);
          }
        }
        recentCalls := recentCalls + Entries(calls);
        recentCalls := Newest(recentCalls, config.Keep());
      }
      return Continue;
    }
  }

  method Collect(g: Config, batch: seq<Message>) returns (calls: seq<NewCall>, denied: set<string>, results: seq<bool>)
    ensures calls == CallsIn(g, batch, |batch|) && denied == DeniedIn(batch, |batch|)
        && results == ResultsIn(batch, |batch|)
  {
    hide IsDenial, IsError;
    calls, denied, results := [], {}, [];
    for i := 0 to |batch|
      invariant calls == CallsIn(g, batch, i) && denied == DeniedIn(batch, i) && results == ResultsIn(batch, i)
    {
      match batch[i] {
        case ToolCall(id, name, args) =>
          calls := calls + [NewCall(Entry(id, g.hash(name, args.text)), name)];
        case ToolResult(id, name, result) =>
          if IsDenial(result) {
            denied := denied + {id};
          } else {
            results := results + [IsError(result)];
          }
        case _ =>
      }
    }
  }

  method RetainExecuted(calls: seq<NewCall>, denied: set<string>) returns (kept: seq<NewCall>)
    ensures kept == Executed(calls, denied)
  {
    kept := [];
    for i := 0 to |calls|
      invariant kept == ExecutedTo(calls, denied, i)
    {
      if calls[i].entry.id !in denied {
        kept := kept + [calls[i]];
      }
    }
  }

  method RetainEntries(entries: seq<Entry>, denied: set<string>) returns (kept: seq<Entry>)
    ensures kept == Retain(entries, denied)
  {
    kept := [];
    for i := 0 to |entries|
      invariant kept == Retained(entries, denied, i)
    {
      if entries[i].id !in denied {
        kept := kept + [entries[i]];
      }
    }
  }

  /** How many of the most recent calls have this hash. */
  method CountStreak(entries: seq<Entry>, hash: nat) returns (streak: nat)
    ensures streak == Streak(Hashes(entries), hash)
  {
    streak := 0;
    while streak < |entries| && entries[|entries| - streak - 1].hash == hash
      invariant streak <= |entries|
      invariant forall i :: |entries| - streak <= i < |entries| ==> entries[i].hash == hash
    {
      streak := streak + 1;
    }
    StreakIsLongest(Hashes(entries), hash, streak);
  }

  lemma StreakIsLongest<T>(s: seq<T>, x: T, n: nat)
    requires n <= |s| && forall i :: |s| - n <= i < |s| ==> s[i] == x
    requires n < |s| ==> s[|s| - n - 1] != x
    ensures Streak(s, x) == n
  {
  }

  lemma NothingDenied(calls: seq<NewCall>, entries: seq<Entry>)
    ensures Executed(calls, {}) == calls && Retain(entries, {}) == entries
  {
    AllExecuted(calls, |calls|);
    AllRetained(entries, {}, |entries|);
    assert calls[..|calls|] == calls && entries[..|entries|] == entries;
  }

  lemma {:induction false} AllExecuted(calls: seq<NewCall>, k: nat)
    requires k <= |calls|
    ensures ExecutedTo(calls, {}, k) == calls[..k]
    decreases k
  {
    if k > 0 {
      AllExecuted(calls, k - 1);
    }
  }

  lemma {:induction false} AllRetained(entries: seq<Entry>, denied: set<string>, k: nat)
    requires k <= |entries| && forall e :: e in entries ==> e.id !in denied
    ensures Retained(entries, denied, k) == entries[..k]
    decreases k
  {
    if k > 0 {
      AllRetained(entries, denied, k - 1);
    }
  }

  // ----- what the configuration and the texts mean -----

  /** A verdict by the configured numbers: status polls have their own limit, and 0 is none. */
  lemma LoopsByTool(g: Config, kept: seq<Entry>, call: NewCall)
    ensures call.name in g.pollTools ==>
              (Loops(g, kept, call) <==> 0 < g.maxPollRepeats <= Streak(Hashes(kept), call.entry.hash))
    ensures call.name !in g.pollTools ==>
              (Loops(g, kept, call) <==> 0 < g.maxIdenticalRepeats <= Streak(Hashes(kept), call.entry.hash))
  {
    hide Streak, Hashes;
  }

  /** The window holds as many calls as either limit, and no more than it takes. */
  lemma WindowCoversLimits(g: Config)
    ensures g.Keep() >= g.maxIdenticalRepeats && g.Keep() >= g.maxPollRepeats && g.Keep() >= 1
    ensures g.Keep() in {g.maxIdenticalRepeats, g.maxPollRepeats, 1}
  {
  }

  /** A result is a denial exactly when one of the three phrases stands in it. */
  lemma DenialsByPhrase(result: string)
    ensures IsDenial(result) <==>
      || Within("User denied tool", result) || Within("interrupted by user", result)
      || Within("Failed to read approval input", result)
  {
    hide Within, Contains;
    ContainsIsWithin(result, "User denied tool");
    ContainsIsWithin(result, "interrupted by user");
    ContainsIsWithin(result, "Failed to read approval input");
  }

  lemma ErrorsByPrefix(result: string)
    ensures IsError(result) <==> exists rest: string :: result == "ERROR:" + rest
  {
    if IsError(result) {
      assert result == "ERROR:" + result[6..];
    }
  }

  /** One executed call that did not fail clears the error counter; a batch of failures alone raises it by one. */
  lemma OneSuccessClears(g: Config, m: Memory, batch: seq<Message>, i: nat)
    requires g.maxConsecutiveErrors > 0 && i < |batch| && batch[i].ToolResult? && !IsDenial(batch[i].result)
    ensures !IsError(batch[i].result) ==>
              OnBatch(g, m, batch).memory.errors == 0 && !OnBatch(g, m, batch).action.ErrorSpiral?
    ensures (forall j :: 0 <= j < |batch| && batch[j].ToolResult? && !IsDenial(batch[j].result) ==>
              IsError(batch[j].result)) ==> OnBatch(g, m, batch).memory.errors == m.errors + 1
  {
    hide IsDenial, IsError, CallsIn, DeniedIn, Executed, Retain, Loops, Newest, Entries;
    var p := ResultStands(batch, |batch|, i);
    AllErrorsWhenAll(batch, |batch|);
  }

  lemma {:induction false} ResultStands(batch: seq<Message>, k: nat, i: nat) returns (p: nat)
    requires i < k <= |batch| && batch[i].ToolResult? && !IsDenial(batch[i].result)
    ensures p < |ResultsIn(batch, k)| && ResultsIn(batch, k)[p] == IsError(batch[i].result)
    decreases k
  {
    hide IsDenial, IsError;
    if i < k - 1 {
      p := ResultStands(batch, k - 1, i);
    } else {
      p := |ResultsIn(batch, k)| - 1;
    }
  }

  lemma {:induction false} AllErrorsWhenAll(batch: seq<Message>, k: nat)
    requires k <= |batch|
    ensures (forall j :: 0 <= j < k && batch[j].ToolResult? && !IsDenial(batch[j].result) ==> IsError(batch[j].result))
              ==> AllErrors(ResultsIn(batch, k))
    decreases k
  {
    hide IsDenial, IsError;
    if k > 0 {
      AllErrorsWhenAll(batch, k - 1);
    }
  }

  /** What a stop says: the tool and how often it was called in a row, or how many turns failed. */
  lemma StopsSay(g: Config, m: Memory, batch: seq<Message>)
    ensures var o := OnBatch(g, m, batch);
      var denied := DeniedIn(batch, |batch|);
      var calls := Executed(CallsIn(g, batch, |batch|), denied);
      && (o.action.ErrorSpiral? ==> o.action.turns == o.memory.errors >= g.maxConsecutiveErrors > 0)
      && (o.action.Loop? ==>
            && calls != [] && o.action.tool == calls[0].name
            && o.action.times == Streak(Hashes(Retain(m.recent, denied)), calls[0].entry.hash) + 1)
  {
    hide CallsIn, DeniedIn, ResultsIn, Executed, Retain, Hashes, Streak, Entries, Newest, ErrorTurns;
  }
}
