/** The guard's bounded window against the whole history of executed calls (src/guard.rs). */
module GuardWindow {
  import opened Prelude
  import opened Messages
  import opened Guard
  import opened GuardRuns
  import opened GuardHistory

  // ----- the history, with what a stopping check missed -----

  /** A call of the history, and whether it was never remembered because its batch was stopped. */
  datatype Told = Told(entry: Entry, missed: bool)

  predicate Stopped(g: Config, views: seq<seq<Message>>, k: nat)
    requires k < |views|
  {
    ActionAt(g, views, k) != Continue
  }

  function LogRetained(log: seq<Told>, denied: set<string>, k: nat): seq<Told>
    requires k <= |log|
  {
    if k == 0 then []
    else LogRetained(log, denied, k - 1) + if log[k - 1].entry.id in denied then [] else [log[k - 1]]
  }

  function LogRetain(log: seq<Told>, denied: set<string>): seq<Told> {
    LogRetained(log, denied, |log|)
  }

  function Tell(calls: seq<NewCall>, missed: bool): (log: seq<Told>)
    ensures |log| == |calls| && forall i :: 0 <= i < |calls| ==> log[i] == Told(calls[i].entry, missed)
  {
    seq(|calls|, i requires 0 <= i < |calls| => Told(calls[i].entry, missed))
  }

  function PriorLog(g: Config, views: seq<seq<Message>>, k: nat): seq<Told>
    requires k < |views|
    decreases k, 1
  {
    LogRetain(if ResetAt(views, k) then [] else Log(g, views, k), DeniedAt(views, k))
  }

  /** The history, each call with whether the check of its batch stopped the run. */
  function Log(g: Config, views: seq<seq<Message>>, k: nat): seq<Told>
    requires k <= |views|
    decreases k, 0
  {
    if k == 0 then [] else PriorLog(g, views, k - 1) + Tell(CallsAt(g, views, k - 1), Stopped(g, views, k - 1))
  }

  /** Every call of a log. */
  function Whole(log: seq<Told>): (entries: seq<Entry>)
    ensures |entries| == |log| && forall i :: 0 <= i < |log| ==> entries[i] == log[i].entry
  {
    seq(|log|, i requires 0 <= i < |log| => log[i].entry)
  }

  function NotedTo(log: seq<Told>, k: nat): (entries: seq<Entry>)
    requires k <= |log|
    ensures |entries| <= k
  {
    if k == 0 then [] else NotedTo(log, k - 1) + if log[k - 1].missed then [] else [log[k - 1].entry]
  }

  /** A log's calls but for those of stopped batches. */
  function Noted(log: seq<Told>): (entries: seq<Entry>)
    ensures |entries| <= |log|
  {
    NotedTo(log, |log|)
  }

  // ----- logs -----

  lemma {:induction false} WholeRetained(log: seq<Told>, denied: set<string>, k: nat)
    requires k <= |log|
    ensures Whole(LogRetained(log, denied, k)) == Retained(Whole(log), denied, k)
    decreases k
  {
    if k > 0 {
      WholeRetained(log, denied, k - 1);
    }
  }

  lemma {:induction false} NotedPrefix(a: seq<Told>, b: seq<Told>, k: nat)
    requires k <= |a|
    ensures NotedTo(a + b, k) == NotedTo(a, k)
    decreases k
  {
    if k > 0 {
      NotedPrefix(a, b, k - 1);
    }
  }

  lemma NotedGrows(log: seq<Told>, t: Told)
    ensures Noted(log + [t]) == Noted(log) + if t.missed then [] else [t.entry]
  {
    NotedPrefix(log, [t], |log|);
  }

  lemma {:induction false} NotedRetained(log: seq<Told>, denied: set<string>, k: nat)
    requires k <= |log|
    ensures Noted(LogRetained(log, denied, k)) == Retain(NotedTo(log, k), denied)
    decreases k
  {
    hide Retain, Noted;
    if k == 0 {
      RetainNothing(denied);
      NothingNoted();
    } else {
      NotedRetained(log, denied, k - 1);
      var t, before := log[k - 1], LogRetained(log, denied, k - 1);
      NotedGrows(before, t);
      RetainGrows(NotedTo(log, k - 1), t.entry, denied);
      KeepsWhenDropped(before, NotedTo(log, k - 1));
    }
  }

  lemma NothingNoted()
    ensures Noted([]) == []
  {
  }

  lemma KeepsWhenDropped(log: seq<Told>, entries: seq<Entry>)
    ensures log + [] == log && entries + [] == entries
  {
  }

  lemma {:induction false} NotedTells(log: seq<Told>, calls: seq<NewCall>, missed: bool, k: nat)
    requires k <= |calls|
    ensures Noted(log + Tell(calls, missed)[..k]) == if missed then Noted(log) else Noted(log) + Entries(calls)[..k]
    decreases k
  {
    hide Noted, Entries, Tell;
    var told := Tell(calls, missed);
    if k == 0 {
      assert log + told[..0] == log && Noted(log) + Entries(calls)[..0] == Noted(log);
    } else {
      NotedTells(log, calls, missed, k - 1);
      assert log + told[..k] == (log + told[..k - 1]) + [told[k - 1]];
      NotedGrows(log + told[..k - 1], told[k - 1]);
      assert Noted(log) + Entries(calls)[..k] == Noted(log) + Entries(calls)[..k - 1] + [calls[k - 1].entry];
    }
  }

  /** What a batch adds to the calls of a log that are noted. */
  lemma NotedJoins(log: seq<Told>, calls: seq<NewCall>, missed: bool)
    ensures Noted(log + Tell(calls, missed)) == if missed then Noted(log) else Noted(log) + Entries(calls)
  {
    hide Noted, Entries, Tell;
    NotedTells(log, calls, missed, |calls|);
    assert Entries(calls)[..|calls|] == Entries(calls) && Tell(calls, missed)[..|calls|] == Tell(calls, missed);
  }

  lemma WholeJoins(log: seq<Told>, calls: seq<NewCall>, missed: bool)
    ensures Whole(log + Tell(calls, missed)) == Whole(log) + Entries(calls)
  {
  }

  /** The log is the history, told with more detail. */
  lemma {:induction false} LogIsHistory(g: Config, views: seq<seq<Message>>, k: nat)
    requires k <= |views|
    ensures Whole(Log(g, views, k)) == History(g, views, k)
    decreases k, 0
  {
    hide Retain, Executed, Stopped, DeniedAt, CallsAt, ResetAt, LogRetain, PriorLog, PriorTo;
    if k > 0 {
      PriorLogIsHistory(g, views, k - 1);
      WholeJoins(PriorLog(g, views, k - 1), CallsAt(g, views, k - 1), Stopped(g, views, k - 1));
    }
  }

  lemma {:induction false} PriorLogIsHistory(g: Config, views: seq<seq<Message>>, k: nat)
    requires k < |views|
    ensures Whole(PriorLog(g, views, k)) == PriorTo(g, views, k)
    decreases k, 1
  {
    hide LogRetained, Retained, DeniedAt, ResetAt, Log, History;
    LogIsHistory(g, views, k);
    var log := if ResetAt(views, k) then [] else Log(g, views, k);
    WholeRetained(log, DeniedAt(views, k), |log|);
  }

  // ----- the window is a suffix of the history -----

  ghost predicate IsSuffix<T>(a: seq<T>, b: seq<T>) {
    |a| <= |b| && a == b[|b| - |a|..]
  }

  lemma SuffixSplits<T>(a: seq<T>, b: seq<T>)
    requires IsSuffix(a, b)
    ensures b == b[..|b| - |a|] + a
  {
  }

  lemma RetainKeepsSuffix(a: seq<Entry>, b: seq<Entry>, denied: set<string>)
    requires IsSuffix(a, b)
    ensures IsSuffix(Retain(a, denied), Retain(b, denied))
  {
    hide Retain;
    var lead := b[..|b| - |a|];
    SuffixSplits(a, b);
    RetainJoins(lead, a, denied);
    AppendedIsSuffix(Retain(lead, denied), Retain(a, denied));
  }

  lemma AppendedIsSuffix<T>(a: seq<T>, b: seq<T>)
    ensures IsSuffix(b, a + b)
  {
  }

  lemma NewestIsSuffix<T>(a: seq<T>, b: seq<T>, c: seq<T>, n: nat)
    requires IsSuffix(a, b)
    ensures IsSuffix(Newest(a + c, n), b + c) && |Newest(a + c, n)| <= n
  {
    SuffixSplits(a, b);
    assert b + c == b[..|b| - |a|] + (a + c);
  }

  /** What a check that continues leaves in the window. */
  lemma WindowAfter(g: Config, m: Memory, batch: seq<Message>)
    requires OnBatch(g, m, batch).action == Continue && |m.recent| <= g.Keep()
    ensures var denied := DeniedIn(batch, |batch|);
      OnBatch(g, m, batch).memory.recent
        == Newest(Retain(m.recent, denied) + Entries(Executed(CallsIn(g, batch, |batch|), denied)), g.Keep())
  {
    hide Retain, Entries, Executed, CallsIn, DeniedIn, ResultsIn, Spirals, Loops, ErrorTurns;
    var denied := DeniedIn(batch, |batch|);
    var calls := Executed(CallsIn(g, batch, |batch|), denied);
    if calls == [] {
      assert Retain(m.recent, denied) + Entries(calls) == Retain(m.recent, denied);
    }
  }

  /** What a check that stops leaves in the window: nothing new. */
  lemma WindowAtStop(g: Config, m: Memory, batch: seq<Message>)
    requires OnBatch(g, m, batch).action != Continue
    ensures OnBatch(g, m, batch).memory.recent == Retain(m.recent, DeniedIn(batch, |batch|))
  {
    hide Retain, Executed, CallsIn, DeniedIn, ResultsIn, Judged;
    var denied := DeniedIn(batch, |batch|);
    JudgedAtStop(g, m, Retain(m.recent, denied), Executed(CallsIn(g, batch, |batch|), denied),
      ResultsIn(batch, |batch|));
  }

  lemma JudgedAtStop(g: Config, m: Memory, kept: seq<Entry>, calls: seq<NewCall>, results: seq<bool>)
    requires Judged(g, m, kept, calls, results).action != Continue
    ensures Judged(g, m, kept, calls, results).memory.recent == kept
  {
    hide Entries, Newest, Spirals, Loops, ErrorTurns, Streak, Hashes;
  }

  /**
   * In every run, stopped or not, the window holds the newest calls of the history but for those of stopped batches,
   * and is no longer than it is allowed to be.
   */
  lemma {:induction false} WindowIsSuffix(g: Config, views: seq<seq<Message>>, k: nat)
    requires k <= |views|
    ensures IsSuffix(Before(g, views, k).recent, Noted(Log(g, views, k)))
    ensures |Before(g, views, k).recent| <= g.Keep()
    decreases k, 0
  {
    hide OnBatch, Retain, Entries, Executed, CallsIn, DeniedIn, Newest, Noted, LogRetain, PriorLog, ResetAt, BatchAt;
    if k == 0 {
      NothingNoted();
    } else {
      StartIsSuffix(g, views, k - 1);
      BatchIs(g, views, k - 1);
      var m, log, calls := Start(g, views, k - 1), PriorLog(g, views, k - 1), CallsAt(g, views, k - 1);
      NotedJoins(log, calls, Stopped(g, views, k - 1));
      if Stopped(g, views, k - 1) {
        WindowAtStop(g, m, BatchAt(views, k - 1));
        RetainShortens(m.recent, DeniedAt(views, k - 1));
      } else {
        WindowAfter(g, m, BatchAt(views, k - 1));
        NewestIsSuffix(Retain(m.recent, DeniedAt(views, k - 1)), Noted(log), Entries(calls), g.Keep());
      }
    }
  }

  lemma RetainShortens(entries: seq<Entry>, denied: set<string>)
    ensures |Retain(entries, denied)| <= |entries|
  {
  }

  /** The calls of the window that survive check `k`'s denials. */
  function Kept(g: Config, views: seq<seq<Message>>, k: nat): seq<Entry>
    requires k < |views|
  {
    Retain(Start(g, views, k).recent, DeniedAt(views, k))
  }

  lemma {:induction false} StartIsSuffix(g: Config, views: seq<seq<Message>>, k: nat)
    requires k < |views|
    ensures |Start(g, views, k).recent| <= g.Keep()
    ensures IsSuffix(Kept(g, views, k), Noted(PriorLog(g, views, k)))
    decreases k, 1
  {
    hide Retain, Before, Log, Checked, LogRetained, NotedTo, DeniedAt, ResetAt;
    WindowIsSuffix(g, views, k);
    BatchIs(g, views, k);
    NothingNoted();
    var log := if ResetAt(views, k) then [] else Log(g, views, k);
    NotedRetained(log, DeniedAt(views, k), |log|);
    RetainKeepsSuffix(Start(g, views, k).recent, Noted(log), DeniedAt(views, k));
  }

  // ----- loop stops -----

  /** The streak at the end of a suffix is the streak of the whole, as far as the suffix reaches. */
  lemma StreakOfSuffix<T>(a: seq<T>, b: seq<T>, x: T)
    requires IsSuffix(a, b)
    ensures Streak(a, x) == if Streak(b, x) <= |a| then Streak(b, x) else |a|
  {
    hide Streak;
    var n, d := Streak(b, x), |b| - |a|;
    var expected := if n <= |a| then n else |a|;
    assert forall i :: 0 <= i < |a| ==> a[i] == b[d + i];
    StreakIsLongest(a, x, expected);
  }

  /** The batch's first executed call ends a run of more than its tool's limit of identical calls. */
  predicate RepeatsAfter(g: Config, views: seq<seq<Message>>, k: nat, prior: seq<Entry>)
    requires k < |views|
  {
    && CallsAt(g, views, k) != []
    && 0 < g.Limit(CallsAt(g, views, k)[0].name) <= Streak(Hashes(prior), CallsAt(g, views, k)[0].entry.hash)
  }

  /** It does so in the whole history. */
  predicate Repeats(g: Config, views: seq<seq<Message>>, k: nat)
    requires k < |views|
  {
    RepeatsAfter(g, views, k, PriorTo(g, views, k))
  }

  /** It does so in the history without the calls of stopped batches. */
  predicate RepeatsNoted(g: Config, views: seq<seq<Message>>, k: nat)
    requires k < |views|
  {
    RepeatsAfter(g, views, k, Noted(PriorLog(g, views, k)))
  }

  lemma HashesOfSuffix(a: seq<Entry>, b: seq<Entry>)
    requires IsSuffix(a, b)
    ensures IsSuffix(Hashes(a), Hashes(b))
  {
  }

  lemma LoopsIsStreak(g: Config, kept: seq<Entry>, prior: seq<Entry>, call: NewCall)
    requires IsSuffix(kept, prior)
    ensures Loops(g, kept, call) <==>
      && 0 < g.Limit(call.name) <= Streak(Hashes(prior), call.entry.hash)
      && g.Limit(call.name) <= |kept|
  {
    hide Hashes, Streak;
    HashesOfSuffix(kept, prior);
    StreakOfSuffix(Hashes(kept), Hashes(prior), call.entry.hash);
  }

  /**
   * In every run, a check stops for a loop exactly when it does not stop for an error spiral, the calls of the batches
   * that were not stopped repeat, and the window still holds as many calls as the limit.
   */
  lemma LoopStopsExactly(g: Config, views: seq<seq<Message>>, k: nat)
    requires k < |views|
    ensures ActionAt(g, views, k).Loop? <==>
      && !ActionAt(g, views, k).ErrorSpiral? && RepeatsNoted(g, views, k)
      && g.Limit(CallsAt(g, views, k)[0].name) <= |Kept(g, views, k)|
  {
    hide Hashes, Streak, Retain, Executed, Before, PriorLog, Noted, DeniedIn, CallsIn, ResultsIn;
    StartIsSuffix(g, views, k);
    BatchIs(g, views, k);
    if CallsAt(g, views, k) != [] {
      LoopsIsStreak(g, Kept(g, views, k), Noted(PriorLog(g, views, k)), CallsAt(g, views, k)[0]);
    }
  }

  /** By the configured numbers: a status poll is held to its own limit, any other tool to the ordinary one. */
  lemma LoopStopsByTool(g: Config, views: seq<seq<Message>>, k: nat, limit: nat)
    requires k < |views| && CallsAt(g, views, k) != []
    requires CallsAt(g, views, k)[0].name in g.pollTools ==> limit == g.maxPollRepeats
    requires CallsAt(g, views, k)[0].name !in g.pollTools ==> limit == g.maxIdenticalRepeats
    ensures ActionAt(g, views, k).Loop? <==>
      && !ActionAt(g, views, k).ErrorSpiral? && limit <= |Kept(g, views, k)|
      && 0 < limit <= Streak(Hashes(Noted(PriorLog(g, views, k))), CallsAt(g, views, k)[0].entry.hash)
  {
    hide ActionAt, CallsAt, Kept, PriorLog, Noted, Streak, Hashes;
    LoopStopsExactly(g, views, k);
  }

  /** Of a call that was not missed: its place among the noted ones is no further from the end than in the log. */
  lemma {:induction false} NotedAt(log: seq<Told>, i: nat, k: nat)
    requires i < k <= |log| && !log[i].missed
    ensures |NotedTo(log, i)| < |NotedTo(log, k)| && |NotedTo(log, k)| - |NotedTo(log, i)| <= k - i
    ensures NotedTo(log, k)[|NotedTo(log, i)|] == log[i].entry
    decreases k
  {
    if i < k - 1 {
      NotedAt(log, i, k - 1);
    }
  }

  /** The missed calls among the last `n` of a log have this hash. */
  ghost predicate MissedAlike(log: seq<Told>, n: nat, hash: nat) {
    forall i :: 0 <= i < |log| && |log| - n <= i && log[i].missed ==> log[i].entry.hash == hash
  }

  /** When the noted calls end in `n` alike, all calls do exactly when the missed ones among them are alike too. */
  lemma WholeStreak(log: seq<Told>, n: nat, hash: nat)
    requires n <= Streak(Hashes(Noted(log)), hash)
    ensures n <= Streak(Hashes(Whole(log)), hash) <==> MissedAlike(log, n, hash)
  {
    hide Streak, NotedTo;
    var noted, whole := Noted(log), Whole(log);
    if MissedAlike(log, n, hash) {
      forall i | |log| - n <= i < |log|
        ensures whole[i].hash == hash
      {
        if !log[i].missed {
          NotedAt(log, i, |log|);
          assert Hashes(noted)[|NotedTo(log, i)|] == noted[|NotedTo(log, i)|].hash;
        }
      }
      AtLeastStreak(whole, n, hash);
    }
    if n <= Streak(Hashes(whole), hash) {
      forall i | 0 <= i < |log| && |log| - n <= i && log[i].missed
        ensures log[i].entry.hash == hash
      {
        assert Hashes(whole)[i] == whole[i].hash;
      }
    }
  }

  lemma AtLeastStreak(entries: seq<Entry>, n: nat, hash: nat)
    requires n <= |entries| && forall i :: |entries| - n <= i < |entries| ==> entries[i].hash == hash
    ensures n <= Streak(Hashes(entries), hash)
  {
    hide Streak;
  }

  /**
   * Which loop stops are real: the whole history does repeat at a loop stop exactly when those calls of stopped batches
   * that are among its last `limit` are the same call again.
   */
  lemma LoopStopsAreReal(g: Config, views: seq<seq<Message>>, k: nat)
    requires k < |views| && ActionAt(g, views, k).Loop?
    ensures CallsAt(g, views, k) != []
    ensures Repeats(g, views, k) <==>
      MissedAlike(PriorLog(g, views, k), g.Limit(CallsAt(g, views, k)[0].name), CallsAt(g, views, k)[0].entry.hash)
  {
    hide Hashes, Streak, PriorLog, PriorTo, Kept, CallsAt, ActionAt, Noted, Whole, MissedAlike;
    LoopStopsExactly(g, views, k);
    PriorLogIsHistory(g, views, k);
    var call := CallsAt(g, views, k)[0];
    WholeStreak(PriorLog(g, views, k), g.Limit(call.name), call.entry.hash);
  }

  // ----- when nothing is missed -----

  /** Call `c` of batch `j` was denied, or the conversation was reset, between `j` and `k`. */
  ghost predicate Gone(views: seq<seq<Message>>, j: nat, k: nat, id: string)
    requires k <= |views|
  {
    exists i :: j < i < k && (ResetAt(views, i) || id in DeniedAt(views, i))
  }

  /** Call `c` of batch `j`, a stopped one, is still part of the history before check `k`. */
  ghost predicate MissedFrom(g: Config, views: seq<seq<Message>>, k: nat, j: nat, c: NewCall)
    requires k <= |views|
  {
    j < k && Stopped(g, views, j) && c in CallsAt(g, views, j) && !Gone(views, j, k, c.entry.id)
  }

  ghost predicate MissedBy(g: Config, views: seq<seq<Message>>, k: nat, e: Entry)
    requires k <= |views|
  {
    exists j: nat, c :: MissedFrom(g, views, k, j, c) && c.entry == e
  }

  /** Every call of a stopped batch was denied, or forgotten by a reset, before check `k`. */
  ghost predicate Settled(g: Config, views: seq<seq<Message>>, k: nat)
    requires k <= |views|
  {
    forall j: nat, c :: !MissedFrom(g, views, k, j, c)
  }

  lemma {:induction false} LogRetainedHolds(log: seq<Told>, denied: set<string>, k: nat, t: Told)
    requires k <= |log|
    ensures t in LogRetained(log, denied, k) <==> t in log[..k] && t.entry.id !in denied
    decreases k
  {
    if k > 0 {
      LogRetainedHolds(log, denied, k - 1, t);
      assert log[..k] == log[..k - 1] + [log[k - 1]];
    }
  }

  lemma LogRetainHolds(log: seq<Told>, denied: set<string>, t: Told)
    ensures t in LogRetain(log, denied) <==> t in log && t.entry.id !in denied
  {
    LogRetainedHolds(log, denied, |log|, t);
    assert log[..|log|] == log;
  }

  lemma TellHolds(calls: seq<NewCall>, missed: bool, e: Entry)
    ensures Told(e, true) in Tell(calls, missed) <==> missed && exists c :: c in calls && c.entry == e
  {
    if missed && exists c :: c in calls && c.entry == e {
      var c :| c in calls && c.entry == e;
      var i :| 0 <= i < |calls| && calls[i] == c;
      assert Tell(calls, missed)[i] == Told(e, true);
    }
    if Told(e, true) in Tell(calls, missed) {
      var i :| 0 <= i < |calls| && Tell(calls, missed)[i] == Told(e, true);
      assert calls[i] in calls && calls[i].entry == e;
    }
  }

  /** One more check: what is missed before it is still so after it, unless it resets or denies. */
  lemma MissedFromStep(g: Config, views: seq<seq<Message>>, k: nat, j: nat, c: NewCall)
    requires 0 < k <= |views|
    ensures MissedFrom(g, views, k, j, c) <==>
      || (MissedFrom(g, views, k - 1, j, c) && !ResetAt(views, k - 1) && c.entry.id !in DeniedAt(views, k - 1))
      || (j == k - 1 && Stopped(g, views, j) && c in CallsAt(g, views, j))
  {
    hide Stopped, CallsAt, ResetAt, DeniedAt;
    if j < k - 1 {
      GoneStep(views, j, k, c.entry.id);
    } else {
      assert !Gone(views, j, k, c.entry.id);
    }
  }

  lemma GoneStep(views: seq<seq<Message>>, j: nat, k: nat, id: string)
    requires j < k - 1 && k <= |views|
    ensures Gone(views, j, k, id)
        <==> Gone(views, j, k - 1, id) || ResetAt(views, k - 1) || id in DeniedAt(views, k - 1)
  {
    hide ResetAt, DeniedAt;
  }

  /** The missed calls of the log are those of stopped batches that nothing has retracted since. */
  lemma {:induction false} MissedAre(g: Config, views: seq<seq<Message>>, k: nat, e: Entry)
    requires k <= |views|
    ensures Told(e, true) in Log(g, views, k) <==> MissedBy(g, views, k, e)
    decreases k
  {
    hide Stopped, CallsAt, ResetAt, DeniedAt, MissedFrom, LogRetain;
    if k == 0 {
      forall j: nat, c
        ensures !MissedFrom(g, views, 0, j, c)
      {
        NoneMissedYet(g, views, j, c);
      }
    } else {
      MissedAre(g, views, k - 1, e);
      var log := if ResetAt(views, k - 1) then [] else Log(g, views, k - 1);
      LogRetainHolds(log, DeniedAt(views, k - 1), Told(e, true));
      TellHolds(CallsAt(g, views, k - 1), Stopped(g, views, k - 1), e);
      if Told(e, true) in Log(g, views, k) {
        var j: nat, c := MissedAfter(g, views, k, e);
      }
      if j: nat, c :| MissedFrom(g, views, k, j, c) && c.entry == e {
        MissedFromStep(g, views, k, j, c);
      }
    }
  }

  lemma MissedAfter(g: Config, views: seq<seq<Message>>, k: nat, e: Entry) returns (j: nat, c: NewCall)
    requires 0 < k <= |views| && Told(e, true) in Log(g, views, k)
    requires Told(e, true) in Log(g, views, k - 1) ==> MissedBy(g, views, k - 1, e)
    ensures MissedFrom(g, views, k, j, c) && c.entry == e
  {
    hide Stopped, CallsAt, ResetAt, DeniedAt, MissedFrom, LogRetain;
    var log := if ResetAt(views, k - 1) then [] else Log(g, views, k - 1);
    LogRetainHolds(log, DeniedAt(views, k - 1), Told(e, true));
    TellHolds(CallsAt(g, views, k - 1), Stopped(g, views, k - 1), e);
    if Told(e, true) in PriorLog(g, views, k - 1) {
      j, c :| MissedFrom(g, views, k - 1, j, c) && c.entry == e;
    } else {
      j := k - 1;
      c :| c in CallsAt(g, views, k - 1) && c.entry == e;
    }
    MissedFromStep(g, views, k, j, c);
  }

  lemma NoneMissedYet(g: Config, views: seq<seq<Message>>, j: nat, c: NewCall)
    ensures !MissedFrom(g, views, 0, j, c)
  {
  }

  ghost predicate NothingMissed(log: seq<Told>) {
    forall t :: t in log ==> !t.missed
  }

  lemma {:induction false} NotedCounts(log: seq<Told>, k: nat)
    requires k <= |log|
    ensures |NotedTo(log, k)| == k <==> forall i :: 0 <= i < k ==> !log[i].missed
    ensures |NotedTo(log, k)| == k ==> NotedTo(log, k) == Whole(log)[..k]
    decreases k
  {
    if k > 0 {
      NotedCounts(log, k - 1);
    }
  }

  lemma NothingMissedMeans(log: seq<Told>)
    ensures Noted(log) == Whole(log) <==> NothingMissed(log)
  {
    hide NotedTo;
    NotedCounts(log, |log|);
    assert Whole(log)[..|log|] == Whole(log);
  }

  /**
   * The calls the window stands for are the whole history exactly when every call of a stopped batch was denied or
   * forgotten since, as the calls a stop interrupts are once their results say so.
   */
  lemma NotedIsHistory(g: Config, views: seq<seq<Message>>, k: nat)
    requires k <= |views|
    ensures Noted(Log(g, views, k)) == History(g, views, k) <==> Settled(g, views, k)
  {
    hide Log, Noted, Whole, History, MissedFrom;
    var log := Log(g, views, k);
    LogIsHistory(g, views, k);
    NothingMissedMeans(log);
    if Settled(g, views, k) {
      forall t | t in log
        ensures !t.missed
      {
        MissedAre(g, views, k, t.entry);
        assert t.missed ==> t == Told(t.entry, true);
      }
    }
    if NothingMissed(log) {
      forall j: nat, c
        ensures !MissedFrom(g, views, k, j, c)
      {
        MissedAre(g, views, k, c.entry);
      }
    }
  }

  ghost predicate MissedAt(g: Config, views: seq<seq<Message>>, k: nat, j: nat, c: NewCall)
    requires k < |views|
  {
    j < k && MissedFrom(g, views, k + 1, j, c)
  }

  /** `Settled`, with what check `k` itself denies or forgets. */
  ghost predicate SettledAt(g: Config, views: seq<seq<Message>>, k: nat)
    requires k < |views|
  {
    forall j: nat, c :: !MissedAt(g, views, k, j, c)
  }

  /** The same for the calls a check compares with. */
  lemma NotedPriorIsHistory(g: Config, views: seq<seq<Message>>, k: nat)
    requires k < |views|
    ensures Noted(PriorLog(g, views, k)) == PriorTo(g, views, k) <==> SettledAt(g, views, k)
  {
    hide PriorLog, Noted, Whole, PriorTo, MissedAt, NothingMissed;
    var prior := PriorLog(g, views, k);
    PriorLogIsHistory(g, views, k);
    NothingMissedMeans(prior);
    if SettledAt(g, views, k) {
      SettledMissesNothing(g, views, k);
    }
    if NothingMissed(prior) {
      forall j: nat, c
        ensures !MissedAt(g, views, k, j, c)
      {
        NothingMissedAt(g, views, k, j, c);
      }
    }
  }

  lemma SettledMissesNothing(g: Config, views: seq<seq<Message>>, k: nat)
    requires k < |views| && SettledAt(g, views, k)
    ensures NothingMissed(PriorLog(g, views, k))
  {
    hide PriorLog, MissedAt;
    forall t | t in PriorLog(g, views, k)
      ensures !t.missed
    {
      if t.missed {
        var j, c := PriorMissedAt(g, views, k, t);
      }
    }
  }

  lemma NothingMissedAt(g: Config, views: seq<seq<Message>>, k: nat, j: nat, c: NewCall)
    requires k < |views| && NothingMissed(PriorLog(g, views, k))
    ensures !MissedAt(g, views, k, j, c)
  {
    hide Log, MissedFrom, LogRetain, ResetAt, DeniedAt;
    var log := if ResetAt(views, k) then [] else Log(g, views, k);
    LogRetainHolds(log, DeniedAt(views, k), Told(c.entry, true));
    MissedAre(g, views, k, c.entry);
    MissedFromStep(g, views, k + 1, j, c);
  }

  lemma PriorMissedAt(g: Config, views: seq<seq<Message>>, k: nat, t: Told) returns (j: nat, c: NewCall)
    requires k < |views| && t in PriorLog(g, views, k) && t.missed
    ensures MissedAt(g, views, k, j, c)
  {
    hide Log, MissedFrom, LogRetain, ResetAt, DeniedAt;
    LogRetainHolds(if ResetAt(views, k) then [] else Log(g, views, k), DeniedAt(views, k), t);
    assert t == Told(t.entry, true);
    MissedAre(g, views, k, t.entry);
    j, c :| MissedFrom(g, views, k, j, c) && c.entry == t.entry;
    MissedIsEarlier(g, views, k, j, c);
    MissedFromStep(g, views, k + 1, j, c);
  }

  lemma MissedIsEarlier(g: Config, views: seq<seq<Message>>, k: nat, j: nat, c: NewCall)
    requires k <= |views| && MissedFrom(g, views, k, j, c)
    ensures j < k
  {
  }

  /** While every stopped batch is settled, the guard answers for the whole history. */
  lemma SettledStopsExactly(g: Config, views: seq<seq<Message>>, k: nat)
    requires k < |views| && SettledAt(g, views, k)
    ensures ActionAt(g, views, k).Loop? <==>
      && !ActionAt(g, views, k).ErrorSpiral? && Repeats(g, views, k)
      && g.Limit(CallsAt(g, views, k)[0].name) <= |Kept(g, views, k)|
  {
    hide ActionAt, Kept, PriorLog, PriorTo, Noted, SettledAt, CallsAt;
    LoopStopsExactly(g, views, k);
    NotedPriorIsHistory(g, views, k);
  }

  lemma UnstoppedIsSettled(g: Config, views: seq<seq<Message>>, k: nat)
    requires k <= |views| && Unstopped(g, views, k)
    ensures Settled(g, views, k) && (k < |views| ==> SettledAt(g, views, k))
  {
    hide ActionAt, CallsAt, Gone;
  }

  // ----- with no denials -----

  /** While nothing is denied, the window is exactly the newest calls of the batches that were not stopped. */
  lemma {:induction false} WindowIsNewest(g: Config, views: seq<seq<Message>>, k: nat)
    requires k <= |views| && forall j :: 0 <= j < k ==> DeniedAt(views, j) == {}
    ensures Before(g, views, k).recent == Newest(Noted(Log(g, views, k)), g.Keep())
    decreases k
  {
    hide OnBatch, Retain, Entries, Executed, CallsIn, DeniedIn, Newest, Checked, Noted, LogRetain, ResetAt, BatchAt;
    NothingNoted();
    NewestOfNone(g.Keep());
    if k > 0 {
      WindowIsNewest(g, views, k - 1);
      BatchIs(g, views, k - 1);
      WindowIsSuffix(g, views, k - 1);
      var m, log := Start(g, views, k - 1), if ResetAt(views, k - 1) then [] else Log(g, views, k - 1);
      NothingDenied([], m.recent);
      NothingRetracted(log);
      NotedJoins(log, CallsAt(g, views, k - 1), Stopped(g, views, k - 1));
      if Stopped(g, views, k - 1) {
        WindowAtStop(g, m, BatchAt(views, k - 1));
      } else {
        WindowAfter(g, m, BatchAt(views, k - 1));
        NewestGrows(Noted(log), Entries(CallsAt(g, views, k - 1)), g.Keep());
      }
    }
  }

  lemma {:induction false} NothingRetractedTo(log: seq<Told>, k: nat)
    requires k <= |log|
    ensures LogRetained(log, {}, k) == log[..k]
    decreases k
  {
    if k > 0 {
      NothingRetractedTo(log, k - 1);
    }
  }

  lemma NothingRetracted(log: seq<Told>)
    ensures LogRetain(log, {}) == log
  {
    NothingRetractedTo(log, |log|);
    assert log[..|log|] == log;
  }

  lemma NewestOfNone(n: nat)
    ensures Newest<Entry>([], n) == []
  {
  }

  /** With no denials so far, the bounded window answers like the unbounded history of unstopped batches. */
  lemma UndeniedStopsExactly(g: Config, views: seq<seq<Message>>, k: nat)
    requires k < |views| && forall j :: 0 <= j <= k ==> DeniedAt(views, j) == {}
    ensures ActionAt(g, views, k).Loop? <==> !ActionAt(g, views, k).ErrorSpiral? && RepeatsNoted(g, views, k)
  {
    hide Hashes, Streak, Retain, Before, DeniedAt, CallsAt, Log, LogRetain, Noted, Checked, ResetAt;
    LoopStopsExactly(g, views, k);
    WindowIsNewest(g, views, k);
    BatchIs(g, views, k);
    NothingDenied([], Start(g, views, k).recent);
    NothingRetracted(if ResetAt(views, k) then [] else Log(g, views, k));
    NothingNoted();
  }
}
