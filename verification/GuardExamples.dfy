/** Runs in which the guard's window misleads it (src/guard.rs). */
module GuardExamples {
  import opened Prelude
  import opened Messages
  import opened Guard
  import opened GuardRuns
  import opened GuardHistory
  import opened GuardWindow

  // ----- a loop the window misses -----

  lemma OneMessage(g: Config, m: Message)
    ensures CallsIn(g, [m], 1)
        == if m.ToolCall? then [NewCall(Entry(m.id, g.hash(m.name, m.args.text)), m.name)] else []
    ensures DeniedIn([m], 1) == if m.ToolResult? && IsDenial(m.result) then {m.id} else {}
    ensures ResultsIn([m], 1) == if m.ToolResult? && !IsDenial(m.result) then [IsError(m.result)] else []
  {
    hide IsDenial, IsError;
    BatchGrows(g, [], m);
    assert [] + [m] == [m];
  }

  lemma InterruptionIsDenial()
    ensures IsDenial("interrupted by user")
  {
    var text := "interrupted by user";
    assert text <= text[0..];
  }

  const FIRST := ToolCall("1", "x", Args("{}", None))
  const SECOND := ToolCall("2", "y", Args("{}", None))
  const DENIAL := ToolResult("2", "y", "interrupted by user")
  const THIRD := ToolCall("3", "x", Args("{}", None))

  function Undercounted(): (views: seq<seq<Message>>)
    ensures |views| == 3
  {
    [[FIRST, SECOND], [FIRST, SECOND, DENIAL], [FIRST, SECOND, DENIAL, THIRD]]
  }

  lemma UndercountedBatches(g: Config)
    ensures BatchAt(Undercounted(), 0) == [FIRST, SECOND]
    ensures BatchAt(Undercounted(), 1) == [DENIAL]
    ensures BatchAt(Undercounted(), 2) == [THIRD]
    ensures !ResetAt(Undercounted(), 0) && !ResetAt(Undercounted(), 1) && !ResetAt(Undercounted(), 2)
  {
  }

  predicate OneAllowed(g: Config) {
    g.maxIdenticalRepeats == 1 && g.maxPollRepeats == 0 && g.pollTools == {} && g.maxConsecutiveErrors == 0
  }

  function Called(g: Config, m: Message): NewCall
    requires m.ToolCall?
  {
    NewCall(Entry(m.id, g.hash(m.name, m.args.text)), m.name)
  }

  lemma UndercountedHolds(g: Config)
    ensures CallsAt(g, Undercounted(), 0) == [Called(g, FIRST), Called(g, SECOND)] && DeniedAt(Undercounted(), 0) == {}
    ensures CallsAt(g, Undercounted(), 1) == [] && DeniedAt(Undercounted(), 1) == {"2"}
    ensures CallsAt(g, Undercounted(), 2) == [Called(g, THIRD)] && DeniedAt(Undercounted(), 2) == {}
  {
    hide IsDenial, Executed, BatchAt, CallsIn, DeniedIn, ResultsIn, Undercounted;
    UndercountedBatches(g);
    InterruptionIsDenial();
    OneMessage(g, FIRST);
    BatchGrows(g, [FIRST], SECOND);
    assert [FIRST] + [SECOND] == [FIRST, SECOND]
        && [Called(g, FIRST)] + [Called(g, SECOND)] == [Called(g, FIRST), Called(g, SECOND)];
    OneMessage(g, DENIAL);
    OneMessage(g, THIRD);
    NoneExecuted({"2"});
    NothingDenied([Called(g, FIRST), Called(g, SECOND)], []);
    NothingDenied([Called(g, THIRD)], []);
  }

  lemma UndercountedHistory(g: Config)
    ensures PriorTo(g, Undercounted(), 2) == [Called(g, FIRST).entry]
  {
    hide CallsAt, DeniedAt, Retain, ResetAt;
    var first, second, views := Called(g, FIRST).entry, Called(g, SECOND).entry, Undercounted();
    UndercountedHolds(g);
    UndercountedBatches(g);
    NothingDenied([], []);
    assert History(g, views, 1) == [first, second];
    RetainGrows([], first, {"2"});
    RetainGrows([first], second, {"2"});
    RetainNothing({"2"});
    assert [] + [first] == [first] && [first] + [second] == [first, second] && [first] + [] == [first];
    assert History(g, views, 2) == [first];
    NothingDenied([], [first]);
  }

  /** What a check of an unarmed spiral counter does to a window of at most one call. */
  lemma OneAllowedCheck(g: Config, m: Memory, kept: seq<Entry>, calls: seq<NewCall>, results: seq<bool>)
    requires OneAllowed(g) && (calls != [] ==> kept == [])
    ensures Judged(g, m, kept, calls, results).action == Continue
    ensures Judged(g, m, kept, calls, results).memory.recent == if calls == [] then kept else [calls[|calls| - 1].entry]
  {
    hide Streak, Hashes, Entries, Newest;
    if calls != [] {
      NoStreakOfNone(calls[0].entry.hash);
      assert [] + Entries(calls) == Entries(calls);
      NewestOne(Entries(calls));
    }
  }

  lemma NoStreakOfNone(hash: nat)
    ensures Streak(Hashes([]), hash) == 0
  {
  }

  lemma NewestOne(entries: seq<Entry>)
    requires entries != []
    ensures Newest(entries, 1) == [entries[|entries| - 1]]
  {
  }

  lemma OneAllowedStep(g: Config, views: seq<seq<Message>>, k: nat)
    requires OneAllowed(g) && k < |views| && (CallsAt(g, views, k) != [] ==> Kept(g, views, k) == [])
    ensures ActionAt(g, views, k) == Continue
    ensures Before(g, views, k + 1).recent
      == if CallsAt(g, views, k) == [] then Kept(g, views, k)
         else [CallsAt(g, views, k)[|CallsAt(g, views, k)| - 1].entry]
  {
    hide Retain, Judged, Checked, Start, Executed, CallsIn, ResultsIn, BatchAt, DeniedIn;
    BatchIs(g, views, k);
    OneAllowedCheck(g, Start(g, views, k), Kept(g, views, k), CallsAt(g, views, k), ResultsAt(views, k));
  }

  lemma OneEntryStreak(e: Entry)
    ensures Streak(Hashes([e]), e.hash) == 1
  {
    StreakIsLongest(Hashes([e]), e.hash, 1);
  }

  lemma QuietStep(g: Config, views: seq<seq<Message>>, k: nat, before: seq<Entry>)
    requires OneAllowed(g) && k < |views| && !ResetAt(views, k)
    requires Before(g, views, k).recent == before && Retain(before, DeniedAt(views, k)) == []
    ensures ActionAt(g, views, k) == Continue
    ensures Before(g, views, k + 1).recent
      == if CallsAt(g, views, k) == [] then [] else [CallsAt(g, views, k)[|CallsAt(g, views, k)| - 1].entry]
  {
    hide Retain, Judged, Checked, CallsAt, DeniedAt, ResetAt, BatchAt, Before, ActionAt, Start;
    BatchIs(g, views, k);
    OneAllowedStep(g, views, k);
  }

  lemma UndercountedRun(g: Config)
    requires OneAllowed(g)
    ensures Unstopped(g, Undercounted(), 3)
  {
    hide Called, Undercounted, CallsAt, DeniedAt, ResetAt, Retain, BatchAt, ActionAt, Before, Unstopped, OneAllowed;
    var views, second := Undercounted(), Called(g, SECOND).entry;
    UndercountedHolds(g);
    UndercountedBatches(g);
    RetainNothing({});
    RetainSecond(g);
    NothingYet(g, views);
    QuietStep(g, views, 0, []);
    QuietStep(g, views, 1, [second]);
    QuietStep(g, views, 2, []);
    AllQuiet(g, views);
  }

  lemma NothingYet(g: Config, views: seq<seq<Message>>)
    ensures Before(g, views, 0).recent == []
  {
  }

  lemma AllQuiet(g: Config, views: seq<seq<Message>>)
    requires |views| == 3 && forall k :: 0 <= k < 3 ==> ActionAt(g, views, k) == Continue
    ensures Unstopped(g, views, 3)
  {
    hide ActionAt;
  }

  lemma RetainSecond(g: Config)
    ensures Retain([Called(g, SECOND).entry], {"2"}) == []
  {
    hide Retain;
    RetainNothing({"2"});
    RetainGrows([], Called(g, SECOND).entry, {"2"});
    assert [] + [Called(g, SECOND).entry] == [Called(g, SECOND).entry];
  }

  /**
   * With denials the window can miss a loop: two calls in one batch, the second denied, leave a window of one empty,
   * and the first call repeats unnoticed.
   */
  lemma RetractionUndercounts(g: Config)
    requires OneAllowed(g)
    ensures Unstopped(g, Undercounted(), 3) && Repeats(g, Undercounted(), 2)
  {
    hide CallsAt, PriorTo, Undercounted, Unstopped, Streak, Hashes;
    UndercountedRun(g);
    UndercountedHolds(g);
    UndercountedHistory(g);
    OneEntryStreak(Called(g, FIRST).entry);
  }

  // ----- a loop the window makes up -----

  const FOURTH := ToolCall("4", "x", Args("{}", None))

  /** The first call again and then another, in a batch that is stopped; then the first once more. */
  function Misread(): (views: seq<seq<Message>>)
    ensures |views| == 3
  {
    [[FIRST], [FIRST, THIRD, SECOND], [FIRST, THIRD, SECOND, FOURTH]]
  }

  lemma MisreadBatches()
    ensures BatchAt(Misread(), 0) == [FIRST] && BatchAt(Misread(), 1) == [THIRD, SECOND]
        && BatchAt(Misread(), 2) == [FOURTH]
    ensures !ResetAt(Misread(), 1) && !ResetAt(Misread(), 2)
  {
  }

  lemma MisreadHolds(g: Config)
    ensures CallsAt(g, Misread(), 0) == [Called(g, FIRST)] && DeniedAt(Misread(), 0) == {}
    ensures CallsAt(g, Misread(), 1) == [Called(g, THIRD), Called(g, SECOND)] && DeniedAt(Misread(), 1) == {}
    ensures CallsAt(g, Misread(), 2) == [Called(g, FOURTH)] && DeniedAt(Misread(), 2) == {}
  {
    hide IsDenial, Executed, BatchAt, CallsIn, DeniedIn, ResultsIn, Misread;
    MisreadBatches();
    OneMessage(g, FIRST);
    OneMessage(g, FOURTH);
    OneMessage(g, THIRD);
    BatchGrows(g, [THIRD], SECOND);
    var third, second := Called(g, THIRD), Called(g, SECOND);
    assert [THIRD] + [SECOND] == [THIRD, SECOND] && [third] + [second] == [third, second];
    NothingDenied([Called(g, FIRST)], []);
    NothingDenied([third, second], []);
    NothingDenied([Called(g, FOURTH)], []);
  }

  lemma MisreadHistory(g: Config)
    ensures PriorTo(g, Misread(), 2) == [Called(g, FIRST).entry, Called(g, THIRD).entry, Called(g, SECOND).entry]
  {
    hide CallsAt, DeniedAt, Retain, ResetAt;
    var first, third, second := Called(g, FIRST).entry, Called(g, THIRD).entry, Called(g, SECOND).entry;
    MisreadHolds(g);
    MisreadBatches();
    NothingDenied([], []);
    NothingDenied([], [first]);
    NothingDenied([], [first, third, second]);
    assert History(g, Misread(), 1) == [first];
    assert History(g, Misread(), 2) == [first] + [third, second] == [first, third, second];
  }

  lemma OneAllowedLoop(g: Config, m: Memory, kept: seq<Entry>, calls: seq<NewCall>, results: seq<bool>)
    requires OneAllowed(g) && |kept| == 1 && calls != [] && kept[0].hash == calls[0].entry.hash
    ensures Judged(g, m, kept, calls, results).action.Loop?
    ensures Judged(g, m, kept, calls, results).memory.recent == kept
  {
    StreakIsLongest(Hashes(kept), calls[0].entry.hash, 1);
  }

  lemma OneAllowedStop(g: Config, views: seq<seq<Message>>, k: nat, e: Entry)
    requires OneAllowed(g) && k < |views| && DeniedAt(views, k) == {} && !ResetAt(views, k)
    requires Before(g, views, k).recent == [e] && CallsAt(g, views, k) != []
        && CallsAt(g, views, k)[0].entry.hash == e.hash
    ensures ActionAt(g, views, k).Loop? && Before(g, views, k + 1).recent == [e]
  {
    hide Retain, Judged, Checked, Start, Executed, CallsIn, ResultsIn, BatchAt, DeniedIn, ResetAt;
    BatchIs(g, views, k);
    NothingDenied([], [e]);
    OneAllowedLoop(g, Start(g, views, k), [e], CallsAt(g, views, k), ResultsAt(views, k));
  }

  /**
   * A guard that goes on after a stop can make up a loop, with no denial at all: it never learns of the other call in
   * the batch it stopped, so it stops again at a call that follows a different one.
   */
  lemma StopMakesUpLoop(g: Config)
    requires OneAllowed(g) && g.hash("x", "{}") != g.hash("y", "{}")
    ensures forall k :: 0 <= k < 3 ==> DeniedAt(Misread(), k) == {}
    ensures ActionAt(g, Misread(), 1).Loop? && ActionAt(g, Misread(), 2).Loop? && !Repeats(g, Misread(), 2)
  {
    hide CallsAt, DeniedAt, Retain, ResetAt, BatchAt, Judged, Checked, Start, PriorTo, Misread, Executed, CallsIn,
        ResultsIn;
    var views, first := Misread(), Called(g, FIRST).entry;
    MisreadBatches();
    MisreadHolds(g);
    MisreadHistory(g);
    RetainNothing({});
    BatchIs(g, views, 0);
    OneAllowedStep(g, views, 0);
    OneAllowedStop(g, views, 1, first);
    OneAllowedStop(g, views, 2, first);
  }

  // ----- a conversation the guard does not see -----

  /** A conversation, and another as long in its place. */
  function Replaced(a: Message, b: Message, c: Message): (views: seq<seq<Message>>)
    ensures |views| == 2
  {
    [[a, b], [c, FIRST]]
  }

  /**
   * A new conversation as long as the one before is taken for the same one: its call is never inspected, and what was
   * remembered of the old one stands.
   */
  lemma ReplacedIsUnseen(g: Config, a: Message, b: Message, c: Message)
    requires a != c
    ensures BatchAt(Replaced(a, b, c), 1) == [] && !ResetAt(Replaced(a, b, c), 1)
    ensures NewPart([a, b], [c, FIRST]) == [c, FIRST] && CallsAt(g, Replaced(a, b, c), 1) == []
    ensures Start(g, Replaced(a, b, c), 1).recent == Before(g, Replaced(a, b, c), 1).recent
  {
    hide Before, CallsAt;
    var views := Replaced(a, b, c);
    assert views[0] == [a, b] && views[1] == [c, FIRST];
    assert [a, b][0] != [c, FIRST][0];
    BatchIs(g, views, 1);
    NothingGained(g, views, 1);
  }

  lemma NothingGained(g: Config, views: seq<seq<Message>>, k: nat)
    requires k < |views| && BatchAt(views, k) == []
    ensures CallsAt(g, views, k) == []
  {
  }
}
