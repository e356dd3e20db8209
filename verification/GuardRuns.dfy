/** Runs of the guard, check after check, and its error counter (src/guard.rs). */
module GuardRuns {
  import opened Prelude
  import opened Messages
  import opened Guard

  // ----- runs of checks -----

  /** The guard's memory before check `k` of a run over these message lists. */
  function Before(g: Config, views: seq<seq<Message>>, k: nat): Memory
    requires k <= |views|
  {
    if k == 0 then Memory(0, 0, []) else Checked(g, Before(g, views, k - 1), views[k - 1]).memory
  }

  /** What check `k` answers. */
  function ActionAt(g: Config, views: seq<seq<Message>>, k: nat): Action
    requires k < |views|
  {
    Checked(g, Before(g, views, k), views[k]).action
  }

  /** None of the first `k` checks stopped the run. */
  ghost predicate Unstopped(g: Config, views: seq<seq<Message>>, k: nat)
    requires k <= |views|
  {
    forall j :: 0 <= j < k ==> ActionAt(g, views, j) == Continue
  }

  /** A run of the guard itself. */
  method RunGuard(g: Config, views: seq<seq<Message>>) returns (actions: seq<Action>)
    ensures |actions| == |views|
    ensures forall k :: 0 <= k < |views| ==> actions[k] == ActionAt(g, views, k)
  {
    hide Checked;
    var tracker := new GuardTracker(g);
    actions := [];
    for k := 0 to |views|
      invariant fresh(tracker) && tracker.config == g && tracker.Remembered() == Before(g, views, k)
      invariant |actions| == k && forall j :: 0 <= j < k ==> actions[j] == ActionAt(g, views, j)
    {
      var action := tracker.Check(views[k]);
      actions := actions + [action];
    }
  }

  // ----- what each check is given -----

  /** The list shrank, which the guard takes for a new conversation. */
  predicate ResetAt(views: seq<seq<Message>>, k: nat)
    requires k < |views|
  {
    k > 0 && |views[k]| < |views[k - 1]|
  }

  /** What stands behind the length of the last list, or the whole of a shorter one. */
  function BatchAt(views: seq<seq<Message>>, k: nat): seq<Message>
    requires k < |views|
  {
    if k == 0 || ResetAt(views, k) then views[k] else views[k][|views[k - 1]|..]
  }

  function DeniedAt(views: seq<seq<Message>>, k: nat): set<string>
    requires k < |views|
  {
    DeniedIn(BatchAt(views, k), |BatchAt(views, k)|)
  }

  function ResultsAt(views: seq<seq<Message>>, k: nat): seq<bool>
    requires k < |views|
  {
    ResultsIn(BatchAt(views, k), |BatchAt(views, k)|)
  }

  /** The calls of a batch that were not denied in it. */
  function CallsAt(g: Config, views: seq<seq<Message>>, k: nat): seq<NewCall>
    requires k < |views|
  {
    Executed(CallsIn(g, BatchAt(views, k), |BatchAt(views, k)|), DeniedAt(views, k))
  }

  /** What a list has that the one before had not: what it appended, or all of a list that does not extend it. */
  function NewPart(before: seq<Message>, after: seq<Message>): seq<Message> {
    if before <= after then after[|before|..] else after
  }

  /** The list extends the one before, or is strictly shorter. */
  predicate Tellable(before: seq<Message>, after: seq<Message>) {
    before <= after || |after| < |before|
  }

  /**
   * A check is given what is new in its list exactly when the list extends the one before or is strictly shorter: the
   * length is all the guard compares.
   */
  lemma BatchIsNewExactly(views: seq<seq<Message>>, k: nat)
    requires 0 < k < |views|
    ensures BatchAt(views, k) == NewPart(views[k - 1], views[k]) <==> Tellable(views[k - 1], views[k])
    ensures Tellable(views[k - 1], views[k]) ==> (ResetAt(views, k) <==> !(views[k - 1] <= views[k]))
  {
    var before, after := views[k - 1], views[k];
    if !Tellable(before, after) {
      assert before != [];
      assert |BatchAt(views, k)| < |after|;
    }
  }

  /** The memory check `k` starts from, clamped. */
  function Start(g: Config, views: seq<seq<Message>>, k: nat): Memory
    requires k < |views|
  {
    Clamped(Before(g, views, k), |views[k]|).(seen := |views[k]|)
  }

  lemma SeenIsLength(g: Config, views: seq<seq<Message>>, k: nat)
    requires k <= |views|
    ensures Before(g, views, k).seen == if k == 0 then 0 else |views[k - 1]|
  {
  }

  /** A check looks at its batch, and starts over exactly when the list shrank. */
  lemma BatchIs(g: Config, views: seq<seq<Message>>, k: nat)
    requires k < |views|
    ensures Checked(g, Before(g, views, k), views[k]) == OnBatch(g, Start(g, views, k), BatchAt(views, k))
    ensures Start(g, views, k).recent == if ResetAt(views, k) then [] else Before(g, views, k).recent
    ensures Start(g, views, k).errors == if ResetAt(views, k) then 0 else Before(g, views, k).errors
  {
    hide OnBatch, Before;
    SeenIsLength(g, views, k);
    assert k == 0 ==> Before(g, views, k).seen == 0;
  }

  // ----- error spirals -----

  /** For each batch with results since the last reset, whether all of them were errors. */
  function Turns(views: seq<seq<Message>>, k: nat): seq<bool>
    requires k <= |views|
  {
    if k == 0 then []
    else
      var earlier := if ResetAt(views, k - 1) then [] else Turns(views, k - 1);
      if ResultsAt(views, k - 1) == [] then earlier else earlier + [AllErrors(ResultsAt(views, k - 1))]
  }

  lemma StreakGrows(s: seq<bool>, x: bool)
    ensures Streak(s + [x], true) == if x then Streak(s, true) + 1 else 0
  {
    assert (s + [x])[..|s|] == s;
  }

  lemma ErrorsAfter(g: Config, m: Memory, batch: seq<Message>)
    ensures var after, results := OnBatch(g, m, batch), ResultsIn(batch, |batch|);
      && after.memory.errors == ErrorTurns(g, m.errors, results)
      && (after.action.ErrorSpiral? <==> Spirals(g, after.memory.errors, results))
  {
    hide ErrorTurns, Spirals, Loops, Retain, Executed, CallsIn, ResultsIn, DeniedIn, Newest, Entries;
  }

  /** The error counter is the number of all-error batches at the end of the batches that had results. */
  lemma {:induction false} ErrorsAreStreak(g: Config, views: seq<seq<Message>>, k: nat)
    requires k <= |views| && g.maxConsecutiveErrors > 0
    ensures Before(g, views, k).errors == Streak(Turns(views, k), true)
    decreases k
  {
    hide AllErrors, ResultsIn, ResultsAt, OnBatch, Checked, Start, ResetAt, BatchAt, Streak, ErrorTurns, Turns, Before;
    FirstTurn(g, views);
    if k > 0 {
      ErrorsAreStreak(g, views, k - 1);
      BatchIs(g, views, k - 1);
      ErrorsAfter(g, Start(g, views, k - 1), BatchAt(views, k - 1));
      CheckRemembers(g, views, k - 1);
      StreakStep(g, if ResetAt(views, k - 1) then [] else Turns(views, k - 1), ResultsAt(views, k - 1));
    }
  }

  lemma FirstTurn(g: Config, views: seq<seq<Message>>)
    ensures Turns(views, 0) == [] && Before(g, views, 0).errors == 0 && Streak([], true) == 0
  {
  }

  /** What check `k` leaves, and what its results add to the turns. */
  lemma CheckRemembers(g: Config, views: seq<seq<Message>>, k: nat)
    requires k < |views|
    ensures Before(g, views, k + 1) == Checked(g, Before(g, views, k), views[k]).memory
    ensures ResultsAt(views, k) == ResultsIn(BatchAt(views, k), |BatchAt(views, k)|)
    ensures var earlier := if ResetAt(views, k) then [] else Turns(views, k);
      Turns(views, k + 1)
        == if ResultsAt(views, k) == [] then earlier else earlier + [AllErrors(ResultsAt(views, k))]
  {
    hide Checked, ResultsIn, BatchAt, AllErrors, ResetAt;
  }

  /** One more batch moves the counter as it moves the streak. */
  lemma StreakStep(g: Config, turns: seq<bool>, results: seq<bool>)
    requires g.maxConsecutiveErrors > 0
    ensures ErrorTurns(g, Streak(turns, true), results)
         == Streak(if results == [] then turns else turns + [AllErrors(results)], true)
  {
    hide AllErrors, Streak;
    StreakGrows(turns, AllErrors(results));
  }

  /**
   * A run stops for an error spiral exactly when its last `maxConsecutiveErrors` batches with results were all
   * errors.
   */
  lemma SpiralStopsExactly(g: Config, views: seq<seq<Message>>, k: nat)
    requires k < |views|
    ensures ActionAt(g, views, k).ErrorSpiral? <==>
      && 0 < g.maxConsecutiveErrors <= Streak(Turns(views, k + 1), true)
      && ResultsAt(views, k) != []
  {
    hide ResultsIn, BatchAt, Streak, Turns, OnBatch, Checked, Start, ErrorTurns, ResetAt;
    BatchIs(g, views, k);
    ErrorsAfter(g, Start(g, views, k), BatchAt(views, k));
    assert Before(g, views, k + 1) == Checked(g, Before(g, views, k), views[k]).memory;
    if g.maxConsecutiveErrors > 0 {
      ErrorsAreStreak(g, views, k + 1);
    }
  }
}
