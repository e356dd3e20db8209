/** The per-step delta log of a session, and rebuilding the history from its files (src/diagnostics.rs). */
module TurnLog {
  import opened Prelude
  import opened Messages

  /** One `turn_NNN.json`. */
  datatype TurnDelta = TurnDelta(turn: nat, messageCount: nat, firstIndex: nat, rewritten: bool, messages: seq<Message>)

  /** What one step writes, after `turns` steps and with `logged` messages already on disk. */
  function Delta(turns: nat, logged: nat, messages: seq<Message>): TurnDelta {
    var rewritten := logged > |messages|;
    var first := if rewritten then 0 else logged;
    TurnDelta(turns + 1, |messages|, first, rewritten, messages[Min(first, |messages|)..])
  }

  class DiagnosticsLogger {
    var turnCounter: nat
    var loggedUpTo: nat
    var files: seq<TurnDelta>

    constructor ()
      ensures turnCounter == 0 && loggedUpTo == 0 && files == []
    {
      turnCounter, loggedUpTo, files := 0, 0, [];
    }

    /** Log what a step added to the agent state. */
    method LogTurn(messages: seq<Message>)
      modifies this
      ensures turnCounter == old(turnCounter) + 1 && loggedUpTo == |messages|
      ensures files == old(files) + [Delta(old(turnCounter), old(loggedUpTo), messages)]
    {
      turnCounter := turnCounter + 1;
      var total := |messages|;
      var previous := loggedUpTo;
      loggedUpTo := total;
      var rewritten := previous > total;
      var firstIndex := if rewritten then 0 else previous;
      files := files + [TurnDelta(turnCounter, total, firstIndex, rewritten, messages[Min(firstIndex, total)..])];
    }
  }

  /** What a reader has after one more file: a rewritten one replaces what came before, any other extends it. */
  function Applied(history: seq<Message>, file: TurnDelta): seq<Message> {
    if file.rewritten then file.messages else history + file.messages
  }

  function Replay(files: seq<TurnDelta>, k: nat): seq<Message>
    requires k <= |files|
  {
    if k == 0 then [] else Applied(Replay(files, k - 1), files[k - 1])
  }

  /** The message list before step `k` of a run. */
  function Previous(lists: seq<seq<Message>>, k: nat): seq<Message>
    requires k <= |lists|
  {
    if k == 0 then [] else lists[k - 1]
  }

  /** The file step `k` of a run leaves. */
  function FileOf(lists: seq<seq<Message>>, k: nat): TurnDelta
    requires k < |lists|
  {
    Delta(k, |Previous(lists, k)|, lists[k])
  }

  /** The files a run of the logger over these lists leaves. */
  function Files(lists: seq<seq<Message>>): (files: seq<TurnDelta>)
    ensures |files| == |lists|
    ensures forall i :: 0 <= i < |lists| ==> files[i] == FileOf(lists, i)
  {
    hide *;
    seq(|lists|, i requires 0 <= i < |lists| => FileOf(lists, i))
  }

  lemma FilesAre(lists: seq<seq<Message>>, files: seq<TurnDelta>)
    requires |files| == |lists| && forall i :: 0 <= i < |files| ==> files[i] == FileOf(lists, i)
    ensures files == Files(lists)
  {
    hide *;
  }

  /** A whole run of the logger. */
  method LogRun(lists: seq<seq<Message>>) returns (files: seq<TurnDelta>)
    ensures files == Files(lists)
  {
    hide Delta, Files;
    var logger := new DiagnosticsLogger();
    for i := 0 to |lists|
      invariant fresh(logger) && logger.turnCounter == i && logger.loggedUpTo == |Previous(lists, i)|
      invariant |logger.files| == i && forall j :: 0 <= j < i ==> logger.files[j] == FileOf(lists, j)
    {
      logger.LogTurn(lists[i]);
    }
    files := logger.files;
    FilesAre(lists, files);
  }

  /** A step the log can describe: it extended the list, or left a strictly shorter one. */
  predicate Describable(before: seq<Message>, after: seq<Message>) {
    before <= after || |after| < |before|
  }

  /** From the right history, a file rebuilds the next list exactly when the step is describable. */
  lemma DeltaRebuilds(turns: nat, before: seq<Message>, after: seq<Message>)
    ensures Applied(before, Delta(turns, |before|, after)) == after <==> Describable(before, after)
  {
    if before <= after {
      assert after == before + after[|before|..];
    }
  }

  /** Replaying gives the right list after each of the first `k` steps. */
  ghost predicate Rebuilt(lists: seq<seq<Message>>, k: nat)
    requires k <= |lists|
  {
    forall i :: 0 <= i <= k ==> Replay(Files(lists), i) == Previous(lists, i)
  }

  ghost predicate AllDescribable(lists: seq<seq<Message>>, k: nat)
    requires k <= |lists|
  {
    forall i :: 0 <= i < k ==> Describable(Previous(lists, i), lists[i])
  }

  lemma StepRebuilds(lists: seq<seq<Message>>, k: nat)
    requires 0 < k <= |lists| && Replay(Files(lists), k - 1) == Previous(lists, k - 1)
    ensures Replay(Files(lists), k) == Previous(lists, k) <==> Describable(Previous(lists, k - 1), lists[k - 1])
  {
    hide Applied, Delta, Describable, Files;
    var files, before, after := Files(lists), Previous(lists, k - 1), lists[k - 1];
    DeltaRebuilds(k - 1, before, after);
    assert files[k - 1] == FileOf(lists, k - 1) == Delta(k - 1, |before|, after);
    assert Replay(files, k) == Applied(before, files[k - 1]);
  }

  /** Replaying the files rebuilds the list after every one of `k` steps exactly when every step was describable. */
  lemma {:induction false} ReplayRebuilds(lists: seq<seq<Message>>, k: nat)
    requires k <= |lists|
    ensures Rebuilt(lists, k) <==> AllDescribable(lists, k)
    decreases k
  {
    hide Replay, Describable, Files, Previous, AllDescribable;
    if k > 0 {
      ReplayRebuilds(lists, k - 1);
      RebuiltSplits(lists, k);
      if Rebuilt(lists, k - 1) {
        assert Replay(Files(lists), k - 1) == Previous(lists, k - 1);
        StepRebuilds(lists, k);
      }
      DescribableSplits(lists, k);
    } else {
      NothingYet(lists);
    }
  }

  lemma RebuiltSplits(lists: seq<seq<Message>>, k: nat)
    requires 0 < k <= |lists|
    ensures Rebuilt(lists, k) <==> Rebuilt(lists, k - 1) && Replay(Files(lists), k) == Previous(lists, k)
  {
    hide Replay, Files, Previous;
  }

  lemma DescribableSplits(lists: seq<seq<Message>>, k: nat)
    requires 0 < k <= |lists|
    ensures AllDescribable(lists, k)
        <==> AllDescribable(lists, k - 1) && Describable(Previous(lists, k - 1), lists[k - 1])
  {
    hide Describable, Previous;
  }

  lemma NothingYet(lists: seq<seq<Message>>)
    ensures Replay(Files(lists), 0) == Previous(lists, 0) && AllDescribable(lists, 0)
  {
  }

  /** The limit is real: a conversation replaced by another as long, as clearing one and starting over does, is lost. */
  lemma ReplacedIsLost(a: Message, b: Message, c: Message, d: Message)
    requires a != c
    ensures Replay(Files([[a, b], [c, d]]), 2) != [c, d]
  {
    hide Replay, Files, Applied;
    var lists := [[a, b], [c, d]];
    NothingYet(lists);
    StepRebuilds(lists, 1);
    StepRebuilds(lists, 2);
    assert lists[0][0] != lists[1][0];
  }

  /** Each file says where its messages stand: from the place it names to the end of that step's list. */
  lemma FilesArePlaced(lists: seq<seq<Message>>, k: nat)
    requires k < |lists|
    ensures var f, before := Files(lists)[k], if k == 0 then 0 else |lists[k - 1]|;
      && f.turn == k + 1 && f.messageCount == |lists[k]|
      && f.firstIndex <= |lists[k]| && f.messages == lists[k][f.firstIndex..]
      && (f.rewritten <==> |lists[k]| < before)
      && f.firstIndex == (if f.rewritten then 0 else before)
  {
    hide Files;
    assert Files(lists)[k] == FileOf(lists, k);
  }
}
