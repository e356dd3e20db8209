/** The unbounded history of executed calls, and what denials do to it (src/guard.rs). */
module GuardHistory {
  import opened Prelude
  import opened Messages
  import opened Guard
  import opened GuardRuns

  // ----- the history, from the message lists alone -----

  /** The calls before batch `k` that are not retracted by then. */
  function PriorTo(g: Config, views: seq<seq<Message>>, k: nat): seq<Entry>
    requires k < |views|
    decreases k, 1
  {
    Retain(if ResetAt(views, k) then [] else History(g, views, k), DeniedAt(views, k))
  }

  /** Every call of the first `k` batches since the last reset, but for those retracted. */
  function History(g: Config, views: seq<seq<Message>>, k: nat): seq<Entry>
    requires k <= |views|
    decreases k, 0
  {
    if k == 0 then [] else PriorTo(g, views, k - 1) + Entries(CallsAt(g, views, k - 1))
  }

  // ----- retracting -----

  lemma {:induction false} RetainedJoins(a: seq<Entry>, b: seq<Entry>, denied: set<string>, k: nat)
    requires k <= |b|
    ensures Retained(a + b, denied, |a| + k) == Retain(a, denied) + Retained(b, denied, k)
    decreases k
  {
    hide Retained, Retain;
    if k == 0 {
      RetainedPrefix(a, b, denied, |a|);
      RetainedNone(a, b, denied);
    } else {
      RetainedJoins(a, b, denied, k - 1);
      assert (a + b)[|a| + k - 1] == b[k - 1];
      RetainedStep(a + b, denied, |a| + k);
      RetainedStep(b, denied, k);
      Regroup(Retain(a, denied), Retained(b, denied, k - 1), if b[k - 1].id in denied then [] else [b[k - 1]]);
    }
  }

  lemma RetainedNone(a: seq<Entry>, b: seq<Entry>, denied: set<string>)
    ensures Retained(a, denied, |a|) == Retain(a, denied) + Retained(b, denied, 0)
  {
  }

  lemma RetainedStep(entries: seq<Entry>, denied: set<string>, k: nat)
    requires 0 < k <= |entries|
    ensures Retained(entries, denied, k)
         == Retained(entries, denied, k - 1) + if entries[k - 1].id in denied then [] else [entries[k - 1]]
  {
  }

  lemma {:induction false} RetainedPrefix(a: seq<Entry>, b: seq<Entry>, denied: set<string>, k: nat)
    requires k <= |a|
    ensures Retained(a + b, denied, k) == Retained(a, denied, k)
    decreases k
  {
    if k > 0 {
      RetainedPrefix(a, b, denied, k - 1);
    }
  }

  lemma RetainJoins(a: seq<Entry>, b: seq<Entry>, denied: set<string>)
    ensures Retain(a + b, denied) == Retain(a, denied) + Retain(b, denied)
  {
    RetainedJoins(a, b, denied, |b|);
  }

  lemma RetainNothing(denied: set<string>)
    ensures Retain([], denied) == []
  {
  }

  lemma RetainGrows(entries: seq<Entry>, e: Entry, denied: set<string>)
    ensures Retain(entries + [e], denied) == Retain(entries, denied) + if e.id in denied then [] else [e]
  {
    RetainedPrefix(entries, [e], denied, |entries|);
  }

  lemma {:induction false} RetainedTwice(entries: seq<Entry>, a: set<string>, b: set<string>, k: nat)
    requires k <= |entries|
    ensures Retain(Retained(entries, a, k), b) == Retained(entries, a + b, k)
    decreases k
  {
    hide Retain;
    RetainNothing(b);
    if k > 0 {
      RetainedTwice(entries, a, b, k - 1);
      if entries[k - 1].id in a {
        assert Retained(entries, a, k) == Retained(entries, a, k - 1);
      }
      RetainGrows(Retained(entries, a, k - 1), entries[k - 1], b);
    }
  }

  /** Retracting ids none of these calls has changes nothing. */
  lemma {:induction false} RetainedAvoids(entries: seq<Entry>, a: set<string>, b: set<string>, k: nat)
    requires k <= |entries| && forall e :: e in entries ==> e.id !in a
    ensures Retained(entries, a + b, k) == Retained(entries, b, k)
    decreases k
  {
    if k > 0 {
      RetainedAvoids(entries, a, b, k - 1);
    }
  }

  lemma RetainTwice(entries: seq<Entry>, a: set<string>, b: set<string>)
    ensures Retain(Retain(entries, a), b) == Retain(entries, a + b)
  {
    RetainedTwice(entries, a, b, |entries|);
  }

  lemma RetainAvoids(entries: seq<Entry>, a: set<string>, b: set<string>)
    requires forall e :: e in entries ==> e.id !in a
    ensures Retain(entries, a + b) == Retain(entries, b)
  {
    RetainedAvoids(entries, a, b, |entries|);
  }

  // ----- denials -----

  /** The messages of a batch without what was denied in it. */
  function Undenied(batch: seq<Message>, denied: set<string>, k: nat): seq<Message>
    requires k <= |batch|
  {
    if k == 0 then []
    else
      var m := batch[k - 1];
      Undenied(batch, denied, k - 1)
      + if (m.ToolCall? && m.id in denied) || (m.ToolResult? && IsDenial(m.result)) then [] else [m]
  }

  lemma {:induction false} UndeniedHolds(g: Config, batch: seq<Message>, denied: set<string>, k: nat)
    requires k <= |batch|
    ensures CallsIn(g, Undenied(batch, denied, k), |Undenied(batch, denied, k)|)
        == Executed(CallsIn(g, batch, k), denied)
    ensures DeniedIn(Undenied(batch, denied, k), |Undenied(batch, denied, k)|) == {}
    ensures ResultsIn(Undenied(batch, denied, k), |Undenied(batch, denied, k)|) == ResultsIn(batch, k)
    decreases k
  {
    hide IsDenial, IsError, Executed;
    if k == 0 {
      NothingDenied([], []);
      NoneExecuted(denied);
    } else {
      UndeniedHolds(g, batch, denied, k - 1);
      var m, before := batch[k - 1], Undenied(batch, denied, k - 1);
      if m.ToolCall? {
        ExecutedGrows(CallsIn(g, batch, k - 1), NewCall(Entry(m.id, g.hash(m.name, m.args.text)), m.name), denied);
      }
      InBatch(g, batch, k);
      if (m.ToolCall? && m.id in denied) || (m.ToolResult? && IsDenial(m.result)) {
        assert Undenied(batch, denied, k) == before;
      } else {
        BatchGrows(g, before, m);
        assert Undenied(batch, denied, k) == before + [m];
      }
    }
  }

  lemma InBatch(g: Config, batch: seq<Message>, k: nat)
    requires 0 < k <= |batch|
    ensures var m := batch[k - 1];
      && (m.ToolCall? ==>
        CallsIn(g, batch, k) == CallsIn(g, batch, k - 1) + [NewCall(Entry(m.id, g.hash(m.name, m.args.text)), m.name)])
      && (!m.ToolCall? ==> CallsIn(g, batch, k) == CallsIn(g, batch, k - 1))
      && (m.ToolResult? && !IsDenial(m.result) ==> ResultsIn(batch, k) == ResultsIn(batch, k - 1) + [IsError(m.result)])
      && (!m.ToolResult? || IsDenial(m.result) ==> ResultsIn(batch, k) == ResultsIn(batch, k - 1))
  {
    hide IsDenial, IsError;
  }

  lemma NoneExecuted(denied: set<string>)
    ensures Executed([], denied) == []
  {
  }

  /** What one more message adds to a batch. */
  lemma BatchGrows(g: Config, batch: seq<Message>, m: Message)
    ensures var more := batch + [m];
      && (m.ToolCall? ==>
        CallsIn(g, more, |more|)
        == CallsIn(g, batch, |batch|) + [NewCall(Entry(m.id, g.hash(m.name, m.args.text)), m.name)])
      && (!m.ToolCall? ==> CallsIn(g, more, |more|) == CallsIn(g, batch, |batch|))
      && (m.ToolResult? && IsDenial(m.result) ==> DeniedIn(more, |more|) == DeniedIn(batch, |batch|) + {m.id})
      && (!m.ToolResult? || !IsDenial(m.result) ==> DeniedIn(more, |more|) == DeniedIn(batch, |batch|))
      && (m.ToolResult? && !IsDenial(m.result) ==>
        ResultsIn(more, |more|) == ResultsIn(batch, |batch|) + [IsError(m.result)])
      && (!m.ToolResult? || IsDenial(m.result) ==> ResultsIn(more, |more|) == ResultsIn(batch, |batch|))
  {
    hide IsDenial, IsError;
    InPrefix(g, batch, [m], |batch|);
  }

  lemma {:induction false} InPrefix(g: Config, a: seq<Message>, b: seq<Message>, k: nat)
    requires k <= |a|
    ensures CallsIn(g, a + b, k) == CallsIn(g, a, k)
    ensures DeniedIn(a + b, k) == DeniedIn(a, k)
    ensures ResultsIn(a + b, k) == ResultsIn(a, k)
    decreases k
  {
    hide IsDenial, IsError;
    if k > 0 {
      InPrefix(g, a, b, k - 1);
    }
  }

  lemma {:induction false} ExecutedPrefix(a: seq<NewCall>, b: seq<NewCall>, denied: set<string>, k: nat)
    requires k <= |a|
    ensures ExecutedTo(a + b, denied, k) == ExecutedTo(a, denied, k)
    decreases k
  {
    if k > 0 {
      ExecutedPrefix(a, b, denied, k - 1);
    }
  }

  lemma ExecutedGrows(calls: seq<NewCall>, call: NewCall, denied: set<string>)
    ensures Executed(calls + [call], denied) == Executed(calls, denied) + if call.entry.id in denied then [] else [call]
  {
    ExecutedPrefix(calls, [call], denied, |calls|);
  }

  lemma JudgedOnCalls(g: Config, m: Memory, n: Memory, kept: seq<Entry>, calls: seq<NewCall>, results: seq<bool>)
    requires m.seen == n.seen && m.errors == n.errors
    ensures Judged(g, m, kept, calls, results) == Judged(g, n, kept, calls, results)
  {
    hide ErrorTurns, Spirals, Loops, Newest, Entries;
  }

  /**
   * A denial erases its call: a check with denials answers, counts and remembers as one of the batch and the window
   * without the calls they deny.
   */
  lemma DenialErases(g: Config, m: Memory, batch: seq<Message>)
    ensures var denied := DeniedIn(batch, |batch|);
      OnBatch(g, m, batch) == OnBatch(g, m.(recent := Retain(m.recent, denied)), Undenied(batch, denied, |batch|))
  {
    hide CallsIn, DeniedIn, ResultsIn, Retain, Executed, Undenied, Judged;
    var denied := DeniedIn(batch, |batch|);
    UndeniedHolds(g, batch, denied, |batch|);
    NothingDenied(Executed(CallsIn(g, batch, |batch|), denied), Retain(m.recent, denied));
    JudgedOnCalls(g, m, m.(recent := Retain(m.recent, denied)), Retain(m.recent, denied),
                  Executed(CallsIn(g, batch, |batch|), denied), ResultsIn(batch, |batch|));
  }

  // ----- the history read off one message list -----

  /** Each list extends the one before it, or is strictly shorter. */
  ghost predicate AllTellable(views: seq<seq<Message>>) {
    forall k :: 0 < k < |views| ==> Tellable(views[k - 1], views[k])
  }

  /** No call carries the id of a call denied before it. */
  ghost predicate FreshIds(ms: seq<Message>) {
    forall i, j :: 0 <= i < j < |ms| && ms[i].ToolResult? && ms[j].ToolCall? && IsDenial(ms[i].result) ==>
      ms[i].id != ms[j].id
  }

  /** The calls of a message list that it nowhere denies. */
  function ExecutedCalls(g: Config, ms: seq<Message>): seq<Entry> {
    Retain(Entries(CallsIn(g, ms, |ms|)), DeniedIn(ms, |ms|))
  }

  lemma {:induction false} EntriesExecutedTo(calls: seq<NewCall>, denied: set<string>, k: nat)
    requires k <= |calls|
    ensures Entries(ExecutedTo(calls, denied, k)) == Retained(Entries(calls), denied, k)
    decreases k
  {
    if k > 0 {
      EntriesExecutedTo(calls, denied, k - 1);
    }
  }

  lemma EntriesExecuted(calls: seq<NewCall>, denied: set<string>)
    ensures Entries(Executed(calls, denied)) == Retain(Entries(calls), denied)
  {
    EntriesExecutedTo(calls, denied, |calls|);
  }

  lemma {:induction false} BatchesJoin(g: Config, a: seq<Message>, b: seq<Message>, k: nat)
    requires k <= |b|
    ensures CallsIn(g, a + b, |a| + k) == CallsIn(g, a, |a|) + CallsIn(g, b, k)
    ensures DeniedIn(a + b, |a| + k) == DeniedIn(a, |a|) + DeniedIn(b, k)
    decreases k
  {
    hide IsDenial;
    if k == 0 {
      InPrefix(g, a, b, |a|);
    } else {
      BatchesJoin(g, a, b, k - 1);
      assert (a + b)[|a| + k - 1] == b[k - 1];
    }
  }

  /** Where a call of a batch stands. */
  lemma {:induction false} CallStands(g: Config, batch: seq<Message>, k: nat, c: NewCall) returns (j: nat)
    requires k <= |batch| && c in CallsIn(g, batch, k)
    ensures j < k && batch[j].ToolCall? && batch[j].id == c.entry.id
    decreases k
  {
    if c in CallsIn(g, batch, k - 1) {
      j := CallStands(g, batch, k - 1, c);
    } else {
      j := k - 1;
    }
  }

  /** Where a denied id is denied. */
  lemma {:induction false} DenialStands(batch: seq<Message>, k: nat, id: string) returns (i: nat)
    requires k <= |batch| && id in DeniedIn(batch, k)
    ensures i < k && batch[i].ToolResult? && batch[i].id == id && IsDenial(batch[i].result)
    decreases k
  {
    hide IsDenial;
    if id in DeniedIn(batch, k - 1) {
      i := DenialStands(batch, k - 1, id);
    } else {
      i := k - 1;
    }
  }

  lemma FreshAcross(a: seq<Message>, b: seq<Message>, i: nat, j: nat)
    requires FreshIds(a + b) && i < |a| && j < |b|
    requires a[i].ToolResult? && IsDenial(a[i].result) && b[j].ToolCall?
    ensures a[i].id != b[j].id
  {
    hide IsDenial;
    assert (a + b)[i] == a[i] && (a + b)[|a| + j] == b[j];
  }

  lemma LaterCallsAreFresh(g: Config, a: seq<Message>, b: seq<Message>)
    requires FreshIds(a + b)
    ensures forall e :: e in Entries(CallsIn(g, b, |b|)) ==> e.id !in DeniedIn(a, |a|)
  {
    hide IsDenial, DeniedIn, CallsIn, FreshIds;
    forall e | e in Entries(CallsIn(g, b, |b|))
      ensures e.id !in DeniedIn(a, |a|)
    {
      var n :| 0 <= n < |CallsIn(g, b, |b|)| && CallsIn(g, b, |b|)[n].entry == e;
      var j := CallStands(g, b, |b|, CallsIn(g, b, |b|)[n]);
      if e.id in DeniedIn(a, |a|) {
        var i := DenialStands(a, |a|, e.id);
        FreshAcross(a, b, i, j);
      }
    }
  }

  lemma EntriesJoin(a: seq<NewCall>, b: seq<NewCall>)
    ensures Entries(a + b) == Entries(a) + Entries(b)
  {
  }

  lemma ExecutedJoins(g: Config, a: seq<Message>, b: seq<Message>)
    requires FreshIds(a + b)
    ensures ExecutedCalls(g, a + b)
        == Retain(ExecutedCalls(g, a), DeniedIn(b, |b|)) + Retain(Entries(CallsIn(g, b, |b|)), DeniedIn(b, |b|))
  {
    hide CallsIn, DeniedIn, Entries, FreshIds, Retain;
    var ea, eb := Entries(CallsIn(g, a, |a|)), Entries(CallsIn(g, b, |b|));
    var da, db := DeniedIn(a, |a|), DeniedIn(b, |b|);
    BatchesJoin(g, a, b, |b|);
    EntriesJoin(CallsIn(g, a, |a|), CallsIn(g, b, |b|));
    RetainJoins(ea, eb, da + db);
    RetainTwice(ea, da, db);
    LaterCallsAreFresh(g, a, b);
    RetainAvoids(eb, da, db);
  }

  lemma PrefixStaysFresh(before: seq<Message>, after: seq<Message>)
    requires before <= after && FreshIds(after)
    ensures FreshIds(before)
  {
    hide IsDenial;
    assert forall i :: 0 <= i < |before| ==> before[i] == after[i];
  }

  /**
   * While each list extends the one before or is strictly shorter, the history is the calls that the list holds but for
   * those it denies.
   */
  lemma {:induction false} HistoryIsExecuted(g: Config, views: seq<seq<Message>>, k: nat)
    requires 0 < k <= |views| && AllTellable(views) && FreshIds(views[k - 1])
    ensures History(g, views, k) == ExecutedCalls(g, views[k - 1])
    decreases k
  {
    hide IsDenial, CallsIn, DeniedIn, Retain, Executed, Entries, FreshIds;
    var batch := BatchAt(views, k - 1);
    EntriesExecuted(CallsIn(g, batch, |batch|), DeniedIn(batch, |batch|));
    if k == 1 || ResetAt(views, k - 1) {
      RetainNothing(DeniedIn(batch, |batch|));
    } else {
      var earlier := views[k - 2];
      assert Tellable(views[k - 2], views[k - 1]);
      assert views[k - 1] == earlier + batch;
      PrefixStaysFresh(earlier, views[k - 1]);
      HistoryIsExecuted(g, views, k - 1);
      ExecutedJoins(g, earlier, batch);
    }
  }
}
