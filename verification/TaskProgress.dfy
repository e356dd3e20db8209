/** Derived readiness, progress, and why a usable plan never deadlocks (src/project_tasks.rs). */
module TaskProgress {
  import opened Prelude
  import opened Text
  import opened TaskGraph
  import opened TaskStore

  /** A row can start when it is `Todo` and every dependency that is still listed has landed. */
  predicate IsReady(t: Task, all: seq<Task>) {
    t.status == Todo
    && forall d | d in t.deps :: Slot(all, d).Some? ==> all[Slot(all, d).value].status.SatisfiesDependency()
  }

  function ReadyAmong(rows: seq<Task>, all: seq<Task>): (r: seq<Task>)
    ensures forall t :: t in r <==> t in rows && IsReady(t, all)
  {
    if rows == [] then []
    else (if IsReady(rows[0], all) then [rows[0]] else []) + ReadyAmong(rows[1..], all)
  }

  function Ready(tasks: seq<Task>): seq<Task> {
    ReadyAmong(tasks, tasks)
  }

  /** What holds a row back: it is not `Todo`, or a listed dependency of it is neither done nor dropped. */
  lemma ReadyExactly(t: Task, all: seq<Task>)
    ensures IsReady(t, all) <==>
      && t.status == Todo
      && forall i :: 0 <= i < |all| && all[i].id in t.deps && (forall j :: 0 <= j < i ==> all[j].id != all[i].id) ==>
           all[i].status == Done || all[i].status == Dropped
  {
    hide SlotFrom;
    forall i | 0 <= i < |all| && (forall j :: 0 <= j < i ==> all[j].id != all[i].id)
      ensures Slot(all, all[i].id) == Some(i)
    {
    }
  }

  /** The startable rows keep their order. */
  lemma {:induction false} ReadyKeepsOrder(a: seq<Task>, b: seq<Task>, all: seq<Task>)
    ensures ReadyAmong(a + b, all) == ReadyAmong(a, all) + ReadyAmong(b, all)
  {
    hide IsReady;
    if a == [] {
      assert a + b == b;
    } else {
      assert (a + b)[1..] == a[1..] + b;
      ReadyKeepsOrder(a[1..], b, all);
    }
  }

  function OpenRows(tasks: seq<Task>): set<nat> {
    set i: nat | i < |tasks| && tasks[i].status.IsOpen()
  }

  function DoneRows(tasks: seq<Task>): set<nat> {
    set i: nat | i < |tasks| && tasks[i].status == Done
  }

  function KeptRows(tasks: seq<Task>): set<nat> {
    set i: nat | i < |tasks| && tasks[i].status != Dropped
  }

  /** `progress`: dropped rows count as neither, and the bar is full exactly when nothing is open. */
  method Progress(tasks: seq<Task>) returns (done: nat, total: nat)
    ensures done == |DoneRows(tasks)| && total == |KeptRows(tasks)|
    ensures total - done == |OpenRows(tasks)|
  {
    done, total := 0, 0;
    for i := 0 to |tasks|
      invariant done == |DoneRows(tasks[..i])| && total == |KeptRows(tasks[..i])|
    {
      var t := tasks[i];
      RowsGrow(tasks, i);
      if t.status == Dropped {
        continue;
      }
      total := total + 1;
      if t.status == Done {
        done := done + 1;
      }
    }
    assert tasks[..|tasks|] == tasks;
    KeptIsDoneOrOpen(tasks);
  }

  lemma RowsGrow(tasks: seq<Task>, i: nat)
    requires i < |tasks|
    ensures DoneRows(tasks[..i + 1]) == DoneRows(tasks[..i]) + (if tasks[i].status == Done then {i} else {})
    ensures KeptRows(tasks[..i + 1]) == KeptRows(tasks[..i]) + (if tasks[i].status != Dropped then {i} else {})
  {
  }

  lemma KeptIsDoneOrOpen(tasks: seq<Task>)
    ensures |KeptRows(tasks)| == |DoneRows(tasks)| + |OpenRows(tasks)|
  {
    assert KeptRows(tasks) == DoneRows(tasks) + OpenRows(tasks);
    assert DoneRows(tasks) !! OpenRows(tasks);
  }

  // ----- no deadlock -----

  /** Nothing is waiting on a run or on somebody. */
  ghost predicate NothingHeld(tasks: seq<Task>) {
    forall t :: t in tasks ==> t.status != Blocked && t.status != Waiting
  }

  lemma UniqueSlot(tasks: seq<Task>, i: nat)
    requires NoRepeats(IdsOf(tasks)) && i < |tasks|
    ensures Slot(tasks, tasks[i].id) == Some(i)
  {
    var j := Slot(tasks, tasks[i].id).value;
    assert IdsOf(tasks)[j] == IdsOf(tasks)[i];
  }

  /** From any `Todo` row, following an unlanded dependency goes down the rank, so it ends at a row that can start. */
  lemma {:induction false} DescendToReady(tasks: seq<Task>, rank: map<string, nat>, i: nat) returns (j: nat)
    requires NoRepeats(IdsOf(tasks)) && IsRank(tasks, rank) && NothingHeld(tasks)
    requires i < |tasks| && tasks[i].status == Todo
    ensures j < |tasks| && IsReady(tasks[j], tasks)
    decreases if tasks[i].id in rank then rank[tasks[i].id] else 0
  {
    if IsReady(tasks[i], tasks) {
      j := i;
    } else {
      var d :| d in tasks[i].deps && Slot(tasks, d).Some? && !tasks[Slot(tasks, d).value].status.SatisfiesDependency();
      var k := Slot(tasks, d).value;
      UniqueSlot(tasks, i);
      assert Edge(tasks, tasks[i].id, d);
      assert tasks[k] in tasks;
      j := DescendToReady(tasks, rank, k);
    }
  }

  /** A usable plan with an open row, none of them held, always has a row that can start. */
  lemma NoDeadlock(tasks: seq<Task>)
    requires ValidPlan(tasks) && NothingHeld(tasks) && OpenRows(tasks) != {}
    ensures Ready(tasks) != []
  {
    var rank :| IsRank(tasks, rank);
    var i :| i in OpenRows(tasks);
    assert tasks[i] in tasks;
    var j := DescendToReady(tasks, rank, i);
    assert tasks[j] in Ready(tasks);
  }

  // ----- draining a plan -----

  /** Every open row may be completed as soon as it can start. */
  ghost predicate Drainable(tasks: seq<Task>) {
    ValidPlan(tasks) && NothingHeld(tasks) && forall t :: t in tasks && t.status.IsOpen() ==> GateOpen(t)
  }

  /** A row to complete, and the evidence to complete it with. */
  datatype Pick = Pick(id: string, evidence: Evidence)

  ghost function Picked(tasks: seq<Task>, p: Pick): seq<Task> {
    Step(tasks, Complete(p.id, p.evidence))
  }

  /** Each pick in turn names a row that can start, and completing it is accepted. */
  ghost predicate IsSchedule(tasks: seq<Task>, picks: seq<Pick>)
    decreases |picks|
  {
    picks == []
    || (Slot(tasks, picks[0].id).Some? && IsReady(tasks[Slot(tasks, picks[0].id).value], tasks)
        && CompleteOutcome(tasks, picks[0].id, picks[0].evidence).Ok?
        && IsSchedule(Picked(tasks, picks[0]), picks[1..]))
  }

  ghost function After(tasks: seq<Task>, picks: seq<Pick>): seq<Task>
    decreases |picks|
  {
    if picks == [] then tasks else After(Picked(tasks, picks[0]), picks[1..])
  }

  /** The first pick of a schedule lands one open row and leaves every other row as it was. */
  lemma PickLands(tasks: seq<Task>, picks: seq<Pick>) returns (slot: nat, next: seq<Task>)
    requires IsSchedule(tasks, picks) && picks != []
    ensures slot in OpenRows(tasks) && Slot(tasks, picks[0].id) == Some(slot) && tasks[slot].id == picks[0].id
    ensures IsReady(tasks[slot], tasks)
    ensures next == tasks[slot := Completed(tasks[slot], picks[0].evidence)] && IdsOf(next) == IdsOf(tasks)
    ensures IsSchedule(next, picks[1..]) && After(tasks, picks) == After(next, picks[1..])
    ensures OpenRows(next) == OpenRows(tasks) - {slot}
  {
    slot := Slot(tasks, picks[0].id).value;
    next := Picked(tasks, picks[0]);
  }

  lemma PickKeepsDrainable(tasks: seq<Task>, slot: nat, e: Evidence)
    requires Drainable(tasks) && slot < |tasks|
    ensures Drainable(tasks[slot := Completed(tasks[slot], e)])
  {
    CompleteKeepsPlan(tasks, slot, e);
  }

  /** Any schedule lands exactly one open row a pick; when no row can start any more, the bar is full. */
  lemma {:induction false} SchedulesDrain(tasks: seq<Task>, picks: seq<Pick>)
    requires Drainable(tasks) && IsSchedule(tasks, picks)
    ensures Drainable(After(tasks, picks))
    ensures |OpenRows(tasks)| == |picks| + |OpenRows(After(tasks, picks))|
    ensures Ready(After(tasks, picks)) == [] ==>
              |picks| == |OpenRows(tasks)| && DoneRows(After(tasks, picks)) == KeptRows(After(tasks, picks))
    decreases |picks|
  {
    hide Drainable, Ready, IsSchedule, Completed, IsReady;
    if picks == [] {
      if Ready(tasks) == [] {
        NothingReadyMeansFull(tasks);
      }
    } else {
      var slot, next := PickLands(tasks, picks);
      PickKeepsDrainable(tasks, slot, picks[0].evidence);
      SchedulesDrain(next, picks[1..]);
    }
  }

  lemma NothingReadyMeansFull(tasks: seq<Task>)
    requires Drainable(tasks) && Ready(tasks) == []
    ensures OpenRows(tasks) == {} && DoneRows(tasks) == KeptRows(tasks)
  {
    if OpenRows(tasks) != {} {
      NoDeadlock(tasks);
      assert false;
    }
    forall i: nat | i < |tasks|
      ensures !tasks[i].status.IsOpen()
    {
      assert i !in OpenRows(tasks);
    }
  }

  lemma FirstReady(tasks: seq<Task>) returns (i: nat)
    requires Ready(tasks) != []
    ensures i < |tasks| && IsReady(tasks[i], tasks)
  {
    hide IsReady;
    var t := Ready(tasks)[0];
    assert t in Ready(tasks);
    i :| i < |tasks| && tasks[i] == t;
  }

  lemma OneIsSchedule(tasks: seq<Task>, i: nat, e: Evidence)
    requires Drainable(tasks) && Trim(e.value) != "" && i < |tasks| && IsReady(tasks[i], tasks)
    ensures IsSchedule(tasks, [Pick(tasks[i].id, e)])
  {
    hide Completed, Trim, GateIsGreen;
    UniqueSlot(tasks, i);
    assert tasks[i] in tasks && tasks[i].status.IsOpen();
  }

  /** The first pick of a schedule can be followed by any schedule of what it leaves. */
  lemma ScheduleGrows(tasks: seq<Task>, p: Pick, rest: seq<Pick>)
    requires IsSchedule(tasks, [p]) && IsSchedule(Picked(tasks, p), rest)
    ensures IsSchedule(tasks, [p] + rest) && After(tasks, [p] + rest) == After(Picked(tasks, p), rest)
  {
    hide Slot, IsReady, CompleteOutcome, Picked;
    assert ([p] + rest)[1..] == rest;
  }

  /** Completing whatever can start, each with its own proof, until nothing can, is always possible. */
  lemma {:induction false} ScheduleExists(tasks: seq<Task>, proof: string -> Evidence) returns (picks: seq<Pick>)
    requires Drainable(tasks) && forall id :: Trim(proof(id).value) != ""
    ensures IsSchedule(tasks, picks) && Ready(After(tasks, picks)) == []
    ensures forall i :: 0 <= i < |picks| ==> picks[i].evidence == proof(picks[i].id)
    decreases |OpenRows(tasks)|
  {
    hide Completed, Trim, Drainable, IsReady, Ready, Slot;
    if Ready(tasks) == [] {
      picks := [];
    } else {
      var i := FirstReady(tasks);
      var p := Pick(tasks[i].id, proof(tasks[i].id));
      OneIsSchedule(tasks, i, p.evidence);
      var slot, next := PickLands(tasks, [p]);
      PickKeepsDrainable(tasks, slot, p.evidence);
      var rest := ScheduleExists(next, proof);
      ScheduleGrows(tasks, p, rest);
      picks := [p] + rest;
    }
  }

  ghost predicate PickedBefore(picks: seq<Pick>, k: nat, id: string) {
    exists j :: 0 <= j < k && j < |picks| && picks[j].id == id
  }

  /** Every listed dependency of the k-th pick had landed before the schedule, or was an earlier pick. */
  lemma {:induction false} ScheduleRespectsDeps(tasks: seq<Task>, picks: seq<Pick>, k: nat, d: string)
    requires IsSchedule(tasks, picks) && k < |picks|
    requires d in DepsOf(tasks, picks[k].id) && Listed(tasks, d)
    ensures tasks[Slot(tasks, d).value].status.SatisfiesDependency() || PickedBefore(picks, k, d)
    decreases |picks|
  {
    hide IsSchedule, IsReady, Completed, Slot, DepsOf, Listed, Picked, CompleteOutcome, PickedBefore;
    var slot, next := PickLands(tasks, picks);
    if k == 0 {
      ReadyHasLandedDeps(tasks, slot, picks[0].id, d);
    } else {
      DepsStay(tasks, slot, picks[0].evidence, picks[k].id, d);
      ScheduleRespectsDeps(next, picks[1..], k - 1, d);
      PickedBeforeShifts(picks, k, d);
    }
  }

  lemma PickedBeforeShifts(picks: seq<Pick>, k: nat, id: string)
    requires 0 < k && picks != []
    ensures PickedBefore(picks, k, id) <==> picks[0].id == id || PickedBefore(picks[1..], k - 1, id)
  {
    if PickedBefore(picks[1..], k - 1, id) {
      var j :| 0 <= j < k - 1 && j < |picks[1..]| && picks[1..][j].id == id;
      assert picks[j + 1].id == id;
    }
    if PickedBefore(picks, k, id) {
      var j :| 0 <= j < k && j < |picks| && picks[j].id == id;
      assert j > 0 ==> picks[1..][j - 1].id == id;
    }
  }

  /** Completing a row changes no dependency, and no status but its own. */
  lemma DepsStay(tasks: seq<Task>, slot: nat, e: Evidence, id: string, d: string)
    requires slot < |tasks| && IdsOf(tasks[slot := Completed(tasks[slot], e)]) == IdsOf(tasks)
    ensures var next := tasks[slot := Completed(tasks[slot], e)];
      && DepsOf(next, id) == DepsOf(tasks, id) && (Listed(next, d) <==> Listed(tasks, d))
      && (Listed(tasks, d) ==>
            && Slot(next, d) == Slot(tasks, d)
            && (tasks[Slot(tasks, d).value] == next[Slot(tasks, d).value] || d == tasks[slot].id))
  {
    hide Slot;
    var next := tasks[slot := Completed(tasks[slot], e)];
    SameIdsSameSlots(tasks, next, id);
    SameIdsSameSlots(tasks, next, d);
  }

  lemma ReadyHasLandedDeps(tasks: seq<Task>, slot: nat, id: string, d: string)
    requires slot < |tasks| && Slot(tasks, id) == Some(slot) && IsReady(tasks[slot], tasks)
    requires d in DepsOf(tasks, id) && Listed(tasks, d)
    ensures tasks[Slot(tasks, d).value].status.SatisfiesDependency()
  {
  }
}
