/** The dependency graph of a project's plan and the search for a cycle in it (src/project_tasks.rs). */
module TaskGraph {
  import opened Prelude

  datatype Status = Todo | Waiting | Blocked | Done | Dropped {
    predicate SatisfiesDependency() { Done? || Dropped? }
    predicate IsOpen() { Todo? || Waiting? || Blocked? }
  }

  datatype EvidenceKind = Commit | RunLog | Finding | FilePath | Note

  datatype Evidence = Evidence(kind: EvidenceKind, value: string)

  datatype PendingRun = PendingRun(what: string, runId: string)

  datatype Task = Task(
    id: string,
    title: string,
    detail: string,
    status: Status,
    deps: seq<string>,
    assignee: Option<string>,
    mutatesWorkspace: bool,
    pendingRun: Option<PendingRun>,
    gate: Option<string>,
    attempts: nat,
    evidence: seq<Evidence>,
    blockedReason: Option<string>)

  function SlotFrom(tasks: seq<Task>, id: string, k: nat): (r: Option<nat>)
    requires k <= |tasks|
    ensures r.Some? ==> k <= r.value < |tasks| && tasks[r.value].id == id && forall j :: k <= j < r.value ==>
        tasks[j].id != id
    ensures r.None? ==> forall j :: k <= j < |tasks| ==> tasks[j].id != id
    decreases |tasks| - k
  {
    if k == |tasks| then None
    else if tasks[k].id == id then Some(k)
    else SlotFrom(tasks, id, k + 1)
  }

  /** The first row with this id, as `iter().position` and `iter().find` see it. */
  function Slot(tasks: seq<Task>, id: string): (r: Option<nat>)
    ensures r.Some? ==> r.value < |tasks| && tasks[r.value].id == id && forall j :: 0 <= j < r.value ==>
        tasks[j].id != id
    ensures r.None? ==> forall j :: 0 <= j < |tasks| ==> tasks[j].id != id
  {
    SlotFrom(tasks, id, 0)
  }

  predicate Listed(tasks: seq<Task>, id: string) {
    Slot(tasks, id).Some?
  }

  function DepsOf(tasks: seq<Task>, id: string): seq<string> {
    match Slot(tasks, id)
    case None => []
    case Some(j) => tasks[j].deps
  }

  /** `u` waits for `v`, and both are rows of the list. */
  predicate Edge(tasks: seq<Task>, u: string, v: string) {
    Listed(tasks, u) && Listed(tasks, v) && v in DepsOf(tasks, u)
  }

  /** A topological rank: every dependency ranks strictly below its dependent. */
  ghost predicate IsRank(tasks: seq<Task>, rank: map<string, nat>) {
    forall u, v :: Edge(tasks, u, v) ==> u in rank && v in rank && rank[v] < rank[u]
  }

  ghost predicate Acyclic(tasks: seq<Task>) {
    exists rank :: IsRank(tasks, rank)
  }

  ghost predicate IsWalk(tasks: seq<Task>, path: seq<string>) {
    forall i :: 0 <= i < |path| - 1 ==> Edge(tasks, path[i], path[i + 1])
  }

  /** A closed walk along at least one dependency edge. */
  ghost predicate IsCycle(tasks: seq<Task>, path: seq<string>) {
    |path| >= 2 && path[0] == path[|path| - 1] && IsWalk(tasks, path)
  }

  lemma {:induction false} RankFallsAlongWalk(tasks: seq<Task>, rank: map<string, nat>, path: seq<string>)
    requires IsRank(tasks, rank) && IsWalk(tasks, path) && |path| >= 2
    ensures path[0] in rank && path[|path| - 1] in rank && rank[path[|path| - 1]] < rank[path[0]]
  {
    assert Edge(tasks, path[0], path[1]);
    if |path| > 2 {
      var rest := path[1..];
      forall i | 0 <= i < |rest| - 1
        ensures Edge(tasks, rest[i], rest[i + 1])
      {
        assert rest[i] == path[i + 1];
      }
      RankFallsAlongWalk(tasks, rank, rest);
    }
  }

  /** A cycle and a topological rank exclude each other. */
  lemma CycleRefutesRank(tasks: seq<Task>, path: seq<string>)
    requires IsCycle(tasks, path)
    ensures !Acyclic(tasks)
  {
    if rank :| IsRank(tasks, rank) {
      RankFallsAlongWalk(tasks, rank, path);
      assert false;
    }
  }

  datatype Mark = Unseen | InProgress | Finished

  predicate Marked(tasks: seq<Task>, marks: seq<Mark>, id: string, m: Mark) {
    var slot := Slot(tasks, id);
    slot.Some? && slot.value < |marks| && marks[slot.value] == m
  }

  /** The ids with a mark are exactly those of a collection. */
  ghost predicate MarksAre(tasks: seq<Task>, marks: seq<Mark>, m: Mark, ids: iset<string>) {
    forall id :: Marked(tasks, marks, id, m) <==> id in ids
  }

  ghost predicate Ranked(tasks: seq<Task>, rank: map<string, nat>, clock: nat) {
    && (forall u :: u in rank ==> rank[u] < clock)
    && (forall u, v :: u in rank && Edge(tasks, u, v) ==> v in rank && rank[v] < rank[u])
  }

  function Ids(stack: seq<string>): iset<string> {
    iset id | id in stack
  }

  function Keys(rank: map<string, nat>): iset<string> {
    iset id | id in rank
  }

  /** What the search keeps between calls: the marks agree with the stack and with the rank of the finished ids. */
  ghost predicate Consistent(
    tasks: seq<Task>, marks: seq<Mark>, stack: seq<string>, rank: map<string, nat>, clock: nat)
  {
    && |marks| == |tasks|
    && MarksAre(tasks, marks, InProgress, Ids(stack))
    && MarksAre(tasks, marks, Finished, Keys(rank))
    && IsWalk(tasks, stack)
    && Ranked(tasks, rank, clock)
  }

  function UnseenRows(marks: seq<Mark>): set<nat> {
    set i: nat | i < |marks| && marks[i] == Unseen
  }

  /** Remarking one id moves that id into the new mark's collection and out of every other. */
  lemma Remark(tasks: seq<Task>, marks: seq<Mark>, id: string, m: Mark, n: Mark, ids: iset<string>)
    requires |marks| == |tasks| && Listed(tasks, id) && MarksAre(tasks, marks, n, ids)
    ensures MarksAre(tasks, marks[Slot(tasks, id).value := m], n, if n == m then ids + iset{id} else ids - iset{id})
  {
    var marks' := marks[Slot(tasks, id).value := m];
    forall x
      ensures Marked(tasks, marks', x, n) <==> if x == id then n == m else Marked(tasks, marks, x, n)
    {
      if x != id && Listed(tasks, x) {
        assert Slot(tasks, x).value != Slot(tasks, id).value;
      }
    }
  }

  lemma WalkGrows(tasks: seq<Task>, stack: seq<string>, id: string)
    requires IsWalk(tasks, stack) && (stack != [] ==> Edge(tasks, stack[|stack| - 1], id))
    ensures IsWalk(tasks, stack + [id])
  {
    var longer := stack + [id];
    forall i | 0 <= i < |longer| - 1
      ensures Edge(tasks, longer[i], longer[i + 1])
    {
      if i < |stack| - 1 {
        assert Edge(tasks, stack[i], stack[i + 1]);
      }
    }
  }

  /** Entering an unseen row keeps the search consistent. */
  lemma Opened(tasks: seq<Task>, marks: seq<Mark>, stack: seq<string>, rank: map<string, nat>, clock: nat, id: string)
    requires Consistent(tasks, marks, stack, rank, clock) && Marked(tasks, marks, id, Unseen)
    requires stack != [] ==> Edge(tasks, stack[|stack| - 1], id)
    ensures id !in stack && id !in rank
    ensures Consistent(tasks, marks[Slot(tasks, id).value := InProgress], stack + [id], rank, clock)
  {
    assert id !in Ids(stack) && id !in Keys(rank) by {
      assert !Marked(tasks, marks, id, InProgress) && !Marked(tasks, marks, id, Finished);
    }
    WalkGrows(tasks, stack, id);
    Remark(tasks, marks, id, InProgress, InProgress, Ids(stack));
    Remark(tasks, marks, id, InProgress, Finished, Keys(rank));
    assert Ids(stack) + iset{id} == Ids(stack + [id]) && Keys(rank) - iset{id} == Keys(rank);
  }

  /** Leaving a row whose listed dependencies are all finished keeps the search consistent. */
  lemma Closed(tasks: seq<Task>, marks: seq<Mark>, stack: seq<string>, rank: map<string, nat>, clock: nat, id: string)
    requires Consistent(tasks, marks, stack + [id], rank, clock) && id !in stack
    requires forall v :: Edge(tasks, id, v) ==> v in rank
    ensures Listed(tasks, id) && id !in rank
    ensures Consistent(tasks, marks[Slot(tasks, id).value := Finished], stack, rank[id := clock], clock + 1)
  {
    assert id in Ids(stack + [id]);
    assert Marked(tasks, marks, id, InProgress) && !Marked(tasks, marks, id, Finished);
    assert id !in Keys(rank);
    Remark(tasks, marks, id, Finished, InProgress, Ids(stack + [id]));
    Remark(tasks, marks, id, Finished, Finished, Keys(rank));
    assert Ids(stack + [id]) - iset{id} == Ids(stack) && Keys(rank) + iset{id} == Keys(rank[id := clock]);
    forall i | 0 <= i < |stack| - 1
      ensures Edge(tasks, stack[i], stack[i + 1])
    {
      assert Edge(tasks, (stack + [id])[i], (stack + [id])[i + 1]);
    }
  }

  /** Meeting an id the search is still inside of closes a cycle. */
  lemma StackClosesCycle(tasks: seq<Task>, stack: seq<string>, from: nat, id: string)
    requires IsWalk(tasks, stack) && from < |stack| && stack[from] == id
    requires Edge(tasks, stack[|stack| - 1], id)
    ensures IsCycle(tasks, stack[from..] + [id])
  {
    var tail := stack[from..];
    forall i | 0 <= i < |tail| - 1
      ensures Edge(tasks, tail[i], tail[i + 1])
    {
      assert Edge(tasks, stack[from + i], stack[from + i + 1]);
    }
    WalkGrows(tasks, tail, id);
  }

  /** The state the recursive search threads through its calls: a mark a row, and the ids it is inside of. */
  class CycleSearch {
    const tasks: seq<Task>
    var marks: seq<Mark>
    var stack: seq<string>
    ghost var rank: map<string, nat>
    ghost var clock: nat

    ghost predicate Valid()
      reads this
    {
      Consistent(tasks, marks, stack, rank, clock)
    }

    constructor (tasks: seq<Task>)
      ensures Valid() && this.tasks == tasks && stack == []
    {
      this.tasks := tasks;
      marks := seq(|tasks|, _ => Unseen);
      stack := [];
      rank := map[];
      clock := 0;
    }

    method Visit(id: string) returns (found: Option<seq<string>>)
      requires Valid()
      requires stack != [] && Listed(tasks, id) ==> Edge(tasks, stack[|stack| - 1], id)
      modifies this
      ensures found.Some? ==> IsCycle(tasks, found.value)
      ensures found.None? ==> Valid() && stack == old(stack) && (Listed(tasks, id) ==> id in rank)
      ensures found.None? ==> old(rank).Keys <= rank.Keys && UnseenRows(marks) <= old(UnseenRows(marks))
      decreases UnseenRows(marks)
    {
      var place := Slot(tasks, id);
      if place.None? {
        return None;
      }
      var slot := place.value;
      match marks[slot] {
        case Finished =>
          assert Marked(tasks, marks, id, Finished);
          return None;
        case InProgress =>
          assert Marked(tasks, marks, id, InProgress);
          assert id in stack;
          var from := 0;
          while stack[from] != id
            invariant 0 <= from < |stack| && id !in stack[..from]
            decreases |stack| - from
          {
            from := from + 1;
          }
          StackClosesCycle(tasks, stack, from, id);
          return Some(stack[from..] + [id]);
        case Unseen =>
      }
      Opened(tasks, marks, stack, rank, clock, id);
      marks := marks[slot := InProgress];
      stack := stack + [id];
      assert UnseenRows(marks) == old(UnseenRows(marks)) - {slot};
      var deps := tasks[slot].deps;
      for i := 0 to |deps|
        invariant Valid() && stack == old(stack) + [id]
        invariant old(rank).Keys <= rank.Keys && UnseenRows(marks) <= old(UnseenRows(marks)) - {slot}
        invariant forall j :: 0 <= j < i && Listed(tasks, deps[j]) ==> deps[j] in rank
      {
        found := Visit(deps[i]);
        if found.Some? {
          return found;
        }
      }
      Closed(tasks, marks, old(stack), rank, clock, id);
      stack := stack[..|stack| - 1];
      ghost var open := marks;
      marks := marks[slot := Finished];
      assert UnseenRows(marks) <= UnseenRows(open);
      rank := rank[id := clock];
      clock := clock + 1;
      return None;
    }
  }

  /** The first dependency cycle of a list, or none exactly when the list has a topological rank. */
  method FindCycle(tasks: seq<Task>) returns (found: Option<seq<string>>)
    ensures found.None? <==> Acyclic(tasks)
    ensures found.Some? ==> IsCycle(tasks, found.value)
  {
    var search := new CycleSearch(tasks);
    for i := 0 to |tasks|
      invariant search.Valid() && search.tasks == tasks && search.stack == []
      invariant forall j :: 0 <= j < i ==> tasks[j].id in search.rank
    {
      search.stack := [];
      found := search.Visit(tasks[i].id);
      if found.Some? {
        CycleRefutesRank(tasks, found.value);
        return found;
      }
    }
    assert IsRank(tasks, search.rank);
    return None;
  }
}
