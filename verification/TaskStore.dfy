/** The plan store: adding, updating, completing and validating rows (src/project_tasks.rs). */
module TaskStore {
  import opened Prelude
  import opened Text
  import opened TaskGraph

  const MAX_TASKS: nat := 60

  datatype NewTask = NewTask(
    title: string,
    detail: string,
    deps: seq<string>,
    assignee: Option<string>,
    mutatesWorkspace: Option<bool>,
    gate: Option<string>)

  datatype TaskPatch = TaskPatch(
    title: Option<string>,
    detail: Option<string>,
    deps: Option<seq<string>>,
    assignee: Option<Option<string>>,
    mutatesWorkspace: Option<bool>,
    gate: Option<Option<string>>,
    status: Option<Status>,
    blockedReason: Option<Option<string>>,
    pendingRun: Option<Option<PendingRun>>,
    bumpAttempts: bool)

  datatype PlanError =
    | NoTasks
    | TooMany(total: nat)
    | NoId(row: nat)
    | NoTitle(row: nat)
    | Duplicate(row: nat)
    | BadIndex(row: nat, index: nat)
    | UnknownDep(row: nat, dep: string)
    | SelfDep(row: nat)
    | Cyclic
    | NoSuchTask(id: string)
    | NoEvidence
    | GateClosed

  // ----- what a usable plan is -----

  function IdsOf(tasks: seq<Task>): (ids: seq<string>)
    ensures |ids| == |tasks| && forall i :: 0 <= i < |ids| ==> ids[i] == tasks[i].id
  {
    seq(|tasks|, i requires 0 <= i < |tasks| => tasks[i].id)
  }

  /** A row stands on its own: named, titled, and waiting only for other rows of the list. */
  ghost predicate SoundRow(tasks: seq<Task>, t: Task) {
    && Trim(t.id) != ""
    && Trim(t.title) != ""
    && DepsStand(tasks, t)
  }

  ghost predicate DepsStand(tasks: seq<Task>, t: Task) {
    forall d :: d in t.deps ==> d != t.id && Listed(tasks, d)
  }

  ghost predicate ValidPlan(tasks: seq<Task>) {
    && |tasks| <= MAX_TASKS
    && NoRepeats(IdsOf(tasks))
    && (forall i :: 0 <= i < |tasks| ==> SoundRow(tasks, tasks[i]))
    && Acyclic(tasks)
  }

  /** What each complaint about a list points at. */
  ghost predicate Explains(tasks: seq<Task>, e: PlanError) {
    match e
    case TooMany(total) => total == |tasks| > MAX_TASKS
    case NoId(i) => i < |tasks| && Trim(tasks[i].id) == ""
    case NoTitle(i) => i < |tasks| && Trim(tasks[i].title) == ""
    case Duplicate(i) => i < |tasks| && exists j :: 0 <= j < i && tasks[j].id == tasks[i].id
    case SelfDep(i) => i < |tasks| && tasks[i].id in tasks[i].deps
    case UnknownDep(i, d) => i < |tasks| && d in tasks[i].deps && !Listed(tasks, d)
    case Cyclic => !Acyclic(tasks)
    case _ => false
  }

  /** The first pass of `validate`: every row has an id and a title, and no id appears twice. */
  method CheckRows(tasks: seq<Task>) returns (bad: Option<PlanError>)
    ensures bad.Some? ==> Explains(tasks, bad.value) && !bad.value.Cyclic?
    ensures bad.None? <==> NoRepeats(IdsOf(tasks)) && forall i :: 0 <= i < |tasks| ==>
        Trim(tasks[i].id) != "" && Trim(tasks[i].title) != ""
  {
    var seen: seq<string> := [];
    for i := 0 to |tasks|
      invariant seen == IdsOf(tasks)[..i] && NoRepeats(seen)
      invariant forall j :: 0 <= j < i ==> Trim(tasks[j].id) != "" && Trim(tasks[j].title) != ""
    {
      if Trim(tasks[i].id) == "" {
        return Some(NoId(i));
      }
      if Trim(tasks[i].title) == "" {
        return Some(NoTitle(i));
      }
      if tasks[i].id in seen {
        ghost var j :| 0 <= j < i && seen[j] == tasks[i].id;
        assert IdsOf(tasks)[j] == IdsOf(tasks)[i];
        return Some(Duplicate(i));
      }
      seen := seen + [tasks[i].id];
    }
    return None;
  }

  /** The second pass: no row waits for itself or for a row that is not there. */
  method CheckDeps(tasks: seq<Task>) returns (bad: Option<PlanError>)
    ensures bad.Some? ==> Explains(tasks, bad.value) && !bad.value.Cyclic?
    ensures bad.None? <==> forall i :: 0 <= i < |tasks| ==> DepsStand(tasks, tasks[i])
  {
    for i := 0 to |tasks|
      invariant forall j :: 0 <= j < i ==> DepsStand(tasks, tasks[j])
    {
      var deps := tasks[i].deps;
      for k := 0 to |deps|
        invariant forall j :: 0 <= j < k ==> deps[j] != tasks[i].id && Listed(tasks, deps[j])
      {
        if deps[k] == tasks[i].id {
          assert deps[k] in tasks[i].deps && !DepsStand(tasks, tasks[i]);
          return Some(SelfDep(i));
        }
        if !Listed(tasks, deps[k]) {
          assert !DepsStand(tasks, tasks[i]);
          return Some(UnknownDep(i, deps[k]));
        }
      }
    }
    return None;
  }

  /** `validate` accepts exactly the usable plans, and what it says about the others is true of them. */
  method Validate(tasks: seq<Task>) returns (r: Result<(), PlanError>)
    ensures r.Ok? <==> ValidPlan(tasks)
    ensures r.Err? ==> Explains(tasks, r.error)
  {
    if |tasks| > MAX_TASKS {
      return Err(TooMany(|tasks|));
    }
    var bad := CheckRows(tasks);
    if bad.Some? {
      return Err(bad.value);
    }
    bad := CheckDeps(tasks);
    if bad.Some? {
      return Err(bad.value);
    }
    var cycle := FindCycle(tasks);
    return if cycle.Some? then Err(Cyclic) else Ok(());
  }

  // ----- minting ids -----

  function StripT(s: string): string {
    if s != "" && s[0] == 't' then StripT(s[1..]) else s
  }

  function IdNumber(id: string): nat {
    match ParseUnsigned(StripT(id), U32_MAX)
    case None => 0
    case Some(n) => n
  }

  function HighWater(ids: seq<string>): (n: nat)
    ensures n <= U32_MAX
    ensures forall i :: 0 <= i < |ids| ==> IdNumber(ids[i]) <= n
  {
    if ids == [] then 0
    else
      var before := HighWater(ids[..|ids| - 1]);
      var last := IdNumber(ids[|ids| - 1]);
      if before < last then last else before
  }

  function TaskId(n: nat): string {
    "t" + Decimal(n)
  }

  /** The increment is on a `u32` and wraps in a release build. */
  function NextId(ids: seq<string>): string {
    TaskId((HighWater(ids) + 1) % (U32_MAX + 1))
  }

  function Mint(ids: seq<string>, count: nat): (minted: seq<string>)
    ensures |minted| == count
    decreases count
  {
    if count == 0 then [] else [NextId(ids)] + Mint(ids + [NextId(ids)], count - 1)
  }

  lemma TaskIdNumber(n: nat)
    requires n <= U32_MAX
    ensures IdNumber(TaskId(n)) == n && Trim(TaskId(n)) != ""
  {
    DecimalDigits(n);
    assert StripT(TaskId(n)) == StripT(Decimal(n)) == Decimal(n) by {
      assert TaskId(n)[1..] == Decimal(n);
    }
    DecimalRoundTrip(n, U32_MAX);
    TrimKeepsInk(TaskId(n), 0);
  }

  /** Minting raises the high-water mark by one. */
  lemma HighWaterGrows(ids: seq<string>)
    requires HighWater(ids) < U32_MAX
    ensures IdNumber(NextId(ids)) == HighWater(ids) + 1 && Trim(NextId(ids)) != ""
    ensures HighWater(ids + [NextId(ids)]) == HighWater(ids) + 1
  {
    hide TaskId, IdNumber, Trim;
    var id := TaskId(HighWater(ids) + 1);
    TaskIdNumber(HighWater(ids) + 1);
    assert NextId(ids) == id;
    HighWaterAppend(ids, id);
  }

  lemma HighWaterAppend(ids: seq<string>, id: string)
    ensures HighWater(ids + [id]) == if HighWater(ids) < IdNumber(id) then IdNumber(id) else HighWater(ids)
  {
    assert (ids + [id])[..|ids + [id]| - 1] == ids;
  }

  /** A minted id is new exactly when the high-water mark is below the top of `u32`, or `t0` is still free. */
  lemma NextIdFresh(ids: seq<string>)
    ensures NextId(ids) !in ids <==> HighWater(ids) < U32_MAX || "t0" !in ids
  {
    if HighWater(ids) < U32_MAX {
      HighWaterGrows(ids);
    } else {
      TopWraps(ids);
    }
  }

  lemma TopWraps(ids: seq<string>)
    requires HighWater(ids) == U32_MAX
    ensures NextId(ids) == "t0"
  {
    assert TaskId(0) == "t0";
  }

  /** The wrap does happen: with the top of `u32` in use, the next id is the old `t0`. */
  lemma NextIdReissued()
    ensures NextId([TaskId(U32_MAX), "t0"]) == "t0"
  {
    var ids := [TaskId(U32_MAX), "t0"];
    TaskIdNumber(U32_MAX);
    assert IdNumber(ids[0]) <= HighWater(ids);
    TopWraps(ids);
  }

  ghost predicate Numbered(id: string, n: nat) {
    IdNumber(id) == n && Trim(id) != ""
  }

  lemma MintHead(ids: seq<string>, minted: seq<string>) returns (longer: seq<string>)
    requires minted != [] && minted == Mint(ids, |minted|) && HighWater(ids) < U32_MAX
    ensures Numbered(minted[0], HighWater(ids) + 1)
    ensures minted[1..] == Mint(longer, |minted| - 1) && HighWater(longer) == HighWater(ids) + 1
  {
    longer := ids + [NextId(ids)];
    HighWaterGrows(ids);
  }

  lemma {:induction false} MintCounts(ids: seq<string>, minted: seq<string>, i: nat)
    requires minted == Mint(ids, |minted|) && HighWater(ids) + |minted| <= U32_MAX && i < |minted|
    ensures Numbered(minted[i], HighWater(ids) + 1 + i)
    decreases |minted|
  {
    hide HighWater, Numbered, Mint;
    var longer := MintHead(ids, minted);
    if i > 0 {
      MintCounts(longer, minted[1..], i - 1);
    }
  }

  lemma {:induction false} HighWaterOf(ids: seq<string>, more: seq<string>)
    requires forall i :: 0 <= i < |more| ==> IdNumber(more[i]) == HighWater(ids) + 1 + i
    ensures HighWater(ids + more) == HighWater(ids) + |more|
    decreases |more|
  {
    if more == [] {
      assert ids + more == ids;
    } else {
      var n := |more| - 1;
      assert (ids + more)[..|ids + more| - 1] == ids + more[..n];
      assert IdNumber(more[n]) == HighWater(ids) + 1 + n;
      HighWaterOf(ids, more[..n]);
    }
  }

  lemma MintRaises(ids: seq<string>, count: nat)
    requires HighWater(ids) + count <= U32_MAX
    ensures HighWater(ids + Mint(ids, count)) == HighWater(ids) + count
  {
    hide HighWater, Mint, IdNumber;
    var minted := Mint(ids, count);
    forall i | 0 <= i < count
      ensures IdNumber(minted[i]) == HighWater(ids) + 1 + i
    {
      MintCounts(ids, minted, i);
    }
    HighWaterOf(ids, minted);
  }

  /** While ids stay inside `u32`, a batch's ids are new, distinct and non-blank. */
  lemma MintFresh(ids: seq<string>, count: nat)
    requires HighWater(ids) + count <= U32_MAX && NoRepeats(ids)
    ensures NoRepeats(ids + Mint(ids, count))
    ensures forall i :: 0 <= i < count ==> Trim(Mint(ids, count)[i]) != ""
  {
    hide HighWater, Mint, IdNumber, Trim;
    var minted := Mint(ids, count);
    forall i | 0 <= i < count
      ensures IdNumber(minted[i]) == HighWater(ids) + 1 + i && Trim(minted[i]) != ""
    {
      MintCounts(ids, minted, i);
    }
    var all := ids + minted;
    forall i, j | 0 <= i < j < |all|
      ensures all[i] != all[j]
    {
      if j >= |ids| {
        assert IdNumber(all[j]) == HighWater(ids) + 1 + (j - |ids|);
        assert i < |ids| ==> IdNumber(ids[i]) <= HighWater(ids);
        assert i >= |ids| ==> IdNumber(all[i]) == HighWater(ids) + 1 + (i - |ids|);
      }
    }
  }

  // ----- what each operation does to the list -----

  function Filled(o: Option<string>): Option<string> {
    if o.Some? && Trim(o.value) == "" then None else o
  }

  /** A bare number indexes the batch; anything else must name an existing or a minted id. */
  function ResolveDep(dep: string, row: nat, existing: seq<string>, minted: seq<string>): Result<string, PlanError>
    requires row < |minted|
  {
    var d := Trim(dep);
    match ParseUnsigned(d, USIZE_MAX)
    case Some(index) =>
      if index >= |minted| then Err(BadIndex(row, index))
      else if minted[index] == minted[row] then Err(SelfDep(row))
      else Ok(minted[index])
    case None =>
      if d !in existing && d !in minted then Err(UnknownDep(row, d))
      else if d == minted[row] then Err(SelfDep(row))
      else Ok(d)
  }

  function ResolveEach(deps: seq<string>, row: nat, existing: seq<string>, minted: seq<string>)
    : (each: seq<Result<string, PlanError>>)
    requires row < |minted|
    ensures |each| == |deps| && forall k :: 0 <= k < |deps| ==> each[k] == ResolveDep(deps[k], row, existing, minted)
  {
    seq(|deps|, k requires 0 <= k < |deps| => ResolveDep(deps[k], row, existing, minted))
  }

  /** The first refusal, or what every dependency resolved to, each once. */
  function Collect(each: seq<Result<string, PlanError>>, done: seq<string>): Result<seq<string>, PlanError> {
    if each == [] then Ok(done)
    else
      match each[0]
      case Err(e) => Err(e)
      case Ok(d) => Collect(each[1..], if d in done then done else done + [d])
  }

  function BuildRow(n: NewTask, row: nat, existing: seq<string>, minted: seq<string>): Result<Task, PlanError>
    requires row < |minted|
  {
    if Trim(n.title) == "" then Err(NoTitle(row))
    else
      match Collect(ResolveEach(n.deps, row, existing, minted), [])
      case Err(e) => Err(e)
      case Ok(deps) =>
        Ok(Task(minted[row], Trim(n.title), Trim(n.detail), Todo, deps, Filled(n.assignee),
                if n.mutatesWorkspace.Some? then n.mutatesWorkspace.value else true,
                None, Filled(n.gate), 0, [], None))
  }

  function BuildRows(batch: seq<NewTask>, existing: seq<string>, minted: seq<string>, added: seq<Task>)
    : Result<seq<Task>, PlanError>
    requires |added| <= |batch| == |minted|
    decreases |batch| - |added|
  {
    if |added| == |batch| then Ok(added)
    else
      match BuildRow(batch[|added|], |added|, existing, minted)
      case Err(e) => Err(e)
      case Ok(t) => BuildRows(batch, existing, minted, added + [t])
  }

  ghost function AddOutcome(tasks: seq<Task>, batch: seq<NewTask>): Result<seq<Task>, PlanError> {
    if batch == [] then Err(NoTasks)
    else if |tasks| + |batch| > MAX_TASKS then Err(TooMany(|tasks| + |batch|))
    else
      match BuildRows(batch, IdsOf(tasks), Mint(IdsOf(tasks), |batch|), [])
      case Err(e) => Err(e)
      case Ok(rows) => if Acyclic(tasks + rows) then Ok(rows) else Err(Cyclic)
  }

  /** The first dependency an update may not introduce. */
  function BadDep(tasks: seq<Task>, slot: nat, deps: seq<string>): Option<PlanError>
    requires slot < |tasks|
  {
    if deps == [] then None
    else if deps[0] == tasks[slot].id then Some(SelfDep(slot))
    else if !Listed(tasks, deps[0]) then Some(UnknownDep(slot, deps[0]))
    else BadDep(tasks, slot, deps[1..])
  }

  function Patched(t: Task, p: TaskPatch): Task {
    Task(t.id,
         if p.title.Some? then Trim(p.title.value) else t.title,
         if p.detail.Some? then Trim(p.detail.value) else t.detail,
         if p.status.Some? then p.status.value else t.status,
         if p.deps.Some? then p.deps.value else t.deps,
         if p.assignee.Some? then Filled(p.assignee.value) else t.assignee,
         if p.mutatesWorkspace.Some? then p.mutatesWorkspace.value else t.mutatesWorkspace,
         if p.pendingRun.Some? then p.pendingRun.value else t.pendingRun,
         if p.gate.Some? then Filled(p.gate.value) else t.gate,
         if p.bumpAttempts then t.attempts + 1 else t.attempts,
         t.evidence,
         if p.blockedReason.Some? then p.blockedReason.value else t.blockedReason)
  }

  ghost function UpdateOutcome(tasks: seq<Task>, id: string, p: TaskPatch): Result<Task, PlanError> {
    match Slot(tasks, id)
    case None => Err(NoSuchTask(id))
    case Some(slot) =>
      var bad := if p.deps.Some? then BadDep(tasks, slot, p.deps.value) else None;
      if bad.Some? then Err(bad.value)
      else if p.title.Some? && Trim(p.title.value) == "" then Err(NoTitle(slot))
      else if !Acyclic(tasks[slot := Patched(tasks[slot], p)]) then Err(Cyclic)
      else Ok(Patched(tasks[slot], p))
  }

  predicate GateIsGreen(t: Task) {
    exists i | 0 <= i < |t.evidence| :: t.evidence[i].kind == RunLog && Contains(t.evidence[i].value, "exit 0")
  }

  predicate GateOpen(t: Task) {
    t.gate.None? || GateIsGreen(t)
  }

  function Completed(t: Task, e: Evidence): Task {
    t.(status := Done, blockedReason := None, pendingRun := None, evidence := t.evidence + [e])
  }

  function CompleteOutcome(tasks: seq<Task>, id: string, e: Evidence): Result<Task, PlanError> {
    match Slot(tasks, id)
    case None => Err(NoSuchTask(id))
    case Some(slot) =>
      if Trim(e.value) == "" then Err(NoEvidence)
      else if !GateOpen(tasks[slot]) then Err(GateClosed)
      else Ok(Completed(tasks[slot], e))
  }

  datatype Op = AddMany(batch: seq<NewTask>) | Update(id: string, patch: TaskPatch)
      | Complete(id: string, evidence: Evidence)

  /** The stored list after one call; a rejected call leaves it alone. */
  ghost function Step(tasks: seq<Task>, op: Op): seq<Task> {
    match op
    case AddMany(batch) =>
      var r := AddOutcome(tasks, batch);
      if r.Ok? then tasks + r.value else tasks
    case Update(id, patch) =>
      var r := UpdateOutcome(tasks, id, patch);
      if r.Ok? then tasks[Slot(tasks, id).value := r.value] else tasks
    case Complete(id, e) =>
      var r := CompleteOutcome(tasks, id, e);
      if r.Ok? then tasks[Slot(tasks, id).value := r.value] else tasks
  }

  ghost function Run(tasks: seq<Task>, ops: seq<Op>): seq<Task>
    decreases |ops|
  {
    if ops == [] then tasks else Run(Step(tasks, ops[0]), ops[1..])
  }

  /** Mint every id of a batch first, so its rows can refer to each other by index. */
  method MintIds(existing: seq<string>, count: nat) returns (minted: seq<string>)
    ensures minted == Mint(existing, count)
  {
    minted := [];
    var scratch := existing;
    for i := 0 to count
      invariant Mint(existing, count) == minted + Mint(scratch, count - i)
    {
      var id := NextId(scratch);
      scratch := scratch + [id];
      minted := minted + [id];
    }
  }

  method MakeRow(n: NewTask, row: nat, existing: seq<string>, minted: seq<string>) returns (r: Result<Task, PlanError>)
    requires row < |minted|
    ensures r == BuildRow(n, row, existing, minted)
  {
    if Trim(n.title) == "" {
      return Err(NoTitle(row));
    }
    ghost var each := ResolveEach(n.deps, row, existing, minted);
    var deps: seq<string> := [];
    for k := 0 to |n.deps|
      invariant Collect(each, []) == Collect(each[k..], deps)
    {
      var resolved := ResolveDep(n.deps[k], row, existing, minted);
      assert each[k..][0] == resolved && each[k..][1..] == each[k + 1..];
      if resolved.Err? {
        return Err(resolved.error);
      }
      if resolved.value !in deps {
        deps := deps + [resolved.value];
      }
    }
    return Ok(Task(minted[row], Trim(n.title), Trim(n.detail), Todo, deps, Filled(n.assignee),
                   if n.mutatesWorkspace.Some? then n.mutatesWorkspace.value else true,
                   None, Filled(n.gate), 0, [], None));
  }

  /** `add_many` up to the point where it saves: the rows to append, or the reason it refuses. */
  method PlanBatch(tasks: seq<Task>, batch: seq<NewTask>) returns (r: Result<seq<Task>, PlanError>)
    ensures r == AddOutcome(tasks, batch)
  {
    if batch == [] {
      return Err(NoTasks);
    }
    if |tasks| + |batch| > MAX_TASKS {
      return Err(TooMany(|tasks| + |batch|));
    }
    var existing := IdsOf(tasks);
    var minted := MintIds(existing, |batch|);
    var added: seq<Task> := [];
    for i := 0 to |batch|
      invariant |added| == i
      invariant BuildRows(batch, existing, minted, []) == BuildRows(batch, existing, minted, added)
    {
      var row := MakeRow(batch[i], i, existing, minted);
      if row.Err? {
        return Err(row.error);
      }
      added := added + [row.value];
    }
    var cycle := FindCycle(tasks + added);
    return if cycle.Some? then Err(Cyclic) else Ok(added);
  }

  /** One project's stored list and the calls that change it. */
  class PlanStore {
    var tasks: seq<Task>

    constructor ()
      ensures tasks == []
    {
      tasks := [];
    }

    method AddMany(batch: seq<NewTask>) returns (r: Result<seq<Task>, PlanError>)
      modifies this
      ensures r == AddOutcome(old(tasks), batch)
      ensures tasks == Step(old(tasks), Op.AddMany(batch))
    {
      r := PlanBatch(tasks, batch);
      if r.Ok? {
        tasks := tasks + r.value;
      }
    }

    method Update(id: string, patch: TaskPatch) returns (r: Result<Task, PlanError>)
      modifies this
      ensures r == UpdateOutcome(old(tasks), id, patch)
      ensures tasks == Step(old(tasks), Op.Update(id, patch))
    {
      var place := Slot(tasks, id);
      if place.None? {
        return Err(NoSuchTask(id));
      }
      var slot := place.value;
      if patch.deps.Some? {
        var deps := patch.deps.value;
        for k := 0 to |deps|
          invariant BadDep(tasks, slot, deps) == BadDep(tasks, slot, deps[k..])
        {
          if deps[k] == id {
            return Err(SelfDep(slot));
          }
          if !Listed(tasks, deps[k]) {
            return Err(UnknownDep(slot, deps[k]));
          }
        }
      }
      if patch.title.Some? && Trim(patch.title.value) == "" {
        return Err(NoTitle(slot));
      }
      var changed := tasks[slot := Patched(tasks[slot], patch)];
      var cycle := FindCycle(changed);
      if cycle.Some? {
        return Err(Cyclic);
      }
      tasks := changed;
      return Ok(changed[slot]);
    }

    method Complete(id: string, evidence: Evidence) returns (r: Result<Task, PlanError>)
      modifies this
      ensures r == CompleteOutcome(old(tasks), id, evidence)
      ensures tasks == Step(old(tasks), Op.Complete(id, evidence))
    {
      var place := Slot(tasks, id);
      if place.None? {
        return Err(NoSuchTask(id));
      }
      var slot := place.value;
      if Trim(evidence.value) == "" {
        return Err(NoEvidence);
      }
      if tasks[slot].gate.Some? && !GateIsGreen(tasks[slot]) {
        return Err(GateClosed);
      }
      tasks := tasks[slot := Completed(tasks[slot], evidence)];
      return Ok(tasks[slot]);
    }
  }

  // ----- what every operation keeps -----

  /** Every dependency a row ends up with was asked for, and every one asked for is there, once. */
  ghost predicate Collects(each: seq<Result<string, PlanError>>, deps: seq<string>) {
    && NoRepeats(deps)
    && (forall k :: 0 <= k < |each| ==> each[k].Ok? && each[k].value in deps)
    && (forall d :: d in deps ==> Ok(d) in each)
  }

  lemma {:induction false} CollectCollects(
    before: seq<Result<string, PlanError>>, left: seq<Result<string, PlanError>>, done: seq<string>)
    requires Collects(before, done) && Collect(left, done).Ok?
    ensures Collects(before + left, Collect(left, done).value)
    decreases |left|
  {
    hide Collects;
    if left == [] {
      assert before + left == before;
    } else {
      var d := left[0].value;
      CollectsOne(before, done, d);
      assert before + [left[0]] + left[1..] == before + left;
      CollectCollects(before + [left[0]], left[1..], if d in done then done else done + [d]);
    }
  }

  lemma CollectsOne(before: seq<Result<string, PlanError>>, done: seq<string>, d: string)
    requires Collects(before, done)
    ensures Collects(before + [Ok(d)], if d in done then done else done + [d])
  {
    assert (before + [Ok(d)])[|before|] == Ok(d);
    forall x | x in done
      ensures Ok(x) in before + [Ok(d)]
    {
      assert Ok(x) in before;
    }
  }

  /** What was asked for is kept as it is, unless it is blank. */
  ghost predicate Kept(kept: Option<string>, asked: Option<string>) {
    if asked.Some? && Trim(asked.value) != "" then kept == asked else kept.None?
  }

  /**
   * Row `i` of an accepted batch carries minted id `i`, what was asked for, trimmed, and nothing else; it has not
   * started.
   */
  ghost predicate RowFor(n: NewTask, i: nat, existing: seq<string>, minted: seq<string>, t: Task)
    requires i < |minted|
  {
    && t.id == minted[i] && t.title == Trim(n.title) != "" && t.status == Todo
    && t.detail == Trim(n.detail) && t.mutatesWorkspace == (n.mutatesWorkspace != Some(false))
    && Kept(t.assignee, n.assignee) && Kept(t.gate, n.gate)
    && t.pendingRun.None? && t.attempts == 0 && t.evidence == [] && t.blockedReason.None?
    && Collects(ResolveEach(n.deps, i, existing, minted), t.deps)
  }

  ghost predicate RowsFor(batch: seq<NewTask>, existing: seq<string>, minted: seq<string>, rows: seq<Task>) {
    && |rows| == |batch| == |minted|
    && IdsOf(rows) == minted
    && forall i :: 0 <= i < |rows| ==> RowFor(batch[i], i, existing, minted, rows[i])
  }

  lemma BuildRowBuilds(n: NewTask, row: nat, existing: seq<string>, minted: seq<string>)
    requires row < |minted| && BuildRow(n, row, existing, minted).Ok?
    ensures RowFor(n, row, existing, minted, BuildRow(n, row, existing, minted).value)
  {
    hide Trim, Collect, ResolveEach;
    var each := ResolveEach(n.deps, row, existing, minted);
    assert [] + each == each;
    CollectCollects([], each, []);
  }

  lemma {:induction false} BuildRowsBuilds(
    batch: seq<NewTask>, existing: seq<string>, minted: seq<string>, added: seq<Task>)
    requires |added| <= |batch| == |minted|
    requires forall i :: 0 <= i < |added| ==> RowFor(batch[i], i, existing, minted, added[i])
    requires BuildRows(batch, existing, minted, added).Ok?
    ensures RowsFor(batch, existing, minted, BuildRows(batch, existing, minted, added).value)
    decreases |batch| - |added|
  {
    hide RowFor, BuildRow;
    if |added| < |batch| {
      var row := |added|;
      BuildRowBuilds(batch[row], row, existing, minted);
      BuildRowsBuilds(batch, existing, minted, added + [BuildRow(batch[row], row, existing, minted).value]);
    } else {
      RowsHaveIds(batch, existing, minted, added);
    }
  }

  lemma RowsHaveIds(batch: seq<NewTask>, existing: seq<string>, minted: seq<string>, added: seq<Task>)
    requires |added| == |batch| == |minted|
    requires forall i :: 0 <= i < |added| ==> RowFor(batch[i], i, existing, minted, added[i])
    ensures IdsOf(added) == minted
  {
    hide Trim, Collects, ResolveEach;
    forall i | 0 <= i < |added|
      ensures IdsOf(added)[i] == minted[i]
    {
      assert RowFor(batch[i], i, existing, minted, added[i]);
    }
  }

  /** An accepted batch is one row a request, each carrying exactly what was asked for it. */
  lemma AddedRows(tasks: seq<Task>, batch: seq<NewTask>)
    requires AddOutcome(tasks, batch).Ok?
    ensures RowsFor(batch, IdsOf(tasks), Mint(IdsOf(tasks), |batch|), AddOutcome(tasks, batch).value)
  {
    hide BuildRows, RowsFor, RowFor, Mint, Acyclic;
    BuildRowsBuilds(batch, IdsOf(tasks), Mint(IdsOf(tasks), |batch|), []);
  }

  /** No id the store could still mint passes the top of `u32`. */
  ghost predicate Roomy(tasks: seq<Task>) {
    HighWater(IdsOf(tasks)) + MAX_TASKS <= U32_MAX + |tasks|
  }

  /** A row that stands in a list still stands when rows are appended. */
  lemma SoundRowStays(tasks: seq<Task>, more: seq<Task>, t: Task)
    requires SoundRow(tasks, t)
    ensures SoundRow(tasks + more, t)
  {
    var all := tasks + more;
    forall d | d in t.deps
      ensures d != t.id && Listed(all, d)
    {
      assert all[Slot(tasks, d).value].id == d;
    }
  }

  /** A new row stands in the longer list. */
  lemma NewRowStands(tasks: seq<Task>, rows: seq<Task>, n: NewTask, i: nat, ids: seq<string>, minted: seq<string>)
    requires IdsOf(tasks) == ids && IdsOf(rows) == minted
    requires i < |minted| && RowFor(n, i, ids, minted, rows[i]) && Trim(minted[i]) != ""
    ensures SoundRow(tasks + rows, rows[i])
  {
    assert IdsOf(tasks + rows) == ids + minted;
    TrimIdempotent(n.title);
    RowIsSound(tasks + rows, n, i, ids, minted, rows[i]);
  }

  lemma AddedRowsAreSound(tasks: seq<Task>, batch: seq<NewTask>, minted: seq<string>, rows: seq<Task>)
    requires forall i :: 0 <= i < |tasks| ==> SoundRow(tasks, tasks[i])
    requires RowsFor(batch, IdsOf(tasks), minted, rows)
    requires forall i :: 0 <= i < |minted| ==> Trim(minted[i]) != ""
    ensures forall i :: 0 <= i < |tasks + rows| ==> SoundRow(tasks + rows, (tasks + rows)[i])
  {
    hide RowFor, SoundRow, Trim;
    var all := tasks + rows;
    forall i | 0 <= i < |all|
      ensures SoundRow(all, all[i])
    {
      if i < |tasks| {
        SoundRowStays(tasks, rows, tasks[i]);
      } else {
        var k := i - |tasks|;
        NewRowStands(tasks, rows, batch[k], k, IdsOf(tasks), minted);
      }
    }
  }

  lemma PlanGrows(tasks: seq<Task>, batch: seq<NewTask>, minted: seq<string>, rows: seq<Task>)
    requires ValidPlan(tasks) && RowsFor(batch, IdsOf(tasks), minted, rows)
    requires NoRepeats(IdsOf(tasks) + minted) && forall i :: 0 <= i < |minted| ==> Trim(minted[i]) != ""
    requires |tasks| + |rows| <= MAX_TASKS && Acyclic(tasks + rows)
    ensures ValidPlan(tasks + rows) && IdsOf(tasks + rows) == IdsOf(tasks) + minted
  {
    hide RowFor, SoundRow, Acyclic, NoRepeats;
    assert IdsOf(tasks + rows) == IdsOf(tasks) + minted;
    AddedRowsAreSound(tasks, batch, minted, rows);
  }

  lemma AddKeepsPlan(tasks: seq<Task>, batch: seq<NewTask>)
    requires ValidPlan(tasks) && Roomy(tasks) && AddOutcome(tasks, batch).Ok?
    ensures ValidPlan(tasks + AddOutcome(tasks, batch).value) && Roomy(tasks + AddOutcome(tasks, batch).value)
  {
    var ids := IdsOf(tasks);
    MintRaises(ids, |batch|);
    MintFresh(ids, |batch|);
    AddedRows(tasks, batch);
    PlanGrows(tasks, batch, Mint(ids, |batch|), AddOutcome(tasks, batch).value);
  }

  lemma ResolvedStands(dep: string, row: nat, existing: seq<string>, minted: seq<string>, d: string)
    requires row < |minted| && ResolveDep(dep, row, existing, minted) == Ok(d)
    ensures d != minted[row] && d in existing + minted
  {
  }

  lemma RowIsSound(all: seq<Task>, n: NewTask, i: nat, ids: seq<string>, minted: seq<string>, t: Task)
    requires i < |minted| && RowFor(n, i, ids, minted, t) && IdsOf(all) == ids + minted
    requires Trim(minted[i]) != "" && Trim(Trim(n.title)) == Trim(n.title)
    ensures SoundRow(all, t)
  {
    var each := ResolveEach(n.deps, i, ids, minted);
    forall d | d in t.deps
      ensures d != t.id && Listed(all, d)
    {
      assert Ok(d) in each;
      var k :| 0 <= k < |each| && each[k] == Ok(d);
      ResolvedStands(n.deps[k], i, ids, minted, d);
      var j :| 0 <= j < |IdsOf(all)| && IdsOf(all)[j] == d;
      assert all[j].id == d;
    }
  }

  lemma {:induction false} SameIdsSameSlots(tasks: seq<Task>, other: seq<Task>, id: string)
    requires IdsOf(tasks) == IdsOf(other)
    ensures Slot(tasks, id) == Slot(other, id)
  {
    assert |tasks| == |other|;
    var a, b := Slot(tasks, id), Slot(other, id);
    if a.Some? {
      assert other[a.value].id == IdsOf(other)[a.value];
    }
    if b.Some? {
      assert tasks[b.value].id == IdsOf(tasks)[b.value];
    }
    assert forall i :: 0 <= i < |tasks| ==> tasks[i].id == IdsOf(tasks)[i] && other[i].id == IdsOf(other)[i];
  }

  lemma {:induction false} BadDepNone(tasks: seq<Task>, slot: nat, deps: seq<string>)
    requires slot < |tasks| && BadDep(tasks, slot, deps).None?
    ensures forall d :: d in deps ==> d != tasks[slot].id && Listed(tasks, d)
  {
    if deps != [] {
      BadDepNone(tasks, slot, deps[1..]);
      assert deps == [deps[0]] + deps[1..];
    }
  }

  /** Replacing one row by a sound one with the same id keeps the plan usable, provided the result has no cycle. */
  lemma ReplaceKeepsPlan(tasks: seq<Task>, slot: nat, t: Task)
    requires ValidPlan(tasks) && slot < |tasks| && t.id == tasks[slot].id
    requires SoundRow(tasks, t) && Acyclic(tasks[slot := t])
    ensures ValidPlan(tasks[slot := t]) && IdsOf(tasks[slot := t]) == IdsOf(tasks)
  {
    var after := tasks[slot := t];
    assert IdsOf(after) == IdsOf(tasks);
    forall i | 0 <= i < |after|
      ensures SoundRow(after, after[i])
    {
      assert SoundRow(tasks, after[i]);
      forall d | d in after[i].deps
        ensures Listed(after, d)
      {
        SameIdsSameSlots(tasks, after, d);
      }
    }
  }

  /** Completing a row changes no dependency, so it cannot create a cycle. */
  lemma SameDepsSameEdges(tasks: seq<Task>, slot: nat, t: Task)
    requires slot < |tasks| && t.id == tasks[slot].id && t.deps == tasks[slot].deps && Acyclic(tasks)
    ensures Acyclic(tasks[slot := t])
  {
    var after := tasks[slot := t];
    assert IdsOf(after) == IdsOf(tasks);
    var rank :| IsRank(tasks, rank);
    forall u, v | Edge(after, u, v)
      ensures u in rank && v in rank && rank[v] < rank[u]
    {
      SameIdsSameSlots(tasks, after, u);
      SameIdsSameSlots(tasks, after, v);
      assert Edge(tasks, u, v);
    }
    assert IsRank(after, rank);
  }

  lemma UpdateKeepsPlan(tasks: seq<Task>, id: string, patch: TaskPatch)
    requires ValidPlan(tasks) && UpdateOutcome(tasks, id, patch).Ok?
    ensures ValidPlan(Step(tasks, Update(id, patch)))
    ensures IdsOf(Step(tasks, Update(id, patch))) == IdsOf(tasks)
  {
    var slot := Slot(tasks, id).value;
    assert SoundRow(tasks, tasks[slot]);
    if patch.deps.Some? {
      BadDepNone(tasks, slot, patch.deps.value);
    }
    if patch.title.Some? {
      TrimIdempotent(patch.title.value);
    }
    ReplaceKeepsPlan(tasks, slot, Patched(tasks[slot], patch));
  }

  lemma {:induction false} BadDepSame(tasks: seq<Task>, other: seq<Task>, slot: nat, deps: seq<string>)
    requires IdsOf(tasks) == IdsOf(other) && slot < |tasks|
    ensures |other| == |tasks| && BadDep(tasks, slot, deps) == BadDep(other, slot, deps)
  {
    hide Slot, SlotFrom;
    assert IdsOf(tasks)[slot] == IdsOf(other)[slot];
    if deps != [] {
      SameIdsSameSlots(tasks, other, deps[0]);
      BadDepSame(tasks, other, slot, deps[1..]);
    }
  }

  lemma PatchedTwice(t: Task, patch: TaskPatch)
    requires !patch.bumpAttempts
    ensures Patched(Patched(t, patch), patch) == Patched(t, patch)
  {
  }

  /**
   * A patch that does not count an attempt can be sent twice: the second time is answered alike and changes nothing.
   */
  lemma UpdateIsIdempotent(tasks: seq<Task>, id: string, patch: TaskPatch)
    requires !patch.bumpAttempts
    ensures UpdateOutcome(Step(tasks, Update(id, patch)), id, patch) == UpdateOutcome(tasks, id, patch)
    ensures Step(Step(tasks, Update(id, patch)), Update(id, patch)) == Step(tasks, Update(id, patch))
  {
    hide Patched, Slot, BadDep, Trim, Acyclic;
    if UpdateOutcome(tasks, id, patch).Ok? {
      var slot, after := Slot(tasks, id).value, Step(tasks, Update(id, patch));
      PatchedTwice(tasks[slot], patch);
      PatchedKeepsId(tasks[slot], patch);
      assert IdsOf(after) == IdsOf(tasks);
      SameIdsSameSlots(tasks, after, id);
      if patch.deps.Some? {
        BadDepSame(tasks, after, slot, patch.deps.value);
      }
      assert after[slot := Patched(after[slot], patch)] == after;
    }
  }

  lemma PatchedKeepsId(t: Task, patch: TaskPatch)
    ensures Patched(t, patch).id == t.id
  {
  }

  lemma CompleteKeepsPlan(tasks: seq<Task>, slot: nat, e: Evidence)
    requires ValidPlan(tasks) && slot < |tasks|
    ensures ValidPlan(tasks[slot := Completed(tasks[slot], e)])
    ensures IdsOf(tasks[slot := Completed(tasks[slot], e)]) == IdsOf(tasks)
  {
    assert SoundRow(tasks, tasks[slot]);
    SameDepsSameEdges(tasks, slot, Completed(tasks[slot], e));
    ReplaceKeepsPlan(tasks, slot, Completed(tasks[slot], e));
  }

  /** Every call keeps the plan usable, keeps the ids it had in their places, and changes nothing when it refuses. */
  lemma StepKeepsPlan(tasks: seq<Task>, op: Op)
    requires ValidPlan(tasks) && Roomy(tasks)
    ensures ValidPlan(Step(tasks, op)) && Roomy(Step(tasks, op))
    ensures IdsOf(tasks) <= IdsOf(Step(tasks, op))
  {
    hide ValidPlan, AddOutcome, UpdateOutcome, HighWater;
    match op {
      case AddMany(batch) =>
        if AddOutcome(tasks, batch).Ok? {
          AddKeepsPlan(tasks, batch);
        }
      case Update(id, patch) =>
        if UpdateOutcome(tasks, id, patch).Ok? {
          UpdateKeepsPlan(tasks, id, patch);
        }
      case Complete(id, e) =>
        if CompleteOutcome(tasks, id, e).Ok? {
          CompleteKeepsPlan(tasks, Slot(tasks, id).value, e);
        }
    }
  }

  lemma {:induction false} RunKeepsPlan(tasks: seq<Task>, ops: seq<Op>)
    requires ValidPlan(tasks) && Roomy(tasks)
    ensures ValidPlan(Run(tasks, ops)) && Roomy(Run(tasks, ops))
    ensures IdsOf(tasks) <= IdsOf(Run(tasks, ops))
    decreases |ops|
  {
    if ops != [] {
      var next := Step(tasks, ops[0]);
      StepKeepsPlan(tasks, ops[0]);
      RunKeepsPlan(next, ops[1..]);
    }
  }

  lemma NothingPlanned()
    ensures ValidPlan([]) && Roomy([])
  {
    assert IsRank([], map[]);
  }

  /** Every list reachable from the empty one passes `validate`. */
  lemma ReachablePlansAreValid(ops: seq<Op>)
    ensures ValidPlan(Run([], ops))
  {
    NothingPlanned();
    RunKeepsPlan([], ops);
  }

  lemma AddIsNew(tasks: seq<Task>, batch: seq<NewTask>, rows: seq<Task>, t: Task)
    requires ValidPlan(tasks) && Roomy(tasks) && AddOutcome(tasks, batch) == Ok(rows) && t in rows
    ensures t.id !in IdsOf(tasks)
  {
    hide AddOutcome, HighWater;
    AddKeepsPlan(tasks, batch);
    var all := IdsOf(tasks + rows);
    var j :| 0 <= j < |rows| && rows[j] == t;
    forall i | 0 <= i < |tasks|
      ensures IdsOf(tasks)[i] != t.id
    {
      assert all[i] == IdsOf(tasks)[i] && all[|tasks| + j] == t.id;
    }
  }

  /** No id is reissued: a row a later batch adds never carries an id that an earlier list of the run had. */
  lemma IdsNeverReissued(first: seq<Op>, rest: seq<Op>, batch: seq<NewTask>)
    ensures AddOutcome(Run(Run([], first), rest), batch).Ok? ==>
              forall t :: t in AddOutcome(Run(Run([], first), rest), batch).value ==> t.id !in IdsOf(Run([], first))
  {
    hide AddOutcome, ValidPlan, Roomy;
    var early := Run([], first);
    var late := Run(early, rest);
    NothingPlanned();
    RunKeepsPlan([], first);
    RunKeepsPlan(early, rest);
    if AddOutcome(late, batch).Ok? {
      var rows := AddOutcome(late, batch).value;
      forall t | t in rows
        ensures t.id !in IdsOf(early)
      {
        AddIsNew(late, batch, rows, t);
      }
    }
  }

  // ----- what each call accepts, and what it makes of a row -----

  /** `tasks[i]` is the row its id names. */
  ghost predicate Names(tasks: seq<Task>, i: nat) {
    i < |tasks| && forall j :: 0 <= j < i ==> tasks[j].id != tasks[i].id
  }

  lemma NamesSlot(tasks: seq<Task>, i: nat)
    requires Names(tasks, i)
    ensures Slot(tasks, tasks[i].id) == Some(i)
  {
    hide SlotFrom;
  }

  /**
   * A row is completed exactly when the evidence is not blank and the row has no gate or has the evidence of a run that
   * exited 0; otherwise the list stays as it was.
   */
  lemma CompleteExactly(tasks: seq<Task>, i: nat, e: Evidence)
    requires Names(tasks, i)
    ensures CompleteOutcome(tasks, tasks[i].id, e).Ok? <==>
      && !AllSpace(e.value)
      && (tasks[i].gate == None
          || exists j :: 0 <= j < |tasks[i].evidence|
               && tasks[i].evidence[j].kind == RunLog && Within("exit 0", tasks[i].evidence[j].value))
    ensures CompleteOutcome(tasks, tasks[i].id, e).Err? ==> Step(tasks, Complete(tasks[i].id, e)) == tasks
  {
    hide AllSpace, Trim, Contains, Within, Slot;
    NamesSlot(tasks, i);
    BlankIsAllSpace(e.value);
    forall j | 0 <= j < |tasks[i].evidence|
      ensures Contains(tasks[i].evidence[j].value, "exit 0") <==> Within("exit 0", tasks[i].evidence[j].value)
    {
      ContainsIsWithin(tasks[i].evidence[j].value, "exit 0");
    }
  }

  /** Why a completion is refused, in this order: no such row, no evidence, a gate that has not passed. */
  lemma CompleteRefuses(tasks: seq<Task>, id: string, e: Evidence)
    ensures CompleteOutcome(tasks, id, e) == Err(NoSuchTask(id)) <==> forall t :: t in tasks ==> t.id != id
    ensures (exists t :: t in tasks && t.id == id) ==>
              (CompleteOutcome(tasks, id, e) == Err(NoEvidence) <==> AllSpace(e.value))
  {
    hide AllSpace, Trim, SlotFrom, GateIsGreen;
    BlankIsAllSpace(e.value);
  }

  /** The completed row is done, has the new evidence behind its old, waits for nothing, and is otherwise as it was. */
  lemma CompletedTells(tasks: seq<Task>, i: nat, e: Evidence, t: Task)
    requires Names(tasks, i) && CompleteOutcome(tasks, tasks[i].id, e) == Ok(t)
    ensures Step(tasks, Complete(tasks[i].id, e)) == tasks[i := t]
    ensures t.status == Done && t.evidence == tasks[i].evidence + [e] && t.pendingRun == None && t.blockedReason == None
    ensures t.id == tasks[i].id && t.title == tasks[i].title && t.detail == tasks[i].detail && t.deps == tasks[i].deps
    ensures t.assignee == tasks[i].assignee && t.mutatesWorkspace == tasks[i].mutatesWorkspace
    ensures t.gate == tasks[i].gate && t.attempts == tasks[i].attempts
  {
    hide Trim, Slot, GateIsGreen;
    NamesSlot(tasks, i);
  }

  /** What an update may not name as a dependency: the row itself, or no row at all. */
  lemma {:induction false} BadDepExactly(tasks: seq<Task>, slot: nat, deps: seq<string>)
    requires slot < |tasks|
    ensures BadDep(tasks, slot, deps) == None <==>
      forall k :: 0 <= k < |deps| ==> deps[k] != tasks[slot].id && exists t :: t in tasks && t.id == deps[k]
  {
    hide Slot;
    if deps != [] {
      BadDepExactly(tasks, slot, deps[1..]);
      ListedIsThere(tasks, deps[0]);
      assert forall k :: 0 <= k < |deps[1..]| ==> deps[1..][k] == deps[k + 1];
      if BadDep(tasks, slot, deps) == None {
        forall k | 0 <= k < |deps|
          ensures deps[k] != tasks[slot].id && exists t :: t in tasks && t.id == deps[k]
        {
          if k > 0 {
            assert deps[k] == deps[1..][k - 1];
          }
        }
      }
    }
  }

  lemma ListedIsThere(tasks: seq<Task>, id: string)
    ensures Listed(tasks, id) <==> exists t :: t in tasks && t.id == id
  {
    hide SlotFrom;
    if Listed(tasks, id) {
      assert tasks[Slot(tasks, id).value] in tasks;
    }
  }

  /**
   * A row is updated exactly when the dependencies named are other rows of the list, the title named is not blank, and
   * no cycle comes of it; otherwise the list stays as it was.
   */
  lemma UpdateExactly(tasks: seq<Task>, i: nat, p: TaskPatch)
    requires Names(tasks, i)
    ensures UpdateOutcome(tasks, tasks[i].id, p).Ok? <==>
      && (p.deps.Some? ==> forall k :: 0 <= k < |p.deps.value| ==>
            p.deps.value[k] != tasks[i].id && exists t :: t in tasks && t.id == p.deps.value[k])
      && (p.title.Some? ==> !AllSpace(p.title.value))
      && Acyclic(tasks[i := Patched(tasks[i], p)])
    ensures UpdateOutcome(tasks, tasks[i].id, p).Ok? ==>
              Step(tasks, Update(tasks[i].id, p)) == tasks[i := Patched(tasks[i], p)]
    ensures UpdateOutcome(tasks, tasks[i].id, p).Err? ==> Step(tasks, Update(tasks[i].id, p)) == tasks
  {
    hide AllSpace, Trim, Slot, Acyclic, Patched, BadDep;
    NamesSlot(tasks, i);
    if p.deps.Some? {
      BadDepExactly(tasks, i, p.deps.value);
    }
    if p.title.Some? {
      BlankIsAllSpace(p.title.value);
    }
  }

  /** What a patch does not name stays. */
  lemma PatchKeepsUnnamed(t: Task, p: TaskPatch)
    ensures var u := Patched(t, p);
      && u.id == t.id && u.evidence == t.evidence
      && (p.title == None ==> u.title == t.title) && (p.detail == None ==> u.detail == t.detail)
      && (p.status == None ==> u.status == t.status) && (p.deps == None ==> u.deps == t.deps)
      && (p.assignee == None ==> u.assignee == t.assignee) && (p.gate == None ==> u.gate == t.gate)
      && (p.mutatesWorkspace == None ==> u.mutatesWorkspace == t.mutatesWorkspace)
      && (p.pendingRun == None ==> u.pendingRun == t.pendingRun)
      && (p.blockedReason == None ==> u.blockedReason == t.blockedReason)
      && u.attempts == t.attempts + (if p.bumpAttempts then 1 else 0)
  {
    hide Trim;
  }

  /** What it names is taken, texts without the spaces around them; a blank assignee or gate is none. */
  lemma PatchTakesNamed(t: Task, p: TaskPatch, before: string, text: string, after: string)
    requires AllSpace(before) && AllSpace(after) && Tight(text)
    ensures var u := Patched(t, p);
      && (p.title == Some(before + text + after) ==> u.title == text)
      && (p.detail == Some(before + text + after) ==> u.detail == text)
      && (p.assignee == Some(Some(text)) ==> u.assignee == Some(text))
      && (p.gate == Some(Some(text)) ==> u.gate == Some(text))
      && (p.assignee == Some(Some(before)) || p.assignee == Some(None) ==> u.assignee == None)
      && (p.gate == Some(Some(before)) || p.gate == Some(None) ==> u.gate == None)
    ensures var u := Patched(t, p);
      && (p.status.Some? ==> u.status == p.status.value) && (p.deps.Some? ==> u.deps == p.deps.value)
      && (p.mutatesWorkspace.Some? ==> u.mutatesWorkspace == p.mutatesWorkspace.value)
      && (p.pendingRun.Some? ==> u.pendingRun == p.pendingRun.value)
      && (p.blockedReason.Some? ==> u.blockedReason == p.blockedReason.value)
  {
    hide Trim, AllSpace, Tight;
    TrimPeels(before, text, after);
    BlankIsAllSpace(before);
    TightIsNotBlank(text);
  }

  lemma TightIsNotBlank(text: string)
    requires Tight(text)
    ensures Trim(text) == text != ""
  {
    TrimPeels("", text, "");
    assert "" + text + "" == text;
  }

  /** A dependency given as a number is the row of the batch at that index. */
  lemma DepByIndex(before: string, n: nat, after: string, row: nat, existing: seq<string>, minted: seq<string>)
    requires AllSpace(before) && AllSpace(after) && n <= USIZE_MAX && row < |minted|
    ensures var r := ResolveDep(before + Decimal(n) + after, row, existing, minted);
      && (n >= |minted| ==> r == Err(BadIndex(row, n)))
      && (n < |minted| && minted[n] == minted[row] ==> r == Err(SelfDep(row)))
      && (n < |minted| && minted[n] != minted[row] ==> r == Ok(minted[n]))
  {
    hide Trim, AllSpace, Tight, ParseUnsigned, Decimal;
    DecimalIsTight(n);
    TrimPeels(before, Decimal(n), after);
    DecimalRoundTrip(n, USIZE_MAX);
  }

  /**
   * One that does not begin like a number is an id: of a row that is there, or of one of the batch, but not its own.
   */
  lemma DepById(before: string, id: string, after: string, row: nat, existing: seq<string>, minted: seq<string>)
    requires AllSpace(before) && AllSpace(after) && Tight(id) && !IsDigit(id[0]) && id[0] != '+' && row < |minted|
    ensures var r := ResolveDep(before + id + after, row, existing, minted);
      && (id !in existing && id !in minted ==> r == Err(UnknownDep(row, id)))
      && (id == minted[row] ==> r == Err(SelfDep(row)))
      && (id != minted[row] && (id in existing || id in minted) ==> r == Ok(id))
  {
    hide Trim, AllSpace, ParseUnsigned;
    TrimPeels(before, id, after);
    NoNumber(id, USIZE_MAX);
  }

  lemma {:induction false} CollectExactly(each: seq<Result<string, PlanError>>, done: seq<string>)
    ensures Collect(each, done).Ok? <==> forall k :: 0 <= k < |each| ==> each[k].Ok?
    decreases |each|
  {
    if each != [] && each[0].Ok? {
      var d := each[0].value;
      CollectExactly(each[1..], if d in done then done else done + [d]);
      assert forall k :: 0 < k < |each| ==> each[k] == each[1..][k - 1];
    }
  }

  /** A row asked for can be made: it has a title, and every dependency of it is found. */
  ghost predicate CanBeMade(batch: seq<NewTask>, i: nat, existing: seq<string>, minted: seq<string>)
    requires i < |batch| == |minted|
  {
    && !AllSpace(batch[i].title)
    && forall k :: 0 <= k < |batch[i].deps| ==> ResolveDep(batch[i].deps[k], i, existing, minted).Ok?
  }

  ghost predicate AllCanBeMade(batch: seq<NewTask>, existing: seq<string>, minted: seq<string>)
    requires |batch| == |minted|
  {
    forall i :: 0 <= i < |batch| ==> CanBeMade(batch, i, existing, minted)
  }

  lemma BuildRowExactly(batch: seq<NewTask>, i: nat, existing: seq<string>, minted: seq<string>)
    requires i < |batch| == |minted|
    ensures BuildRow(batch[i], i, existing, minted).Ok? <==> CanBeMade(batch, i, existing, minted)
  {
    hide Trim, AllSpace, ResolveDep, Collect;
    BlankIsAllSpace(batch[i].title);
    var each := ResolveEach(batch[i].deps, i, existing, minted);
    CollectExactly(each, []);
  }

  lemma {:induction false} BuildRowsExactly(
    batch: seq<NewTask>, existing: seq<string>, minted: seq<string>, added: seq<Task>)
    requires |added| <= |batch| == |minted|
    ensures BuildRows(batch, existing, minted, added).Ok? <==>
      forall i :: |added| <= i < |batch| ==> CanBeMade(batch, i, existing, minted)
    decreases |batch| - |added|
  {
    hide BuildRow, CanBeMade;
    var row := |added|;
    if row < |batch| {
      BuildRowExactly(batch, row, existing, minted);
      var r := BuildRow(batch[row], row, existing, minted);
      if r.Ok? {
        BuildRowsExactly(batch, existing, minted, added + [r.value]);
      }
    }
  }

  /**
   * A batch is refused for being empty, for taking the plan past sixty rows, or for a row that cannot be made;
   * otherwise only a cycle refuses it.
   */
  lemma AddExactly(tasks: seq<Task>, batch: seq<NewTask>)
    ensures AddOutcome(tasks, batch) == Err(NoTasks) <==> batch == []
    ensures batch != [] && |tasks| + |batch| > 60 <==> AddOutcome(tasks, batch) == Err(TooMany(|tasks| + |batch|))
    ensures batch != [] && |tasks| + |batch| <= 60 ==>
              (AddOutcome(tasks, batch).Ok? || AddOutcome(tasks, batch).error.Cyclic? <==>
                AllCanBeMade(batch, IdsOf(tasks), Mint(IdsOf(tasks), |batch|)))
    ensures AddOutcome(tasks, batch).Ok? ==> Acyclic(tasks + AddOutcome(tasks, batch).value)
  {
    hide BuildRows, CanBeMade, Acyclic, Mint;
    var ids := IdsOf(tasks);
    var minted := Mint(ids, |batch|);
    var built := BuildRows(batch, ids, minted, []);
    BuildRowsExactly(batch, ids, minted, []);
    assert built.Ok? <==> AllCanBeMade(batch, ids, minted);
    if built.Err? {
      RowErrors(batch, ids, minted, []);
    }
  }

  /** What a batch is refused for by its rows is none of the other reasons. */
  lemma {:induction false} RowErrors(
    batch: seq<NewTask>, existing: seq<string>, minted: seq<string>, added: seq<Task>)
    requires |added| <= |batch| == |minted| && BuildRows(batch, existing, minted, added).Err?
    ensures var e := BuildRows(batch, existing, minted, added).error;
      e.NoTitle? || e.BadIndex? || e.UnknownDep? || e.SelfDep?
    decreases |batch| - |added|
  {
    hide BuildRow;
    var row := |added|;
    if row < |batch| {
      RowError(batch[row], row, existing, minted);
      var r := BuildRow(batch[row], row, existing, minted);
      if r.Ok? {
        RowErrors(batch, existing, minted, added + [r.value]);
      }
    }
  }

  lemma RowError(n: NewTask, row: nat, existing: seq<string>, minted: seq<string>)
    requires row < |minted|
    ensures var r := BuildRow(n, row, existing, minted);
      r.Err? ==> r.error.NoTitle? || r.error.BadIndex? || r.error.UnknownDep? || r.error.SelfDep?
  {
    hide Trim, ParseUnsigned;
    var each := ResolveEach(n.deps, row, existing, minted);
    if Collect(each, []).Err? {
      CollectErrors(each, []);
    }
  }

  lemma {:induction false} CollectErrors(each: seq<Result<string, PlanError>>, done: seq<string>)
    requires Collect(each, done).Err?
    ensures exists k :: 0 <= k < |each| && each[k] == Err(Collect(each, done).error)
    decreases |each|
  {
    if each[0].Ok? {
      var d := each[0].value;
      var done' := if d in done then done else done + [d];
      CollectErrors(each[1..], done');
      var k :| 0 <= k < |each[1..]| && each[1..][k] == Err(Collect(each[1..], done').error);
      assert each[k + 1] == each[1..][k];
    }
  }
}
