/** The stepwise flow executor: one run over a graph, checkpointed at pauses (src/flow_exec.rs, src/flow_runs.rs). */
module FlowExec {
  import opened Prelude
  import opened Text
  import opened FlowGraph

  datatype Value = Text(text: string) | Json(raw: string)

  type Vars = map<string, Value>

  datatype PauseSpec = PauseSpec(reason: string, resumeHandles: seq<string>, message: Option<string>,
      wakeAt: Option<string>)

  datatype Route = Handle(handle: Option<string>) | EndRun(status: string) | Pause(spec: PauseSpec)

  datatype NodeOutcome = NodeOutcome(route: Result<Route, string>, vars: Vars)

  /** What a node runner reads besides the node and the variables, all of it restored on resume. */
  datatype Config = Config(persona: string, model: string, cwd: string, instanceId: Option<string>)

  /** Running a node is arbitrary: it may depend on how many steps came before, as a stream of replies does. */
  type Runner = (Config, nat, Node, Vars) -> NodeOutcome

  datatype FlowStep = FlowStep(nodeId: string, nodeType: string, outcome: string, detail: Option<string>)

  datatype Trace = Trace(steps: seq<FlowStep>, vars: Vars)

  datatype Ended =
    | Finished(status: string)
    | EndedAtPause // resumed along a handle no edge carries: the pause node was the last one
    | Paused(nodeId: string, spec: PauseSpec)
    | OverBudget
    | UnknownNode(id: string)
  {
    function Status(): string {
      match this
      case Finished(status) => status
      case EndedAtPause => "completed"
      case Paused(_, _) => "paused"
      case _ => "failed"
    }
  }

  // ----- one visit -----

  function Wire(kind: NodeKind): string {
    match kind
    case Entry => "entry"
    case Prompt => "prompt"
    case Tool => "tool"
    case Http => "http"
    case SubAgent => "sub_agent"
    case Branch => "branch"
    case End => "end"
    case OtherCore(wire) => wire
    case Custom(wire) => wire
  }

  /** The core kinds are told apart by name. */
  lemma WiresTellApart(a: NodeKind, b: NodeKind)
    requires !a.OtherCore? && !a.Custom? && !b.OtherCore? && !b.Custom? && Wire(a) == Wire(b)
    ensures a == b
  {
    assert forall k: NodeKind :: k.Prompt? || k.Branch? ==> |Wire(k)| == 6;
    assert "prompt"[0] != "branch"[0] && "entry"[0] == 'e' && "end"[0] == 'e' && |"end"| == 3;
    assert "tool"[0] != "http"[0];
  }

  function FindNode(nodes: seq<Node>, id: string): (r: Option<Node>)
    ensures r.Some? ==> r.value in nodes && r.value.id == id
    ensures r.None? ==> forall n :: n in nodes ==> n.id != id
  {
    if nodes == [] then None
    else if nodes[0].id == id then Some(nodes[0])
    else FindNode(nodes[1..], id)
  }

  function LastText(vars: Vars): Option<string> {
    if "_last" in vars && vars["_last"].Text? then Some(vars["_last"].text) else None
  }

  datatype Visit = Goto(next: string, trace: Trace) | Stop(ended: Ended, trace: Trace)

  function Record(t: Trace, n: Node, outcome: string, detail: Option<string>, vars: Vars): Trace {
    Trace(t.steps + [FlowStep(n.id, Wire(n.kind), outcome, detail)], vars)
  }

  /** How a visit's outcome is recorded: a label and a detail. */
  function StepOf(g: Graph, current: string, out: NodeOutcome): (string, Option<string>) {
    match out.route
    case Err(e) => ("failed", Some(e))
    case Ok(EndRun(status)) => (status, None)
    case Ok(Pause(spec)) => ("paused:" + spec.reason, spec.message)
    case Ok(Handle(h)) =>
      var detail := if h == Some("error") then LastText(out.vars) else None;
      if h == Some("error") && NextByHandle(g, current, h).None? then ("failed", detail)
      else (if h.Some? then "routed:" + h.value else "advanced", detail)
  }

  /** What one visit does to the trace, and where it leaves the run. */
  function VisitNode(g: Graph, cfg: Config, runner: Runner, t: Trace, current: string): Visit {
    match FindNode(g.nodes, current)
    case None => Stop(UnknownNode(current), t)
    case Some(n) =>
      var out := runner(cfg, |t.steps|, n, t.vars);
      var (outcome, detail) := StepOf(g, current, out);
      var t' := Record(t, n, outcome, detail, out.vars);
      match out.route
      case Err(_) => Stop(Finished("failed"), t')
      case Ok(EndRun(status)) => Stop(Finished(status), t')
      case Ok(Pause(spec)) => Stop(Paused(current, spec), t')
      case Ok(Handle(h)) =>
        match NextByHandle(g, current, h)
        case Some(next) => Goto(next, t')
        case None => Stop(Finished(if h == Some("error") then "failed" else "completed"), t')
  }

  /** A visit runs the first node with the id. */
  lemma {:induction false} FindNodeIs(nodes: seq<Node>, i: nat)
    requires i < |nodes| && forall j :: 0 <= j < i ==> nodes[j].id != nodes[i].id
    ensures FindNode(nodes, nodes[i].id) == Some(nodes[i])
    decreases i
  {
    if i > 0 {
      FindNodeIs(nodes[1..], i - 1);
    }
  }

  /** The visit took over the variables that came out, and recorded one step with this outcome. */
  ghost predicate Ran(t: Trace, n: Node, out: NodeOutcome, v: Visit, outcome: string, detail: Option<string>) {
    && v.trace.vars == out.vars && v.trace.steps == t.steps + [FlowStep(n.id, Wire(n.kind), outcome, detail)]
  }

  /** What each route of a node's runner stops the run with, or where it sends it, and how the step is told. */
  lemma VisitTells(g: Graph, cfg: Config, runner: Runner, t: Trace, i: nat, out: NodeOutcome, v: Visit)
    requires i < |g.nodes| && forall j :: 0 <= j < i ==> g.nodes[j].id != g.nodes[i].id
    requires out == runner(cfg, |t.steps|, g.nodes[i], t.vars) && v == VisitNode(g, cfg, runner, t, g.nodes[i].id)
    ensures forall e :: out.route == Err(e) ==>
              v.Stop? && v.ended == Finished("failed") && Ran(t, g.nodes[i], out, v, "failed", Some(e))
    ensures forall status :: out.route == Ok(EndRun(status)) ==>
              v.Stop? && v.ended == Finished(status) && Ran(t, g.nodes[i], out, v, status, None)
    ensures forall spec :: out.route == Ok(Pause(spec)) ==>
              v.Stop? && v.ended == Paused(g.nodes[i].id, spec)
              && Ran(t, g.nodes[i], out, v, "paused:" + spec.reason, spec.message)
    ensures out.route == Ok(Handle(None)) ==>
              Ran(t, g.nodes[i], out, v, "advanced", None)
              && (v.Goto? || (v.Stop? && v.ended == Finished("completed")))
    ensures forall h :: out.route == Ok(Handle(Some(h))) && h != "error" ==>
              Ran(t, g.nodes[i], out, v, "routed:" + h, None)
              && (v.Goto? || (v.Stop? && v.ended == Finished("completed")))
    ensures forall h :: out.route == Ok(Handle(h)) ==>
              (v.Goto? <==> NextByHandle(g, g.nodes[i].id, h).Some?)
              && (v.Goto? ==> v.next == NextByHandle(g, g.nodes[i].id, h).value)
    ensures out.route == Ok(Handle(Some("error"))) ==>
              (v.Goto? && Ran(t, g.nodes[i], out, v, "routed:" + "error", LastText(out.vars)))
              || (v.Stop? && v.ended == Finished("failed") && Ran(t, g.nodes[i], out, v, "failed", LastText(out.vars)))
  {
    hide NextByHandle, FindNode, Wire, LastText;
    FindNodeIs(g.nodes, i);
  }

  /** What a failure is told by: the text a node left in `_last`, if it is one. */
  lemma LastTextIs(vars: Vars, text: string)
    ensures "_last" in vars && vars["_last"] == Text(text) ==> LastText(vars) == Some(text)
    ensures "_last" !in vars || vars["_last"].Json? ==> LastText(vars) == None
  {
  }

  lemma VisitEnds(g: Graph, cfg: Config, runner: Runner, t: Trace, current: string)
    ensures var v := VisitNode(g, cfg, runner, t, current);
      v.Stop? ==> v.ended.Finished? || v.ended.Paused? || v.ended.UnknownNode?
  {
    hide StepOf, FindNode, NextByHandle;
  }

  /** The loop of `drive`, allowed `fuel` more visits. */
  function DriveFrom(g: Graph, cfg: Config, runner: Runner, t: Trace, current: string, fuel: nat): (Ended, Trace)
    decreases fuel
  {
    if fuel == 0 then (OverBudget, t)
    else
      match VisitNode(g, cfg, runner, t, current)
      case Stop(ended, t') => (ended, t')
      case Goto(next, t') => DriveFrom(g, cfg, runner, t', next, fuel - 1)
  }

  // ----- the step budget -----

  const DEFAULT_STEP_BUDGET: nat := 100
  const MAX_STEP_BUDGET: nat := 100_000

  function Clamp(n: nat): nat {
    if n < 1 then 1 else if n > MAX_STEP_BUDGET then MAX_STEP_BUDGET else n
  }

  /** What is no `u64` is no request; a request is cut down to a `u32` before it is clamped. */
  function StepBudget(flow: Flow): (b: nat)
    ensures 1 <= b <= MAX_STEP_BUDGET
  {
    var entry := FirstEntry(flow.graph.nodes);
    if entry.None? || entry.value.maxSteps.None? || entry.value.maxSteps.value > U64_MAX then DEFAULT_STEP_BUDGET
    else Clamp(entry.value.maxSteps.value % 0x1_0000_0000)
  }

  /**
   * A request is honoured up to the ceiling exactly when it is a `u64` that cutting to 32 bits does not bring below the
   * ceiling.
   */
  lemma BudgetHonoursRequest(flow: Flow, n: nat)
    requires FirstEntry(flow.graph.nodes).Some? && FirstEntry(flow.graph.nodes).value.maxSteps == Some(n)
    ensures StepBudget(flow) == Clamp(n)
       <==> n < 0x1_0000_0000 || (n <= U64_MAX && n % 0x1_0000_0000 >= MAX_STEP_BUDGET)
  {
    if n < 0x1_0000_0000 {
      assert n % 0x1_0000_0000 == n;
    }
  }

  /** The budget by what is asked: within 1 to 100000 as it is, cut at both ends, and 100 when nothing is asked. */
  lemma BudgetByRequest(flow: Flow, i: nat)
    requires i < |flow.graph.nodes| && flow.graph.nodes[i].kind == Entry
    requires forall j :: 0 <= j < i ==> flow.graph.nodes[j].kind != Entry
    ensures flow.graph.nodes[i].maxSteps == None ==> StepBudget(flow) == 100
    ensures flow.graph.nodes[i].maxSteps == Some(0) ==> StepBudget(flow) == 1
    ensures forall n: nat :: flow.graph.nodes[i].maxSteps == Some(n) && 1 <= n <= 100_000 ==> StepBudget(flow) == n
    ensures forall n: nat :: flow.graph.nodes[i].maxSteps == Some(n) && 100_000 < n <= 0xFFFF_FFFF ==>
              StepBudget(flow) == 100_000
    ensures forall n: nat :: flow.graph.nodes[i].maxSteps == Some(n) && n > 0xFFFF_FFFF_FFFF_FFFF ==>
              StepBudget(flow) == 100
  {
    FirstEntryIs(flow.graph.nodes, i);
  }

  /** An entry node that asks for this many steps. */
  function Asking(n: nat): Flow {
    Flow("f", Graph([Node("entry", Entry, None, None, Some(n), None, "")], []))
  }

  /** The cut does happen: a request for 2^32 steps, far beyond the ceiling, is given one step. */
  lemma HugeRequestIsCutToOne()
    ensures StepBudget(Asking(0x1_0000_0000)) == 1 && Clamp(0x1_0000_0000) == MAX_STEP_BUDGET
  {
    assert Asking(0x1_0000_0000).graph.nodes[0].kind == Entry;
  }

  // ----- the persisted record -----

  datatype PauseInfo = PauseInfo(reason: string, resumeHandles: seq<string>, message: Option<string>,
      wakeAt: Option<string>)

  datatype FlowRun = FlowRun(
    id: string,
    flowId: string,
    status: string,
    currentNodeId: string,
    variables: Vars,
    pause: Option<PauseInfo>,
    config: Config,
    steps: seq<FlowStep>,
    flow: Option<Flow>,
    createdAt: string,
    updatedAt: string)

  type Runs = map<string, FlowRun>

  /** The parts of an executor that one drive does not change. */
  datatype Identity = Identity(flow: Flow, config: Config, runId: string, createdAt: Option<string>)

  /** The creation time is kept across pauses. */
  function CreatedAt(runs: Runs, who: Identity, now: string): string {
    if who.createdAt.Some? then who.createdAt.value
    else if who.runId in runs then runs[who.runId].createdAt
    else now
  }

  function PausedRun(runs: Runs, who: Identity, nodeId: string, spec: PauseSpec, t: Trace, now: string): FlowRun {
    FlowRun(who.runId, who.flow.id, "paused", nodeId, t.vars,
            Some(PauseInfo(spec.reason, spec.resumeHandles, spec.message, spec.wakeAt)),
            who.config, t.steps, Some(who.flow), CreatedAt(runs, who, now), now)
  }

  /** Only a run that paused at least once has a record to close. */
  function Terminal(runs: Runs, runId: string, status: string, t: Trace, now: string): Runs {
    if runId !in runs then runs
    else runs[runs[runId].id := runs[runId].(status := status, pause := None, variables := t.vars, steps := t.steps,
      updatedAt := now)]
  }

  /** What the end of a drive leaves on disk. A run that met an unknown node returns its error and writes nothing. */
  function Settle(runs: Runs, who: Identity, ended: Ended, t: Trace, now: string): Runs {
    match ended
    case Paused(nodeId, spec) => runs[who.runId := PausedRun(runs, who, nodeId, spec, t, now)]
    case UnknownNode(_) => runs
    case _ => Terminal(runs, who.runId, ended.Status(), t, now)
  }

  datatype Outcome = Outcome(ended: Ended, trace: Trace, runs: Runs)

  function Drive(runs: Runs, who: Identity, runner: Runner, t: Trace, start: string, now: string): Outcome {
    var (ended, t') := DriveFrom(who.flow.graph, who.config, runner, t, start, StepBudget(who.flow));
    Outcome(ended, t', Settle(runs, who, ended, t', now))
  }

  /** A resume may hand the run a value, which becomes the last output. */
  function Handed(vars: Vars, data: Option<Value>): Vars {
    if data.Some? then vars["_last" := data.value] else vars
  }

  datatype ResumeError = RunNotFound | NotPaused(status: string) | FlowNotFound(id: string)

  /** `resume_flow`: leave the pause node of a stored run by the chosen handle, on the graph it paused in. */
  function Resume(
    runs: Runs, flows: map<string, Flow>, runner: Runner, runId: string, handle: string, data: Option<Value>,
    now: string)
    : Result<Outcome, ResumeError>
  {
    if runId !in runs then Err(RunNotFound)
    else
      var run := runs[runId];
      if run.status != "paused" then Err(NotPaused(run.status))
      else if run.flow.None? && run.flowId !in flows then Err(FlowNotFound(run.flowId))
      else
        var flow := if run.flow.Some? then run.flow.value else flows[run.flowId];
        var who := Identity(flow, run.config, run.id, Some(run.createdAt));
        var t := Trace(run.steps, Handed(run.variables, data));
        match NextByHandle(flow.graph, run.currentNodeId, Some(handle))
        case Some(next) => Ok(Drive(runs, who, runner, t, next, now))
        case None => Ok(Outcome(EndedAtPause, t, Settle(runs, who, EndedAtPause, t, now)))
  }

  /**
   * What a resume takes up. Along a handle that some edge carries it drives from where that edge leads, with the stored
   * steps and variables, except that a value it brings is the last output, whatever was there; along one that none does
   * it ends there, with the same.
   */
  lemma ResumeTakesUp(
    runs: Runs, flows: map<string, Flow>, runner: Runner, run: FlowRun, flow: Flow, handle: string, data: Option<Value>,
    now: string, vars: Vars)
    requires run.id in runs && runs[run.id] == run && run.status == "paused"
    requires run.flow == Some(flow) || (run.flow == None && run.flowId in flows && flows[run.flowId] == flow)
    requires data == None ==> vars == run.variables
    requires data.Some? ==> vars == run.variables["_last" := data.value]
    ensures Resume(runs, flows, runner, run.id, handle, data, now).Ok?
    ensures var o := Resume(runs, flows, runner, run.id, handle, data, now).value;
      var next := NextByHandle(flow.graph, run.currentNodeId, Some(handle));
      && (next.None? ==> o.ended == EndedAtPause && o.trace == Trace(run.steps, vars))
      && (next.Some? ==>
            (o.ended, o.trace)
              == DriveFrom(flow.graph, run.config, runner, Trace(run.steps, vars), next.value, StepBudget(flow)))
  {
    hide NextByHandle, DriveFrom, StepBudget;
  }

  /** Why a resume is refused: there is no such run, it is not paused, or it has no graph and its flow is gone. */
  lemma ResumeRefuses(
    runs: Runs, flows: map<string, Flow>, runner: Runner, runId: string, handle: string, data: Option<Value>,
    now: string)
    ensures var r := Resume(runs, flows, runner, runId, handle, data, now);
      && (r == Err(RunNotFound) <==> runId !in runs)
      && (runId in runs ==> (r == Err(NotPaused(runs[runId].status)) <==> runs[runId].status != "paused"))
      && (runId in runs && runs[runId].status == "paused" ==>
            (r == Err(FlowNotFound(runs[runId].flowId)) <==>
              runs[runId].flow == None && runs[runId].flowId !in flows))
  {
    hide NextByHandle, DriveFrom, StepBudget;
  }

  /** What a pause leaves on record: where and why it stands, what may resume it, and when it was written. */
  lemma PauseIsTold(runs: Runs, who: Identity, runner: Runner, t: Trace, start: string, now: string, o: Outcome)
    requires o == Drive(runs, who, runner, t, start, now) && o.ended.Paused?
    ensures who.runId in o.runs && o.runs == runs[who.runId := o.runs[who.runId]]
    ensures var run, spec := o.runs[who.runId], o.ended.spec;
      && run.currentNodeId == o.ended.nodeId && run.updatedAt == now
      && run.pause.Some? && run.pause.value.reason == spec.reason && run.pause.value.resumeHandles == spec.resumeHandles
      && run.pause.value.message == spec.message && run.pause.value.wakeAt == spec.wakeAt
  {
    hide DriveFrom, StepBudget;
  }

  /** What the end of a resumed run leaves: its record closed with its status and trace, and no other touched. */
  lemma EndIsTold(runs: Runs, who: Identity, runner: Runner, t: Trace, start: string, now: string, o: Outcome)
    requires o == Drive(runs, who, runner, t, start, now) && !o.ended.Paused?
    requires forall id :: id in runs ==> runs[id].id == id
    ensures o.runs.Keys == runs.Keys && forall id :: id in runs && id != who.runId ==> o.runs[id] == runs[id]
    ensures o.ended.UnknownNode? ==> o.runs == runs
    ensures who.runId in runs && !o.ended.UnknownNode? ==>
              && o.runs[who.runId].pause == None && o.runs[who.runId].updatedAt == now
              && o.runs[who.runId].steps == o.trace.steps && o.runs[who.runId].variables == o.trace.vars
              && o.runs[who.runId].createdAt == runs[who.runId].createdAt
              && o.runs[who.runId].status == if o.ended.Finished? then o.ended.status else "failed"
  {
    hide DriveFrom, StepBudget;
    DriveHasNoPauseEnd(who.flow.graph, who.config, runner, t, start, StepBudget(who.flow));
  }

  lemma {:induction false} DriveHasNoPauseEnd(
    g: Graph, cfg: Config, runner: Runner, t: Trace, start: string, fuel: nat)
    ensures !DriveFrom(g, cfg, runner, t, start, fuel).0.EndedAtPause?
    decreases fuel
  {
    hide VisitNode;
    if fuel > 0 {
      VisitEnds(g, cfg, runner, t, start);
      var v := VisitNode(g, cfg, runner, t, start);
      if v.Goto? {
        DriveHasNoPauseEnd(g, cfg, runner, v.trace, v.next, fuel - 1);
      }
    }
  }

  // ----- the executor itself -----

  datatype Summary = Summary(runId: string, flowId: string, status: string, steps: seq<FlowStep>, variables: Vars)

  datatype RunError = NoEntry | BudgetExceeded(budget: nat) | NodeMissing(id: string) | NotResumable(why: ResumeError)

  function Answer(who: Identity, ended: Ended, t: Trace): Result<Summary, RunError> {
    match ended
    case OverBudget => Err(BudgetExceeded(StepBudget(who.flow)))
    case UnknownNode(id) => Err(NodeMissing(id))
    case _ => Ok(Summary(who.runId, who.flow.id, ended.Status(), t.steps, t.vars))
  }

  function Saved(runs: Runs, run: FlowRun): Runs {
    runs[run.id := run]
  }

  function Loaded(runs: Runs, id: string): Option<FlowRun> {
    if id in runs then Some(runs[id]) else None
  }

  /** The `runs/` directory: one record a run id. */
  class RunStore {
    var runs: Runs

    constructor ()
      ensures runs == map[]
    {
      runs := map[];
    }

    method SaveRun(run: FlowRun)
      modifies this
      ensures runs == Saved(old(runs), run)
    {
      runs := runs[run.id := run];
    }

    method LoadRun(id: string) returns (run: Option<FlowRun>)
      ensures run == Loaded(runs, id)
    {
      run := if id in runs then Some(runs[id]) else None;
    }

    /** Remove a record, and say whether there was one. */
    method DeleteRun(id: string) returns (removed: bool)
      modifies this
      ensures removed == Loaded(old(runs), id).Some? && runs == old(runs) - {id}
    {
      removed := id in runs;
      runs := runs - {id};
    }
  }

  datatype StoreOp = Save(run: FlowRun) | Delete(id: string)

  function Stored(runs: Runs, ops: seq<StoreOp>, k: nat): Runs
    requires k <= |ops|
  {
    if k == 0 then runs
    else
      match ops[k - 1]
      case Save(run) => Saved(Stored(runs, ops, k - 1), run)
      case Delete(id) => Stored(runs, ops, k - 1) - {id}
  }

  /** The store itself, under any saves and deletions. */
  method ApplyAll(store: RunStore, ops: seq<StoreOp>)
    modifies store
    ensures store.runs == Stored(old(store.runs), ops, |ops|)
  {
    for k := 0 to |ops|
      invariant store.runs == Stored(old(store.runs), ops, k)
    {
      match ops[k] {
        case Save(run) =>
          store.SaveRun(run);
        case Delete(id) =>
          var removed := store.DeleteRun(id);
      }
    }
  }

  function IdOf(op: StoreOp): string {
    if op.Save? then op.run.id else op.id
  }

  /** Operation `i` is the last of the first `k` on this id. */
  ghost predicate LastOn(ops: seq<StoreOp>, k: nat, id: string, i: nat)
    requires k <= |ops|
  {
    i < k && IdOf(ops[i]) == id && forall j :: i < j < k ==> IdOf(ops[j]) != id
  }

  /** After any saves and deletions, a load gives the record last saved under the id, unless it was deleted since. */
  lemma {:induction false} LoadGivesLastSaved(runs: Runs, ops: seq<StoreOp>, k: nat, id: string, i: nat)
    requires k <= |ops| && LastOn(ops, k, id, i)
    ensures Loaded(Stored(runs, ops, k), id) == if ops[i].Save? then Some(ops[i].run) else None
    decreases k
  {
    hide Stored, Loaded;
    StoredStep(runs, ops, k, id);
    if i < k - 1 {
      assert IdOf(ops[k - 1]) != id;
      LoadGivesLastSaved(runs, ops, k - 1, id, i);
    }
  }

  /** And what was never touched is as it was. */
  lemma {:induction false} LoadGivesUntouched(runs: Runs, ops: seq<StoreOp>, k: nat, id: string)
    requires k <= |ops| && forall i :: 0 <= i < k ==> IdOf(ops[i]) != id
    ensures Loaded(Stored(runs, ops, k), id) == Loaded(runs, id)
    decreases k
  {
    hide Stored, Loaded;
    if k == 0 {
      NothingStored(runs, ops);
    } else {
      StoredStep(runs, ops, k, id);
      LoadGivesUntouched(runs, ops, k - 1, id);
    }
  }

  lemma NothingStored(runs: Runs, ops: seq<StoreOp>)
    ensures Stored(runs, ops, 0) == runs
  {
  }

  lemma StoredStep(runs: Runs, ops: seq<StoreOp>, k: nat, id: string)
    requires 0 < k <= |ops|
    ensures Loaded(Stored(runs, ops, k), id)
         == if IdOf(ops[k - 1]) != id then Loaded(Stored(runs, ops, k - 1), id)
            else if ops[k - 1].Save? then Some(ops[k - 1].run) else None
  {
  }

  class FlowExecutor {
    const who: Identity
    const store: RunStore
    const stepBudget: nat
    var variables: Vars
    var steps: seq<FlowStep>

    constructor (flow: Flow, config: Config, runId: string, args: Vars, store: RunStore)
      ensures who == Identity(flow, config, runId, None) && this.store == store
      ensures Valid() && CurrentTrace() == Trace([], args)
    {
      this.who := Identity(flow, config, runId, None);
      this.store := store;
      this.stepBudget := StepBudget(flow);
      this.variables := args;
      this.steps := [];
    }

    /** Rebuild an executor from a stored run. */
    constructor Resumed(flow: Flow, run: FlowRun, store: RunStore)
      ensures who == Identity(flow, run.config, run.id, Some(run.createdAt)) && this.store == store
      ensures Valid() && CurrentTrace() == Trace(run.steps, run.variables)
    {
      this.who := Identity(flow, run.config, run.id, Some(run.createdAt));
      this.store := store;
      this.stepBudget := StepBudget(flow);
      this.variables := run.variables;
      this.steps := run.steps;
    }

    predicate Valid() {
      stepBudget == StepBudget(who.flow)
    }

    function CurrentTrace(): Trace
      reads this
    {
      Trace(steps, variables)
    }

    method RecordStep(n: Node, outcome: string, detail: Option<string>)
      modifies this`steps
      ensures CurrentTrace() == Record(old(CurrentTrace()), n, outcome, detail, variables)
    {
      steps := steps + [FlowStep(n.id, Wire(n.kind), outcome, detail)];
    }

    method PersistPaused(nodeId: string, spec: PauseSpec, now: string)
      modifies store
      ensures store.runs == Settle(old(store.runs), who, Paused(nodeId, spec), CurrentTrace(), now)
    {
      var known := store.LoadRun(who.runId);
      var created :=
        if who.createdAt.Some? then who.createdAt.value
        else if known.Some? then known.value.createdAt
        else now;
      store.SaveRun(FlowRun(who.runId, who.flow.id, "paused", nodeId, variables,
                            Some(PauseInfo(spec.reason, spec.resumeHandles, spec.message, spec.wakeAt)),
                            who.config, steps, Some(who.flow), created, now));
    }

    method MarkTerminal(status: string, now: string)
      modifies store
      ensures store.runs == Terminal(old(store.runs), who.runId, status, CurrentTrace(), now)
    {
      var known := store.LoadRun(who.runId);
      if known.Some? {
        store.SaveRun(known.value.(status := status, pause := None, variables := variables, steps := steps,
          updatedAt := now));
      }
    }

    /** Run one node, record its step, and say where the run goes. */
    method Advance(runner: Runner, current: string) returns (v: Visit)
      modifies this
      ensures v == VisitNode(who.flow.graph, who.config, runner, old(CurrentTrace()), current)
      ensures CurrentTrace() == v.trace
    {
      var found := FindNode(who.flow.graph.nodes, current);
      if found.None? {
        return Stop(UnknownNode(current), CurrentTrace());
      }
      var node := found.value;
      var out := runner(who.config, |steps|, node, variables);
      variables := out.vars;
      match out.route {
        case Err(e) =>
          RecordStep(node, "failed", Some(e));
          return Stop(Finished("failed"), CurrentTrace());
        case Ok(EndRun(status)) =>
          RecordStep(node, status, None);
          return Stop(Finished(status), CurrentTrace());
        case Ok(Pause(spec)) =>
          RecordStep(node, "paused:" + spec.reason, spec.message);
          return Stop(Paused(current, spec), CurrentTrace());
        case Ok(Handle(handle)) =>
          var next := NextByHandle(who.flow.graph, current, handle);
          var outcome := if handle.Some? then "routed:" + handle.value else "advanced";
          var detail := if handle == Some("error") then LastText(variables) else None;
          if next.Some? {
            RecordStep(node, outcome, detail);
            return Goto(next.value, CurrentTrace());
          }
          if handle == Some("error") {
            RecordStep(node, "failed", detail);
            return Stop(Finished("failed"), CurrentTrace());
          }
          RecordStep(node, outcome, detail);
          return Stop(Finished("completed"), CurrentTrace());
      }
    }

    method Finish(ended: Ended, now: string) returns (r: Result<Summary, RunError>)
      requires ended.Finished? || ended.EndedAtPause?
      modifies store
      ensures store.runs == Settle(old(store.runs), who, ended, CurrentTrace(), now)
      ensures r == Answer(who, ended, CurrentTrace())
    {
      MarkTerminal(ended.Status(), now);
      return Ok(Summary(who.runId, who.flow.id, ended.Status(), steps, variables));
    }

    /** The core loop: advance from node to node until a terminal outcome, a pause, or the budget. */
    method RunFrom(runner: Runner, start: string, now: string) returns (r: Result<Summary, RunError>)
      requires Valid()
      modifies this, store
      ensures CurrentTrace() == Drive(old(store.runs), who, runner, old(CurrentTrace()), start, now).trace
      ensures store.runs == Drive(old(store.runs), who, runner, old(CurrentTrace()), start, now).runs
      ensures r == Answer(who, Drive(old(store.runs), who, runner, old(CurrentTrace()), start, now).ended,
          CurrentTrace())
    {
      hide VisitNode, StepBudget, PausedRun;
      var visits := 0;
      var current := start;
      while true
        invariant visits <= stepBudget && store.runs == old(store.runs)
        invariant DriveFrom(who.flow.graph, who.config, runner, old(CurrentTrace()), start, stepBudget)
               == DriveFrom(who.flow.graph, who.config, runner, CurrentTrace(), current, stepBudget - visits)
        decreases stepBudget - visits
      {
        visits := visits + 1;
        if visits > stepBudget {
          MarkTerminal("failed", now);
          return Err(BudgetExceeded(stepBudget));
        }
        VisitEnds(who.flow.graph, who.config, runner, CurrentTrace(), current);
        var v := Advance(runner, current);
        if v.Goto? {
          current := v.next;
        } else if v.ended.Paused? {
          PersistPaused(v.ended.nodeId, v.ended.spec, now);
          return Ok(Summary(who.runId, who.flow.id, "paused", steps, variables));
        } else if v.ended.UnknownNode? {
          return Err(NodeMissing(v.ended.id));
        } else {
          r := Finish(v.ended, now);
          return;
        }
      }
    }

    /** Run from the entry node. */
    method Run(runner: Runner, now: string) returns (r: Result<Summary, RunError>)
      requires Valid()
      modifies this, store
      ensures FirstEntry(who.flow.graph.nodes).None? ==> r == Err(NoEntry) && store.runs == old(store.runs)
      ensures FirstEntry(who.flow.graph.nodes).Some? ==>
                store.runs == Drive(old(store.runs), who, runner, old(CurrentTrace()),
                  FirstEntry(who.flow.graph.nodes).value.id, now).runs
      ensures FirstEntry(who.flow.graph.nodes).Some? ==>
                r == Answer(who, Drive(old(store.runs), who, runner, old(CurrentTrace()),
                  FirstEntry(who.flow.graph.nodes).value.id, now).ended, CurrentTrace())
    {
      var entry := FirstEntry(who.flow.graph.nodes);
      if entry.None? {
        return Err(NoEntry);
      }
      r := RunFrom(runner, entry.value.id, now);
    }
  }

  /**
   * What a caller is told: which run of which flow ended how, or the budget it ran out of, or the node that is not
   * there.
   */
  lemma AnswerTells(who: Identity, ended: Ended, t: Trace, id: string)
    ensures ended == OverBudget ==> Answer(who, ended, t) == Err(BudgetExceeded(StepBudget(who.flow)))
    ensures ended == UnknownNode(id) ==> Answer(who, ended, t) == Err(NodeMissing(id))
    ensures !ended.OverBudget? && !ended.UnknownNode? ==>
              && Answer(who, ended, t).Ok?
              && Answer(who, ended, t).value.runId == who.runId && Answer(who, ended, t).value.flowId == who.flow.id
              && Answer(who, ended, t).value.steps == t.steps && Answer(who, ended, t).value.variables == t.vars
    ensures ended.Finished? ==> Answer(who, ended, t).value.status == ended.status
    ensures ended.Paused? ==> Answer(who, ended, t).value.status == "paused"
    ensures ended.EndedAtPause? ==> Answer(who, ended, t).value.status == "completed"
  {
    hide StepBudget;
  }

  /** A caller's answer reports an outcome: its status, trace and variables, or that it could not end. */
  ghost predicate Reports(r: Result<Summary, RunError>, o: Outcome) {
    match r
    case Ok(s) => !o.ended.OverBudget? && !o.ended.UnknownNode?
                  && s.status == o.ended.Status() && s.steps == o.trace.steps && s.variables == o.trace.vars
    case Err(BudgetExceeded(_)) => o.ended == OverBudget
    case Err(NodeMissing(id)) => o.ended == UnknownNode(id)
    case Err(_) => false
  }

  /** Resume a paused run by the chosen handle. */
  method ResumeFlow(
    store: RunStore, flows: map<string, Flow>, runner: Runner, runId: string, handle: string, data: Option<Value>,
    now: string)
    returns (r: Result<Summary, RunError>)
    modifies store
    ensures Resume(old(store.runs), flows, runner, runId, handle, data, now).Err? ==>
              store.runs == old(store.runs)
                && r == Err(NotResumable(Resume(old(store.runs), flows, runner, runId, handle, data, now).error))
    ensures Resume(old(store.runs), flows, runner, runId, handle, data, now).Ok? ==>
              store.runs == Resume(old(store.runs), flows, runner, runId, handle, data, now).value.runs
    ensures Resume(old(store.runs), flows, runner, runId, handle, data, now).Ok? ==>
              Reports(r, Resume(old(store.runs), flows, runner, runId, handle, data, now).value)
  {
    var known := store.LoadRun(runId);
    if known.None? {
      return Err(NotResumable(RunNotFound));
    }
    var run := known.value;
    if run.status != "paused" {
      return Err(NotResumable(NotPaused(run.status)));
    }
    var flow;
    if run.flow.Some? {
      flow := run.flow.value;
    } else if run.flowId in flows {
      flow := flows[run.flowId];
    } else {
      return Err(NotResumable(FlowNotFound(run.flowId)));
    }
    var exec := new FlowExecutor.Resumed(flow, run, store);
    if data.Some? {
      exec.variables := exec.variables["_last" := data.value];
    }
    var next := NextByHandle(flow.graph, run.currentNodeId, Some(handle));
    if next.Some? {
      r := exec.RunFrom(runner, next.value, now);
    } else {
      r := exec.Finish(EndedAtPause, now);
    }
  }
}
