/** What runs of the flow executor do: they are walks within budget, and pausing and resuming is transparent. */
module FlowResume {
  import opened Prelude
  import opened FlowGraph
  import opened FlowExec

  // ----- every drive is a walk within its budget -----

  /** Steps `from..` visit listed nodes, the first of them `start`, each linked to the one before. */
  ghost predicate WalksFrom(g: Graph, steps: seq<FlowStep>, from: nat, start: string) {
    && (from < |steps| ==> steps[from].nodeId == start)
    && (forall i :: from <= i < |steps| ==> FindNode(g.nodes, steps[i].nodeId).Some?)
    && (forall i :: from <= i < |steps| - 1 ==> Linked(g.edges, steps[i].nodeId, steps[i + 1].nodeId))
  }

  lemma VisitAddsOneStep(g: Graph, cfg: Config, runner: Runner, t: Trace, current: string, v: Visit)
    requires v == VisitNode(g, cfg, runner, t, current)
    ensures FindNode(g.nodes, current).Some? ==>
              |v.trace.steps| == |t.steps| + 1 && t.steps < v.trace.steps && v.trace.steps[|t.steps|].nodeId == current
    ensures v.Goto? ==> FindNode(g.nodes, current).Some? && Linked(g.edges, current, v.next)
    ensures FindNode(g.nodes, current).None? ==> v == Stop(UnknownNode(current), t)
  {
    hide FindNode, Linked, LastText, NextByHandle;
    assert forall h :: NextByHandle(g, current, h).Some? ==>
        Linked(g.edges, current, NextByHandle(g, current, h).value) by {
      forall h {
        RoutingFollowsEdges(g, current, h);
      }
    }
  }

  lemma WalkPrepends(g: Graph, steps: seq<FlowStep>, from: nat, start: string, next: string)
    requires from < |steps| && steps[from].nodeId == start && FindNode(g.nodes, start).Some?
    requires WalksFrom(g, steps, from + 1, next) && Linked(g.edges, start, next)
    ensures WalksFrom(g, steps, from, start)
  {
    hide FindNode, Linked;
  }

  lemma OneStepWalk(g: Graph, steps: seq<FlowStep>, from: nat, start: string)
    requires |steps| <= from + 1
    requires from < |steps| ==> steps[from].nodeId == start && FindNode(g.nodes, start).Some?
    ensures WalksFrom(g, steps, from, start)
  {
  }

  /**
   * On any graph, cyclic or not, a drive makes at most `fuel` visits, and what it adds to the trace is a walk from its
   * start.
   */
  lemma {:induction false} DriveIsWalk(g: Graph, cfg: Config, runner: Runner, t: Trace, start: string, fuel: nat)
    ensures t.steps <= DriveFrom(g, cfg, runner, t, start, fuel).1.steps
    ensures |DriveFrom(g, cfg, runner, t, start, fuel).1.steps| <= |t.steps| + fuel
    ensures WalksFrom(g, DriveFrom(g, cfg, runner, t, start, fuel).1.steps, |t.steps|, start)
    decreases fuel
  {
    hide WalksFrom, VisitNode, FindNode, Linked;
    var steps := DriveFrom(g, cfg, runner, t, start, fuel).1.steps;
    if fuel > 0 {
      var v := VisitNode(g, cfg, runner, t, start);
      VisitAddsOneStep(g, cfg, runner, t, start, v);
      if v.Goto? {
        DriveIsWalk(g, cfg, runner, v.trace, v.next, fuel - 1);
        WalkPrepends(g, steps, |t.steps|, start, v.next);
      } else {
        OneStepWalk(g, steps, |t.steps|, start);
      }
    } else {
      OneStepWalk(g, steps, |t.steps|, start);
    }
  }

  lemma {:induction false} WalkStepsAreReachable(g: Graph, steps: seq<FlowStep>, start: string, i: nat)
    requires WalksFrom(g, steps, 0, start) && i < |steps|
    ensures Walk(g.edges, start, steps[i].nodeId, i)
  {
    if i > 0 {
      WalkStepsAreReachable(g, steps, start, i - 1);
    }
  }

  function RunSteps(flow: Flow, entry: Node, cfg: Config, runner: Runner, vars: Vars): seq<FlowStep> {
    DriveFrom(flow.graph, cfg, runner, Trace([], vars), entry.id, StepBudget(flow)).1.steps
  }

  /** No run from the entry ever visits a node the lint called unreachable. */
  lemma RunsAvoidWarnedNodes(flow: Flow, entry: Node, cfg: Config, runner: Runner, vars: Vars, i: nat)
    requires FirstEntry(flow.graph.nodes) == Some(entry) && i < |RunSteps(flow, entry, cfg, runner, vars)|
    ensures Reachable(flow.graph.edges, entry.id, RunSteps(flow, entry, cfg, runner, vars)[i].nodeId)
  {
    hide DriveFrom, WalksFrom, StepBudget;
    DriveIsWalk(flow.graph, cfg, runner, Trace([], vars), entry.id, StepBudget(flow));
    WalkStepsAreReachable(flow.graph, RunSteps(flow, entry, cfg, runner, vars), entry.id, i);
  }

  // ----- pausing and resuming -----

  /** What a resume brings: the chosen handle, and maybe a value. */
  datatype Reply = Reply(handle: string, data: Option<Value>)

  /** The run where each pause node simply takes the value and routes by the handle that its resume would bring. */
  function Bypass(runner: Runner, reply: nat -> Reply): Runner {
    (cfg: Config, n: nat, node: Node, vars: Vars) =>
      var out := runner(cfg, n, node, vars);
      if out.route.Ok? && out.route.value.Pause?
      then NodeOutcome(Ok(Handle(Some(reply(n + 1).handle))), Handed(out.vars, reply(n + 1).data))
      else out
  }

  /** A trace as the next drive takes it up: after a pause, with the value its resume brings. */
  function Given(ended: Ended, t: Trace, reply: nat -> Reply): Trace {
    if ended.Paused? then t.(vars := Handed(t.vars, reply(|t.steps|).data)) else t
  }

  /** What one drive runs on. */
  datatype Machine = Machine(graph: Graph, config: Config, runner: Runner)

  function Driven(m: Machine, t: Trace, start: string, fuel: nat): (Ended, Trace) {
    DriveFrom(m.graph, m.config, m.runner, t, start, fuel)
  }

  ghost predicate Bypasses(b: Machine, m: Machine, reply: nat -> Reply) {
    b.graph == m.graph && b.config == m.config && b.runner == Bypass(m.runner, reply)
  }

  /** The same node ran, with the same outcome unless it paused. */
  ghost predicate SameStep(a: FlowStep, b: FlowStep) {
    a.nodeId == b.nodeId && a.nodeType == b.nodeType && (a == b || "paused:" <= a.outcome)
  }

  /** The same nodes ran, and the variables agree. */
  ghost predicate SameTrace(a: Trace, b: Trace) {
    && a.vars == b.vars && |a.steps| == |b.steps|
    && forall i :: 0 <= i < |a.steps| ==> SameStep(a.steps[i], b.steps[i])
  }

  /** A run between visits: about to visit a node, or over. */
  datatype Stage = Running(trace: Trace, current: string) | Halted(ended: Ended, trace: Trace)

  function Advanced(m: Machine, c: Stage): Stage {
    match c
    case Halted(_, _) => c
    case Running(t, current) =>
      match VisitNode(m.graph, m.config, m.runner, t, current)
      case Goto(next, t') => Running(t', next)
      case Stop(ended, t') => Halted(ended, t')
  }

  function After(m: Machine, c: Stage, visits: nat): Stage
    decreases visits
  {
    if visits == 0 then c else After(m, Advanced(m, c), visits - 1)
  }

  lemma {:induction false} AfterAdds(m: Machine, c: Stage, i: nat, j: nat)
    ensures After(m, c, i + j) == After(m, After(m, c, i), j)
    decreases i
  {
    hide Advanced;
    if i > 0 {
      AfterAdds(m, Advanced(m, c), i - 1, j);
    }
  }

  lemma {:induction false} HaltedStays(m: Machine, c: Stage, n: nat)
    requires c.Halted?
    ensures After(m, c, n) == c
    decreases n
  {
    if n > 0 {
      HaltedStays(m, c, n - 1);
    }
  }

  /** A run that has stopped by some visit stays so. */
  lemma HaltsLater(m: Machine, c: Stage, i: nat, j: nat)
    requires i <= j && After(m, c, i).Halted?
    ensures After(m, c, j) == After(m, c, i)
  {
    hide After;
    AfterAdds(m, c, i, j - i);
    HaltedStays(m, After(m, c, i), j - i);
  }

  /** A drive is its budget's worth of visits; still running then means over budget. */
  lemma {:induction false} DriveIsStages(m: Machine, t: Trace, start: string, fuel: nat)
    ensures After(m, Running(t, start), fuel).trace == Driven(m, t, start, fuel).1
    ensures After(m, Running(t, start), fuel).Running? <==> Driven(m, t, start, fuel).0.OverBudget?
    ensures After(m, Running(t, start), fuel).Halted? ==>
              After(m, Running(t, start), fuel).ended == Driven(m, t, start, fuel).0
    decreases fuel
  {
    if fuel > 0 {
      var v := VisitNode(m.graph, m.config, m.runner, t, start);
      VisitEnds(m.graph, m.config, m.runner, t, start);
      if v.Goto? {
        DriveIsStages(m, v.trace, v.next, fuel - 1);
      } else {
        HaltedStays(m, Halted(v.ended, v.trace), fuel - 1);
      }
    }
  }

  /** How resuming into nothing ends, had the pause node routed by that handle itself. */
  function Unrouted(handle: string): Ended {
    if handle == "error" then Finished("failed") else Finished("completed")
  }

  /** Where the bypassing run stands when the pausing one has stopped. */
  function Lands(g: Graph, reply: nat -> Reply, ended: Ended, b: Trace): Stage {
    match ended
    case Paused(nodeId, _) =>
      (match NextByHandle(g, nodeId, Some(reply(|b.steps|).handle))
       case Some(next) => Running(b, next)
       case None => Halted(Unrouted(reply(|b.steps|).handle), b))
    case EndedAtPause => Halted(Unrouted(reply(|b.steps|).handle), b)
    case _ => Halted(ended, b)
  }

  function GivenFrom(c: Stage, reply: nat -> Reply): Trace {
    if c.Running? then c.trace else Given(c.ended, c.trace, reply)
  }

  function LandsFrom(g: Graph, reply: nat -> Reply, c: Stage, b: Trace): Stage {
    if c.Running? then Running(b, c.current) else Lands(g, reply, c.ended, b)
  }

  lemma RecordsAlike(
    a: Trace, b: Trace, n: Node, outcome: string, detail: Option<string>, outcome': string, detail': Option<string>,
      vars: Vars)
    requires SameTrace(a, b) && ((outcome == outcome' && detail == detail') || "paused:" <= outcome)
    ensures SameTrace(Record(a, n, outcome, detail, vars), Record(b, n, outcome', detail', vars))
  {
    hide Wire;
  }

  lemma AlikeLookAlike(a: Trace, b: Trace)
    requires SameTrace(a, b)
    ensures |a.steps| == |b.steps| && a.vars == b.vars
  {
  }

  /** One visit by the two runs: alike, except that at a pause the bypassing one goes on. */
  lemma VisitSimulates(m: Machine, bm: Machine, reply: nat -> Reply, a: Trace, b: Trace, current: string)
    returns (c: Stage, d: Stage)
    requires SameTrace(a, b) && Bypasses(bm, m, reply)
    ensures c == Advanced(m, Running(a, current)) && d == Advanced(bm, Running(b, current))
    ensures SameTrace(GivenFrom(c, reply), d.trace) && d == LandsFrom(m.graph, reply, c, d.trace)
    ensures |c.trace.steps| == |a.steps| + if c.Halted? && c.ended.UnknownNode? then 0 else 1
    ensures c.Halted? ==> !c.ended.OverBudget?
  {
    hide NextByHandle, FindNode, LastText, SameTrace, Wire;
    c := Advanced(m, Running(a, current));
    d := Advanced(bm, Running(b, current));
    AlikeLookAlike(a, b);
    var found := FindNode(m.graph.nodes, current);
    if found.Some? {
      var n := found.value;
      var out, out' := m.runner(m.config, |a.steps|, n, a.vars), bm.runner(m.config, |b.steps|, n, b.vars);
      var (outcome, detail) := StepOf(m.graph, current, out);
      var (outcome', detail') := StepOf(m.graph, current, out');
      assert c.trace == Record(a, n, outcome, detail, out.vars);
      assert d.trace == Record(b, n, outcome', detail', out'.vars);
      assert GivenFrom(c, reply) == Record(a, n, outcome, detail, out'.vars);
      RecordsAlike(a, b, n, outcome, detail, outcome', detail', out'.vars);
    }
  }

  /** How many visits a run has made: a step each, and one that found no node. */
  function Visits(before: nat, ended: Ended, after: Trace): int {
    |after.steps| - before + if ended.UnknownNode? then 1 else 0
  }

  function StageVisits(before: nat, c: Stage): int {
    if c.Running? then |c.trace.steps| - before else Visits(before, c.ended, c.trace)
  }

  /** One drive and the bypassing run from like traces: as many visits later, like traces again. */
  lemma {:induction false} DriveSimulates(
    m: Machine, bm: Machine, reply: nat -> Reply, a: Trace, b: Trace, start: string, fuel: nat)
    returns (end: Stage, b': Trace, n: nat)
    requires SameTrace(a, b) && Bypasses(bm, m, reply)
    ensures end == After(m, Running(a, start), fuel)
    ensures SameTrace(GivenFrom(end, reply), b') && |a.steps| <= |end.trace.steps| && n == StageVisits(|a.steps|, end)
    ensures After(bm, Running(b, start), n) == LandsFrom(m.graph, reply, end, b')
    ensures fuel > 0 ==> n > 0
    ensures end.Running? ==> n == fuel
    decreases fuel
  {
    hide Advanced, SameTrace, Bypasses, Lands;
    if fuel == 0 {
      end, b', n := Running(a, start), b, 0;
    } else {
      var c, d := VisitSimulates(m, bm, reply, a, b, start);
      if c.Running? {
        var k;
        end, b', k := DriveSimulates(m, bm, reply, c.trace, d.trace, c.current, fuel - 1);
        n := k + 1;
      } else {
        HaltedStays(m, c, fuel - 1);
        end, b', n := c, d.trace, 1;
        assert After(bm, d, 0) == d;
      }
    }
  }

  /** Where the bypassing run stands is what the pausing one's end calls for. */
  ghost predicate Stands(g: Graph, reply: nat -> Reply, ended: Ended, c: Stage) {
    if ended.OverBudget? then c.Running? else c == Lands(g, reply, ended, c.trace)
  }

  /** `DriveSimulates`, for a drive that is known by its result. */
  lemma SegmentSimulates(
    m: Machine, bm: Machine, reply: nat -> Reply, a: Trace, b: Trace, start: string, fuel: nat, ended: Ended,
      a': Trace)
    returns (c: Stage, n: nat)
    requires SameTrace(a, b) && Bypasses(bm, m, reply)
    requires Driven(m, a, start, fuel) == (ended, a')
    ensures c == After(bm, Running(b, start), n) && Stands(m.graph, reply, ended, c)
    ensures SameTrace(Given(ended, a', reply), c.trace) && |a.steps| <= |a'.steps| && n == Visits(|a.steps|, ended, a')
    ensures fuel > 0 ==> n > 0
    ensures ended.OverBudget? ==> n == fuel
  {
    hide After, SameTrace, Bypasses, Driven;
    DriveIsStages(m, a, start, fuel);
    var stage, b';
    stage, b', n := DriveSimulates(m, bm, reply, a, b, start, fuel);
    c := After(bm, Running(b, start), n);
  }

  // ----- whole sessions, through the stored record -----

  /**
   * What a run meets: a node runner, whatever is on disk at each resume, what the resume brings, and the time; each
   * resume is known by the number of steps made before it.
   */
  datatype World = World(runner: Runner, flows: nat -> map<string, Flow>, reply: nat -> Reply, clock: nat -> string)

  function Pausing(who: Identity, w: World): Machine {
    Machine(who.flow.graph, who.config, w.runner)
  }

  function Bypassing(who: Identity, w: World): Machine {
    Machine(who.flow.graph, who.config, Bypass(w.runner, w.reply))
  }

  /** The resume of a paused run. */
  function Resumed(o: Outcome, runId: string, w: World): Result<Outcome, ResumeError> {
    var n := |o.trace.steps|;
    Resume(o.runs, w.flows(n), w.runner, runId, w.reply(n).handle, w.reply(n).data, w.clock(n))
  }

  /** Resume after every pause, at most `resumes` times. */
  function Continue(o: Outcome, runId: string, w: World, resumes: nat): Result<Outcome, ResumeError>
    decreases resumes
  {
    if !o.ended.Paused? || resumes == 0 then Ok(o)
    else
      match Resumed(o, runId, w)
      case Err(e) => Err(e)
      case Ok(next) => Continue(next, runId, w, resumes - 1)
  }

  /** The pause that was resumed last, if any was. */
  function LastPause(o: Outcome, runId: string, w: World, resumes: nat): Option<Outcome>
    decreases resumes
  {
    if !o.ended.Paused? || resumes == 0 then None
    else
      match Resumed(o, runId, w)
      case Err(_) => None
      case Ok(next) => if next.ended.Paused? && resumes > 1 then LastPause(next, runId, w, resumes - 1) else Some(o)
  }

  /** A record tells how a run stands, on the graph it started with. */
  ghost predicate Tells(run: FlowRun, ended: Ended, t: Trace, who: Identity, created: string) {
    && run.id == who.runId && run.createdAt == created && run.flow == Some(who.flow) && run.config == who.config
    && run.flowId == who.flow.id
    && (!ended.UnknownNode? ==> run.status == ended.Status() && run.steps == t.steps && run.variables == t.vars)
    && (ended.Paused? ==> run.currentNodeId == ended.nodeId && run.pause.Some?)
    && (ended.UnknownNode? ==> run.status == "paused")
    && (!ended.Paused? && !ended.UnknownNode? ==> run.pause.None?)
  }

  /** A run that has paused is on record, and the record tells how it stands. */
  ghost predicate Recorded(o: Outcome, who: Identity, created: string) {
    who.runId in o.runs && Tells(o.runs[who.runId], o.ended, o.trace, who, created)
  }

  /** The first pause of a run creates its record. */
  lemma FirstPauseIsRecorded(runs: Runs, who: Identity, runner: Runner, t: Trace, start: string, now: string)
    requires Drive(runs, who, runner, t, start, now).ended.Paused?
    ensures Recorded(Drive(runs, who, runner, t, start, now), who, CreatedAt(runs, who, now))
  {
    hide DriveFrom, StepBudget;
  }

  /**
   * Resuming a recorded pause drives on from the checkpoint, on the snapshot of the graph, whatever is on disk by then;
   * it ends at the pause node exactly when no edge of the snapshot carries the handle.
   */
  lemma ResumeDrivesOn(o: Outcome, who: Identity, created: string, w: World) returns (o': Outcome)
    requires o.ended.Paused? && Recorded(o, who, created)
    ensures Resumed(o, who.runId, w) == Ok(o') && Recorded(o', who, created)
    ensures var next := NextByHandle(who.flow.graph, o.ended.nodeId, Some(w.reply(|o.trace.steps|).handle));
      && (o'.ended.EndedAtPause? <==> next.None?)
      && (next.None? ==> o'.trace == Given(o.ended, o.trace, w.reply))
      && (next.Some? ==>
            (o'.ended, o'.trace)
              == Driven(Pausing(who, w), Given(o.ended, o.trace, w.reply), next.value, StepBudget(who.flow)))
  {
    hide DriveFrom, StepBudget, NextByHandle;
    var n := |o.trace.steps|;
    var next := NextByHandle(who.flow.graph, o.ended.nodeId, Some(w.reply(n).handle));
    o' := Resumed(o, who.runId, w).value;
    if next.Some? {
      DriveHasNoPauseEnd(
        who.flow.graph, who.config, w.runner, Given(o.ended, o.trace, w.reply), next.value, StepBudget(who.flow));
    }
  }

  lemma ContinueUnfolds(o: Outcome, mid: Outcome, runId: string, w: World, resumes: nat)
    requires o.ended.Paused? && resumes > 0 && Resumed(o, runId, w) == Ok(mid)
    ensures Continue(o, runId, w, resumes) == Continue(mid, runId, w, resumes - 1)
    ensures !mid.ended.Paused? ==> Continue(o, runId, w, resumes) == Ok(mid)
    ensures LastPause(o, runId, w, resumes)
         == if mid.ended.Paused? && resumes > 1 then LastPause(mid, runId, w, resumes - 1) else Some(o)
  {
    hide Resumed;
  }

  /** A session never fails to resume, and its record keeps telling how it stands. */
  lemma {:induction false} SessionStaysRecorded(o: Outcome, who: Identity, created: string, w: World, resumes: nat)
    requires o.ended.Paused? && Recorded(o, who, created)
    ensures Continue(o, who.runId, w, resumes).Ok?
    ensures Recorded(Continue(o, who.runId, w, resumes).value, who, created)
    decreases resumes
  {
    hide Recorded, Resumed, Driven, StepBudget;
    if resumes > 0 {
      var mid := ResumeDrivesOn(o, who, created, w);
      ContinueUnfolds(o, mid, who.runId, w, resumes);
      if mid.ended.Paused? {
        SessionStaysRecorded(mid, who, created, w, resumes - 1);
      }
    }
  }

  /** From a recorded pause on, the session and the bypassing run visit the same nodes with the same variables. */
  lemma {:induction false} SessionSimulates(
    o: Outcome, b: Trace, who: Identity, created: string, w: World, resumes: nat, end: Outcome)
    returns (c: Stage, n: nat)
    requires SameTrace(Given(o.ended, o.trace, w.reply), b)
    requires o.ended.Paused? && Recorded(o, who, created)
    requires Continue(o, who.runId, w, resumes) == Ok(end)
    ensures |o.trace.steps| <= |end.trace.steps| && n == Visits(|o.trace.steps|, end.ended, end.trace)
    ensures SameTrace(Given(end.ended, end.trace, w.reply), c.trace) && Stands(who.flow.graph, w.reply, end.ended, c)
    ensures c == After(Bypassing(who, w), Lands(who.flow.graph, w.reply, o.ended, b), n)
    decreases resumes, 0
  {
    hide Recorded, StepBudget, Driven, Resumed;
    c, n := Lands(who.flow.graph, w.reply, o.ended, b), 0;
    if resumes > 0 {
      var mid := ResumeDrivesOn(o, who, created, w);
      var next := NextByHandle(who.flow.graph, o.ended.nodeId, Some(w.reply(|o.trace.steps|).handle));
      ContinueUnfolds(o, mid, who.runId, w, resumes);
      if next.Some? {
        c, n := SessionReaches(
          mid, who, created, w, Given(o.ended, o.trace, w.reply), b, next.value, resumes - 1, end);
      }
    }
  }

  /** From a drive on, any number of resumes later. */
  lemma {:induction false} SessionReaches(
    o: Outcome, who: Identity, created: string, w: World, a: Trace, b: Trace, start: string, resumes: nat, end: Outcome)
    returns (c: Stage, n: nat)
    requires SameTrace(a, b)
    requires Driven(Pausing(who, w), a, start, StepBudget(who.flow)) == (o.ended, o.trace)
    requires o.ended.Paused? ==> Recorded(o, who, created)
    requires Continue(o, who.runId, w, resumes) == Ok(end)
    ensures |a.steps| <= |end.trace.steps| && n == Visits(|a.steps|, end.ended, end.trace)
    ensures SameTrace(Given(end.ended, end.trace, w.reply), c.trace) && Stands(who.flow.graph, w.reply, end.ended, c)
    ensures c == After(Bypassing(who, w), Running(b, start), n)
    decreases resumes, 1
  {
    hide Recorded, StepBudget, Driven, SameTrace, Lands, After, Bypass, Resumed;
    var bm := Bypassing(who, w);
    c, n := SegmentSimulates(Pausing(who, w), bm, w.reply, a, b, start, StepBudget(who.flow), o.ended, o.trace);
    if o.ended.Paused? {
      var d, k := SessionSimulates(o, c.trace, who, created, w, resumes, end);
      AfterAdds(bm, Running(b, start), n, k);
      c, n := d, n + k;
    } else {
      assert end == o;
    }
  }

  /** A fresh run of a flow, paused and resumed through its stored record up to `resumes` times. */
  function Session(runs: Runs, who: Identity, w: World, vars: Vars, start: string, resumes: nat)
    : Result<Outcome, ResumeError>
  {
    Continue(FirstDrive(runs, who, w, vars, start), who.runId, w, resumes)
  }

  function FirstDrive(runs: Runs, who: Identity, w: World, vars: Vars, start: string): Outcome {
    Drive(runs, who, w.runner, Trace([], vars), start, w.clock(0))
  }

  /** A whole session, and the bypassing run as many visits later. */
  lemma SessionFollows(runs: Runs, who: Identity, w: World, vars: Vars, start: string, resumes: nat, end: Outcome)
    returns (c: Stage, n: nat)
    requires Session(runs, who, w, vars, start, resumes) == Ok(end)
    ensures n == Visits(0, end.ended, end.trace) && SameTrace(Given(end.ended, end.trace, w.reply), c.trace)
    ensures Stands(who.flow.graph, w.reply, end.ended, c)
    ensures c == After(Bypassing(who, w), Running(Trace([], vars), start), n)
  {
    hide Recorded, StepBudget, DriveFrom, Lands, After, Bypass, Resumed, Continue;
    var o := FirstDrive(runs, who, w, vars, start);
    var created := CreatedAt(runs, who, w.clock(0));
    if o.ended.Paused? {
      FirstPauseIsRecorded(runs, who, w.runner, Trace([], vars), start, w.clock(0));
    }
    c, n := SessionReaches(o, who, created, w, Trace([], vars), Trace([], vars), start, resumes, end);
  }

  /**
   * Pausing is transparent. Whatever is edited on disk meanwhile, a session of any number of resumes, with or without
   * values, wherever it stands, has visited the nodes, with the variables, that the bypassing run visits in as many
   * visits (a pause it stands at being given what its resume brings); and a session that ran over its budget leaves the
   * bypassing run still going.
   */
  lemma PauseResumeTransparent(
    runs: Runs, who: Identity, w: World, vars: Vars, start: string, resumes: nat, end: Outcome, visits: nat)
    requires Session(runs, who, w, vars, start, resumes) == Ok(end)
    requires visits == Visits(0, end.ended, end.trace)
    ensures SameTrace(
              Given(end.ended, end.trace, w.reply), Driven(Bypassing(who, w), Trace([], vars), start, visits).1)
    ensures end.ended.OverBudget? ==> Driven(Bypassing(who, w), Trace([], vars), start, visits).0.OverBudget?
  {
    hide Session, Driven, Bypass, SameTrace, After;
    var c, n := SessionFollows(runs, who, w, vars, start, resumes, end);
    DriveIsStages(Bypassing(who, w), Trace([], vars), start, n);
  }

  /** The stored record of a paused run has no edge for the handle `error`. */
  predicate UnwiredError(runs: Runs, runId: string, handle: string) {
    && runId in runs && runs[runId].flow.Some? && handle == "error"
    && NextByHandle(runs[runId].flow.value.graph, runs[runId].currentNodeId, Some(handle)).None?
  }

  /** A session ends at a pause node exactly when no edge carries the handle of its last resume. */
  lemma {:induction false} EndedAtPauseExactly(
    o: Outcome, who: Identity, created: string, w: World, resumes: nat, end: Outcome, last: Option<Outcome>)
    requires o.ended.Paused? && Recorded(o, who, created)
    requires Continue(o, who.runId, w, resumes) == Ok(end) && last == LastPause(o, who.runId, w, resumes)
    ensures resumes > 0 ==> last.Some? && last.value.ended.Paused? && Recorded(last.value, who, created)
    ensures end.ended.EndedAtPause? ==>
              resumes > 0 && end.trace == Given(last.value.ended, last.value.trace, w.reply)
    ensures resumes > 0 ==> (end.ended.EndedAtPause? <==>
              NextByHandle(
                who.flow.graph, last.value.ended.nodeId, Some(w.reply(|last.value.trace.steps|).handle)).None?)
    decreases resumes
  {
    hide Recorded, StepBudget, Driven, Resumed, NextByHandle;
    if resumes > 0 {
      var mid := ResumeDrivesOn(o, who, created, w);
      ContinueUnfolds(o, mid, who.runId, w, resumes);
      if mid.ended.Paused? {
        EndedAtPauseExactly(mid, who, created, w, resumes - 1, end, LastPause(mid, who.runId, w, resumes - 1));
      }
    }
  }

  /** The exception, as a caller can read it off the stored record before the last resume. */
  ghost predicate EndsUnwired(runs: Runs, who: Identity, w: World, vars: Vars, start: string, resumes: nat) {
    var last := LastPause(FirstDrive(runs, who, w, vars, start), who.runId, w, resumes);
    last.Some? && UnwiredError(last.value.runs, who.runId, w.reply(|last.value.trace.steps|).handle)
  }

  lemma LastPauseOnRecord(runs: Runs, who: Identity, w: World, vars: Vars, start: string, resumes: nat, end: Outcome)
    requires Session(runs, who, w, vars, start, resumes) == Ok(end) && !end.ended.Paused?
    ensures EndsUnwired(runs, who, w, vars, start, resumes)
       <==> end.ended.EndedAtPause? && w.reply(|end.trace.steps|).handle == "error"
  {
    hide Recorded, StepBudget, DriveFrom, Resumed, NextByHandle, Continue;
    var o := FirstDrive(runs, who, w, vars, start);
    var created := CreatedAt(runs, who, w.clock(0));
    if o.ended.Paused? {
      FirstPauseIsRecorded(runs, who, w.runner, Trace([], vars), start, w.clock(0));
      var last := LastPause(o, who.runId, w, resumes);
      EndedAtPauseExactly(o, who, created, w, resumes, end, last);
      NoResumes(o, who.runId, w);
      RecordOfPause(last.value, who, created, w.reply(|last.value.trace.steps|).handle);
    } else {
      StoppedSession(o, who.runId, w, resumes);
      DriveHasNoPauseEnd(who.flow.graph, who.config, w.runner, Trace([], vars), start, StepBudget(who.flow));
    }
  }

  lemma NoResumes(o: Outcome, runId: string, w: World)
    ensures Continue(o, runId, w, 0) == Ok(o)
  {
  }

  lemma StoppedSession(o: Outcome, runId: string, w: World, resumes: nat)
    requires !o.ended.Paused?
    ensures Continue(o, runId, w, resumes) == Ok(o) && LastPause(o, runId, w, resumes) == None
  {
  }

  lemma RecordOfPause(o: Outcome, who: Identity, created: string, handle: string)
    requires Recorded(o, who, created) && o.ended.Paused?
    ensures UnwiredError(o.runs, who.runId, handle)
       <==> handle == "error" && NextByHandle(who.flow.graph, o.ended.nodeId, Some(handle)).None?
  {
    hide NextByHandle;
  }

  /**
   * A session that came to its end ends as the bypassing run does when its one budget covers the visits: with the same
   * trace, and with the same status exactly when the last resume was not one along an `error` handle that no edge of
   * the stored graph carries.
   */
  lemma StatusesAgreeExactly(
    runs: Runs, who: Identity, w: World, vars: Vars, start: string, resumes: nat, end: Outcome, budget: nat)
    requires Session(runs, who, w, vars, start, resumes) == Ok(end) && !end.ended.Paused? && !end.ended.OverBudget?
    requires budget >= Visits(0, end.ended, end.trace)
    ensures SameTrace(end.trace, Driven(Bypassing(who, w), Trace([], vars), start, budget).1)
    ensures Driven(Bypassing(who, w), Trace([], vars), start, budget).0.Status() == end.ended.Status()
       <==> !EndsUnwired(runs, who, w, vars, start, resumes)
  {
    hide Session, Driven, Bypass, After, EndsUnwired;
    var c, n := SessionFollows(runs, who, w, vars, start, resumes, end);
    HaltsLater(Bypassing(who, w), Running(Trace([], vars), start), n, budget);
    DriveIsStages(Bypassing(who, w), Trace([], vars), start, budget);
    LastPauseOnRecord(runs, who, w, vars, start, resumes, end);
  }

  /** A flow of one node, with no edge at all, and a runner that always asks for approval. */
  function Gate(): Identity {
    var node := Node("gate", OtherCore("approval"), None, None, None, None, "");
    Identity(Flow("f", Graph([node], [])), Config("", "", "", None), "r", None)
  }

  function AlwaysAsks(): Runner {
    var spec := PauseSpec("approval", ["error"], None, None);
    (cfg: Config, n: nat, node: Node, vars: Vars) => NodeOutcome(Ok(Pause(spec)), vars)
  }

  /** The exception is real: resumed by `error`, that flow completes, where the bypassing run fails. */
  lemma UnwiredErrorDiffers(w: World) returns (end: Outcome)
    requires w.runner == AlwaysAsks() && w.reply(1).handle == "error"
    ensures Session(map[], Gate(), w, map[], "gate", 1) == Ok(end)
    ensures end.ended.Status() == "completed"
    ensures Driven(Bypassing(Gate(), w), Trace([], map[]), "gate", 1).0.Status() == "failed"
  {
    var o := FirstDrive(map[], Gate(), w, map[], "gate");
    assert FindNode(Gate().flow.graph.nodes, "gate").Some?;
    FirstPauseIsRecorded(map[], Gate(), w.runner, Trace([], map[]), "gate", w.clock(0));
    end := ResumeDrivesOn(o, Gate(), w.clock(0), w);
    ContinueUnfolds(o, end, "r", w, 1);
  }

  /** The trace of any session is one walk from its start, so no session visits a node the lint warned about either. */
  lemma SessionIsWalk(runs: Runs, who: Identity, w: World, vars: Vars, start: string, resumes: nat, end: Outcome)
    requires Session(runs, who, w, vars, start, resumes) == Ok(end)
    ensures WalksFrom(who.flow.graph, end.trace.steps, 0, start)
    ensures forall i :: 0 <= i < |end.trace.steps| ==>
              Reachable(who.flow.graph.edges, start, end.trace.steps[i].nodeId)
  {
    hide Session, Bypass, WalksFrom, DriveFrom;
    var g, bm, visits := who.flow.graph, Bypassing(who, w), Visits(0, end.ended, end.trace);
    PauseResumeTransparent(runs, who, w, vars, start, resumes, end, visits);
    DriveIsWalk(g, who.config, bm.runner, Trace([], vars), start, visits);
    SameNodesSameWalk(g, Driven(bm, Trace([], vars), start, visits).1.steps, end.trace.steps, start);
    forall i | 0 <= i < |end.trace.steps|
      ensures Reachable(g.edges, start, end.trace.steps[i].nodeId)
    {
      WalkStepsAreReachable(g, end.trace.steps, start, i);
    }
  }

  lemma SameNodesSameWalk(g: Graph, steps: seq<FlowStep>, other: seq<FlowStep>, start: string)
    requires WalksFrom(g, steps, 0, start)
    requires |steps| == |other| && forall i :: 0 <= i < |steps| ==> steps[i].nodeId == other[i].nodeId
    ensures WalksFrom(g, other, 0, start)
  {
    hide Linked, FindNode;
    forall i | 0 <= i < |other| - 1
      ensures Linked(g.edges, other[i].nodeId, other[i + 1].nodeId)
    {
      assert Linked(g.edges, steps[i].nodeId, steps[i + 1].nodeId);
    }
  }

  /** One segment of a session brings the bypassing run nearer to its end. */
  lemma SegmentHalts(
    m: Machine, bm: Machine, reply: nat -> Reply, a: Trace, b: Trace, next: string, budget: nat,
    ended: Ended, a': Trace, left: nat)
    returns (b': Trace, left': nat)
    requires SameTrace(a, b) && Bypasses(bm, m, reply) && left <= budget
    requires Driven(m, a, next, budget) == (ended, a')
    requires After(bm, Running(b, next), left).Halted?
    ensures !ended.OverBudget? && SameTrace(Given(ended, a', reply), b') && left > 0
    ensures left' < left && After(bm, Lands(m.graph, reply, ended, b'), left').Halted?
  {
    hide SameTrace, Bypasses, Driven, Lands;
    var c, n := SegmentSimulates(m, bm, reply, a, b, next, budget, ended, a');
    b' := c.trace;
    if ended.OverBudget? {
      HaltsLater(bm, Running(b, next), left, n);
      assert false;
    }
    if n <= left {
      left' := left - n;
      AfterAdds(bm, Running(b, next), n, left');
    } else {
      left' := 0;
      HaltsLater(bm, Running(b, next), left, n);
    }
  }

  /** The other direction: a session goes no longer than the bypassing run. */
  lemma {:induction false} ContinueCompletes(
    o: Outcome, b: Trace, who: Identity, created: string, w: World, resumes: nat, left: nat)
    returns (end: Outcome)
    requires SameTrace(Given(o.ended, o.trace, w.reply), b)
    requires o.ended.Paused? && Recorded(o, who, created)
    requires After(Bypassing(who, w), Lands(who.flow.graph, w.reply, o.ended, b), left).Halted?
    requires left <= StepBudget(who.flow) && left < resumes
    ensures Continue(o, who.runId, w, resumes) == Ok(end) && !end.ended.OverBudget? && !end.ended.Paused?
    decreases resumes
  {
    hide Recorded, Continue, StepBudget, Driven, Resumed;
    var budget := StepBudget(who.flow);
    var mid := ResumeDrivesOn(o, who, created, w);
    ContinueUnfolds(o, mid, who.runId, w, resumes);
    end := mid;
    var next := NextByHandle(who.flow.graph, o.ended.nodeId, Some(w.reply(|o.trace.steps|).handle));
    if next.Some? {
      var b', left' := SegmentHalts(
        Pausing(who, w), Bypassing(who, w), w.reply, Given(o.ended, o.trace, w.reply), b, next.value, budget, mid.ended,
        mid.trace, left);
      if mid.ended.Paused? {
        end := ContinueCompletes(mid, b', who, created, w, resumes - 1, left');
      }
    }
  }

  /** If the bypassing run ends within the budget, the session ends too, given enough resumes. */
  lemma SessionCompletes(runs: Runs, who: Identity, w: World, vars: Vars, start: string, resumes: nat)
    returns (end: Outcome)
    requires !Driven(Bypassing(who, w), Trace([], vars), start, StepBudget(who.flow)).0.OverBudget?
    requires StepBudget(who.flow) < resumes
    ensures Session(runs, who, w, vars, start, resumes) == Ok(end)
    ensures !end.ended.Paused? && !end.ended.OverBudget?
  {
    hide Recorded, Continue, StepBudget, DriveFrom, Resumed, Bypass;
    var t, budget, bm := Trace([], vars), StepBudget(who.flow), Bypassing(who, w);
    var o := FirstDrive(runs, who, w, vars, start);
    end := o;
    DriveIsStages(bm, t, start, budget);
    var b, left := SegmentHalts(Pausing(who, w), bm, w.reply, t, t, start, budget, o.ended, o.trace, budget);
    if o.ended.Paused? {
      FirstPauseIsRecorded(runs, who, w.runner, t, start, w.clock(0));
      end := ContinueCompletes(o, b, who, CreatedAt(runs, who, w.clock(0)), w, resumes, left);
    } else {
      StoppedSession(o, who.runId, w, resumes);
    }
  }

  // ----- attempts that meet an unknown node -----

  /** One call of `resume_flow`, and the world it meets. */
  datatype Attempt = Attempt(flows: map<string, Flow>, runner: Runner, reply: Reply, now: string)

  function Attempted(runs: Runs, runId: string, a: Attempt): Result<Outcome, ResumeError> {
    Resume(runs, a.flows, a.runner, runId, a.reply.handle, a.reply.data, a.now)
  }

  /** The records after the first `k` attempts. */
  function RunsAfter(runs: Runs, runId: string, attempts: seq<Attempt>, k: nat): Runs
    requires k <= |attempts|
  {
    if k == 0 then runs
    else
      var before := RunsAfter(runs, runId, attempts, k - 1);
      var r := Attempted(before, runId, attempts[k - 1]);
      if r.Ok? then r.value.runs else before
  }

  /** The attempt came to nothing: it was refused, or its drive met a node the graph does not have. */
  predicate Fruitless(runs: Runs, runId: string, a: Attempt) {
    var r := Attempted(runs, runId, a);
    r.Err? || r.value.ended.UnknownNode?
  }

  lemma FruitlessLeavesRecords(runs: Runs, runId: string, a: Attempt)
    requires Fruitless(runs, runId, a)
    ensures Attempted(runs, runId, a).Ok? ==> Attempted(runs, runId, a).value.runs == runs
  {
    hide DriveFrom, NextByHandle, StepBudget;
  }

  /**
   * A session that goes on after meeting an unknown node goes on from its last pause: whatever fruitless attempts came
   * between, a resume answers, drives and records as if they had not been made, and their steps are gone.
   */
  lemma {:induction false} FruitlessAttemptsLeaveNothing(runs: Runs, runId: string, attempts: seq<Attempt>, k: nat)
    requires k <= |attempts|
    requires forall j :: 0 <= j < k ==> Fruitless(RunsAfter(runs, runId, attempts, j), runId, attempts[j])
    ensures RunsAfter(runs, runId, attempts, k) == runs
    ensures forall next :: Attempted(RunsAfter(runs, runId, attempts, k), runId, next) == Attempted(runs, runId, next)
    decreases k
  {
    hide Attempted, Fruitless;
    if k > 0 {
      FruitlessAttemptsLeaveNothing(runs, runId, attempts, k - 1);
      FruitlessLeavesRecords(runs, runId, attempts[k - 1]);
    }
  }

  /** And a fruitful one after them continues the steps of the pause, not those of the attempts. */
  lemma FruitfulAfterFruitless(
    o: Outcome, who: Identity, created: string, attempts: seq<Attempt>, k: nat, next: Attempt)
    returns (o': Outcome)
    requires o.ended.Paused? && Recorded(o, who, created) && k <= |attempts|
    requires forall j :: 0 <= j < k ==> Fruitless(RunsAfter(o.runs, who.runId, attempts, j), who.runId, attempts[j])
    ensures Attempted(RunsAfter(o.runs, who.runId, attempts, k), who.runId, next) == Ok(o')
    ensures o.trace.steps <= o'.trace.steps
    ensures WalksFrom(who.flow.graph, o'.trace.steps, |o.trace.steps|, FirstStep(o, who, next))
  {
    hide Recorded, DriveFrom, StepBudget, NextByHandle, WalksFrom, Fruitless;
    FruitlessAttemptsLeaveNothing(o.runs, who.runId, attempts, k);
    var w := World(next.runner, _ => next.flows, _ => next.reply, _ => next.now);
    o' := ResumeDrivesOn(o, who, created, w);
    var start := NextByHandle(who.flow.graph, o.ended.nodeId, Some(next.reply.handle));
    if start.Some? {
      DriveIsWalk(
        who.flow.graph, who.config, next.runner, Given(o.ended, o.trace, w.reply), start.value, StepBudget(who.flow));
    } else {
      OneStepWalk(who.flow.graph, o'.trace.steps, |o.trace.steps|, FirstStep(o, who, next));
    }
  }

  /** Where a resume goes, if an edge carries its handle. */
  function FirstStep(o: Outcome, who: Identity, a: Attempt): string
    requires o.ended.Paused?
  {
    var next := NextByHandle(who.flow.graph, o.ended.nodeId, Some(a.reply.handle));
    if next.Some? then next.value else o.ended.nodeId
  }
}
