/** Any number of runs sharing one slot pool, interleaved move by move. */
module SharedSlots {
  import opened Collections
  import opened Pipeline
  import opened RunModel
  import opened RunInvariant
  import opened RunStart
  import opened RunTheorems

  datatype Run = Run(cfg: Config, st: RunState)

  /** The pool is a channel of `capacity`; `occupancy` is how full it is. */
  datatype System = System(capacity: nat, occupancy: int, runs: seq<Run>)

  /** A run without a pool never touches it. */
  ghost predicate CanTake(sys: System, cfg: Config) {
    !cfg.shared || sys.occupancy < sys.capacity
  }

  /** What an event does to the pool. */
  ghost function Takes(e: Event): int {
    match e
    case InlineStart => 1
    case PumpLaunch => 1
    case SelectSlot => 1
    case InlineEnd(_) => -1
    case ReleaseSlot(_) => -1
    case _ => 0
  }

  ghost predicate RunMoves(sys: System, k: nat, e: Event, sys': System) {
    && k < |sys.runs|
    && |sys'.runs| == |sys.runs|
    && var r, r' := sys.runs[k], sys'.runs[k];
    && Moves(r.cfg, r.st, e, CanTake(sys, r.cfg), r'.st)
    && sys' == System(sys.capacity,
                      sys.occupancy + (if r.cfg.shared then Takes(e) else 0),
                      sys.runs[k := Run(r.cfg, r'.st)])
  }

  ghost predicate Spawns(sys: System, cfg: Config, sys': System) {
    && cfg.plan.WellFormed() && PlanShape(cfg.plan)
    && sys' == sys.(runs := sys.runs + [Run(cfg, Begin(cfg))])
  }

  ghost predicate SystemNext(sys: System, sys': System) {
    || (exists k, e: Event :: RunMoves(sys, k, e, sys'))
    || (exists cfg :: Spawns(sys, cfg, sys'))
  }

  ghost predicate SystemMovesTo(trace: seq<System>, k: nat) {
    0 < k < |trace| && SystemNext(trace[k - 1], trace[k])
  }

  ghost predicate IsSystemRun(trace: seq<System>) {
    && |trace| > 0
    && trace[0].occupancy == 0 && trace[0].runs == []
    && forall k :: 0 < k < |trace| ==> SystemMovesTo(trace, k)
  }

  /** Slots a run's steps hold: handed out or inlined, and not given back. Steps
      the run gave up on are among them until their goroutine ends. */
  ghost function Held(r: Run): nat {
    if r.cfg.shared then |r.st.holding| else 0
  }

  ghost predicate RunOk(r: Run) {
    r.cfg.plan.WellFormed() && Inv(r.cfg, Anything(), r.st)
  }

  ghost predicate Conserved(sys: System) {
    && sys.occupancy == Sum(sys.runs, Held)
    && sys.occupancy <= sys.capacity
    && forall k :: 0 <= k < |sys.runs| ==> RunOk(sys.runs[k])
  }

  lemma StartTakesNewSlot(cfg: Config, s: RunState)
    requires Goroutines(cfg, s) && Distinct(s.ready) && s.launched < |s.ready|
    ensures s.ready[s.launched] !in s.holding
  {
  }

  lemma HandleHolds(plan: ExecutionPlan, s: RunState, c: Completion)
    requires c.index < |s.steps| == |plan.steps| == |s.unmet| && plan.IndicesInRange()
    ensures Handle(plan, s, c).holding == s.holding
  {
  }

  /** Each event changes the number of held slots by what it does to the pool. */
  lemma LaunchHolds(cfg: Config, s: RunState, e: Event, free: bool, s': RunState)
    requires Goroutines(cfg, s) && Distinct(s.ready) && Moves(cfg, s, e, free, s') && IsLaunch(e)
    ensures |s'.holding| == |s.holding| + 1
  {
    StartTakesNewSlot(cfg, s);
  }

  lemma CompletionHolds(cfg: Config, s: RunState, e: Event, free: bool, s': RunState)
    requires Goroutines(cfg, s) && Moves(cfg, s, e, free, s') && IsCompletion(e)
    ensures |s'.holding| == |s.holding| + Takes(e)
  {
    match e
    case InlineEnd(r) => HandleHolds(cfg.plan, s.(holding := s.holding - {s.pc.step}), Completion(s.pc.step, r));
    case SelectDone => HandleHolds(cfg.plan, s.(inflight := s.inflight - 1, done := s.done[1..]), s.done[0]);
  }

  lemma MovesHold(cfg: Config, s: RunState, e: Event, free: bool, s': RunState)
    requires Goroutines(cfg, s) && Distinct(s.ready) && Moves(cfg, s, e, free, s')
    ensures |s'.holding| == |s.holding| + Takes(e)
  {
    if IsLaunch(e) {
      LaunchHolds(cfg, s, e, free, s');
    } else if IsCompletion(e) {
      CompletionHolds(cfg, s, e, free, s');
    }
  }

  lemma MoveEffect(sys: System, k: nat, e: Event, sys': System)
    requires k < |sys.runs| && RunOk(sys.runs[k]) && RunMoves(sys, k, e, sys')
    ensures Held(sys'.runs[k]) - Held(sys.runs[k]) == sys'.occupancy - sys.occupancy
    ensures sys'.occupancy > sys.occupancy ==> sys.occupancy < sys.capacity && sys'.occupancy == sys.occupancy + 1
  {
    var r, r' := sys.runs[k], sys'.runs[k];
    MovesHold(r.cfg, r.st, e, CanTake(sys, r.cfg), r'.st);
  }

  lemma MoveConserves(sys: System, k: nat, e: Event, sys': System)
    requires Conserved(sys) && RunMoves(sys, k, e, sys')
    ensures Conserved(sys')
  {
    MoveKeepsOccupancy(sys, k, e, sys');
    OthersStayOk(sys, k, e, sys');
  }

  lemma MoveKeepsOccupancy(sys: System, k: nat, e: Event, sys': System)
    requires sys.occupancy == Sum(sys.runs, Held) && sys.occupancy <= sys.capacity
    requires k < |sys.runs| && RunOk(sys.runs[k]) && RunMoves(sys, k, e, sys')
    ensures sys'.occupancy == Sum(sys'.runs, Held) && sys'.occupancy <= sys'.capacity
  {
    MoveEffect(sys, k, e, sys');
    SumUpdate(sys.runs, k, sys'.runs[k], Held);
  }

  lemma OthersStayOk(sys: System, k: nat, e: Event, sys': System)
    requires forall j :: 0 <= j < |sys.runs| ==> RunOk(sys.runs[j])
    requires RunMoves(sys, k, e, sys')
    ensures forall j :: 0 <= j < |sys'.runs| ==> RunOk(sys'.runs[j])
  {
    RunStaysOk(sys.runs[k], e, CanTake(sys, sys.runs[k].cfg), sys'.runs[k]);
  }

  lemma RunStaysOk(r: Run, e: Event, free: bool, r': Run)
    requires RunOk(r) && Moves(r.cfg, r.st, e, free, r'.st) && r'.cfg == r.cfg
    ensures RunOk(r')
  {
    EventKeepsInv(r.cfg, Anything(), r.st, e, free, r'.st);
  }

  lemma SpawnConserves(sys: System, cfg: Config, sys': System)
    requires Conserved(sys) && Spawns(sys, cfg, sys')
    ensures Conserved(sys')
  {
    NewRunOk(cfg);
    SumAppend(sys.runs, Run(cfg, Begin(cfg)), Held);
  }

  lemma NewRunOk(cfg: Config)
    requires cfg.plan.WellFormed() && PlanShape(cfg.plan)
    ensures RunOk(Run(cfg, Begin(cfg))) && Begin(cfg).holding == {}
  {
    BeginHasInv(cfg, Anything());
    InitialSupplying(cfg);
    var last := SupplyAll(cfg, Initial(cfg), 0);
  }

  /** In every interleaving of any number of runs, the pool holds exactly one slot
      for each step handed out or inlined and not yet given back, and never more
      than it has room for. */
  lemma {:induction false} SlotConservation(trace: seq<System>, k: nat)
    requires IsSystemRun(trace) && k < |trace|
    ensures Conserved(trace[k])
  {
    if k > 0 {
      SlotConservation(trace, k - 1);
      StepConserves(trace, k);
    }
  }

  lemma StepConserves(trace: seq<System>, k: nat)
    requires 0 < k < |trace| && Conserved(trace[k - 1])
    requires SystemMovesTo(trace, k)
    ensures Conserved(trace[k])
  {
    var sys, sys' := trace[k - 1], trace[k];
    if k, e: Event :| RunMoves(sys, k, e, sys') {
      MoveConserves(sys, k, e, sys');
    } else {
      var cfg :| Spawns(sys, cfg, sys');
      SpawnConserves(sys, cfg, sys');
    }
  }

  /** Giving a slot back never has to wait: there is one to take back. */
  lemma ReleaseFindsSlot(sys: System, k: nat, e: Event, sys': System)
    requires Conserved(sys) && RunMoves(sys, k, e, sys') && sys.runs[k].cfg.shared && Takes(e) < 0
    ensures 0 < sys.occupancy && 0 <= sys'.occupancy
  {
    var r, r' := sys.runs[k], sys'.runs[k];
    assert RunOk(r);
    MovesHold(r.cfg, r.st, e, CanTake(sys, r.cfg), r'.st);
    SumAtLeast(sys.runs, k, Held);
  }

  /** `tr` is a run on its own that leads where r is. */
  ghost predicate Explains(tr: seq<RunState>, r: Run) {
    r.cfg.plan.WellFormed() && IsRun(r.cfg, tr) && tr[|tr| - 1] == r.st
  }

  lemma BornAsBegin(sys: System, sys': System, j: nat)
    requires SystemNext(sys, sys') && |sys.runs| <= j < |sys'.runs|
    ensures Explains([sys'.runs[j].st], sys'.runs[j])
  {
    var cfg :| Spawns(sys, cfg, sys');
    RunBegins(cfg);
    assert sys'.runs[j] == Run(cfg, Begin(cfg));
  }

  lemma ContinueRun(sys: System, sys': System, j: nat, tr: seq<RunState>) returns (tr': seq<RunState>)
    requires SystemNext(sys, sys') && j < |sys.runs| && Explains(tr, sys.runs[j])
    ensures j < |sys'.runs| && Explains(tr', sys'.runs[j])
  {
    tr' := tr;
    if k, e: Event :| RunMoves(sys, k, e, sys') {
      if k == j {
        var r := sys.runs[j];
        assert Moves(r.cfg, r.st, e, CanTake(sys, r.cfg), sys'.runs[j].st);
        RunExtends(r.cfg, tr, sys'.runs[j].st);
        tr' := tr + [sys'.runs[j].st];
      }
    }
  }

  lemma Explained(sys: System, sys': System, j: nat, before: seq<RunState>) returns (tr: seq<RunState>)
    requires SystemNext(sys, sys') && j < |sys'.runs|
    requires j < |sys.runs| ==> Explains(before, sys.runs[j])
    ensures Explains(tr, sys'.runs[j])
  {
    if j < |sys.runs| {
      tr := ContinueRun(sys, sys', j, before);
    } else {
      BornAsBegin(sys, sys', j);
      tr := [sys'.runs[j].st];
    }
  }

  /** Every run in a shared process is, on its own, a run: whatever the others do
      only decides when it finds a slot. What holds of every run therefore holds of
      each of them. */
  lemma {:induction false} EachIsARun(trace: seq<System>, k: nat, j: nat) returns (tr: seq<RunState>)
    requires IsSystemRun(trace) && k < |trace| && j < |trace[k].runs|
    ensures Explains(tr, trace[k].runs[j])
  {
    tr := [];
    if j < |trace[k - 1].runs| {
      tr := EachIsARun(trace, k - 1, j);
    }
    assert SystemMovesTo(trace, k);
    tr := Explained(trace[k - 1], trace[k], j, tr);
  }

  // --------------------------------------------------------------- deadlock freedom

  /** The engine can move: not a node coming back, not the caller giving up, and not the
      abandon deadline. */
  ghost predicate EngineMoves(sys: System, k: nat, e: Event) {
    && k < |sys.runs|
    && Shape(sys.runs[k].cfg, sys.runs[k].st)
    && Enabled(sys.runs[k].cfg, sys.runs[k].st, e, CanTake(sys, sys.runs[k].cfg))
    && !e.Send? && !e.InlineEnd? && !e.SelectCaller? && !e.SelectAbandon?
  }

  /** Step i of run k is inside its node. */
  ghost predicate InsideNode(sys: System, k: nat, i: nat) {
    k < |sys.runs| && (i in sys.runs[k].st.going || sys.runs[k].st.pc == Inlining(i))
  }

  /** Step i of run j holds a slot, and is inside its node or about to give the slot
      back. */
  ghost predicate HoldsUp(sys: System, j: nat, i: nat) {
    && j < |sys.runs| && i in sys.runs[j].st.holding
    && (InsideNode(sys, j, i) || EngineMoves(sys, j, ReleaseSlot(i)))
  }

  /** Run k can move, or is inside one of its nodes, or waits on a full pool for a step
      of some run that holds a slot. */
  ghost predicate Alive(sys: System, k: nat) {
    || (exists e: Event :: EngineMoves(sys, k, e))
    || (exists i :: InsideNode(sys, k, i))
    || (sys.occupancy == sys.capacity && exists j, i :: HoldsUp(sys, j, i))
  }

  lemma HolderHoldsUp(sys: System, j: nat, i: nat)
    requires j < |sys.runs| && RunOk(sys.runs[j]) && i in sys.runs[j].st.holding
    ensures HoldsUp(sys, j, i)
  {
  }

  lemma FullPoolHasHolder(sys: System) returns (k: nat, i: nat)
    requires Conserved(sys) && 0 < sys.capacity == sys.occupancy
    ensures k < |sys.runs| && i in sys.runs[k].st.holding
  {
    k := SumPositive(sys.runs, Held);
    i :| i in sys.runs[k].st.holding;
  }

  lemma CoordinatorIsAlive(sys: System, k: nat)
    requires k < |sys.runs| && RunOk(sys.runs[k]) && !sys.runs[k].st.pc.Returned?
    requires CanTake(sys, sys.runs[k].cfg) || !sys.runs[k].st.pc.Selecting?
    ensures Alive(sys, k)
  {
    var r := sys.runs[k];
    var free := CanTake(sys, r.cfg);
    match r.st.pc
    case Top =>
      assert EngineMoves(sys, k, if WantsInline(r.cfg, r.st) && free then InlineStart else InlineSkip);
    case Pumping =>
      assert EngineMoves(sys, k, if !r.st.stopped && CanStart(r.cfg, r.st) && free then PumpLaunch else PumpStop);
    case Inlining(i) =>
      assert InsideNode(sys, k, i);
    case Selecting =>
      if r.st.going != {} {
        var i :| i in r.st.going;
        assert InsideNode(sys, k, i);
      } else {
        assert EngineMoves(sys, k, if r.st.done != [] then SelectDone else SelectSlot);
      }
  }

  /** An unfinished run can move, or one of its own steps is inside its node, or it waits
      on a full pool; and then the pool is full because of a step that is still running
      or about to give its slot back. */
  lemma NoDeadlock(sys: System, k: nat)
    requires Conserved(sys) && sys.capacity > 0
    requires k < |sys.runs| && !sys.runs[k].st.pc.Returned?
    ensures Alive(sys, k)
  {
    assert RunOk(sys.runs[k]);
    if CanTake(sys, sys.runs[k].cfg) || !sys.runs[k].st.pc.Selecting? {
      CoordinatorIsAlive(sys, k);
    } else {
      var j, i := FullPoolHasHolder(sys);
      assert RunOk(sys.runs[j]);
      HolderHoldsUp(sys, j, i);
    }
  }
}
