/**
 The scheduler's loop, updated in place: passes over the pending gates alternate with waits in which at
 least one running gate completes. Every method makes a step of module Scheduler, so the invariants and
 theorems about those steps are about this loop.
 */
module SchedulerLoop {
  import opened Options
  import opened Graphs
  import opened GateGraph
  import opened Scheduler
  import opened SchedulerRuns
  import opened SchedulerStalls
  import opened StallingPlans

  datatype Failure = InvalidDag | InvalidConcurrency | NoProgress | Fatal(error: string)

  class Loop {
    const plan: Plan
    const byId: map<string, Gate>
    var pending: set<string>
    var running: set<string>
    var settled: set<string>
    var held: set<string>
    var writer: bool
    var done: map<string, Receipt>
    var aborted: bool
    var fatal: Option<string>

    constructor (plan: Plan, aborted: bool)
      requires GoodPlan(plan)
      ensures this.plan == plan && byId == ById(plan.gates) && Now() == Initial(plan, aborted)
    {
      this.plan := plan;
      byId := ById(plan.gates);
      pending := ById(plan.gates).Keys;
      running, settled, held, writer := {}, {}, {}, false;
      done, fatal := map[], None;
      this.aborted := aborted;
    }

    function Now(): State
      reads this
    {
      State(pending, running, settled, held, writer, done, aborted, fatal)
    }

    ghost predicate Valid()
      reads this
    {
      byId == ById(plan.gates) && Inv(plan, Now())
    }

    /** One gate of the pass, in the order of the tests of the source. */
    method MeetGate(g: Gate)
      requires g.id in pending
      modifies this
      ensures Now() == Meet(plan, old(Now()), g)
    {
      var failedDependency := exists d :: d in g.dependsOn && d in done && !Success(done[d]);
      if aborted || failedDependency {
        done := done[g.id := BlockedBy(g.id, if aborted then ExecutionCancelled else DependencyFailed)];
        pending := pending - {g.id};
        return;
      }
      if |running| >= plan.concurrency || writer || (!g.readOnly && |running| > 0) {
        return;
      }
      if !(forall d :: d in g.dependsOn ==> d in done) || exists r :: r in g.resources && r in held {
        return;
      }
      pending := pending - {g.id};
      held := held + ResourcesOf(g);
      if !g.readOnly {
        writer := true;
      }
      running := running + {g.id};
    }

    method Sweep()
      modifies this
      ensures Now() == Pass(plan, old(Now()), 0)
    {
      for i := 0 to |plan.gates|
        invariant Pass(plan, Now(), i) == Pass(plan, old(Now()), 0)
      {
        if plan.gates[i].id in pending {
          MeetGate(plan.gates[i]);
        }
      }
    }

    /** The receipt or the error of a running gate is recorded. */
    method SettleOne(id: string)
      requires id in running && id !in settled && id in plan.outcomes
      modifies this
      ensures Now() == Settle(plan, old(Now()), id)
    {
      settled := settled + {id};
      match plan.outcomes[id]
      case Returned(receipt) =>
        done := done[id := receipt];
        if !Success(receipt) && plan.failFast {
          aborted := true;
        }
      case Thrown(error) =>
        if fatal.None? {
          fatal := Some(error);
        }
        aborted := true;
    }

    method FinishOne(id: string)
      requires id in settled && byId == ById(plan.gates) && id in byId
      modifies this
      ensures Now() == Finish(plan, old(Now()), id)
    {
      var g := byId[id];
      running, settled := running - {id}, settled - {id};
      held := held - ResourcesOf(g);
      if !g.readOnly {
        writer := false;
      }
    }

    /** One turn of the completion of a running gate: it settles, or, once settled, it finishes. */
    method Turn(id: string)
      requires Valid() && id in running
      modifies this
      ensures Valid() && pending == old(pending)
      ensures if id in old(settled) then running == old(running) - {id} && settled == old(settled) - {id}
              else running == old(running) && settled == old(settled) + {id}
      ensures NoEndAborts(plan) ==> aborted == old(aborted)
    {
      hide Inv;
      hide Settle;
      hide Finish;
      RunningIsPlanned(plan, Now(), id);
      TurnMeans(plan, Now(), id);
      if id in settled {
        FinishKeeps(plan, Now(), id);
        FinishOne(id);
      } else {
        SettleKeeps(plan, Now(), id);
        SettleOne(id);
      }
    }

    method Interrupt(interruptible: bool)
      requires Valid()
      modifies this
      ensures Valid() && pending == old(pending) && running == old(running) && settled == old(settled)
      ensures !interruptible ==> aborted == old(aborted)
    {
      hide Inv;
      var signal: bool := *;
      if interruptible && signal {
        AbortKeeps(plan, Now());
        aborted := true;
      }
    }

    /**
     Waits until a running gate has finished. Any number of gates may settle and finish meanwhile, in any
     order, and the caller's signal may abort the run when `interruptible` holds.
     */
    method AwaitOne(interruptible: bool)
      requires Valid() && running != {}
      modifies this
      ensures Valid() && pending == old(pending) && running < old(running)
      ensures NoEndAborts(plan) && !interruptible ==> aborted == old(aborted)
    {
      hide Inv;
      var first, more := running, true;
      while running == first || (more && running != {})
        invariant Valid() && pending == old(pending) && running <= first
        invariant NoEndAborts(plan) && !interruptible ==> aborted == old(aborted)
        decreases |running| + |running - settled|
      {
        Interrupt(interruptible);
        var id :| id in running;
        ghost var before := running - settled;
        ghost var wasSettled := id in settled;
        Turn(id);
        assert wasSettled ==> running - settled == before;
        assert !wasSettled ==> running - settled == before - {id};
        more := *;
      }
    }

    /** Passes and waits in turn, until nothing is left or a pass leaves gates pending and none running. */
    method Drain(interruptible: bool, ghost rank: map<string, nat>) returns (stalled: bool)
      requires Valid() && Ranked(GateDeps(plan.gates), rank)
      modifies this
      ensures Valid() && (stalled ==> !AllHear(plan.gates) && !plan.failFast)
      ensures stalled && AllReturn(plan) ==> HasDeaf(plan, rank)
      ensures !stalled ==> Finished(Now())
      ensures NoEndAborts(plan) && !interruptible ==> aborted == old(aborted)
    {
      hide Inv;
      while pending != {} || running != {}
        invariant Valid()
        invariant NoEndAborts(plan) && !interruptible ==> aborted == old(aborted)
        decreases 2 * |pending| + |running|
      {
        ghost var before := Now();
        PassShrinks(plan, before, 0);
        PassShape(plan, before, 0);
        PassKeeps(plan, before, 0);
        Sweep();
        if running != {} {
          ghost var r := running;
          AwaitOne(interruptible);
          FewerElements(running, r);
        } else if pending != {} {
          assert Stalls(plan, before);
          StallMeans(plan, rank, before);
          return true;
        }
      }
      stalled := false;
    }
  }

  /** Failures lie behind some gate, none of which it hears of. */
  ghost predicate HasDeaf(p: Plan, rank: map<string, nat>) {
    Steady(p, rank) && exists k: nat :: k < |p.gates| && Deaf(p, rank, k)
  }

  lemma StallMeans(p: Plan, rank: map<string, nat>, s: State)
    requires Inv(p, s) && Ranked(GateDeps(p.gates), rank) && Stalls(p, s)
    ensures !AllHear(p.gates) && !p.failFast && (AllReturn(p) ==> HasDeaf(p, rank))
  {
    hide Inv;
    hide Stalls;
    if AllHear(p.gates) || p.failFast {
      NeverStalls(p, rank, s);
    }
    InvParts(p, s);
    StallIsStuck(p, s);
    if AllReturn(p) {
      var k := StallLeavesDeaf(p, rank, s);
    }
  }

  /** What a turn leaves of the running gates, and that only a bad receipt or an error aborts. */
  lemma TurnMeans(p: Plan, s: State, id: string)
    requires id in s.running && id in p.outcomes && id in ById(p.gates)
    ensures id in s.settled ==> var s' := Finish(p, s, id);
              && s'.pending == s.pending && s'.running == s.running - {id} && s'.settled == s.settled - {id}
              && s'.aborted == s.aborted
    ensures id !in s.settled ==> var s' := Settle(p, s, id);
              && s'.pending == s.pending && s'.running == s.running && s'.settled == s.settled + {id}
              && (NoEndAborts(p) ==> s'.aborted == s.aborted)
  {
  }

  /** Every gate has an outcome, and a receipt of its own when it returns one. */
  predicate Answers(gates: seq<Gate>, outcomes: map<string, Outcome>) {
    && (forall id :: id in ById(gates) ==> id in outcomes)
    && (forall id :: id in outcomes && outcomes[id].Returned? ==> outcomes[id].receipt.gateId == id)
  }

  /** Each receipt is the one the simple recursion gives for its gate. */
  ghost predicate AreVerdicts(p: Plan, list: seq<Receipt>) {
    && |list| == |p.gates| && GoodPlan(p) && AllReturn(p)
    && (exists rank :: Ranked(GateDeps(p.gates), rank))
    && forall rank, i | Ranked(GateDeps(p.gates), rank) && 0 <= i < |list| ::
         p.gates[i].id in ById(p.gates) && list[i] == Verdict(p, rank, p.gates[i].id)
  }

  lemma FatalIsThrown(p: Plan, s: State)
    requires Inv(p, s)
    ensures s.fatal.Some? ==> exists id :: id in p.outcomes && p.outcomes[id] == Thrown(s.fatal.value)
  {
  }

  /**
   Runs the gates. `outcomes` is what each execution will end with; the order of completions is arbitrary.
   The list of receipts has one receipt per gate, in list order; without abort it is the list of verdicts.
   The run cannot stall when every gate hears of the dependencies of its dependencies, or with fail-fast, or when
   every gate hears of a failure behind it, if there are any.
   */
  method Schedule(plan: Plan, preAborted: bool, interruptible: bool) returns (r: Result<seq<Receipt>, Failure>)
    requires Answers(plan.gates, plan.outcomes)
    ensures r == Err(InvalidDag) <==>
              !(Unique(plan.gates) && Closed(GateDeps(plan.gates)) && Acyclic(GateDeps(plan.gates)))
    ensures r == Err(InvalidConcurrency) <==>
              && Unique(plan.gates) && Closed(GateDeps(plan.gates)) && Acyclic(GateDeps(plan.gates))
              && plan.concurrency == 0
    ensures r == Err(NoProgress) ==> !AllHear(plan.gates) && !plan.failFast
    ensures r == Err(NoProgress) && AllReturn(plan) ==> exists rank :: HasDeaf(plan, rank)
    ensures r.Err? && r.error.Fatal? ==> exists id :: id in plan.outcomes && plan.outcomes[id] == Thrown(r.error.error)
    ensures r.Ok? ==> |r.value| == |plan.gates|
    ensures r.Ok? ==> forall i :: 0 <= i < |r.value| ==> r.value[i].gateId == plan.gates[i].id
    ensures r.Ok? && NoEndAborts(plan) && !preAborted && !interruptible ==> AreVerdicts(plan, r.value)
  {
    hide Inv;
    hide AreVerdicts;
    var valid := ValidateDag(plan.gates);
    if !valid {
      return Err(InvalidDag);
    }
    if plan.concurrency == 0 {
      return Err(InvalidConcurrency);
    }
    ghost var rank :| Ranked(GateDeps(plan.gates), rank);
    assert GoodPlan(plan);
    var loop := new Loop(plan, preAborted);
    InitialInv(plan, preAborted);
    var stalled := loop.Drain(interruptible, rank);
    if stalled {
      return Err(NoProgress);
    }
    FatalIsThrown(plan, loop.Now());
    if loop.fatal.Some? {
      return Err(Fatal(loop.fatal.value));
    }
    EndsComplete(plan, loop.Now());
    if NoEndAborts(plan) && !preAborted && !interruptible {
      EndsWithVerdicts(plan, loop.Now());
    }
    r := Ok(Receipts(plan, loop.Now()));
  }

  /** A pass moves gates out of the pending ones, each at most into the running ones. */
  lemma {:induction false} PassShrinks(p: Plan, s: State, i: nat)
    requires i <= |p.gates|
    ensures 2 * |Pass(p, s, i).pending| + |Pass(p, s, i).running| <= 2 * |s.pending| + |s.running|
    decreases |p.gates| - i
  {
    if i < |p.gates| {
      var g := p.gates[i];
      if g.id in s.pending {
        assert |s.pending - {g.id}| == |s.pending| - 1;
        assert |s.running + {g.id}| <= |s.running| + 1;
      }
      PassShrinks(p, Meet(p, s, g), i + 1);
    }
  }

  lemma EndsComplete(p: Plan, s: State)
    requires Inv(p, s) && Finished(s) && s.fatal.None?
    ensures forall i :: 0 <= i < |p.gates| ==> p.gates[i].id in s.done && s.done[p.gates[i].id].gateId == p.gates[i].id
  {
    UniqueById(p.gates);
    forall i | 0 <= i < |p.gates| ensures p.gates[i].id in s.done && s.done[p.gates[i].id].gateId == p.gates[i].id {
      assert p.gates[i] in p.gates;
      assert Explained(p, s, p.gates[i].id);
    }
  }

  lemma VerdictAt(p: Plan, s: State, rank: map<string, nat>, i: nat)
    requires Inv(p, s) && !s.aborted && AllReturn(p) && Ranked(GateDeps(p.gates), rank)
    requires i < |p.gates| && p.gates[i].id in s.done
    ensures p.gates[i].id in ById(p.gates) && s.done[p.gates[i].id] == Verdict(p, rank, p.gates[i].id)
  {
    hide Inv;
    InvParts(p, s);
    DoneIsVerdict(p, rank, s, p.gates[i].id);
    GateAt(p, i);
  }

  lemma EndsWithVerdicts(p: Plan, s: State)
    requires Inv(p, s) && Finished(s) && !s.aborted && AllReturn(p)
    requires exists rank :: Ranked(GateDeps(p.gates), rank)
    requires forall i :: 0 <= i < |p.gates| ==> p.gates[i].id in s.done
    ensures AreVerdicts(p, Receipts(p, s))
  {
    InvParts(p, s);
    hide *;
    forall rank, i | Ranked(GateDeps(p.gates), rank) && 0 <= i < |p.gates|
      ensures p.gates[i].id in ById(p.gates) && s.done[p.gates[i].id] == Verdict(p, rank, p.gates[i].id)
    {
      VerdictAt(p, s, rank, i);
    }
    VerdictsAre(p, Receipts(p, s));
  }

  lemma VerdictsAre(p: Plan, list: seq<Receipt>)
    requires |list| == |p.gates| && GoodPlan(p) && AllReturn(p) && (exists rank :: Ranked(GateDeps(p.gates), rank))
    requires forall rank, i | Ranked(GateDeps(p.gates), rank) && 0 <= i < |list| ::
               p.gates[i].id in ById(p.gates) && list[i] == Verdict(p, rank, p.gates[i].id)
    ensures AreVerdicts(p, list)
  {
    hide Ranked;
    hide Verdict;
    hide GoodPlan;
    hide AllReturn;
  }
}
