/**
 The gate scheduler as a state machine: passes over the pending gates, and the completions of the running
 ones in any order.

 The promise of a running gate settles in two turns: first its receipt (or error) is recorded, later the
 gate leaves the running set and gives its resources back. A pass may run between the two.
 */
module Scheduler {
  import opened Options
  import opened Graphs
  import opened GateGraph

  /** The two reasons of a gate that never ran. */
  datatype Reason = ExecutionCancelled | DependencyFailed

  datatype Status =
    | Passed | Cached | PassedAfterRetry | Failed | TimedOut | Cancelled | SpawnError
    | Blocked(reason: Reason)

  datatype Receipt = Receipt(gateId: string, status: Status, exitCode: Option<int>)

  predicate Success(r: Receipt) {
    r.status.Passed? || r.status.Cached? || r.status.PassedAfterRetry?
  }

  /** What the execution of a gate ends with. */
  datatype Outcome = Returned(receipt: Receipt) | Thrown(error: string)

  datatype Plan = Plan(gates: seq<Gate>, concurrency: nat, failFast: bool, outcomes: map<string, Outcome>)

  datatype State = State(
    pending: set<string>, running: set<string>, settled: set<string>, held: set<string>, writer: bool,
    done: map<string, Receipt>, aborted: bool, fatal: Option<string>)

  function BlockedBy(id: string, reason: Reason): Receipt {
    Receipt(id, Blocked(reason), None)
  }

  function ResourcesOf(g: Gate): set<string> {
    set r | r in g.resources
  }

  predicate FailedDependency(s: State, g: Gate) {
    exists d :: d in g.dependsOn && d in s.done && !Success(s.done[d])
  }

  predicate MustWait(p: Plan, s: State, g: Gate) {
    || |s.running| >= p.concurrency || s.writer || (!g.readOnly && |s.running| > 0)
    || !(forall d :: d in g.dependsOn ==> d in s.done)
    || exists r :: r in g.resources && r in s.held
  }

  /** One gate met by a pass: blocked, left waiting, or started. */
  function Meet(p: Plan, s: State, g: Gate): State {
    if g.id !in s.pending then s
    else if s.aborted || FailedDependency(s, g) then
      s.(pending := s.pending - {g.id},
         done := s.done[g.id := BlockedBy(g.id, if s.aborted then ExecutionCancelled else DependencyFailed)])
    else if MustWait(p, s, g) then s
    else s.(pending := s.pending - {g.id}, running := s.running + {g.id}, held := s.held + ResourcesOf(g),
            writer := s.writer || !g.readOnly)
  }

  /** The pass over the gates from the `i`-th on, in list order. */
  function Pass(p: Plan, s: State, i: nat): State
    requires i <= |p.gates|
    decreases |p.gates| - i
  {
    if i == |p.gates| then s else Pass(p, Meet(p, s, p.gates[i]), i + 1)
  }

  /** The execution of a running gate ends: its receipt, or the error that aborts the run. */
  function Settle(p: Plan, s: State, id: string): State
    requires id in s.running && id !in s.settled && id in p.outcomes
  {
    match p.outcomes[id]
    case Returned(receipt) =>
      s.(settled := s.settled + {id}, done := s.done[id := receipt],
         aborted := s.aborted || (!Success(receipt) && p.failFast))
    case Thrown(error) =>
      s.(settled := s.settled + {id}, aborted := true, fatal := if s.fatal.None? then Some(error) else s.fatal)
  }

  /** The gate leaves the running set and gives back what it held. */
  function Finish(p: Plan, s: State, id: string): State
    requires id in s.settled && id in ById(p.gates)
  {
    var g := ById(p.gates)[id];
    s.(running := s.running - {id}, settled := s.settled - {id}, held := s.held - ResourcesOf(g),
       writer := s.writer && g.readOnly)
  }

  function Initial(p: Plan, aborted: bool): State {
    State(ById(p.gates).Keys, {}, {}, {}, false, map[], aborted, None)
  }

  // ------------------------------------------------------------- invariants

  /** What `schedule` has checked, and receipts that carry the id of their gate. */
  predicate GoodPlan(p: Plan) {
    && Unique(p.gates) && Closed(GateDeps(p.gates)) && p.concurrency > 0
    && (forall id :: id in ById(p.gates) ==> id in p.outcomes)
    && (forall id :: id in p.outcomes && p.outcomes[id].Returned? ==> p.outcomes[id].receipt.gateId == id)
  }

  /** Every gate is in exactly one place: pending, running, or finished. */
  predicate Placed(p: Plan, s: State) {
    var m := ById(p.gates);
    && s.pending !! s.running && s.pending !! s.done.Keys && s.settled <= s.running
    && s.pending + s.running + s.done.Keys <= m.Keys
    && (forall id :: id in s.running ==> (id in s.done ==> id in s.settled))
    && (forall id :: id in s.settled && id !in s.done ==> id in p.outcomes && p.outcomes[id].Thrown? && s.fatal.Some?)
    && (forall id :: id in m ==>
          || id in s.pending || id in s.running || id in s.done
          || (id in p.outcomes && p.outcomes[id].Thrown? && s.fatal.Some?))
    && (s.fatal.Some? ==>
          s.aborted && exists id :: id in m && id in p.outcomes && p.outcomes[id] == Thrown(s.fatal.value))
  }

  predicate WriterFlag(m: map<string, Gate>, running: set<string>, writer: bool)
    requires running <= m.Keys
  {
    writer <==> exists id :: id in running && !m[id].readOnly
  }

  predicate Apart(m: map<string, Gate>, running: set<string>)
    requires running <= m.Keys
  {
    forall a, b :: a in running && b in running && a != b ==> m[a].readOnly && ResourcesOf(m[a]) !! ResourcesOf(m[b])
  }

  ghost predicate HeldByRunning(m: map<string, Gate>, running: set<string>, held: set<string>)
    requires running <= m.Keys
  {
    forall r :: r in held <==> exists id :: id in running && r in m[id].resources
  }

  /** The mutual exclusions: the bound, writers alone, resources held by one running gate each. */
  ghost predicate Exclusive(p: Plan, s: State) {
    var m := ById(p.gates);
    && s.running <= m.Keys && |s.running| <= p.concurrency
    && WriterFlag(m, s.running, s.writer) && Apart(m, s.running) && HeldByRunning(m, s.running, s.held)
  }

  predicate AllSucceeded(s: State, ids: seq<string>) {
    forall d :: d in ids ==> d in s.done && Success(s.done[d])
  }

  /** Why a receipt is there: the gate ran after its dependencies, was cancelled, or met a failed dependency. */
  predicate Explained(p: Plan, s: State, id: string)
    requires id in s.done && id in ById(p.gates)
  {
    || (id in p.outcomes && p.outcomes[id] == Returned(s.done[id]) && AllSucceeded(s, ById(p.gates)[id].dependsOn))
    || (s.done[id] == BlockedBy(id, ExecutionCancelled) && s.aborted)
    || (s.done[id] == BlockedBy(id, DependencyFailed) && FailedDependency(s, ById(p.gates)[id]))
  }

  /** A gate starts only after all its dependencies ended in success, and every receipt is explained. */
  predicate Recorded(p: Plan, s: State) {
    && s.running + s.done.Keys <= ById(p.gates).Keys
    && (forall id :: id in s.running ==> AllSucceeded(s, ById(p.gates)[id].dependsOn))
    && (forall id :: id in s.done ==> Explained(p, s, id))
    && (p.failFast && !s.aborted ==> forall id :: id in s.done ==> Success(s.done[id]))
  }

  ghost predicate Inv(p: Plan, s: State) {
    GoodPlan(p) && Placed(p, s) && Exclusive(p, s) && Recorded(p, s)
  }

  lemma InitialInv(p: Plan, aborted: bool)
    requires GoodPlan(p)
    ensures Inv(p, Initial(p, aborted))
  {
  }

  /** Recording one more receipt explains the others as before. */
  lemma DoneFrame(p: Plan, s: State, s': State, id: string)
    requires Recorded(p, s) && id !in s.done && id in s'.done && s'.done == s.done[id := s'.done[id]]
    requires s.aborted ==> s'.aborted
    ensures forall x :: x in s.done ==> Explained(p, s', x)
    ensures forall x :: x in s.running ==> AllSucceeded(s', ById(p.gates)[x].dependsOn)
  {
    forall x | x in s.done ensures Explained(p, s', x) {
      assert Explained(p, s, x);
    }
    forall x | x in s.running ensures AllSucceeded(s', ById(p.gates)[x].dependsOn) {
      assert AllSucceeded(s, ById(p.gates)[x].dependsOn);
    }
  }

  lemma BlockPlaced(p: Plan, s: State, g: Gate)
    requires Placed(p, s) && g.id in s.pending && (s.aborted || FailedDependency(s, g))
    ensures Placed(p, Meet(p, s, g))
  {
    var s' := Meet(p, s, g);
    assert s'.done.Keys == s.done.Keys + {g.id};
  }

  lemma BlockRecorded(p: Plan, s: State, g: Gate)
    requires Placed(p, s) && Recorded(p, s) && g.id in ById(p.gates) && ById(p.gates)[g.id] == g
    requires g.id in s.pending && (s.aborted || FailedDependency(s, g))
    ensures Recorded(p, Meet(p, s, g))
  {
    var s' := Meet(p, s, g);
    assert s'.done.Keys == s.done.Keys + {g.id};
    DoneFrame(p, s, s', g.id);
  }

  lemma BlockKeeps(p: Plan, s: State, g: Gate)
    requires Inv(p, s) && g in p.gates && g.id in s.pending && (s.aborted || FailedDependency(s, g))
    ensures Inv(p, Meet(p, s, g))
  {
    UniqueById(p.gates);
    BlockPlaced(p, s, g);
    BlockRecorded(p, s, g);
  }

  lemma StartPlaced(p: Plan, s: State, g: Gate)
    requires Placed(p, s) && g.id in s.pending
    requires !s.aborted && !FailedDependency(s, g) && !MustWait(p, s, g)
    ensures Placed(p, Meet(p, s, g))
  {
  }

  lemma StartRecorded(p: Plan, s: State, g: Gate)
    requires Placed(p, s) && Recorded(p, s) && g.id in ById(p.gates) && ById(p.gates)[g.id] == g
    requires g.id in s.pending && !s.aborted && !FailedDependency(s, g) && !MustWait(p, s, g)
    ensures Recorded(p, Meet(p, s, g))
  {
    var s' := Meet(p, s, g);
    assert AllSucceeded(s, g.dependsOn);
    SameDoneFrame(p, s, s');
    assert AllSucceeded(s', g.dependsOn);
  }

  /** With the receipts unchanged, what they explain stays explained. */
  lemma SameDoneFrame(p: Plan, s: State, s': State)
    requires Recorded(p, s) && s'.done == s.done && (s.aborted ==> s'.aborted)
    ensures forall x :: x in s.done ==> Explained(p, s', x)
    ensures forall x :: x in s.running ==> AllSucceeded(s', ById(p.gates)[x].dependsOn)
  {
    forall x | x in s.done ensures Explained(p, s', x) {
      assert Explained(p, s, x);
    }
    forall x | x in s.running ensures AllSucceeded(s', ById(p.gates)[x].dependsOn) {
      assert AllSucceeded(s, ById(p.gates)[x].dependsOn);
    }
  }

  /** What a gate that need not wait finds: readers only when it is one, and no resource of its own taken. */
  lemma StartMeetsNoRival(p: Plan, s: State, g: Gate)
    requires Exclusive(p, s) && !MustWait(p, s, g)
    ensures forall a :: a in s.running ==>
              g.readOnly && ById(p.gates)[a].readOnly && ResourcesOf(ById(p.gates)[a]) !! ResourcesOf(g)
  {
    var m := ById(p.gates);
    forall a | a in s.running ensures g.readOnly && m[a].readOnly && ResourcesOf(m[a]) !! ResourcesOf(g) {
      assert s.running == (s.running - {a}) + {a};
      forall r | r in ResourcesOf(m[a]) ensures r !in ResourcesOf(g) {
        assert r in s.held;
      }
    }
  }

  lemma OneMoreWriter(m: map<string, Gate>, running: set<string>, writer: bool, g: Gate)
    requires running <= m.Keys && WriterFlag(m, running, writer) && g.id in m && m[g.id] == g
    ensures WriterFlag(m, running + {g.id}, writer || !g.readOnly)
  {
    var more := running + {g.id};
    if writer {
      var id :| id in running && !m[id].readOnly;
      assert id in more;
    } else if !g.readOnly {
      assert g.id in more;
    }
  }

  lemma OneMoreHeld(m: map<string, Gate>, running: set<string>, held: set<string>, g: Gate)
    requires running <= m.Keys && HeldByRunning(m, running, held) && g.id in m && m[g.id] == g
    ensures HeldByRunning(m, running + {g.id}, held + ResourcesOf(g))
  {
    var more := running + {g.id};
    forall r ensures r in held + ResourcesOf(g) <==> exists id :: id in more && r in m[id].resources {
      if r in g.resources {
        assert g.id in more;
      } else if r in held {
        var id :| id in running && r in m[id].resources;
        assert id in more;
      }
    }
  }

  lemma OneMoreApart(m: map<string, Gate>, running: set<string>, g: Gate)
    requires running <= m.Keys && Apart(m, running) && g.id in m && m[g.id] == g && g.id !in running
    requires forall a :: a in running ==> g.readOnly && m[a].readOnly && ResourcesOf(m[a]) !! ResourcesOf(g)
    ensures Apart(m, running + {g.id})
  {
  }

  lemma StartIsExclusive(p: Plan, s: State, g: Gate)
    requires Placed(p, s) && Exclusive(p, s) && g.id in ById(p.gates) && ById(p.gates)[g.id] == g
    requires g.id in s.pending && !s.aborted && !FailedDependency(s, g) && !MustWait(p, s, g)
    ensures Exclusive(p, Meet(p, s, g))
  {
    hide WriterFlag;
    hide Apart;
    hide HeldByRunning;
    hide ResourcesOf;
    var m := ById(p.gates);
    StartMeetsNoRival(p, s, g);
    OneMoreWriter(m, s.running, s.writer, g);
    OneMoreHeld(m, s.running, s.held, g);
    OneMoreApart(m, s.running, g);
  }

  lemma StartKeeps(p: Plan, s: State, g: Gate)
    requires Inv(p, s) && g in p.gates && g.id in s.pending
    requires !s.aborted && !FailedDependency(s, g) && !MustWait(p, s, g)
    ensures Inv(p, Meet(p, s, g))
  {
    UniqueById(p.gates);
    StartPlaced(p, s, g);
    StartIsExclusive(p, s, g);
    StartRecorded(p, s, g);
  }

  lemma MeetKeeps(p: Plan, s: State, g: Gate)
    requires Inv(p, s) && g in p.gates
    ensures Inv(p, Meet(p, s, g))
  {
    if g.id in s.pending {
      if s.aborted || FailedDependency(s, g) {
        BlockKeeps(p, s, g);
      } else if !MustWait(p, s, g) {
        StartKeeps(p, s, g);
      }
    }
  }

  /**
   Which gates wait, told from the running ones: the bound is reached, a gate that writes runs, something runs and
   this one writes, a dependency has no receipt, or a running gate has a resource of this one.
   */
  lemma WaitsExactly(p: Plan, s: State, g: Gate)
    requires Inv(p, s) && g.id in s.pending && !s.aborted && !FailedDependency(s, g)
    ensures g.id in Meet(p, s, g).pending <==>
              || |s.running| >= p.concurrency
              || (exists id :: id in s.running && !ById(p.gates)[id].readOnly)
              || (!g.readOnly && s.running != {})
              || (exists d :: d in g.dependsOn && d !in s.done)
              || exists id, r :: id in s.running && r in ById(p.gates)[id].resources && r in g.resources
  {
    HeldMeans(p, s, g);
    hide Recorded;
    hide Placed;
    hide Apart;
    hide HeldByRunning;
  }

  lemma HeldMeans(p: Plan, s: State, g: Gate)
    requires Exclusive(p, s)
    ensures (exists r :: r in g.resources && r in s.held) <==>
              exists id, r :: id in s.running && r in ById(p.gates)[id].resources && r in g.resources
    ensures s.writer <==> exists id :: id in s.running && !ById(p.gates)[id].readOnly
  {
    var m := ById(p.gates);
    if r :| r in g.resources && r in s.held {
      var id :| id in s.running && r in m[id].resources;
    }
    if id, r :| id in s.running && r in m[id].resources && r in g.resources {
      assert r in s.held;
    }
  }

  /** Once a run is aborted, the next pass blocks everything pending as cancelled. */
  lemma AbortedPassCancels(p: Plan, s: State, i: nat)
    requires s.aborted && i <= |p.gates|
    ensures var s' := Pass(p, s, i);
            && s'.running == s.running && s'.aborted
            && forall k :: i <= k < |p.gates| && p.gates[k].id in s.pending ==>
                 && p.gates[k].id !in s'.pending
                 && p.gates[k].id in s'.done
                 && s'.done[p.gates[k].id] == Receipt(p.gates[k].id, Blocked(ExecutionCancelled), None)
    decreases |p.gates| - i
  {
    if i < |p.gates| {
      var next := Meet(p, s, p.gates[i]);
      AbortedPassCancels(p, next, i + 1);
      DoneStays(p, next, i + 1, p.gates[i].id);
    }
  }

  /** A receipt of a gate that is not pending stays. */
  lemma DoneStays(p: Plan, s: State, i: nat, id: string)
    requires i <= |p.gates| && id !in s.pending
    ensures id !in Pass(p, s, i).pending
    ensures id in s.done ==> id in Pass(p, s, i).done && Pass(p, s, i).done[id] == s.done[id]
    decreases |p.gates| - i
  {
    if i < |p.gates| {
      DoneStays(p, Meet(p, s, p.gates[i]), i + 1, id);
    }
  }

  lemma {:induction false} PassKeeps(p: Plan, s: State, i: nat)
    requires Inv(p, s) && i <= |p.gates|
    ensures Inv(p, Pass(p, s, i))
    decreases |p.gates| - i
  {
    if i < |p.gates| {
      MeetKeeps(p, s, p.gates[i]);
      PassKeeps(p, Meet(p, s, p.gates[i]), i + 1);
    }
  }

  /** The state after the gates from the `i`-th on, up to the `j`-th, were met. */
  function Met(p: Plan, s: State, i: nat, j: nat): State
    requires i <= j <= |p.gates|
    decreases j - i
  {
    if i == j then s else Met(p, Meet(p, s, p.gates[i]), i + 1, j)
  }

  lemma {:induction false} PassSplits(p: Plan, s: State, i: nat, j: nat)
    requires i <= j <= |p.gates|
    ensures Pass(p, s, i) == Pass(p, Met(p, s, i, j), j)
    decreases j - i
  {
    if i < j {
      PassSplits(p, Meet(p, s, p.gates[i]), i + 1, j);
    }
  }

  lemma {:induction false} MetKeeps(p: Plan, s: State, i: nat, j: nat)
    requires Inv(p, s) && i <= j <= |p.gates|
    ensures Inv(p, Met(p, s, i, j))
    decreases j - i
  {
    hide Inv;
    if i == j {
      assert Met(p, s, i, j) == s;
    } else {
      var s' := Meet(p, s, p.gates[i]);
      MeetKeeps(p, s, p.gates[i]);
      MetKeeps(p, s', i + 1, j);
      assert Met(p, s, i, j) == Met(p, s', i + 1, j);
    }
  }

  lemma SettlePlaced(p: Plan, s: State, id: string)
    requires GoodPlan(p) && Placed(p, s) && id in s.running && id !in s.settled
    ensures Placed(p, Settle(p, s, id))
  {
    var s' := Settle(p, s, id);
    assert s'.done.Keys <= s.done.Keys + {id};
  }

  lemma SettleRecorded(p: Plan, s: State, id: string)
    requires GoodPlan(p) && Placed(p, s) && Recorded(p, s) && id in s.running && id !in s.settled
    ensures Recorded(p, Settle(p, s, id))
  {
    var s' := Settle(p, s, id);
    if p.outcomes[id].Returned? {
      assert s'.done.Keys == s.done.Keys + {id};
      DoneFrame(p, s, s', id);
    } else {
      SameDoneFrame(p, s, s');
    }
  }

  lemma SettleKeeps(p: Plan, s: State, id: string)
    requires Inv(p, s) && id in s.running && id !in s.settled
    ensures Inv(p, Settle(p, s, id))
  {
    SettlePlaced(p, s, id);
    SettleRecorded(p, s, id);
  }

  lemma FinishKeeps(p: Plan, s: State, id: string)
    requires Inv(p, s) && id in s.settled
    ensures Inv(p, Finish(p, s, id))
  {
    FinishIsExclusive(p, s, id);
    SameDoneFrame(p, s, Finish(p, s, id));
  }

  lemma OneLessHeld(m: map<string, Gate>, running: set<string>, held: set<string>, id: string)
    requires running <= m.Keys && HeldByRunning(m, running, held) && Apart(m, running) && id in running
    ensures HeldByRunning(m, running - {id}, held - ResourcesOf(m[id]))
  {
    var rest, kept := running - {id}, held - ResourcesOf(m[id]);
    forall r ensures r in kept <==> exists x :: x in rest && r in m[x].resources {
      if r in kept {
        var x :| x in running && r in m[x].resources;
        assert x in rest;
      }
      if x :| x in rest && r in m[x].resources {
        assert x in running && ResourcesOf(m[x]) !! ResourcesOf(m[id]) && r in ResourcesOf(m[x]);
      }
    }
  }

  lemma OneLessWriter(m: map<string, Gate>, running: set<string>, writer: bool, id: string)
    requires running <= m.Keys && WriterFlag(m, running, writer) && Apart(m, running) && id in running
    ensures WriterFlag(m, running - {id}, writer && m[id].readOnly)
  {
    assert forall x :: x in running - {id} ==> m[x].readOnly;
  }

  lemma FinishIsExclusive(p: Plan, s: State, id: string)
    requires Exclusive(p, s) && id in s.settled && id in s.running
    ensures Exclusive(p, Finish(p, s, id))
  {
    hide WriterFlag;
    hide HeldByRunning;
    hide ResourcesOf;
    var m := ById(p.gates);
    OneLessHeld(m, s.running, s.held, id);
    OneLessWriter(m, s.running, s.writer, id);
    assert s.running == (s.running - {id}) + {id};
  }
}
