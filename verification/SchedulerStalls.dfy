/**
 When the scheduler gives up. A pass never comes back to a gate it has passed over, so a gate listed before
 a dependency that the same pass blocks can be left pending with nothing running. Here: exactly which
 states stall, and which lists of gates never do.
 */
module SchedulerStalls {
  import opened Options
  import opened Graphs
  import opened GateGraph
  import opened Scheduler
  import opened SchedulerRuns

  /** A pass that leaves gates pending and none running: the source then gives up. */
  predicate Stalls(p: Plan, s: State) {
    Pass(p, s, 0).running == {} && Pass(p, s, 0).pending != {}
  }

  /** The next pass blocks the `k`-th gate: a dependency failed, or one listed earlier is itself doomed. */
  predicate Doomed(p: Plan, s: State, k: nat)
    requires k < |p.gates|
    decreases k
  {
    && p.gates[k].id in s.pending
    && (FailedDependency(s, p.gates[k])
        || exists j: nat :: j < k && p.gates[j].id in p.gates[k].dependsOn && Doomed(p, s, j))
  }

  predicate Lacks(s: State, g: Gate) {
    exists d :: d in g.dependsOn && d !in s.done
  }

  /** The `k`-th gate is pending and the next pass will not block it. */
  predicate Left(p: Plan, s: State, k: nat)
    requires k < |p.gates|
  {
    p.gates[k].id in s.pending && !Doomed(p, s, k)
  }

  // ------------------------------------------------------------- what a pass blocks

  lemma GateAt(p: Plan, k: nat)
    requires Unique(p.gates) && k < |p.gates|
    ensures p.gates[k].id in ById(p.gates) && ById(p.gates)[p.gates[k].id] == p.gates[k]
    ensures GateDeps(p.gates)[p.gates[k].id] == p.gates[k].dependsOn
  {
    UniqueById(p.gates);
    assert p.gates[k] in p.gates;
  }

  lemma IndexOf(gates: seq<Gate>, id: string) returns (k: nat)
    requires id in ById(gates)
    ensures k < |gates| && gates[k].id == id
  {
    ByIdHasGates(gates);
    k :| k < |gates| && gates[k].id == id;
  }

  lemma {:induction false} MetSnoc(p: Plan, s: State, i: nat, j: nat)
    requires i <= j < |p.gates|
    ensures Met(p, s, i, j + 1) == Meet(p, Met(p, s, i, j), p.gates[j])
    decreases j - i
  {
    if i < j {
      MetSnoc(p, Meet(p, s, p.gates[i]), i + 1, j);
    } else {
      var s' := Meet(p, s, p.gates[i]);
      assert Met(p, s', i + 1, i + 1) == s';
    }
  }

  lemma {:induction false} NotMetYet(p: Plan, s: State, i: nat, j: nat, id: string)
    requires i <= j <= |p.gates| && forall k :: i <= k < j ==> p.gates[k].id != id
    ensures var met := Met(p, s, i, j);
            (id in met.pending <==> id in s.pending) && (id in met.done <==> id in s.done)
    decreases j - i
  {
    if i < j {
      NotMetYet(p, Meet(p, s, p.gates[i]), i + 1, j, id);
    }
  }

  /** What meeting the first `j` gates leaves of the receipts: the old ones, and those of the doomed. */
  ghost predicate DoneUpTo(p: Plan, s: State, met: State, j: nat)
    requires j <= |p.gates|
  {
    && !met.aborted
    && (forall x :: x in s.done ==> x in met.done && met.done[x] == s.done[x])
    && (forall x :: x in met.done && x !in s.done ==>
          met.done[x] == BlockedBy(x, DependencyFailed)
          && exists i: nat :: i < j && p.gates[i].id == x && Doomed(p, s, i))
    && (forall i: nat :: i < j && Doomed(p, s, i) ==> p.gates[i].id in met.done)
  }

  /** Against what was met before it, a gate has a failed dependency exactly when it is doomed. */
  lemma FailedWhenMet(p: Plan, s: State, met: State, j: nat)
    requires j < |p.gates| && DoneUpTo(p, s, met, j) && s.pending !! s.done.Keys && p.gates[j].id in s.pending
    ensures FailedDependency(met, p.gates[j]) <==> Doomed(p, s, j)
  {
    var g := p.gates[j];
    if FailedDependency(met, g) {
      var d :| d in g.dependsOn && d in met.done && !Success(met.done[d]);
      if d !in s.done {
        var i: nat :| i < j && p.gates[i].id == d && Doomed(p, s, i);
      }
    }
    if Doomed(p, s, j) && !FailedDependency(s, g) {
      var i: nat :| i < j && p.gates[i].id in g.dependsOn && Doomed(p, s, i);
      assert p.gates[i].id in s.pending;
      assert p.gates[i].id in met.done && met.done[p.gates[i].id] == BlockedBy(p.gates[i].id, DependencyFailed);
    }
  }

  lemma DoneSame(p: Plan, s: State, met: State, met': State, j: nat)
    requires j < |p.gates| && DoneUpTo(p, s, met, j) && !Doomed(p, s, j)
    requires met'.done == met.done && !met'.aborted
    ensures DoneUpTo(p, s, met', j + 1)
  {
    hide Doomed;
  }

  lemma DoneMore(p: Plan, s: State, met: State, met': State, j: nat)
    requires j < |p.gates| && DoneUpTo(p, s, met, j) && Doomed(p, s, j) && p.gates[j].id !in s.done
    requires met'.done == met.done[p.gates[j].id := BlockedBy(p.gates[j].id, DependencyFailed)] && !met'.aborted
    ensures DoneUpTo(p, s, met', j + 1)
  {
    hide Doomed;
  }

  lemma DoneStep(p: Plan, s: State, met: State, j: nat)
    requires j < |p.gates| && DoneUpTo(p, s, met, j) && s.pending !! s.done.Keys
    requires p.gates[j].id in met.pending <==> p.gates[j].id in s.pending
    ensures DoneUpTo(p, s, Meet(p, met, p.gates[j]), j + 1)
  {
    var g, met' := p.gates[j], Meet(p, met, p.gates[j]);
    if g.id in s.pending {
      FailedWhenMet(p, s, met, j);
    }
    assert !met.aborted && !met'.aborted;
    assert Doomed(p, s, j) ==> g.id in s.pending;
    hide DoneUpTo;
    hide Doomed;
    if Doomed(p, s, j) {
      DoneMore(p, s, met, met', j);
    } else {
      DoneSame(p, s, met, met', j);
    }
  }

  lemma {:induction false} MetBlocksDoomed(p: Plan, s: State, j: nat)
    requires Unique(p.gates) && j <= |p.gates| && s.pending !! s.done.Keys && !s.aborted
    ensures DoneUpTo(p, s, Met(p, s, 0, j), j)
    decreases j
  {
    if j > 0 {
      MetBlocksDoomed(p, s, j - 1);
      MetSnoc(p, s, 0, j - 1);
      NotMetYet(p, s, 0, j - 1, p.gates[j - 1].id);
      DoneStep(p, s, Met(p, s, 0, j - 1), j - 1);
    }
  }

  lemma PassBlocksDoomed(p: Plan, s: State)
    requires Unique(p.gates) && s.pending !! s.done.Keys && !s.aborted
    ensures DoneUpTo(p, s, Pass(p, s, 0), |p.gates|)
  {
    hide DoneUpTo;
    MetBlocksDoomed(p, s, |p.gates|);
    PassSplits(p, s, 0, |p.gates|);
    assert Pass(p, Met(p, s, 0, |p.gates|), |p.gates|) == Met(p, s, 0, |p.gates|);
  }

  /** Of the gates pending before a pass without abort, exactly the doomed have a receipt after it. */
  lemma BlocksExactlyDoomed(p: Plan, s: State, k: nat)
    requires Inv(p, s) && !s.aborted && k < |p.gates| && p.gates[k].id in s.pending
    ensures Doomed(p, s, k) <==> p.gates[k].id in Pass(p, s, 0).done
    ensures Doomed(p, s, k) ==>
              Pass(p, s, 0).done[p.gates[k].id] == Receipt(p.gates[k].id, Blocked(DependencyFailed), None)
  {
    PlacedApart(p, s);
    hide *;
    PassBlocksDoomed(p, s);
    DoomedIsDone(p, s, Pass(p, s, 0), k);
  }

  lemma PlacedApart(p: Plan, s: State)
    requires Inv(p, s)
    ensures Unique(p.gates) && s.pending !! s.done.Keys
  {
  }

  lemma DoomedIsDone(p: Plan, s: State, s': State, k: nat)
    requires Unique(p.gates) && s.pending !! s.done.Keys && k < |p.gates| && p.gates[k].id in s.pending
    requires DoneUpTo(p, s, s', |p.gates|)
    ensures Doomed(p, s, k) <==> p.gates[k].id in s'.done
    ensures Doomed(p, s, k) ==> s'.done[p.gates[k].id] == Receipt(p.gates[k].id, Blocked(DependencyFailed), None)
  {
    hide Doomed;
    if p.gates[k].id in s'.done {
      var i: nat :| i < |p.gates| && p.gates[i].id == p.gates[k].id && Doomed(p, s, i);
      assert i == k;
    }
  }

  // ------------------------------------------------------------- exactly when a state stalls

  /** Nothing runs, there is no abort, and of the gates the pass will not block each lacks a dependency. */
  predicate Stuck(p: Plan, s: State) {
    && s.running == {} && !s.aborted
    && (forall k: nat :: k < |p.gates| && Left(p, s, k) ==> Lacks(s, p.gates[k]))
    && exists k: nat :: k < |p.gates| && Left(p, s, k)
  }

  lemma LackStays(p: Plan, s: State, met: State, j: nat)
    requires j < |p.gates| && DoneUpTo(p, s, met, j) && s.pending !! s.done.Keys
    requires Left(p, s, j) && Lacks(s, p.gates[j])
    ensures !FailedDependency(met, p.gates[j]) && Lacks(met, p.gates[j])
  {
    FailedWhenMet(p, s, met, j);
    var d :| d in p.gates[j].dependsOn && d !in s.done;
    NewIsFailed(p, s, met, j, d);
  }

  lemma NewIsFailed(p: Plan, s: State, met: State, j: nat, d: string)
    requires j <= |p.gates| && DoneUpTo(p, s, met, j)
    ensures d in met.done && d !in s.done ==> !Success(met.done[d])
  {
  }

  lemma {:induction false} NothingStarts(p: Plan, s: State, j: nat)
    requires Unique(p.gates) && s.pending !! s.done.Keys && Stuck(p, s) && j <= |p.gates|
    ensures Met(p, s, 0, j).running == {}
    decreases j
  {
    if j > 0 {
      var met, g := Met(p, s, 0, j - 1), p.gates[j - 1];
      NothingStarts(p, s, j - 1);
      MetSnoc(p, s, 0, j - 1);
      MetBlocksDoomed(p, s, j - 1);
      NotMetYet(p, s, 0, j - 1, g.id);
      if g.id in s.pending {
        if Doomed(p, s, j - 1) {
          FailedWhenMet(p, s, met, j - 1);
        } else {
          assert Left(p, s, j - 1);
          LackStays(p, s, met, j - 1);
        }
      }
    }
  }

  lemma InvParts(p: Plan, s: State)
    requires Inv(p, s)
    ensures GoodPlan(p) && Placed(p, s) && Exclusive(p, s) && Recorded(p, s)
  {
  }

  /** Without abort a gate is pending, running or recorded. */
  lemma Somewhere(p: Plan, s: State, id: string)
    requires Inv(p, s) && !s.aborted && id in ById(p.gates)
    ensures id in s.pending || id in s.running || id in s.done
  {
  }

  lemma PendingIsPlanned(p: Plan, s: State, id: string)
    requires Inv(p, s) && id in s.pending
    ensures id in ById(p.gates) && id !in s.running && id !in s.done
  {
  }

  lemma StuckStalls(p: Plan, s: State)
    requires Inv(p, s) && Stuck(p, s)
    ensures Stalls(p, s)
  {
    hide Inv;
    InvParts(p, s);
    NothingStarts(p, s, |p.gates|);
    PassSplits(p, s, 0, |p.gates|);
    var s' := Pass(p, s, 0);
    assert s'.running == {};
    var k: nat :| k < |p.gates| && Left(p, s, k);
    BlocksExactlyDoomed(p, s, k);
    PassKeeps(p, s, 0);
    PassShape(p, s, 0);
    GateAt(p, k);
    Somewhere(p, s', p.gates[k].id);
  }

  lemma IdleIsFree(p: Plan, s: State)
    requires Exclusive(p, s) && s.running == {}
    ensures !s.writer && s.held == {}
  {
  }

  /** The rest of a pass does not touch a gate it does not meet. */
  lemma {:induction false} Untouched(p: Plan, s: State, i: nat, id: string)
    requires i <= |p.gates| && forall k :: i <= k < |p.gates| ==> p.gates[k].id != id
    ensures var s' := Pass(p, s, i);
            && (id in s'.pending <==> id in s.pending)
            && (id in s'.done <==> id in s.done)
    decreases |p.gates| - i
  {
    if i < |p.gates| {
      Untouched(p, Meet(p, s, p.gates[i]), i + 1, id);
    }
  }

  lemma LacksWhenLeft(p: Plan, s: State, g: Gate)
    requires s.running == {} && !s.writer && s.held == {} && p.concurrency > 0
    requires g.id in Meet(p, s, g).pending
    ensures !s.aborted && Lacks(s, g)
  {
  }

  lemma {:induction false} MetShape(p: Plan, s: State, i: nat, j: nat)
    requires i <= j <= |p.gates|
    ensures s.done.Keys <= Met(p, s, i, j).done.Keys && Met(p, s, i, j).aborted == s.aborted
    decreases j - i
  {
    if i < j {
      MetShape(p, Meet(p, s, p.gates[i]), i + 1, j);
    }
  }

  /** A gate the pass leaves pending, with nothing running, lacked a dependency when it was met. */
  lemma LeftForLack(p: Plan, s: State, j: nat)
    requires Inv(p, s) && j < |p.gates| && Pass(p, s, 0).running == {} && p.gates[j].id in Pass(p, s, 0).pending
    ensures !s.aborted && Lacks(Met(p, s, 0, j), p.gates[j]) && Lacks(s, p.gates[j])
  {
    var met, g := Met(p, s, 0, j), p.gates[j];
    PassSplits(p, s, 0, j);
    MetKeeps(p, s, 0, j);
    PassShape(p, met, j);
    IdleIsFree(p, met);
    Untouched(p, Meet(p, met, g), j + 1, g.id);
    LacksWhenLeft(p, met, g);
    MetShape(p, s, 0, j);
  }

  lemma LeftStaysPending(p: Plan, s: State, k: nat)
    requires Inv(p, s) && !s.aborted && k < |p.gates| && Left(p, s, k) && Pass(p, s, 0).running == {}
    ensures p.gates[k].id in Pass(p, s, 0).pending
  {
    hide Inv;
    InvParts(p, s);
    BlocksExactlyDoomed(p, s, k);
    PassKeeps(p, s, 0);
    PassShape(p, s, 0);
    GateAt(p, k);
    Somewhere(p, Pass(p, s, 0), p.gates[k].id);
  }

  lemma StallIsStuck(p: Plan, s: State)
    requires Inv(p, s) && Stalls(p, s)
    ensures Stuck(p, s)
  {
    hide Inv;
    hide Pass;
    hide Lacks;
    var s' := Pass(p, s, 0);
    PassKeeps(p, s, 0);
    PassShape(p, s, 0);
    InvParts(p, s);
    var id :| id in s'.pending;
    PendingIsPlanned(p, s', id);
    var k := IndexOf(p.gates, id);
    LeftForLack(p, s, k);
    BlocksExactlyDoomed(p, s, k);
    assert Left(p, s, k);
    forall i: nat | i < |p.gates| && Left(p, s, i) ensures Lacks(s, p.gates[i]) {
      LeftStaysPending(p, s, i);
      LeftForLack(p, s, i);
    }
  }

  /**
   Exactly which states stall, read off the state before the pass: nothing runs, there is no abort, some
   pending gate is not doomed, and each such gate has a dependency without a receipt.
   */
  lemma StallsExactlyWhen(p: Plan, s: State)
    requires Inv(p, s)
    ensures Stalls(p, s) <==>
              && s.running == {} && !s.aborted
              && (forall k: nat :: k < |p.gates| && Left(p, s, k) ==> Lacks(s, p.gates[k]))
              && exists k: nat :: k < |p.gates| && Left(p, s, k)
  {
    if Stuck(p, s) {
      StuckStalls(p, s);
    }
    if Stalls(p, s) {
      StallIsStuck(p, s);
    }
  }

  // ------------------------------------------------------------- how a state comes to stall

  lemma {:induction false} Lowest(rank: map<string, nat>, ids: set<string>) returns (low: string)
    requires ids != {} && ids <= rank.Keys
    ensures low in ids && forall x :: x in ids ==> rank[low] <= rank[x]
    decreases ids
  {
    low :| low in ids;
    if ids != {low} {
      var other := Lowest(rank, ids - {low});
      if rank[other] < rank[low] {
        low := other;
      }
    }
  }

  lemma LowestOf(p: Plan, rank: map<string, nat>, s: State) returns (j: nat)
    requires Unique(p.gates) && Ranked(GateDeps(p.gates), rank)
    requires exists k: nat :: k < |p.gates| && Left(p, s, k)
    ensures j < |p.gates| && Left(p, s, j) && p.gates[j].id in rank
    ensures forall i: nat :: i < |p.gates| && Left(p, s, i) ==>
              p.gates[i].id in rank && rank[p.gates[j].id] <= rank[p.gates[i].id]
  {
    hide Left;
    hide Ranked;
    var left := set i: nat | i < |p.gates| && Left(p, s, i) :: p.gates[i].id;
    forall i: nat | i < |p.gates| ensures p.gates[i].id in rank {
      IdIsRanked(p, rank, i);
    }
    var i0: nat :| i0 < |p.gates| && Left(p, s, i0);
    assert p.gates[i0].id in left;
    var low := Lowest(rank, left);
    j :| j < |p.gates| && Left(p, s, j) && p.gates[j].id == low;
  }

  lemma IdIsRanked(p: Plan, rank: map<string, nat>, i: nat)
    requires Unique(p.gates) && Ranked(GateDeps(p.gates), rank) && i < |p.gates|
    ensures p.gates[i].id in rank
  {
    GateAt(p, i);
  }

  /** In a stuck state some gate is left over only because of a doomed dependency listed after it. */
  lemma LowestLeft(p: Plan, rank: map<string, nat>, s: State) returns (j: nat, k: nat)
    requires Inv(p, s) && Ranked(GateDeps(p.gates), rank) && Stuck(p, s)
    ensures j < k < |p.gates| && Left(p, s, j) && p.gates[k].id in p.gates[j].dependsOn && Doomed(p, s, k)
    ensures p.gates[j].id in rank
    ensures forall i: nat :: i < |p.gates| && Left(p, s, i) ==>
              p.gates[i].id in rank && rank[p.gates[j].id] <= rank[p.gates[i].id]
  {
    hide *;
    StuckMeans(p, s);
    j := LowestOf(p, rank, s);
    var d := Lacking(p, s, j);
    DependencyRanks(p.gates, rank, j, d);
    k := IndexOf(p.gates, d);
    Somewhere(p, s, d);
    LeftOrDoomed(p, s, j, k);
  }

  lemma StuckMeans(p: Plan, s: State)
    requires Inv(p, s) && Stuck(p, s)
    ensures Unique(p.gates) && s.running == {} && !s.aborted
    ensures exists k: nat :: k < |p.gates| && Left(p, s, k)
  {
  }

  lemma Lacking(p: Plan, s: State, j: nat) returns (d: string)
    requires Stuck(p, s) && j < |p.gates| && Left(p, s, j)
    ensures d in p.gates[j].dependsOn && d !in s.done
  {
    d :| d in p.gates[j].dependsOn && d !in s.done;
  }

  /** A pending gate is left or doomed, and a doomed dependency listed earlier would doom the gate. */
  lemma LeftOrDoomed(p: Plan, s: State, j: nat, k: nat)
    requires j < |p.gates| && k < |p.gates| && Left(p, s, j) && p.gates[k].id in p.gates[j].dependsOn
    ensures p.gates[k].id in s.pending ==> Left(p, s, k) || Doomed(p, s, k)
    ensures Doomed(p, s, k) ==> j < k
  {
  }

  /**
   How a run stalls: only without abort, and only when the pass itself blocks a gate after it has passed
   over a gate listed earlier that depends on it.
   */
  lemma StallComesFromLateBlock(p: Plan, rank: map<string, nat>, s: State) returns (j: nat, k: nat)
    requires Inv(p, s) && Ranked(GateDeps(p.gates), rank) && Stalls(p, s)
    ensures !s.aborted && j < k < |p.gates| && p.gates[k].id in p.gates[j].dependsOn
    ensures p.gates[j].id in Pass(p, s, 0).pending
    ensures p.gates[k].id in Pass(p, s, 0).done && p.gates[k].id !in s.done
    ensures Pass(p, s, 0).done[p.gates[k].id] == BlockedBy(p.gates[k].id, DependencyFailed)
  {
    hide Inv;
    StallIsStuck(p, s);
    j, k := LowestLeft(p, rank, s);
    LeftStaysPending(p, s, j);
    BlocksExactlyDoomed(p, s, k);
    PendingIsPlanned(p, s, p.gates[k].id);
  }

  // ------------------------------------------------------------- lists that never stall

  /** A failure of `e` reaches the `k`-th gate in one pass: along dependencies listed in order. */
  predicate Hears(gates: seq<Gate>, k: nat, e: string)
    requires k < |gates|
    decreases k
  {
    || e in gates[k].dependsOn
    || exists j: nat :: j < k && gates[j].id in gates[k].dependsOn && Hears(gates, j, e)
  }

  /**
   Every gate hears of the dependencies of its dependencies, those listed after it included. Listing each
   gate after its dependencies does it, and so does repeating in a gate the dependencies of any dependency
   that is listed later.
   */
  predicate AllHear(gates: seq<Gate>) {
    forall i: nat, j: nat, e ::
      i < j < |gates| && gates[j].id in gates[i].dependsOn && e in gates[j].dependsOn ==> Hears(gates, i, e)
  }

  lemma {:induction false} HearsFurther(gates: seq<Gate>, rank: map<string, nat>, k: nat, m: nat, e: string)
    requires Unique(gates) && AllHear(gates) && Ranked(GateDeps(gates), rank)
    requires k < |gates| && m < |gates| && Hears(gates, k, gates[m].id) && Hears(gates, m, e)
    requires gates[m].id in rank
    ensures Hears(gates, k, e)
    decreases rank[gates[m].id], k
  {
    if gates[m].id in gates[k].dependsOn {
      HearsDependency(gates, rank, k, m, e);
    } else {
      var j: nat :| j < k && gates[j].id in gates[k].dependsOn && Hears(gates, j, gates[m].id);
      HearsFurther(gates, rank, j, m, e);
    }
  }

  lemma {:induction false} HearsDependency(gates: seq<Gate>, rank: map<string, nat>, k: nat, m: nat, e: string)
    requires Unique(gates) && AllHear(gates) && Ranked(GateDeps(gates), rank)
    requires k < |gates| && m < |gates| && gates[m].id in gates[k].dependsOn && Hears(gates, m, e)
    requires gates[m].id in rank
    ensures Hears(gates, k, e)
    decreases rank[gates[m].id], k, 0
  {
    if m == k {
      SelfIsNoDependency(gates, rank, k);
    } else if k < m && e !in gates[m].dependsOn {
      var j: nat :| j < m && gates[j].id in gates[m].dependsOn && Hears(gates, j, e);
      assert Hears(gates, k, gates[j].id);
      DependencyRanks(gates, rank, m, gates[j].id);
      HearsFurther(gates, rank, k, j, e);
    }
  }

  lemma DependencyRanks(gates: seq<Gate>, rank: map<string, nat>, k: nat, d: string)
    requires Unique(gates) && Ranked(GateDeps(gates), rank) && k < |gates| && d in gates[k].dependsOn
    ensures d in ById(gates) && d in rank && gates[k].id in rank && rank[d] < rank[gates[k].id]
  {
    UniqueById(gates);
    assert gates[k] in gates;
    assert d in GateDeps(gates)[gates[k].id];
  }

  lemma SelfIsNoDependency(gates: seq<Gate>, rank: map<string, nat>, k: nat)
    requires Unique(gates) && Ranked(GateDeps(gates), rank) && k < |gates|
    ensures gates[k].id !in gates[k].dependsOn
  {
    if gates[k].id in gates[k].dependsOn {
      DependencyRanks(gates, rank, k, gates[k].id);
    }
  }

  predicate EndedBadly(s: State, id: string) {
    id in s.done && !Success(s.done[id])
  }

  /** A doomed gate hears of a failure. */
  lemma {:induction false} DoomedHears(p: Plan, s: State, k: nat) returns (e: string)
    requires k < |p.gates| && Doomed(p, s, k)
    ensures EndedBadly(s, e) && Hears(p.gates, k, e)
    decreases k
  {
    if FailedDependency(s, p.gates[k]) {
      e :| e in p.gates[k].dependsOn && EndedBadly(s, e);
    } else {
      var j: nat :| j < k && p.gates[j].id in p.gates[k].dependsOn && Doomed(p, s, j);
      e := DoomedHears(p, s, j);
    }
  }

  lemma SucceededAfterDependencies(p: Plan, s: State, k: nat)
    requires Inv(p, s) && k < |p.gates| && p.gates[k].id in s.done && Success(s.done[p.gates[k].id])
    ensures AllSucceeded(s, p.gates[k].dependsOn)
  {
    GateAt(p, k);
    assert Explained(p, s, p.gates[k].id);
  }

  /** A gate that ended in success hears of no failure. */
  lemma {:induction false} SucceededHearsNone(p: Plan, s: State, k: nat, e: string)
    requires Inv(p, s) && k < |p.gates| && p.gates[k].id in s.done && Hears(p.gates, k, e) && EndedBadly(s, e)
    ensures !Success(s.done[p.gates[k].id])
    decreases k
  {
    hide Inv;
    if Success(s.done[p.gates[k].id]) {
      SucceededAfterDependencies(p, s, k);
      if e !in p.gates[k].dependsOn {
        var j: nat :| j < k && p.gates[j].id in p.gates[k].dependsOn && Hears(p.gates, j, e);
        SucceededHearsNone(p, s, j, e);
      }
    }
  }

  /** With nothing running, a pending gate that hears of a failure is doomed. */
  lemma {:induction false} HearingDooms(p: Plan, s: State, k: nat, e: string)
    requires Inv(p, s) && !s.aborted && s.running == {} && k < |p.gates| && p.gates[k].id in s.pending
    requires Hears(p.gates, k, e) && EndedBadly(s, e)
    ensures Doomed(p, s, k)
    decreases k
  {
    hide Inv;
    if e !in p.gates[k].dependsOn {
      var j: nat :| j < k && p.gates[j].id in p.gates[k].dependsOn && Hears(p.gates, j, e);
      InvParts(p, s);
      GateAt(p, j);
      Somewhere(p, s, p.gates[j].id);
      if p.gates[j].id in s.pending {
        HearingDooms(p, s, j, e);
      } else {
        SucceededHearsNone(p, s, j, e);
      }
    }
  }

  lemma FailFastMeans(p: Plan, s: State, e: string)
    requires Inv(p, s) && p.failFast && !s.aborted
    ensures !EndedBadly(s, e)
  {
  }

  /** No run stalls when every gate hears of the dependencies of its dependencies, or with fail-fast. */
  lemma NeverStalls(p: Plan, rank: map<string, nat>, s: State)
    requires Inv(p, s) && Ranked(GateDeps(p.gates), rank)
    requires AllHear(p.gates) || p.failFast
    ensures !Stalls(p, s)
  {
    hide Inv;
    hide Stalls;
    if Stalls(p, s) {
      InvParts(p, s);
      StallIsStuck(p, s);
      var j, k := LowestLeft(p, rank, s);
      var e := DoomedHears(p, s, k);
      if p.failFast {
        FailFastMeans(p, s, e);
      } else {
        DependencyRanks(p.gates, rank, j, p.gates[k].id);
        HearsDependency(p.gates, rank, j, k, e);
        HearingDooms(p, s, j, e);
      }
    }
  }
}
