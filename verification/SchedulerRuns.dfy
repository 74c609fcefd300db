/** Whole runs of the scheduler: exclusion and confluence. */
module SchedulerRuns {
  import opened Options
  import opened Graphs
  import opened GateGraph
  import opened Scheduler

  /** A pass, one of the two turns of a completion, or an abort from outside. */
  datatype Event = Sweep | Settles(id: string) | Finishes(id: string) | Abort

  predicate Enabled(p: Plan, s: State, e: Event) {
    match e
    case Sweep => true
    case Settles(id) => id in s.running && id !in s.settled && id in p.outcomes
    case Finishes(id) => id in s.settled && id in ById(p.gates)
    case Abort => true
  }

  function Next(p: Plan, s: State, e: Event): State
    requires Enabled(p, s, e)
  {
    match e
    case Sweep => Pass(p, s, 0)
    case Settles(id) => Settle(p, s, id)
    case Finishes(id) => Finish(p, s, id)
    case Abort => s.(aborted := true)
  }

  predicate Run(p: Plan, s: State, es: seq<Event>)
    decreases |es|
  {
    es == [] || (Enabled(p, s, es[0]) && Run(p, Next(p, s, es[0]), es[1..]))
  }

  function After(p: Plan, s: State, es: seq<Event>): State
    requires Run(p, s, es)
    decreases |es|
  {
    if es == [] then s else After(p, Next(p, s, es[0]), es[1..])
  }

  lemma NextKeeps(p: Plan, s: State, e: Event)
    requires Inv(p, s) && Enabled(p, s, e)
    ensures Inv(p, Next(p, s, e))
  {
    match e
    case Sweep => PassKeeps(p, s, 0);
    case Settles(id) => SettleKeeps(p, s, id);
    case Finishes(id) => FinishKeeps(p, s, id);
    case Abort => AbortKeeps(p, s);
  }

  lemma AbortKeeps(p: Plan, s: State)
    requires Inv(p, s)
    ensures Inv(p, s.(aborted := true))
  {
    SameDoneFrame(p, s, s.(aborted := true));
  }

  lemma {:induction false} RunKeeps(p: Plan, s: State, es: seq<Event>)
    requires Inv(p, s) && Run(p, s, es)
    ensures Inv(p, After(p, s, es))
    decreases |es|
  {
    if es != [] {
      NextKeeps(p, s, es[0]);
      RunKeeps(p, Next(p, s, es[0]), es[1..]);
    }
  }

  lemma ExclusiveMeans(p: Plan, s: State, a: string, b: string)
    requires Exclusive(p, s) && a in s.running
    ensures a in ById(p.gates) && |s.running| <= p.concurrency
    ensures !ById(p.gates)[a].readOnly ==> s.running == {a} && s.writer
    ensures b in s.running && b != a ==>
              b in ById(p.gates) && forall r :: r in ById(p.gates)[a].resources ==> r !in ById(p.gates)[b].resources
  {
    var m := ById(p.gates);
    if b in s.running && b != a {
      forall r | r in m[a].resources ensures r !in m[b].resources {
        assert r in ResourcesOf(m[a]) && r !in ResourcesOf(m[b]);
      }
    }
    if !m[a].readOnly {
      assert forall x :: x in s.running ==> x == a;
    }
  }

  lemma RecordedMeans(p: Plan, s: State, a: string)
    requires Recorded(p, s)
    ensures a in s.running ==> a in ById(p.gates) && AllSucceeded(s, ById(p.gates)[a].dependsOn)
    ensures a in s.done && !s.done[a].status.Blocked? ==>
              a in ById(p.gates) && AllSucceeded(s, ById(p.gates)[a].dependsOn)
  {
    if a in s.done {
      assert Explained(p, s, a);
    }
  }

  /**
   In every state of every run: the bound on running gates holds, a gate that is not read-only runs alone,
   no two running gates share a resource, what is held is what they hold, and every gate that runs or has
   returned a receipt of its own started after all its dependencies ended in success.
   */
  lemma RunsAreExclusive(p: Plan, aborted: bool, es: seq<Event>, s: State, a: string, b: string)
    requires GoodPlan(p) && Run(p, Initial(p, aborted), es) && s == After(p, Initial(p, aborted), es)
    ensures a in s.running ==> a in ById(p.gates) && |s.running| <= p.concurrency
    ensures a in s.running ==> AllSucceeded(s, ById(p.gates)[a].dependsOn)
    ensures a in s.running && !ById(p.gates)[a].readOnly ==> s.running == {a} && s.writer
    ensures a in s.running && b in s.running && b != a ==>
              b in ById(p.gates) && forall r :: r in ById(p.gates)[a].resources ==> r !in ById(p.gates)[b].resources
    ensures s.running <= ById(p.gates).Keys
    ensures forall r :: r in s.held <==> exists id :: id in s.running && r in ById(p.gates)[id].resources
    ensures a in s.done && !s.done[a].status.Blocked? ==>
              a in ById(p.gates) && AllSucceeded(s, ById(p.gates)[a].dependsOn)
  {
    InitialInv(p, aborted);
    RunKeeps(p, Initial(p, aborted), es);
    if a in s.running {
      ExclusiveMeans(p, s, a, b);
    }
    RecordedMeans(p, s, a);
  }

  lemma RunningIsPlanned(p: Plan, s: State, id: string)
    requires Inv(p, s) && id in s.running
    ensures id in ById(p.gates) && id in p.outcomes
  {
  }

  lemma FewerElements(a: set<string>, b: set<string>)
    requires a < b
    ensures |a| < |b|
  {
    assert b == a + (b - a);
  }

  // ------------------------------------------------------------- confluence

  predicate AllReturn(p: Plan) {
    forall id :: id in p.outcomes ==> p.outcomes[id].Returned?
  }

  /** The gate's own end aborts the run: an error, or with fail-fast a receipt that is no success. */
  predicate EndAborts(p: Plan, id: string)
    requires id in p.outcomes
  {
    match p.outcomes[id]
    case Thrown(_) => true
    case Returned(receipt) =>
      p.failFast && receipt.status !in {Passed, Cached, PassedAfterRetry}
  }

  /** The event is an abort from outside, or the end of a gate that aborts the run. */
  predicate EventAborts(p: Plan, e: Event) {
    e.Abort? || (e.Settles? && e.id in p.outcomes && EndAborts(p, e.id))
  }

  lemma StepAborts(p: Plan, s: State, e: Event)
    requires Enabled(p, s, e)
    ensures Next(p, s, e).aborted <==> s.aborted || EventAborts(p, e)
  {
    PassShape(p, s, 0);
  }

  /**
   Exactly when a run is aborted, with fail-fast and without: it was from the start or from outside, or some gate
   has ended in an error, or with fail-fast in a receipt that is no success.
   */
  lemma {:induction false} AbortsExactly(p: Plan, s: State, es: seq<Event>)
    requires Run(p, s, es)
    ensures After(p, s, es).aborted <==> s.aborted || exists i :: 0 <= i < |es| && EventAborts(p, es[i])
    decreases |es|
  {
    if es != [] {
      StepAborts(p, s, es[0]);
      AbortsExactly(p, Next(p, s, es[0]), es[1..]);
      if i :| 0 <= i < |es[1..]| && EventAborts(p, es[1..][i]) {
        assert EventAborts(p, es[i + 1]);
      }
      if i :| 0 < i < |es| && EventAborts(p, es[i]) {
        assert EventAborts(p, es[1..][i - 1]);
      }
    }
  }

  lemma SweepKeepsFatal(p: Plan, s: State, e: Event)
    requires Enabled(p, s, e)
    ensures Next(p, s, e).fatal ==
            if s.fatal.None? && e.Settles? && p.outcomes[e.id].Thrown? then Some(p.outcomes[e.id].error) else s.fatal
  {
    PassShape(p, s, 0);
  }

  /** The error of a run is the one of the first gate that ended in an error, and none without such a gate. */
  lemma {:induction false} FirstErrorStays(p: Plan, s: State, es: seq<Event>)
    requires Run(p, s, es) && s.fatal.None?
    ensures match After(p, s, es).fatal
            case None => forall i :: 0 <= i < |es| ==> !EndsInError(p, es[i])
            case Some(error) =>
              exists i :: 0 <= i < |es| && EndsInError(p, es[i]) && p.outcomes[es[i].id].error == error
                          && forall j :: 0 <= j < i ==> !EndsInError(p, es[j])
    decreases |es|
  {
    if es != [] {
      var s' := Next(p, s, es[0]);
      SweepKeepsFatal(p, s, es[0]);
      if s'.fatal.Some? {
        FatalStays(p, s', es[1..]);
      } else {
        FirstErrorStays(p, s', es[1..]);
        assert forall i :: 0 < i < |es| ==> es[i] == es[1..][i - 1];
        if After(p, s, es).fatal.Some? {
          var i :| 0 <= i < |es[1..]| && EndsInError(p, es[1..][i])
                   && p.outcomes[es[1..][i].id].error == After(p, s, es).fatal.value
                   && forall j :: 0 <= j < i ==> !EndsInError(p, es[1..][j]);
          assert EndsInError(p, es[i + 1]);
        }
      }
    }
  }

  predicate EndsInError(p: Plan, e: Event) {
    e.Settles? && e.id in p.outcomes && p.outcomes[e.id].Thrown?
  }

  lemma {:induction false} FatalStays(p: Plan, s: State, es: seq<Event>)
    requires Run(p, s, es) && s.fatal.Some?
    ensures After(p, s, es).fatal == s.fatal
    decreases |es|
  {
    if es != [] {
      SweepKeepsFatal(p, s, es[0]);
      FatalStays(p, Next(p, s, es[0]), es[1..]);
    }
  }

  /** No gate of the plan can abort its run: receipts only, and with fail-fast all of them successes. */
  predicate NoEndAborts(p: Plan) {
    && AllReturn(p)
    && (p.failFast ==> forall id :: id in p.outcomes && id in ById(p.gates) ==> Success(p.outcomes[id].receipt))
  }

  /** The simple recursion: run a gate when every dependency succeeded, block it otherwise. */
  function Verdict(p: Plan, rank: map<string, nat>, id: string): Receipt
    requires GoodPlan(p) && AllReturn(p) && Ranked(GateDeps(p.gates), rank) && id in ById(p.gates)
    decreases rank[id]
  {
    var deps := GateDeps(p.gates)[id];
    if forall d :: d in deps ==> Success(Verdict(p, rank, d)) then p.outcomes[id].receipt
    else BlockedBy(id, DependencyFailed)
  }

  /** Until an abort, every receipt is the one the recursion gives, whatever the order of completions. */
  lemma {:induction false} DoneIsVerdict(p: Plan, rank: map<string, nat>, s: State, id: string)
    requires Inv(p, s) && !s.aborted && AllReturn(p) && Ranked(GateDeps(p.gates), rank) && id in s.done
    ensures s.done[id] == Verdict(p, rank, id)
    decreases rank[id]
  {
    var deps := GateDeps(p.gates)[id];
    forall d | d in deps && d in s.done ensures s.done[d] == Verdict(p, rank, d) {
      DoneIsVerdict(p, rank, s, d);
    }
    assert Explained(p, s, id);
  }

  predicate Finished(s: State) {
    s.pending == {} && s.running == {}
  }

  /** The receipts as the scheduler returns them, in list order. */
  function Receipts(p: Plan, s: State): (list: seq<Receipt>)
    requires forall i :: 0 <= i < |p.gates| ==> p.gates[i].id in s.done
    ensures |list| == |p.gates| && forall i :: 0 <= i < |list| ==> list[i] == s.done[p.gates[i].id]
  {
    seq(|p.gates|, i requires 0 <= i < |p.gates| => s.done[p.gates[i].id])
  }

  predicate NoAbort(es: seq<Event>) {
    forall i :: 0 <= i < |es| ==> !es[i].Abort?
  }

  lemma {:induction false} PassShape(p: Plan, s: State, i: nat)
    requires i <= |p.gates|
    ensures var s' := Pass(p, s, i);
            && s'.aborted == s.aborted && s'.fatal == s.fatal && s'.settled == s.settled
            && s'.pending <= s.pending && s.running <= s'.running
            && (forall x :: x in s.done && x !in s.pending ==> x in s'.done && s'.done[x] == s.done[x])
            && (forall x :: x in s'.done && x !in s.done ==> x in s.pending)
            && (forall x :: x in s'.done && x !in s.done ==>
                  s'.done[x] == BlockedBy(x, if s.aborted then ExecutionCancelled else DependencyFailed))
    decreases |p.gates| - i
  {
    if i < |p.gates| {
      PassShape(p, Meet(p, s, p.gates[i]), i + 1);
    }
  }

  lemma StaysCalm(p: Plan, s: State, e: Event)
    requires Inv(p, s) && Enabled(p, s, e) && !s.aborted && NoEndAborts(p) && !e.Abort?
    ensures !Next(p, s, e).aborted
  {
    StepAborts(p, s, e);
  }

  lemma {:induction false} NeverAborts(p: Plan, s: State, es: seq<Event>)
    requires Inv(p, s) && !s.aborted && NoEndAborts(p) && Run(p, s, es) && NoAbort(es)
    ensures !After(p, s, es).aborted
    decreases |es|
  {
    if es != [] {
      NextKeeps(p, s, es[0]);
      StaysCalm(p, s, es[0]);
      assert forall i :: 0 <= i < |es| - 1 ==> es[1..][i] == es[i + 1];
      NeverAborts(p, Next(p, s, es[0]), es[1..]);
    }
  }

  lemma FinishedIsDone(p: Plan, s: State)
    requires Placed(p, s) && AllReturn(p) && Finished(s) && Unique(p.gates)
    ensures s.done.Keys == ById(p.gates).Keys
    ensures forall i :: 0 <= i < |p.gates| ==> p.gates[i].id in s.done
  {
    UniqueById(p.gates);
    assert forall i :: 0 <= i < |p.gates| ==> p.gates[i] in p.gates;
    assert forall id :: id in ById(p.gates) ==> id in s.done;
  }

  /**
   Without an outside abort, every finished run returns the same list, the verdicts in list order: always without
   fail-fast, and with it when every gate would succeed.
   */
  lemma Confluence(p: Plan, rank: map<string, nat>, es: seq<Event>, s: State)
    requires GoodPlan(p) && NoEndAborts(p) && Ranked(GateDeps(p.gates), rank)
    requires Run(p, Initial(p, false), es) && NoAbort(es) && s == After(p, Initial(p, false), es) && Finished(s)
    ensures s.done.Keys == ById(p.gates).Keys
    ensures forall i :: 0 <= i < |p.gates| ==> p.gates[i].id in s.done
    ensures forall i :: 0 <= i < |p.gates| ==> Receipts(p, s)[i] == Verdict(p, rank, p.gates[i].id)
  {
    InitialInv(p, false);
    RunKeeps(p, Initial(p, false), es);
    NeverAborts(p, Initial(p, false), es);
    FinishedIsDone(p, s);
    forall i | 0 <= i < |p.gates| ensures s.done[p.gates[i].id] == Verdict(p, rank, p.gates[i].id) {
      DoneIsVerdict(p, rank, s, p.gates[i].id);
    }
  }
}
