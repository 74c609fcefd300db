/**
 Which plans can stall. A gate is deaf when failures lie among its direct and indirect dependencies, and
 none of them is heard along dependencies listed in order. A run that stalls leaves a deaf gate pending; and
 when gates need not wait for each other, every plan with a deaf gate has an order of completions that stalls.
 */
module StallingPlans {
  import opened Options
  import opened Graphs
  import opened GateGraph
  import opened Scheduler
  import opened SchedulerRuns
  import opened SchedulerStalls

  /** What the verdicts are about: receipts only, no fail-fast, and a closed ranked graph. */
  predicate Steady(p: Plan, rank: map<string, nat>) {
    GoodPlan(p) && AllReturn(p) && !p.failFast && Ranked(GateDeps(p.gates), rank)
  }

  predicate Good(p: Plan, rank: map<string, nat>, id: string)
    requires Steady(p, rank) && id in ById(p.gates)
  {
    Success(Verdict(p, rank, id))
  }

  /** The gate runs, all its dependencies having succeeded, and fails. */
  predicate Failing(p: Plan, rank: map<string, nat>, id: string)
    requires Steady(p, rank)
  {
    && id in ById(p.gates) && !Good(p, rank, id)
    && forall d :: d in GateDeps(p.gates)[id] ==> Good(p, rank, d)
  }

  /** Failures lie behind the `k`-th gate, and it hears of none of them. */
  ghost predicate Deaf(p: Plan, rank: map<string, nat>, k: nat)
    requires Steady(p, rank) && k < |p.gates|
  {
    && (exists e :: Failing(p, rank, e) && Reaches(GateDeps(p.gates), p.gates[k].id, e))
    && forall e :: Failing(p, rank, e) && Reaches(GateDeps(p.gates), p.gates[k].id, e) ==> !Hears(p.gates, k, e)
  }

  /** Some order of completions, without abort, reaches a state in which the scheduler gives up. */
  ghost predicate CanStall(p: Plan) {
    exists es :: Run(p, Initial(p, false), es) && NoAbort(es) && Stalls(p, After(p, Initial(p, false), es))
  }

  // ------------------------------------------------------------- failures and verdicts

  lemma Direct(p: Plan, k: nat, d: string)
    requires GoodPlan(p) && k < |p.gates| && d in p.gates[k].dependsOn
    ensures d in ById(p.gates) && Edge(GateDeps(p.gates), p.gates[k].id, d)
    ensures Reaches(GateDeps(p.gates), p.gates[k].id, d)
  {
    GateAt(p, k);
    EdgeReaches(GateDeps(p.gates), p.gates[k].id, d);
  }

  lemma EdgeThenReaches(g: Graph, x: string, y: string, z: string)
    requires Edge(g, x, y) && Reaches(g, y, z)
    ensures Reaches(g, x, z)
  {
    var q :| Path(g, q) && q[0] == y && q[|q| - 1] == z;
    var r := [x] + q;
    forall i | 0 <= i < |r| - 1 ensures Edge(g, r[i], r[i + 1]) {
      if i > 0 {
        assert Edge(g, q[i - 1], q[i]);
      }
    }
    assert Path(g, r);
  }

  lemma BadDependency(p: Plan, rank: map<string, nat>, x: string, d: string)
    requires Steady(p, rank) && Edge(GateDeps(p.gates), x, d)
    ensures x in ById(p.gates) && d in ById(p.gates) && (!Good(p, rank, d) ==> !Good(p, rank, x))
  {
  }

  /** A failure behind a gate blocks it. */
  lemma {:induction false} BlockedAlong(p: Plan, rank: map<string, nat>, path: seq<string>)
    requires Steady(p, rank) && Path(GateDeps(p.gates), path)
    ensures path[0] in ById(p.gates) && path[1] in ById(p.gates) && path[|path| - 1] in ById(p.gates)
    ensures !Good(p, rank, path[|path| - 1]) ==> !Good(p, rank, path[1]) && !Good(p, rank, path[0])
    decreases |path|
  {
    BadDependency(p, rank, path[0], path[1]);
    if |path| > 2 {
      forall i | 0 <= i < |path[1..]| - 1 ensures Edge(GateDeps(p.gates), path[1..][i], path[1..][i + 1]) {
        assert Edge(GateDeps(p.gates), path[i + 1], path[i + 2]);
      }
      BlockedAlong(p, rank, path[1..]);
    }
  }

  lemma BlockedBehind(p: Plan, rank: map<string, nat>, x: string, e: string) returns (d: string)
    requires Steady(p, rank) && Failing(p, rank, e) && Reaches(GateDeps(p.gates), x, e)
    ensures x in ById(p.gates) && !Good(p, rank, x) && !Failing(p, rank, x)
    ensures d in GateDeps(p.gates)[x] && d in ById(p.gates) && !Good(p, rank, d)
  {
    var path :| Path(GateDeps(p.gates), path) && path[0] == x && path[|path| - 1] == e;
    BlockedAlong(p, rank, path);
    d := path[1];
    assert Edge(GateDeps(p.gates), path[0], path[1]);
  }

  lemma ReachedIsLower(p: Plan, rank: map<string, nat>, x: string, e: string)
    requires Steady(p, rank) && Reaches(GateDeps(p.gates), x, e)
    ensures x in rank && e in rank && rank[e] < rank[x]
  {
    var path :| Path(GateDeps(p.gates), path) && path[0] == x && path[|path| - 1] == e;
    PathDescends(GateDeps(p.gates), rank, path);
  }

  /** What is heard lies behind. */
  lemma {:induction false} HeardIsReached(p: Plan, k: nat, e: string)
    requires GoodPlan(p) && k < |p.gates| && Hears(p.gates, k, e)
    ensures e in ById(p.gates) && Reaches(GateDeps(p.gates), p.gates[k].id, e)
    decreases k
  {
    if e in p.gates[k].dependsOn {
      Direct(p, k, e);
    } else {
      var j: nat :| j < k && p.gates[j].id in p.gates[k].dependsOn && Hears(p.gates, j, e);
      HeardIsReached(p, j, e);
      Direct(p, k, p.gates[j].id);
      EdgeThenReaches(GateDeps(p.gates), p.gates[k].id, p.gates[j].id, e);
    }
  }

  /** The states the verdicts are about. */
  ghost predicate Calm(p: Plan, rank: map<string, nat>, s: State) {
    Steady(p, rank) && Inv(p, s) && !s.aborted
  }

  lemma RecordedIsVerdict(p: Plan, rank: map<string, nat>, s: State, id: string)
    requires Calm(p, rank, s) && id in s.done
    ensures id in ById(p.gates) && (Success(s.done[id]) <==> Good(p, rank, id))
  {
    DoneIsVerdict(p, rank, s, id);
  }

  /** Behind every recorded gate that did not succeed is a recorded failure, itself perhaps. */
  lemma {:induction false} RootOf(p: Plan, rank: map<string, nat>, s: State, x: string) returns (e: string)
    requires Calm(p, rank, s) && EndedBadly(s, x)
    ensures Failing(p, rank, e) && EndedBadly(s, e) && (e == x || Reaches(GateDeps(p.gates), x, e))
    decreases if x in rank then rank[x] else 0
  {
    RecordedIsVerdict(p, rank, s, x);
    if Failing(p, rank, x) {
      e := x;
    } else {
      var d := FailedBelow(p, rank, s, x);
      e := RootOf(p, rank, s, d);
      EdgeReaches(GateDeps(p.gates), x, d);
      if e != d {
        EdgeThenReaches(GateDeps(p.gates), x, d, e);
      }
    }
  }

  lemma FailedBelow(p: Plan, rank: map<string, nat>, s: State, x: string) returns (d: string)
    requires Calm(p, rank, s) && EndedBadly(s, x) && x in ById(p.gates) && !Failing(p, rank, x)
    ensures EndedBadly(s, d) && Edge(GateDeps(p.gates), x, d) && x in rank && d in rank && rank[d] < rank[x]
  {
    RecordedIsVerdict(p, rank, s, x);
    assert Explained(p, s, x);
    if AllSucceeded(s, ById(p.gates)[x].dependsOn) {
      forall d | d in GateDeps(p.gates)[x] ensures Good(p, rank, d) {
        RecordedIsVerdict(p, rank, s, d);
      }
      assert Failing(p, rank, x);
    } else {
      d :| d in ById(p.gates)[x].dependsOn && d in s.done && !Success(s.done[d]);
    }
  }

  /** A doomed gate has a dependency that does not succeed, so it is no failure itself. */
  lemma {:induction false} DoomedIsBlocked(p: Plan, rank: map<string, nat>, s: State, k: nat)
    requires Calm(p, rank, s) && k < |p.gates| && Doomed(p, s, k)
    ensures p.gates[k].id in ById(p.gates) && !Good(p, rank, p.gates[k].id) && !Failing(p, rank, p.gates[k].id)
    decreases k
  {
    var g := p.gates[k];
    var d: string;
    if FailedDependency(s, g) {
      d :| d in g.dependsOn && d in s.done && !Success(s.done[d]);
      RecordedIsVerdict(p, rank, s, d);
    } else {
      var j: nat :| j < k && p.gates[j].id in g.dependsOn && Doomed(p, s, j);
      DoomedIsBlocked(p, rank, s, j);
      d := p.gates[j].id;
    }
    GateAt(p, k);
    BadDependency(p, rank, g.id, d);
  }

  // ------------------------------------------------------------- a stall leaves a deaf gate

  /** A failure behind a left gate of lowest rank is not heard by it. */
  lemma NotHeard(p: Plan, rank: map<string, nat>, s: State, j: nat, e: string)
    requires Calm(p, rank, s) && Stuck(p, s) && j < |p.gates| && Left(p, s, j) && p.gates[j].id in rank
    requires forall i: nat :: i < |p.gates| && Left(p, s, i) ==>
               p.gates[i].id in rank && rank[p.gates[j].id] <= rank[p.gates[i].id]
    requires Failing(p, rank, e) && Reaches(GateDeps(p.gates), p.gates[j].id, e)
    ensures !Hears(p.gates, j, e)
  {
    ReachedIsLower(p, rank, p.gates[j].id, e);
    var i := IndexOf(p.gates, e);
    Somewhere(p, s, e);
    if e in s.done {
      RecordedIsVerdict(p, rank, s, e);
      if Hears(p.gates, j, e) {
        HearingDooms(p, s, j, e);
      }
    } else if !Left(p, s, i) {
      DoomedIsBlocked(p, rank, s, i);
    }
  }

  lemma StallLeavesDeaf(p: Plan, rank: map<string, nat>, s: State) returns (j: nat)
    requires Calm(p, rank, s) && Stalls(p, s)
    ensures j < |p.gates| && p.gates[j].id in Pass(p, s, 0).pending && Deaf(p, rank, j)
  {
    hide Inv;
    StallIsStuck(p, s);
    var k;
    j, k := LowestLeft(p, rank, s);
    LeftStaysPending(p, s, j);
    var x := DoomedHears(p, s, k);
    HeardIsReached(p, k, x);
    Direct(p, j, p.gates[k].id);
    var e := RootOf(p, rank, s, x);
    EdgeThenReaches(GateDeps(p.gates), p.gates[j].id, p.gates[k].id, x);
    ThenReaches(GateDeps(p.gates), p.gates[j].id, x, e);
    assert Failing(p, rank, e) && Reaches(GateDeps(p.gates), p.gates[j].id, e);
    forall f | Failing(p, rank, f) && Reaches(GateDeps(p.gates), p.gates[j].id, f) ensures !Hears(p.gates, j, f) {
      NotHeard(p, rank, s, j, f);
    }
  }

  lemma ThenReaches(g: Graph, x: string, y: string, z: string)
    requires Reaches(g, x, y) && (z == y || Reaches(g, y, z))
    ensures Reaches(g, x, z)
  {
    if z != y {
      var q :| Path(g, q) && q[0] == x && q[|q| - 1] == y;
      ReachesAlong(g, q, z);
    }
  }

  lemma {:induction false} ReachesAlong(g: Graph, q: seq<string>, z: string)
    requires Path(g, q) && Reaches(g, q[|q| - 1], z)
    ensures Reaches(g, q[0], z)
    decreases |q|
  {
    if |q| > 2 {
      forall i | 0 <= i < |q[1..]| - 1 ensures Edge(g, q[1..][i], q[1..][i + 1]) {
        assert Edge(g, q[i + 1], q[i + 2]);
      }
      ReachesAlong(g, q[1..], z);
    }
    assert Edge(g, q[0], q[1]);
    EdgeThenReaches(g, q[0], q[1], z);
  }

  lemma RunIsCalm(p: Plan, rank: map<string, nat>, s: State, es: seq<Event>)
    requires Calm(p, rank, s) && Run(p, s, es) && NoAbort(es)
    ensures Calm(p, rank, After(p, s, es))
  {
    hide Inv;
    RunKeeps(p, s, es);
    NeverAborts(p, s, es);
  }

  lemma StartsCalm(p: Plan, rank: map<string, nat>)
    requires Steady(p, rank)
    ensures Calm(p, rank, Initial(p, false))
  {
    InitialInv(p, false);
  }

  /** Whatever the resources and the bound: a plan that can stall has a deaf gate. */
  lemma StallNeedsDeaf(p: Plan, rank: map<string, nat>)
    requires Steady(p, rank) && CanStall(p)
    ensures exists k: nat :: k < |p.gates| && Deaf(p, rank, k)
  {
    hide *;
    var es := StallingRun(p);
    StartsCalm(p, rank);
    RunIsCalm(p, rank, Initial(p, false), es);
    var k := StallLeavesDeaf(p, rank, After(p, Initial(p, false), es));
  }

  lemma StallingRun(p: Plan) returns (es: seq<Event>)
    requires CanStall(p)
    ensures Run(p, Initial(p, false), es) && NoAbort(es) && Stalls(p, After(p, Initial(p, false), es))
  {
    es :| Run(p, Initial(p, false), es) && NoAbort(es) && Stalls(p, After(p, Initial(p, false), es));
  }

  // ------------------------------------------------------------- a deaf gate can be made to stall

  /** No gate has to wait for another one that is not a dependency. */
  predicate Free(p: Plan) {
    && p.concurrency >= |p.gates|
    && forall k :: 0 <= k < |p.gates| ==> p.gates[k].readOnly && p.gates[k].resources == []
  }

  lemma PassSame(p: Plan, s: State, i: nat)
    requires i <= |p.gates| && Pass(p, s, i).pending == s.pending
    ensures Pass(p, s, i) == s
    decreases |p.gates| - i
  {
    if i < |p.gates| {
      PassShape(p, Meet(p, s, p.gates[i]), i + 1);
      PassSame(p, Meet(p, s, p.gates[i]), i + 1);
    }
  }

  lemma RunThen(p: Plan, s: State, e: Event, rest: seq<Event>)
    requires Enabled(p, s, e) && Run(p, Next(p, s, e), rest) && NoAbort(rest) && !e.Abort?
    ensures Run(p, s, [e] + rest) && NoAbort([e] + rest)
    ensures After(p, s, [e] + rest) == After(p, Next(p, s, e), rest)
  {
    assert ([e] + rest)[1..] == rest;
  }

  lemma {:induction false} RunJoin(p: Plan, s: State, es: seq<Event>, fs: seq<Event>)
    requires Run(p, s, es) && NoAbort(es) && Run(p, After(p, s, es), fs) && NoAbort(fs)
    ensures Run(p, s, es + fs) && NoAbort(es + fs) && After(p, s, es + fs) == After(p, After(p, s, es), fs)
    decreases |es|
  {
    if es == [] {
      assert es + fs == fs;
    } else {
      assert forall i :: 0 <= i < |es| - 1 ==> es[1..][i] == es[i + 1];
      RunJoin(p, Next(p, s, es[0]), es[1..], fs);
      assert es + fs == [es[0]] + (es[1..] + fs);
      RunThen(p, s, es[0], es[1..] + fs);
    }
  }

  ghost predicate Leads(p: Plan, s: State, es: seq<Event>, s': State) {
    Run(p, s, es) && NoAbort(es) && After(p, s, es) == s'
  }

  lemma LeadsOn(p: Plan, s: State, es: seq<Event>, s1: State, fs: seq<Event>, s2: State)
    requires Leads(p, s, es, s1) && Leads(p, s1, fs, s2)
    ensures Leads(p, s, es + fs, s2)
  {
    RunJoin(p, s, es, fs);
  }

  lemma StaysPut(p: Plan, s: State)
    ensures Leads(p, s, [], s)
  {
  }

  /** The state in which one running gate has come to its end. */
  function Ended(p: Plan, s: State, id: string): State
    requires GoodPlan(p) && AllReturn(p) && id in ById(p.gates) && id in s.running && id !in s.settled
  {
    Finish(p, Settle(p, s, id), id)
  }

  lemma EndedShape(p: Plan, s: State, id: string)
    requires GoodPlan(p) && AllReturn(p) && !p.failFast && id in ById(p.gates) && id in s.running && id !in s.settled
    ensures var s' := Ended(p, s, id);
            && s'.settled == s.settled && s'.running == s.running - {id} && s'.pending == s.pending
            && s'.done.Keys == s.done.Keys + {id} && s'.aborted == s.aborted
  {
    assert s.settled + {id} - {id} == s.settled;
  }

  lemma EndedKeeps(p: Plan, s: State, id: string)
    requires Inv(p, s) && AllReturn(p) && id in ById(p.gates) && id in s.running && id !in s.settled
    ensures Inv(p, Ended(p, s, id))
  {
    hide Inv;
    InvParts(p, s);
    SettleKeeps(p, s, id);
    FinishKeeps(p, Settle(p, s, id), id);
  }

  lemma EndedLeads(p: Plan, s: State, id: string)
    requires GoodPlan(p) && AllReturn(p) && id in ById(p.gates) && id in s.running && id !in s.settled
    ensures Leads(p, s, [Settles(id), Finishes(id)], Ended(p, s, id))
  {
    var s1, s2 := Settle(p, s, id), Ended(p, s, id);
    StaysPut(p, s2);
    RunThen(p, s1, Finishes(id), []);
    RunThen(p, s, Settles(id), [Finishes(id)] + []);
    assert [Settles(id)] + ([Finishes(id)] + []) == [Settles(id), Finishes(id)];
  }

  lemma EndLeads(p: Plan, rank: map<string, nat>, s: State, id: string) returns (s': State)
    requires Calm(p, rank, s) && s.settled == {} && id in s.running
    ensures Leads(p, s, [Settles(id), Finishes(id)], s') && Calm(p, rank, s')
    ensures s'.settled == {} && s'.running == s.running - {id} && s'.pending == s.pending
    ensures s'.done.Keys == s.done.Keys + {id}
  {
    hide Inv;
    hide Leads;
    hide Ended;
    hide Verdict;
    RunningIsPlanned(p, s, id);
    EndedShape(p, s, id);
    EndedKeeps(p, s, id);
    EndedLeads(p, s, id);
    s' := Ended(p, s, id);
  }

  /** A pass of a calm state gives no receipt to a failure. */
  lemma PassSparesFailures(p: Plan, rank: map<string, nat>, s: State, e: string)
    requires Calm(p, rank, s) && Failing(p, rank, e) && e !in s.done
    ensures e !in Pass(p, s, 0).done
  {
    hide Inv;
    if e in Pass(p, s, 0).done {
      PassShape(p, s, 0);
      var k := IndexOf(p.gates, e);
      BlocksExactlyDoomed(p, s, k);
      DoomedIsBlocked(p, rank, s, k);
    }
  }

  /** Nothing moves any more but the gates of `late`, which are left running. */
  ghost predicate Quiet(p: Plan, rank: map<string, nat>, late: set<string>, s: State) {
    && Calm(p, rank, s) && s.settled == {} && s.running <= late && late !! s.done.Keys
    && Pass(p, s, 0) == s
  }

  lemma SweepLeads(p: Plan, rank: map<string, nat>, s: State)
    requires Calm(p, rank, s)
    ensures Leads(p, s, [Sweep], Pass(p, s, 0)) && Calm(p, rank, Pass(p, s, 0))
  {
    hide Inv;
    assert [Sweep][1..] == [];
    assert Run(p, Next(p, s, Sweep), []);
    PassKeeps(p, s, 0);
    PassShape(p, s, 0);
  }

  lemma PassSpares(p: Plan, rank: map<string, nat>, late: set<string>, s: State)
    requires Calm(p, rank, s) && late !! s.done.Keys && forall e :: e in late ==> Failing(p, rank, e)
    ensures late !! Pass(p, s, 0).done.Keys
  {
    forall e | e in late ensures e !in Pass(p, s, 0).done {
      PassSparesFailures(p, rank, s, e);
    }
  }

  /** Everything but the failures of `late` can be brought to its end. */
  lemma {:induction false} Quieten(p: Plan, rank: map<string, nat>, late: set<string>, s: State)
    returns (es: seq<Event>, s': State)
    requires Calm(p, rank, s) && s.settled == {} && late !! s.done.Keys
    requires forall e :: e in late ==> Failing(p, rank, e)
    ensures Leads(p, s, es, s') && Quiet(p, rank, late, s')
    decreases |s.pending|, |s.running|
  {
    hide *;
    PassSpares(p, rank, late, s);
    SweepLeads(p, rank, s);
    PassShape(p, s, 0);
    var s1 := Pass(p, s, 0);
    if s1.pending != s.pending {
      FewerElements(s1.pending, s.pending);
      var rest;
      rest, s' := Quieten(p, rank, late, s1);
      es := [Sweep] + rest;
      LeadsOn(p, s, [Sweep], s1, rest, s');
    } else if s.running <= late {
      PassSame(p, s, 0);
      es, s' := [], s;
      StaysPut(p, s);
      QuietWhen(p, rank, late, s);
    } else {
      var id :| id in s.running && id !in late;
      var s2 := EndLeads(p, rank, s, id);
      FewerElements(s2.running, s.running);
      var rest;
      rest, s' := Quieten(p, rank, late, s2);
      es := [Settles(id), Finishes(id)] + rest;
      LeadsOn(p, s, [Settles(id), Finishes(id)], s2, rest, s');
    }
  }

  lemma QuietWhen(p: Plan, rank: map<string, nat>, late: set<string>, s: State)
    requires Calm(p, rank, s) && s.settled == {} && s.running <= late && late !! s.done.Keys
    requires Pass(p, s, 0) == s
    ensures Quiet(p, rank, late, s)
  {
  }

  lemma MovesOne(to: set<string>, from: set<string>, id: string)
    requires id in from
    ensures (to + {id}) + (from - {id}) == to + from
  {
  }

  /** All running gates come to their ends, with no pass in between. */
  lemma {:induction false} EndAll(p: Plan, rank: map<string, nat>, s: State) returns (es: seq<Event>, s': State)
    requires Calm(p, rank, s) && s.settled == {}
    ensures Leads(p, s, es, s') && Calm(p, rank, s')
    ensures s'.running == {} && s'.pending == s.pending && s'.done.Keys == s.done.Keys + s.running
    decreases |s.running|
  {
    hide *;
    if s.running == {} {
      es, s' := [], s;
      StaysPut(p, s);
    } else {
      var id :| id in s.running;
      var s1 := EndLeads(p, rank, s, id);
      FewerElements(s1.running, s.running);
      MovesOne(s.done.Keys, s.running, id);
      var rest;
      rest, s' := EndAll(p, rank, s1);
      es := [Settles(id), Finishes(id)] + rest;
      LeadsOn(p, s, [Settles(id), Finishes(id)], s1, rest, s');
    }
  }

  lemma RoomWhenPending(p: Plan, s: State, k: nat)
    requires Inv(p, s) && Free(p) && k < |p.gates| && p.gates[k].id in s.pending
    ensures |s.running| < p.concurrency && !s.writer && s.held == {} && p.gates[k].readOnly
  {
    UniqueById(p.gates);
    UniqueBySize(p.gates);
    ByIdHasGates(p.gates);
    var m := ById(p.gates);
    FewerElements(s.running, m.Keys);
    assert |m.Keys| == |m|;
    assert forall id :: id in m ==> m[id].readOnly && m[id].resources == [];
  }

  /** In a quiet state of a free plan every pending gate lacks a dependency. */
  lemma QuietLacks(p: Plan, rank: map<string, nat>, late: set<string>, s: State, k: nat)
    requires Quiet(p, rank, late, s) && Free(p) && k < |p.gates| && p.gates[k].id in s.pending
    ensures Lacks(s, p.gates[k])
  {
    hide *;
    QuietMeans(p, rank, late, s);
    CalmMeans(p, rank, s);
    var g := p.gates[k];
    MetIsSame(p, s, k);
    PassShape(p, Meet(p, s, g), k + 1);
    RoomWhenPending(p, s, k);
    LacksWithRoom(p, s, g);
  }

  lemma LacksWithRoom(p: Plan, s: State, g: Gate)
    requires |s.running| < p.concurrency && !s.writer && s.held == {} && g.readOnly
    requires g.id in Meet(p, s, g).pending
    ensures Lacks(s, g)
  {
  }

  /** A pass that changes nothing changes nothing on the way. */
  lemma MetIsSame(p: Plan, s: State, k: nat)
    requires Pass(p, s, 0) == s && k < |p.gates|
    ensures Met(p, s, 0, k) == s && Pass(p, Meet(p, s, p.gates[k]), k + 1) == s
  {
    PassSplits(p, s, 0, k);
    MetThenPass(p, s, 0, k);
  }

  lemma {:induction false} MetThenPass(p: Plan, s: State, i: nat, k: nat)
    requires i <= k <= |p.gates| && Pass(p, s, i) == s
    ensures Met(p, s, i, k) == s && Pass(p, s, k) == s
    decreases k - i
  {
    if i < k {
      PassShape(p, Meet(p, s, p.gates[i]), i + 1);
      assert Meet(p, s, p.gates[i]).pending == s.pending;
      MetThenPass(p, s, i + 1, k);
    }
  }

  /** The failures behind a gate. */
  ghost function Behind(p: Plan, rank: map<string, nat>, k: nat): set<string>
    requires Steady(p, rank) && k < |p.gates|
  {
    set e | e in ById(p.gates) && Failing(p, rank, e) && Reaches(GateDeps(p.gates), p.gates[k].id, e)
  }

  lemma RootIsBehind(p: Plan, rank: map<string, nat>, s: State, k: nat, x: string)
    requires Calm(p, rank, s) && k < |p.gates| && EndedBadly(s, x)
    requires if x == p.gates[k].id then !Failing(p, rank, x) else Reaches(GateDeps(p.gates), p.gates[k].id, x)
    ensures !(Behind(p, rank, k) !! s.done.Keys)
  {
    var e := RootOf(p, rank, s, x);
    if x != p.gates[k].id {
      ThenReaches(GateDeps(p.gates), p.gates[k].id, x, e);
    }
    assert e in Behind(p, rank, k) && e in s.done;
  }

  /** Until a failure behind it is recorded, a deaf gate is pending. */
  lemma DeafIsPending(p: Plan, rank: map<string, nat>, s: State, k: nat)
    requires Calm(p, rank, s) && k < |p.gates| && Deaf(p, rank, k) && Behind(p, rank, k) !! s.done.Keys
    ensures p.gates[k].id in s.pending
  {
    var g := p.gates[k].id;
    var e :| Failing(p, rank, e) && Reaches(GateDeps(p.gates), g, e);
    var d := BlockedBehind(p, rank, g, e);
    Somewhere(p, s, g);
    if g in s.done {
      RecordedIsVerdict(p, rank, s, g);
      RootIsBehind(p, rank, s, k, g);
    } else if g in s.running {
      assert d in s.done && Success(s.done[d]);
      RecordedIsVerdict(p, rank, s, d);
    }
  }

  /** When the failures behind it are recorded all at once, a deaf gate is left over. */
  lemma DeafIsLeft(p: Plan, rank: map<string, nat>, s: State, s': State, k: nat)
    requires Calm(p, rank, s) && Calm(p, rank, s') && k < |p.gates| && Deaf(p, rank, k)
    requires Behind(p, rank, k) !! s.done.Keys && s.running <= Behind(p, rank, k)
    requires s'.pending == s.pending && s'.done.Keys == s.done.Keys + s.running
    ensures Left(p, s', k)
  {
    DeafIsPending(p, rank, s, k);
    if Doomed(p, s', k) {
      var x := DoomedHears(p, s', k);
      HeardIsReached(p, k, x);
      if x in s.done {
        RecordedIsVerdict(p, rank, s, x);
        RecordedIsVerdict(p, rank, s', x);
        RootIsBehind(p, rank, s, k, x);
      }
    }
  }

  lemma LateFailureDooms(p: Plan, rank: map<string, nat>, s: State, s': State, late: set<string>, k: nat)
    requires Calm(p, rank, s') && Free(p) && Quiet(p, rank, late, s) && k < |p.gates|
    requires forall e :: e in late ==> Failing(p, rank, e)
    requires s'.pending == s.pending && s'.done.Keys == s.done.Keys + s.running
    requires Left(p, s', k)
    ensures Lacks(s', p.gates[k])
  {
    QuietLacks(p, rank, late, s, k);
    var d :| d in p.gates[k].dependsOn && d !in s.done;
    if d in s'.done {
      RecordedIsVerdict(p, rank, s', d);
    }
  }

  /** Where gates need not wait for each other, a deaf gate can be made to stall the run. */
  lemma DeafCanStall(p: Plan, rank: map<string, nat>, k: nat)
    requires Steady(p, rank) && Free(p) && k < |p.gates| && Deaf(p, rank, k)
    ensures CanStall(p)
  {
    hide *;
    var late := Behind(p, rank, k);
    var s0 := Initial(p, false);
    StartsCalm(p, rank);
    StartsEmpty(p);
    BehindFail(p, rank, k);
    var es, s1 := Quieten(p, rank, late, s0);
    QuietMeans(p, rank, late, s1);
    var fs, s2 := EndAll(p, rank, s1);
    LeadsOn(p, s0, es, s1, fs, s2);
    DeafIsLeft(p, rank, s1, s2, k);
    forall i: nat | i < |p.gates| && Left(p, s2, i) ensures Lacks(s2, p.gates[i]) {
      LateFailureDooms(p, rank, s1, s2, late, i);
    }
    CalmMeans(p, rank, s2);
    StallsExactlyWhen(p, s2);
    StallIsReached(p, es + fs, s2);
  }

  lemma StartsEmpty(p: Plan)
    ensures Initial(p, false).settled == {} && Initial(p, false).done == map[]
  {
  }

  lemma BehindFail(p: Plan, rank: map<string, nat>, k: nat)
    requires Steady(p, rank) && k < |p.gates|
    ensures forall e :: e in Behind(p, rank, k) ==> Failing(p, rank, e)
  {
  }

  lemma QuietMeans(p: Plan, rank: map<string, nat>, late: set<string>, s: State)
    requires Quiet(p, rank, late, s)
    ensures Calm(p, rank, s) && s.settled == {} && s.running <= late && late !! s.done.Keys
    ensures Pass(p, s, 0) == s
  {
  }

  lemma CalmMeans(p: Plan, rank: map<string, nat>, s: State)
    requires Calm(p, rank, s)
    ensures Inv(p, s) && !s.aborted
  {
  }

  lemma StallIsReached(p: Plan, es: seq<Event>, s: State)
    requires Leads(p, Initial(p, false), es, s) && Stalls(p, s)
    ensures CanStall(p)
  {
  }

  /**
   Which plans can stall, read off the verdicts: where gates need not wait for each other, exactly those
   with a deaf gate. Without that proviso a deaf gate is still needed (`StallNeedsDeaf`).
   */
  lemma CanStallExactly(p: Plan, rank: map<string, nat>)
    requires Steady(p, rank) && Free(p)
    ensures CanStall(p) <==> exists k: nat :: k < |p.gates| && Deaf(p, rank, k)
  {
    if CanStall(p) {
      StallNeedsDeaf(p, rank);
    }
    if k: nat :| k < |p.gates| && Deaf(p, rank, k) {
      DeafCanStall(p, rank, k);
    }
  }

  // ------------------------------------------------------------- lists that can stall

  predicate ReadersOnly(gates: seq<Gate>) {
    forall k :: 0 <= k < |gates| ==> gates[k].readOnly && gates[k].resources == []
  }

  /** The plan on the list in which exactly `e` would not pass. */
  function OnlyFails(gates: seq<Gate>, e: string): Plan {
    Plan(gates, |gates| + 1, false,
         map id | id in ById(gates) :: Returned(Receipt(id, if id == e then Failed else Passed, Some(0))))
  }

  lemma OnlyFailsIsSteady(gates: seq<Gate>, rank: map<string, nat>, e: string)
    requires Unique(gates) && Ranked(GateDeps(gates), rank) && ReadersOnly(gates)
    ensures Steady(OnlyFails(gates, e), rank) && Free(OnlyFails(gates, e))
  {
  }

  lemma {:induction false} LowerPasses(gates: seq<Gate>, rank: map<string, nat>, e: string, id: string)
    requires Steady(OnlyFails(gates, e), rank) && e in rank && id in ById(gates) && rank[id] < rank[e]
    ensures Good(OnlyFails(gates, e), rank, id)
    decreases rank[id]
  {
    forall d | d in GateDeps(gates)[id] ensures Good(OnlyFails(gates, e), rank, d) {
      LowerPasses(gates, rank, e, d);
    }
  }

  lemma OnlyOneFails(gates: seq<Gate>, rank: map<string, nat>, e: string, f: string)
    requires Steady(OnlyFails(gates, e), rank) && e in ById(gates)
    ensures Failing(OnlyFails(gates, e), rank, f) <==> f == e
  {
    if f == e {
      forall d | d in GateDeps(gates)[e] ensures Good(OnlyFails(gates, e), rank, d) {
        LowerPasses(gates, rank, e, d);
      }
    }
  }

  lemma UnheardIsDeaf(gates: seq<Gate>, rank: map<string, nat>, i: nat, j: nat, e: string)
    requires Steady(OnlyFails(gates, e), rank) && i < |gates| && j < |gates|
    requires gates[j].id in gates[i].dependsOn && e in gates[j].dependsOn && !Hears(gates, i, e)
    ensures Deaf(OnlyFails(gates, e), rank, i)
  {
    var p := OnlyFails(gates, e);
    Direct(p, i, gates[j].id);
    Direct(p, j, e);
    EdgeThenReaches(GateDeps(gates), gates[i].id, gates[j].id, e);
    forall f ensures Failing(p, rank, f) <==> f == e {
      OnlyOneFails(gates, rank, e, f);
    }
  }

  lemma HearingNeverStalls(p: Plan, rank: map<string, nat>)
    requires Steady(p, rank) && AllHear(p.gates)
    ensures !CanStall(p)
  {
    hide *;
    if CanStall(p) {
      var es := StallingRun(p);
      StartsCalm(p, rank);
      RunIsCalm(p, rank, Initial(p, false), es);
      var s := After(p, Initial(p, false), es);
      CalmMeans(p, rank, s);
      SteadyMeans(p, rank);
      NeverStalls(p, rank, s);
    }
  }

  lemma SteadyMeans(p: Plan, rank: map<string, nat>)
    requires Steady(p, rank)
    ensures Ranked(GateDeps(p.gates), rank)
  {
  }

  /**
   The premise of `NeverStalls` is exact: of the lists of readers, with room for all, exactly those in which
   every gate hears of the dependencies of its dependencies never stall, whatever fails.
   */
  lemma NeverStallsExactly(gates: seq<Gate>, rank: map<string, nat>)
    requires Unique(gates) && Ranked(GateDeps(gates), rank) && ReadersOnly(gates)
    ensures AllHear(gates) <==>
              forall p: Plan :: p.gates == gates && Steady(p, rank) && p.concurrency >= |gates| ==> !CanStall(p)
  {
    hide CanStall;
    hide Deaf;
    hide Free;
    hide Steady;
    if AllHear(gates) {
      forall p: Plan | p.gates == gates && Steady(p, rank) && p.concurrency >= |gates| ensures !CanStall(p) {
        HearingNeverStalls(p, rank);
      }
    } else {
      var i: nat, j: nat, e :| i < j < |gates| && gates[j].id in gates[i].dependsOn && e in gates[j].dependsOn
                               && !Hears(gates, i, e);
      OnlyFailsIsSteady(gates, rank, e);
      UnheardIsDeaf(gates, rank, i, j, e);
      DeafCanStall(OnlyFails(gates, e), rank, i);
    }
  }

  // ------------------------------------------------------------- a plan that stalls

  const A := Gate("a", [], [], true)
  const B := Gate("b", ["a"], [], true)
  const C := Gate("c", ["b"], [], true)

  const LATE := Plan([C, B, A], 1, false,
    map["a" := Returned(FAILED_A), "b" := Returned(Receipt("b", Passed, Some(0))),
        "c" := Returned(Receipt("c", Passed, Some(0)))])

  lemma LateGates()
    ensures ById(LATE.gates) == map["c" := C, "b" := B, "a" := A]
  {
    assert LATE.gates[..2] == [C, B] && [C, B][..1] == [C];
    assert ById([C]) == map["c" := C];
    assert ById([C, B]) == map["c" := C, "b" := B];
  }

  const FAILED_A := Receipt("a", Failed, Some(1))

  const S0 := State({"a", "b", "c"}, {}, {}, {}, false, map[], false, None)
  const S1 := State({"b", "c"}, {"a"}, {}, {}, false, map[], false, None)
  const S3 := State({"b", "c"}, {}, {}, {}, false, map["a" := FAILED_A], false, None)

  lemma FirstPassStartsA()
    ensures Pass(LATE, S0, 0) == S1
  {
    assert "b" in C.dependsOn && "a" in B.dependsOn;
    assert !FailedDependency(S0, C) && MustWait(LATE, S0, C);
    assert !FailedDependency(S0, B) && MustWait(LATE, S0, B);
    assert !FailedDependency(S0, A) && !MustWait(LATE, S0, A);
    assert Meet(LATE, S0, A) == S1;
    assert Pass(LATE, S1, 3) == S1;
    assert Pass(LATE, S0, 2) == S1;
    assert Pass(LATE, S0, 1) == S1;
  }

  lemma SecondPassStalls()
    ensures Stalls(LATE, S3)
  {
    var s4 := S3.(pending := {"c"}, done := S3.done["b" := BlockedBy("b", DependencyFailed)]);
    assert "b" in C.dependsOn;
    assert !FailedDependency(S3, C) && MustWait(LATE, S3, C);
    assert "a" in B.dependsOn && FailedDependency(S3, B);
    assert S3.pending - {"b"} == {"c"};
    assert Meet(LATE, S3, B) == s4;
    assert Pass(LATE, s4, 3) == s4;
    assert Pass(LATE, s4, 2) == s4;
    assert Pass(LATE, S3, 1) == s4;
    assert "c" in s4.pending;
  }

  lemma LateCompletes()
    ensures Enabled(LATE, S1, Settles("a"))
    ensures var s2 := Next(LATE, S1, Settles("a"));
            Enabled(LATE, s2, Finishes("a")) && Next(LATE, s2, Finishes("a")) == S3
  {
    LateGates();
  }

  lemma LateIsRanked()
    ensures Closed(GateDeps(LATE.gates)) && Ranked(GateDeps(LATE.gates), map["a" := 0, "b" := 1, "c" := 2])
  {
    LateGates();
  }

  lemma LateRun(s2: State)
    requires Enabled(LATE, S1, Settles("a")) && s2 == Next(LATE, S1, Settles("a"))
    requires Enabled(LATE, s2, Finishes("a")) && Next(LATE, s2, Finishes("a")) == S3 && Pass(LATE, S0, 0) == S1
    ensures var es := [Sweep] + ([Settles("a")] + ([Finishes("a")] + []));
            Leads(LATE, S0, es, S3)
  {
    hide Pass;
    assert Run(LATE, S3, []) && NoAbort([]);
    RunThen(LATE, s2, Finishes("a"), []);
    RunThen(LATE, S1, Settles("a"), [Finishes("a")] + []);
    RunThen(LATE, S0, Sweep, [Settles("a")] + ([Finishes("a")] + []));
  }

  /** A closed acyclic plan whose run stalls: `c` is listed before `b`, and `b` before `a`, which fails. */
  lemma LateDependencyStalls()
    ensures Closed(GateDeps(LATE.gates)) && Ranked(GateDeps(LATE.gates), map["a" := 0, "b" := 1, "c" := 2])
    ensures CanStall(LATE)
  {
    LateIsRanked();
    LateGates();
    assert Initial(LATE, false) == S0;
    hide *;
    FirstPassStartsA();
    SecondPassStalls();
    LateCompletes();
    LateRun(Next(LATE, S1, Settles("a")));
    StallIsReached(LATE, [Sweep] + ([Settles("a")] + ([Finishes("a")] + [])), S3);
  }
}
