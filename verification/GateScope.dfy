/** The scope of a proof: which dispensed gates become required because a gate that needs them is. */
module GateScope {
  import opened Options
  import opened Graphs
  import opened GateGraph
  import opened GateSelection

  /** What was decided of the gates that declare a scope; every other gate is required. */
  type Decisions = map<string, bool>

  predicate Required(decisions: Decisions, id: string) {
    id in decisions ==> decisions[id]
  }

  /** The gate depends on this one, directly or through others. */
  ghost predicate WaitsFor(ds: seq<Declared>, x: string, id: string) {
    Reaches(GateDeps(GatesOf(ds)), x, id)
  }

  /** A configured gate that is required depends on this one. */
  ghost predicate Needed(ds: seq<Declared>, decisions: Decisions, id: string) {
    exists x :: Required(decisions, x) && WaitsFor(ds, x, id)
  }

  lemma DirectlyWaits(ds: seq<Declared>, d: Declared, id: string)
    requires Unique(GatesOf(ds)) && d in ds && id in d.gate.dependsOn
    ensures WaitsFor(ds, d.gate.id, id)
  {
    UniqueDeclared(ds);
    assert Edge(GateDeps(GatesOf(ds)), d.gate.id, id);
    EdgeReaches(GateDeps(GatesOf(ds)), d.gate.id, id);
  }

  lemma WaitsJoin(ds: seq<Declared>, x: string, y: string, z: string)
    requires WaitsFor(ds, x, y) && WaitsFor(ds, y, z)
    ensures WaitsFor(ds, x, z)
  {
    ReachesJoin(GateDeps(GatesOf(ds)), x, y, z);
  }

  /** The gates that depend on this one are in the set. */
  predicate DependentsIn(ds: seq<Declared>, id: string, s: set<string>) {
    forall d :: d in ds && id in d.gate.dependsOn ==> d.gate.id in s
  }

  lemma {:induction false} UpClosedHoldsPath(ds: seq<Declared>, s: set<string>, p: seq<string>)
    requires Unique(GatesOf(ds)) && Path(GateDeps(GatesOf(ds)), p)
    requires DependentsIn(ds, p[|p| - 1], s) && forall x :: x in s ==> DependentsIn(ds, x, s)
    ensures p[0] in s
    decreases |p|
  {
    var g := GateDeps(GatesOf(ds));
    var x, y := p[|p| - 2], p[|p| - 1];
    UniqueDeclared(ds);
    assert Edge(g, x, y);
    var d :| d in ds && d.gate.id == x;
    assert x in s;
    if |p| > 2 {
      var q := p[..|p| - 1];
      forall i | 0 <= i < |q| - 1 ensures Edge(g, q[i], q[i + 1]) {
        assert Edge(g, p[i], p[i + 1]);
      }
      UpClosedHoldsPath(ds, s, q);
    }
  }

  lemma AllWaitingIn(ds: seq<Declared>, id: string, s: set<string>, x: string)
    requires Unique(GatesOf(ds)) && WaitsFor(ds, x, id)
    requires DependentsIn(ds, id, s) && forall y :: y in s ==> DependentsIn(ds, y, s)
    ensures x in s
  {
    var p :| Path(GateDeps(GatesOf(ds)), p) && p[0] == x && p[|p| - 1] == id;
    UpClosedHoldsPath(ds, s, p);
  }

  lemma DependentsSeen(ds: seq<Declared>, id: string, s: set<string>)
    requires forall j :: 0 <= j < |ds| && id in ds[j].gate.dependsOn ==> ds[j].gate.id in s
    ensures DependentsIn(ds, id, s)
  {
  }

  lemma DependentsStay(ds: seq<Declared>, id: string, s: set<string>, t: set<string>)
    requires DependentsIn(ds, id, s) && s <= t
    ensures DependentsIn(ds, id, t)
  {
  }

  class ScopePlan {
    const ds: seq<Declared>
    var decisions: Decisions

    constructor (ds: seq<Declared>, decisions: Decisions)
      ensures this.ds == ds && this.decisions == decisions
    {
      this.ds := ds;
      this.decisions := decisions;
    }

    /**
     Depth first through the dependents: one that is required and needs the gate, or none, and then the gates
     seen are all of them and none is required.
     */
    method RequiredBy(id: string, seen: set<string>) returns (who: Option<string>, now: set<string>)
      requires Unique(GatesOf(ds)) && (forall x :: x in seen ==> !Required(decisions, x)) && seen <= Ids(ds)
      ensures who.Some? ==> Required(decisions, who.value) && WaitsFor(ds, who.value, id)
      ensures who.None? ==> seen <= now <= Ids(ds) && forall x :: x in now ==> !Required(decisions, x)
      ensures who.None? ==> DependentsIn(ds, id, now) && forall x :: x in now - seen ==> DependentsIn(ds, x, now)
      decreases Ids(ds) - seen
    {
      hide WaitsFor;
      hide Unique;
      hide DependentsIn;
      now := seen;
      for i := 0 to |ds|
        invariant seen <= now <= Ids(ds)
        invariant forall x :: x in now ==> !Required(decisions, x)
        invariant forall j :: 0 <= j < i && id in ds[j].gate.dependsOn ==> ds[j].gate.id in now
        invariant forall x :: x in now - seen ==> DependentsIn(ds, x, now)
      {
        var d := ds[i];
        assert d in ds;
        if id !in d.gate.dependsOn || d.gate.id in now {
          continue;
        }
        DirectlyWaits(ds, d, id);
        if Required(decisions, d.gate.id) {
          return Some(d.gate.id), now + {d.gate.id};
        }
        ghost var before := now;
        who, now := RequiredBy(d.gate.id, now + {d.gate.id});
        if who.Some? {
          WaitsJoin(ds, who.value, d.gate.id, id);
          return;
        }
        forall x | x in now - seen ensures DependentsIn(ds, x, now) {
          if x in before {
            DependentsStay(ds, x, before, now);
          }
        }
      }
      DependentsSeen(ds, id, now);
      return None, now;
    }

    method NeededNow(id: string) returns (needed: bool)
      requires Unique(GatesOf(ds))
      ensures needed <==> Needed(ds, decisions, id)
    {
      var who, seen := RequiredBy(id, {});
      if who.None? {
        forall x | WaitsFor(ds, x, id) ensures !Required(decisions, x) {
          AllWaitingIn(ds, id, seen, x);
        }
      }
      return who.Some?;
    }

    /**
     The loop over the decisions, in any order: a dispensed gate ends required exactly when a gate required at
     the start needs it.
     */
    method Close(order: seq<string>)
      requires Unique(GatesOf(ds)) && decisions.Keys <= Ids(ds)
      requires forall id :: id in order <==> id in decisions
      modifies this
      ensures Settled(ds, old(decisions), decisions)
    {
      hide Needed;
      hide Unique;
      hide Ids;
      ghost var start := decisions;
      for i := 0 to |order|
        invariant decisions.Keys == start.Keys
        invariant forall id :: id in decisions && decisions[id] ==> start[id] || Needed(ds, start, id)
        invariant forall id :: id in decisions && start[id] ==> decisions[id]
        invariant forall j :: 0 <= j < i && Needed(ds, start, order[j]) ==> decisions[order[j]]
      {
        var id := order[i];
        assert id in order && id in Ids(ds);
        if !decisions[id] {
          SameNeed(ds, start, decisions, id);
          var needed := NeededNow(id);
          if needed {
            decisions := decisions[id := true];
          }
        }
      }
    }
  }

  /** Gates that became required on the way add no need that was not there from the start. */
  lemma SameNeed(ds: seq<Declared>, start: Decisions, now: Decisions, id: string)
    requires now.Keys == start.Keys
    requires forall x :: x in now && now[x] ==> start[x] || Needed(ds, start, x)
    requires forall x :: x in now && start[x] ==> now[x]
    ensures Needed(ds, now, id) <==> Needed(ds, start, id)
  {
    hide WaitsFor;
    if Needed(ds, now, id) {
      var x :| Required(now, x) && WaitsFor(ds, x, id);
      if !Required(start, x) {
        var y :| Required(start, y) && WaitsFor(ds, y, x);
        WaitsJoin(ds, y, x, id);
      }
    }
    if Needed(ds, start, id) {
      var x :| Required(start, x) && WaitsFor(ds, x, id);
      assert Required(now, x);
    }
  }

  /** The decisions as the loop leaves them. */
  ghost predicate Settled(ds: seq<Declared>, start: Decisions, end: Decisions) {
    && end.Keys == start.Keys
    && forall id :: id in end ==> (end[id] <==> start[id] || Needed(ds, start, id))
  }

  /** The decisions that the loop leaves of these. */
  ghost function SettledOf(ds: seq<Declared>, start: Decisions): (end: Decisions)
    ensures Settled(ds, start, end)
  {
    map id | id in start :: start[id] || Needed(ds, start, id)
  }

  lemma SettledIsOne(ds: seq<Declared>, start: Decisions, end: Decisions)
    requires Settled(ds, start, end)
    ensures end == SettledOf(ds, start)
  {
  }

  /** A required gate never waits for one that is not: the required ones are closed under dependencies. */
  lemma RequiredIsClosed(ds: seq<Declared>, start: Decisions, end: Decisions, d: Declared, dep: string)
    requires Unique(GatesOf(ds)) && Settled(ds, start, end)
    requires d in ds && Required(end, d.gate.id) && dep in d.gate.dependsOn
    ensures Required(end, dep)
  {
    hide WaitsFor;
    DirectlyWaits(ds, d, dep);
    if !Required(start, d.gate.id) {
      var x :| Required(start, x) && WaitsFor(ds, x, d.gate.id);
      WaitsJoin(ds, x, d.gate.id, dep);
    }
    assert Needed(ds, start, dep);
  }

  // ------------------------------------------------------------------ what runs

  /** The staged gates without those the scope leaves out; only the full stage has a scope. */
  function RunnableIds(ds: seq<Declared>, ids: set<string>, stage: Stage, decisions: Decisions): set<string> {
    set id | id in StagedIds(ds, ids, stage) && (stage.Full? ==> Required(decisions, id))
  }

  /** At the task stage the task checks and the targeted variants run; at the full one whatever is required. */
  lemma RunsExactly(ds: seq<Declared>, ids: set<string>, stage: Stage, decisions: Decisions, id: string)
    ensures id in RunnableIds(ds, ids, stage, decisions) <==>
              && id in ids
              && exists d :: d in ds && d.gate.id == id
                   && match stage
                      case Task => !d.full || d.affected
                      case Full => id in decisions ==> decisions[id]
  {
  }

  lemma RunnableClosed(ds: seq<Declared>, ids: set<string>, stage: Stage, start: Decisions, end: Decisions)
    requires Accepted(ds) && ClosedSet(ds, ids) && Settled(ds, start, end)
    ensures ClosedSet(ds, RunnableIds(ds, ids, stage, end))
  {
    StagedClosed(ds, ids, stage);
    forall d, dep | d in ds && d.gate.id in RunnableIds(ds, ids, stage, end) && dep in d.gate.dependsOn
      ensures dep in RunnableIds(ds, ids, stage, end)
    {
      if stage.Full? {
        RequiredIsClosed(ds, start, end, d, dep);
      }
    }
  }
}
