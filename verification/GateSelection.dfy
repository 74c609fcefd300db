/** Which gates a run keeps: the configuration's rules, the selection, the stage and the scope of the proof. */
module GateSelection {
  import opened Options
  import opened Graphs
  import opened GateGraph

  /** A configured gate: its stage, whether it has a targeted variant, and whether its lock is a stack's. */
  datatype Declared = Declared(gate: Gate, full: bool, affected: bool, onStack: bool)

  function GatesOf(ds: seq<Declared>): (gates: seq<Gate>)
    ensures |gates| == |ds| && forall i :: 0 <= i < |ds| ==> gates[i] == ds[i].gate
  {
    seq(|ds|, i requires 0 <= i < |ds| => ds[i].gate)
  }

  function Ids(ds: seq<Declared>): set<string> {
    set d | d in ds :: d.gate.id
  }

  predicate NoRepeat(xs: seq<string>) {
    forall i, j :: 0 <= i < j < |xs| ==> xs[i] != xs[j]
  }

  // ------------------------------------------------------------------ configuration

  /** A gate that may wait for another: at the task stage, only for what runs there. */
  predicate MayDepend(d: Declared, target: Declared) {
    && (!d.full ==> !target.full)
    && (d.affected ==> !target.full || target.affected)
  }

  /** The place of the first gate of this id, or the end of the list. */
  function FirstWith(ds: seq<Declared>, id: string): (i: nat)
    ensures i <= |ds| && (i < |ds| ==> ds[i].gate.id == id) && forall j :: 0 <= j < i ==> ds[j].gate.id != id
  {
    if ds == [] || ds[0].gate.id == id then 0 else 1 + FirstWith(ds[1..], id)
  }

  /** The dependency is configured, and the first gate of its id runs wherever the gate does. */
  predicate DependencyFits(ds: seq<Declared>, d: Declared, dep: string) {
    var k := FirstWith(ds, dep); k < |ds| && MayDepend(d, ds[k])
  }

  predicate GateRules(ds: seq<Declared>, d: Declared) {
    && NoRepeat(d.gate.dependsOn)
    && (d.affected ==> d.full)
    && forall dep :: dep in d.gate.dependsOn ==> DependencyFits(ds, d, dep)
  }

  ghost predicate Accepted(ds: seq<Declared>) {
    && Unique(GatesOf(ds))
    && (forall i :: 0 <= i < |ds| ==> GateRules(ds, ds[i]))
    && Acyclic(GateDeps(GatesOf(ds)))
  }

  datatype ConfigIssue =
    | DuplicateId
    | DuplicateDependency(gate: string)
    | UnknownDependency(gate: string, dep: string)
    | TaskNeedsFull(gate: string, dep: string)
    | TargetedNotFull(gate: string)
    | TargetedNeedsReserved(gate: string, dep: string)
    | Cycle

  /** The issue is one of this gate's: the rule it names is broken. */
  predicate Breaks(ds: seq<Declared>, d: Declared, issue: ConfigIssue) {
    match issue
    case DuplicateDependency(gate) => gate == d.gate.id && !NoRepeat(d.gate.dependsOn)
    case UnknownDependency(gate, dep) => gate == d.gate.id && dep in d.gate.dependsOn && FirstWith(ds, dep) == |ds|
    case TaskNeedsFull(gate, dep) =>
      gate == d.gate.id && dep in d.gate.dependsOn && !d.full && FirstWith(ds, dep) < |ds|
      && ds[FirstWith(ds, dep)].full
    case TargetedNotFull(gate) => gate == d.gate.id && d.affected && !d.full
    case TargetedNeedsReserved(gate, dep) =>
      gate == d.gate.id && dep in d.gate.dependsOn && d.affected && FirstWith(ds, dep) < |ds|
      && ds[FirstWith(ds, dep)].full && !ds[FirstWith(ds, dep)].affected
    case _ => false
  }

  /** A gate meets the rules exactly when none of its own is broken. */
  lemma RulesMeanNoBreak(ds: seq<Declared>, d: Declared)
    ensures GateRules(ds, d) <==> forall issue :: !Breaks(ds, d, issue)
  {
    if forall issue :: !Breaks(ds, d, issue) {
      var id := d.gate.id;
      assert !Breaks(ds, d, DuplicateDependency(id)) && !Breaks(ds, d, TargetedNotFull(id));
      forall dep | dep in d.gate.dependsOn ensures DependencyFits(ds, d, dep) {
        assert !Breaks(ds, d, UnknownDependency(id, dep));
        assert !Breaks(ds, d, TaskNeedsFull(id, dep)) && !Breaks(ds, d, TargetedNeedsReserved(id, dep));
      }
    }
  }

  method RepeatedDependency(xs: seq<string>) returns (repeated: bool)
    ensures repeated <==> !NoRepeat(xs)
  {
    var seen: set<string> := {};
    for i := 0 to |xs|
      invariant seen == set j | 0 <= j < i :: xs[j]
      invariant NoRepeat(xs[..i])
    {
      if xs[i] in seen {
        return true;
      }
      seen := seen + {xs[i]};
    }
    return false;
  }

  /** Which dependencies among the first `k` break a rule that the gate has to itself. */
  predicate FoundAmong(ds: seq<Declared>, d: Declared, issue: ConfigIssue, k: nat)
    requires k <= |d.gate.dependsOn|
  {
    match issue
    case UnknownDependency(_, dep) => Breaks(ds, d, issue) && dep in d.gate.dependsOn[..k]
    case TaskNeedsFull(_, dep) => Breaks(ds, d, issue) && dep in d.gate.dependsOn[..k]
    case TargetedNeedsReserved(_, dep) => Breaks(ds, d, issue) && dep in d.gate.dependsOn[..k]
    case _ => Breaks(ds, d, issue)
  }

  method UnknownIssues(ds: seq<Declared>, d: Declared) returns (issues: seq<ConfigIssue>)
    ensures forall x :: x in issues <==> x.UnknownDependency? && Breaks(ds, d, x)
  {
    issues := [];
    for i := 0 to |d.gate.dependsOn|
      invariant forall x :: x in issues <==> x.UnknownDependency? && FoundAmong(ds, d, x, i)
    {
      if FirstWith(ds, d.gate.dependsOn[i]) == |ds| {
        issues := issues + [UnknownDependency(d.gate.id, d.gate.dependsOn[i])];
      }
    }
  }

  /** At the task stage, dependencies that run only at the full one. */
  method TaskIssues(ds: seq<Declared>, d: Declared) returns (issues: seq<ConfigIssue>)
    requires !d.full
    ensures forall x :: x in issues <==> x.TaskNeedsFull? && Breaks(ds, d, x)
  {
    issues := [];
    for i := 0 to |d.gate.dependsOn|
      invariant forall x :: x in issues <==> x.TaskNeedsFull? && FoundAmong(ds, d, x, i)
    {
      var k := FirstWith(ds, d.gate.dependsOn[i]);
      if k < |ds| && ds[k].full {
        issues := issues + [TaskNeedsFull(d.gate.id, d.gate.dependsOn[i])];
      }
    }
  }

  /** Of a targeted variant, dependencies reserved for the full suite without a variant of their own. */
  method TargetedIssues(ds: seq<Declared>, d: Declared) returns (issues: seq<ConfigIssue>)
    requires d.affected
    ensures forall x :: x in issues <==> x.TargetedNeedsReserved? && Breaks(ds, d, x)
  {
    issues := [];
    for i := 0 to |d.gate.dependsOn|
      invariant forall x :: x in issues <==> x.TargetedNeedsReserved? && FoundAmong(ds, d, x, i)
    {
      var k := FirstWith(ds, d.gate.dependsOn[i]);
      if k < |ds| && ds[k].full && !ds[k].affected {
        issues := issues + [TargetedNeedsReserved(d.gate.id, d.gate.dependsOn[i])];
      }
    }
  }

  /** What the configuration's rules find wrong with one gate: exactly the rules it breaks. */
  method GateIssues(ds: seq<Declared>, d: Declared) returns (issues: seq<ConfigIssue>)
    ensures forall x :: x in issues <==> Breaks(ds, d, x)
  {
    var repeated := RepeatedDependency(d.gate.dependsOn);
    issues := if repeated then [DuplicateDependency(d.gate.id)] else [];
    var found := UnknownIssues(ds, d);
    issues := issues + found;
    if !d.full {
      found := TaskIssues(ds, d);
      issues := issues + found;
    }
    if d.affected {
      issues := issues + if d.full then [] else [TargetedNotFull(d.gate.id)];
      found := TargetedIssues(ds, d);
      issues := issues + found;
    }
  }

  /** What the rules find wrong with the list, leaving out the search for cycles. */
  predicate ListBreaks(ds: seq<Declared>, issue: ConfigIssue) {
    BreaksAmong(ds, |ds|, issue)
  }

  predicate BreaksAmong(ds: seq<Declared>, k: nat, issue: ConfigIssue)
    requires k <= |ds|
  {
    (issue == DuplicateId && !Unique(GatesOf(ds))) || exists i :: 0 <= i < k && Breaks(ds, ds[i], issue)
  }

  /** The broken rules, all of them; the search for cycles only where there are none. */
  method ConfigIssues(ds: seq<Declared>) returns (issues: seq<ConfigIssue>)
    ensures issues == [] <==> Accepted(ds)
    ensures forall x :: x in issues && x != Cycle <==> ListBreaks(ds, x)
    ensures Cycle in issues ==> issues == [Cycle]
  {
    var gates := GatesOf(ds);
    UniqueBySize(gates);
    issues := if |ById(gates)| == |gates| then [] else [DuplicateId];
    for i := 0 to |ds|
      invariant forall x :: x in issues <==> BreaksAmong(ds, i, x)
    {
      var found := GateIssues(ds, ds[i]);
      issues := issues + found;
    }
    assert forall x :: x in issues <==> ListBreaks(ds, x);
    if issues == [] {
      RulesHold(ds);
      RulesClose(ds);
      var ok := ValidateDag(gates);
      if !ok {
        issues := [Cycle];
      }
    } else {
      SomeRuleBroken(ds, issues[0]);
    }
  }

  lemma RulesHold(ds: seq<Declared>)
    requires forall x :: !ListBreaks(ds, x)
    ensures Unique(GatesOf(ds)) && forall i :: 0 <= i < |ds| ==> GateRules(ds, ds[i])
  {
    assert !ListBreaks(ds, DuplicateId);
    forall i | 0 <= i < |ds| ensures GateRules(ds, ds[i]) {
      forall x ensures !Breaks(ds, ds[i], x) {
        assert !ListBreaks(ds, x);
      }
      RulesMeanNoBreak(ds, ds[i]);
    }
  }

  lemma SomeRuleBroken(ds: seq<Declared>, issue: ConfigIssue)
    requires ListBreaks(ds, issue)
    ensures !Accepted(ds)
  {
    if i :| 0 <= i < |ds| && Breaks(ds, ds[i], issue) {
      RulesMeanNoBreak(ds, ds[i]);
    }
  }

  lemma RulesClose(ds: seq<Declared>)
    requires Unique(GatesOf(ds)) && forall i :: 0 <= i < |ds| ==> GateRules(ds, ds[i])
    ensures Closed(GateDeps(GatesOf(ds)))
  {
    var gates := GatesOf(ds);
    var g := GateDeps(gates);
    ByIdHasGates(gates);
    forall x, y | x in g && y in g[x] ensures y in g {
      var i :| 0 <= i < |gates| && gates[i] == ById(gates)[x];
      assert GateRules(ds, ds[i]) && DependencyFits(ds, ds[i], y);
      var k := FirstWith(ds, y);
      assert gates[k] in gates;
    }
  }

  // ------------------------------------------------------------------ parts of a configuration

  /** The gates whose ids are kept, in configuration order. */
  function Among(ds: seq<Declared>, ids: set<string>): (kept: seq<Declared>)
    ensures forall d :: d in kept <==> d in ds && d.gate.id in ids
  {
    if ds == [] then []
    else
      var rest := Among(ds[1..], ids);
      assert ds == [ds[0]] + ds[1..];
      if ds[0].gate.id in ids then [ds[0]] + rest else rest
  }

  lemma {:induction false} AmongTwice(ds: seq<Declared>, a: set<string>, b: set<string>)
    ensures Among(Among(ds, a), b) == Among(ds, a * b)
  {
    if ds != [] {
      AmongTwice(ds[1..], a, b);
      if ds[0].gate.id in a {
        assert Among(ds, a)[1..] == Among(ds[1..], a);
      }
    }
  }

  lemma {:induction false} AmongAll(ds: seq<Declared>, ids: set<string>)
    requires Ids(ds) <= ids
    ensures Among(ds, ids) == ds
  {
    if ds != [] {
      assert ds[0].gate.id in Ids(ds);
      assert Ids(ds[1..]) <= Ids(ds);
      AmongAll(ds[1..], ids);
    }
  }

  lemma {:induction false} AmongUnique(ds: seq<Declared>, ids: set<string>)
    requires Unique(GatesOf(ds))
    ensures Unique(GatesOf(Among(ds, ids)))
  {
    if ds != [] {
      var gates, kept := GatesOf(ds), GatesOf(Among(ds, ids));
      var rest := Among(ds[1..], ids);
      assert GatesOf(ds[1..]) == gates[1..];
      AmongUnique(ds[1..], ids);
      if ds[0].gate.id in ids {
        forall j | 0 < j < |kept| ensures kept[0].id != kept[j].id {
          assert rest[j - 1] in ds[1..];
          var k :| 0 <= k < |ds[1..]| && ds[1..][k] == rest[j - 1];
          assert gates[0].id != gates[k + 1].id;
        }
        assert forall j :: 0 < j < |kept| ==> kept[j] == GatesOf(rest)[j - 1];
      }
    }
  }

  /** Every dependency of a kept gate is kept. */
  predicate ClosedSet(ds: seq<Declared>, ids: set<string>) {
    forall d :: d in ds && d.gate.id in ids ==> forall dep :: dep in d.gate.dependsOn ==> dep in ids
  }

  /** What the scheduler demands of a gate list. */
  ghost predicate Schedulable(gates: seq<Gate>) {
    Unique(gates) && Closed(GateDeps(gates)) && Acyclic(GateDeps(gates))
  }

  lemma DeclaredOnce(ds: seq<Declared>, d: Declared, e: Declared)
    requires Unique(GatesOf(ds)) && d in ds && e in ds && d.gate.id == e.gate.id
    ensures d == e
  {
    var i :| 0 <= i < |ds| && ds[i] == d;
    var j :| 0 <= j < |ds| && ds[j] == e;
    assert GatesOf(ds)[i].id == GatesOf(ds)[j].id;
  }

  lemma GateOfDeclared(ds: seq<Declared>, d: Declared)
    requires d in ds
    ensures d.gate in GatesOf(ds)
  {
    var i :| 0 <= i < |ds| && ds[i] == d;
    assert GatesOf(ds)[i] == d.gate;
  }

  lemma DeclaredKeys(ds: seq<Declared>)
    ensures ById(GatesOf(ds)).Keys == Ids(ds)
  {
    var gates := GatesOf(ds);
    ByIdHasGates(gates);
    forall d | d in ds ensures d.gate.id in ById(gates) {
      GateOfDeclared(ds, d);
    }
    forall id | id in ById(gates) ensures id in Ids(ds) {
      var i :| 0 <= i < |gates| && gates[i] == ById(gates)[id];
      assert ds[i].gate.id == id;
    }
  }

  lemma UniqueDeclared(ds: seq<Declared>)
    requires Unique(GatesOf(ds))
    ensures GateDeps(GatesOf(ds)).Keys == Ids(ds)
    ensures forall d :: d in ds ==> GateDeps(GatesOf(ds))[d.gate.id] == d.gate.dependsOn
    ensures forall d, e :: d in ds && e in ds && d.gate.id == e.gate.id ==> d == e
  {
    DeclaredKeys(ds);
    UniqueById(GatesOf(ds));
    forall d | d in ds ensures GateDeps(GatesOf(ds))[d.gate.id] == d.gate.dependsOn {
      GateOfDeclared(ds, d);
    }
    forall d, e | d in ds && e in ds && d.gate.id == e.gate.id ensures d == e {
      DeclaredOnce(ds, d, e);
    }
  }

  lemma SubgraphReaches(g: Graph, h: Graph, x: string, y: string)
    requires (forall z :: z in h ==> z in g && h[z] == g[z]) && Reaches(h, x, y)
    ensures Reaches(g, x, y)
  {
    var p :| Path(h, p) && p[0] == x && p[|p| - 1] == y;
    forall i | 0 <= i < |p| - 1 ensures Edge(g, p[i], p[i + 1]) {
      assert Edge(h, p[i], p[i + 1]);
    }
    assert Path(g, p);
  }

  /** A closed part of an accepted configuration meets the scheduler's demands. */
  lemma ClosedPartSchedulable(ds: seq<Declared>, ids: set<string>)
    requires Accepted(ds) && ClosedSet(ds, ids)
    ensures Schedulable(GatesOf(Among(ds, ids)))
  {
    var part := Among(ds, ids);
    var g, h := GateDeps(GatesOf(ds)), GateDeps(GatesOf(part));
    AmongUnique(ds, ids);
    UniqueDeclared(ds);
    UniqueDeclared(part);
    forall x | x in h ensures x in g && h[x] == g[x] && x in ids {
      var d :| d in part && d.gate.id == x;
      assert d in ds;
    }
    RulesClose(ds);
    forall x, y | x in h && y in h[x] ensures y in h {
      var d :| d in part && d.gate.id == x;
      assert y in d.gate.dependsOn && y in ids && y in g;
      var e :| e in ds && e.gate.id == y;
      assert e in part;
    }
    forall x ensures !Reaches(h, x, x) {
      if Reaches(h, x, x) {
        SubgraphReaches(g, h, x, x);
      }
    }
  }

  // ------------------------------------------------------------------ selection

  /** The asked gates and everything they depend on. */
  ghost predicate Chosen(ds: seq<Declared>, only: seq<string>, id: string) {
    id in Ids(ds) && (only == [] || id in only || exists x :: x in only && Reaches(GateDeps(GatesOf(ds)), x, id))
  }

  ghost function ChosenIds(ds: seq<Declared>, only: seq<string>): set<string> {
    set id | id in Ids(ds) && Chosen(ds, only, id)
  }

  /** The recursive growth of the chosen set. */
  class Selector {
    const deps: Graph
    var chosen: set<string>

    constructor (deps: Graph)
      ensures this.deps == deps && chosen == {}
    {
      this.deps := deps;
      chosen := {};
    }

    method Include(id: string)
      requires Closed(deps) && id in deps && chosen <= deps.Keys
      modifies this
      ensures old(chosen) <= chosen <= deps.Keys && id in chosen
      ensures forall x :: x in chosen - old(chosen) ==> x == id || Reaches(deps, id, x)
      ensures forall x, y :: x in chosen - old(chosen) && y in deps[x] ==> y in chosen
      decreases deps.Keys - chosen
    {
      if id in chosen {
        return;
      }
      chosen := chosen + {id};
      for i := 0 to |deps[id]|
        invariant old(chosen) + {id} <= chosen <= deps.Keys
        invariant forall j :: 0 <= j < i ==> deps[id][j] in chosen
        invariant forall x :: x in chosen - old(chosen) ==> x == id || Reaches(deps, id, x)
        invariant forall x, y :: x in chosen - old(chosen) - {id} && y in deps[x] ==> y in chosen
      {
        var dep := deps[id][i];
        EdgeReaches(deps, id, dep);
        ghost var before := chosen;
        Include(dep);
        forall x | x in chosen - before ensures Reaches(deps, id, x) {
          if x != dep {
            ReachesJoin(deps, id, dep, x);
          }
        }
      }
    }
  }

  lemma {:induction false} ReachesJoin(g: Graph, x: string, y: string, z: string)
    requires Reaches(g, x, y) && Reaches(g, y, z)
    ensures Reaches(g, x, z)
  {
    var p :| Path(g, p) && p[0] == x && p[|p| - 1] == y;
    var q :| Path(g, q) && q[0] == y && q[|q| - 1] == z;
    var r := p + q[1..];
    forall i | 0 <= i < |r| - 1 ensures Edge(g, r[i], r[i + 1]) {
      if i < |p| - 1 {
        assert Edge(g, p[i], p[i + 1]);
      } else {
        assert Edge(g, q[i - (|p| - 1)], q[i - (|p| - 1) + 1]);
      }
    }
    assert Path(g, r);
  }

  lemma {:induction false} ClosedHoldsPath(g: Graph, s: set<string>, p: seq<string>)
    requires Path(g, p) && p[0] in s && forall x, y :: x in s && x in g && y in g[x] ==> y in s
    ensures p[|p| - 1] in s
    decreases |p|
  {
    assert Edge(g, p[0], p[1]);
    if |p| > 2 {
      forall i | 0 <= i < |p[1..]| - 1 ensures Edge(g, p[1..][i], p[1..][i + 1]) {
        assert Edge(g, p[i + 1], p[i + 2]);
      }
      ClosedHoldsPath(g, s, p[1..]);
    }
  }

  /** The chosen set is the least that holds the asked gates and is closed under dependencies. */
  lemma ChosenIsLeast(ds: seq<Declared>, only: seq<string>, s: set<string>)
    requires Accepted(ds) && only != [] && (forall x :: x in only ==> x in Ids(ds))
    ensures (forall x :: x in only ==> x in ChosenIds(ds, only)) && ClosedSet(ds, ChosenIds(ds, only))
    ensures (forall x :: x in only ==> x in s) && ClosedSet(ds, s) ==> ChosenIds(ds, only) <= s
  {
    var g := GateDeps(GatesOf(ds));
    UniqueDeclared(ds);
    RulesClose(ds);
    forall d, dep | d in ds && Chosen(ds, only, d.gate.id) && dep in d.gate.dependsOn ensures Chosen(ds, only, dep) {
      assert Edge(g, d.gate.id, dep);
      EdgeReaches(g, d.gate.id, dep);
      if d.gate.id !in only {
        var x :| x in only && Reaches(g, x, d.gate.id);
        ReachesFurther(g, x, d.gate.id, dep);
      }
    }
    if (forall x :: x in only ==> x in s) && ClosedSet(ds, s) {
      forall id | Chosen(ds, only, id) ensures id in s {
        if id !in only {
          var x :| x in only && Reaches(g, x, id);
          var p :| Path(g, p) && p[0] == x && p[|p| - 1] == id;
          forall z, y | z in s && z in g && y in g[z] ensures y in s {
            var d :| d in ds && d.gate.id == z;
          }
          ClosedHoldsPath(g, s, p);
        }
      }
    }
  }

  lemma ChosenClosed(ds: seq<Declared>, only: seq<string>)
    requires Accepted(ds) && forall x :: x in only ==> x in Ids(ds)
    ensures ClosedSet(ds, ChosenIds(ds, only))
  {
    if only == [] {
      forall d, dep | d in ds && dep in d.gate.dependsOn ensures dep in Ids(ds) {
        var i :| 0 <= i < |ds| && ds[i] == d;
        assert GateRules(ds, ds[i]) && DependencyFits(ds, ds[i], dep);
        assert ds[FirstWith(ds, dep)] in ds;
      }
    } else {
      ChosenIsLeast(ds, only, {});
    }
  }

  datatype Selection = Selection(gates: seq<Declared>, added: set<string>)

  /** Refuses an unknown id; otherwise the chosen gates in configuration order, and those nobody asked for. */
  method SelectGates(ds: seq<Declared>, only: seq<string>) returns (r: Result<Selection, set<string>>)
    requires Accepted(ds)
    ensures r.Ok? <==> forall x :: x in only ==> x in Ids(ds)
    ensures r.Ok? ==> r.value.gates == Among(ds, ChosenIds(ds, only))
    ensures r.Ok? ==> r.value.added == if only == [] then {} else ChosenIds(ds, only) - set x | x in only
    ensures r.Err? ==> r.error == set x | x in only && x !in Ids(ds)
  {
    if only == [] {
      assert ChosenIds(ds, only) == Ids(ds);
      AmongAll(ds, Ids(ds));
      return Ok(Selection(ds, {}));
    }
    var unknown := set x | x in only && x !in Ids(ds);
    if unknown != {} {
      var x :| x in unknown;
      return Err(unknown);
    }
    forall x | x in only ensures x in Ids(ds) {
      assert x !in unknown;
    }
    UniqueDeclared(ds);
    RulesClose(ds);
    var selector := new Selector(GateDeps(GatesOf(ds)));
    for i := 0 to |only|
      invariant selector.chosen <= selector.deps.Keys
      invariant forall j :: 0 <= j < i ==> only[j] in selector.chosen
      invariant forall x :: x in selector.chosen ==> Chosen(ds, only, x)
      invariant forall x, y :: x in selector.chosen && y in selector.deps[x] ==> y in selector.chosen
    {
      assert only[i] in only && only[i] in Ids(ds);
      selector.Include(only[i]);
    }
    var chosen := selector.chosen;
    ChosenIsLeast(ds, only, chosen);
    assert chosen == ChosenIds(ds, only);
    return Ok(Selection(Among(ds, chosen), chosen - set x | x in only));
  }

  // ------------------------------------------------------------------ stage

  datatype Stage = Task | Full

  /** A gate runs at the stage: every gate at the full one, at the task one its own and the targeted variants. */
  predicate RunsAt(d: Declared, stage: Stage) {
    stage.Full? || !d.full || d.affected
  }

  function StagedIds(ds: seq<Declared>, ids: set<string>, stage: Stage): set<string> {
    set d | d in ds && d.gate.id in ids && RunsAt(d, stage) :: d.gate.id
  }

  /** The three lists of a stage: run, run targeted, and reserved for the full suite. */
  function StageGates(ds: seq<Declared>, stage: Stage): (seq<Declared>, seq<Declared>, seq<Declared>) {
    if stage.Full? then (ds, [], [])
    else (Where(ds, (d: Declared) => !d.full), Where(ds, (d: Declared) => d.full && d.affected),
          Where(ds, (d: Declared) => d.full && !d.affected))
  }

  function Where(ds: seq<Declared>, p: Declared -> bool): (kept: seq<Declared>)
    ensures forall d :: d in kept <==> d in ds && p(d)
  {
    if ds == [] then []
    else
      var rest := Where(ds[1..], p);
      assert ds == [ds[0]] + ds[1..];
      if p(ds[0]) then [ds[0]] + rest else rest
  }

  /** Each selected gate is in exactly one of the three lists, and runs unless it is reserved. */
  lemma StageDivides(ds: seq<Declared>, stage: Stage, d: Declared)
    requires d in ds
    ensures var (run, targeted, reserved) := StageGates(ds, stage);
            && (d in run || d in targeted || d in reserved)
            && !(d in run && d in targeted) && !(d in run && d in reserved) && !(d in targeted && d in reserved)
            && (RunsAt(d, stage) <==> d in run || d in targeted)
  {
  }

  lemma StagedClosed(ds: seq<Declared>, ids: set<string>, stage: Stage)
    requires Accepted(ds) && ClosedSet(ds, ids)
    ensures ClosedSet(ds, StagedIds(ds, ids, stage))
  {
    forall d, dep | d in ds && d.gate.id in StagedIds(ds, ids, stage) && dep in d.gate.dependsOn
      ensures dep in StagedIds(ds, ids, stage)
    {
      UniqueDeclared(ds);
      var i :| 0 <= i < |ds| && ds[i] == d;
      assert GateRules(ds, ds[i]) && DependencyFits(ds, ds[i], dep);
      var k := FirstWith(ds, dep);
      assert MayDepend(d, ds[k]) && ds[k] in ds;
    }
  }
}
