/**
 The dependency rules of a spec: the depth-first search that reports cycles and missing dependencies, and
 the ordering of the tasks, which searches again without watching for cycles.
 */
module TaskGraph {
  import opened Graphs
  import opened Options

  type Task = Node

  datatype Issue =
    | DuplicateId(id: string)
    | Cycle(id: string)
    | Missing(id: string, requiredBy: string)

  /** An issue says something true about the graph. */
  ghost predicate Genuine(g: Graph, issue: Issue) {
    match issue
    case DuplicateId(_) => true
    case Cycle(id) => Reaches(g, id, id)
    case Missing(id, from) => Edge(g, from, id) && id !in g
  }

  ghost predicate MissingTold(issues: seq<Issue>, id: string) {
    exists from :: Missing(id, from) in issues
  }

  /** What an issue is filed under: a cycle and a missing task are each told once. */
  function KeyOf(issue: Issue): Issue {
    if issue.Missing? then Missing(issue.id, "") else issue
  }

  predicate ToldOnce(issues: seq<Issue>) {
    forall i, j :: 0 <= i < j < |issues| ==> KeyOf(issues[i]) != KeyOf(issues[j])
  }

  /** A numbering that descends along every dependency but the missing and those into a task told to be on a cycle. */
  ghost predicate RankedBut(g: Graph, issues: seq<Issue>, rank: map<string, nat>) {
    forall x, y :: x in rank && Edge(g, x, y) ==>
      Cycle(y) in issues || MissingTold(issues, y) || (y in rank && rank[y] < rank[x])
  }

  class DependencyCheck {
    const tasks: Graph
    var visiting: set<string>
    var done: set<string>
    var reported: set<Issue>
    var issues: seq<Issue>
    ghost var finish: map<string, nat>
    ghost var stamp: nat

    constructor (tasks: seq<Task>)
      ensures this.tasks == GraphOf(tasks) && Valid()
      ensures visiting == {} && done == {} && issues == []
    {
      this.tasks := GraphOf(tasks);
      visiting, done, reported, issues := {}, {}, {}, [];
      finish, stamp := map[], 0;
    }

    /** What is done finished after its dependencies, but for those an issue tells of. */
    ghost predicate Valid()
      reads this
    {
      && visiting <= tasks.Keys && visiting !! done
      && (forall issue :: issue in issues ==> Genuine(tasks, issue) && !issue.DuplicateId?)
      && (forall issue :: issue in issues ==> KeyOf(issue) in reported)
      && (forall key :: key in reported ==> exists issue :: issue in issues && KeyOf(issue) == key)
      && ToldOnce(issues)
      && done <= tasks.Keys && finish.Keys == done && (forall x :: x in done ==> finish[x] < stamp)
      && RankedBut(tasks, issues, finish)
    }

    method Once(key: Issue, issue: Issue)
      requires Valid() && Genuine(tasks, issue) && !issue.DuplicateId? && key == KeyOf(issue)
      modifies this`reported, this`issues
      ensures Valid() && old(issues) <= issues
      ensures exists told :: told in issues && KeyOf(told) == key
      ensures issues == if old(key in reported) then old(issues) else old(issues) + [issue]
    {
      if key !in reported {
        reported := reported + {key};
        issues := issues + [issue];
        assert issue in issues;
        assert forall told :: told in old(issues) ==> told in issues;
      }
    }

    /** The visit of a dependency leaves it done, or told of. */
    ghost predicate Settled(id: string)
      reads this
    {
      id in done || Cycle(id) in issues || MissingTold(issues, id)
    }

    method Visit(id: string, from: string)
      requires Valid()
      requires id in tasks || Edge(tasks, from, id)
      requires forall v :: v in visiting ==> Reaches(tasks, v, id)
      modifies this
      ensures Valid() && visiting == old(visiting) && old(done) <= done && old(issues) <= issues
      ensures Settled(id) && (id in tasks && id !in visiting ==> id in done)
      decreases tasks.Keys - visiting
    {
      hide Reaches;
      if id in done {
        return;
      }
      if id in visiting {
        Once(Cycle(id), Cycle(id));
        return;
      }
      if id !in tasks {
        Once(Missing(id, ""), Missing(id, from));
        return;
      }
      visiting := visiting + {id};
      for i := 0 to |tasks[id]|
        invariant Valid() && visiting == old(visiting) + {id} && old(done) <= done && old(issues) <= issues
        invariant forall j :: 0 <= j < i ==> Settled(tasks[id][j])
      {
        var dep := tasks[id][i];
        EdgeReaches(tasks, id, dep);
        forall v | v in old(visiting) ensures Reaches(tasks, v, dep) {
          ReachesFurther(tasks, v, id, dep);
        }
        Visit(dep, id);
      }
      Leave(id);
    }

    method Leave(id: string)
      requires Valid() && id in visiting
      requires forall dep :: dep in tasks[id] ==> Settled(dep)
      modifies this`visiting, this`done, this`finish, this`stamp
      ensures Valid() && visiting == old(visiting) - {id} && done == old(done) + {id} && issues == old(issues)
    {
      visiting := visiting - {id};
      finish, stamp := finish[id := stamp], stamp + 1;
      done := done + {id};
    }
  }

  /** Every task on a cycle reaches, and is reached from, one that is told to be on a cycle. */
  ghost predicate CyclesTold(g: Graph, issues: seq<Issue>) {
    forall x :: Reaches(g, x, x) ==> exists c :: Cycle(c) in issues && Reaches(g, x, c) && Reaches(g, c, x)
  }

  /** Along a path the numbers descend, or a task on the way is told to be on a cycle. */
  lemma {:induction false} PathDescendsBut(g: Graph, issues: seq<Issue>, rank: map<string, nat>, p: seq<string>)
    requires RankedBut(g, issues, rank) && rank.Keys == g.Keys && Path(g, p) && p[|p| - 1] in g
    requires forall y :: MissingTold(issues, y) ==> y !in g
    ensures (exists k :: 0 < k < |p| && Cycle(p[k]) in issues) || (p[0] in rank && rank[p[|p| - 1]] < rank[p[0]])
    decreases |p|
  {
    assert Edge(g, p[0], p[1]);
    if |p| > 2 && Cycle(p[1]) !in issues {
      forall i | 0 <= i < |p[1..]| - 1 ensures Edge(g, p[1..][i], p[1..][i + 1]) {
        assert Edge(g, p[i + 1], p[i + 2]);
      }
      PathDescendsBut(g, issues, rank, p[1..]);
      if k :| 0 < k < |p[1..]| && Cycle(p[1..][k]) in issues {
        assert Cycle(p[k + 1]) in issues;
      }
    }
  }

  lemma PathParts(g: Graph, p: seq<string>, k: nat)
    requires Path(g, p) && 0 < k < |p|
    ensures Reaches(g, p[0], p[k]) && (k < |p| - 1 ==> Reaches(g, p[k], p[|p| - 1]))
  {
    var head, tail := p[..k + 1], p[k..];
    forall i | 0 <= i < |head| - 1 ensures Edge(g, head[i], head[i + 1]) {
      assert Edge(g, p[i], p[i + 1]);
    }
    assert Path(g, head);
    if k < |p| - 1 {
      forall i | 0 <= i < |tail| - 1 ensures Edge(g, tail[i], tail[i + 1]) {
        assert Edge(g, p[k + i], p[k + i + 1]);
      }
      assert Path(g, tail);
    }
  }

  lemma RankedButTells(g: Graph, issues: seq<Issue>, rank: map<string, nat>)
    requires RankedBut(g, issues, rank) && rank.Keys == g.Keys
    requires forall y :: MissingTold(issues, y) ==> y !in g
    ensures CyclesTold(g, issues)
  {
    forall x | Reaches(g, x, x) ensures exists c :: Cycle(c) in issues && Reaches(g, x, c) && Reaches(g, c, x) {
      var p :| Path(g, p) && p[0] == x && p[|p| - 1] == x;
      assert Edge(g, p[0], p[1]);
      PathDescendsBut(g, issues, rank, p);
      var k :| 0 < k < |p| && Cycle(p[k]) in issues;
      PathParts(g, p, k);
    }
  }

  lemma OnCycleIsKnown(g: Graph, x: string)
    requires Reaches(g, x, x)
    ensures x in g
  {
    var p :| Path(g, p) && p[0] == x && p[|p| - 1] == x;
    assert Edge(g, p[0], p[1]);
  }

  lemma MissingAllTold(g: Graph, issues: seq<Issue>, rank: map<string, nat>)
    requires RankedBut(g, issues, rank) && rank.Keys == g.Keys
    requires forall issue :: issue in issues ==> Genuine(g, issue)
    ensures forall x, y :: Edge(g, x, y) && y !in g ==> MissingTold(issues, y)
    ensures forall y :: MissingTold(issues, y) ==> y !in g
  {
    hide Reaches;
    forall x, y | Edge(g, x, y) && y !in g ensures MissingTold(issues, y) {
      if Cycle(y) in issues {
        assert Genuine(g, Cycle(y));
        OnCycleIsKnown(g, y);
      }
    }
  }

  /** What the search leaves when every task is done: all there is to tell. */
  lemma AllTold(g: Graph, issues: seq<Issue>, rank: map<string, nat>)
    requires RankedBut(g, issues, rank) && rank.Keys == g.Keys
    requires forall issue :: issue in issues ==> Genuine(g, issue) && !issue.DuplicateId?
    ensures CyclesTold(g, issues)
    ensures forall x, y :: Edge(g, x, y) && y !in g ==> MissingTold(issues, y)
    ensures issues == [] <==> Closed(g) && Acyclic(g)
    ensures issues == [] ==> Ranked(g, rank)
  {
    hide Reaches;
    hide CyclesTold;
    MissingAllTold(g, issues, rank);
    RankedButTells(g, issues, rank);
    if issues == [] {
      assert forall x, y :: x in g && y in g[x] ==> Edge(g, x, y);
      RankedIsAcyclic(g, rank);
    } else {
      assert issues[0] in issues && Genuine(g, issues[0]);
    }
  }

  /**
   Every missing dependency once, and of every cycle some task that shares it, each once and truly; so none is found
   exactly when the graph is closed and acyclic.
   */
  method DependencyIssues(tasks: seq<Task>) returns (issues: seq<Issue>)
    ensures issues == [] <==> Closed(GraphOf(tasks)) && Acyclic(GraphOf(tasks))
    ensures forall x, y :: Edge(GraphOf(tasks), x, y) && y !in GraphOf(tasks) ==> MissingTold(issues, y)
    ensures CyclesTold(GraphOf(tasks), issues) && ToldOnce(issues)
    ensures issues == [] ==> exists rank :: Ranked(GraphOf(tasks), rank)
    ensures forall issue :: issue in issues ==> Genuine(GraphOf(tasks), issue) && !issue.DuplicateId?
  {
    hide Reaches;
    hide Genuine;
    hide CyclesTold;
    hide ToldOnce;
    hide Acyclic;
    hide Closed;
    var check := new DependencyCheck(tasks);
    var g := check.tasks;
    GraphHasNodes(tasks);
    for i := 0 to |tasks|
      invariant check.Valid() && check.visiting == {}
      invariant forall j :: 0 <= j < i ==> tasks[j].id in check.done
    {
      assert tasks[i] in tasks;
      check.Visit(tasks[i].id, tasks[i].id);
    }
    issues := check.issues;
    assert check.finish.Keys == g.Keys;
    AllTold(g, issues, check.finish);
  }

  // ------------------------------------------------------------- ordering

  /** The first task with an id, as `find` returns it. */
  function Find(tasks: seq<Task>, id: string): (task: Task)
    requires exists t :: t in tasks && t.id == id
    ensures task in tasks && task.id == id
  {
    if tasks[0].id == id then tasks[0] else Find(tasks[1..], id)
  }

  /** Distinct tasks, each after the tasks it depends on. */
  predicate InOrder(tasks: seq<Task>) {
    && UniqueIds(tasks)
    && forall i, d :: 0 <= i < |tasks| && d in tasks[i].dependsOn ==> exists j :: 0 <= j < i && tasks[j].id == d
  }

  lemma SnocInOrder(tasks: seq<Task>, task: Task)
    requires InOrder(tasks)
    requires forall j :: 0 <= j < |tasks| ==> tasks[j].id != task.id
    requires forall d :: d in task.dependsOn ==> exists j :: 0 <= j < |tasks| && tasks[j].id == d
    ensures InOrder(tasks + [task])
  {
    var longer := tasks + [task];
    forall i, d | 0 <= i < |longer| && d in longer[i].dependsOn
      ensures exists j :: 0 <= j < i && longer[j].id == d
    {
      if i < |tasks| {
        var j :| 0 <= j < i && tasks[j].id == d;
        assert longer[j].id == d;
      } else {
        var j :| 0 <= j < |tasks| && tasks[j].id == d;
        assert longer[j].id == d;
      }
    }
  }

  class Ordering {
    const tasks: seq<Task>
    var done: set<string>
    var ordered: seq<Task>

    constructor (tasks: seq<Task>)
      ensures this.tasks == tasks && Valid() && ordered == []
    {
      this.tasks := tasks;
      done, ordered := {}, [];
    }

    ghost predicate Valid()
      reads this
    {
      && InOrder(ordered)
      && (forall t :: t in ordered ==> t in tasks)
      && (forall x :: x in done <==> exists i :: 0 <= i < |ordered| && ordered[i].id == x)
    }

    /** No set of tasks being visited: the search ends because dependencies rank below their dependents. */
    method Visit(id: string, ghost rank: map<string, nat>)
      requires Valid() && UniqueIds(tasks) && Ranked(GraphOf(tasks), rank) && id in GraphOf(tasks)
      modifies this
      ensures Valid() && old(done) <= done && id in done
      ensures forall x :: x in done - old(done) ==> x in rank && rank[x] <= rank[id]
      decreases rank[id]
    {
      if id in done {
        return;
      }
      GraphHasNodes(tasks);
      var task := Find(tasks, id);
      for i := 0 to |task.dependsOn|
        invariant Valid() && old(done) <= done
        invariant forall j :: 0 <= j < i ==> task.dependsOn[j] in done
        invariant forall x :: x in done - old(done) ==> x in rank && rank[x] < rank[id]
      {
        Visit(task.dependsOn[i], rank);
      }
      Append(task);
    }

    method Append(task: Task)
      requires Valid() && task in tasks && task.id !in done
      requires forall d :: d in task.dependsOn ==> d in done
      modifies this
      ensures Valid() && done == old(done) + {task.id} && ordered == old(ordered) + [task]
    {
      SnocInOrder(ordered, task);
      ghost var before := ordered;
      done := done + {task.id};
      ordered := ordered + [task];
      assert ordered[|before|] == task;
      assert forall i :: 0 <= i < |before| ==> ordered[i] == before[i];
    }
  }

  lemma {:induction false} SameTasks(a: seq<Task>, b: seq<Task>)
    requires UniqueIds(a) && UniqueIds(b) && forall t :: t in a <==> t in b
    ensures multiset(a) == multiset(b)
  {
    forall t ensures multiset(a)[t] == multiset(b)[t] {
      CountsOnce(a, t);
      CountsOnce(b, t);
    }
  }

  lemma {:induction false} CountsOnce(a: seq<Task>, t: Task)
    requires UniqueIds(a)
    ensures multiset(a)[t] == if t in a then 1 else 0
  {
    if a != [] {
      CountsOnce(a[1..], t);
      assert a == [a[0]] + a[1..];
    }
  }

  /** Tasks of the list, once each and each of them found by its id, are the list in another order. */
  lemma AllOrdered(tasks: seq<Task>, ordered: seq<Task>)
    requires UniqueIds(tasks) && UniqueIds(ordered) && forall t :: t in ordered ==> t in tasks
    requires forall t :: t in tasks ==> exists i :: 0 <= i < |ordered| && ordered[i].id == t.id
    ensures multiset(ordered) == multiset(tasks)
  {
    forall t | t in tasks ensures t in ordered {
      var i :| 0 <= i < |ordered| && ordered[i].id == t.id;
      assert ordered[i] in tasks;
    }
    SameTasks(ordered, tasks);
  }

  /** The visits of all tasks in list order. */
  method Ordered(tasks: seq<Task>, ghost rank: map<string, nat>) returns (ordered: seq<Task>)
    requires UniqueIds(tasks) && Ranked(GraphOf(tasks), rank)
    ensures multiset(ordered) == multiset(tasks) && InOrder(ordered)
  {
    GraphHasNodes(tasks);
    var ordering := new Ordering(tasks);
    for i := 0 to |tasks|
      invariant ordering.Valid()
      invariant forall j :: 0 <= j < i ==> tasks[j].id in ordering.done
    {
      assert tasks[i] in tasks;
      ordering.Visit(tasks[i].id, rank);
    }
    AllOrdered(tasks, ordering.ordered);
    ordered := ordering.ordered;
  }

  /** Validates, then orders: the tasks, each once and after all its dependencies, or the first issue found. */
  method TaskOrder(tasks: seq<Task>) returns (r: Result<seq<Task>, Issue>)
    ensures r.Ok? <==> UniqueIds(tasks) && Closed(GraphOf(tasks)) && Acyclic(GraphOf(tasks))
    ensures r.Ok? ==> multiset(r.value) == multiset(tasks) && InOrder(r.value)
    ensures r.Err? ==>
              if UniqueIds(tasks) then !r.error.DuplicateId? && Genuine(GraphOf(tasks), r.error)
              else
                && r.error.DuplicateId?
                && exists i, j :: 0 <= i < j < |tasks| && tasks[i].id == tasks[j].id == r.error.id
  {
    for k := 0 to |tasks|
      invariant forall i, j :: 0 <= i < j < k ==> tasks[i].id != tasks[j].id
    {
      if exists i :: 0 <= i < k && tasks[i].id == tasks[k].id {
        return Err(DuplicateId(tasks[k].id));
      }
    }
    hide Genuine;
    hide Closed;
    hide Acyclic;
    hide CyclesTold;
    hide ToldOnce;
    var issues := DependencyIssues(tasks);
    if issues != [] {
      return Err(issues[0]);
    }
    ghost var rank :| Ranked(GraphOf(tasks), rank);
    hide Ranked;
    var ordered := Ordered(tasks, rank);
    r := Ok(ordered);
  }
}
