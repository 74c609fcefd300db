/** A full suite dealt to several stacks, and the groups that run side by side. */
module GateSpread {
  import opened Options
  import opened GateGraph
  import opened GateSelection
  import opened GateScope

  datatype Copy = Copy(stack: string, gates: seq<string>)

  /** Neither waits for a gate nor is waited for. */
  predicate Movable(ds: seq<Declared>, d: Declared) {
    d.gate.dependsOn == [] && forall e :: e in ds ==> d.gate.id !in e.gate.dependsOn
  }

  /** Movable gates of a stack among the first `k`. */
  function Dealt(ds: seq<Declared>, k: nat): nat
    requires k <= |ds|
  {
    if k == 0 then 0 else Dealt(ds, k - 1) + if ds[k - 1].onStack && Movable(ds, ds[k - 1]) then 1 else 0
  }

  /** The stack of a stack's gate: movable ones in turn, the others on the first. */
  function StackFor(ds: seq<Declared>, stacks: seq<string>, k: nat): string
    requires k < |ds| && stacks != []
  {
    if Movable(ds, ds[k]) then stacks[Dealt(ds, k) % |stacks|] else stacks[0]
  }

  /** The places before `k` of a stack's gates that have no dependency and no dependent. */
  function FreeBefore(ds: seq<Declared>, k: nat): set<nat>
    requires k <= |ds|
  {
    set i: nat | i < k && ds[i].onStack && ds[i].gate.dependsOn == []
                 && forall j :: 0 <= j < |ds| ==> ds[i].gate.id !in ds[j].gate.dependsOn
  }

  lemma {:induction false} DealtIsFree(ds: seq<Declared>, k: nat)
    requires k <= |ds|
    ensures Dealt(ds, k) == |FreeBefore(ds, k)|
  {
    if k == 0 {
      assert FreeBefore(ds, 0) == {};
    } else {
      DealtIsFree(ds, k - 1);
      if ds[k - 1].onStack && Movable(ds, ds[k - 1]) {
        assert forall j :: 0 <= j < |ds| ==> ds[j] in ds;
        assert FreeBefore(ds, k) == FreeBefore(ds, k - 1) + {k - 1};
      } else {
        assert FreeBefore(ds, k) == FreeBefore(ds, k - 1);
      }
    }
  }

  /**
   A gate without dependency or dependent goes to the stack whose place is the number of such gates before it,
   modulo the number of stacks; every other gate stays on the first.
   */
  lemma PlacedExactly(ds: seq<Declared>, stacks: seq<string>, k: nat)
    requires k < |ds| && stacks != []
    ensures StackFor(ds, stacks, k) ==
            if ds[k].gate.dependsOn == [] && forall j :: 0 <= j < |ds| ==> ds[k].gate.id !in ds[j].gate.dependsOn
            then stacks[|FreeBefore(ds, k)| % |stacks|] else stacks[0]
  {
    DealtIsFree(ds, k);
    assert forall j :: 0 <= j < |ds| ==> ds[j] in ds;
  }

  predicate InCopy(copies: seq<Copy>, stack: string, id: string) {
    exists c :: 0 <= c < |copies| && copies[c].stack == stack && id in copies[c].gates
  }

  /** The gate runs in the copy of a stack other than the first. */
  predicate MovedBefore(ds: seq<Declared>, stacks: seq<string>, k: nat, stack: string, id: string)
    requires k <= |ds| && stacks != []
  {
    exists i :: 0 <= i < k && ds[i].onStack && ds[i].gate.id == id && StackFor(ds, stacks, i) == stack != stacks[0]
  }

  predicate OneCopyEach(copies: seq<Copy>) {
    forall c, e :: 0 <= c < e < |copies| ==> copies[c].stack != copies[e].stack
  }

  /** The copy of this stack gets one more gate, made first if there is none. */
  function WithGate(copies: seq<Copy>, stack: string, id: string): seq<Copy> {
    if copies == [] then [Copy(stack, [id])]
    else if copies[0].stack == stack then [Copy(stack, copies[0].gates + [id])] + copies[1..]
    else [copies[0]] + WithGate(copies[1..], stack, id)
  }

  lemma {:induction false} WithGateHolds(copies: seq<Copy>, stack: string, id: string, s: string, x: string)
    ensures InCopy(WithGate(copies, stack, id), s, x) <==> InCopy(copies, s, x) || (s == stack && x == id)
  {
    var more := WithGate(copies, stack, id);
    if copies == [] {
      assert more[0] == Copy(stack, [id]);
    } else if copies[0].stack == stack {
      assert more[0].gates == copies[0].gates + [id];
      assert forall c :: 0 < c < |copies| ==> more[c] == copies[c];
    } else {
      var rest := copies[1..];
      WithGateHolds(rest, stack, id, s, x);
      assert more[1..] == WithGate(rest, stack, id);
      ConsHolds(copies, s, x);
      ConsHolds(more, s, x);
    }
  }

  lemma ConsHolds(copies: seq<Copy>, s: string, x: string)
    requires copies != []
    ensures InCopy(copies, s, x) <==> (copies[0].stack == s && x in copies[0].gates) || InCopy(copies[1..], s, x)
  {
    if InCopy(copies[1..], s, x) {
      var c :| 0 <= c < |copies[1..]| && copies[1..][c].stack == s && x in copies[1..][c].gates;
      assert copies[c + 1].stack == s && x in copies[c + 1].gates;
    }
    if c :| 0 < c < |copies| && copies[c].stack == s && x in copies[c].gates {
      assert copies[1..][c - 1] == copies[c];
    }
  }

  predicate HasStack(copies: seq<Copy>, stack: string) {
    exists c :: 0 <= c < |copies| && copies[c].stack == stack
  }

  lemma {:induction false} WithGateStacks(copies: seq<Copy>, stack: string, id: string, s: string)
    ensures HasStack(WithGate(copies, stack, id), s) ==> s == stack || HasStack(copies, s)
  {
    var more := WithGate(copies, stack, id);
    if HasStack(more, s) && s != stack {
      var e :| 0 <= e < |more| && more[e].stack == s;
      if copies != [] && copies[0].stack == stack {
        assert copies[e].stack == s;
      } else if copies != [] {
        if e == 0 {
          assert copies[0].stack == s;
        } else {
          assert WithGate(copies[1..], stack, id)[e - 1].stack == s;
          WithGateStacks(copies[1..], stack, id, s);
          var c :| 0 <= c < |copies[1..]| && copies[1..][c].stack == s;
          assert copies[c + 1].stack == s;
        }
      }
    }
  }

  lemma FirstIsAlone(copies: seq<Copy>)
    requires copies != [] && OneCopyEach(copies)
    ensures OneCopyEach(copies[1..]) && !HasStack(copies[1..], copies[0].stack)
  {
  }

  lemma ConsOnce(c: Copy, rest: seq<Copy>)
    requires OneCopyEach(rest) && !HasStack(rest, c.stack)
    ensures OneCopyEach([c] + rest)
  {
  }

  lemma {:induction false} WithGateOnce(copies: seq<Copy>, stack: string, id: string)
    requires OneCopyEach(copies)
    ensures OneCopyEach(WithGate(copies, stack, id))
  {
    if copies != [] {
      var first, rest := copies[0], copies[1..];
      FirstIsAlone(copies);
      if first.stack == stack {
        ConsOnce(Copy(stack, first.gates + [id]), rest);
      } else {
        WithGateOnce(rest, stack, id);
        WithGateStacks(rest, stack, id, first.stack);
        ConsOnce(first, WithGate(rest, stack, id));
      }
    }
  }

  /** Deals the gates of a stack in configuration order. */
  method PlanSpread(ds: seq<Declared>, stacks: seq<string>) returns (copies: seq<Copy>, placed: map<string, string>)
    requires stacks != [] && Unique(GatesOf(ds))
    ensures OneCopyEach(copies)
    ensures forall s, x :: InCopy(copies, s, x) <==> MovedBefore(ds, stacks, |ds|, s, x)
    ensures forall k :: 0 <= k < |ds| && ds[k].onStack ==>
              ds[k].gate.id in placed && placed[ds[k].gate.id] == StackFor(ds, stacks, k)
    ensures forall id :: id in placed ==> exists k :: 0 <= k < |ds| && ds[k].onStack && ds[k].gate.id == id
  {
    copies, placed := [], map[];
    var turn := 0;
    for k := 0 to |ds|
      invariant turn == Dealt(ds, k) && OneCopyEach(copies)
      invariant forall s, x :: InCopy(copies, s, x) <==> MovedBefore(ds, stacks, k, s, x)
      invariant PlacedUpTo(ds, stacks, k, placed)
    {
      var d := ds[k];
      ghost var before, soFar := copies, placed;
      if d.onStack {
        var stack := stacks[0];
        if Movable(ds, d) {
          stack := stacks[turn % |stacks|];
          turn := turn + 1;
        }
        if stack != stacks[0] {
          WithGateOnce(copies, stack, d.gate.id);
          copies := WithGate(copies, stack, d.gate.id);
        }
        placed := placed[d.gate.id := stack];
        assert stack == StackFor(ds, stacks, k);
      }
      CopiesStep(ds, stacks, k, before, copies);
      PlacedStep(ds, stacks, k, soFar, placed);
      hide InCopy;
      hide MovedBefore;
      hide PlacedUpTo;
    }
  }

  /** The gates of stacks among the first `k` are placed, each on its stack, and no others are. */
  predicate PlacedUpTo(ds: seq<Declared>, stacks: seq<string>, k: nat, placed: map<string, string>)
    requires k <= |ds| && stacks != []
  {
    && (forall i :: 0 <= i < k && ds[i].onStack ==>
          ds[i].gate.id in placed && placed[ds[i].gate.id] == StackFor(ds, stacks, i))
    && (forall id :: id in placed ==> exists i :: 0 <= i < k && ds[i].onStack && ds[i].gate.id == id)
  }

  lemma PlacedStep(ds: seq<Declared>, stacks: seq<string>, k: nat, before: map<string, string>,
                   after: map<string, string>)
    requires k < |ds| && stacks != [] && Unique(GatesOf(ds)) && PlacedUpTo(ds, stacks, k, before)
    requires after == if ds[k].onStack then before[ds[k].gate.id := StackFor(ds, stacks, k)] else before
    ensures PlacedUpTo(ds, stacks, k + 1, after)
  {
    forall i | 0 <= i < k ensures ds[i].gate.id != ds[k].gate.id {
      assert GatesOf(ds)[i].id != GatesOf(ds)[k].id;
    }
  }

  /** Dealing the next gate moves it to its stack's copy, unless it stays on the first stack. */
  lemma CopiesStep(ds: seq<Declared>, stacks: seq<string>, k: nat, before: seq<Copy>, after: seq<Copy>)
    requires k < |ds| && stacks != []
    requires forall s, x :: InCopy(before, s, x) <==> MovedBefore(ds, stacks, k, s, x)
    requires after == if ds[k].onStack && StackFor(ds, stacks, k) != stacks[0]
                      then WithGate(before, StackFor(ds, stacks, k), ds[k].gate.id) else before
    ensures forall s, x :: InCopy(after, s, x) <==> MovedBefore(ds, stacks, k + 1, s, x)
  {
    forall s, x ensures InCopy(after, s, x) <==> MovedBefore(ds, stacks, k + 1, s, x) {
      WithGateHolds(before, StackFor(ds, stacks, k), ds[k].gate.id, s, x);
      MovedStep(ds, stacks, k, s, x);
    }
  }

  lemma MovedStep(ds: seq<Declared>, stacks: seq<string>, k: nat, s: string, x: string)
    requires k < |ds| && stacks != []
    ensures MovedBefore(ds, stacks, k + 1, s, x)
       <==> MovedBefore(ds, stacks, k, s, x)
            || (ds[k].onStack && ds[k].gate.id == x && StackFor(ds, stacks, k) == s != stacks[0])
  {
  }

  // ------------------------------------------------------------------ groups

  function CopyIds(c: Copy): set<string> {
    set id | id in c.gates
  }

  function MovedIds(copies: seq<Copy>): set<string> {
    set c, id | c in copies && id in c.gates :: id
  }

  function GroupLists(ds: seq<Declared>, copies: seq<Copy>): (lists: seq<seq<Declared>>)
    ensures |lists| == 1 + |copies|
    ensures lists[0] == Among(ds, Ids(ds) - MovedIds(copies))
    ensures forall c :: 0 <= c < |copies| ==> lists[c + 1] == Among(ds, CopyIds(copies[c]))
  {
    [Among(ds, Ids(ds) - MovedIds(copies))]
    + seq(|copies|, c requires 0 <= c < |copies| => Among(ds, CopyIds(copies[c])))
  }

  function NonEmpty(lists: seq<seq<Declared>>): (kept: seq<seq<Declared>>)
    ensures forall l :: l in kept <==> l in lists && l != []
  {
    if lists == [] then []
    else
      var rest := NonEmpty(lists[1..]);
      assert lists == [lists[0]] + lists[1..];
      if lists[0] != [] then [lists[0]] + rest else rest
  }

  /** The gates that stay in the suite's copy, then those of each other copy, empty groups left out. */
  function Groups(ds: seq<Declared>, copies: seq<Copy>): seq<seq<Declared>> {
    NonEmpty(GroupLists(ds, copies))
  }

  /** The copies hold movable gates of the list, each in one copy. */
  predicate FairCopies(ds: seq<Declared>, copies: seq<Copy>) {
    && (forall c, id :: c in copies && id in c.gates ==> exists d :: d in ds && d.gate.id == id && Movable(ds, d))
    && forall c, e, id :: 0 <= c < |copies| && 0 <= e < |copies| && id in copies[c].gates && id in copies[e].gates ==>
         c == e
  }

  lemma SpreadIsFair(ds: seq<Declared>, stacks: seq<string>, copies: seq<Copy>)
    requires stacks != [] && Unique(GatesOf(ds)) && OneCopyEach(copies)
    requires forall s, x :: InCopy(copies, s, x) <==> MovedBefore(ds, stacks, |ds|, s, x)
    ensures FairCopies(ds, copies)
  {
    forall c, id | c in copies && id in c.gates ensures exists d :: d in ds && d.gate.id == id && Movable(ds, d) {
      var j :| 0 <= j < |copies| && copies[j] == c;
      assert InCopy(copies, c.stack, id);
      var i :| 0 <= i < |ds| && ds[i].onStack && ds[i].gate.id == id && StackFor(ds, stacks, i) == c.stack != stacks[0];
      assert ds[i] in ds;
    }
    forall c, e, id | 0 <= c < |copies| && 0 <= e < |copies| && id in copies[c].gates && id in copies[e].gates
      ensures c == e
    {
      assert InCopy(copies, copies[c].stack, id) && InCopy(copies, copies[e].stack, id);
      MovedOnce(ds, stacks, copies[c].stack, copies[e].stack, id);
    }
  }

  lemma MovedOnce(ds: seq<Declared>, stacks: seq<string>, s: string, t: string, id: string)
    requires stacks != [] && Unique(GatesOf(ds))
    requires MovedBefore(ds, stacks, |ds|, s, id) && MovedBefore(ds, stacks, |ds|, t, id)
    ensures s == t
  {
    hide StackFor;
    hide Unique;
    var i :| 0 <= i < |ds| && ds[i].onStack && ds[i].gate.id == id && StackFor(ds, stacks, i) == s != stacks[0];
    var j :| 0 <= j < |ds| && ds[j].onStack && ds[j].gate.id == id && StackFor(ds, stacks, j) == t != stacks[0];
    SamePlace(GatesOf(ds), i, j);
  }

  lemma SamePlace(gates: seq<Gate>, i: nat, j: nat)
    requires Unique(gates) && i < |gates| && j < |gates| && gates[i].id == gates[j].id
    ensures i == j
  {
  }

  /** Every gate that runs is in exactly one list of the spread. */
  lemma OneList(ds: seq<Declared>, copies: seq<Copy>, d: Declared)
    requires Unique(GatesOf(ds)) && FairCopies(ds, copies) && d in ds
    ensures exists k :: 0 <= k < |GroupLists(ds, copies)| && d in GroupLists(ds, copies)[k]
    ensures forall k, l :: 0 <= k < l < |GroupLists(ds, copies)| ==>
              !(d in GroupLists(ds, copies)[k] && d in GroupLists(ds, copies)[l])
  {
    var lists := GroupLists(ds, copies);
    if d.gate.id in MovedIds(copies) {
      var c: nat :| c < |copies| && d.gate.id in copies[c].gates;
      assert d in lists[c + 1];
    } else {
      assert d in lists[0];
    }
    forall k, l | 0 <= k < l < |lists| ensures !(d in lists[k] && d in lists[l]) {
      assert lists[l] == Among(ds, CopyIds(copies[l - 1]));
      if k > 0 {
        assert lists[k] == Among(ds, CopyIds(copies[k - 1]));
      } else if d in lists[l] {
        assert copies[l - 1] in copies && d.gate.id in MovedIds(copies);
      }
    }
  }

  /** Each gate of the list is in exactly one group, and the groups hold nothing else. */
  predicate Partition(run: seq<Declared>, groups: seq<seq<Declared>>) {
    && (forall g, d :: g in groups && d in g ==> d in run)
    && (forall d :: d in run ==> exists k :: 0 <= k < |groups| && d in groups[k])
    && Apart(groups)
  }

  predicate Apart(groups: seq<seq<Declared>>) {
    forall k, l, d :: 0 <= k < l < |groups| && d in groups[k] ==> d !in groups[l]
  }

  lemma {:induction false} NonEmptyApart(lists: seq<seq<Declared>>)
    requires Apart(lists)
    ensures Apart(NonEmpty(lists))
  {
    if lists != [] {
      var rest := NonEmpty(lists[1..]);
      NonEmptyApart(lists[1..]);
      forall l, d | 0 <= l < |rest| && d in lists[0] ensures d !in rest[l] {
        assert rest[l] in lists[1..];
        var k :| 0 <= k < |lists[1..]| && lists[1..][k] == rest[l];
        assert lists[k + 1] == rest[l];
      }
    }
  }

  /** The groups divide what runs. */
  lemma GroupsPartition(ds: seq<Declared>, copies: seq<Copy>)
    requires Unique(GatesOf(ds)) && FairCopies(ds, copies)
    ensures Partition(ds, Groups(ds, copies))
  {
    var lists, groups := GroupLists(ds, copies), Groups(ds, copies);
    forall k, l, d | 0 <= k < l < |lists| && d in lists[k] ensures d !in lists[l] {
      ListHolds(ds, copies, k, d);
      OneList(ds, copies, d);
    }
    NonEmptyApart(lists);
    forall g, d | g in groups && d in g ensures d in ds {
      var k :| 0 <= k < |lists| && lists[k] == g;
      ListHolds(ds, copies, k, d);
    }
    forall d | d in ds ensures exists k :: 0 <= k < |groups| && d in groups[k] {
      OneList(ds, copies, d);
      var k :| 0 <= k < |lists| && d in lists[k];
      assert lists[k] in groups;
    }
  }

  lemma ListHolds(ds: seq<Declared>, copies: seq<Copy>, k: nat, d: Declared)
    requires k < |GroupLists(ds, copies)| && d in GroupLists(ds, copies)[k]
    ensures d in ds
  {
    if k > 0 {
      assert GroupLists(ds, copies)[k] == Among(ds, CopyIds(copies[k - 1]));
    }
  }

  lemma StayingClosed(ds: seq<Declared>, copies: seq<Copy>)
    requires Unique(GatesOf(ds)) && FairCopies(ds, copies) && ClosedSet(ds, Ids(ds))
    ensures ClosedSet(ds, Ids(ds) - MovedIds(copies))
  {
    UniqueDeclared(ds);
  }

  lemma MovedClosed(ds: seq<Declared>, copies: seq<Copy>, c: Copy)
    requires Unique(GatesOf(ds)) && FairCopies(ds, copies) && c in copies
    ensures ClosedSet(ds, CopyIds(c))
  {
    UniqueDeclared(ds);
    forall d | d in ds && d.gate.id in CopyIds(c) ensures d.gate.dependsOn == [] {
      var e :| e in ds && e.gate.id == d.gate.id && Movable(ds, e);
    }
  }

  // ------------------------------------------------------------------ from the configuration to the scheduler

  lemma IdsOfAmong(ds: seq<Declared>, ids: set<string>)
    ensures Ids(Among(ds, ids)) == Ids(ds) * ids
  {
    forall id | id in Ids(ds) * ids ensures id in Ids(Among(ds, ids)) {
      var d :| d in ds && d.gate.id == id;
      assert d in Among(ds, ids);
    }
  }

  /** A closed part of the runnable gates is a closed part of the configuration. */
  lemma PartOfPart(ds: seq<Declared>, run: set<string>, part: set<string>)
    requires Accepted(ds) && ClosedSet(ds, run) && ClosedSet(Among(ds, run), part)
    ensures Schedulable(GatesOf(Among(Among(ds, run), part)))
  {
    AmongTwice(ds, run, part);
    forall d, dep | d in ds && d.gate.id in run * part && dep in d.gate.dependsOn ensures dep in run * part {
      assert d in Among(ds, run);
    }
    ClosedPartSchedulable(ds, run * part);
  }

  /**
   For every accepted configuration, every list asked for, every stage and every scope outcome, what is left to
   run meets the scheduler's demands, and so does each group of a spread; the groups divide what is left.
   */
  lemma SchedulerAlwaysServed(ds: seq<Declared>, only: seq<string>, stage: Stage, start: Decisions, end: Decisions,
                              copies: seq<Copy>, group: seq<Declared>)
    requires Accepted(ds) && (forall x :: x in only ==> x in Ids(ds)) && Settled(ds, start, end)
    requires var run := Among(ds, RunnableIds(ds, ChosenIds(ds, only), stage, end));
             FairCopies(run, copies) && group in Groups(run, copies)
    ensures var run := Among(ds, RunnableIds(ds, ChosenIds(ds, only), stage, end));
            && Schedulable(GatesOf(run)) && Schedulable(GatesOf(group)) && group != []
            && Partition(run, Groups(run, copies))
  {
    var ids := RunnableIds(ds, ChosenIds(ds, only), stage, end);
    AmongUnique(ds, ids);
    GroupsPartition(Among(ds, ids), copies);
    ChosenClosed(ds, only);
    RunnableClosed(ds, ChosenIds(ds, only), stage, start, end);
    ClosedPartSchedulable(ds, ids);
    GroupServed(ds, ids, copies, group);
  }

  lemma GroupServed(ds: seq<Declared>, ids: set<string>, copies: seq<Copy>, group: seq<Declared>)
    requires Accepted(ds) && ClosedSet(ds, ids)
    requires FairCopies(Among(ds, ids), copies) && group in Groups(Among(ds, ids), copies)
    ensures Schedulable(GatesOf(group)) && group != []
  {
    var run := Among(ds, ids);
    var lists := GroupLists(run, copies);
    AmongUnique(ds, ids);
    var k :| 0 <= k < |lists| && lists[k] == group;
    if k == 0 {
      RunIsClosed(ds, ids);
      StayingClosed(run, copies);
      PartOfPart(ds, ids, Ids(run) - MovedIds(copies));
    } else {
      MovedClosed(run, copies, copies[k - 1]);
      PartOfPart(ds, ids, CopyIds(copies[k - 1]));
    }
  }

  lemma RunIsClosed(ds: seq<Declared>, ids: set<string>)
    requires Accepted(ds) && ClosedSet(ds, ids)
    ensures ClosedSet(Among(ds, ids), Ids(Among(ds, ids)))
  {
    IdsOfAmong(ds, ids);
    forall d, dep | d in Among(ds, ids) && dep in d.gate.dependsOn ensures dep in Ids(Among(ds, ids)) {
      var i :| 0 <= i < |ds| && ds[i] == d;
      assert GateRules(ds, ds[i]) && DependencyFits(ds, ds[i], dep);
      assert ds[FirstWith(ds, dep)] in ds;
    }
  }

  datatype Refusal = BadConfiguration(issues: seq<ConfigIssue>) | UnknownGates(ids: set<string>)

  /** The gates that run, and every decision is settled as the closure of the scope leaves it. */
  ghost function RunOf(ds: seq<Declared>, only: seq<string>, stage: Stage, decisions: Decisions): seq<Declared> {
    Among(ds, RunnableIds(ds, ChosenIds(ds, only), stage, SettledOf(ds, decisions)))
  }

  /**
   A run from its configuration to its groups: rules, selection, stage, scope, then the deal over the stacks when
   several are given. The groups divide exactly the gates that run, and the scheduler can take each of them.
   */
  method PlanRun(ds: seq<Declared>, only: seq<string>, stage: Stage, decisions: Decisions, order: seq<string>,
                 stacks: seq<string>)
    returns (r: Result<seq<seq<Declared>>, Refusal>)
    requires decisions.Keys <= Ids(ds) && forall id :: id in order <==> id in decisions
    ensures r.Ok? <==> Accepted(ds) && forall x :: x in only ==> x in Ids(ds)
    ensures r.Ok? ==> forall group :: group in r.value ==> group != [] && Schedulable(GatesOf(group))
    ensures r.Ok? ==> Partition(RunOf(ds, only, stage, decisions), r.value)
    ensures r.Ok? && |stacks| < 2 && RunOf(ds, only, stage, decisions) != [] ==>
              r.value == [RunOf(ds, only, stage, decisions)]
    ensures r.Err? && r.error.BadConfiguration? ==> !Accepted(ds)
    ensures r.Err? && r.error.UnknownGates? ==> Accepted(ds) && r.error.ids == set x | x in only && x !in Ids(ds)
  {
    hide *;
    var issues := ConfigIssues(ds);
    if issues != [] {
      return Err(BadConfiguration(issues));
    }
    var selection := SelectGates(ds, only);
    if selection.Err? {
      return Err(UnknownGates(selection.error));
    }
    ChosenIdsKept(ds, only);
    var plan := new ScopePlan(ds, decisions);
    plan.Close(order);
    RunIsThat(ds, only, stage, decisions, plan.decisions);
    var ids := RunnableIds(ds, Ids(selection.value.gates), stage, plan.decisions);
    var run := Among(ds, ids);
    AmongUnique(ds, ids);
    var copies: seq<Copy> := [];
    if |stacks| >= 2 {
      var placed;
      copies, placed := PlanSpread(run, stacks);
      SpreadIsFair(run, stacks, copies);
    } else {
      NothingMoved(run);
    }
    GroupsServed(ds, only, stage, decisions, copies);
    return Ok(Groups(run, copies));
  }

  lemma ChosenIdsKept(ds: seq<Declared>, only: seq<string>)
    requires Accepted(ds)
    ensures Unique(GatesOf(ds)) && Ids(Among(ds, ChosenIds(ds, only))) == ChosenIds(ds, only)
  {
    IdsOfAmong(ds, ChosenIds(ds, only));
  }

  lemma RunIsThat(ds: seq<Declared>, only: seq<string>, stage: Stage, decisions: Decisions, end: Decisions)
    requires Settled(ds, decisions, end)
    ensures RunOf(ds, only, stage, decisions) == Among(ds, RunnableIds(ds, ChosenIds(ds, only), stage, end))
  {
    SettledIsOne(ds, decisions, end);
  }

  lemma GroupsServed(ds: seq<Declared>, only: seq<string>, stage: Stage, decisions: Decisions, copies: seq<Copy>)
    requires Accepted(ds) && (forall x :: x in only ==> x in Ids(ds))
    requires FairCopies(RunOf(ds, only, stage, decisions), copies)
    ensures var run := RunOf(ds, only, stage, decisions);
            && Partition(run, Groups(run, copies))
            && forall group :: group in Groups(run, copies) ==> group != [] && Schedulable(GatesOf(group))
  {
    var run := RunOf(ds, only, stage, decisions);
    AmongUnique(ds, RunnableIds(ds, ChosenIds(ds, only), stage, SettledOf(ds, decisions)));
    GroupsPartition(run, copies);
    forall group | group in Groups(run, copies) ensures group != [] && Schedulable(GatesOf(group)) {
      SchedulerAlwaysServed(ds, only, stage, decisions, SettledOf(ds, decisions), copies, group);
    }
  }

  /** Without copies the only group is the run itself. */
  lemma NothingMoved(run: seq<Declared>)
    ensures FairCopies(run, []) && Groups(run, []) == if run == [] then [] else [run]
  {
    AmongAll(run, Ids(run) - MovedIds([]));
    assert GroupLists(run, []) == [run];
    assert NonEmpty([run][1..]) == [];
  }

  // ------------------------------------------------------------------ balance

  /** The places of the movable gates of a stack, among the first `k`, that are dealt to the j-th stack. */
  function DealtTo(ds: seq<Declared>, stacks: seq<string>, j: nat, k: nat): set<nat>
    requires j < |stacks| && k <= |ds|
  {
    set i: nat | i < k && ds[i].onStack && Movable(ds, ds[i]) && StackFor(ds, stacks, i) == stacks[j]
  }

  lemma NextTurn(turns: nat, n: nat)
    requires n > 0
    ensures (turns + 1) / n == turns / n + (if turns % n == n - 1 then 1 else 0)
    ensures (turns + 1) % n == if turns % n == n - 1 then 0 else turns % n + 1
  {
    var q, r := turns / n, turns % n;
    assert turns == q * n + r;
    if r == n - 1 {
      assert turns + 1 == (q + 1) * n;
      assert (turns + 1) / n == q + 1 && (turns + 1) % n == 0;
    } else {
      Divides(turns + 1, n, q, r + 1);
    }
  }

  lemma Divides(x: nat, n: nat, q: nat, r: nat)
    requires r < n && x == q * n + r
    ensures x / n == q && x % n == r
  {
    var d := x / n - q;
    assert d * n == r - x % n;
    MultiplesApart(d, n);
  }

  lemma MultiplesApart(d: int, n: int)
    requires n >= 0
    ensures d == 0 || d * n >= n || d * n <= -n
  {
    if d > 0 {
      AtLeastOnce(d, n);
    } else if d < 0 {
      AtLeastOnce(-d, n);
      assert (-d) * n == -(d * n);
    }
  }

  lemma {:induction false} AtLeastOnce(d: int, n: int)
    requires d > 0 && n >= 0
    ensures d * n >= n
  {
    if d > 1 {
      AtLeastOnce(d - 1, n);
      assert d * n == (d - 1) * n + n;
    }
  }

  /** The j-th share of `turns` dealt in turn among `n`. */
  function Share(turns: nat, n: nat, j: nat): nat
    requires n > 0
  {
    turns / n + if j < turns % n then 1 else 0
  }

  lemma ShareAfter(turns: nat, n: nat, j: nat)
    requires j < n
    ensures Share(turns + 1, n, j) == Share(turns, n, j) + if turns % n == j then 1 else 0
  {
    NextTurn(turns, n);
  }

  predicate Distinct(stacks: seq<string>) {
    forall i, j :: 0 <= i < j < |stacks| ==> stacks[i] != stacks[j]
  }

  lemma OneMoreDealt(ds: seq<Declared>, stacks: seq<string>, j: nat, k: nat)
    requires Distinct(stacks) && j < |stacks| && k < |ds|
    ensures var dealt := ds[k].onStack && Movable(ds, ds[k]);
            && Dealt(ds, k + 1) == Dealt(ds, k) + (if dealt then 1 else 0)
            && |DealtTo(ds, stacks, j, k + 1)|
               == |DealtTo(ds, stacks, j, k)| + if dealt && Dealt(ds, k) % |stacks| == j then 1 else 0
  {
    var before, after := DealtTo(ds, stacks, j, k), DealtTo(ds, stacks, j, k + 1);
    if ds[k].onStack && Movable(ds, ds[k]) && StackFor(ds, stacks, k) == stacks[j] {
      assert after == before + {k};
    } else {
      assert after == before;
    }
  }

  /**
   In turn means evenly: of the movable gates of a stack, each stack of the list is given as many as the whole
   division gives, or one more.
   */
  lemma {:induction false} DealtEvenly(ds: seq<Declared>, stacks: seq<string>, j: nat, k: nat)
    requires Distinct(stacks) && j < |stacks| && k <= |ds|
    ensures |DealtTo(ds, stacks, j, k)| == Share(Dealt(ds, k), |stacks|, j)
  {
    if k == 0 {
      assert DealtTo(ds, stacks, j, 0) == {};
    } else {
      DealtEvenly(ds, stacks, j, k - 1);
      OneMoreDealt(ds, stacks, j, k - 1);
      ShareAfter(Dealt(ds, k - 1), |stacks|, j);
      hide *;
    }
  }
}
