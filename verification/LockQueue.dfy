/**
 The waiting queue of `acquire`: any number of calls enqueue a ticket, keep it fresh, list the queue file
 by file, and try the lock only when their own ticket comes first.

 Tickets are numbers that strictly increase (module TicketNames says when their names do). The outcome of
 each try is arbitrary, so direct users of the lock that skip the queue are covered too.
 */
module LockQueue {
  import opened Options

  /** Where a call of `acquire` stands. */
  datatype Phase =
    | Away
    | Polling(ticket: nat)
    | Listing(ticket: nat)
    | Listed(ticket: nat, files: seq<nat>)
    | Scanning(ticket: nat, files: seq<nat>, holder: Option<nat>, next: nat, live: seq<nat>)
    | Attempting(ticket: nat)
    | Granted(ticket: nat)
    | Over

  /** `owner` maps every ticket ever issued to its call; `gone` holds the tickets pruned or given up. */
  datatype Queue = Queue(
    present: set<nat>, owner: map<nat, nat>, phases: map<nat, Phase>, grants: seq<nat>, gone: set<nat>)

  datatype Event =
    | Enqueue(job: nat, ticket: nat)
    | Touch(job: nat)
    | ReadDir(job: nat, files: seq<nat>)
    | ReadHolder(job: nat, holder: Option<nat>)
    | ReadTicket(job: nat, stale: bool)
    | Decide(job: nat)
    | Attempt(job: nat, ok: bool)
    | GiveUp(job: nat)
    | Dequeue(job: nat)

  predicate Loops(phase: Phase) {
    phase.Polling? || phase.Listing? || phase.Listed? || phase.Scanning? || phase.Attempting?
  }

  predicate Ascending(files: seq<nat>) {
    forall i, j :: 0 <= i < j < |files| ==> files[i] < files[j]
  }

  /** The holder read from the lock file is not a call that still waits: one acquisition per owner. */
  predicate MayHold(q: Queue, holder: Option<nat>) {
    holder.Some? && holder.value in q.phases ==> q.phases[holder.value].Granted? || q.phases[holder.value].Over?
  }

  predicate Enabled(q: Queue, e: Event) {
    e.job in q.phases &&
    var phase := q.phases[e.job];
    match e
    case Enqueue(_, ticket) =>
      (phase.Away? || (phase.Polling? && phase.ticket !in q.present)) && forall t :: t in q.owner ==> t < ticket
    case Touch(_) => phase.Polling? && phase.ticket in q.present
    case ReadDir(_, files) => phase.Listing? && Ascending(files) && (set t | t in files) == q.present
    case ReadHolder(_, holder) => phase.Listed? && MayHold(q, holder)
    case ReadTicket(_, _) => phase.Scanning? && phase.next < |phase.files|
    case Decide(_) => phase.Scanning? && phase.next >= |phase.files|
    case Attempt(_, _) => phase.Attempting?
    case GiveUp(_) => Loops(phase)
    case Dequeue(_) => phase.Granted?
  }

  function Next(q: Queue, e: Event): Queue
    requires Enabled(q, e)
  {
    var phase := q.phases[e.job];
    match e
    case Enqueue(job, ticket) =>
      q.(present := q.present + {ticket}, owner := q.owner[ticket := job], phases := q.phases[job := Polling(ticket)])
    case Touch(job) => q.(phases := q.phases[job := Listing(phase.ticket)])
    case ReadDir(job, files) => q.(phases := q.phases[job := Listed(phase.ticket, files)])
    case ReadHolder(job, holder) => q.(phases := q.phases[job := Scanning(phase.ticket, phase.files, holder, 0, [])])
    case ReadTicket(job, stale) =>
      var file := phase.files[phase.next];
      var ahead := phase.(next := phase.next + 1);
      if file !in q.present then q.(phases := q.phases[job := ahead])
      else if stale then q.(present := q.present - {file}, gone := q.gone + {file}, phases := q.phases[job := ahead])
      else if file in q.owner && phase.holder == Some(q.owner[file]) then q.(phases := q.phases[job := ahead])
      else q.(phases := q.phases[job := ahead.(live := phase.live + [file])])
    case Decide(job) =>
      var first := phase.live != [] && phase.live[0] == phase.ticket;
      q.(phases := q.phases[job := if first then Attempting(phase.ticket) else Polling(phase.ticket)])
    case Attempt(job, ok) =>
      if ok then q.(grants := q.grants + [phase.ticket], phases := q.phases[job := Granted(phase.ticket)])
      else q.(phases := q.phases[job := Polling(phase.ticket)])
    case GiveUp(job) =>
      q.(present := q.present - {phase.ticket}, gone := q.gone + {phase.ticket}, phases := q.phases[job := Over])
    case Dequeue(job) => q.(present := q.present - {phase.ticket}, phases := q.phases[job := Over])
  }

  // ------------------------------------------------------------- invariant

  /** A ticket still in the race: issued, not granted, neither pruned nor given up. */
  predicate Waits(q: Queue, t: nat) {
    t in q.owner && t !in q.grants && t !in q.gone
  }

  /** No earlier ticket waits any more. */
  predicate Served(q: Queue, t: nat) {
    forall a :: a in q.owner && a < t ==> !Waits(q, a)
  }

  predicate PhaseInv(q: Queue, job: nat, phase: Phase) {
    && (Loops(phase) ==> phase.ticket in q.owner && q.owner[phase.ticket] == job && phase.ticket !in q.grants)
    && match phase
       case Listed(ticket, files) =>
         && Ascending(files)
         && forall a :: a in q.owner && a < ticket && Waits(q, a) ==> a in files
       case Scanning(ticket, files, holder, next, live) =>
         && Ascending(files) && next <= |files| && MayHold(q, holder)
         && Ascending(live) && (forall t :: t in live ==> t in files[..next])
         && forall a :: a in q.owner && a < ticket && Waits(q, a) ==> a in live || a in files[next..]
       case Attempting(ticket) => Served(q, ticket)
       case Granted(ticket) => ticket in q.grants
       case _ => true
  }

  /** A waiting ticket is in the directory, and its call is the one that polls with it. */
  predicate TicketInv(q: Queue) {
    forall t :: t in q.owner && Waits(q, t) ==>
      && t in q.present && q.owner[t] in q.phases
      && Loops(q.phases[q.owner[t]]) && q.phases[q.owner[t]].ticket == t
  }

  predicate GrantInv(q: Queue) {
    && (forall g :: g in q.grants ==> g in q.owner && Served(q, g))
    && forall i, j :: 0 <= i < j < |q.grants| ==> q.grants[i] < q.grants[j] || q.grants[j] in q.gone
  }

  predicate Inv(q: Queue) {
    && TicketInv(q) && GrantInv(q)
    && forall job :: job in q.phases ==> PhaseInv(q, job, q.phases[job])
  }

  // ------------------------------------------------------------- preservation

  /** What a step by another call leaves true: no old ticket starts to wait, and new ones are later. */
  predicate Later(q: Queue, q': Queue) {
    && q.owner.Keys <= q'.owner.Keys && (forall t :: t in q.owner ==> q'.owner[t] == q.owner[t])
    && (forall t, u :: t in q.owner && u in q'.owner && u !in q.owner ==> t < u)
    && (forall t :: t in q.owner && Waits(q', t) ==> Waits(q, t))
    && q.phases.Keys == q'.phases.Keys && (forall t :: t in q.grants ==> t in q'.grants)
    && (forall job :: job in q.phases && q.phases[job].Granted? ==> q'.phases[job].Granted? || q'.phases[job].Over?)
    && (forall job :: job in q.phases && q.phases[job].Over? ==> q'.phases[job].Over?)
  }

  lemma PhaseFrame(q: Queue, q': Queue, job: nat, phase: Phase)
    requires PhaseInv(q, job, phase) && Later(q, q')
    requires Loops(phase) ==> phase.ticket !in q'.grants
    ensures PhaseInv(q', job, phase)
  {
  }

  lemma ServedFrame(q: Queue, q': Queue, t: nat)
    requires Served(q, t) && Later(q, q') && t in q.owner
    ensures Served(q', t)
  {
  }

  lemma StepIsLater(q: Queue, e: Event)
    requires Inv(q) && Enabled(q, e)
    ensures Later(q, Next(q, e))
  {
  }

  lemma OthersKeep(q: Queue, e: Event, job: nat)
    requires Inv(q) && Enabled(q, e) && job in q.phases && job != e.job
    ensures PhaseInv(Next(q, e), job, Next(q, e).phases[job])
  {
    StepIsLater(q, e);
    assert PhaseInv(q, e.job, q.phases[e.job]);
    PhaseFrame(q, Next(q, e), job, q.phases[job]);
  }

  lemma DecideKeeps(q: Queue, job: nat)
    requires Inv(q) && Enabled(q, Decide(job))
    ensures PhaseInv(Next(q, Decide(job)), job, Next(q, Decide(job)).phases[job])
  {
    var phase := q.phases[job];
    assert PhaseInv(q, job, phase);
    if phase.live != [] && phase.live[0] == phase.ticket {
      forall a | a in q.owner && a < phase.ticket ensures !Waits(q, a) {
        assert a !in phase.live;
      }
    }
  }

  lemma ScanKeeps(q: Queue, job: nat, stale: bool)
    requires Inv(q) && Enabled(q, ReadTicket(job, stale))
    ensures PhaseInv(Next(q, ReadTicket(job, stale)), job, Next(q, ReadTicket(job, stale)).phases[job])
  {
    var q' := Next(q, ReadTicket(job, stale));
    var phase, phase' := q.phases[job], q'.phases[job];
    var file := phase.files[phase.next];
    assert PhaseInv(q, job, phase);
    assert phase.files[..phase.next + 1] == phase.files[..phase.next] + [file];
    assert phase.files[phase.next..] == [file] + phase.files[phase.next + 1..];
    StepIsLater(q, ReadTicket(job, stale));
    forall a | a in q'.owner && a < phase.ticket && Waits(q', a)
      ensures a in phase'.live || a in phase'.files[phase'.next..] {
      assert Waits(q, a);
      if a == file {
        assert q.phases[q.owner[a]].ticket == a;
      }
    }
    forall i, j | 0 <= i < j < |phase'.live| ensures phase'.live[i] < phase'.live[j] {
      if j == |phase.live| {
        assert phase.live[i] in phase.files[..phase.next];
      }
    }
  }

  lemma OwnKeeps(q: Queue, e: Event)
    requires Inv(q) && Enabled(q, e)
    ensures PhaseInv(Next(q, e), e.job, Next(q, e).phases[e.job])
  {
    assert PhaseInv(q, e.job, q.phases[e.job]);
    if e.Decide? {
      DecideKeeps(q, e.job);
    } else if e.ReadTicket? {
      ScanKeeps(q, e.job, e.stale);
    } else if e.ReadDir? {
      forall a | a in q.owner && Waits(q, a) ensures a in e.files {
        assert a in q.present;
      }
    } else if e.Enqueue? {
      assert forall t :: t in q.grants ==> t in q.owner;
    }
  }

  lemma TicketsKeep(q: Queue, e: Event)
    requires Inv(q) && Enabled(q, e)
    ensures TicketInv(Next(q, e))
  {
    var q' := Next(q, e);
    assert PhaseInv(q, e.job, q.phases[e.job]);
    forall t | t in q'.owner && Waits(q', t)
      ensures t in q'.present && q'.owner[t] in q'.phases
      ensures Loops(q'.phases[q'.owner[t]]) && q'.phases[q'.owner[t]].ticket == t
    {
      if t in q.owner {
        assert Waits(q, t);
      }
    }
  }

  lemma GrantsServed(q: Queue, e: Event, g: nat)
    requires Inv(q) && Enabled(q, e) && g in Next(q, e).grants
    ensures g in Next(q, e).owner && Served(Next(q, e), g)
  {
    StepIsLater(q, e);
    assert PhaseInv(q, e.job, q.phases[e.job]);
    if g !in q.grants {
      assert g == q.phases[e.job].ticket;
    }
    hide Inv;
    hide PhaseInv;
    assert Served(q, g);
    ServedFrame(q, Next(q, e), g);
  }

  /** A ticket granted now is later than those granted before, unless it had left the race. */
  lemma GrantIsLast(q: Queue, e: Event, i: nat)
    requires Inv(q) && Enabled(q, e) && e.Attempt? && e.ok && i < |q.grants|
    ensures q.grants[i] < q.phases[e.job].ticket || q.phases[e.job].ticket in q.gone
  {
    var t := q.phases[e.job].ticket;
    assert PhaseInv(q, e.job, q.phases[e.job]);
    assert q.grants[i] in q.grants && t !in q.grants;
    if t < q.grants[i] {
      assert Served(q, q.grants[i]) && !Waits(q, t);
    }
  }

  lemma GrantsKeep(q: Queue, e: Event)
    requires Inv(q) && Enabled(q, e)
    ensures GrantInv(Next(q, e))
  {
    var q' := Next(q, e);
    forall g | g in q'.grants ensures g in q'.owner && Served(q', g) {
      GrantsServed(q, e, g);
    }
    forall i, j | 0 <= i < j < |q'.grants| ensures q'.grants[i] < q'.grants[j] || q'.grants[j] in q'.gone {
      if j == |q.grants| {
        GrantIsLast(q, e, i);
      }
    }
  }

  lemma StepKeeps(q: Queue, e: Event)
    requires Inv(q) && Enabled(q, e)
    ensures Inv(Next(q, e))
  {
    TicketsKeep(q, e);
    GrantsKeep(q, e);
    forall job | job in Next(q, e).phases ensures PhaseInv(Next(q, e), job, Next(q, e).phases[job]) {
      if job == e.job {
        OwnKeeps(q, e);
      } else {
        OthersKeep(q, e, job);
      }
    }
  }

  // ------------------------------------------------------------- theorem

  predicate Run(q: Queue, es: seq<Event>)
    decreases |es|
  {
    es == [] || (Enabled(q, es[0]) && Run(Next(q, es[0]), es[1..]))
  }

  function After(q: Queue, es: seq<Event>): Queue
    requires Run(q, es)
    decreases |es|
  {
    if es == [] then q else After(Next(q, es[0]), es[1..])
  }

  predicate Start(q: Queue) {
    && q.present == {} && q.owner == map[] && q.grants == [] && q.gone == {}
    && forall job :: job in q.phases ==> q.phases[job].Away?
  }

  lemma {:induction false} RunKeeps(q: Queue, es: seq<Event>)
    requires Inv(q) && Run(q, es)
    ensures Inv(After(q, es))
    decreases |es|
  {
    if es != [] {
      StepKeeps(q, es[0]);
      RunKeeps(Next(q, es[0]), es[1..]);
    }
  }

  /**
   The lock is granted in ticket order: of two grants the earlier has the smaller ticket, unless the later
   one had been pruned or given up; and no ticket is granted while an older one still waits.
   */
  lemma GrantsAreFifo(start: Queue, es: seq<Event>, i: nat, j: nat)
    requires Start(start) && Run(start, es)
    ensures var q := After(start, es);
            && (i < j < |q.grants| && q.grants[j] !in q.gone ==> q.grants[i] < q.grants[j])
            && (i < |q.grants| && j in q.owner && j < q.grants[i] ==> j in q.grants || j in q.gone)
  {
    RunKeeps(start, es);
    var q := After(start, es);
    if i < |q.grants| && j in q.owner && j < q.grants[i] {
      assert q.grants[i] in q.grants;
      assert Served(q, q.grants[i]) && !Waits(q, j);
    }
  }

  // ------------------------------------------------------------- one turn

  /** The looks at the files from the `k`-th on. */
  function Looks(job: nat, stale: seq<bool>, k: nat): seq<Event>
    requires k <= |stale|
    decreases |stale| - k
  {
    if k == |stale| then [] else [ReadTicket(job, stale[k])] + Looks(job, stale, k + 1)
  }

  /** The k-th file is a live waiter: its ticket is fresh, and not the holder's. */
  predicate Lives(q: Queue, files: seq<nat>, holder: Option<nat>, stale: seq<bool>, k: nat)
    requires k < |files| == |stale|
  {
    !stale[k] && !(files[k] in q.owner && holder == Some(q.owner[files[k]]))
  }

  /** The first live waiter, if any, is the k-th file. */
  predicate FirstLives(q: Queue, files: seq<nat>, holder: Option<nat>, stale: seq<bool>, k: nat)
    requires k < |files| == |stale|
  {
    Lives(q, files, holder, stale, k) && forall j :: 0 <= j < k ==> !Lives(q, files, holder, stale, j)
  }

  /** The scan as it stands before the k-th file. */
  predicate ScansAt(q: Queue, q': Queue, job: nat, ticket: nat, files: seq<nat>, holder: Option<nat>, stale: seq<bool>,
                    k: nat)
    requires k <= |files| == |stale|
  {
    && q'.owner == q.owner && q'.grants == q.grants && job in q'.phases && q'.phases[job].Scanning?
    && q'.phases == q.phases[job := q'.phases[job]]
    && (forall i :: k <= i < |files| ==> files[i] in q'.present)
    && var phase := q'.phases[job];
       && phase.ticket == ticket && phase.files == files && phase.holder == holder && phase.next == k
       && (phase.live == [] <==> forall j :: 0 <= j < k ==> !Lives(q, files, holder, stale, j))
       && (phase.live != [] ==>
             exists j :: 0 <= j < k && FirstLives(q, files, holder, stale, j) && files[j] == phase.live[0])
  }

  lemma LookStep(q: Queue, q': Queue, job: nat, ticket: nat, files: seq<nat>, holder: Option<nat>, stale: seq<bool>,
                 k: nat)
    requires k < |files| == |stale| && Ascending(files) && ScansAt(q, q', job, ticket, files, holder, stale, k)
    ensures Enabled(q', ReadTicket(job, stale[k]))
    ensures ScansAt(q, Next(q', ReadTicket(job, stale[k])), job, ticket, files, holder, stale, k + 1)
  {
    if q'.phases[job].live != [] {
      var j :| 0 <= j < k && FirstLives(q, files, holder, stale, j) && files[j] == q'.phases[job].live[0];
      assert Lives(q, files, holder, stale, j);
    } else if Lives(q, files, holder, stale, k) {
      assert FirstLives(q, files, holder, stale, k);
    }
  }

  lemma {:induction false} LooksScan(q: Queue, q': Queue, job: nat, ticket: nat, files: seq<nat>,
                                     holder: Option<nat>, stale: seq<bool>, k: nat)
    requires k <= |files| == |stale| && Ascending(files) && ScansAt(q, q', job, ticket, files, holder, stale, k)
    ensures Run(q', Looks(job, stale, k))
    ensures ScansAt(q, After(q', Looks(job, stale, k)), job, ticket, files, holder, stale, |files|)
    decreases |files| - k
  {
    if k < |files| {
      LookStep(q, q', job, ticket, files, holder, stale, k);
      LooksScan(q, Next(q', ReadTicket(job, stale[k])), job, ticket, files, holder, stale, k + 1);
      assert Looks(job, stale, k)[1..] == Looks(job, stale, k + 1);
    }
  }

  /** The call has listed the files and read the holder. */
  function Looking(q: Queue, job: nat, ticket: nat, files: seq<nat>, holder: Option<nat>): Queue {
    q.(phases := q.phases[job := Scanning(ticket, files, holder, 0, [])])
  }

  lemma TurnBegins(q: Queue, job: nat, ticket: nat, files: seq<nat>, holder: Option<nat>)
    requires job in q.phases && q.phases[job] == Polling(ticket) && ticket in q.present
    requires Ascending(files) && (set t | t in files) == q.present && MayHold(q, holder)
    ensures var es := [Touch(job), ReadDir(job, files), ReadHolder(job, holder)];
            Run(q, es) && After(q, es) == Looking(q, job, ticket, files, holder)
  {
    var es := [Touch(job), ReadDir(job, files), ReadHolder(job, holder)];
    var q1 := Next(q, es[0]);
    var q2 := Next(q1, es[1]);
    assert es[1..] == [es[1], es[2]] && es[1..][1..] == [es[2]] && [es[2]][1..] == [];
    assert q1.phases == q.phases[job := Listing(ticket)];
    assert q2.phases == q.phases[job := Listed(ticket, files)];
    var q3 := Next(q2, es[2]);
    assert q3.phases == q.phases[job := Scanning(ticket, files, holder, 0, [])];
    assert Run(q3, []) && Run(q2, [es[2]]) && Run(q1, [es[1], es[2]]);
    assert After(q3, []) == q3 && After(q2, [es[2]]) == q3 && After(q1, [es[1], es[2]]) == q3;
  }

  /**
   One undisturbed turn of a waiting call: whatever tickets it finds stale and whoever holds the lock, it goes on to
   try exactly when its own ticket is the first live one; otherwise it polls again.
   */
  lemma TurnAlone(q: Queue, job: nat, ticket: nat, files: seq<nat>, holder: Option<nat>, stale: seq<bool>)
    requires job in q.phases && q.phases[job] == Polling(ticket) && ticket in q.present
    requires Ascending(files) && (set t | t in files) == q.present && |stale| == |files|
    requires holder.Some? && holder.value in q.phases ==>
               !q.phases[holder.value].Away? && !Loops(q.phases[holder.value])
    ensures Run(q, [Touch(job), ReadDir(job, files), ReadHolder(job, holder)])
    ensures Run(Looking(q, job, ticket, files, holder), Looks(job, stale, 0))
    ensures var q' := After(Looking(q, job, ticket, files, holder), Looks(job, stale, 0));
            && After(q, [Touch(job), ReadDir(job, files), ReadHolder(job, holder)])
                    == Looking(q, job, ticket, files, holder)
            && Enabled(q', Decide(job))
            && Next(q', Decide(job)).phases ==
                 q.phases[job :=
                   if exists k :: 0 <= k < |files| && files[k] == ticket && FirstLives(q, files, holder, stale, k)
                   then Attempting(ticket) else Polling(ticket)]
  {
    var looking := Looking(q, job, ticket, files, holder);
    TurnBegins(q, job, ticket, files, holder);
    LooksScan(q, looking, job, ticket, files, holder, stale, 0);
    DecidesOnFirst(q, After(looking, Looks(job, stale, 0)), job, ticket, files, holder, stale);
  }

  /**
   A call enters, or enters again when its ticket was pruned, with a ticket after every one issued; a try that succeeds
   grants it and leaves its ticket in the queue until the call dequeues; giving up takes the ticket away.
   */
  lemma EntersAndLeaves(q: Queue, job: nat, ticket: nat, ok: bool)
    requires job in q.phases
    ensures var phase := q.phases[job];
            Enabled(q, Enqueue(job, ticket)) <==>
              && (phase == Away || (phase.Polling? && phase.ticket !in q.present))
              && forall t :: t in q.owner ==> t < ticket
    ensures Enabled(q, Enqueue(job, ticket)) ==>
              var q' := Next(q, Enqueue(job, ticket));
              && q'.phases == q.phases[job := Polling(ticket)] && q'.present == q.present + {ticket}
              && q'.owner == q.owner[ticket := job] && q'.grants == q.grants && q'.gone == q.gone
    ensures q.phases[job] == Attempting(ticket) ==>
              && Enabled(q, Attempt(job, ok))
              && var q' := Next(q, Attempt(job, ok));
                 && q'.present == q.present && q'.gone == q.gone && q'.owner == q.owner
                 && q'.grants == q.grants + (if ok then [ticket] else [])
                 && q'.phases == q.phases[job := if ok then Granted(ticket) else Polling(ticket)]
    ensures q.phases[job] == Granted(ticket) ==>
              && Enabled(q, Dequeue(job))
              && var q' := Next(q, Dequeue(job));
                 q'.present == q.present - {ticket} && q'.gone == q.gone && q'.phases == q.phases[job := Over]
    ensures Loops(q.phases[job]) && q.phases[job].ticket == ticket ==>
              && Enabled(q, Event.GiveUp(job))
              && var q' := Next(q, Event.GiveUp(job));
                 && q'.present == q.present - {ticket} && q'.gone == q.gone + {ticket} && q'.grants == q.grants
                 && q'.phases == q.phases[job := Over]
  {
  }

  /** Looking at a ticket takes it out of the queue exactly when it is there and stale, and no other ticket. */
  lemma PrunesExactly(q: Queue, job: nat, stale: bool)
    requires Enabled(q, ReadTicket(job, stale))
    ensures var file, q' := q.phases[job].files[q.phases[job].next], Next(q, ReadTicket(job, stale));
            && (forall t :: t in q'.present <==> t in q.present && (t == file ==> !stale))
            && (forall t :: t in q'.gone <==> t in q.gone || (t == file && t in q.present && stale))
            && q'.owner == q.owner && q'.grants == q.grants
            && (forall other :: other in q.phases && other != job ==>
                  other in q'.phases && q'.phases[other] == q.phases[other])
  {
  }

  lemma DecidesOnFirst(q: Queue, q': Queue, job: nat, ticket: nat, files: seq<nat>, holder: Option<nat>,
      stale: seq<bool>)
    requires |stale| == |files| && Ascending(files) && ScansAt(q, q', job, ticket, files, holder, stale, |files|)
    ensures Enabled(q', Decide(job))
    ensures Next(q', Decide(job)).phases ==
            q.phases[job :=
              if exists k :: 0 <= k < |files| && files[k] == ticket && FirstLives(q, files, holder, stale, k)
              then Attempting(ticket) else Polling(ticket)]
  {
    var phase := q'.phases[job];
    if phase.live != [] {
      var j :| 0 <= j < |files| && FirstLives(q, files, holder, stale, j) && files[j] == phase.live[0];
      forall k | 0 <= k < |files| && FirstLives(q, files, holder, stale, k) ensures k == j {
        assert Lives(q, files, holder, stale, j) && Lives(q, files, holder, stale, k);
      }
    } else {
      forall k | 0 <= k < |files| ensures !FirstLives(q, files, holder, stale, k) {
        assert !Lives(q, files, holder, stale, k);
      }
    }
  }
}
