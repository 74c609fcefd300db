/**
 Safety of the lease lock over every interleaving of calls.

 A run is calm when no step of it takes over an unreadable file, forces a release or breaks the mutex:
 the three branches that give up the protocol on purpose. Every theorem below is about calm runs;
 module LockAccidents shows that each of the three branches really can put two leases in force.
 */
module LockSafety {
  import opened Options
  import opened LockStore

  /** The lease of a token, as its holder last wrote it. */
  datatype Lease = Lease(rec: Record, released: bool)

  /** `home` gives the process of each call; `graceMs` is the grace of an unreadable file. */
  datatype Site = Site(home: map<nat, Process>, graceMs: int)

  datatype World = World(
    disk: Disk, clock: int, alive: set<Process>, used: set<nat>, leases: map<nat, Lease>, calls: map<nat, Pc>)

  datatype Event =
    | Tick(ms: nat)
    | Die(process: Process)
    | Acquire(tid: nat, req: Request)
    | Renew(tid: nat, token: nat, ttlMs: int)
    | Release(tid: nat, how: ReleaseBy)
    | Draft(tid: nat, token: nat)
    | Advance(tid: nat)
    | GiveUp(tid: nat)
    | BreakMutex(tid: nat)

  predicate Waiting(pc: Pc) {
    pc.TakeoverWait? || pc.RenewWait? || pc.ReleaseWait?
  }

  predicate Runs(site: Site, w: World, tid: nat) {
    tid in w.calls && tid in site.home && site.home[tid] in w.alive
  }

  function ViewOf(site: Site, w: World, tid: nat): View
    requires Runs(site, w, tid)
  {
    View(tid, site.home[tid].host, w.clock, w.alive, site.graceMs)
  }

  function Entitle(leases: map<nat, Lease>, note: Note): map<nat, Lease> {
    match note
    case Nothing => leases
    case Leased(rec) => leases[rec.token := Lease(rec, false)]
    case Renewed(rec) => leases[rec.token := Lease(rec, false)]
    case Released(token) => if token in leases then leases[token := leases[token].(released := true)] else leases
  }

  predicate Enabled(site: Site, w: World, e: Event) {
    match e
    case Tick(_) => true
    case Die(_) => true
    case Acquire(tid, _) => Runs(site, w, tid) && w.calls[tid].Idle?
    case Renew(tid, _, _) => Runs(site, w, tid) && w.calls[tid].Idle?
    case Release(tid, _) => Runs(site, w, tid) && w.calls[tid].Idle?
    case Draft(tid, token) => Runs(site, w, tid) && w.calls[tid].Drafting? && token !in w.used
    case Advance(tid) => Runs(site, w, tid) && !w.calls[tid].Idle? && !w.calls[tid].Drafting?
    case GiveUp(tid) => Runs(site, w, tid) && Waiting(w.calls[tid])
    case BreakMutex(tid) =>
      && Runs(site, w, tid) && Waiting(w.calls[tid])
      && w.disk.mutex.Taken? && w.clock - w.disk.mutex.since > MUTEX_STALE_MS
  }

  function DraftOf(req: Request, token: nat, now: int): Record {
    Record(req.owner, token, now, now + req.ttlMs, now, req.ttlMs, req.purpose)
  }

  function Next(site: Site, w: World, e: Event): World
    requires Enabled(site, w, e)
  {
    match e
    case Tick(ms) => w.(clock := w.clock + ms)
    case Die(process) => w.(alive := w.alive - {process})
    case Acquire(tid, req) => w.(calls := w.calls[tid := Judging(req, Look(w.disk.lock))])
    case Renew(tid, token, ttlMs) => w.(calls := w.calls[tid := RenewWait(token, ttlMs)])
    case Release(tid, how) => w.(calls := w.calls[tid := ReleaseWait(how)])
    case Draft(tid, token) =>
      w.(used := w.used + {token}, calls := w.calls[tid := Creating(DraftOf(w.calls[tid].req, token, w.clock))])
    case Advance(tid) =>
      var effect := Act(w.disk, ViewOf(site, w, tid), w.calls[tid]);
      w.(disk := effect.disk, calls := w.calls[tid := effect.pc], leases := Entitle(w.leases, effect.note))
    case GiveUp(tid) => w.(calls := w.calls[tid := Idle])
    case BreakMutex(tid) => w.(disk := w.disk.(mutex := Free))
  }

  // ------------------------------------------------------------- calm runs

  /** The step judges an unreadable file stale: its re-check cannot tell one empty file from another. */
  predicate TakesUnreadable(site: Site, w: World, e: Event)
    requires Enabled(site, w, e)
  {
    e.Advance? && w.calls[e.tid].Judging? &&
    Staleness(w.calls[e.tid].seen, w.clock, site.home[e.tid].host, w.alive, site.graceMs) == Some(Corrupt)
  }

  predicate Forces(site: Site, w: World, e: Event)
    requires Enabled(site, w, e)
  {
    e.Advance? && w.calls[e.tid].ReleaseCheck? && w.calls[e.tid].how.force &&
    w.disk.lock.File? && !Owned(w.calls[e.tid].how, w.disk.lock.raw, site.home[e.tid].host)
  }

  predicate Calm(site: Site, w: World, e: Event)
    requires Enabled(site, w, e)
  {
    !TakesUnreadable(site, w, e) && !Forces(site, w, e) && !e.BreakMutex?
  }

  predicate CalmRun(site: Site, w: World, es: seq<Event>)
    decreases |es|
  {
    es == [] || (Enabled(site, w, es[0]) && Calm(site, w, es[0]) && CalmRun(site, Next(site, w, es[0]), es[1..]))
  }

  function After(site: Site, w: World, es: seq<Event>): World
    requires CalmRun(site, w, es)
    decreases |es|
  {
    if es == [] then w else After(site, Next(site, w, es[0]), es[1..])
  }

  predicate Start(w: World) {
    && w.disk.lock.Absent? && w.disk.mutex.Free?
    && w.used == {} && w.leases == map[]
    && forall tid :: tid in w.calls ==> w.calls[tid].Idle?
  }

  // ------------------------------------------------------------- invariant

  predicate Holds(w: World, raw: Raw) {
    w.disk.lock.File? && w.disk.lock.raw == raw
  }

  predicate Stale(w: World, raw: Raw) {
    raw.Json? && (raw.rec.expiresAt <= w.clock || Dead(w.alive, raw.rec.owner))
  }

  predicate Over(w: World, lease: Lease) {
    lease.released || Stale(w, Json(lease.rec))
  }

  predicate InSection(pc: Pc) {
    || pc.TakeoverCheck? || pc.TakeoverUnlink? || pc.TakeoverLeave?
    || pc.RenewCheck? || pc.RenewStamp? || pc.RenewRename? || pc.RenewLeave?
    || pc.ReleaseCheck? || pc.ReleaseUnlink? || pc.ReleaseLeave?
  }

  predicate Drafted(w: World, draft: Record) {
    draft.token in w.used && draft.token !in w.leases
  }

  predicate CallInv(w: World, tid: nat, pc: Pc) {
    && (InSection(pc) ==> w.disk.mutex.Taken? && w.disk.mutex.tid == tid)
    && match pc
       case TakeoverWait(_, judged) => Stale(w, judged)
       case TakeoverCheck(_, judged) => Stale(w, judged)
       case TakeoverUnlink(_, judged) => Stale(w, judged) && Holds(w, judged)
       case Creating(draft) => Drafted(w, draft)
       case Writing(draft, ino) => Drafted(w, draft) && Holds(w, Blank) && w.disk.lock.ino == ino
       case RenewStamp(current, _) => Holds(w, Json(current))
       case RenewRename(current, next) =>
         Holds(w, Json(current)) && next.token == current.token && next.owner == current.owner
       case ReleaseUnlink(target, _, own) => Holds(w, target) && own && target.Json?
       case _ => true
  }

  /** The record in the file is the last one its holder wrote, and that holder has not released it. */
  predicate FileInv(w: World) {
    w.disk.lock.File? && w.disk.lock.raw.Json? ==>
      var rec := w.disk.lock.raw.rec;
      rec.token in w.leases && w.leases[rec.token] == Lease(rec, false)
  }

  /** A lease is over, or the file holds it. */
  predicate LeaseInv(w: World) {
    forall token :: token in w.leases ==>
      && token in w.used && w.leases[token].rec.token == token
      && (Over(w, w.leases[token]) || Holds(w, Json(w.leases[token].rec)))
  }

  function Pending(pc: Pc): Option<nat> {
    match pc
    case Creating(draft) => Some(draft.token)
    case Writing(draft, _) => Some(draft.token)
    case _ => None
  }

  predicate TokensDistinct(w: World) {
    forall t, u :: t in w.calls && u in w.calls && t != u && Pending(w.calls[t]).Some? ==>
      Pending(w.calls[t]) != Pending(w.calls[u])
  }

  /** At most one call has created the file and not yet written it. */
  predicate OneWriter(w: World) {
    forall t, u :: t in w.calls && u in w.calls && w.calls[t].Writing? && w.calls[u].Writing? ==> t == u
  }

  predicate Inv(w: World) {
    && FileInv(w) && LeaseInv(w) && TokensDistinct(w) && OneWriter(w)
    && forall tid :: tid in w.calls ==> CallInv(w, tid, w.calls[tid])
  }

  // ------------------------------------------------------------- preservation

  /** Nothing any call relies on gets lost. */
  predicate Quiet(w: World, w': World) {
    && w'.disk == w.disk && w'.leases == w.leases && w.used <= w'.used
    && w.clock <= w'.clock && w'.alive <= w.alive
  }

  lemma QuietKeeps(w: World, w': World, tid: nat, pc: Pc)
    requires CallInv(w, tid, pc) && Quiet(w, w')
    ensures CallInv(w', tid, pc)
  {
  }

  lemma QuietKeepsLeases(w: World, w': World)
    requires FileInv(w) && LeaseInv(w) && Quiet(w, w')
    ensures FileInv(w') && LeaseInv(w')
  {
  }

  /** Entering or leaving the section leaves every other call where it was. */
  lemma MutexFrame(w: World, w': World, tid: nat, u: nat, pc: Pc)
    requires CallInv(w, u, pc) && u != tid
    requires w.disk.mutex.Free? || w.disk.mutex.tid == tid
    requires w' == w.(disk := w.disk.(mutex := w'.disk.mutex), calls := w'.calls)
    ensures CallInv(w', u, pc)
  {
  }

  /** Inside the section the holder may replace or remove a written record: no other call stands on it. */
  lemma SectionFrame(w: World, w': World, tid: nat, u: nat, pc: Pc)
    requires CallInv(w, u, pc) && u != tid
    requires w.disk.mutex.Taken? && w.disk.mutex.tid == tid && w'.disk.mutex == w.disk.mutex
    requires w.disk.lock.File? && w.disk.lock.raw.Json?
    requires w'.leases.Keys == w.leases.Keys && w'.used == w.used && w'.clock == w.clock && w'.alive == w.alive
    ensures CallInv(w', u, pc)
  {
  }

  /** An exclusive create meets no file, so no other call stands on one. */
  lemma CreateFrame(w: World, w': World, u: nat, pc: Pc)
    requires CallInv(w, u, pc) && w.disk.lock.Absent?
    requires w' == w.(disk := w.disk.(lock := w'.disk.lock, nextIno := w'.disk.nextIno), calls := w'.calls)
    ensures CallInv(w', u, pc)
  {
  }

  /** The write of a record fills an empty file, and every other draft has another token. */
  lemma WriteFrame(w: World, w': World, rec: Record, u: nat, pc: Pc)
    requires CallInv(w, u, pc) && Holds(w, Blank) && !pc.Writing?
    requires Pending(pc) != Some(rec.token)
    requires w' == w.(disk := w.disk.(lock := w'.disk.lock), calls := w'.calls,
        leases := w.leases[rec.token := Lease(rec, false)])
    ensures CallInv(w', u, pc)
  {
  }

  lemma DistinctAfter(w: World, w': World, tid: nat, pc: Pc)
    requires TokensDistinct(w) && tid in w.calls && w'.calls == w.calls[tid := pc]
    requires Pending(pc).None? || Pending(pc) == Pending(w.calls[tid])
    ensures TokensDistinct(w')
    ensures OneWriter(w) && !pc.Writing? ==> OneWriter(w')
  {
  }

  lemma TakeoverKeeps(site: Site, w: World, tid: nat)
    requires Inv(w) && Enabled(site, w, Advance(tid)) && Calm(site, w, Advance(tid))
    requires var pc := w.calls[tid];
             pc.Judging? || pc.TakeoverWait? || pc.TakeoverCheck? || pc.TakeoverUnlink? || pc.TakeoverLeave?
    ensures Inv(Next(site, w, Advance(tid)))
  {
    var w' := Next(site, w, Advance(tid));
    var pc := w.calls[tid];
    assert CallInv(w, tid, pc);
    DistinctAfter(w, w', tid, w'.calls[tid]);
    forall u | u in w'.calls ensures CallInv(w', u, w'.calls[u]) {
      if u != tid {
        assert CallInv(w, u, w.calls[u]);
        if pc.TakeoverUnlink? {
          SectionFrame(w, w', tid, u, w.calls[u]);
        } else if pc.TakeoverWait? && w.disk.mutex.Taken? {
        } else if pc.TakeoverWait? || pc.TakeoverLeave? {
          MutexFrame(w, w', tid, u, w.calls[u]);
        }
      }
    }
  }

  lemma CreateKeeps(site: Site, w: World, tid: nat)
    requires Inv(w) && Enabled(site, w, Advance(tid)) && w.calls[tid].Creating?
    ensures Inv(Next(site, w, Advance(tid)))
  {
    var w' := Next(site, w, Advance(tid));
    assert CallInv(w, tid, w.calls[tid]);
    DistinctAfter(w, w', tid, w'.calls[tid]);
    forall u | u in w'.calls ensures CallInv(w', u, w'.calls[u]) {
      if u != tid {
        assert CallInv(w, u, w.calls[u]);
        if w.disk.lock.Absent? {
          CreateFrame(w, w', u, w.calls[u]);
        }
      }
    }
  }

  lemma WriteKeeps(site: Site, w: World, tid: nat)
    requires Inv(w) && Enabled(site, w, Advance(tid)) && w.calls[tid].Writing?
    ensures Inv(Next(site, w, Advance(tid)))
  {
    var w' := Next(site, w, Advance(tid));
    assert CallInv(w, tid, w.calls[tid]);
    DistinctAfter(w, w', tid, w'.calls[tid]);
    forall u | u in w'.calls ensures CallInv(w', u, w'.calls[u]) {
      if u != tid {
        assert CallInv(w, u, w.calls[u]);
        assert !w.calls[u].Writing?;
        WriteFrame(w, w', w.calls[tid].draft, u, w.calls[u]);
      }
    }
  }

  lemma RenewKeeps(site: Site, w: World, tid: nat)
    requires Inv(w) && Enabled(site, w, Advance(tid))
    requires var pc := w.calls[tid];
             pc.RenewWait? || pc.RenewCheck? || pc.RenewStamp? || pc.RenewRename? || pc.RenewLeave?
    ensures Inv(Next(site, w, Advance(tid)))
  {
    var w' := Next(site, w, Advance(tid));
    var pc := w.calls[tid];
    assert CallInv(w, tid, pc);
    DistinctAfter(w, w', tid, w'.calls[tid]);
    forall u | u in w'.calls ensures CallInv(w', u, w'.calls[u]) {
      if u != tid {
        assert CallInv(w, u, w.calls[u]);
        if pc.RenewRename? {
          SectionFrame(w, w', tid, u, w.calls[u]);
        } else if pc.RenewWait? && w.disk.mutex.Taken? {
        } else if pc.RenewWait? || pc.RenewLeave? {
          MutexFrame(w, w', tid, u, w.calls[u]);
        }
      }
    }
  }

  lemma ReleaseKeeps(site: Site, w: World, tid: nat)
    requires Inv(w) && Enabled(site, w, Advance(tid)) && Calm(site, w, Advance(tid))
    requires w.calls[tid].ReleaseWait? || w.calls[tid].ReleaseCheck? || w.calls[tid].ReleaseLeave?
    ensures Inv(Next(site, w, Advance(tid)))
  {
    var w' := Next(site, w, Advance(tid));
    var pc := w.calls[tid];
    assert CallInv(w, tid, pc);
    DistinctAfter(w, w', tid, w'.calls[tid]);
    forall u | u in w'.calls ensures CallInv(w', u, w'.calls[u]) {
      if u != tid {
        assert CallInv(w, u, w.calls[u]);
        if pc.ReleaseWait? && w.disk.mutex.Taken? {
        } else if pc.ReleaseWait? || pc.ReleaseLeave? {
          MutexFrame(w, w', tid, u, w.calls[u]);
        }
      }
    }
  }

  lemma UnlinkKeeps(site: Site, w: World, tid: nat)
    requires Inv(w) && Enabled(site, w, Advance(tid)) && w.calls[tid].ReleaseUnlink?
    ensures Inv(Next(site, w, Advance(tid)))
  {
    var w' := Next(site, w, Advance(tid));
    assert CallInv(w, tid, w.calls[tid]);
    DistinctAfter(w, w', tid, w'.calls[tid]);
    forall u | u in w'.calls ensures CallInv(w', u, w'.calls[u]) {
      if u != tid {
        assert CallInv(w, u, w.calls[u]);
        SectionFrame(w, w', tid, u, w.calls[u]);
      }
    }
  }

  lemma QuietStepIsQuiet(site: Site, w: World, e: Event)
    requires Enabled(site, w, e) && !e.Advance? && !e.BreakMutex?
    ensures Quiet(w, Next(site, w, e))
  {
  }

  lemma QuietStepCalls(site: Site, w: World, e: Event, u: nat)
    requires Inv(w) && Enabled(site, w, e) && !e.Advance? && !e.BreakMutex? && u in Next(site, w, e).calls
    ensures CallInv(Next(site, w, e), u, Next(site, w, e).calls[u])
  {
    assert CallInv(w, u, w.calls[u]);
    QuietStepIsQuiet(site, w, e);
    QuietKeeps(w, Next(site, w, e), u, w.calls[u]);
  }

  lemma QuietStepTokens(site: Site, w: World, e: Event)
    requires Inv(w) && Enabled(site, w, e) && !e.Advance? && !e.BreakMutex?
    ensures TokensDistinct(Next(site, w, e)) && OneWriter(Next(site, w, e))
  {
    assert forall u :: u in w.calls && Pending(w.calls[u]).Some? ==> CallInv(w, u, w.calls[u]);
  }

  lemma QuietStepKeeps(site: Site, w: World, e: Event)
    requires Inv(w) && Enabled(site, w, e) && !e.Advance? && !e.BreakMutex?
    ensures Inv(Next(site, w, e))
  {
    var w' := Next(site, w, e);
    QuietStepIsQuiet(site, w, e);
    QuietKeepsLeases(w, w');
    QuietStepTokens(site, w, e);
    hide Next;
    forall u | u in w'.calls ensures CallInv(w', u, w'.calls[u]) {
      QuietStepCalls(site, w, e, u);
    }
  }

  lemma StepKeeps(site: Site, w: World, e: Event)
    requires Inv(w) && Enabled(site, w, e) && Calm(site, w, e)
    ensures Inv(Next(site, w, e))
  {
    if e.Advance? {
      match w.calls[e.tid]
      case Judging(_, _) => TakeoverKeeps(site, w, e.tid);
      case TakeoverWait(_, _) => TakeoverKeeps(site, w, e.tid);
      case TakeoverCheck(_, _) => TakeoverKeeps(site, w, e.tid);
      case TakeoverUnlink(_, _) => TakeoverKeeps(site, w, e.tid);
      case TakeoverLeave(_) => TakeoverKeeps(site, w, e.tid);
      case Creating(_) => CreateKeeps(site, w, e.tid);
      case Writing(_, _) => WriteKeeps(site, w, e.tid);
      case RenewWait(_, _) => RenewKeeps(site, w, e.tid);
      case RenewCheck(_, _) => RenewKeeps(site, w, e.tid);
      case RenewStamp(_, _) => RenewKeeps(site, w, e.tid);
      case RenewRename(_, _) => RenewKeeps(site, w, e.tid);
      case RenewLeave => RenewKeeps(site, w, e.tid);
      case ReleaseWait(_) => ReleaseKeeps(site, w, e.tid);
      case ReleaseCheck(_) => ReleaseKeeps(site, w, e.tid);
      case ReleaseUnlink(_, _, _) => UnlinkKeeps(site, w, e.tid);
      case ReleaseLeave => ReleaseKeeps(site, w, e.tid);
    } else {
      QuietStepKeeps(site, w, e);
    }
  }

  lemma {:induction false} RunKeeps(site: Site, w: World, es: seq<Event>)
    requires Inv(w) && CalmRun(site, w, es)
    ensures Inv(After(site, w, es))
    decreases |es|
  {
    if es != [] {
      StepKeeps(site, w, es[0]);
      RunKeeps(site, Next(site, w, es[0]), es[1..]);
    }
  }

  // ------------------------------------------------------------- theorems

  /** Acquired, not released, not expired, and its owner not known to be dead. */
  predicate InForce(w: World, token: nat) {
    token in w.leases && !Over(w, w.leases[token])
  }

  predicate InFile(w: World, token: nat) {
    w.disk.lock.File? && w.disk.lock.raw.Json? && w.disk.lock.raw.rec.token == token
  }

  /** Mutual exclusion in every state of every calm run: a lease in force is the one the file holds. */
  lemma MutualExclusion(site: Site, start: World, es: seq<Event>, token: nat, other: nat)
    requires Start(start) && CalmRun(site, start, es)
    requires InForce(After(site, start, es), token)
    ensures Holds(After(site, start, es), Json(After(site, start, es).leases[token].rec))
    ensures InFile(After(site, start, es), token)
    ensures InForce(After(site, start, es), other) ==> other == token
  {
    RunKeeps(site, start, es);
  }

  /** A lease that has left the file. */
  predicate Lost(w: World, token: nat) {
    token in w.leases && !InFile(w, token)
  }

  lemma LostStays(site: Site, w: World, e: Event, token: nat)
    requires Inv(w) && Enabled(site, w, e) && Calm(site, w, e) && Lost(w, token)
    ensures Lost(Next(site, w, e), token)
  {
    if e.Advance? {
      assert CallInv(w, e.tid, w.calls[e.tid]);
    }
  }

  /** A lost lease never comes back, however the run goes on. */
  lemma {:induction false} LostForever(site: Site, w: World, es: seq<Event>, token: nat)
    requires Inv(w) && CalmRun(site, w, es) && Lost(w, token)
    ensures Lost(After(site, w, es), token)
    ensures !InForce(After(site, w, es), token)
    decreases |es|
  {
    if es != [] {
      StepKeeps(site, w, es[0]);
      LostStays(site, w, es[0], token);
      LostForever(site, Next(site, w, es[0]), es[1..], token);
    }
  }

  /** The call renews or releases with this token. */
  predicate ActsFor(pc: Pc, token: nat) {
    match pc
    case RenewCheck(t, _) => t == token
    case RenewStamp(current, _) => current.token == token
    case RenewRename(current, _) => current.token == token
    case ReleaseCheck(how) => how == ReleaseBy(Some(token), {}, false)
    case ReleaseUnlink(target, _, _) => target.Json? && target.rec.token == token
    case _ => false
  }

  /** Once a token has left the file, its renewals and releases fail without touching the file. */
  lemma LostCannotWrite(site: Site, start: World, es: seq<Event>, w: World, tid: nat, token: nat)
    requires Start(start) && CalmRun(site, start, es) && w == After(site, start, es)
    requires Lost(w, token) && Enabled(site, w, Advance(tid)) && ActsFor(w.calls[tid], token)
    ensures Next(site, w, Advance(tid)).disk == w.disk && Next(site, w, Advance(tid)).leases == w.leases
    ensures Next(site, w, Advance(tid)).calls[tid] in {RenewLeave, ReleaseLeave}
  {
    RunKeeps(site, start, es);
    assert CallInv(w, tid, w.calls[tid]);
  }

  /** A call about to unlink was asked by the token of the record, or by the pid that owns it on its own host. */
  predicate UnlinksOwn(site: Site, w: World, tid: nat) {
    tid in w.calls && w.calls[tid].ReleaseUnlink? ==>
      var (target, how) := (w.calls[tid].target, w.calls[tid].how);
      && tid in site.home && target.Json?
      && (|| how.token == Some(target.rec.token)
          || (&& target.rec.owner.host == site.home[tid].host
              && target.rec.owner.pid.Some? && target.rec.owner.pid.value in how.callerPids))
  }

  lemma {:induction false} RunUnlinksOwn(site: Site, w: World, es: seq<Event>, tid: nat)
    requires CalmRun(site, w, es) && UnlinksOwn(site, w, tid)
    ensures UnlinksOwn(site, After(site, w, es), tid)
    decreases |es|
  {
    if es != [] {
      StepUnlinksOwn(site, w, es[0], tid);
      RunUnlinksOwn(site, Next(site, w, es[0]), es[1..], tid);
    }
  }

  lemma StepUnlinksOwn(site: Site, w: World, e: Event, tid: nat)
    requires Enabled(site, w, e) && Calm(site, w, e) && UnlinksOwn(site, w, tid)
    ensures UnlinksOwn(site, Next(site, w, e), tid)
  {
  }

  /** A live lease only ever leaves the file through a release by its own token, or by its own pid on its own host. */
  lemma NeverStolen(site: Site, start: World, es: seq<Event>, w: World, e: Event, token: nat)
    requires Start(start) && CalmRun(site, start, es) && w == After(site, start, es)
    requires Enabled(site, w, e) && Calm(site, w, e)
    requires InForce(w, token) && !InFile(Next(site, w, e), token)
    ensures e.Advance? && w.calls[e.tid].ReleaseUnlink? && w.calls[e.tid].target == Json(w.leases[token].rec)
    ensures var (rec, how) := (w.leases[token].rec, w.calls[e.tid].how);
            || how.token == Some(token)
            || (&& rec.owner.host == site.home[e.tid].host
                && rec.owner.pid.Some? && rec.owner.pid.value in how.callerPids)
    ensures Next(site, w, e).leases[token].released
  {
    RunKeeps(site, start, es);
    if e.Advance? {
      RunUnlinksOwn(site, start, es, e.tid);
      assert CallInv(w, e.tid, w.calls[e.tid]);
    }
  }

  /**
   What a release finds in the file decides it: it goes on to unlink exactly the record of its own token or of
   one of its pids on its own host, or whatever is there when it is forced; otherwise it leaves.
   */
  lemma ReleaseChecksExactly(site: Site, w: World, tid: nat)
    requires Enabled(site, w, Advance(tid)) && w.calls[tid].ReleaseCheck?
    ensures var (how, lock, w') := (w.calls[tid].how, w.disk.lock, Next(site, w, Advance(tid)));
            var own := lock.File? && lock.raw.Json? &&
              (|| how.token == Some(lock.raw.rec.token)
               || (&& lock.raw.rec.owner.host == site.home[tid].host
                   && lock.raw.rec.owner.pid.Some? && lock.raw.rec.owner.pid.value in how.callerPids));
            && w' == w.(calls := w.calls[tid := w'.calls[tid]])
            && w'.calls[tid] == if lock.File? && (own || how.force) then ReleaseUnlink(lock.raw, how, own)
                else ReleaseLeave
  {
  }

  /**
   What a call finds when it tries to acquire decides it: no file, and it drafts its record; a record past its
   expiry or of a process known here to be dead, or an unreadable file past its grace, and it goes on to take that
   over; otherwise it goes away.
   */
  lemma JudgesExactly(site: Site, w: World, tid: nat)
    requires Enabled(site, w, Advance(tid)) && w.calls[tid].Judging?
    ensures var (req, seen, w') := (w.calls[tid].req, w.calls[tid].seen, Next(site, w, Advance(tid)));
            var over :=
              match seen
              case Missing => false
              case Seen(Blank, mtime) => mtime + site.graceMs < w.clock
              case Seen(Json(rec), _) =>
                || rec.expiresAt <= w.clock
                || (&& rec.owner.host == site.home[tid].host && rec.owner.pid.Some?
                    && Process(rec.owner.host, rec.owner.pid.value) !in w.alive);
            && w' == w.(calls := w.calls[tid := w'.calls[tid]])
            && w'.calls[tid] == if seen.Missing? then Drafting(req) else if over then TakeoverWait(req, seen.raw)
                else Idle
  {
  }

  /** The mutex is broken only by a live call that waits for it, once it is held for more than ten seconds. */
  lemma BreaksExactly(site: Site, w: World, tid: nat)
    ensures Enabled(site, w, BreakMutex(tid)) <==>
              && tid in w.calls && tid in site.home && site.home[tid] in w.alive
              && (w.calls[tid].TakeoverWait? || w.calls[tid].RenewWait? || w.calls[tid].ReleaseWait?)
              && w.disk.mutex.Taken? && w.disk.mutex.since + 10_000 < w.clock
    ensures Enabled(site, w, BreakMutex(tid)) ==>
              Next(site, w, BreakMutex(tid)) == w.(disk := Disk(w.disk.lock, Free, w.disk.nextIno))
  {
  }

  /** Time may pass and a process may die at any moment, and both leave files, calls and leases as they are. */
  lemma OutsideMoves(site: Site, w: World, ms: nat, process: Process)
    ensures Enabled(site, w, Tick(ms)) && Next(site, w, Tick(ms)) == w.(clock := w.clock + ms)
    ensures Enabled(site, w, Die(process))
    ensures Next(site, w, Die(process)) == w.(alive := set p | p in w.alive && p != process)
  {
  }

  /** Every takeover unlinks the very record it judged, which is over; any change in between defeats it. */
  lemma TakeoverTakesTheJudged(site: Site, start: World, es: seq<Event>, w: World, tid: nat)
    requires Start(start) && CalmRun(site, start, es) && w == After(site, start, es)
    requires Enabled(site, w, Advance(tid)) && (w.calls[tid].TakeoverCheck? || w.calls[tid].TakeoverUnlink?)
    ensures w.calls[tid].TakeoverUnlink? ==>
              && Holds(w, w.calls[tid].judged) && w.calls[tid].judged.Json?
              && !InForce(w, w.calls[tid].judged.rec.token)
    ensures w.calls[tid].TakeoverCheck? && !Holds(w, w.calls[tid].judged) ==>
              && Next(site, w, Advance(tid)).disk == w.disk
              && Next(site, w, Advance(tid)).calls[tid].TakeoverLeave?
  {
    RunKeeps(site, start, es);
    assert CallInv(w, tid, w.calls[tid]);
  }
}
