/**
 Why the theorems of LockSafety are about calm runs: each of the three steps they exclude can, alone,
 put two leases in force at once.
 */
module LockAccidents {
  import opened Options
  import opened LockStore
  import opened LockSafety

  datatype Accident = Unreadable | Forced | Broken

  predicate Is(site: Site, w: World, e: Event, accident: Accident)
    requires Enabled(site, w, e)
  {
    match accident
    case Unreadable => TakesUnreadable(site, w, e)
    case Forced => Forces(site, w, e)
    case Broken => e.BreakMutex?
  }

  /** A run whose only steps that are not calm are accidents of one kind. */
  predicate RunWith(site: Site, w: World, es: seq<Event>, accident: Accident)
    decreases |es|
  {
    es == [] || (
      && Enabled(site, w, es[0]) && (Calm(site, w, es[0]) || Is(site, w, es[0], accident))
      && RunWith(site, Next(site, w, es[0]), es[1..], accident))
  }

  function End(site: Site, w: World, es: seq<Event>, accident: Accident): World
    requires RunWith(site, w, es, accident)
    decreases |es|
  {
    if es == [] then w else End(site, Next(site, w, es[0]), es[1..], accident)
  }

  ghost predicate Reaches(site: Site, start: World, w: World, accident: Accident) {
    exists es :: RunWith(site, start, es, accident) && End(site, start, es, accident) == w
  }

  lemma {:induction false} Snoc(site: Site, w: World, es: seq<Event>, e: Event, accident: Accident)
    requires RunWith(site, w, es, accident)
    requires Enabled(site, End(site, w, es, accident), e)
    requires Calm(site, End(site, w, es, accident), e) || Is(site, End(site, w, es, accident), e, accident)
    ensures RunWith(site, w, es + [e], accident)
    ensures End(site, w, es + [e], accident) == Next(site, End(site, w, es, accident), e)
    decreases |es|
  {
    if es == [] {
      assert RunWith(site, Next(site, w, e), [], accident);
      assert (es + [e])[1..] == [];
    } else {
      Snoc(site, Next(site, w, es[0]), es[1..], e, accident);
      assert (es + [e])[1..] == es[1..] + [e];
    }
  }

  lemma Then(site: Site, start: World, w: World, e: Event, accident: Accident)
    requires Reaches(site, start, w, accident)
    requires Enabled(site, w, e) && (Calm(site, w, e) || Is(site, w, e, accident))
    ensures Reaches(site, start, Next(site, w, e), accident)
  {
    var es :| RunWith(site, start, es, accident) && End(site, start, es, accident) == w;
    Snoc(site, start, es, e, accident);
  }

  // ------------------------------------------------------------- three processes of one host

  const SITE := Site(map[1 := Process("h", 1), 2 := Process("h", 2), 3 := Process("h", 3)], 10_000)

  const START := World(
    Disk(Absent, Free, 0), 0, {Process("h", 1), Process("h", 2), Process("h", 3)}, {}, map[],
    map[1 := Idle, 2 := Idle, 3 := Idle])

  const ASK := Request(Owner(None, "h", "agent"), 900_000, "")

  function Drawn(token: nat, now: int): Record {
    DraftOf(ASK, token, now)
  }

  ghost predicate TwoInForce(w: World) {
    exists t, u :: t != u && InForce(w, t) && InForce(w, u)
  }

  /** A state reached with every process alive. */
  ghost predicate At(w: World, accident: Accident) {
    && Reaches(SITE, START, w, accident)
    && w.alive == START.alive && w.calls.Keys == {1, 2, 3}
  }

  lemma Start(accident: Accident)
    ensures At(START, accident)
  {
    assert RunWith(SITE, START, [], accident) && End(SITE, START, [], accident) == START;
  }

  lemma Go(w: World, e: Event, accident: Accident) returns (w': World)
    requires At(w, accident) && !e.Die?
    requires Enabled(SITE, w, e) && (Calm(SITE, w, e) || Is(SITE, w, e, accident))
    ensures w' == Next(SITE, w, e) && At(w', accident)
  {
    w' := Next(SITE, w, e);
    Then(SITE, START, w, e, accident);
  }

  /** The call goes from its read of no file to the empty file it creates. */
  lemma Drafts(w: World, tid: nat, token: nat, accident: Accident) returns (w': World)
    requires At(w, accident) && tid in {1, 2, 3} && w.calls[tid] == Drafting(ASK) && token !in w.used
    ensures At(w', accident)
    ensures w' == w.(used := w.used + {token}, calls := w.calls[tid := Creating(Drawn(token, w.clock))])
  {
    w' := Go(w, Draft(tid, token), accident);
  }

  lemma CreatesBlank(w: World, tid: nat, token: nat, accident: Accident) returns (w': World)
    requires At(w, accident) && tid in {1, 2, 3} && w.calls[tid] == Drafting(ASK)
    requires w.disk.lock.Absent? && token !in w.used
    ensures At(w', accident)
    ensures w' == w.(
      disk := w.disk.(lock := File(w.disk.nextIno, Blank, w.clock), nextIno := w.disk.nextIno + 1),
      used := w.used + {token}, calls := w'.calls)
    ensures w'.calls == w.calls[tid := Writing(Drawn(token, w.clock), w.disk.nextIno)]
  {
    w' := Drafts(w, tid, token, accident);
    w' := Go(w', Advance(tid), accident);
  }

  lemma Writes(w: World, tid: nat, accident: Accident) returns (w': World)
    requires At(w, accident) && tid in {1, 2, 3} && w.calls[tid].Writing?
    ensures At(w', accident)
    ensures var pc := w.calls[tid];
      w' == w.(
        disk := if w.disk.lock.File? && w.disk.lock.ino == pc.ino
                then w.disk.(lock := File(pc.ino, Json(pc.draft), w.clock)) else w.disk,
        leases := w.leases[pc.draft.token := Lease(pc.draft, false)], calls := w.calls[tid := Idle])
  {
    w' := Go(w, Advance(tid), accident);
  }

  lemma ReadsNothing(w: World, tid: nat, accident: Accident) returns (w': World)
    requires At(w, accident) && tid in {1, 2, 3} && w.calls[tid].Idle? && w.disk.lock.Absent?
    ensures At(w', accident) && w' == w.(calls := w.calls[tid := Drafting(ASK)])
  {
    w' := Go(w, Acquire(tid, ASK), accident);
    w' := Go(w', Advance(tid), accident);
    assert w'.calls == w.calls[tid := Drafting(ASK)];
  }

  function Eye(w: World, tid: nat): View {
    View(tid, "h", w.clock, START.alive, 10_000)
  }

  /** One step of a call that neither judges nor forces anything. */
  lemma Moves(w: World, tid: nat, d: Disk, pc: Pc, note: Note, accident: Accident) returns (w': World)
    requires At(w, accident) && tid in {1, 2, 3} && !w.calls[tid].Idle? && !w.calls[tid].Drafting?
    requires !w.calls[tid].Judging? && (w.calls[tid].ReleaseCheck? ==> !w.calls[tid].how.force || accident.Forced?)
    requires Act(w.disk, Eye(w, tid), w.calls[tid]) == Effect(d, pc, note)
    ensures At(w', accident)
    ensures w' == w.(disk := d, calls := w.calls[tid := pc], leases := Entitle(w.leases, note))
  {
    assert ViewOf(SITE, w, tid) == Eye(w, tid);
    w' := Go(w, Advance(tid), accident);
  }

  /** A call whose judgement is made and whose judged content is still there unlinks it. */
  lemma TakesOver(w: World, tid: nat, judged: Raw, accident: Accident) returns (w': World)
    requires At(w, accident) && tid in {1, 2, 3} && w.calls[tid] == TakeoverWait(ASK, judged)
    requires w.disk.mutex.Free? && w.disk.lock.File? && w.disk.lock.raw == judged
    ensures At(w', accident)
    ensures w' == w.(disk := w.disk.(lock := Absent), calls := w.calls[tid := Drafting(ASK)])
  {
    hide Reaches;
    hide ActCreate;
    hide ActRenew;
    hide ActRelease;
    hide Staleness;
    var d := w.disk.(mutex := Taken(tid, w.clock));
    w' := Moves(w, tid, d, TakeoverCheck(ASK, judged), Nothing, accident);
    w' := Moves(w', tid, d, TakeoverUnlink(ASK, judged), Nothing, accident);
    w' := Moves(w', tid, d.(lock := Absent), TakeoverLeave(ASK), Nothing, accident);
    w' := Moves(w', tid, w.disk.(lock := Absent), Drafting(ASK), Nothing, accident);
    assert w'.calls == w.calls[tid := Drafting(ASK)];
  }

  /** The last two steps of a release, renewal or takeover: its change of the file, then its exit. */
  lemma Finishes(w: World, tid: nat, d: Disk, leaving: Pc, note: Note, accident: Accident) returns (w': World)
    requires At(w, accident) && tid in {1, 2, 3} && (w.calls[tid].ReleaseUnlink? || w.calls[tid].RenewRename?)
    requires Act(w.disk, Eye(w, tid), w.calls[tid]) == Effect(d, leaving, note)
    requires leaving == ReleaseLeave || leaving == RenewLeave
    ensures At(w', accident)
    ensures w' == w.(disk := d.(mutex := Free), calls := w.calls[tid := Idle], leases := Entitle(w.leases, note))
  {
    w' := Moves(w, tid, d, leaving, note, accident);
    var calls := w'.calls;
    w' := Moves(w', tid, d.(mutex := Free), Idle, Nothing, accident);
    assert calls[tid := Idle] == w.calls[tid := Idle];
  }

  /** A release whose check passes, by its owner or by force. */
  lemma MayRelease(w: World, tid: nat, how: ReleaseBy, accident: Accident) returns (w': World)
    requires At(w, accident) && tid in {1, 2, 3} && w.calls[tid].Idle?
    requires w.disk.mutex.Free? && w.disk.lock.File? && w.disk.lock.raw.Json?
    requires how == ReleaseBy(Some(w.disk.lock.raw.rec.token), {}, false)
        || (how == ReleaseBy(None, {}, true) && accident.Forced?)
    ensures At(w', accident)
    ensures w' == w.(
      disk := w.disk.(mutex := Taken(tid, w.clock)),
      calls := w.calls[tid := ReleaseUnlink(w.disk.lock.raw, how, !how.force)])
  {
    hide Reaches;
    hide ActCreate;
    hide ActRenew;
    hide ActTakeover;
    var raw := w.disk.lock.raw;
    var d := w.disk.(mutex := Taken(tid, w.clock));
    w' := Go(w, Release(tid, how), accident);
    w' := Moves(w', tid, d, ReleaseCheck(how), Nothing, accident);
    w' := Moves(w', tid, d, ReleaseUnlink(raw, how, !how.force), Nothing, accident);
    assert w'.calls == w.calls[tid := ReleaseUnlink(raw, how, !how.force)];
  }

  lemma Releases(w: World, tid: nat, how: ReleaseBy, accident: Accident) returns (w': World)
    requires At(w, accident) && tid in {1, 2, 3} && w.calls[tid].Idle?
    requires w.disk.mutex.Free? && w.disk.lock.File? && w.disk.lock.raw.Json?
    requires how == ReleaseBy(Some(w.disk.lock.raw.rec.token), {}, false)
        || (how == ReleaseBy(None, {}, true) && accident.Forced?)
    ensures At(w', accident)
    ensures w' == w.(
      disk := w.disk.(lock := Absent),
      leases := if how.force then w.leases else Entitle(w.leases, Released(w.disk.lock.raw.rec.token)))
  {
    w' := MayRelease(w, tid, how, accident);
    var note := if how.force then Nothing else Released(w.disk.lock.raw.rec.token);
    w' := Finishes(w', tid, w'.disk.(lock := Absent), ReleaseLeave, note, accident);
    assert w'.calls == w.calls;
  }

  /** A call reads the file and judges it stale. */
  lemma Judges(w: World, tid: nat, mtime: int, raw: Raw, accident: Accident) returns (w': World)
    requires At(w, accident) && tid in {1, 2, 3} && w.calls[tid] == Judging(ASK, Seen(raw, mtime))
    requires if raw.Blank? then w.clock - mtime > 10_000 && accident.Unreadable? else raw.rec.expiresAt <= w.clock
    ensures At(w', accident) && w' == w.(calls := w.calls[tid := TakeoverWait(ASK, raw)])
  {
    w' := Go(w, Advance(tid), accident);
  }

  lemma Both(w: World, t: nat, u: nat)
    requires t != u && InForce(w, t) && InForce(w, u)
    ensures TwoInForce(w)
  {
  }

  // ------------------------------------------------------------- the three accidents

  /** Call 3 unlinks by force the lease of call 1, which believes it still holds the lock. */
  lemma ForcedReleaseBreaksExclusion()
    ensures exists w :: Reaches(SITE, START, w, Forced) && TwoInForce(w)
  {
    Start(Forced);
    var w := ReadsNothing(START, 1, Forced);
    w := CreatesBlank(w, 1, 1, Forced);
    w := Writes(w, 1, Forced);
    w := Releases(w, 3, ReleaseBy(None, {}, true), Forced);
    w := ReadsNothing(w, 2, Forced);
    w := CreatesBlank(w, 2, 2, Forced);
    w := Writes(w, 2, Forced);
    Both(w, 1, 2);
  }

  /**
   Call 2 reads the empty file of call 1 and pauses. Call 1 writes at once, releases, and call 3 creates
   a new empty file: call 2 judges its old snapshot, the two empty contents look alike, and it unlinks
   the new file. Every creator writes within the grace of its own create.
   */
  lemma UnreadableTakeoverBreaksExclusion()
    ensures exists w :: Reaches(SITE, START, w, Unreadable) && TwoInForce(w)
  {
    Start(Unreadable);
    var w := ReadsNothing(START, 1, Unreadable);
    w := CreatesBlank(w, 1, 1, Unreadable);
    w := Go(w, Acquire(2, ASK), Unreadable);
    w := Writes(w, 1, Unreadable);
    w := Releases(w, 1, ReleaseBy(Some(1), {}, false), Unreadable);
    w := AnotherBlank(w);
    w := Judges(w, 2, 0, Blank, Unreadable);
    w := TakesOver(w, 2, Blank, Unreadable);
    w := CreatesBlank(w, 2, 2, Unreadable);
    w := Writes(w, 2, Unreadable);
    w := Writes(w, 3, Unreadable);
    Both(w, 2, 3);
  }

  lemma AnotherBlank(w: World) returns (w': World)
    requires At(w, Unreadable) && w.disk.lock.Absent? && w.disk.mutex.Free?
        && w.clock == 0 && w.calls[3].Idle? && w.used == {1}
    ensures At(w', Unreadable) && w'.clock == 10_001 && w'.used == {1, 3} && w'.leases == w.leases
    ensures w'.disk == w.disk.(lock := File(w.disk.nextIno, Blank, 10_001), nextIno := w.disk.nextIno + 1)
    ensures w'.calls == w.calls[3 := Writing(Drawn(3, 10_001), w.disk.nextIno)]
  {
    w' := Go(w, Tick(10_001), Unreadable);
    w' := ReadsNothing(w', 3, Unreadable);
    w' := CreatesBlank(w', 3, 3, Unreadable);
    assert w'.calls == w.calls[3 := Writing(Drawn(3, 10_001), w.disk.nextIno)];
  }

  /**
   Call 2 judges the expired lease of call 1 and pauses inside the section for more than ten seconds;
   call 3 breaks the mutex, call 1 renews its lease, and call 2 then unlinks the renewed record.
   */
  lemma BrokenMutexBreaksExclusion()
    ensures exists w :: Reaches(SITE, START, w, Broken) && TwoInForce(w)
  {
    Start(Broken);
    var w := ReadsNothing(START, 1, Broken);
    w := CreatesBlank(w, 1, 1, Broken);
    w := Writes(w, 1, Broken);
    w := ExpiredAndPaused(w);
    w := RenewsMeanwhile(w);
    var d := w.disk.(lock := Absent);
    w := Moves(w, 2, d, TakeoverLeave(ASK), Nothing, Broken);
    w := Moves(w, 2, d, Drafting(ASK), Nothing, Broken);
    w := CreatesBlank(w, 2, 2, Broken);
    w := Writes(w, 2, Broken);
    Both(w, 1, 2);
  }

  /** Calls 2 and 3 judge the expired record; call 2 enters and stops before its unlink; call 3 breaks the mutex. */
  lemma ExpiredForBoth(w: World) returns (w': World)
    requires At(w, Broken) && w.disk.lock.File? && w.clock == 0
    requires w.disk.lock.raw == Json(Drawn(1, 0)) && w.calls[2].Idle? && w.calls[3].Idle?
    ensures At(w', Broken)
    ensures w' == w.(clock := 900_000, calls := w'.calls) && w'.calls[1] == w.calls[1]
    ensures w'.calls[2] == w'.calls[3] == TakeoverWait(ASK, Json(Drawn(1, 0)))
  {
    var raw := w.disk.lock.raw;
    w' := Go(w, Tick(900_000), Broken);
    w' := Go(w', Acquire(2, ASK), Broken);
    w' := Judges(w', 2, w.disk.lock.mtime, raw, Broken);
    w' := Go(w', Acquire(3, ASK), Broken);
    w' := Judges(w', 3, w.disk.lock.mtime, raw, Broken);
  }

  lemma ExpiredAndPaused(w: World) returns (w': World)
    requires At(w, Broken) && w.disk.lock.File? && w.disk.mutex.Free? && w.clock == 0
    requires w.disk.lock.raw == Json(Drawn(1, 0)) && w.calls[2].Idle? && w.calls[3].Idle?
    ensures At(w', Broken)
    ensures w' == w.(clock := 910_001, calls := w'.calls) && w'.calls[1] == w.calls[1]
    ensures w'.calls[2] == TakeoverUnlink(ASK, Json(Drawn(1, 0)))
  {
    var raw := w.disk.lock.raw;
    w' := ExpiredForBoth(w);
    var d := w.disk.(mutex := Taken(2, 900_000));
    w' := Moves(w', 2, d, TakeoverCheck(ASK, raw), Nothing, Broken);
    w' := Moves(w', 2, d, TakeoverUnlink(ASK, raw), Nothing, Broken);
    w' := Go(w', Tick(10_001), Broken);
    w' := Go(w', BreakMutex(3), Broken);
  }

  lemma RenewsMeanwhile(w: World) returns (w': World)
    requires At(w, Broken) && w.disk.lock.File? && w.disk.mutex.Free? && w.calls[1].Idle?
    requires w.disk.lock.raw == Json(Drawn(1, 0))
    ensures At(w', Broken) && w'.clock == w.clock && w'.used == w.used && w'.calls == w.calls
    ensures w'.disk.lock.File? && w'.disk.mutex.Free?
    ensures var rec := Drawn(1, 0).(heartbeatAt := w.clock, expiresAt := w.clock + 900_000);
            w'.leases == w.leases[1 := Lease(rec, false)]
  {
    var first := Drawn(1, 0);
    var rec := first.(heartbeatAt := w.clock, expiresAt := w.clock + 900_000);
    w' := MayRenew(w, first, rec);
    var d := w'.disk;
    w' := Finishes(w', 1, Disk(File(d.nextIno, Json(rec), w.clock), d.mutex, d.nextIno + 1),
        RenewLeave, Renewed(rec), Broken);
    assert w'.calls == w.calls;
  }

  lemma MayRenew(w: World, first: Record, rec: Record) returns (w': World)
    requires At(w, Broken) && w.disk.lock.File? && w.disk.mutex.Free? && w.calls[1].Idle?
    requires w.disk.lock.raw == Json(first) && first.token == 1
    requires rec == first.(heartbeatAt := w.clock, expiresAt := w.clock + 900_000)
    ensures At(w', Broken)
    ensures w' == w.(disk := w.disk.(mutex := Taken(1, w.clock)), calls := w.calls[1 := RenewRename(first, rec)])
  {
    var d := w.disk.(mutex := Taken(1, w.clock));
    w' := Go(w, Renew(1, 1, 900_000), Broken);
    w' := Moves(w', 1, d, RenewCheck(1, 900_000), Nothing, Broken);
    w' := Moves(w', 1, d, RenewStamp(first, 900_000), Nothing, Broken);
    w' := Moves(w', 1, d, RenewRename(first, rec), Nothing, Broken);
    assert w'.calls == w.calls[1 := RenewRename(first, rec)];
  }
}
