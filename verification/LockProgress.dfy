/** What each operation of the lock does when no other call gets in between. */
module LockProgress {
  import opened Options
  import opened LockStore
  import opened LockSafety

  function Advances(tid: nat, n: nat): seq<Event> {
    if n == 0 then [] else [Advance(tid)] + Advances(tid, n - 1)
  }

  /** One calm step of the call leads from a world to the next. */
  predicate StepsTo(site: Site, w: World, tid: nat, w': World) {
    Enabled(site, w, Advance(tid)) && Calm(site, w, Advance(tid)) && Next(site, w, Advance(tid)) == w'
  }

  predicate Walk(site: Site, tid: nat, path: seq<World>) {
    path != [] && forall i :: 0 <= i < |path| - 1 ==> StepsTo(site, path[i], tid, path[i + 1])
  }

  lemma {:induction false} WalkIsRun(site: Site, tid: nat, path: seq<World>)
    requires Walk(site, tid, path)
    ensures CalmRun(site, path[0], Advances(tid, |path| - 1))
    ensures After(site, path[0], Advances(tid, |path| - 1)) == path[|path| - 1]
  {
    if |path| > 1 {
      assert StepsTo(site, path[0], tid, path[1]);
      var rest := path[1..];
      forall i | 0 <= i < |rest| - 1 ensures StepsTo(site, rest[i], tid, rest[i + 1]) {
        assert StepsTo(site, path[i + 1], tid, path[i + 2]);
      }
      WalkIsRun(site, tid, rest);
      assert Advances(tid, |path| - 1)[1..] == Advances(tid, |rest| - 1);
    }
  }

  /** An event, then steps of one call. */
  lemma EventThenWalk(site: Site, w: World, e: Event, tid: nat, path: seq<World>)
    requires Enabled(site, w, e) && Calm(site, w, e) && Walk(site, tid, path) && Next(site, w, e) == path[0]
    ensures CalmRun(site, w, [e] + Advances(tid, |path| - 1))
    ensures After(site, w, [e] + Advances(tid, |path| - 1)) == path[|path| - 1]
  {
    WalkIsRun(site, tid, path);
    assert ([e] + Advances(tid, |path| - 1))[1..] == Advances(tid, |path| - 1);
  }

  /** The world with the call at this operation, and this disk and leases. */
  function With(w: World, tid: nat, pc: Pc, disk: Disk, leases: map<nat, Lease>): World {
    w.(calls := w.calls[tid := pc], disk := disk, leases := leases)
  }

  function Entered(w: World, tid: nat): Disk {
    w.disk.(mutex := Taken(tid, w.clock))
  }

  predicate Moving(pc: Pc) {
    !pc.Idle? && !pc.Drafting? && !pc.Judging? && !(pc.ReleaseCheck? && pc.how.force)
  }

  /** One operation of the call, as the store performs it. */
  lemma Moves(site: Site, w: World, tid: nat, pc: Pc, disk: Disk, leases: map<nat, Lease>, effect: Effect)
    requires Runs(site, w, tid) && Moving(pc) && Act(disk, ViewOf(site, w, tid), pc) == effect
    ensures StepsTo(site, With(w, tid, pc, disk, leases), tid,
                    With(w, tid, effect.pc, effect.disk, Entitle(leases, effect.note)))
  {
    hide Act;
    assert w.calls[tid := pc][tid := effect.pc] == w.calls[tid := effect.pc];
  }

  lemma BackToIdle(w: World, tid: nat)
    requires tid in w.calls && w.calls[tid].Idle?
    ensures With(w, tid, Idle, w.disk, w.leases) == w
    ensures forall disk, leases :: With(w, tid, Idle, disk, leases) == w.(disk := disk, leases := leases)
  {
    assert w.calls[tid := Idle] == w.calls;
  }

  // ------------------------------------------------------------------ acquiring

  /** With no file in the way a call gets the lock: its record is in the file and its lease begins. */
  lemma CreateAlone(site: Site, w: World, tid: nat, token: nat)
    requires Runs(site, w, tid) && w.calls[tid].Drafting? && token !in w.used && w.disk.lock.Absent?
    ensures var es := [Draft(tid, token)] + Advances(tid, 2);
            var req := w.calls[tid].req;
            var rec := Record(req.owner, token, w.clock, w.clock + req.ttlMs, w.clock, req.ttlMs, req.purpose);
            && CalmRun(site, w, es)
            && After(site, w, es) == With(
                 w, tid, Idle, Disk(File(w.disk.nextIno, Json(rec), w.clock), w.disk.mutex, w.disk.nextIno + 1),
                 w.leases[token := Lease(rec, false)]).(used := w.used + {token})
  {
    var rec := DraftOf(w.calls[tid].req, token, w.clock);
    var u := w.(used := w.used + {token});
    var blank := Disk(File(w.disk.nextIno, Blank, w.clock), w.disk.mutex, w.disk.nextIno + 1);
    var written := blank.(lock := File(w.disk.nextIno, Json(rec), w.clock));
    var writing := Writing(rec, w.disk.nextIno);
    Moves(site, u, tid, Creating(rec), w.disk, w.leases, Effect(blank, writing, Nothing));
    Moves(site, u, tid, writing, blank, w.leases, Effect(written, Idle, Leased(rec)));
    EventThenWalk(site, w, Draft(tid, token), tid,
                  [With(u, tid, Creating(rec), w.disk, w.leases), With(u, tid, writing, blank, w.leases),
                   With(u, tid, Idle, written, Entitle(w.leases, Leased(rec)))]);
  }

  lemma JudgedStale(site: Site, w: World, tid: nat, req: Request)
    requires Runs(site, w, tid) && w.disk.lock.File? && w.disk.lock.raw.Json?
    requires Staleness(Look(w.disk.lock), w.clock, site.home[tid].host, w.alive, site.graceMs).Some?
    ensures StepsTo(site, With(w, tid, Judging(req, Look(w.disk.lock)), w.disk, w.leases), tid,
                    With(w, tid, TakeoverWait(req, w.disk.lock.raw), w.disk, w.leases))
  {
    var judging := Judging(req, Look(w.disk.lock));
    assert w.calls[tid := judging][tid := TakeoverWait(req, w.disk.lock.raw)]
        == w.calls[tid := TakeoverWait(req, w.disk.lock.raw)];
  }

  /** A call that meets an expired record, or one of a dead process of its host, unlinks it and then meets no file. */
  lemma TakeOverAlone(site: Site, w: World, tid: nat, req: Request)
    requires Runs(site, w, tid) && w.calls[tid].Idle? && w.disk.mutex.Free?
    requires w.disk.lock.File? && w.disk.lock.raw.Json?
    requires var rec := w.disk.lock.raw.rec;
             || rec.expiresAt <= w.clock
             || (&& rec.owner.host == site.home[tid].host && rec.owner.pid.Some?
                 && Process(rec.owner.host, rec.owner.pid.value) !in w.alive)
    ensures var es := [Acquire(tid, req)] + Advances(tid, 5);
            && CalmRun(site, w, es)
            && After(site, w, es) == With(w, tid, Drafting(req), w.disk.(lock := Absent), w.leases)
  {
    var raw, inside, l := w.disk.lock.raw, Entered(w, tid), w.leases;
    var gone := inside.(lock := Absent);
    JudgedStale(site, w, tid, req);
    Moves(site, w, tid, TakeoverWait(req, raw), w.disk, l, Effect(inside, TakeoverCheck(req, raw), Nothing));
    Moves(site, w, tid, TakeoverCheck(req, raw), inside, l, Effect(inside, TakeoverUnlink(req, raw), Nothing));
    Moves(site, w, tid, TakeoverUnlink(req, raw), inside, l, Effect(gone, TakeoverLeave(req), Nothing));
    Moves(site, w, tid, TakeoverLeave(req), gone, l, Effect(w.disk.(lock := Absent), Drafting(req), Nothing));
    hide StepsTo;
    EventThenWalk(site, w, Acquire(tid, req), tid,
                  [With(w, tid, Judging(req, Look(w.disk.lock)), w.disk, l),
                  With(w, tid, TakeoverWait(req, raw), w.disk, l),
                   With(w, tid, TakeoverCheck(req, raw), inside, l), With(w, tid, TakeoverUnlink(req, raw), inside, l),
                   With(w, tid, TakeoverLeave(req), gone, l),
                   With(w, tid, Drafting(req), w.disk.(lock := Absent), l)]);
  }

  /** A call that meets a live record, or a fresh unreadable file, goes away and leaves everything as it was. */
  lemma RefusedAlone(site: Site, w: World, tid: nat, req: Request)
    requires Runs(site, w, tid) && w.calls[tid].Idle? && w.disk.lock.File?
    requires match w.disk.lock.raw
             case Blank => w.clock <= w.disk.lock.mtime + site.graceMs
             case Json(rec) =>
               && w.clock < rec.expiresAt
               && (|| rec.owner.host != site.home[tid].host || rec.owner.pid.None?
                   || Process(rec.owner.host, rec.owner.pid.value) in w.alive)
    ensures var es := [Acquire(tid, req)] + Advances(tid, 1); CalmRun(site, w, es) && After(site, w, es) == w
  {
    var judging := Judging(req, Look(w.disk.lock));
    BackToIdle(w, tid);
    assert w.calls[tid := judging][tid := Idle] == w.calls;
    assert StepsTo(site, With(w, tid, judging, w.disk, w.leases), tid, w);
    EventThenWalk(site, w, Acquire(tid, req), tid, [With(w, tid, judging, w.disk, w.leases), w]);
  }

  // ------------------------------------------------------------------ renewing

  function Extended(rec: Record, now: int, ttlMs: int): Record {
    rec.(heartbeatAt := now, expiresAt := now + ttlMs)
  }

  /** The holder's renewal extends the very record in the file, and its lease with it. */
  lemma RenewAlone(site: Site, w: World, tid: nat, token: nat, ttlMs: int)
    requires Runs(site, w, tid) && w.calls[tid].Idle? && w.disk.mutex.Free? && InFile(w, token)
    ensures var es := [Renew(tid, token, ttlMs)] + Advances(tid, 5);
            var next := Extended(w.disk.lock.raw.rec, w.clock, ttlMs);
            && CalmRun(site, w, es)
            && After(site, w, es) == w.(
                 disk := Disk(File(w.disk.nextIno, Json(next), w.clock), Free, w.disk.nextIno + 1),
                 leases := w.leases[token := Lease(next, false)])
  {
    var rec, inside, l := w.disk.lock.raw.rec, Entered(w, tid), w.leases;
    var next := Extended(rec, w.clock, ttlMs);
    var renamed := Disk(File(w.disk.nextIno, Json(next), w.clock), inside.mutex, w.disk.nextIno + 1);
    var k := Entitle(l, Renewed(next));
    BackToIdle(w, tid);
    Moves(site, w, tid, RenewWait(token, ttlMs), w.disk, l, Effect(inside, RenewCheck(token, ttlMs), Nothing));
    Moves(site, w, tid, RenewCheck(token, ttlMs), inside, l, Effect(inside, RenewStamp(rec, ttlMs), Nothing));
    Moves(site, w, tid, RenewStamp(rec, ttlMs), inside, l, Effect(inside, RenewRename(rec, next), Nothing));
    Moves(site, w, tid, RenewRename(rec, next), inside, l, Effect(renamed, RenewLeave, Renewed(next)));
    Moves(site, w, tid, RenewLeave, renamed, k, Effect(renamed.(mutex := Free), Idle, Nothing));
    hide StepsTo;
    EventThenWalk(site, w, Renew(tid, token, ttlMs), tid,
                  [With(w, tid, RenewWait(token, ttlMs), w.disk, l), With(w, tid, RenewCheck(token, ttlMs), inside, l),
                   With(w, tid, RenewStamp(rec, ttlMs), inside, l), With(w, tid, RenewRename(rec, next), inside, l),
                   With(w, tid, RenewLeave, renamed, k), With(w, tid, Idle, renamed.(mutex := Free), k)]);
  }

  /** A renewal with a token that is not in the file changes nothing. */
  lemma LateRenewalAlone(site: Site, w: World, tid: nat, token: nat, ttlMs: int)
    requires Runs(site, w, tid) && w.calls[tid].Idle? && w.disk.mutex.Free? && !InFile(w, token)
    ensures var es := [Renew(tid, token, ttlMs)] + Advances(tid, 3); CalmRun(site, w, es) && After(site, w, es) == w
  {
    var inside, l := Entered(w, tid), w.leases;
    BackToIdle(w, tid);
    Moves(site, w, tid, RenewWait(token, ttlMs), w.disk, l, Effect(inside, RenewCheck(token, ttlMs), Nothing));
    Moves(site, w, tid, RenewCheck(token, ttlMs), inside, l, Effect(inside, RenewLeave, Nothing));
    Moves(site, w, tid, RenewLeave, inside, l, Effect(w.disk, Idle, Nothing));
    hide StepsTo;
    EventThenWalk(site, w, Renew(tid, token, ttlMs), tid,
                  [With(w, tid, RenewWait(token, ttlMs), w.disk, l), With(w, tid, RenewCheck(token, ttlMs), inside, l),
                   With(w, tid, RenewLeave, inside, l), With(w, tid, Idle, w.disk, l)]);
  }

  // ------------------------------------------------------------------ releasing

  lemma OwnCheck(site: Site, w: World, tid: nat, how: ReleaseBy, disk: Disk)
    requires Runs(site, w, tid) && disk.lock.File? && Owned(how, disk.lock.raw, site.home[tid].host)
    ensures StepsTo(site, With(w, tid, ReleaseCheck(how), disk, w.leases), tid,
                    With(w, tid, ReleaseUnlink(disk.lock.raw, how, true), disk, w.leases))
  {
    assert w.calls[tid := ReleaseCheck(how)][tid := ReleaseUnlink(disk.lock.raw, how, true)]
        == w.calls[tid := ReleaseUnlink(disk.lock.raw, how, true)];
  }

  lemma UnlinkAndLeave(site: Site, w: World, tid: nat, how: ReleaseBy, raw: Raw, inside: Disk)
    requires Runs(site, w, tid) && raw.Json?
    ensures var gone, k := inside.(lock := Absent), Entitle(w.leases, Released(raw.rec.token));
            && StepsTo(site, With(w, tid, ReleaseUnlink(raw, how, true), inside, w.leases), tid,
                       With(w, tid, ReleaseLeave, gone, k))
            && StepsTo(site, With(w, tid, ReleaseLeave, gone, k), tid, With(w, tid, Idle, gone.(mutex := Free), k))
  {
    var gone, k := inside.(lock := Absent), Entitle(w.leases, Released(raw.rec.token));
    Moves(site, w, tid, ReleaseUnlink(raw, how, true), inside, w.leases,
          Effect(gone, ReleaseLeave, Released(raw.rec.token)));
    Moves(site, w, tid, ReleaseLeave, gone, k, Effect(gone.(mutex := Free), Idle, Nothing));
  }

  lemma EntersRelease(site: Site, w: World, tid: nat, how: ReleaseBy)
    requires Runs(site, w, tid) && w.disk.mutex.Free?
    ensures StepsTo(site, With(w, tid, ReleaseWait(how), w.disk, w.leases), tid,
                    With(w, tid, ReleaseCheck(how), Entered(w, tid), w.leases))
  {
    Moves(site, w, tid, ReleaseWait(how), w.disk, w.leases, Effect(Entered(w, tid), ReleaseCheck(how), Nothing));
  }

  /** The owner's release, by token or by a pid on its own host, removes the file and ends the lease. */
  lemma ReleaseAlone(site: Site, w: World, tid: nat, how: ReleaseBy)
    requires Runs(site, w, tid) && w.calls[tid].Idle? && w.disk.mutex.Free?
    requires w.disk.lock.File? && w.disk.lock.raw.Json?
    requires || how.token == Some(w.disk.lock.raw.rec.token)
             || (&& w.disk.lock.raw.rec.owner.host == site.home[tid].host
                 && w.disk.lock.raw.rec.owner.pid.Some?
                 && w.disk.lock.raw.rec.owner.pid.value in how.callerPids)
    ensures var es := [Release(tid, how)] + Advances(tid, 4);
            && CalmRun(site, w, es)
            && After(site, w, es) == w.(
                 disk := w.disk.(lock := Absent), leases := Entitle(w.leases, Released(w.disk.lock.raw.rec.token)))
  {
    var raw, inside, l := w.disk.lock.raw, Entered(w, tid), w.leases;
    var gone, k := inside.(lock := Absent), Entitle(l, Released(raw.rec.token));
    BackToIdle(w, tid);
    EntersRelease(site, w, tid, how);
    OwnCheck(site, w, tid, how, inside);
    UnlinkAndLeave(site, w, tid, how, raw, inside);
    hide StepsTo;
    hide Owned;
    EventThenWalk(site, w, Release(tid, how), tid,
                  [With(w, tid, ReleaseWait(how), w.disk, l), With(w, tid, ReleaseCheck(how), inside, l),
                   With(w, tid, ReleaseUnlink(raw, how, true), inside, l), With(w, tid, ReleaseLeave, gone, k),
                   With(w, tid, Idle, w.disk.(lock := Absent), k)]);
  }

  /** A release with another token, and from another host or with other pids, changes nothing when unforced. */
  lemma OthersReleaseAlone(site: Site, w: World, tid: nat, how: ReleaseBy)
    requires Runs(site, w, tid) && w.calls[tid].Idle? && w.disk.mutex.Free? && !how.force
    requires w.disk.lock.File? && w.disk.lock.raw.Json? ==>
               && how.token != Some(w.disk.lock.raw.rec.token)
               && (|| w.disk.lock.raw.rec.owner.host != site.home[tid].host
                   || w.disk.lock.raw.rec.owner.pid.None?
                   || w.disk.lock.raw.rec.owner.pid.value !in how.callerPids)
    ensures var es := [Release(tid, how)] + Advances(tid, 3); CalmRun(site, w, es) && After(site, w, es) == w
  {
    var inside, l := Entered(w, tid), w.leases;
    BackToIdle(w, tid);
    EntersRelease(site, w, tid, how);
    Moves(site, w, tid, ReleaseCheck(how), inside, l, Effect(inside, ReleaseLeave, Nothing));
    Moves(site, w, tid, ReleaseLeave, inside, l, Effect(w.disk, Idle, Nothing));
    hide StepsTo;
    EventThenWalk(site, w, Release(tid, how), tid,
                  [With(w, tid, ReleaseWait(how), w.disk, l), With(w, tid, ReleaseCheck(how), inside, l),
                   With(w, tid, ReleaseLeave, inside, l), With(w, tid, Idle, w.disk, l)]);
  }
}
