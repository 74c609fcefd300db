/**
 The lease lock of one resource, at the grain of single file operations.

 `Act` is one operation of one running call of `tryAcquire`, `renew` or `release`; `Next` interleaves
 any number of such calls with the passing of time and the death of processes.
 */
module LockStore {
  import opened Options

  // ------------------------------------------------------------------ files

  datatype Process = Process(host: string, pid: nat)

  datatype Owner = Owner(pid: Option<nat>, host: string, caption: string)

  datatype Record = Record(
    owner: Owner, token: nat, acquiredAt: int, expiresAt: int, heartbeatAt: int, ttlMs: int, purpose: string)

  /** Content of the lock file: nothing between the exclusive create and the write, then one record. */
  datatype Raw = Blank | Json(rec: Record)

  /** `ino` tells one file from a later one at the same path: a descriptor keeps writing to its own file. */
  datatype LockFile = Absent | File(ino: nat, raw: Raw, mtime: int)

  datatype Mutex = Free | Taken(tid: nat, since: int)

  datatype Disk = Disk(lock: LockFile, mutex: Mutex, nextIno: nat)

  datatype Snapshot = Missing | Seen(raw: Raw, mtime: int)

  datatype StaleReason = Expired | OwnerDead | Corrupt

  const MUTEX_STALE_MS := 10_000

  function Look(lock: LockFile): Snapshot {
    match lock
    case Absent => Missing
    case File(_, raw, mtime) => Seen(raw, mtime)
  }

  predicate Dead(alive: set<Process>, owner: Owner) {
    owner.pid.Some? && Process(owner.host, owner.pid.value) !in alive
  }

  function Staleness(seen: Snapshot, now: int, host: string, alive: set<Process>, graceMs: int): Option<StaleReason> {
    match seen
    case Missing => None
    case Seen(Blank, mtime) => if now - mtime > graceMs then Some(Corrupt) else None
    case Seen(Json(rec), _) =>
      if rec.expiresAt <= now then Some(Expired)
      else if rec.owner.host == host && Dead(alive, rec.owner) then Some(OwnerDead)
      else None
  }

  // ------------------------------------------------------- one call, step by step

  datatype Request = Request(owner: Owner, ttlMs: int, purpose: string)

  datatype ReleaseBy = ReleaseBy(token: Option<nat>, callerPids: set<nat>, force: bool)

  /** Where a call stands: the operation it performs next. */
  datatype Pc =
    | Idle
    | Judging(req: Request, seen: Snapshot)
    | TakeoverWait(req: Request, judged: Raw)
    | TakeoverCheck(req: Request, judged: Raw)
    | TakeoverUnlink(req: Request, judged: Raw)
    | TakeoverLeave(req: Request)
    | Drafting(req: Request)
    | Creating(draft: Record)
    | Writing(draft: Record, ino: nat)
    | RenewWait(token: nat, ttlMs: int)
    | RenewCheck(token: nat, ttlMs: int)
    | RenewStamp(current: Record, ttlMs: int)
    | RenewRename(current: Record, next: Record)
    | RenewLeave
    | ReleaseWait(how: ReleaseBy)
    | ReleaseCheck(how: ReleaseBy)
    | ReleaseUnlink(target: Raw, how: ReleaseBy, own: bool)
    | ReleaseLeave

  /** What a step means for the lease of the caller. */
  datatype Note = Nothing | Leased(rec: Record) | Renewed(rec: Record) | Released(token: nat)

  datatype Effect = Effect(disk: Disk, pc: Pc, note: Note)

  /** The part of the surroundings a step reads. */
  datatype View = View(tid: nat, host: string, now: int, alive: set<Process>, graceMs: int)

  predicate ByToken(how: ReleaseBy, rec: Record) {
    how.token == Some(rec.token)
  }

  predicate ByPid(how: ReleaseBy, rec: Record, host: string) {
    rec.owner.pid.Some? && rec.owner.host == host && rec.owner.pid.value in how.callerPids
  }

  predicate Owned(how: ReleaseBy, raw: Raw, host: string) {
    raw.Json? && (ByToken(how, raw.rec) || ByPid(how, raw.rec, host))
  }

  /** `mkdir` of the mutex: enters when it is free, otherwise the call keeps polling. */
  function Enter(d: Disk, v: View, inside: Pc, waiting: Pc): Effect {
    if d.mutex.Free? then Effect(d.(mutex := Taken(v.tid, v.now)), inside, Nothing)
    else Effect(d, waiting, Nothing)
  }

  /** `rmdir` of the mutex, whoever made it. */
  function Leave(d: Disk, after: Pc): Effect {
    Effect(d.(mutex := Free), after, Nothing)
  }

  function ActTakeover(d: Disk, v: View, pc: Pc): Effect
    requires pc.Judging? || pc.TakeoverWait? || pc.TakeoverCheck? || pc.TakeoverUnlink? || pc.TakeoverLeave?
  {
    match pc
    case Judging(req, seen) =>
      if seen.Missing? then Effect(d, Drafting(req), Nothing)
      else if Staleness(seen, v.now, v.host, v.alive, v.graceMs).None? then Effect(d, Idle, Nothing)
      else Effect(d, TakeoverWait(req, seen.raw), Nothing)
    case TakeoverWait(req, judged) => Enter(d, v, TakeoverCheck(req, judged), pc)
    case TakeoverCheck(req, judged) =>
      if d.lock.File? && d.lock.raw == judged then Effect(d, TakeoverUnlink(req, judged), Nothing)
      else Effect(d, TakeoverLeave(req), Nothing)
    case TakeoverUnlink(req, _) => Effect(d.(lock := Absent), TakeoverLeave(req), Nothing)
    case TakeoverLeave(req) => Leave(d, Drafting(req))
  }

  function ActCreate(d: Disk, v: View, pc: Pc): Effect
    requires pc.Creating? || pc.Writing?
  {
    match pc
    case Creating(draft) =>
      if d.lock.File? then Effect(d, Idle, Nothing)
      else Effect(Disk(File(d.nextIno, Blank, v.now), d.mutex, d.nextIno + 1), Writing(draft, d.nextIno), Nothing)
    case Writing(draft, ino) =>
      if d.lock.File? && d.lock.ino == ino
      then Effect(d.(lock := File(ino, Json(draft), v.now)), Idle, Leased(draft))
      else Effect(d, Idle, Leased(draft)) // the file was unlinked meanwhile: the write goes to the orphan
  }

  function ActRenew(d: Disk, v: View, pc: Pc): Effect
    requires pc.RenewWait? || pc.RenewCheck? || pc.RenewStamp? || pc.RenewRename? || pc.RenewLeave?
  {
    match pc
    case RenewWait(token, ttlMs) => Enter(d, v, RenewCheck(token, ttlMs), pc)
    case RenewCheck(token, ttlMs) =>
      if d.lock.File? && d.lock.raw.Json? && d.lock.raw.rec.token == token
      then Effect(d, RenewStamp(d.lock.raw.rec, ttlMs), Nothing)
      else Effect(d, RenewLeave, Nothing)
    case RenewStamp(current, ttlMs) =>
      Effect(d, RenewRename(current, current.(heartbeatAt := v.now, expiresAt := v.now + ttlMs)), Nothing)
    case RenewRename(_, next) =>
      Effect(Disk(File(d.nextIno, Json(next), v.now), d.mutex, d.nextIno + 1), RenewLeave, Renewed(next))
    case RenewLeave => Leave(d, Idle)
  }

  function ActRelease(d: Disk, v: View, pc: Pc): Effect
    requires pc.ReleaseWait? || pc.ReleaseCheck? || pc.ReleaseUnlink? || pc.ReleaseLeave?
  {
    match pc
    case ReleaseWait(how) => Enter(d, v, ReleaseCheck(how), pc)
    case ReleaseCheck(how) =>
      if d.lock.Absent? then Effect(d, ReleaseLeave, Nothing)
      else if Owned(how, d.lock.raw, v.host) then Effect(d, ReleaseUnlink(d.lock.raw, how, true), Nothing)
      else if how.force then Effect(d, ReleaseUnlink(d.lock.raw, how, false), Nothing)
      else Effect(d, ReleaseLeave, Nothing)
    case ReleaseUnlink(target, _, own) =>
      Effect(d.(lock := Absent), ReleaseLeave, if own && target.Json? then Released(target.rec.token) else Nothing)
    case ReleaseLeave => Leave(d, Idle)
  }

  /** One operation of a call that is under way (a call that is drafting its record waits for a token). */
  function Act(d: Disk, v: View, pc: Pc): Effect {
    match pc
    case Idle => Effect(d, pc, Nothing)
    case Drafting(_) => Effect(d, pc, Nothing)
    case Judging(_, _) => ActTakeover(d, v, pc)
    case TakeoverWait(_, _) => ActTakeover(d, v, pc)
    case TakeoverCheck(_, _) => ActTakeover(d, v, pc)
    case TakeoverUnlink(_, _) => ActTakeover(d, v, pc)
    case TakeoverLeave(_) => ActTakeover(d, v, pc)
    case Creating(_) => ActCreate(d, v, pc)
    case Writing(_, _) => ActCreate(d, v, pc)
    case RenewWait(_, _) => ActRenew(d, v, pc)
    case RenewCheck(_, _) => ActRenew(d, v, pc)
    case RenewStamp(_, _) => ActRenew(d, v, pc)
    case RenewRename(_, _) => ActRenew(d, v, pc)
    case RenewLeave => ActRenew(d, v, pc)
    case ReleaseWait(_) => ActRelease(d, v, pc)
    case ReleaseCheck(_) => ActRelease(d, v, pc)
    case ReleaseUnlink(_, _, _) => ActRelease(d, v, pc)
    case ReleaseLeave => ActRelease(d, v, pc)
  }
}
