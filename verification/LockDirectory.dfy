/**
 The lock directory and the calls that work in it, updated in place: every operation of a call is one
 step of `LockStore.Act`, so the runs of LockSafety are the interleavings of these operations.
 */
module LockDirectory {
  import opened Options
  import opened LockStore

  /** The lock file and the mutex of one resource. */
  class Directory {
    var lock: LockFile
    var mutex: Mutex
    var nextIno: nat

    constructor ()
      ensures Contents() == Disk(Absent, Free, 0)
    {
      lock, mutex, nextIno := Absent, Free, 0;
    }

    function Contents(): Disk
      reads this
    {
      Disk(lock, mutex, nextIno)
    }

    method Read() returns (seen: Snapshot)
      ensures seen == Look(lock)
    {
      if lock.Absent? {
        seen := Missing;
      } else {
        seen := Seen(lock.raw, lock.mtime);
      }
    }

    method MakeMutex(tid: nat, now: int) returns (made: bool)
      modifies this`mutex
      ensures made <==> old(mutex).Free?
      ensures mutex == if made then Taken(tid, now) else old(mutex)
    {
      made := mutex.Free?;
      if made {
        mutex := Taken(tid, now);
      }
    }

    method RemoveMutex()
      modifies this`mutex
      ensures mutex.Free?
    {
      mutex := Free;
    }

    method Unlink()
      modifies this`lock
      ensures lock.Absent?
    {
      lock := Absent;
    }

    /** Exclusive create: the descriptor of a new empty file, or nothing when a file is there. */
    method CreateExclusive(now: int) returns (ino: Option<nat>)
      modifies this`lock, this`nextIno
      ensures ino == if old(lock).Absent? then Some(old(nextIno)) else None
      ensures lock == if old(lock).Absent? then File(old(nextIno), Blank, now) else old(lock)
      ensures nextIno == if old(lock).Absent? then old(nextIno) + 1 else old(nextIno)
    {
      if lock.File? {
        return None;
      }
      ino := Some(nextIno);
      lock := File(nextIno, Blank, now);
      nextIno := nextIno + 1;
    }

    /** Writes through a descriptor, which reaches the lock path only while its file is still there. */
    method WriteThrough(ino: nat, rec: Record, now: int)
      modifies this`lock
      ensures lock == if old(lock).File? && old(lock).ino == ino then File(ino, Json(rec), now) else old(lock)
    {
      if lock.File? && lock.ino == ino {
        lock := File(ino, Json(rec), now);
      }
    }

    /** Renames a freshly written file over the lock path, whatever is there. */
    method RenameOver(rec: Record, now: int)
      modifies this`lock, this`nextIno
      ensures lock == File(old(nextIno), Json(rec), now) && nextIno == old(nextIno) + 1
    {
      lock := File(nextIno, Json(rec), now);
      nextIno := nextIno + 1;
    }
  }

  /** A call of `tryAcquire`, `renew` or `release` under way. */
  class Call {
    var pc: Pc

    constructor ()
      ensures pc.Idle?
    {
      pc := Idle;
    }

    method StartAcquire(dir: Directory, req: Request)
      requires pc.Idle?
      modifies this
      ensures pc == Judging(req, Look(dir.lock))
    {
      var seen := dir.Read();
      pc := Judging(req, seen);
    }

    method TakeoverStep(dir: Directory, v: View)
      requires pc.Judging? || pc.TakeoverWait? || pc.TakeoverCheck? || pc.TakeoverUnlink? || pc.TakeoverLeave?
      modifies this, dir
      ensures Effect(dir.Contents(), pc, Nothing) == ActTakeover(old(dir.Contents()), v, old(pc))
    {
      match pc
      case Judging(req, seen) =>
        if seen.Missing? {
          pc := Drafting(req);
        } else {
          var reason := Staleness(seen, v.now, v.host, v.alive, v.graceMs);
          pc := if reason.None? then Idle else TakeoverWait(req, seen.raw);
        }
      case TakeoverWait(req, judged) =>
        var made := dir.MakeMutex(v.tid, v.now);
        if made {
          pc := TakeoverCheck(req, judged);
        }
      case TakeoverCheck(req, judged) =>
        var again := dir.Read();
        if again.Missing? || again.raw != judged {
          pc := TakeoverLeave(req);
        } else {
          pc := TakeoverUnlink(req, judged);
        }
      case TakeoverUnlink(req, _) =>
        dir.Unlink();
        pc := TakeoverLeave(req);
      case TakeoverLeave(req) =>
        dir.RemoveMutex();
        pc := Drafting(req);
    }

    method CreateStep(dir: Directory, v: View) returns (note: Note)
      requires pc.Creating? || pc.Writing?
      modifies this, dir
      ensures Effect(dir.Contents(), pc, note) == ActCreate(old(dir.Contents()), v, old(pc))
    {
      note := Nothing;
      match pc
      case Creating(draft) =>
        var ino := dir.CreateExclusive(v.now);
        pc := if ino.Some? then Writing(draft, ino.value) else Idle;
      case Writing(draft, ino) =>
        dir.WriteThrough(ino, draft, v.now);
        pc, note := Idle, Leased(draft);
    }

    method RenewStep(dir: Directory, v: View) returns (note: Note)
      requires pc.RenewWait? || pc.RenewCheck? || pc.RenewStamp? || pc.RenewRename? || pc.RenewLeave?
      modifies this, dir
      ensures Effect(dir.Contents(), pc, note) == ActRenew(old(dir.Contents()), v, old(pc))
    {
      note := Nothing;
      match pc
      case RenewWait(token, ttlMs) =>
        var made := dir.MakeMutex(v.tid, v.now);
        if made {
          pc := RenewCheck(token, ttlMs);
        }
      case RenewCheck(token, ttlMs) =>
        var current := dir.Read();
        if current.Missing? || current.raw.Blank? || current.raw.rec.token != token {
          pc := RenewLeave;
        } else {
          pc := RenewStamp(current.raw.rec, ttlMs);
        }
      case RenewStamp(current, ttlMs) =>
        pc := RenewRename(current, current.(heartbeatAt := v.now, expiresAt := v.now + ttlMs));
      case RenewRename(_, next) =>
        dir.RenameOver(next, v.now);
        pc, note := RenewLeave, Renewed(next);
      case RenewLeave =>
        dir.RemoveMutex();
        pc := Idle;
    }

    method ReleaseStep(dir: Directory, v: View) returns (note: Note)
      requires pc.ReleaseWait? || pc.ReleaseCheck? || pc.ReleaseUnlink? || pc.ReleaseLeave?
      modifies this, dir
      ensures Effect(dir.Contents(), pc, note) == ActRelease(old(dir.Contents()), v, old(pc))
    {
      note := Nothing;
      match pc
      case ReleaseWait(how) =>
        var made := dir.MakeMutex(v.tid, v.now);
        if made {
          pc := ReleaseCheck(how);
        }
      case ReleaseCheck(how) =>
        var current := dir.Read();
        if current.Missing? {
          pc := ReleaseLeave;
        } else if Owned(how, current.raw, v.host) {
          pc := ReleaseUnlink(current.raw, how, true);
        } else if how.force {
          pc := ReleaseUnlink(current.raw, how, false);
        } else {
          pc := ReleaseLeave;
        }
      case ReleaseUnlink(target, _, own) =>
        dir.Unlink();
        pc := ReleaseLeave;
        if own && target.Json? {
          note := Released(target.rec.token);
        }
      case ReleaseLeave =>
        dir.RemoveMutex();
        pc := Idle;
    }
  }
}
