/**
 Names of waiter tickets: a microsecond stamp in fixed-width decimal, then the pid and random digits.
 Names are sorted as strings; the queue is served in that order.
 */
module TicketNames {
  /** Digits of the stamp in a ticket name. */
  const WIDTH: nat := 17

  function Pow10(k: nat): nat {
    if k == 0 then 1 else 10 * Pow10(k - 1)
  }

  function Digit(d: nat): char
    requires d < 10
  {
    "0123456789"[d]
  }

  function Decimal(n: nat): string {
    if n < 10 then [Digit(n)] else Decimal(n / 10) + [Digit(n % 10)]
  }

  function Zeros(k: nat): string {
    if k == 0 then "" else "0" + Zeros(k - 1)
  }

  function PadStart(s: string, width: nat): string {
    if |s| >= width then s else Zeros(width - |s|) + s
  }

  function Name(stamp: nat, suffix: string): string {
    PadStart(Decimal(stamp), WIDTH) + suffix
  }

  /** Order of strings by their first difference, a proper prefix coming first. */
  ghost predicate Before(a: string, b: string) {
    exists i :: 0 <= i <= |a| && i < |b| && a[..i] == b[..i] && (i == |a| || a[i] < b[i])
  }

  /** The `k` last decimal digits of `n`. */
  ghost function Fixed(n: nat, k: nat): string {
    if k == 0 then "" else Fixed(n / 10, k - 1) + [Digit(n % 10)]
  }

  lemma {:induction false} FixedZero(k: nat)
    ensures Fixed(0, k) == Zeros(k) && |Zeros(k)| == k
  {
    if k > 0 {
      FixedZero(k - 1);
      ZerosSnoc(k - 1);
    }
  }

  lemma {:induction false} ZerosSnoc(k: nat)
    ensures Zeros(k) + "0" == "0" + Zeros(k)
  {
    if k > 0 {
      ZerosSnoc(k - 1);
    }
  }

  lemma TenthIsBelow(n: nat, k: nat)
    requires n < Pow10(k) && k > 0
    ensures n / 10 < Pow10(k - 1)
  {
  }

  lemma PadOne(s: string, d: char, k: nat)
    requires |s| < k
    ensures PadStart(s + [d], k) == PadStart(s, k - 1) + [d]
  {
    if |s| + 1 < k {
      assert Zeros(k - 1 - |s|) + (s + [d]) == Zeros(k - 1 - |s|) + s + [d];
    }
  }

  lemma PadDigit(d: char, k: nat)
    requires k > 0
    ensures PadStart([d], k) == Zeros(k - 1) + [d]
  {
    if k == 1 {
      assert Zeros(0) + [d] == [d];
    }
  }

  lemma {:induction false} PaddedIsFixed(n: nat, k: nat)
    requires n < Pow10(k) && k > 0
    ensures PadStart(Decimal(n), k) == Fixed(n, k) && |Decimal(n)| <= k
  {
    hide PadStart;
    if n < 10 {
      FixedZero(k - 1);
      PadDigit(Digit(n), k);
    } else {
      TenthIsBelow(n, k);
      assert k > 1;
      PaddedIsFixed(n / 10, k - 1);
      PadOne(Decimal(n / 10), Digit(n % 10), k);
    }
  }

  lemma {:induction false} FixedLength(n: nat, k: nat)
    ensures |Fixed(n, k)| == k
  {
    if k > 0 {
      FixedLength(n / 10, k - 1);
    }
  }

  /** Where two stamps first differ in fixed width, the smaller one has the smaller digit. */
  lemma {:induction false} FixedOrder(m: nat, n: nat, k: nat) returns (i: nat)
    requires m < n < Pow10(k)
    ensures i < k == |Fixed(m, k)| == |Fixed(n, k)|
    ensures Fixed(m, k)[..i] == Fixed(n, k)[..i] && Fixed(m, k)[i] < Fixed(n, k)[i]
  {
    FixedLength(m, k);
    FixedLength(n, k);
    FixedLength(m / 10, k - 1);
    FixedLength(n / 10, k - 1);
    if m / 10 == n / 10 {
      i := k - 1;
      assert m % 10 < n % 10;
    } else {
      assert n / 10 < Pow10(k - 1);
      i := FixedOrder(m / 10, n / 10, k - 1);
      assert Fixed(m, k)[..i] == Fixed(m / 10, k - 1)[..i];
      assert Fixed(n, k)[..i] == Fixed(n / 10, k - 1)[..i];
    }
  }

  lemma FirstDifference(a: string, b: string, i: nat)
    requires i < |a| && i < |b| && a[..i] == b[..i] && a[i] < b[i]
    ensures Before(a, b) && !Before(b, a)
  {
    forall j | 0 <= j <= |b| && j < |a|
      ensures !(b[..j] == a[..j] && (j == |b| || b[j] < a[j]))
    {
      if j < i {
        assert a[..i][j] == b[..i][j];
      } else if i < j {
        assert b[..j][i] != a[..j][i];
      }
    }
  }

  /** Below ten to the seventeenth, names sort as their stamps do, whatever follows the stamp. */
  lemma NamesSortAsStamps(m: nat, n: nat, s: string, t: string)
    requires m < n < Pow10(WIDTH)
    ensures Before(Name(m, s), Name(n, t)) && !Before(Name(n, t), Name(m, s))
  {
    PaddedIsFixed(m, WIDTH);
    PaddedIsFixed(n, WIDTH);
    var i := FixedOrder(m, n, WIDTH);
    var a, b := Name(m, s), Name(n, t);
    assert a[..i] == Fixed(m, WIDTH)[..i] == b[..i];
    FirstDifference(a, b, i);
  }

  /** Stamps below ten to the seventeenth are written with seventeen digits. */
  lemma NamesHaveSeventeenDigits(stamp: nat, suffix: string)
    requires stamp < 100_000_000_000_000_000
    ensures |Name(stamp, suffix)| == 17 + |suffix|
  {
    assert Pow10(1) == 10 && Pow10(2) == 100 && Pow10(4) == 10_000 && Pow10(8) == 100_000_000 by {
      assert Pow10(3) == 1_000 && Pow10(5) == 100_000 && Pow10(6) == 1_000_000 && Pow10(7) == 10_000_000;
    }
    assert Pow10(9) == 1_000_000_000 && Pow10(11) == 100_000_000_000 && Pow10(13) == 10_000_000_000_000;
    assert Pow10(15) == 1_000_000_000_000_000 && Pow10(17) == 100_000_000_000_000_000;
    PaddedIsFixed(stamp, WIDTH);
    FixedLength(stamp, WIDTH);
  }

  // ------------------------------------------------------------- stamps of one process

  datatype Counter = Counter(lastMs: nat, seqNo: nat)

  /** The stamp of an enqueue at `now`: the clock in microseconds, plus one per ticket of the same millisecond. */
  function Ticked(c: Counter, now: nat): Counter {
    Counter(now, if now == c.lastMs then c.seqNo + 1 else 0)
  }

  function StampOf(c: Counter): nat {
    c.lastMs * 1000 + c.seqNo
  }

  class TicketClock {
    var lastEnqueueMs: nat
    var enqueueSeq: nat

    constructor ()
      ensures Now() == Counter(0, 0)
    {
      lastEnqueueMs, enqueueSeq := 0, 0;
    }

    function Now(): Counter
      reads this
    {
      Counter(lastEnqueueMs, enqueueSeq)
    }

    method Stamp(now: nat) returns (micros: nat)
      modifies this
      ensures Now() == Ticked(old(Now()), now) && micros == StampOf(Now())
    {
      if now == lastEnqueueMs {
        enqueueSeq := enqueueSeq + 1;
      } else {
        enqueueSeq := 0;
      }
      micros := now * 1000 + enqueueSeq;
      lastEnqueueMs := now;
    }
  }

  /** One stamp follows another exactly when the millisecond is the same or its tickets did not spill over. */
  lemma StampFollows(c: Counter, now: nat)
    ensures StampOf(Ticked(c, now)) > StampOf(c) <==> now == c.lastMs || (now - c.lastMs) * 1000 > c.seqNo
  {
  }

  /** The counter after the first `k` readings of the clock. */
  function CounterAt(c: Counter, nows: seq<nat>, k: nat): Counter
    requires k <= |nows|
  {
    if k == 0 then c else Ticked(CounterAt(c, nows, k - 1), nows[k - 1])
  }

  /** The number of tickets already counted in a millisecond all fell in it. */
  lemma {:induction false} CountedTogether(c: Counter, nows: seq<nat>, k: nat)
    requires 0 < k <= |nows| && c.lastMs < nows[0]
    requires forall i, j :: 0 <= i < j < |nows| ==> nows[i] <= nows[j]
    ensures var d := CounterAt(c, nows, k);
            && d.lastMs == nows[k - 1] && d.seqNo < k
            && nows[k - 1 - d.seqNo] == nows[k - 1]
  {
    if k > 1 {
      CountedTogether(c, nows, k - 1);
    }
  }

  /** With a clock that does not go back and at most 1000 tickets in a millisecond, stamps strictly increase. */
  lemma {:induction false} StampsIncrease(c: Counter, nows: seq<nat>, i: nat, j: nat)
    requires 0 < i < j <= |nows| && c.lastMs < nows[0]
    requires forall a, b :: 0 <= a < b < |nows| ==> nows[a] <= nows[b]
    requires forall a, b :: 0 <= a < |nows| && a + 1000 <= b < |nows| ==> nows[a] < nows[b]
    ensures StampOf(CounterAt(c, nows, i)) < StampOf(CounterAt(c, nows, j))
    decreases j
  {
    var d := CounterAt(c, nows, j - 1);
    CountedTogether(c, nows, j - 1);
    assert d.seqNo < 1000 by {
      assert nows[j - 2 - d.seqNo] == nows[j - 2];
    }
    StampFollows(d, nows[j - 1]);
    if i < j - 1 {
      StampsIncrease(c, nows, i, j - 1);
    }
  }

  /** The readings of a burst: 1002 in one millisecond, one in the next. */
  function Burst(ms: nat): (nows: seq<nat>)
    ensures |nows| == 1003 && nows[1002] == ms + 1 && forall i :: 0 <= i < 1002 ==> nows[i] == ms
  {
    seq(1002, _ => ms) + [ms + 1]
  }

  lemma {:induction false} BurstCounts(c: Counter, ms: nat, k: nat)
    requires c.lastMs != ms && 0 < k <= 1002
    ensures CounterAt(c, Burst(ms), k) == Counter(ms, k - 1)
    decreases k
  {
    hide Burst;
    if k > 1 {
      BurstCounts(c, ms, k - 1);
    } else {
      assert CounterAt(c, Burst(ms), 0) == c;
    }
  }

  /** The 1002nd ticket of one millisecond sorts after the first ticket of the next one: the bound is needed. */
  lemma SpillOverMisorders(c: Counter, ms: nat, s: string, t: string)
    requires c.lastMs != ms && (ms + 1) * 1000 + 1 < Pow10(WIDTH)
    ensures Before(Name(StampOf(CounterAt(c, Burst(ms), 1003)), t), Name(StampOf(CounterAt(c, Burst(ms), 1002)), s))
  {
    hide Burst;
    hide Name;
    hide Before;
    BurstCounts(c, ms, 1002);
    assert CounterAt(c, Burst(ms), 1003) == Counter(ms + 1, 0);
    NamesSortAsStamps((ms + 1) * 1000, ms * 1000 + 1001, t, s);
  }
}
