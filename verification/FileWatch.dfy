/** Watching a growing file for a text, each look reading only the bytes added since the last one. */
module FileWatch {
  import opened Options

  type Byte = i: int | 0 <= i < 256

  type Bytes = seq<Byte>

  const CHUNK: nat := 4 * 1024 * 1024

  /** What a look finds at the path; of a file, at most `granted` bytes are read this time. */
  datatype Look =
    | Missing
    | NotAFile
    | Unreadable(content: Bytes)
    | File(content: Bytes, granted: nat)

  datatype Watch = Watch(offset: nat, tail: Bytes)

  const FRESH := Watch(0, [])

  predicate ContainsAt(s: Bytes, t: Bytes, i: nat) {
    i + |t| <= |s| && s[i..i + |t|] == t
  }

  predicate Contains(s: Bytes, t: Bytes) {
    exists i :: 0 <= i <= |s| && ContainsAt(s, t, i)
  }

  function Last(s: Bytes, n: nat): Bytes {
    if |s| <= n then s else s[|s| - n..]
  }

  function Min(a: nat, b: nat): nat {
    if a <= b then a else b
  }

  /** A file shorter than what was read is read again from the start. */
  function Rewound(w: Watch, size: nat): Watch {
    if size < w.offset then FRESH else w
  }

  function ReadNow(needle: Bytes, w: Watch, content: Bytes, granted: nat): (Watch, bool)
    requires w.offset <= |content|
  {
    var read := Min(granted, Min(|content| - w.offset, CHUNK));
    var window := w.tail + content[w.offset..w.offset + read];
    if Contains(window, needle) then (Watch(w.offset + read, w.tail), true)
    else (Watch(w.offset + read, if |needle| > 1 then Last(window, |needle| - 1) else []), false)
  }

  /** One look for a text: the new state and the answer. */
  function Checked(needle: Bytes, w: Watch, look: Look): (Watch, bool) {
    match look
    case Missing => (w, false)
    case NotAFile => (w, false)
    case Unreadable(content) =>
      var v := Rewound(w, |content|); (v, |content| == v.offset && needle == [])
    case File(content, granted) =>
      var v := Rewound(w, |content|);
      if |content| == v.offset then (v, needle == []) else ReadNow(needle, v, content, granted)
  }

  class Watcher {
    var offset: nat
    var tail: Bytes
    const needle: Option<Bytes>

    constructor (needle: Option<Bytes>)
      ensures this.needle == needle && State() == FRESH
    {
      this.needle := needle;
      offset, tail := 0, [];
    }

    function State(): Watch
      reads this
    {
      Watch(offset, tail)
    }

    /** Without a text, whether there is something at the path; otherwise one look for the text. */
    method Check(look: Look) returns (found: bool)
      modifies this
      ensures needle.None? ==> State() == old(State()) && found == !look.Missing?
      ensures needle.Some? ==> (State(), found) == Checked(needle.value, old(State()), look)
    {
      if look.Missing? {
        return false;
      }
      if needle.None? {
        return true;
      }
      if look.NotAFile? {
        return false;
      }
      var size := |look.content|;
      if size < offset {
        offset, tail := 0, [];
      }
      if size == offset {
        return |needle.value| == 0;
      }
      if look.Unreadable? {
        return false;
      }
      var read := Min(look.granted, Min(size - offset, CHUNK));
      var chunk := look.content[offset..offset + read];
      offset := offset + read;
      var window := tail + chunk;
      if Contains(window, needle.value) {
        return true;
      }
      tail := if |needle.value| > 1 then Last(window, |needle.value| - 1) else [];
      return false;
    }
  }

  // ------------------------------------------------------------------ the window is enough

  function Kept(needle: Bytes): nat {
    if needle == [] then 0 else |needle| - 1
  }

  /** A suffix that starts at a place holds the text where the whole does from there on. */
  lemma ShiftedAt(s: Bytes, cut: nat, t: Bytes, i: nat)
    requires cut <= |s|
    ensures ContainsAt(s[cut..], t, i) <==> ContainsAt(s, t, cut + i)
  {
    if cut + i + |t| <= |s| {
      assert s[cut..][i..i + |t|] == s[cut + i..cut + i + |t|];
    }
  }

  lemma NotBefore(seen: Bytes, added: Bytes, t: Bytes, i: nat)
    requires !Contains(seen, t) && ContainsAt(seen + added, t, i)
    ensures i + |t| > |seen|
  {
    if i + |t| <= |seen| {
      assert seen[i..i + |t|] == (seen + added)[i..i + |t|];
      assert ContainsAt(seen, t, i);
    }
  }

  lemma WindowSuffices(seen: Bytes, added: Bytes, needle: Bytes)
    requires !Contains(seen, needle)
    ensures Contains(Last(seen, Kept(needle)) + added, needle) <==> Contains(seen + added, needle)
  {
    var kept := Last(seen, Kept(needle));
    var window, whole, cut := kept + added, seen + added, |seen| - |kept|;
    assert window == whole[cut..];
    hide ContainsAt;
    if i :| 0 <= i <= |window| && ContainsAt(window, needle, i) {
      ShiftedAt(whole, cut, needle, i);
    }
    if i :| 0 <= i <= |whole| && ContainsAt(whole, needle, i) {
      NotBefore(seen, added, needle, i);
      ShiftedAt(whole, cut, needle, i - cut);
    }
  }

  lemma LastOfWindow(seen: Bytes, added: Bytes, n: nat)
    ensures Last(Last(seen, n) + added, n) == Last(seen + added, n)
  {
  }

  // ------------------------------------------------------------------ over a run

  /** The watch has read exactly these bytes, keeps their end, and has not met the text in them. */
  ghost predicate HasRead(needle: Bytes, w: Watch, seen: Bytes) {
    w.offset == |seen| && w.tail == Last(seen, Kept(needle)) && !Contains(seen, needle)
  }

  /** The bytes read once the look is done. */
  function SeenAfter(needle: Bytes, w: Watch, seen: Bytes, look: Look): Bytes {
    var next := Checked(needle, w, look).0;
    if look.File? && next.offset <= |look.content| then look.content[..next.offset] else seen
  }

  predicate Grows(seen: Bytes, look: Look) {
    look.File? || look.Unreadable? ==> seen <= look.content
  }

  lemma ReadIsExact(needle: Bytes, w: Watch, seen: Bytes, content: Bytes, granted: nat)
    requires HasRead(needle, w, seen) && seen <= content && needle != []
    ensures var (next, found) := ReadNow(needle, w, content, granted);
            && w.offset <= next.offset <= |content| && (found <==> Contains(content[..next.offset], needle))
            && (!found ==> HasRead(needle, next, content[..next.offset]))
  {
    var read := Min(granted, Min(|content| - w.offset, CHUNK));
    var added := content[w.offset..w.offset + read];
    assert content[..w.offset + read] == seen + added;
    WindowSuffices(seen, added, needle);
    LastOfWindow(seen, added, Kept(needle));
    KeptTail(needle, w.tail + added);
    hide Contains;
    hide Last;
    hide Kept;
  }

  lemma KeptTail(needle: Bytes, window: Bytes)
    requires needle != []
    ensures (if |needle| > 1 then Last(window, |needle| - 1) else []) == Last(window, Kept(needle))
  {
  }

  /** One look at a file that has only grown answers whether the bytes read so far hold the text. */
  lemma CheckIsExact(needle: Bytes, w: Watch, seen: Bytes, look: Look)
    requires HasRead(needle, w, seen) && Grows(seen, look)
    ensures var (next, found) := Checked(needle, w, look);
            var now := SeenAfter(needle, w, seen, look);
            && (found <==> Contains(now, needle)) && (!found ==> HasRead(needle, next, now))
            && seen <= now && (look.File? ==> now <= look.content)
  {
    hide ReadNow;
    hide ContainsAt;
    if needle == [] {
      AlwaysContained(seen);
    }
    if look.File? {
      ReadIsExact(needle, w, seen, look.content, look.granted);
      assert look.content[..w.offset] == seen;
    }
  }

  lemma AlwaysContained(s: Bytes)
    ensures Contains(s, [])
  {
    assert ContainsAt(s, [], 0);
  }

  /** State of the watch and bytes read after the first looks. */
  function After(needle: Bytes, looks: seq<Look>, k: nat): (Watch, Bytes)
    requires k <= |looks|
  {
    if k == 0 then (FRESH, [])
    else
      var (w, seen) := After(needle, looks, k - 1);
      (Checked(needle, w, looks[k - 1]).0, SeenAfter(needle, w, seen, looks[k - 1]))
  }

  function Answer(needle: Bytes, looks: seq<Look>, k: nat): bool
    requires k < |looks|
  {
    Checked(needle, After(needle, looks, k).0, looks[k]).1
  }

  /** What one look sees of the file goes on from what an earlier one saw. */
  predicate OnlyGrows(looks: seq<Look>) {
    forall i, j :: 0 <= i < j < |looks| && looks[i].File? && (looks[j].File? || looks[j].Unreadable?) ==>
      looks[i].content <= looks[j].content
  }

  lemma {:induction false} ReadIsPrefix(needle: Bytes, looks: seq<Look>, k: nat)
    requires needle != [] && OnlyGrows(looks) && k <= |looks| && forall i :: 0 <= i < k ==> !Answer(needle, looks, i)
    ensures HasRead(needle, After(needle, looks, k).0, After(needle, looks, k).1)
    ensures forall j :: k <= j < |looks| ==> Grows(After(needle, looks, k).1, looks[j])
  {
    if k == 0 {
      assert forall i :: !ContainsAt([], needle, i);
    } else {
      ReadIsPrefix(needle, looks, k - 1);
      assert !Answer(needle, looks, k - 1);
      var (w, seen) := After(needle, looks, k - 1);
      CheckIsExact(needle, w, seen, looks[k - 1]);
      var now := After(needle, looks, k).1;
      forall j | k <= j < |looks| ensures Grows(now, looks[j]) {
        assert Grows(seen, looks[j]);
        if looks[k - 1].File? && (looks[j].File? || looks[j].Unreadable?) {
          assert now <= looks[k - 1].content <= looks[j].content;
        }
      }
    }
  }

  /** A look at a file that opens, or that holds nothing the watch has not read. */
  predicate Reachable(w: Watch, look: Look) {
    look.File? || (look.Unreadable? && |look.content| == Rewound(w, |look.content|).offset)
  }

  /** The empty text is found by exactly the looks that reach a file, although it is in any bytes. */
  lemma EmptyIsFoundWhenReachable(w: Watch, look: Look)
    ensures Checked([], w, look).1 <==> Reachable(w, look)
  {
    if look.File? {
      var v := Rewound(w, |look.content|);
      var read := Min(look.granted, Min(|look.content| - v.offset, CHUNK));
      AlwaysContained(v.tail + look.content[v.offset..v.offset + read]);
    }
  }

  /**
   On a file that only grows, up to the first true answer, each look answers true exactly when the bytes read so
   far hold the text, however the reads cut it; for the empty text, exactly when it reaches a file at all.
   */
  lemma SearchIsExact(needle: Bytes, looks: seq<Look>, k: nat)
    requires OnlyGrows(looks) && k < |looks| && forall i :: 0 <= i < k ==> !Answer(needle, looks, i)
    ensures Answer(needle, looks, k) <==>
              && Contains(After(needle, looks, k + 1).1, needle)
              && (needle == [] ==> Reachable(After(needle, looks, k).0, looks[k]))
    ensures looks[k].File? ==> After(needle, looks, k + 1).1 <= looks[k].content
  {
    var w := After(needle, looks, k).0;
    if needle == [] {
      EmptyIsFoundWhenReachable(w, looks[k]);
      AlwaysContained(After(needle, looks, k + 1).1);
    } else {
      ReadIsPrefix(needle, looks, k);
      CheckIsExact(needle, w, After(needle, looks, k).1, looks[k]);
    }
  }

  /** A file that shrank is searched as by a fresh watch. */
  lemma ShrinkStartsOver(needle: Bytes, w: Watch, look: Look)
    requires (look.File? || look.Unreadable?) && |look.content| < w.offset
    ensures Checked(needle, w, look) == Checked(needle, FRESH, look)
  {
  }

  // ------------------------------------------------------------------ how soon

  /** Some of the first `n` looks at this file, each read in full, answers true. */
  function FoundWithin(needle: Bytes, w: Watch, content: Bytes, n: nat): bool
    decreases n
  {
    if n == 0 then false
    else
      var (next, found) := Checked(needle, w, File(content, CHUNK)); found || FoundWithin(needle, next, content, n - 1)
  }

  lemma {:induction false} FoundWhenRead(needle: Bytes, w: Watch, content: Bytes, n: nat)
    requires w.offset <= |content| && HasRead(needle, w, content[..w.offset]) && Contains(content, needle)
    requires |content| - w.offset <= n * CHUNK
    ensures FoundWithin(needle, w, content, n)
    decreases n
  {
    var seen, look := content[..w.offset], File(content, CHUNK);
    var (next, found) := Checked(needle, w, look);
    assert content[..|content|] == content;
    if w.offset < |content| {
      CheckIsExact(needle, w, seen, look);
      if !found {
        FoundWhenRead(needle, next, content, n - 1);
      }
    }
  }

  /** Once the file stops growing, its text is found in as many looks as chunks are left to read. */
  lemma FoundInTime(needle: Bytes, w: Watch, content: Bytes)
    requires w.offset <= |content| && HasRead(needle, w, content[..w.offset]) && Contains(content, needle)
    ensures FoundWithin(needle, w, content, (|content| - w.offset + 4_194_303) / 4_194_304)
  {
    FoundWhenRead(needle, w, content, (|content| - w.offset + CHUNK - 1) / CHUNK);
  }

  // ------------------------------------------------------------------ waiting

  /**
   The bounded wait: `clock` gives its readings in order, the start and then one a turn, and `holds` its looks.
   A sleep lies between two turns, so their readings ascend; none lies between the start and the first turn. It
   ends met at the first look that holds, and unmet only after a last look at or past the deadline, which no
   earlier turn had reached.
   */
  method WaitFor(timeoutMs: nat, clock: nat -> int, holds: nat -> bool) returns (met: bool, looks: nat)
    requires forall k: nat :: k >= 1 ==> clock(k) < clock(k + 1)
    ensures looks > 0 && met == holds(looks - 1) && forall k :: 0 <= k < looks - 1 ==> !holds(k)
    ensures !met ==> looks > 1 && clock(looks - 1) >= clock(0) + timeoutMs
    ensures looks > 2 ==> clock(looks - 2) < clock(0) + timeoutMs
  {
    var deadline := clock(0) + timeoutMs;
    if holds(0) {
      return true, 1;
    }
    looks := 1;
    while true
      invariant looks >= 1 && forall k :: 0 <= k < looks ==> !holds(k)
      invariant looks > 1 ==> clock(looks - 1) < deadline
      decreases deadline - clock(looks)
    {
      var left := deadline - clock(looks);
      looks := looks + 1;
      if left <= 0 {
        return holds(looks - 1), looks;
      }
      if holds(looks - 1) {
        return true, looks;
      }
    }
  }
}
