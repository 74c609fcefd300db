/**
 Reading canonical texts back: what follows a printed tree tells where it ends, so that no two trees
 print to texts of which one could be taken for the other.
 */
module CanonicalText {
  import opened CanonicalJson
  import opened Texts

  /** A value as it is printed: keys sorted, zeros and non-numbers settled. */
  datatype Tree =
    | NullTree
    | BoolTree(b: bool)
    | NumTree(digits: Digits)
    | StrTree(s: Text)
    | ArrTree(items: seq<Tree>)
    | ObjTree(members: seq<Keyed<Tree>>)

  function Print(t: Tree): Text {
    match t
    case NullTree => [110, 117, 108, 108]
    case BoolTree(b) => if b then [116, 114, 117, 101] else [102, 97, 108, 115, 101]
    case NumTree(digits) => digits
    case StrTree(s) => Quote(s)
    case ArrTree(items) => [OPEN_ARRAY] + Join(PrintItems(items)) + [CLOSE_ARRAY]
    case ObjTree(members) => [OPEN_OBJECT] + Join(MemberTexts(PrintMembers(members))) + [CLOSE_OBJECT]
  }

  function PrintItems(items: seq<Tree>): (texts: seq<Text>)
    ensures |texts| == |items|
  {
    if items == [] then [] else [Print(items[0])] + PrintItems(items[1..])
  }

  function PrintMembers(members: seq<Keyed<Tree>>): (entries: seq<Keyed<Text>>)
    ensures |entries| == |members|
  {
    if members == [] then []
    else [Keyed(members[0].key, Print(members[0].value))] + PrintMembers(members[1..])
  }

  /** Equal texts with heads of one length have equal heads and equal tails. */
  lemma Cut(a: Text, x: Text, b: Text, y: Text)
    requires a + x == b + y && |a| == |b|
    ensures a == b && x == y
  {
    assert a == (a + x)[..|a|] && b == (b + y)[..|b|];
    assert x == (a + x)[|a|..] && y == (b + y)[|b|..];
  }

  lemma Regroup(open: Unit, x: Text, y: Text, close: Unit, r: Text)
    ensures [open] + (x + y) + [close] + r == [open] + (x + (y + ([close] + r)))
  {
  }

  // ------------------------------------------------------------------ strings

  function HexValue(u: Unit): int {
    if u < 58 then u - 48 else u - 87
  }

  /** The character an escaped first character stands for. */
  function Unescape(c: Text): seq<int>
    requires c != [] && (c[0] == BACKSLASH ==> |c| >= 2) && (c[0] == BACKSLASH && c[1] == 117 ==> |c| >= 6)
  {
    if c[0] != BACKSLASH then c
    else if c[1] == 98 then [8]
    else if c[1] == 116 then [9]
    else if c[1] == 110 then [10]
    else if c[1] == 102 then [12]
    else if c[1] == 114 then [13]
    else if c[1] == 117 then [((HexValue(c[2]) * 16 + HexValue(c[3])) * 16 + HexValue(c[4])) * 16 + HexValue(c[5])]
    else [c[1]]
  }

  lemma HexRoundTrip(u: Unit)
    ensures Unescape(EscapeHex(u)) == [u]
  {
    assert u == ((u / 4096 * 16 + u / 256 % 16) * 16 + u / 16 % 16) * 16 + u % 16;
  }

  lemma FirstRoundTrip(s: Text)
    requires s != []
    ensures Unescape(EscapeFirst(s)) == s[..FirstLength(s)]
  {
    if !PairFirst(s) {
      HexRoundTrip(s[0]);
    }
  }

  /** Length of an escaped first character, read from its first two units. */
  function ChunkLength(t: Text): nat
    requires |t| >= 2
  {
    if t[0] == BACKSLASH then (if t[1] == 117 then 6 else 2) else if High(t[0]) then 2 else 1
  }

  lemma ChunkEnds(s: Text, r: Text)
    requires s != [] && r != []
    ensures |EscapeFirst(s) + r| >= 2 && ChunkLength(EscapeFirst(s) + r) == |EscapeFirst(s)|
    ensures EscapeFirst(s) != [] && EscapeFirst(s)[0] != QUOTE
  {
  }

  /** The escaped string, its closing quote, and what follows. */
  function EscapeThen(s: Text, r: Text): (t: Text)
    ensures t != []
  {
    if s == [] then [QUOTE] + r else EscapeFirst(s) + EscapeThen(s[FirstLength(s)..], r)
  }

  lemma {:induction false} EscapeThenIs(s: Text, r: Text)
    ensures EscapeThen(s, r) == Escape(s) + ([QUOTE] + r)
    decreases |s|
  {
    if s != [] {
      EscapeThenIs(s[FirstLength(s)..], r);
    }
  }

  /** Two escaped strings that start alike start with the same character. */
  lemma SameFirst(s: Text, t: Text, x: Text, y: Text)
    requires s != [] && t != [] && x != [] && y != [] && EscapeFirst(s) + x == EscapeFirst(t) + y
    ensures s[..FirstLength(s)] == t[..FirstLength(t)] && x == y
  {
    ChunkEnds(s, x);
    ChunkEnds(t, y);
    Cut(EscapeFirst(s), x, EscapeFirst(t), y);
    FirstRoundTrip(s);
    FirstRoundTrip(t);
  }

  /** A quoted string ends where its closing quote says, and names one string. */
  lemma {:induction false} EscapeUnique(s: Text, t: Text, r: Text, q: Text)
    requires EscapeThen(s, r) == EscapeThen(t, q)
    ensures s == t && r == q
    decreases |s|
  {
    if s == [] || t == [] {
      if s != [] {
        ChunkEnds(s, EscapeThen(s[FirstLength(s)..], r));
      } else if t != [] {
        ChunkEnds(t, EscapeThen(t[FirstLength(t)..], q));
      }
      Cut([QUOTE], r, [QUOTE], q);
    } else {
      var s', t' := s[FirstLength(s)..], t[FirstLength(t)..];
      SameFirst(s, t, EscapeThen(s', r), EscapeThen(t', q));
      EscapeUnique(s', t', r, q);
      assert s == s[..FirstLength(s)] + s' && t == t[..FirstLength(t)] + t';
    }
  }

  // ------------------------------------------------------------------ trees, and what follows them

  function PrintThen(t: Tree, r: Text): Text
    decreases t, 1
  {
    match t
    case NullTree => [110, 117, 108, 108] + r
    case BoolTree(b) => (if b then [116, 114, 117, 101] else [102, 97, 108, 115, 101]) + r
    case NumTree(digits) => digits + r
    case StrTree(s) => [QUOTE] + EscapeThen(s, r)
    case ArrTree(items) =>
      [OPEN_ARRAY] + if items == [] then [CLOSE_ARRAY] + r else PrintThen(items[0], ItemsThen(items[1..], r))
    case ObjTree(members) =>
      [OPEN_OBJECT] + if members == [] then [CLOSE_OBJECT] + r else MemberThen(members[0], MembersThen(members[1..], r))
  }

  function ItemsThen(items: seq<Tree>, r: Text): Text
    decreases items, 0
  {
    if items == [] then [CLOSE_ARRAY] + r else [COMMA] + PrintThen(items[0], ItemsThen(items[1..], r))
  }

  function MemberThen(m: Keyed<Tree>, r: Text): Text
    decreases m, 2
  {
    [QUOTE] + EscapeThen(m.key, [COLON] + PrintThen(m.value, r))
  }

  function MembersThen(members: seq<Keyed<Tree>>, r: Text): Text
    decreases members, 0
  {
    if members == [] then [CLOSE_OBJECT] + r else [COMMA] + MemberThen(members[0], MembersThen(members[1..], r))
  }

  lemma QuoteThen(s: Text, r: Text)
    ensures [QUOTE] + EscapeThen(s, r) == Quote(s) + r
  {
    EscapeThenIs(s, r);
  }

  lemma {:induction false} PrintThenIs(t: Tree, r: Text)
    ensures PrintThen(t, r) == Print(t) + r
    decreases t, 1
  {
    match t
    case NullTree =>
    case BoolTree(b) =>
    case NumTree(digits) =>
    case StrTree(s) => QuoteThen(s, r);
    case ArrTree(items) => ArrayThenIs(t, r);
    case ObjTree(members) => ObjectThenIs(t, r);
  }

  lemma {:induction false} ArrayThenIs(t: Tree, r: Text)
    requires t.ArrTree?
    ensures PrintThen(t, r) == Print(t) + r
    decreases t, 0
  {
    var items := t.items;
    if items != [] {
      var rest := ItemsThen(items[1..], r);
      ItemsThenIs(items[1..], r);
      PrintThenIs(items[0], rest);
      assert PrintItems(items)[1..] == PrintItems(items[1..]);
      Regroup(OPEN_ARRAY, Print(items[0]), Rest(PrintItems(items[1..])), CLOSE_ARRAY, r);
    }
  }

  lemma {:induction false} ObjectThenIs(t: Tree, r: Text)
    requires t.ObjTree?
    ensures PrintThen(t, r) == Print(t) + r
    decreases t, 0
  {
    var members := t.members;
    if members != [] {
      var m, rest := members[0], MembersThen(members[1..], r);
      MembersThenIs(members[1..], r);
      MemberThenIs(m, rest);
      assert MemberTexts(PrintMembers(members))[1..] == MemberTexts(PrintMembers(members[1..]));
      Regroup(OPEN_OBJECT, Quote(m.key) + [COLON] + Print(m.value),
              Rest(MemberTexts(PrintMembers(members[1..]))), CLOSE_OBJECT, r);
    }
  }

  lemma {:induction false} ItemsThenIs(items: seq<Tree>, r: Text)
    ensures ItemsThen(items, r) == Rest(PrintItems(items)) + ([CLOSE_ARRAY] + r)
    decreases items, 0
  {
    if items != [] {
      ItemsThenIs(items[1..], r);
      PrintThenIs(items[0], ItemsThen(items[1..], r));
    }
  }

  lemma {:induction false} MemberThenIs(m: Keyed<Tree>, r: Text)
    ensures MemberThen(m, r) == Quote(m.key) + [COLON] + Print(m.value) + r
    decreases m, 2
  {
    PrintThenIs(m.value, r);
    QuoteThen(m.key, [COLON] + PrintThen(m.value, r));
  }

  lemma {:induction false} MembersThenIs(members: seq<Keyed<Tree>>, r: Text)
    ensures MembersThen(members, r) == Rest(MemberTexts(PrintMembers(members))) + ([CLOSE_OBJECT] + r)
    decreases members, 0
  {
    if members != [] {
      hide Quote;
      hide Print;
      MembersThenIs(members[1..], r);
      MemberThenIs(members[0], MembersThen(members[1..], r));
      assert MemberTexts(PrintMembers(members))[1..] == MemberTexts(PrintMembers(members[1..]));
    }
  }

  // ------------------------------------------------------------------ one reading only

  /** What may follow a printed tree inside a canonical text. */
  predicate Delimited(r: Text) {
    r == [] || r[0] == COMMA || r[0] == CLOSE_ARRAY || r[0] == CLOSE_OBJECT
  }

  lemma NumberGoesOn(d: Digits, e: Digits, r: Text, q: Text)
    requires |d| < |e| && d + r == e + q
    ensures !Delimited(r)
  {
    assert (d + r)[|d|] == e[|d|];
  }

  lemma NumbersUnique(d: Digits, e: Digits, r: Text, q: Text)
    requires Delimited(r) && Delimited(q) && d + r == e + q
    ensures d == e && r == q
  {
    if |d| < |e| {
      NumberGoesOn(d, e, r, q);
    } else if |e| < |d| {
      NumberGoesOn(e, d, q, r);
    }
    Cut(d, r, e, q);
  }

  /** The first unit of a printed tree tells its kind. */
  function Kind(t: Tree): int {
    match t
    case NullTree => 0
    case BoolTree(b) => if b then 1 else 2
    case NumTree(_) => 3
    case StrTree(_) => 4
    case ArrTree(_) => 5
    case ObjTree(_) => 6
  }

  function KindOfUnit(u: Unit): int {
    if u == 110 then 0 else if u == 116 then 1 else if u == 102 then 2 else if NumberUnit(u) then 3
    else if u == QUOTE then 4 else if u == OPEN_ARRAY then 5 else if u == OPEN_OBJECT then 6 else 7
  }

  lemma KindShows(t: Tree, r: Text)
    ensures PrintThen(t, r) != [] && KindOfUnit(PrintThen(t, r)[0]) == Kind(t)
  {
  }

  lemma {:induction false} PrintUnique(a: Tree, b: Tree, r: Text, q: Text)
    requires Delimited(r) && Delimited(q) && PrintThen(a, r) == PrintThen(b, q)
    ensures a == b && r == q
    decreases a, 1
  {
    KindShows(a, r);
    KindShows(b, q);
    match a
    case NullTree => Cut([110, 117, 108, 108], r, [110, 117, 108, 108], q);
    case BoolTree(t) =>
      var text := if t then [116, 114, 117, 101] else [102, 97, 108, 115, 101];
      Cut(text, r, text, q);
    case NumTree(digits) => NumbersUnique(digits, b.digits, r, q);
    case StrTree(s) =>
      Cut([QUOTE], EscapeThen(s, r), [QUOTE], EscapeThen(b.s, q));
      EscapeUnique(s, b.s, r, q);
    case ArrTree(items) => ArrayUnique(a, b, r, q);
    case ObjTree(members) => ObjectUnique(a, b, r, q);
  }

  lemma {:induction false} ArrayUnique(a: Tree, b: Tree, r: Text, q: Text)
    requires a.ArrTree? && b.ArrTree? && PrintThen(a, r) == PrintThen(b, q)
    ensures a == b && r == q
    decreases a, 0
  {
    var xs, ys := a.items, b.items;
    Cut([OPEN_ARRAY], PrintThen(a, r)[1..], [OPEN_ARRAY], PrintThen(b, q)[1..]);
    if xs == [] || ys == [] {
      if xs != [] {
        KindShows(xs[0], ItemsThen(xs[1..], r));
      } else if ys != [] {
        KindShows(ys[0], ItemsThen(ys[1..], q));
      }
      Cut([CLOSE_ARRAY], r, [CLOSE_ARRAY], q);
    } else {
      PrintUnique(xs[0], ys[0], ItemsThen(xs[1..], r), ItemsThen(ys[1..], q));
      ItemsUnique(xs[1..], ys[1..], r, q);
      assert xs == [xs[0]] + xs[1..] && ys == [ys[0]] + ys[1..];
    }
  }

  lemma {:induction false} ItemsUnique(xs: seq<Tree>, ys: seq<Tree>, r: Text, q: Text)
    requires ItemsThen(xs, r) == ItemsThen(ys, q)
    ensures xs == ys && r == q
    decreases xs
  {
    assert ItemsThen(xs, r)[0] == if xs == [] then CLOSE_ARRAY else COMMA;
    assert ItemsThen(ys, q)[0] == if ys == [] then CLOSE_ARRAY else COMMA;
    if xs == [] {
      Cut([CLOSE_ARRAY], r, [CLOSE_ARRAY], q);
    } else {
      var x, y := ItemsThen(xs[1..], r), ItemsThen(ys[1..], q);
      Cut([COMMA], PrintThen(xs[0], x), [COMMA], PrintThen(ys[0], y));
      PrintUnique(xs[0], ys[0], x, y);
      ItemsUnique(xs[1..], ys[1..], r, q);
      assert xs == [xs[0]] + xs[1..] && ys == [ys[0]] + ys[1..];
    }
  }

  lemma {:induction false} MemberUnique(m: Keyed<Tree>, n: Keyed<Tree>, r: Text, q: Text)
    requires Delimited(r) && Delimited(q) && MemberThen(m, r) == MemberThen(n, q)
    ensures m == n && r == q
    decreases m
  {
    var x, y := [COLON] + PrintThen(m.value, r), [COLON] + PrintThen(n.value, q);
    Cut([QUOTE], EscapeThen(m.key, x), [QUOTE], EscapeThen(n.key, y));
    EscapeUnique(m.key, n.key, x, y);
    Cut([COLON], PrintThen(m.value, r), [COLON], PrintThen(n.value, q));
    PrintUnique(m.value, n.value, r, q);
  }

  lemma {:induction false} ObjectUnique(a: Tree, b: Tree, r: Text, q: Text)
    requires a.ObjTree? && b.ObjTree? && PrintThen(a, r) == PrintThen(b, q)
    ensures a == b && r == q
    decreases a, 0
  {
    var xs, ys := a.members, b.members;
    assert PrintThen(a, r)[1] == if xs == [] then CLOSE_OBJECT else QUOTE;
    assert PrintThen(b, q)[1] == if ys == [] then CLOSE_OBJECT else QUOTE;
    Cut([OPEN_OBJECT], PrintThen(a, r)[1..], [OPEN_OBJECT], PrintThen(b, q)[1..]);
    if xs == [] {
      Cut([CLOSE_OBJECT], r, [CLOSE_OBJECT], q);
    } else {
      MemberUnique(xs[0], ys[0], MembersThen(xs[1..], r), MembersThen(ys[1..], q));
      MembersUnique(xs[1..], ys[1..], r, q);
      assert xs == [xs[0]] + xs[1..] && ys == [ys[0]] + ys[1..];
    }
  }

  lemma {:induction false} MembersUnique(xs: seq<Keyed<Tree>>, ys: seq<Keyed<Tree>>, r: Text, q: Text)
    requires MembersThen(xs, r) == MembersThen(ys, q)
    ensures xs == ys && r == q
    decreases xs
  {
    assert MembersThen(xs, r)[0] == if xs == [] then CLOSE_OBJECT else COMMA;
    assert MembersThen(ys, q)[0] == if ys == [] then CLOSE_OBJECT else COMMA;
    if xs == [] {
      Cut([CLOSE_OBJECT], r, [CLOSE_OBJECT], q);
    } else {
      var x, y := MembersThen(xs[1..], r), MembersThen(ys[1..], q);
      Cut([COMMA], MemberThen(xs[0], x), [COMMA], MemberThen(ys[0], y));
      MemberUnique(xs[0], ys[0], x, y);
      MembersUnique(xs[1..], ys[1..], r, q);
      assert xs == [xs[0]] + xs[1..] && ys == [ys[0]] + ys[1..];
    }
  }

  /** Different trees print differently. */
  lemma PrintInjective(a: Tree, b: Tree)
    requires Print(a) == Print(b)
    ensures a == b
  {
    PrintThenIs(a, []);
    PrintThenIs(b, []);
    PrintUnique(a, b, [], []);
  }
}
