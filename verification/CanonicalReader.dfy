/**
 Reading a canonical text by the grammar of JSON (RFC 8259, sections 2 to 7): the text of a value is read back
 as its tree, whole and with nothing left over.
 */
module CanonicalReader {
  import opened Options
  import opened CanonicalJson
  import opened CanonicalText
  import opened CanonicalIdentity
  import opened Texts

  // ------------------------------------------------------------------ a reader

  predicate Opens(t: Text, c: char)
    requires c < 128 as char
  {
    t != [] && t[0] == c as int
  }

  /** The rest of the text behind this word. */
  function Behind(t: Text, w: string): Option<Text>
    requires forall i :: 0 <= i < |w| ==> w[i] < 128 as char
  {
    if Ascii(w) <= t then Some(t[|w|..]) else None
  }

  function HexDigit(u: Unit): (d: Option<int>)
    ensures d.Some? ==> 0 <= d.value < 16
  {
    if '0' as int <= u <= '9' as int then Some(u - '0' as int)
    else if 'a' as int <= u <= 'f' as int then Some(u - 'a' as int + 10)
    else if 'A' as int <= u <= 'F' as int then Some(u - 'A' as int + 10)
    else None
  }

  function HexUnit(t: Text): Option<Unit>
    requires |t| == 4
  {
    var a, b, c, d := HexDigit(t[0]), HexDigit(t[1]), HexDigit(t[2]), HexDigit(t[3]);
    if a.None? || b.None? || c.None? || d.None? then None
    else Some(a.value * 4096 + b.value * 256 + c.value * 16 + d.value)
  }

  /** What a backslash and this letter stand for, other than a code. */
  function Short(u: Unit): Option<Unit> {
    if u == '\"' as int || u == '\\' as int || u == '/' as int then Some(u)
    else if u == 'b' as int then Some(8)
    else if u == 'f' as int then Some(12)
    else if u == 'n' as int then Some(10)
    else if u == 'r' as int then Some(13)
    else if u == 't' as int then Some(9)
    else None
  }

  /** One unit of a string and what follows it. */
  function ReadUnit(t: Text): (o: Option<(Unit, Text)>)
    ensures o.Some? ==> |o.value.1| < |t|
  {
    if t == [] || t[0] < 32 || Opens(t, '\"') then None
    else if !Opens(t, '\\') then Some((t[0], t[1..]))
    else if |t| < 2 then None
    else if t[1] == 'u' as int then
      if |t| < 6 || HexUnit(t[2..6]).None? then None else Some((HexUnit(t[2..6]).value, t[6..]))
    else if Short(t[1]).None? then None
    else Some((Short(t[1]).value, t[2..]))
  }

  /** The units up to the closing quote, and what follows it. */
  function ReadUnits(t: Text): (o: Option<(Text, Text)>)
    ensures o.Some? ==> |o.value.1| < |t|
    decreases |t|
  {
    if Opens(t, '\"') then Some(([], t[1..]))
    else
      var first := ReadUnit(t);
      if first.None? then None
      else
        var rest := ReadUnits(first.value.1);
        if rest.None? then None else Some(([first.value.0] + rest.value.0, rest.value.1))
  }

  /** Number of units of a number the text starts with. */
  function NumberLength(t: Text): (k: nat)
    ensures k <= |t| && (forall i :: 0 <= i < k ==> NumberUnit(t[i])) && (k < |t| ==> !NumberUnit(t[k]))
  {
    if t == [] || !NumberUnit(t[0]) then 0 else 1 + NumberLength(t[1..])
  }

  /** A value and what follows it. */
  function Read(t: Text): (o: Option<(Tree, Text)>)
    ensures o.Some? ==> |o.value.1| < |t|
    decreases |t|, 1
  {
    if Behind(t, "null").Some? then Some((NullTree, Behind(t, "null").value))
    else if Behind(t, "true").Some? then Some((BoolTree(true), Behind(t, "true").value))
    else if Behind(t, "false").Some? then Some((BoolTree(false), Behind(t, "false").value))
    else if Opens(t, '\"') then
      var s := ReadUnits(t[1..]); if s.None? then None else Some((StrTree(s.value.0), s.value.1))
    else if Opens(t, '[') then
      if Opens(t[1..], ']') then Some((ArrTree([]), t[2..]))
      else var items := ReadItems(t[1..]); if items.None? then None else Some((ArrTree(items.value.0), items.value.1))
    else if Opens(t, '{') then
      if Opens(t[1..], '}') then Some((ObjTree([]), t[2..]))
      else
        var members := ReadMembers(t[1..]);
        if members.None? then None else Some((ObjTree(members.value.0), members.value.1))
    else
      var k := NumberLength(t);
      if k == 0 then None else Some((NumTree(t[..k]), t[k..]))
  }

  /** Values with commas between them, up to the closing bracket. */
  function ReadItems(t: Text): (o: Option<(seq<Tree>, Text)>)
    ensures o.Some? ==> |o.value.1| < |t|
    decreases |t|, 3
  {
    var first := Read(t);
    if first.None? then None
    else if Opens(first.value.1, ']') then Some(([first.value.0], first.value.1[1..]))
    else if !Opens(first.value.1, ',') then None
    else
      var rest := ReadItems(first.value.1[1..]);
      if rest.None? then None else Some(([first.value.0] + rest.value.0, rest.value.1))
  }

  function ReadMember(t: Text): (o: Option<(Keyed<Tree>, Text)>)
    ensures o.Some? ==> |o.value.1| < |t|
    decreases |t|, 2
  {
    if !Opens(t, '\"') then None
    else
      var key := ReadUnits(t[1..]);
      if key.None? || !Opens(key.value.1, ':') then None
      else
        var value := Read(key.value.1[1..]);
        if value.None? then None else Some((Keyed(key.value.0, value.value.0), value.value.1))
  }

  function ReadMembers(t: Text): (o: Option<(seq<Keyed<Tree>>, Text)>)
    ensures o.Some? ==> |o.value.1| < |t|
    decreases |t|, 3
  {
    var first := ReadMember(t);
    if first.None? then None
    else if Opens(first.value.1, '}') then Some(([first.value.0], first.value.1[1..]))
    else if !Opens(first.value.1, ',') then None
    else
      var rest := ReadMembers(first.value.1[1..]);
      if rest.None? then None else Some(([first.value.0] + rest.value.0, rest.value.1))
  }

  // ------------------------------------------------------------------ strings read back

  lemma DigitReadsBack(d: int)
    requires 0 <= d < 16
    ensures HexDigit(Hex(d)) == Some(d)
  {
  }

  lemma FourDigits(u: Unit)
    ensures 0 <= u / 4096 < 16 && 0 <= u / 256 % 16 < 16 && 0 <= u / 16 % 16 < 16
    ensures u == u / 4096 * 4096 + u / 256 % 16 * 256 + u / 16 % 16 * 16 + u % 16
  {
    assert u / 256 / 16 == u / 4096 && u / 16 / 16 == u / 256;
  }

  lemma HexReadsBack(u: Unit)
    ensures HexUnit(EscapeHex(u)[2..6]) == Some(u)
  {
    FourDigits(u);
    DigitsReadBack(u / 4096, u / 256 % 16, u / 16 % 16, u % 16);
    assert EscapeHex(u)[2..6] == [Hex(u / 4096), Hex(u / 256 % 16), Hex(u / 16 % 16), Hex(u % 16)];
    hide *;
  }

  lemma DigitsReadBack(a: int, b: int, c: int, d: int)
    requires 0 <= a < 16 && 0 <= b < 16 && 0 <= c < 16 && 0 <= d < 16
    ensures HexUnit([Hex(a), Hex(b), Hex(c), Hex(d)]) == Some(a * 4096 + b * 256 + c * 16 + d)
  {
    DigitReadsBack(a);
    DigitReadsBack(b);
    DigitReadsBack(c);
    DigitReadsBack(d);
    hide Hex;
    hide HexDigit;
  }

  lemma EscapedReadsBack(u: Unit, r: Text)
    ensures ReadUnit(EscapeUnit(u) + r) == Some((u, r)) && !Opens(EscapeUnit(u) + r, '\"')
  {
    var t := EscapeUnit(u) + r;
    if EscapeUnit(u) == EscapeHex(u) {
      HexReadsBack(u);
      assert t[2..6] == EscapeHex(u)[2..6] && t[6..] == r;
    } else {
      assert t[|EscapeUnit(u)|..] == r;
    }
  }

  lemma {:induction false} StringReadsBack(s: Text, r: Text)
    ensures ReadUnits(EscapeThen(s, r)) == Some((s, r))
    decreases |s|
  {
    if s == [] {
      assert ([QUOTE] + r)[1..] == r;
    } else if PairFirst(s) {
      PairReadsBack(s, r);
    } else {
      var rest := EscapeThen(s[1..], r);
      EscapedReadsBack(s[0], rest);
      StringReadsBack(s[1..], r);
      assert s == [s[0]] + s[1..];
    }
  }

  /** A unit that needs no escape is read as it is. */
  lemma PlainUnitRead(u: Unit, t: Text)
    requires u >= 32 && u !in {34, 92} && ReadUnits(t).Some?
    ensures ReadUnits([u] + t) == Some(([u] + ReadUnits(t).value.0, ReadUnits(t).value.1))
  {
    assert ([u] + t)[1..] == t && ([u] + t)[0] == u;
  }

  lemma {:induction false} PairReadsBack(s: Text, r: Text)
    requires PairFirst(s)
    ensures ReadUnits(EscapeThen(s, r)) == Some((s, r))
    decreases |s|, 0
  {
    var rest := EscapeThen(s[2..], r);
    StringReadsBack(s[2..], r);
    PlainUnitRead(s[1], rest);
    PlainUnitRead(s[0], [s[1]] + rest);
    assert EscapeThen(s, r) == [s[0]] + ([s[1]] + rest);
    assert s == [s[0]] + ([s[1]] + s[2..]);
    hide ReadUnits;
  }

  // ------------------------------------------------------------------ values read back

  lemma NumberReadsBack(d: Digits, r: Text)
    requires Delimited(r)
    ensures Read(d + r) == Some((NumTree(d), r))
  {
    var t := d + r;
    var k := NumberLength(t);
    assert forall i :: 0 <= i < |d| ==> t[i] == d[i];
    assert r != [] ==> t[|d|] == r[0];
    assert k == |d|;
    assert t[..k] == d && t[k..] == r;
    NoWordStarts(t);
  }

  lemma NoWordStarts(t: Text)
    requires t != [] && NumberUnit(t[0])
    ensures Behind(t, "null").None? && Behind(t, "true").None? && Behind(t, "false").None?
    ensures !Opens(t, '\"') && !Opens(t, '[') && !Opens(t, '{')
  {
    assert Ascii("null")[0] == 'n' as int && Ascii("true")[0] == 't' as int && Ascii("false")[0] == 'f' as int;
  }

  lemma NoWordOpens(t: Text)
    requires t != [] && t[0] in {34, 91, 123}
    ensures Behind(t, "null").None? && Behind(t, "true").None? && Behind(t, "false").None?
  {
    assert Ascii("null")[0] == 'n' as int && Ascii("true")[0] == 't' as int && Ascii("false")[0] == 'f' as int;
  }

  lemma WordReadsBack(r: Text)
    ensures Read([110, 117, 108, 108] + r) == Some((NullTree, r))
    ensures Read([116, 114, 117, 101] + r) == Some((BoolTree(true), r))
    ensures Read([102, 97, 108, 115, 101] + r) == Some((BoolTree(false), r))
  {
    var n, t, f := Ascii("null"), Ascii("true"), Ascii("false");
    assert n == [110, 117, 108, 108] && t == [116, 114, 117, 101] && f == [102, 97, 108, 115, 101];
    assert (n + r)[4..] == r && (t + r)[4..] == r && (f + r)[5..] == r;
    assert (t + r)[0] != n[0] && (f + r)[0] != n[0] && (f + r)[0] != t[0];
  }

  /** Whatever may follow it, the print of a tree is read as that tree. */
  lemma {:induction false} TreeReadsBack(x: Tree, r: Text)
    requires Delimited(r)
    ensures Read(PrintThen(x, r)) == Some((x, r))
    decreases x, 1
  {
    match x
    case NullTree => WordReadsBack(r);
    case BoolTree(_) => WordReadsBack(r);
    case NumTree(digits) => NumberReadsBack(digits, r);
    case StrTree(s) =>
      StringReadsBack(s, r);
      NoWordOpens(PrintThen(x, r));
      assert PrintThen(x, r)[1..] == EscapeThen(s, r);
    case ArrTree(_) => ArrayReadsBack(x, r);
    case ObjTree(_) => ObjectReadsBack(x, r);
  }

  lemma {:induction false} ArrayReadsBack(x: Tree, r: Text)
    requires x.ArrTree?
    ensures Read(PrintThen(x, r)) == Some((x, r))
    decreases x, 0
  {
    var t := PrintThen(x, r);
    NoWordOpens(t);
    if x.items == [] {
      assert t[1..] == [CLOSE_ARRAY] + r && t[2..] == r;
    } else {
      KindShows(x.items[0], ItemsThen(x.items[1..], r));
      ItemsReadBack(x.items, r);
      assert t[1..] == PrintThen(x.items[0], ItemsThen(x.items[1..], r));
    }
  }

  lemma {:induction false} ItemsReadBack(items: seq<Tree>, r: Text)
    requires items != []
    ensures ReadItems(PrintThen(items[0], ItemsThen(items[1..], r))) == Some((items, r))
    decreases items, 0
  {
    var rest := ItemsThen(items[1..], r);
    TreeReadsBack(items[0], rest);
    if items[1..] == [] {
      assert rest[1..] == r && items == [items[0]];
    } else {
      ItemsReadBack(items[1..], r);
      assert rest[1..] == PrintThen(items[1..][0], ItemsThen(items[1..][1..], r));
      assert items == [items[0]] + items[1..];
    }
  }

  lemma {:induction false} ObjectReadsBack(x: Tree, r: Text)
    requires x.ObjTree?
    ensures Read(PrintThen(x, r)) == Some((x, r))
    decreases x, 0
  {
    var t := PrintThen(x, r);
    NoWordOpens(t);
    if x.members == [] {
      assert t[1..] == [CLOSE_OBJECT] + r && t[2..] == r;
    } else {
      MembersReadBack(x.members, r);
      assert t[1..] == MemberThen(x.members[0], MembersThen(x.members[1..], r));
    }
  }

  lemma {:induction false} MemberReadsBack(m: Keyed<Tree>, r: Text)
    requires Delimited(r)
    ensures ReadMember(MemberThen(m, r)) == Some((m, r))
    decreases m, 2
  {
    var value := PrintThen(m.value, r);
    StringReadsBack(m.key, [COLON] + value);
    TreeReadsBack(m.value, r);
    assert MemberThen(m, r)[1..] == EscapeThen(m.key, [COLON] + value);
    assert ([COLON] + value)[1..] == value;
  }

  lemma LastMemberRead(t: Text, m: Keyed<Tree>, r: Text)
    requires ReadMember(t) == Some((m, [CLOSE_OBJECT] + r))
    ensures ReadMembers(t) == Some(([m], r))
  {
    assert ([CLOSE_OBJECT] + r)[1..] == r;
  }

  lemma NextMemberRead(t: Text, m: Keyed<Tree>, u: Text, members: seq<Keyed<Tree>>, r: Text)
    requires ReadMember(t) == Some((m, [COMMA] + u)) && ReadMembers(u) == Some((members, r))
    ensures ReadMembers(t) == Some(([m] + members, r))
  {
    assert ([COMMA] + u)[1..] == u;
  }

  lemma {:induction false} MembersReadBack(members: seq<Keyed<Tree>>, r: Text)
    requires members != []
    ensures ReadMembers(MemberThen(members[0], MembersThen(members[1..], r))) == Some((members, r))
    decreases members, 0
  {
    var others := members[1..];
    var rest := MembersThen(others, r);
    MemberReadsBack(members[0], rest);
    if others == [] {
      LastMemberRead(MemberThen(members[0], rest), members[0], r);
      assert members == [members[0]];
    } else {
      MembersReadBack(others, r);
      NextMemberRead(MemberThen(members[0], rest), members[0], MemberThen(others[0], MembersThen(others[1..], r)),
                     others, r);
      assert members == [members[0]] + others;
    }
    hide ReadMember;
    hide ReadMembers;
    hide MemberThen;
  }

  // ------------------------------------------------------------------ the canonical text

  /** Every object of the tree lists its keys so that each comes before the next ones, unit by unit. */
  ghost predicate KeysAscend(x: Tree) {
    match x
    case ArrTree(items) => forall y :: y in items ==> KeysAscend(y)
    case ObjTree(members) =>
      && (forall i, j :: 0 <= i < j < |members| ==> Precedes(members[i].key, members[j].key))
      && forall m :: m in members ==> KeysAscend(m.value)
    case _ => true
  }

  lemma {:induction false} OrderedAscends(x: Tree)
    requires Ordered(x)
    ensures KeysAscend(x)
  {
    match x
    case ArrTree(items) =>
      forall y | y in items ensures KeysAscend(y) {
        OrderedAscends(y);
      }
    case ObjTree(members) =>
      forall i, j | 0 <= i < j < |members| ensures Precedes(members[i].key, members[j].key) {
        LessIsFirstDifference(members[i].key, members[j].key);
      }
      forall m | m in members ensures KeysAscend(m.value) {
        OrderedAscends(m.value);
      }
    case _ =>
  }

  /**
   The canonical text of a value is JSON: a reader takes all of it and finds a tree with the value's meaning, its
   keys in ascending order of their units.
   */
  lemma CanonicalReadsBack(v: Value)
    requires WellFormed(v) && Canonical(v).Some?
    ensures Read(Canonical(v).value) == Some((TreeOf(v), []))
    ensures SenseOf(TreeOf(v)) == Meaning(v) && KeysAscend(TreeOf(v))
  {
    CanonicalIsPrint(v);
    PrintThenIs(TreeOf(v), []);
    TreeReadsBack(TreeOf(v), []);
    TreeKeepsMeaning(v);
    TreeIsOrdered(v);
    OrderedAscends(TreeOf(v));
    assert Print(TreeOf(v)) + [] == Print(TreeOf(v));
  }

  /**
   Only what has to be escaped is, and as short as can be: the quote, the backslash and five controls in two units,
   other controls and lone surrogates by their code in lower-case digits.
   */
  lemma EscapedOnlyWhereNeeded(u: Unit)
    ensures u >= 32 && u !in {34, 92} && !(0xD800 <= u <= 0xDFFF) ==> EscapeUnit(u) == [u]
    ensures u in {8, 9, 10, 12, 13, 34, 92} ==> |EscapeUnit(u)| == 2
    ensures (u < 32 && u !in {8, 9, 10, 12, 13}) || 0xD800 <= u <= 0xDFFF ==> EscapeUnit(u) == EscapeHex(u)
    ensures forall i :: 0 <= i < |EscapeHex(u)| ==> !('A' as int <= EscapeHex(u)[i] <= 'F' as int)
  {
  }

  /** The units numbers are written with. */
  lemma NumberUnitsSpelled(u: Unit)
    ensures NumberUnit(u) <==> u in Ascii("0123456789+-.e")
  {
    var units := Ascii("0123456789+-.e");
    assert units == [48, 49, 50, 51, 52, 53, 54, 55, 56, 57, 43, 45, 46, 101];
    assert u in units <==> u in {48, 49, 50, 51, 52, 53, 54, 55, 56, 57, 43, 45, 46, 101};
  }

  /** A surrogate pair is written as it is; any other first unit by itself. */
  lemma PairsStayWhole(s: Text)
    requires s != []
    ensures EscapeFirst(s) ==
            if |s| >= 2 && 0xD800 <= s[0] <= 0xDBFF && 0xDC00 <= s[1] <= 0xDFFF then s[..2] else EscapeUnit(s[0])
  {
  }
}
