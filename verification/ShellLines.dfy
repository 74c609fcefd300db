/**
 The grammar of command lines: blanks, plain units, escaped units, and quoted texts of both kinds. A line splits
 exactly when it is made of these, and into the words they make.
 */
module ShellLines {
  import opened Options
  import opened Texts
  import opened ShellWords

  /** Between double quotes: a unit as it is, or a backslash and one of the four it frees. */
  datatype Part = AsIs(u: Unit) | Freed(u: Unit)

  datatype Item =
    | Separator(u: Unit)
    | Plain(u: Unit)
    | Escaped(u: Unit)
    | SingleQuoted(t: Text)
    | DoubleQuoted(parts: seq<Part>)

  /** Quote, backslash, dollar and backquote. */
  predicate Frees(u: Unit) {
    [u] in {Ascii("\""), Ascii("\\"), Ascii("$"), Ascii("`")}
  }

  function PartText(p: Part): (t: Text)
    ensures t != []
  {
    if p.AsIs? then [p.u] else [BACKSLASH, p.u]
  }

  function PartsText(parts: seq<Part>): Text {
    if parts == [] then [] else PartText(parts[0]) + PartsText(parts[1..])
  }

  function PartsValue(parts: seq<Part>): Text {
    if parts == [] then [] else [parts[0].u] + PartsValue(parts[1..])
  }

  /** A closing quote is never as it is; a backslash is only before what it does not free, so never at the end. */
  predicate ValidPart(parts: seq<Part>, k: nat)
    requires k < |parts|
  {
    match parts[k]
    case Freed(u) => Frees(u)
    case AsIs(u) => u != DOUBLE && (u == BACKSLASH ==> k + 1 < |parts| && !Frees(PartText(parts[k + 1])[0]))
  }

  predicate ValidParts(parts: seq<Part>) {
    forall k :: 0 <= k < |parts| ==> ValidPart(parts, k)
  }

  function ItemText(i: Item): (t: Text)
    ensures t != []
  {
    match i
    case Separator(u) => [u]
    case Plain(u) => [u]
    case Escaped(u) => [BACKSLASH, u]
    case SingleQuoted(t) => [SINGLE] + t + [SINGLE]
    case DoubleQuoted(parts) => [DOUBLE] + PartsText(parts) + [DOUBLE]
  }

  function ItemValue(i: Item): Text {
    match i
    case Separator(_) => []
    case Plain(u) => [u]
    case Escaped(u) => [u]
    case SingleQuoted(t) => t
    case DoubleQuoted(parts) => PartsValue(parts)
  }

  /** A backslash stands for itself only at the end of the line. */
  predicate ValidItem(i: Item, last: bool) {
    match i
    case Separator(u) => Blank(u)
    case Plain(u) => !Blank(u) && u != SINGLE && u != DOUBLE && (u == BACKSLASH ==> last)
    case Escaped(_) => true
    case SingleQuoted(t) => SINGLE !in t
    case DoubleQuoted(parts) => ValidParts(parts)
  }

  predicate ValidItems(items: seq<Item>) {
    forall k :: 0 <= k < |items| ==> ValidItem(items[k], k == |items| - 1)
  }

  function ItemsText(items: seq<Item>): Text {
    if items == [] then [] else ItemText(items[0]) + ItemsText(items[1..])
  }

  /** The words of the items, after a word that is begun or not. */
  function Grouped(items: seq<Item>, current: Text, started: bool): seq<Text> {
    if items == [] then if started then [current] else []
    else if items[0].Separator? then (if started then [current] else []) + Grouped(items[1..], [], false)
    else Grouped(items[1..], current + ItemValue(items[0]), true)
  }

  // ------------------------------------------------------------------ what is made of items is read

  lemma FreesFour(u: Unit)
    ensures Frees(u) <==> EscapedInDouble(u)
  {
    assert Ascii("\"")[0] == 34 && Ascii("\\")[0] == 92 && Ascii("$")[0] == 36 && Ascii("`")[0] == 96;
    assert Frees(u) ==> [u][0] == u;
    assert Ascii("\"") == [34] && Ascii("\\") == [92] && Ascii("$") == [36] && Ascii("`") == [96];
  }

  lemma {:induction false} SingleIsRead(t: Text, rest: Text, current: Text)
    requires SINGLE !in t
    ensures Words(t + [SINGLE] + rest, InSingle, current, true) == Words(rest, Bare, current + t, true)
    decreases |t|
  {
    var s := t + [SINGLE] + rest;
    if t == [] {
      assert s[1..] == rest && current + t == current;
    } else {
      assert s[1..] == t[1..] + [SINGLE] + rest && s[0] == t[0];
      SingleIsRead(t[1..], rest, current + [t[0]]);
      assert current + [t[0]] + t[1..] == current + t;
    }
  }

  lemma ValidRest(parts: seq<Part>)
    requires ValidParts(parts) && parts != []
    ensures ValidParts(parts[1..])
  {
    forall k | 0 <= k < |parts[1..]| ensures ValidPart(parts[1..], k) {
      assert ValidPart(parts, k + 1);
    }
  }

  lemma PartIsRead(p: Part, more: Text, current: Text)
    requires if p.Freed? then EscapedInDouble(p.u) else p.u != DOUBLE
    requires p == AsIs(BACKSLASH) ==> more != [] && !EscapedInDouble(more[0])
    ensures Words(PartText(p) + more, InDouble, current, true) == Words(more, InDouble, current + [p.u], true)
  {
    var s := PartText(p) + more;
    if p.Freed? {
      assert s[1..] == [p.u] + more && s[1..][1..] == more;
    } else {
      assert s[1..] == more;
    }
  }

  lemma FirstPart(parts: seq<Part>, rest: Text)
    requires ValidParts(parts) && parts != []
    ensures var p, more := parts[0], PartsText(parts[1..]) + [DOUBLE] + rest;
            && (if p.Freed? then EscapedInDouble(p.u) else p.u != DOUBLE)
            && (p == AsIs(BACKSLASH) ==> more != [] && !EscapedInDouble(more[0]))
            && PartsText(parts) + [DOUBLE] + rest == PartText(p) + more
  {
    assert ValidPart(parts, 0);
    FreesFour(parts[0].u);
    if parts[0] == AsIs(BACKSLASH) {
      FreesFour(PartText(parts[1])[0]);
    }
  }

  lemma {:induction false} PartsAreRead(parts: seq<Part>, rest: Text, current: Text)
    requires ValidParts(parts)
    ensures Words(PartsText(parts) + [DOUBLE] + rest, InDouble, current, true)
         == Words(rest, Bare, current + PartsValue(parts), true)
    decreases |parts|
  {
    hide *;
    if parts == [] {
      QuoteCloses(rest, current);
    } else {
      var p, more := parts[0], PartsText(parts[1..]) + [DOUBLE] + rest;
      ValidRest(parts);
      FirstPart(parts, rest);
      PartIsRead(p, more, current);
      PartsAreRead(parts[1..], rest, current + [p.u]);
      ValueGoesOn(parts, current);
    }
  }

  lemma QuoteCloses(rest: Text, current: Text)
    ensures Words(PartsText([]) + [DOUBLE] + rest, InDouble, current, true)
         == Words(rest, Bare, current + PartsValue([]), true)
  {
    assert (PartsText([]) + [DOUBLE] + rest)[1..] == rest && current + PartsValue([]) == current;
  }

  lemma ValueGoesOn(parts: seq<Part>, current: Text)
    requires parts != []
    ensures current + [parts[0].u] + PartsValue(parts[1..]) == current + PartsValue(parts)
  {
  }

  /** One item is taken from the front of a line, whatever follows. */
  lemma ItemIsRead(i: Item, rest: Text, current: Text, started: bool)
    requires ValidItem(i, rest == []) && (started || current == [])
    ensures Words(ItemText(i) + rest, Bare, current, started) ==
            if !i.Separator? then Words(rest, Bare, current + ItemValue(i), true)
            else if started then Then(current, Words(rest, Bare, [], false))
            else Words(rest, Bare, [], false)
  {
    hide *;
    if i.SingleQuoted? {
      SingleItemIsRead(i, rest, current, started);
    } else if i.DoubleQuoted? {
      DoubleItemIsRead(i, rest, current, started);
    } else {
      UnitIsRead(i, rest, current, started);
    }
  }

  lemma SingleItemIsRead(i: Item, rest: Text, current: Text, started: bool)
    requires i.SingleQuoted? && ValidItem(i, rest == [])
    ensures Words(ItemText(i) + rest, Bare, current, started) == Words(rest, Bare, current + ItemValue(i), true)
  {
    hide Words;
    QuoteOpens(i.t + [SINGLE] + rest, current, started);
    SingleIsRead(i.t, rest, current);
    assert ItemText(i) + rest == [SINGLE] + (i.t + [SINGLE] + rest);
  }

  lemma DoubleItemIsRead(i: Item, rest: Text, current: Text, started: bool)
    requires i.DoubleQuoted? && ValidItem(i, rest == [])
    ensures Words(ItemText(i) + rest, Bare, current, started) == Words(rest, Bare, current + ItemValue(i), true)
  {
    hide Words;
    hide ValidParts;
    hide PartsText;
    hide PartsValue;
    QuoteOpens(PartsText(i.parts) + [DOUBLE] + rest, current, started);
    PartsAreRead(i.parts, rest, current);
    assert ItemText(i) + rest == [DOUBLE] + (PartsText(i.parts) + [DOUBLE] + rest);
  }

  lemma QuoteOpens(rest: Text, current: Text, started: bool)
    ensures Words([SINGLE] + rest, Bare, current, started) == Words(rest, InSingle, current, true)
    ensures Words([DOUBLE] + rest, Bare, current, started) == Words(rest, InDouble, current, true)
  {
    assert ([SINGLE] + rest)[1..] == rest && ([DOUBLE] + rest)[1..] == rest;
  }

  lemma UnitIsRead(i: Item, rest: Text, current: Text, started: bool)
    requires !i.SingleQuoted? && !i.DoubleQuoted?
    requires ValidItem(i, rest == []) && (started || current == [])
    ensures Words(ItemText(i) + rest, Bare, current, started) ==
            if !i.Separator? then Words(rest, Bare, current + ItemValue(i), true)
            else if started then Then(current, Words(rest, Bare, [], false))
            else Words(rest, Bare, [], false)
  {
    hide Frees;
    var s := ItemText(i) + rest;
    if i.Escaped? {
      assert s[1..] == [i.u] + rest && s[1..][1..] == rest;
    } else {
      assert s[1..] == rest;
    }
  }

  lemma {:induction false} ItemsAreRead(items: seq<Item>, current: Text, started: bool)
    requires ValidItems(items) && (started || current == [])
    ensures Words(ItemsText(items), Bare, current, started) == Ok(Grouped(items, current, started))
    decreases |items|
  {
    if items != [] {
      var i, rest := items[0], ItemsText(items[1..]);
      assert ValidItem(i, |items| == 1);
      assert forall k :: 0 <= k < |items[1..]| ==> items[1..][k] == items[k + 1];
      assert rest == [] <==> |items| == 1;
      ItemIsRead(i, rest, current, started);
      hide Words;
      hide ItemText;
      hide ItemValue;
      if i.Separator? {
        ItemsAreRead(items[1..], [], false);
        assert [] + Grouped(items[1..], [], false) == Grouped(items[1..], [], false);
      } else {
        ItemsAreRead(items[1..], current + ItemValue(i), true);
      }
    }
  }

  // ------------------------------------------------------------------ what is read is made of items

  /** A single-quoted text is closed, or nothing in it is a quote and it is left open. */
  lemma {:induction false} SingleOpen(s: Text, current: Text)
    requires SINGLE !in s
    ensures Words(s, InSingle, current, true) == Err(InSingle)
    decreases |s|
  {
    if s != [] {
      SingleOpen(s[1..], current + [s[0]]);
    }
  }

  lemma {:induction false} FirstSingle(s: Text) returns (t: Text, rest: Text)
    requires SINGLE in s
    ensures SINGLE !in t && s == t + [SINGLE] + rest
  {
    if s[0] == SINGLE {
      t, rest := [], s[1..];
    } else {
      t, rest := FirstSingle(s[1..]);
      t := [s[0]] + t;
    }
  }

  /** Some parts and a closing quote are at the front. */
  ghost predicate DoubleCloses(s: Text) {
    exists parts, rest :: ValidParts(parts) && s == PartsText(parts) + [DOUBLE] + rest
  }

  lemma PartsCons(p: Part, s: Text)
    requires DoubleCloses(s)
    requires if p.Freed? then EscapedInDouble(p.u) else p.u != DOUBLE
    requires p == AsIs(BACKSLASH) ==> s != [] && !EscapedInDouble(s[0])
    ensures DoubleCloses(PartText(p) + s)
  {
    var parts, rest :| ValidParts(parts) && s == PartsText(parts) + [DOUBLE] + rest;
    var more := [p] + parts;
    assert more[1..] == parts;
    FreesFour(p.u);
    assert parts == [] ==> s[0] == DOUBLE;
    assert parts != [] ==> s[0] == PartText(parts[0])[0];
    if p == AsIs(BACKSLASH) {
      FreesFour(s[0]);
    }
    assert ValidPart(more, 0);
    forall k | 0 < k < |more| ensures ValidPart(more, k) {
      assert ValidPart(parts, k - 1);
    }
    assert PartText(p) + s == PartsText(more) + [DOUBLE] + rest;
  }

  lemma ClosesAtOnce(s: Text)
    ensures s != [] && s[0] == DOUBLE ==> DoubleCloses(s)
  {
    if s != [] && s[0] == DOUBLE {
      assert ValidParts([]) && s == PartsText([]) + [DOUBLE] + s[1..];
    }
  }

  lemma {:induction false} DoubleOpen(s: Text, current: Text)
    requires !DoubleCloses(s)
    ensures Words(s, InDouble, current, true) == Err(InDouble)
    decreases |s|
  {
    ClosesAtOnce(s);
    if s != [] {
      if s[0] == BACKSLASH && |s| > 1 && EscapedInDouble(s[1]) {
        assert s == PartText(Freed(s[1])) + s[2..] && s[1..][1..] == s[2..];
        if DoubleCloses(s[2..]) {
          PartsCons(Freed(s[1]), s[2..]);
        }
        DoubleOpen(s[2..], current + [s[1]]);
      } else {
        assert s == PartText(AsIs(s[0])) + s[1..];
        if DoubleCloses(s[1..]) {
          PartsCons(AsIs(s[0]), s[1..]);
        }
        DoubleOpen(s[1..], current + [s[0]]);
      }
    }
  }

  /** The first item of a line, or the quotes that are never closed. */
  lemma FirstItem(s: Text) returns (i: Item, rest: Text)
    requires s != [] && (s[0] == SINGLE ==> SINGLE in s[1..]) && (s[0] == DOUBLE ==> DoubleCloses(s[1..]))
    ensures ValidItem(i, rest == []) && s == ItemText(i) + rest
  {
    if s[0] == SINGLE {
      var t;
      t, rest := FirstSingle(s[1..]);
      i := SingleQuoted(t);
    } else if s[0] == DOUBLE {
      var parts;
      parts, rest :| ValidParts(parts) && s[1..] == PartsText(parts) + [DOUBLE] + rest;
      i := DoubleQuoted(parts);
    } else if Blank(s[0]) {
      i, rest := Separator(s[0]), s[1..];
    } else if s[0] == BACKSLASH && |s| > 1 {
      i, rest := Escaped(s[1]), s[2..];
    } else {
      i, rest := Plain(s[0]), s[1..];
    }
  }

  lemma ItemsCons(i: Item, items: seq<Item>)
    requires ValidItem(i, items == []) && ValidItems(items)
    ensures ValidItems([i] + items) && ItemsText([i] + items) == ItemText(i) + ItemsText(items)
  {
    var more := [i] + items;
    assert more[1..] == items;
  }

  /** What an unsplit line ends in: quotes opened after some items, and never closed. */
  ghost predicate LeftOpen(s: Text, mode: Mode) {
    match mode
    case InSingle => s != [] && s[0] == SINGLE && SINGLE !in s[1..]
    case InDouble => s != [] && s[0] == DOUBLE && !DoubleCloses(s[1..])
    case Bare => false
  }

  predicate NoneLast(items: seq<Item>) {
    forall k :: 0 <= k < |items| ==> ValidItem(items[k], false)
  }

  /** Every line is a list of items, up to its end or to quotes that are left open; and then it does not split. */
  lemma {:induction false} LineOfItems(s: Text, current: Text, started: bool) returns (items: seq<Item>, open: Text)
    requires started || current == []
    ensures s == ItemsText(items) + open
    ensures Words(s, Bare, current, started).Ok? ==> ValidItems(items) && open == []
    ensures Words(s, Bare, current, started).Err? ==>
              NoneLast(items) && LeftOpen(open, Words(s, Bare, current, started).error)
    decreases |s|
  {
    hide Frees;
    hide DoubleCloses;
    if s == [] {
      return [], [];
    }
    if s[0] == SINGLE && SINGLE !in s[1..] {
      SingleOpen(s[1..], current);
      return [], s;
    }
    if s[0] == DOUBLE && !DoubleCloses(s[1..]) {
      DoubleOpen(s[1..], current);
      return [], s;
    }
    var i, rest := FirstItem(s);
    ItemIsRead(i, rest, current, started);
    hide Words;
    hide ValidItem;
    hide ItemText;
    var next, begun := if i.Separator? then [] else current + ItemValue(i), !i.Separator?;
    items, open := LineOfItems(rest, next, begun);
    var more := [i] + items;
    assert more[1..] == items;
    if Words(rest, Bare, next, begun).Ok? {
      assert ItemsText(items) == rest;
      NoText(items);
      ItemsCons(i, items);
    } else {
      NothingLeft(next, begun);
    }
    items := more;
  }

  lemma NoText(items: seq<Item>)
    ensures ItemsText(items) == [] <==> items == []
  {
  }

  lemma NothingLeft(current: Text, started: bool)
    ensures Words([], Bare, current, started).Ok?
  {
  }

  /** A line splits into these words exactly when it is made of items that group into them. */
  lemma WordsAreTheItems(line: Text, words: seq<Text>)
    ensures Words(line, Bare, [], false) == Ok(words) <==>
              exists items :: ValidItems(items) && ItemsText(items) == line && Grouped(items, [], false) == words
  {
    if Words(line, Bare, [], false) == Ok(words) {
      var items, open := LineOfItems(line, [], false);
      assert ItemsText(items) == line;
      ItemsAreRead(items, [], false);
    }
    if items :| ValidItems(items) && ItemsText(items) == line && Grouped(items, [], false) == words {
      ItemsAreRead(items, [], false);
    }
  }

  /** Otherwise, after some items, quotes of the kind the error names open and are never closed. */
  lemma OpenQuotesAreThere(line: Text) returns (items: seq<Item>, open: Text)
    requires Words(line, Bare, [], false).Err?
    ensures line == ItemsText(items) + open && NoneLast(items)
    ensures LeftOpen(open, Words(line, Bare, [], false).error)
  {
    items, open := LineOfItems(line, [], false);
  }

  // ------------------------------------------------------------------ what is printed as it is

  /** An argument is printed as it is exactly when it holds something, and only letters, digits and `_@%+=:,./-`. */
  lemma PrintedAsItIs(arg: Text)
    ensures Quote(arg) == arg <==>
              arg != [] && forall i :: 0 <= i < |arg| ==>
                || 'a' as int <= arg[i] <= 'z' as int || 'A' as int <= arg[i] <= 'Z' as int
                || '0' as int <= arg[i] <= '9' as int || arg[i] in Ascii("_@%+=:,./-")
  {
    assert Ascii("_@%+=:,./-") == [95, 64, 37, 43, 61, 58, 44, 46, 47, 45];
    if !(arg != [] && AllSafe(arg)) {
      InsideGrows(arg);
      assert |Quote(arg)| >= |arg| + 2;
    }
  }

  lemma {:induction false} InsideGrows(arg: Text)
    ensures |Inside(arg)| >= |arg|
  {
    if arg != [] {
      InsideGrows(arg[1..]);
    }
  }
}
