/** Shell words: how an argument is printed, and how a command line is split into arguments. */
module ShellWords {
  import opened Options
  import opened Texts

  const SPACE: Unit := 32
  const SINGLE: Unit := 39
  const DOUBLE: Unit := 34
  const BACKSLASH: Unit := 92

  /** Letters, digits and `_@%+=:,./-`: units that no shell treats apart. */
  predicate Safe(u: Unit) {
    Letter(u) || Digit(u) || u in [95, 64, 37, 43, 61, 58, 44, 46, 47, 45]
  }

  predicate AllSafe(s: Text) {
    forall i :: 0 <= i < |s| ==> Safe(s[i])
  }

  /** A single quote closes the quotes, is escaped, and opens them again. */
  function Inside(arg: Text): Text {
    if arg == [] then []
    else (if arg[0] == SINGLE then [SINGLE, BACKSLASH, SINGLE, SINGLE] else [arg[0]]) + Inside(arg[1..])
  }

  function Quote(arg: Text): Text {
    if arg != [] && AllSafe(arg) then arg else [SINGLE] + Inside(arg) + [SINGLE]
  }

  /** The arguments as one line, quoted and joined by single spaces. */
  function Line(args: seq<Text>): Text {
    if args == [] then []
    else if |args| == 1 then Quote(args[0])
    else Quote(args[0]) + [SPACE] + Line(args[1..])
  }

  // ------------------------------------------------------------------ splitting

  datatype Mode = Bare | InSingle | InDouble

  /** Inside double quotes a backslash escapes these. */
  predicate EscapedInDouble(u: Unit) {
    u == DOUBLE || u == BACKSLASH || u == 36 || u == 96
  }

  function Then(word: Text, rest: Result<seq<Text>, Mode>): Result<seq<Text>, Mode> {
    if rest.Err? then rest else Ok([word] + rest.value)
  }

  /** The words of what is left to read, a word being read or not; an error names the quotes left open. */
  function Words(s: Text, mode: Mode, current: Text, started: bool): Result<seq<Text>, Mode>
    decreases |s|
  {
    if s == [] then
      if mode != Bare then Err(mode) else Ok(if started then [current] else [])
    else
      var c, rest := s[0], s[1..];
      match mode
      case InSingle =>
        if c == SINGLE then Words(rest, Bare, current, started) else Words(rest, InSingle, current + [c], started)
      case InDouble =>
        if c == DOUBLE then Words(rest, Bare, current, started)
        else if c == BACKSLASH && rest != [] && EscapedInDouble(rest[0]) then
          Words(rest[1..], InDouble, current + [rest[0]], started)
        else Words(rest, InDouble, current + [c], started)
      case Bare =>
        if Blank(c) then if started then Then(current, Words(rest, Bare, [], false))
            else Words(rest, Bare, current, false)
        else if c == SINGLE then Words(rest, InSingle, current, true)
        else if c == DOUBLE then Words(rest, InDouble, current, true)
        else if c == BACKSLASH && rest != [] then Words(rest[1..], Bare, current + [rest[0]], true)
        else Words(rest, Bare, current + [c], true)
  }

  function All(done: seq<Text>, rest: Result<seq<Text>, Mode>): Result<seq<Text>, Mode> {
    if rest.Err? then rest else Ok(done + rest.value)
  }

  lemma AllThen(done: seq<Text>, word: Text, rest: Result<seq<Text>, Mode>)
    ensures All(done, Then(word, rest)) == All(done + [word], rest)
  {
    if rest.Ok? {
      assert done + ([word] + rest.value) == done + [word] + rest.value;
    }
  }

  /** The character loop. */
  method SplitCommand(text: Text) returns (r: Result<seq<Text>, Mode>)
    ensures r == Words(text, Bare, [], false)
  {
    var words, current, started, mode, i := [], [], false, Bare, 0;
    ghost var whole := Words(text, Bare, [], false);
    assert text[0..] == text && (whole.Ok? ==> [] + whole.value == whole.value);
    while i < |text|
      invariant i <= |text| && All(words, Words(text[i..], mode, current, started)) == whole
    {
      var c := text[i];
      assert text[i..][1..] == text[i + 1..];
      if mode == InSingle {
        if c == SINGLE {
          mode := Bare;
        } else {
          current := current + [c];
        }
        i := i + 1;
      } else if mode == InDouble {
        if c == DOUBLE {
          mode := Bare;
        } else if c == BACKSLASH && i + 1 < |text| && EscapedInDouble(text[i + 1]) {
          assert text[i + 1..][1..] == text[i + 2..];
          i := i + 1;
          current := current + [text[i]];
        } else {
          current := current + [c];
        }
        i := i + 1;
      } else if Blank(c) {
        if started {
          AllThen(words, current, Words(text[i + 1..], Bare, [], false));
          words, current, started := words + [current], [], false;
        }
        i := i + 1;
      } else {
        started := true;
        if c == SINGLE {
          mode := InSingle;
        } else if c == DOUBLE {
          mode := InDouble;
        } else if c == BACKSLASH && i + 1 < |text| {
          assert text[i + 1..][1..] == text[i + 2..];
          i := i + 1;
          current := current + [text[i]];
        } else {
          current := current + [c];
        }
        i := i + 1;
      }
    }
    if mode != Bare {
      return Err(mode);
    }
    if started {
      words := words + [current];
    }
    assert words + [] == words;
    return Ok(words);
  }

  // ------------------------------------------------------------------ the round trip

  lemma {:induction false} SafeReadsBack(arg: Text, rest: Text, current: Text, started: bool)
    requires AllSafe(arg) && (arg != [] || started)
    ensures Words(arg + rest, Bare, current, started) == Words(rest, Bare, current + arg, true)
    decreases |arg|
  {
    if arg == [] {
      assert arg + rest == rest && current + arg == current;
    } else {
      var c := arg[0];
      assert Safe(c) && !Blank(c) && c != SINGLE && c != DOUBLE && c != BACKSLASH;
      assert (arg + rest)[1..] == arg[1..] + rest;
      SafeReadsBack(arg[1..], rest, current + [c], true);
      assert current + [c] + arg[1..] == current + arg;
    }
  }

  lemma {:induction false} InsideReadsBack(arg: Text, rest: Text, current: Text)
    ensures Words(Inside(arg) + [SINGLE] + rest, InSingle, current, true) == Words(rest, Bare, current + arg, true)
    decreases |arg|
  {
    var s := Inside(arg) + [SINGLE] + rest;
    if arg == [] {
      assert s[1..] == rest && current + arg == current;
    } else {
      var c := arg[0];
      var more := Inside(arg[1..]) + [SINGLE] + rest;
      InsideReadsBack(arg[1..], rest, current + [c]);
      assert current + [c] + arg[1..] == current + arg;
      if c == SINGLE {
        assert s == [SINGLE, BACKSLASH, SINGLE, SINGLE] + more;
        QuoteReadsBack(more, current);
      } else {
        assert s == [c] + more && s[1..] == more;
      }
    }
  }

  lemma QuoteReadsBack(more: Text, current: Text)
    ensures Words([SINGLE, BACKSLASH, SINGLE, SINGLE] + more, InSingle, current, true)
         == Words(more, InSingle, current + [SINGLE], true)
  {
    var s := [SINGLE, BACKSLASH, SINGLE, SINGLE] + more;
    assert s[1..] == [BACKSLASH, SINGLE, SINGLE] + more;
    assert s[1..][1..] == [SINGLE, SINGLE] + more;
    assert s[1..][1..][1..] == [SINGLE] + more;
    assert ([SINGLE] + more)[1..] == more;
    assert Words(s[1..], Bare, current, true) == Words([SINGLE] + more, Bare, current + [SINGLE], true);
  }

  /** A quoted argument is read as one word, whatever it holds and whatever follows. */
  lemma QuotedReadsBack(arg: Text, rest: Text)
    ensures Words(Quote(arg) + rest, Bare, [], false) == Words(rest, Bare, arg, true)
  {
    hide Words;
    hide AllSafe;
    hide Inside;
    assert [] + arg == arg;
    if arg != [] && AllSafe(arg) {
      SafeReadsBack(arg, rest, [], false);
    } else {
      OpensQuotes(Inside(arg) + [SINGLE] + rest);
      assert Quote(arg) + rest == [SINGLE] + (Inside(arg) + [SINGLE] + rest);
      InsideReadsBack(arg, rest, []);
    }
  }

  lemma OpensQuotes(rest: Text)
    ensures Words([SINGLE] + rest, Bare, [], false) == Words(rest, InSingle, [], true)
  {
    assert ([SINGLE] + rest)[1..] == rest;
  }

  /** Splitting the printed line gives the argument list back. */
  lemma {:induction false} LineSplitsBack(args: seq<Text>)
    ensures Words(Line(args), Bare, [], false) == Ok(args)
  {
    if |args| == 1 {
      QuotedReadsBack(args[0], []);
      assert Line(args) == Quote(args[0]) + [] && args == [args[0]];
    } else if args != [] {
      var rest := [SPACE] + Line(args[1..]);
      QuotedReadsBack(args[0], rest);
      assert Line(args) == Quote(args[0]) + rest && rest[1..] == Line(args[1..]);
      LineSplitsBack(args[1..]);
      assert args == [args[0]] + args[1..];
    }
  }

  // ------------------------------------------------------------------ the other two ways of quoting

  /** Between double quotes, with a backslash before each unit that one escapes there. */
  function InsideDouble(arg: Text): Text {
    if arg == [] then []
    else (if EscapedInDouble(arg[0]) then [BACKSLASH, arg[0]] else [arg[0]]) + InsideDouble(arg[1..])
  }

  lemma {:induction false} DoubleReadsBack(arg: Text, rest: Text, current: Text)
    ensures Words(InsideDouble(arg) + [DOUBLE] + rest, InDouble, current, true)
        == Words(rest, Bare, current + arg, true)
    decreases |arg|
  {
    var s := InsideDouble(arg) + [DOUBLE] + rest;
    if arg == [] {
      assert s[1..] == rest && current + arg == current;
    } else {
      var c, more := arg[0], InsideDouble(arg[1..]) + [DOUBLE] + rest;
      DoubleReadsBack(arg[1..], rest, current + [c]);
      assert current + [c] + arg[1..] == current + arg;
      if EscapedInDouble(c) {
        assert s == [BACKSLASH, c] + more && s[1..] == [c] + more && s[1..][1..] == more;
      } else {
        assert s == [c] + more && s[1..] == more;
      }
    }
  }

  /** Outside quotes a backslash takes the next unit as it is, blanks and quotes included. */
  function Backslashed(arg: Text): Text {
    if arg == [] then [] else [BACKSLASH, arg[0]] + Backslashed(arg[1..])
  }

  lemma {:induction false} BackslashedReadsBack(arg: Text, rest: Text, current: Text, started: bool)
    requires arg != [] || started
    ensures Words(Backslashed(arg) + rest, Bare, current, started) == Words(rest, Bare, current + arg, true)
    decreases |arg|
  {
    var s := Backslashed(arg) + rest;
    if arg == [] {
      assert s == rest && current + arg == current;
    } else {
      var c, more := arg[0], Backslashed(arg[1..]) + rest;
      BackslashedReadsBack(arg[1..], rest, current + [c], true);
      assert current + [c] + arg[1..] == current + arg;
      assert s == [BACKSLASH, c] + more && s[1..] == [c] + more && s[1..][1..] == more;
    }
  }
}
