/** The tokenizer's loops, which move an index through the text, against what is taken from its front. */
module TokenizerLoop {
  import opened Options
  import opened Texts
  import opened Tokenizer

  lemma DropDrop(s: Text, i: nat, n: nat)
    requires i + n <= |s|
    ensures s[i..][n..] == s[i + n..]
  {
  }

  /** Newlines between two places, counted one by one. */
  method CountLines(sql: Text, from: nat, to: nat) returns (n: nat)
    requires from <= to <= |sql|
    ensures n == Newlines(sql[from..to])
  {
    n := 0;
    for k := from to to
      invariant n + Newlines(sql[k..to]) == Newlines(sql[from..to])
    {
      assert sql[k..to][1..] == sql[k + 1..to];
      if sql[k] == NEWLINE {
        n := n + 1;
      }
    }
  }

  method EndOfLine(sql: Text, i: nat) returns (j: nat)
    requires i <= |sql|
    ensures j == i + LineLength(sql[i..])
  {
    j := i;
    while j < |sql| && sql[j] != NEWLINE
      invariant i <= j <= |sql|
      invariant j + LineLength(sql[j..]) == i + LineLength(sql[i..])
    {
      DropDrop(sql, j, 1);
      j := j + 1;
    }
  }

  /** The end of the comment as seen from a place inside it. */
  function EndFrom(sql: Text, j: nat, depth: int): Option<nat>
    requires j <= |sql|
  {
    Longer(j, CommentLength(sql[j..], depth))
  }

  lemma Opens(sql: Text, j: nat, depth: int)
    requires j < |sql| && OpensComment(sql[j..])
    ensures j + 2 <= |sql| && sql[j] != NEWLINE && sql[j + 1] != NEWLINE
    ensures EndFrom(sql, j, depth) == EndFrom(sql, j + 2, depth + 1)
  {
    DropDrop(sql, j, 2);
  }

  lemma Closes(sql: Text, j: nat, depth: int)
    requires j < |sql| && ClosesComment(sql[j..])
    ensures j + 2 <= |sql| && sql[j] != NEWLINE && sql[j + 1] != NEWLINE
    ensures EndFrom(sql, j, depth) == if depth == 1 then Some(j + 2) else EndFrom(sql, j + 2, depth - 1)
  {
    DropDrop(sql, j, 2);
  }

  lemma GoesOn(sql: Text, j: nat, depth: int)
    requires j < |sql| && !OpensComment(sql[j..]) && !ClosesComment(sql[j..])
    ensures EndFrom(sql, j, depth) == EndFrom(sql, j + 1, depth)
  {
    DropDrop(sql, j, 1);
  }

  lemma NotBoth(sql: Text, j: nat)
    requires j < |sql|
    ensures !(OpensComment(sql[j..]) && ClosesComment(sql[j..]))
  {
  }

  /** Moves past a block comment, counting depth and lines. */
  method EndOfComment(sql: Text, i: nat) returns (end: Option<nat>, lines: nat)
    requires i <= |sql| && OpensComment(sql[i..])
    ensures end == EndFrom(sql, i, 0)
    ensures end.Some? ==> i <= end.value <= |sql| && lines == Newlines(sql[i..end.value])
  {
    var j, depth := i, 0;
    lines := 0;
    NoneYet(sql, i);
    NotBoth(sql, i);
    hide *;
    while j < |sql|
      invariant i <= j <= |sql| && depth >= 0 && (depth == 0 ==> j == i)
      invariant EndFrom(sql, j, depth) == EndFrom(sql, i, 0) && lines == Newlines(sql[i..j])
      decreases |sql| - j
    {
      if OpensComment(sql[j..]) {
        Opens(sql, j, depth);
        TwoMore(sql, i, j);
        depth, j := depth + 1, j + 2;
        continue;
      }
      if ClosesComment(sql[j..]) {
        Closes(sql, j, depth);
        TwoMore(sql, i, j);
        depth, j := depth - 1, j + 2;
        if depth == 0 {
          return Some(j), lines;
        }
        continue;
      }
      GoesOn(sql, j, depth);
      OneMore(sql, i, j);
      if sql[j] == NEWLINE {
        lines := lines + 1;
      }
      j := j + 1;
    }
    NeverClosed(sql, depth);
    return None, lines;
  }

  lemma NeverClosed(sql: Text, depth: int)
    ensures EndFrom(sql, |sql|, depth).None?
  {
  }

  lemma NoneYet(sql: Text, i: nat)
    requires i <= |sql|
    ensures Newlines(sql[i..i]) == 0
  {
  }

  lemma OneMore(sql: Text, i: nat, j: nat)
    requires i <= j < |sql|
    ensures Newlines(sql[i..j + 1]) == Newlines(sql[i..j]) + if sql[j] == NEWLINE then 1 else 0
    decreases j - i
  {
    if i < j {
      OneMore(sql, i + 1, j);
      assert sql[i..j][1..] == sql[i + 1..j] && sql[i..j + 1][1..] == sql[i + 1..j + 1];
    } else {
      assert sql[i..j + 1] == [sql[j]] && sql[i..j + 1][1..] == [];
    }
  }

  lemma TwoMore(sql: Text, i: nat, j: nat)
    requires i <= j < j + 2 <= |sql| && sql[j] != NEWLINE && sql[j + 1] != NEWLINE
    ensures Newlines(sql[i..j + 2]) == Newlines(sql[i..j])
  {
    OneMore(sql, i, j);
    OneMore(sql, i, j + 1);
  }

  /** Reads a quoted text from after its opening quote, as a value and the place of the closing one. */
  method ReadQuoted(sql: Text, i: nat, quote: Unit) returns (r: Option<Scanned>)
    requires i <= |sql|
    ensures r == Quoted(sql[i..], quote)
  {
    var j, value := i, [];
    NothingGrown(Quoted(sql[i..], quote));
    while true
      invariant i <= j <= |sql|
      invariant Grown(value, j - i, Quoted(sql[j..], quote)) == Quoted(sql[i..], quote)
      decreases |sql| - j
    {
      if j >= |sql| {
        return None;
      }
      var ch := sql[j];
      if ch == quote && At(sql, j + 1, quote) {
        DropDrop(sql, j, 2);
        GrownTwice(value, j - i, [quote], 2, Quoted(sql[j + 2..], quote));
        value, j := value + [quote], j + 2;
        continue;
      }
      if ch == quote {
        assert value + [] == value;
        return Some(Scanned(value, j + 1 - i));
      }
      DropDrop(sql, j, 1);
      GrownTwice(value, j - i, [ch], 1, Quoted(sql[j + 1..], quote));
      value, j := value + [ch], j + 1;
    }
  }

  lemma NothingGrown(rest: Option<Scanned>)
    ensures Grown([], 0, rest) == rest
  {
    if rest.Some? {
      assert [] + rest.value.value == rest.value.value;
    }
  }

  lemma GrownEnd(value: Text, length: nat)
    ensures Grown(value, length, Some(Scanned([], 1))) == Some(Scanned(value, length + 1))
    ensures Grown(value, length, None).None?
  {
    assert value + [] == value;
  }

  lemma GrownTwice(a: Text, m: nat, b: Text, n: nat, rest: Option<Scanned>)
    ensures Grown(a, m, Grown(b, n, rest)) == Grown(a + b, m + n, rest)
  {
    if rest.Some? {
      assert a + (b + rest.value.value) == a + b + rest.value.value;
    }
  }

  lemma BackslashStep(sql: Text, j: nat)
    requires At(sql, j, BACKSLASH)
    ensures Escaped(sql[j..]) == if j + 1 == |sql| then None else Grown([sql[j + 1]], 2, Escaped(sql[j + 2..]))
  {
    if j + 1 < |sql| {
      DropDrop(sql, j, 2);
    }
  }

  lemma QuoteStep(sql: Text, j: nat)
    requires At(sql, j, QUOTE)
    ensures Escaped(sql[j..])
         == if At(sql, j + 1, QUOTE) then Grown([QUOTE], 2, Escaped(sql[j + 2..])) else Some(Scanned([], 1))
  {
    if j + 1 < |sql| {
      DropDrop(sql, j, 2);
    }
  }

  lemma UnitStep(sql: Text, j: nat)
    requires j < |sql| && sql[j] != BACKSLASH && sql[j] != QUOTE
    ensures Escaped(sql[j..]) == Grown([sql[j]], 1, Escaped(sql[j + 1..]))
  {
    DropDrop(sql, j, 1);
  }

  lemma NothingEscaped(sql: Text)
    ensures Escaped(sql[|sql|..]).None?
  {
  }

  method ReadEscaped(sql: Text, i: nat) returns (r: Option<Scanned>)
    requires i <= |sql|
    ensures r == Escaped(sql[i..])
  {
    var j, value := i, [];
    ghost var whole := Escaped(sql[i..]);
    NothingGrown(whole);
    hide *;
    while true
      invariant i <= j <= |sql| && Grown(value, j - i, Escaped(sql[j..])) == whole
      decreases |sql| - j
    {
      GrownEnd(value, j - i);
      if j >= |sql| {
        NothingEscaped(sql);
        return None;
      }
      var ch := sql[j];
      if ch == BACKSLASH {
        BackslashStep(sql, j);
        if j + 1 == |sql| {
          return None; // the index moves past the end, where the string is found unclosed
        }
        GrownTwice(value, j - i, [sql[j + 1]], 2, Escaped(sql[j + 2..]));
        value, j := value + [sql[j + 1]], j + 2;
        continue;
      }
      if ch == QUOTE {
        QuoteStep(sql, j);
      } else {
        UnitStep(sql, j);
      }
      if ch == QUOTE && At(sql, j + 1, QUOTE) {
        GrownTwice(value, j - i, [QUOTE], 2, Escaped(sql[j + 2..]));
        value, j := value + [QUOTE], j + 2;
        continue;
      }
      if ch == QUOTE {
        return Some(Scanned(value, j + 1 - i));
      }
      GrownTwice(value, j - i, [ch], 1, Escaped(sql[j + 1..]));
      value, j := value + [ch], j + 1;
    }
  }

  method EndOfWord(a: Alphabet, sql: Text, i: nat) returns (j: nat)
    requires i <= |sql|
    ensures j == i + Run(sql[i..], PartOf(a))
  {
    j := i;
    while j < |sql| && WordPart(a, sql[j])
      invariant i <= j <= |sql| && j + Run(sql[j..], PartOf(a)) == i + Run(sql[i..], PartOf(a))
    {
      DropDrop(sql, j, 1);
      j := j + 1;
    }
  }

  method EndOfOperator(sql: Text, i: nat) returns (j: nat)
    requires i <= |sql|
    ensures j == i + OperatorLength(sql[i..])
  {
    j := i;
    hide OperatorLength;
    while j < |sql| && sql[j] in OPERATORS && !OpensLineComment(sql[j..]) && !OpensComment(sql[j..])
      invariant i <= j <= |sql| && j + OperatorLength(sql[j..]) == i + OperatorLength(sql[i..])
    {
      OperatorGoesOn(sql, j);
      j := j + 1;
    }
    OperatorEnds(sql, j);
  }

  lemma OperatorGoesOn(sql: Text, j: nat)
    requires j < |sql| && sql[j] in OPERATORS && !OpensLineComment(sql[j..]) && !OpensComment(sql[j..])
    ensures OperatorLength(sql[j..]) == 1 + OperatorLength(sql[j + 1..])
  {
    DropDrop(sql, j, 1);
  }

  lemma OperatorEnds(sql: Text, j: nat)
    requires j <= |sql|
    requires j < |sql| && sql[j] in OPERATORS ==> OpensLineComment(sql[j..]) || OpensComment(sql[j..])
    ensures OperatorLength(sql[j..]) == 0
  {
  }

  /** One turn of the main loop: what is taken at the index. */
  method Take(a: Alphabet, sql: Text, i: nat) returns (step: Step)
    requires i < |sql|
    ensures step == Next(a, sql[i..])
  {
    ghost var s := sql[i..];
    var c := sql[i];
    if c == NEWLINE {
      return Skip(1, 1);
    }
    if Blank(c) {
      return Skip(1, 0);
    }
    if c == DASH && At(sql, i + 1, DASH) {
      var j := EndOfLine(sql, i);
      return Skip(j - i, 0);
    }
    if c == SLASH && At(sql, i + 1, STAR) {
      var end, lines := EndOfComment(sql, i);
      if end.None? {
        return Unclosed(OpenComment);
      }
      assert s[..end.value - i] == sql[i..end.value];
      return Skip(end.value - i, lines);
    }
    if Exponential(c) && At(sql, i + 1, QUOTE) {
      var read := ReadEscaped(sql, i + 2);
      DropDrop(sql, i, 2);
      step := TokenOf(StringText, 2, read, OpenString, sql, i);
      return;
    }
    if c == QUOTE {
      var read := ReadQuoted(sql, i + 1, QUOTE);
      DropDrop(sql, i, 1);
      step := TokenOf(StringText, 1, read, OpenString, sql, i);
      return;
    }
    if c == DOUBLE_QUOTE {
      var read := ReadQuoted(sql, i + 1, DOUBLE_QUOTE);
      DropDrop(sql, i, 1);
      step := TokenOf(QuotedName, 1, read, OpenName, sql, i);
      return;
    }
    step := TakePlain(a, sql, i);
  }

  method TokenOf(kind: Kind, open: nat, read: Option<Scanned>, what: Open, sql: Text, i: nat) returns (step: Step)
    requires i <= |sql| && (read.Some? ==> open + read.value.length <= |sql| - i)
    ensures step == StringStep(kind, open, read, what, sql[i..])
  {
    if read.None? {
      return Unclosed(what);
    }
    var length := open + read.value.length;
    var lines := CountLines(sql, i, i + length);
    assert sql[i..][..length] == sql[i..i + length];
    return Emit(kind, read.value.value, length, lines);
  }

  /** A dollar-quoted body, up to the next occurrence of its tag. */
  method TakeBody(sql: Text, i: nat, tag: nat) returns (step: Step)
    requires i < |sql| && 0 < tag <= |sql| - i
    ensures step == BodyStep(tag, sql[i..])
  {
    var s := sql[i..];
    var end := IndexOf(s[tag..], s[..tag]);
    if end.None? {
      return Unclosed(OpenBody);
    }
    var length := tag + end.value + tag;
    var lines := CountLines(sql, i, i + length);
    assert s[..length] == sql[i..i + length];
    return Emit(StringText, s[tag..][..end.value], length, lines);
  }

  method TakePlain(a: Alphabet, sql: Text, i: nat) returns (step: Step)
    requires i < |sql|
    ensures step == NextPlain(a, sql[i..])
  {
    var c, s := sql[i], sql[i..];
    DropDrop(sql, i, 1);
    if c == DOLLAR {
      var tag := TagLength(Window(s, 64));
      if tag > 0 {
        step := TakeBody(sql, i, tag);
        return;
      }
      var parameter := ParameterLength(Window(s, 12));
      if parameter > 0 {
        return Emit(Word, s[..parameter], parameter, 0);
      }
    }
    if WordStart(a, c) {
      var j := EndOfWord(a, sql, i + 1);
      return Emit(Word, a.lower(s[..j - i]), j - i, 0);
    }
    if Digit(c) || (c == DOT && i + 1 < |sql| && Digit(sql[i + 1])) {
      var n := NumberLength(Window(s, 64));
      return Emit(Number, s[..n], n, 0);
    }
    if c in PUNCTUATION {
      return Emit(Punct, s[..1], 1, 0);
    }
    if c in OPERATORS {
      var j := EndOfOperator(sql, i + 1);
      return Emit(Op, s[..j - i], j - i, 0);
    }
    return Emit(Op, s[..1], 1, 0);
  }

  method Tokenize(a: Alphabet, sql: Text) returns (r: Result<seq<Token>, Fault>)
    ensures r == Tokens(a, sql, 1)
  {
    hide Next;
    var tokens, i, line := [], 0, 1;
    assert sql[0..] == sql;
    NothingJoined(Tokens(a, sql, 1));
    while i < |sql|
      invariant i <= |sql| && line >= 0
      invariant Joined(tokens, Tokens(a, sql[i..], line)) == Tokens(a, sql, 1)
    {
      var step := Take(a, sql, i);
      if step.Unclosed? {
        return Err(Fault(step.what, line));
      }
      DropDrop(sql, i, step.length);
      if step.Emit? {
        var token := Token(step.kind, step.value, sql[i..i + step.length], line);
        assert sql[i..][..step.length] == token.text;
        JoinedTwice(tokens, [token], Tokens(a, sql[i + step.length..], line + step.lines));
        tokens := tokens + [token];
      }
      i, line := i + step.length, line + step.lines;
    }
    assert tokens + [] == tokens;
    return Ok(tokens);
  }

  lemma NothingJoined(rest: Result<seq<Token>, Fault>)
    ensures Joined([], rest) == rest
  {
    if rest.Ok? {
      assert [] + rest.value == rest.value;
    }
  }

  lemma JoinedTwice(a: seq<Token>, b: seq<Token>, rest: Result<seq<Token>, Fault>)
    ensures Joined(a, Joined(b, rest)) == Joined(a + b, rest)
  {
    if rest.Ok? {
      assert a + (b + rest.value) == a + b + rest.value;
    }
  }
}
