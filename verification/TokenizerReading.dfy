/**
 The layout decides the tokens: whatever text is laid out as tokens, each of its form and not cut short, with gaps
 of blanks and complete comments between them, is read as exactly these tokens; and where a text is not read at
 all, something opens in it that is never closed.
 */
module TokenizerReading {
  import opened Options
  import opened Texts
  import opened Tokenizer
  import opened TokenizerLayout

  // ------------------------------------------------------------------ gaps are skipped

  predicate LineEnds(rest: Text) {
    rest == [] || rest[0] == NEWLINE
  }

  lemma {:induction false} LineIsRead(body: Text, rest: Text)
    requires NEWLINE !in body && LineEnds(rest)
    ensures LineLength(body + rest) == |body|
  {
    if body != [] {
      assert (body + rest)[1..] == body[1..] + rest && body == [body[0]] + body[1..];
      LineIsRead(body[1..], rest);
    } else {
      assert body + rest == rest;
    }
  }

  lemma LevelFirst(marks: seq<Mark>, depth: int)
    requires Balanced(marks, depth) && Greedy(marks)
    ensures |marks| == 1 ==> depth + MarkLevel(marks[0]) == 0
    ensures |marks| > 1 ==>
              && depth + MarkLevel(marks[0]) > 0 && Greedy(marks[1..])
              && Balanced(marks[1..], depth + MarkLevel(marks[0]))
  {
    if |marks| == 1 {
      assert marks[1..] == [];
    } else {
      assert marks[..1][1..] == [];
      assert depth + Level(marks[..1]) > 0;
      forall k | 0 < k < |marks[1..]| ensures depth + MarkLevel(marks[0]) + Level(marks[1..][..k]) > 0 {
        assert marks[..k + 1][1..] == marks[1..][..k];
        assert depth + Level(marks[..k + 1]) > 0;
      }
      assert forall k :: 0 <= k < |marks[1..]| - 1 ==> marks[1..][k] == marks[k + 1];
    }
  }

  lemma MarkAtFront(m: Mark, tail: Text)
    requires m.Plain? ==> tail != [] && (m.u == SLASH ==> tail[0] != STAR) && (m.u == STAR ==> tail[0] != SLASH)
    ensures var s := MarkText(m) + tail; s != [] && FirstMark(s) == m && s[|MarkText(m)|..] == tail
  {
    var s := MarkText(m) + tail;
    assert m.Plain? ==> s[0] == m.u && s[1] == tail[0];
  }

  /** The first mark of a comment is the one at the front of its text. */
  lemma FirstMarkIs(marks: seq<Mark>, rest: Text)
    requires Greedy(marks) && marks != [] && (|marks| == 1 ==> !marks[0].Plain?)
    ensures var s := MarksText(marks) + rest;
            && s != [] && FirstMark(s) == marks[0]
            && s[|MarkText(marks[0])|..] == MarksText(marks[1..]) + rest
  {
    var tail := MarksText(marks[1..]) + rest;
    assert MarksText(marks) + rest == MarkText(marks[0]) + tail;
    if marks[0].Plain? {
      FirstUnit(marks[1..]);
      assert tail[0] == MarkText(marks[1])[0];
    }
    hide MarksText;
    hide FirstMark;
    MarkAtFront(marks[0], tail);
  }

  lemma {:induction false} CommentIsRead(marks: seq<Mark>, rest: Text, depth: nat)
    requires Balanced(marks, depth) && Greedy(marks) && (depth == 0 ==> marks[0] == Opening)
    ensures CommentLength(MarksText(marks) + rest, depth) == Some(|MarksText(marks)|)
    decreases |marks|
  {
    var s, m := MarksText(marks) + rest, marks[0];
    LevelFirst(marks, depth);
    FirstMarkIs(marks, rest);
    if |marks| == 1 {
      assert m == Closing && depth == 1;
      assert MarksText(marks[1..]) == [];
    } else {
      CommentIsRead(marks[1..], rest, depth + MarkLevel(m));
      assert m == Closing ==> depth > 1;
    }
  }

  /** A piece of trivia is skipped whole, its lines counted. */
  lemma TriviaIsSkipped(a: Alphabet, t: Trivia, rest: Text)
    requires ValidTrivia(t) && (t.LineComment? ==> LineEnds(rest))
    ensures TriviaText(t) != []
    ensures Next(a, TriviaText(t) + rest) == Skip(|TriviaText(t)|, Newlines(TriviaText(t)))
  {
    var s := TriviaText(t) + rest;
    match t
    case BlankUnit(u) => assert Newlines([u]) == (if u == NEWLINE then 1 else 0) + Newlines([]);
    case LineComment(body) =>
      assert s[2..] == body + rest;
      LineIsRead(body, rest);
      assert s[1..][1..] == s[2..] && LineLength(s) == 2 + LineLength(s[2..]);
      NoNewlines(TriviaText(t));
    case BlockComment(marks) =>
      CommentIsRead(marks, rest, 0);
      assert s[..|MarksText(marks)|] == MarksText(marks);
      assert s[0] == SLASH && s[1] == STAR by {
        assert MarksText(marks) == MarkText(marks[0]) + MarksText(marks[1..]);
      }
  }

  lemma GapFirst(g: Gap, last: bool, rest: Text)
    requires g != [] && ValidGap(g, last) && (last ==> rest == [])
    ensures ValidTrivia(g[0]) && ValidGap(g[1..], last)
    ensures g[0].LineComment? ==> LineEnds(GapText(g[1..]) + rest)
    ensures GapText(g) == TriviaText(g[0]) + GapText(g[1..])
  {
    assert ValidAt(g, 0, last);
    forall k | 0 <= k < |g[1..]| ensures ValidAt(g[1..], k, last) {
      assert ValidAt(g, k + 1, last);
    }
    if |g| > 1 && g[0].LineComment? {
      assert g[1..][0] == BlankUnit(NEWLINE);
      assert GapText(g[1..])[0] == NEWLINE;
    }
  }

  lemma SkipStep(a: Alphabet, t: Text, rest: Text, lines: nat, line: nat)
    requires t != [] && Next(a, t + rest) == Skip(|t|, lines)
    ensures Tokens(a, t + rest, line) == Tokens(a, rest, line + lines)
  {
    hide Next;
    assert (t + rest)[|t|..] == rest;
  }

  /** The first piece of a gap is skipped. */
  lemma GapStep(a: Alphabet, g: Gap, last: bool, rest: Text, line: nat)
    requires g != [] && ValidGap(g, last) && (last ==> rest == [])
    ensures ValidGap(g[1..], last)
    ensures Newlines(GapText(g)) == Newlines(TriviaText(g[0])) + Newlines(GapText(g[1..]))
    ensures Tokens(a, GapText(g) + rest, line)
         == Tokens(a, GapText(g[1..]) + rest, line + Newlines(TriviaText(g[0])))
  {
    hide *;
    var t, more := TriviaText(g[0]), GapText(g[1..]);
    GapFirst(g, last, rest);
    Associate(t, more, rest);
    TriviaIsSkipped(a, g[0], more + rest);
    SkipStep(a, t, more + rest, Newlines(t), line);
    NewlinesAdd(t, more);
  }

  /** A gap is skipped, whatever comes after it, its lines counted. */
  lemma {:induction false} GapIsSkipped(a: Alphabet, g: Gap, last: bool, rest: Text, line: nat)
    requires ValidGap(g, last) && (last ==> rest == [])
    ensures Tokens(a, GapText(g) + rest, line) == Tokens(a, rest, line + Newlines(GapText(g)))
    decreases |g|
  {
    hide *;
    if g == [] {
      NoGap(rest);
    } else {
      GapStep(a, g, last, rest, line);
      GapIsSkipped(a, g[1..], last, rest, line + Newlines(TriviaText(g[0])));
    }
  }

  lemma NoGap(rest: Text)
    ensures GapText([]) + rest == rest && Newlines(GapText([])) == 0
  {
  }

  lemma Associate(a: Text, b: Text, c: Text)
    ensures (a + b) + c == a + (b + c)
  {
  }

  // ------------------------------------------------------------------ tokens are read

  /** What is taken from the front of the text is this token. */
  predicate Takes(a: Alphabet, kind: Kind, value: Text, text: Text, rest: Text)
    requires text != []
  {
    Next(a, text + rest) == Emit(kind, value, |text|, Newlines(text))
  }

  lemma {:induction false} QuotedIsRead(value: Text, quote: Unit, rest: Text)
    requires !At(rest, 0, quote)
    ensures Quoted(Doubled(value, quote) + [quote] + rest, quote) == Some(Scanned(value, |Doubled(value, quote)| + 1))
  {
    var s := Doubled(value, quote) + [quote] + rest;
    if value == [] {
      assert s == [quote] + rest;
    } else {
      var n := if value[0] == quote then 2 else 1;
      QuotedIsRead(value[1..], quote, rest);
      assert s[n..] == Doubled(value[1..], quote) + [quote] + rest;
      assert value == [value[0]] + value[1..];
      assert s[0] == value[0] && (n == 2 ==> s[1] == quote);
    }
  }

  lemma {:induction false} PiecesAreRead(pieces: seq<Piece>, rest: Text)
    requires (forall k :: 0 <= k < |pieces| ==> ValidPiece(pieces[k])) && !At(rest, 0, QUOTE)
    ensures Escaped(PiecesText(pieces) + [QUOTE] + rest) == Some(Scanned(PiecesValue(pieces), |PiecesText(pieces)| + 1))
  {
    var s := PiecesText(pieces) + [QUOTE] + rest;
    if pieces == [] {
      assert s == [QUOTE] + rest;
    } else {
      var p := pieces[0];
      var n := if p.AsIs? then 1 else 2;
      PiecesAreRead(pieces[1..], rest);
      assert s[n..] == PiecesText(pieces[1..]) + [QUOTE] + rest;
      assert p.Backslashed? ==> s[0] == BACKSLASH && s[1] == p.u;
      assert p.TwoQuotes? ==> s[0] == QUOTE && s[1] == QUOTE;
      assert p.AsIs? ==> s[0] == p.u;
    }
  }

  lemma NameIsTaken(a: Alphabet, value: Text, text: Text, rest: Text)
    requires QuotedForm(value, text, DOUBLE_QUOTE) && !At(rest, 0, DOUBLE_QUOTE)
    ensures text != [] && Takes(a, QuotedName, value, text, rest)
  {
    var s := text + rest;
    QuotedIsRead(value, DOUBLE_QUOTE, rest);
    assert s[1..] == Doubled(value, DOUBLE_QUOTE) + [DOUBLE_QUOTE] + rest;
    assert s[..|text|] == text;
  }

  lemma StringIsTaken(a: Alphabet, value: Text, text: Text, rest: Text)
    requires QuotedForm(value, text, QUOTE) && !At(rest, 0, QUOTE)
    ensures text != [] && Takes(a, StringText, value, text, rest)
  {
    var s := text + rest;
    QuotedIsRead(value, QUOTE, rest);
    assert s[1..] == Doubled(value, QUOTE) + [QUOTE] + rest;
    assert s[..|text|] == text;
  }

  lemma EscapeIsTaken(a: Alphabet, value: Text, text: Text, rest: Text)
    requires EscapeForm(value, text) && !At(rest, 0, QUOTE)
    ensures text != [] && Takes(a, StringText, value, text, rest)
  {
    var e: Unit, pieces: seq<Piece> :|
      && Exponential(e) && (forall k :: 0 <= k < |pieces| ==> ValidPiece(pieces[k]))
      && text == [e, QUOTE] + PiecesText(pieces) + [QUOTE] && value == PiecesValue(pieces);
    var s := text + rest;
    PiecesAreRead(pieces, rest);
    PiecesStart(e, pieces, rest);
    EscapeIsNext(a, s);
    hide *;
    assert s[..|text|] == text;
    TakesString(a, 2, OpenString, value, text, rest);
  }

  lemma PiecesStart(e: Unit, pieces: seq<Piece>, rest: Text)
    ensures var s := [e, QUOTE] + PiecesText(pieces) + [QUOTE] + rest;
            s[0] == e && s[1] == QUOTE && s[2..] == PiecesText(pieces) + [QUOTE] + rest
  {
  }

  lemma EscapeIsNext(a: Alphabet, s: Text)
    requires |s| > 1 && Exponential(s[0]) && s[1] == QUOTE
    ensures Next(a, s) == StringStep(StringText, 2, Escaped(s[2..]), OpenString, s)
  {
    hide Escaped;
    hide StringStep;
    hide NextPlain;
  }

  lemma TakesString(a: Alphabet, open: nat, what: Open, value: Text, text: Text, rest: Text)
    requires text != [] && (text + rest)[..|text|] == text && open <= |text|
    requires Escaped((text + rest)[open..]) == Some(Scanned(value, |text| - open))
    requires Next(a, text + rest) == StringStep(StringText, open, Escaped((text + rest)[open..]), what, text + rest)
    ensures Takes(a, StringText, value, text, rest)
  {
    hide Next;
    hide Escaped;
    hide Newlines;
  }

  lemma {:induction false} IndexIsRead(s: Text, t: Text, n: nat)
    requires n <= |s| && StartsWith(s[n..], t) && forall k :: 0 <= k < n ==> !StartsWith(s[k..], t)
    ensures IndexOf(s, t) == Some(n)
    decreases n
  {
    if n == 0 {
      assert s[0..] == s;
    } else {
      assert s[0..] == s;
      assert s[1..][n - 1..] == s[n..];
      forall k | 0 <= k < n - 1 ensures !StartsWith(s[1..][k..], t) {
        assert s[1..][k..] == s[k + 1..];
      }
      IndexIsRead(s[1..], t, n - 1);
    }
  }

  lemma BodyIsTaken(a: Alphabet, value: Text, text: Text, rest: Text)
    requires BodyForm(value, text)
    ensures text != [] && Takes(a, StringText, value, text, rest)
  {
    var tag: Text :| TagText(tag) && |tag| <= 64 && text == tag + value + tag
                     && forall k :: 0 <= k < |value| ==> !StartsWith((value + tag)[k..], tag);
    BodyOfTag(tag, value, rest);
    BodyIsNext(a, tag, value, rest);
  }

  lemma BodyIsNext(a: Alphabet, tag: Text, value: Text, rest: Text)
    requires TagText(tag) && |tag| <= 64
    ensures Next(a, tag + value + tag + rest) == BodyStep(|tag|, tag + value + tag + rest)
  {
    var s := tag + value + tag + rest;
    assert s[..|tag|] == tag && s[0] == DOLLAR;
    TagInWindow(tag, s);
    hide BodyStep;
    hide TagLength;
    hide Window;
  }

  lemma TagInWindow(tag: Text, s: Text)
    requires TagText(tag) && |tag| <= 64 && |tag| <= |s| && s[..|tag|] == tag
    ensures TagLength(Window(s, 64)) == |tag|
  {
    var w := Window(s, 64);
    assert w[..|tag|] == tag;
    TagIsRead(w, |tag|);
  }

  lemma BodyOfTag(tag: Text, value: Text, rest: Text)
    requires tag != [] && forall k :: 0 <= k < |value| ==> !StartsWith((value + tag)[k..], tag)
    ensures var text := tag + value + tag;
            BodyStep(|tag|, text + rest) == Emit(StringText, value, |text|, Newlines(text))
  {
    var text := tag + value + tag;
    var s := text + rest;
    var after := s[|tag|..];
    assert s[..|tag|] == tag && after == value + tag + rest && after[..|value|] == value && s[..|text|] == text;
    TagComesNext(tag, value, rest);
    hide IndexOf;
  }

  lemma TagComesNext(tag: Text, value: Text, rest: Text)
    requires forall k :: 0 <= k < |value| ==> !StartsWith((value + tag)[k..], tag)
    ensures IndexOf(value + tag + rest, tag) == Some(|value|)
  {
    var after := value + tag + rest;
    assert after[|value|..] == tag + rest && (tag + rest)[..|tag|] == tag;
    forall k | 0 <= k < |value| ensures !StartsWith(after[k..], tag) {
      assert after[k..][..|tag|] == (value + tag)[k..][..|tag|];
    }
    IndexIsRead(after, tag, |value|);
  }

  lemma WordIsTaken(a: Alphabet, text: Text, rest: Text)
    requires WordForm(a, text) && (rest != [] ==> !WordPart(a, rest[0]))
    requires !(|text| == 1 && Exponential(text[0]) && At(rest, 0, QUOTE))
    ensures Takes(a, Word, a.lower(text), text, rest)
  {
    var s := text + rest;
    assert s[0] == text[0] && (|text| > 1 ==> s[1] == text[1]) && (|text| == 1 && rest != [] ==> s[1] == rest[0]);
    assert s[..|text|] == text && s[1..] == text[1..] + rest;
    RunOf(s[1..], PartOf(a), |text| - 1);
    forall k | 0 <= k < |text| ensures text[k] != NEWLINE {
      assert WordPart(a, text[k]);
    }
    NoNewlines(text);
  }

  lemma NoTag(s: Text)
    requires s != [] && s[0] != DOLLAR
    ensures TagLength(Window(s, 64)) == 0 && ParameterLength(Window(s, 12)) == 0
  {
  }

  lemma ParameterIsRead(text: Text, rest: Text)
    requires ParameterForm(text) && |text| <= 12 && (|text| < 12 && rest != [] ==> !Digit(rest[0]))
    ensures ParameterLength(Window(text + rest, 12)) == |text|
  {
    var s, w := text + rest, Window(text + rest, 12);
    assert forall k :: 0 < k < |text| ==> text[k] == text[1..][k - 1];
    assert forall k :: 0 <= k < |w| ==> w[k] == s[k];
    RunOf(w[1..], Digit, |text| - 1);
  }

  lemma ParameterIsTaken(a: Alphabet, text: Text, rest: Text)
    requires ParameterForm(text) && |text| <= 12 && (|text| < 12 && rest != [] ==> !Digit(rest[0]))
    ensures Takes(a, Word, text, text, rest)
  {
    ParameterIsRead(text, rest);
    NoNewlines(text);
    assert (text + rest)[..|text|] == text;
    hide ParameterLength;
  }

  lemma NumberFrontOf(text: Text)
    requires NumberForm(text)
    ensures NumberFront(text)
  {
    var whole: Text, fraction: Text, exponent: Text :|
      NumberParts(whole, fraction, exponent) && text == whole + fraction + exponent;
    if whole == [] {
      assert text[0] == fraction[0] && text[1] == fraction[1] && fraction[1] == fraction[1..][0];
    } else {
      assert text[0] == whole[0];
    }
  }

  /** The number read within the window is the one that cannot go on. */
  lemma NumberIsRead(a: Alphabet, text: Text, rest: Text)
    requires NumberForm(text) && |text| <= 64 && Whole(a, Number, text, rest)
    ensures NumberFront(text + rest) && NumberLength(Window(text + rest, 64)) == |text|
  {
    var s, w := text + rest, Window(text + rest, 64);
    NumberFrontOf(text);
    assert s[0] == text[0] && (|text| > 1 ==> s[1] == text[1]) && w[0] == s[0] && (|w| > 1 ==> w[1] == s[1]);
    var n := NumberLength(w);
    assert w[..|text|] == text;
    if n < |text| {
      NumberIsLongest(w, |text|);
    }
    NumberIsForm(w);
    assert n >= |text| ==> w[..n] == text + rest[..n - |text|];
  }

  lemma NumberIsTaken(a: Alphabet, text: Text, rest: Text)
    requires NumberForm(text) && |text| <= 64 && Whole(a, Number, text, rest)
    ensures text != [] && Takes(a, Number, text, text, rest)
  {
    var s := text + rest;
    NumberIsRead(a, text, rest);
    NumberHasNoNewline(text);
    NoNewlines(text);
    NoTag(s);
    assert s[..|text|] == text;
    hide NumberLength;
    hide NumberForm;
    hide TagLength;
    hide ParameterLength;
    hide Window;
  }

  lemma PunctIsTaken(a: Alphabet, text: Text, rest: Text)
    requires |text| == 1 && text[0] in PUNCTUATION && (text[0] == DOT && rest != [] ==> !Digit(rest[0]))
    ensures Takes(a, Punct, text, text, rest)
  {
    var s := text + rest;
    NoTag(s);
    NoNewlines(text);
    assert s[..1] == text && s[0] == text[0] && (rest != [] ==> s[1] == rest[0]);
  }

  lemma {:induction false} OperatorIsRead(s: Text, n: nat)
    requires n <= |s| && (forall k :: 0 <= k < n ==> s[k] in OPERATORS && !CommentAt(s[k..]))
    requires s[n..] == [] || s[n] !in OPERATORS || CommentAt(s[n..])
    ensures OperatorLength(s) == n
  {
    assert s[0..] == s;
    if n > 0 {
      assert s[1..][n - 1..] == s[n..];
      forall k | 0 <= k < n - 1 ensures s[1..][k] in OPERATORS && !CommentAt(s[1..][k..]) {
        assert s[1..][k..] == s[k + 1..];
      }
      OperatorIsRead(s[1..], n - 1);
    }
  }

  lemma OperatorIsTaken(a: Alphabet, text: Text, rest: Text)
    requires text != [] && (forall k :: 0 <= k < |text| ==> text[k] in OPERATORS) && Whole(a, Op, text, rest)
    ensures Takes(a, Op, text, text, rest)
  {
    OperatorTail(a, text, rest);
    NoOperatorBreaks(text);
    NoNewlines(text);
    OperatorIsNext(a, text + rest);
    hide *;
    assert (text + rest)[..|text|] == text;
    TakesPlain(a, Op, text, rest);
  }

  lemma NoOperatorBreaks(text: Text)
    requires forall k :: 0 <= k < |text| ==> text[k] in OPERATORS
    ensures NEWLINE !in text
  {
  }

  lemma TakesPlain(a: Alphabet, kind: Kind, text: Text, rest: Text)
    requires text != [] && (text + rest)[..|text|] == text && Newlines(text) == 0
    requires Next(a, text + rest) == PlainStep(kind, |text|, text + rest)
    ensures Takes(a, kind, text, text, rest)
  {
    hide Next;
    hide Newlines;
  }

  lemma OperatorIsNext(a: Alphabet, s: Text)
    requires s != [] && s[0] in OPERATORS && !CommentAt(s)
    ensures Next(a, s) == PlainStep(Op, 1 + OperatorLength(s[1..]), s)
  {
    NoTag(s);
    OperatorUnit(a, s[0]);
    hide *;
    OperatorIsPlain(a, s);
    PlainIsNext(a, s);
  }

  lemma OperatorUnit(a: Alphabet, u: Unit)
    requires u in OPERATORS
    ensures !Blank(u) && u != QUOTE && u != DOUBLE_QUOTE && u != DOT && u != DOLLAR && !Exponential(u)
    ensures !WordStart(a, u) && !Digit(u) && u !in PUNCTUATION
  {
  }

  lemma PlainIsNext(a: Alphabet, s: Text)
    requires PlainFront(s)
    ensures Next(a, s) == NextPlain(a, s)
  {
    hide NextPlain;
  }

  lemma OperatorIsPlain(a: Alphabet, s: Text)
    requires s != [] && s[0] in OPERATORS && !CommentAt(s)
    ensures PlainFront(s) && NextPlain(a, s) == PlainStep(Op, 1 + OperatorLength(s[1..]), s)
  {
    NoTag(s);
    OperatorUnit(a, s[0]);
    hide CommentAt;
    hide TagLength;
    hide ParameterLength;
    hide Window;
    hide PlainStep;
    hide OperatorLength;
    hide WordStart;
    hide Blank;
  }

  lemma OperatorTail(a: Alphabet, text: Text, rest: Text)
    requires text != [] && (forall k :: 0 <= k < |text| ==> text[k] in OPERATORS) && Whole(a, Op, text, rest)
    ensures OperatorLength((text + rest)[1..]) == |text| - 1 && !CommentAt(text + rest)
  {
    hide CommentAt;
    var s, n := text + rest, |text| - 1;
    assert s[0..] == s && s[1..][n..] == rest && s[|text|..] == rest;
    forall k | 0 <= k < n ensures s[1..][k] in OPERATORS && !CommentAt(s[1..][k..]) {
      assert s[1..][k..] == s[k + 1..];
    }
    OperatorIsRead(s[1..], n);
  }

  lemma StrayIsTaken(a: Alphabet, text: Text, rest: Text)
    requires |text| == 1 && Stray(a, text[0]) && Whole(a, Op, text, rest)
    ensures Takes(a, Op, text, text, rest)
  {
    var s := text + rest;
    if text[0] == DOLLAR {
      if TagLength(Window(s, 64)) > 0 {
        TagIsAtFront(s);
      }
      assert rest != [] ==> s[1] == rest[0];
    } else {
      NoTag(s);
    }
    NoNewlines(text);
    assert s[..1] == text && s[0] == text[0];
    hide TagLength;
  }

  lemma TagIsAtFront(s: Text)
    requires TagLength(Window(s, 64)) > 0
    ensures TagAtFront(s)
  {
    var w := Window(s, 64);
    TagIsForm(w);
    assert w[..TagLength(w)] == s[..TagLength(w)];
  }

  /** A token of its form that is not cut short is what is taken from the front of the text. */
  lemma TokenIsTaken(a: Alphabet, kind: Kind, value: Text, text: Text, rest: Text)
    requires text != [] && Formed(a, kind, value, text) && Whole(a, kind, text, rest)
    ensures Takes(a, kind, value, text, rest)
  {
    match kind
    case Word =>
      if text[0] == DOLLAR {
        ParameterIsTaken(a, text, rest);
      } else {
        WordIsTaken(a, text, rest);
      }
    case QuotedName => NameIsTaken(a, value, text, rest);
    case StringText => StringTextIsTaken(a, value, text, rest);
    case Number => NumberIsTaken(a, text, rest);
    case Punct => PunctIsTaken(a, text, rest);
    case Op =>
      if text[0] in OPERATORS {
        OperatorIsTaken(a, text, rest);
      } else {
        StrayIsTaken(a, text, rest);
      }
  }

  lemma StringTextIsTaken(a: Alphabet, value: Text, text: Text, rest: Text)
    requires text != [] && Formed(a, StringText, value, text) && Whole(a, StringText, text, rest)
    ensures Takes(a, StringText, value, text, rest)
  {
    if QuotedForm(value, text, QUOTE) {
      StringIsTaken(a, value, text, rest);
    } else if EscapeForm(value, text) {
      EscapeIsTaken(a, value, text, rest);
    } else {
      BodyIsTaken(a, value, text, rest);
    }
  }

  // ------------------------------------------------------------------ the whole text

  /** One token, then what is read of the rest. */
  lemma TokenStep(a: Alphabet, t: Token, rest: Text, more: seq<Token>)
    requires t.text != [] && Takes(a, t.kind, t.value, t.text, rest)
    requires Tokens(a, rest, t.line + Newlines(t.text)) == Ok(more)
    ensures Tokens(a, t.text + rest, t.line) == Ok([t] + more)
  {
    hide Next;
    assert (t.text + rest)[..|t.text|] == t.text && (t.text + rest)[|t.text|..] == rest;
  }

  /** A text laid out as these tokens is read as them. */
  lemma {:induction false} LayoutIsRead(a: Alphabet, s: Text, line: nat, tokens: seq<Token>, gaps: seq<Gap>)
    requires Laid(a, s, line, tokens, gaps)
    ensures Tokens(a, s, line) == Ok(tokens)
    decreases |tokens|
  {
    hide *;
    LaidShape(a, s, line, tokens, gaps);
    if tokens == [] {
      AllGap(a, s, line, gaps[0]);
    } else {
      var t, rest := tokens[0], AfterFirst(s, tokens, gaps);
      LaidFirst(a, s, line, tokens, gaps);
      LayoutIsRead(a, rest, t.line + Newlines(t.text), tokens[1..], gaps[1..]);
      TokenIsTaken(a, t.kind, t.value, t.text, rest);
      TokenStep(a, t, rest, tokens[1..]);
      GapIsSkipped(a, gaps[0], false, t.text + rest, line);
      Associate(GapText(gaps[0]), t.text, rest);
      assert tokens == [t] + tokens[1..];
    }
  }

  lemma AllGap(a: Alphabet, s: Text, line: nat, g: Gap)
    requires ValidGap(g, true) && s == GapText(g)
    ensures Tokens(a, s, line) == Ok([])
  {
    assert s + [] == s;
    GapIsSkipped(a, g, true, [], line);
  }

  /**
   The tokens of a text are exactly its layouts: a text tokenizes when it can be laid out, and as nothing but what it
   is laid out as.
   */
  lemma TokensAreTheLayout(a: Alphabet, sql: Text, tokens: seq<Token>)
    ensures Tokens(a, sql, 1) == Ok(tokens) <==> exists gaps :: Laid(a, sql, 1, tokens, gaps)
  {
    hide *;
    if Tokens(a, sql, 1) == Ok(tokens) {
      var gaps := LayOut(a, sql, 1);
    }
    if gaps :| Laid(a, sql, 1, tokens, gaps) {
      LayoutIsRead(a, sql, 1, tokens, gaps);
    }
  }

  // ------------------------------------------------------------------ faults

  /** What opens here, by the mark at the front. */
  predicate OpensHere(what: Open, s: Text) {
    match what
    case OpenComment => OpensComment(s)
    case OpenString => At(s, 0, QUOTE) || (s != [] && Exponential(s[0]) && At(s, 1, QUOTE))
    case OpenName => At(s, 0, DOUBLE_QUOTE)
    case OpenBody => TagAtFront(s)
  }

  /** It is not closed in what follows: no complete comment, no quoted text, no second tag. */
  ghost predicate NeverCloses(what: Open, s: Text) {
    match what
    case OpenComment => forall n :: 0 <= n <= |s| ==> !IsComment(s[..n])
    case OpenString =>
      forall n :: 0 <= n <= |s| && !At(s[n..], 0, QUOTE) ==> !IsQuoted(s[..n], QUOTE) && !IsEscaped(s[..n])
    case OpenName => forall n :: 0 <= n <= |s| && !At(s[n..], 0, DOUBLE_QUOTE) ==> !IsQuoted(s[..n], DOUBLE_QUOTE)
    case OpenBody => forall n :: 0 <= n <= |s| ==> !IsBody(s[..n])
  }

  ghost predicate IsComment(t: Text) {
    exists marks :: CompleteComment(marks) && MarksText(marks) == t
  }

  ghost predicate IsQuoted(t: Text, quote: Unit) {
    exists value :: QuotedForm(value, t, quote)
  }

  ghost predicate IsEscaped(t: Text) {
    exists value :: EscapeForm(value, t)
  }

  ghost predicate IsBody(t: Text) {
    exists value :: BodyForm(value, t)
  }

  lemma NothingCloses(a: Alphabet, s: Text)
    requires s != [] && Next(a, s).Unclosed?
    ensures OpensHere(Next(a, s).what, s) && NeverCloses(Next(a, s).what, s)
  {
    var what := Next(a, s).what;
    OpeningMark(a, s);
    forall n | 0 <= n <= |s|
      ensures what == OpenComment ==> !IsComment(s[..n])
      ensures what == OpenString && !At(s[n..], 0, QUOTE) ==> !IsQuoted(s[..n], QUOTE) && !IsEscaped(s[..n])
      ensures what == OpenName && !At(s[n..], 0, DOUBLE_QUOTE) ==> !IsQuoted(s[..n], DOUBLE_QUOTE)
      ensures what == OpenBody ==> !IsBody(s[..n])
    {
      ClosedIsTaken(a, s, n);
    }
  }

  lemma OpeningMark(a: Alphabet, s: Text)
    requires s != [] && Next(a, s).Unclosed?
    ensures OpensHere(Next(a, s).what, s)
  {
    if TagLength(Window(s, 64)) > 0 {
      TagIsAtFront(s);
    }
    hide TagAtFront;
    hide CommentLength;
    hide Quoted;
    hide Escaped;
    hide BodyStep;
  }

  /** Where something is closed, it is taken. */
  lemma ClosedIsTaken(a: Alphabet, s: Text, n: nat)
    requires s != [] && n <= |s|
    ensures IsComment(s[..n]) ==> Next(a, s).Skip?
    ensures IsQuoted(s[..n], QUOTE) && !At(s[n..], 0, QUOTE) ==> Next(a, s).Emit?
    ensures IsQuoted(s[..n], DOUBLE_QUOTE) && !At(s[n..], 0, DOUBLE_QUOTE) ==> Next(a, s).Emit?
    ensures IsEscaped(s[..n]) && !At(s[n..], 0, QUOTE) ==> Next(a, s).Emit?
    ensures IsBody(s[..n]) ==> Next(a, s).Emit?
  {
    hide *;
    assert s[..n] + s[n..] == s;
    ClosedTextIsTaken(a, s[..n], s[n..]);
  }

  lemma ClosedTextIsTaken(a: Alphabet, text: Text, rest: Text)
    ensures IsComment(text) ==> Next(a, text + rest).Skip?
    ensures IsQuoted(text, QUOTE) && !At(rest, 0, QUOTE) ==> Next(a, text + rest).Emit?
    ensures IsQuoted(text, DOUBLE_QUOTE) && !At(rest, 0, DOUBLE_QUOTE) ==> Next(a, text + rest).Emit?
    ensures IsEscaped(text) && !At(rest, 0, QUOTE) ==> Next(a, text + rest).Emit?
    ensures IsBody(text) ==> Next(a, text + rest).Emit?
  {
    hide Next;
    if marks :| CompleteComment(marks) && MarksText(marks) == text {
      TriviaIsSkipped(a, BlockComment(marks), rest);
    }
    if value :| QuotedForm(value, text, QUOTE) && !At(rest, 0, QUOTE) {
      StringIsTaken(a, value, text, rest);
    }
    if value :| QuotedForm(value, text, DOUBLE_QUOTE) && !At(rest, 0, DOUBLE_QUOTE) {
      NameIsTaken(a, value, text, rest);
    }
    if value :| EscapeForm(value, text) && !At(rest, 0, QUOTE) {
      EscapeIsTaken(a, value, text, rest);
    }
    if value :| BodyForm(value, text) {
      BodyIsTaken(a, value, text, rest);
    }
  }

  /**
   The fault of a text that does not tokenize is there: on the line it names, after a front of the text that was
   read, something opens that nothing closes.
   */
  lemma {:induction false} FaultIsThere(a: Alphabet, s: Text, line: nat) returns (k: nat)
    requires Tokens(a, s, line).Err?
    ensures var fault := Tokens(a, s, line).error;
            && k < |s| && fault.line == line + Newlines(s[..k])
            && OpensHere(fault.what, s[k..]) && NeverCloses(fault.what, s[k..])
    decreases |s|
  {
    hide *;
    FaultStep(a, s, line);
    StepIsReal(a, s);
    var step := Next(a, s);
    if step.Unclosed? {
      k := 0;
      NothingCloses(a, s);
    } else {
      var later := FaultIsThere(a, s[step.length..], line + step.lines);
      k := step.length + later;
      PlaceMoves(s, step.length, later);
    }
  }

  lemma StepIsReal(a: Alphabet, s: Text)
    requires s != []
    ensures s[0..] == s && Newlines(s[..0]) == 0
    ensures var step := Next(a, s);
            step.Unclosed? || (0 < step.length <= |s| && step.lines == Newlines(s[..step.length]))
  {
    var step := Next(a, s);
    if step.Skip? {
      var t := SkipIsTrivia(a, s);
    } else if step.Emit? {
      EmitIsFormed(a, s);
    }
    hide Next;
    hide Formed;
    hide Whole;
  }

  lemma FaultStep(a: Alphabet, s: Text, line: nat)
    requires Tokens(a, s, line).Err?
    ensures s != []
    ensures var step := Next(a, s);
            if step.Unclosed? then Tokens(a, s, line).error == Fault(step.what, line)
            else step.length <= |s| && Tokens(a, s[step.length..], line + step.lines) == Tokens(a, s, line)
  {
    hide Next;
    hide Newlines;
  }

  lemma PlaceMoves(s: Text, n: nat, later: nat)
    requires n + later <= |s|
    ensures Newlines(s[..n + later]) == Newlines(s[..n]) + Newlines(s[n..][..later])
    ensures s[n + later..] == s[n..][later..]
  {
    Joins(s, n, later);
    NewlinesAdd(s[..n], s[n..][..later]);
  }

  // ------------------------------------------------------------------ signs

  /** The signs of the language, spelled out. */
  lemma SignsSpelled(a: Alphabet, u: Unit)
    ensures PUNCTUATION == Ascii("(),;.[]") && OPERATORS == Ascii("+-*/<>=~!@#%^&|`?:")
    ensures [QUOTE, DOUBLE_QUOTE, BACKSLASH, DASH, SLASH, STAR, DOLLAR, DOT] == Ascii("'\"\\-/*$.")
    ensures Exponential(u) <==> [u] == Ascii("e") || [u] == Ascii("E")
    ensures WordStart(a, u) <==> Letter(u) || [u] == Ascii("_") || (u >= 128 && a.letters(u))
    ensures WordPart(a, u) <==>
              Letter(u) || Digit(u) || [u] == Ascii("_") || [u] == Ascii("$")
                || (u >= 128 && (a.letters(u) || a.numerals(u)))
    ensures TagStart(u) <==> Letter(u) || [u] == Ascii("_")
    ensures TagPart(u) <==> Letter(u) || [u] == Ascii("_") || Digit(u)
  {
    assert Ascii("(),;.[]") == [40, 41, 44, 59, 46, 91, 93];
    assert Ascii("+-*/<>=~!@#%^&|`?:") == [43, 45, 42, 47, 60, 62, 61, 126, 33, 64, 35, 37, 94, 38, 124, 96, 63, 58];
    assert Ascii("'\"\\-/*$.") == [39, 34, 92, 45, 47, 42, 36, 46];
    assert Ascii("e") == [101] && Ascii("E") == [69] && Ascii("_") == [95] && Ascii("$") == [36];
    assert forall v: Unit :: [u] == [v] <==> u == v;
  }
}
