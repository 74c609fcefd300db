/**
 Tokenizing loses nothing: a text that tokenizes is its token texts, each of the form of its kind and on its
 line, with nothing but blanks and complete comments around them.
 */
module TokenizerLayout {
  import opened Options
  import opened Texts
  import opened Tokenizer

  // ------------------------------------------------------------------ comments

  /** A block comment as marks read from left to right. */
  datatype Mark = Opening | Closing | Plain(u: Unit)

  function MarkText(m: Mark): (t: Text)
    ensures t != []
  {
    match m
    case Opening => [SLASH, STAR]
    case Closing => [STAR, SLASH]
    case Plain(u) => [u]
  }

  function MarksText(marks: seq<Mark>): Text {
    if marks == [] then [] else MarkText(marks[0]) + MarksText(marks[1..])
  }

  function MarkLevel(m: Mark): int {
    match m
    case Opening => 1
    case Closing => -1
    case Plain(_) => 0
  }

  /** Openings less closings. */
  function Level(marks: seq<Mark>): int {
    if marks == [] then 0 else MarkLevel(marks[0]) + Level(marks[1..])
  }

  /** No opening or closing is read as two plain units, nor across a mark and the next. */
  predicate Greedy(marks: seq<Mark>) {
    forall k :: 0 <= k < |marks| - 1 && marks[k].Plain? ==>
      && (marks[k].u == SLASH ==> MarkText(marks[k + 1])[0] != STAR)
      && (marks[k].u == STAR ==> MarkText(marks[k + 1])[0] != SLASH)
  }

  /** Openings and closings balance at the end and not before. */
  predicate Balanced(marks: seq<Mark>, depth: int) {
    marks != [] && depth + Level(marks) == 0 && forall k :: 0 < k < |marks| ==> depth + Level(marks[..k]) > 0
  }

  predicate CompleteComment(marks: seq<Mark>) {
    marks != [] && marks[0] == Opening && Greedy(marks) && Balanced(marks, 0)
  }

  lemma PrependMark(m: Mark, rest: seq<Mark>, depth: int)
    requires Balanced(rest, depth + MarkLevel(m)) && depth + MarkLevel(m) > 0
    ensures Balanced([m] + rest, depth)
  {
    var marks := [m] + rest;
    assert marks[1..] == rest;
    forall k | 0 < k < |marks| ensures depth + Level(marks[..k]) > 0 {
      assert marks[..k][1..] == rest[..k - 1];
    }
  }

  function FirstMark(s: Text): Mark
    requires s != []
  {
    if OpensComment(s) then Opening else if ClosesComment(s) then Closing else Plain(s[0])
  }

  lemma FirstMarkReads(s: Text, depth: int)
    requires s != [] && CommentLength(s, depth).Some? && !(ClosesComment(s) && depth == 1)
    ensures var m := FirstMark(s); var n := |MarkText(m)|;
            && n <= |s| && s[..n] == MarkText(m)
            && CommentLength(s, depth) == Longer(n, CommentLength(s[n..], depth + MarkLevel(m)))
  {
  }

  lemma GreedyFirst(s: Text, rest: seq<Mark>)
    requires s != [] && rest != [] && Greedy(rest)
    requires var n := |MarkText(FirstMark(s))|; n < |s| && MarkText(rest[0])[0] == s[n]
    ensures Greedy([FirstMark(s)] + rest)
  {
    var marks := [FirstMark(s)] + rest;
    assert forall k :: 0 < k < |marks| ==> marks[k] == rest[k - 1];
  }

  lemma {:induction false} CommentMarks(s: Text, depth: int) returns (marks: seq<Mark>)
    requires CommentLength(s, depth).Some? && depth >= 0 && (depth == 0 ==> OpensComment(s))
    ensures Balanced(marks, depth) && Greedy(marks) && MarksText(marks) == s[..CommentLength(s, depth).value]
    ensures OpensComment(s) ==> marks[0] == Opening
    decreases |s|
  {
    if ClosesComment(s) && depth == 1 {
      marks := [Closing];
      assert MarksText(marks[1..]) == [];
    } else {
      FirstMarkReads(s, depth);
      var m := FirstMark(s);
      var n := |MarkText(m)|;
      var rest := CommentMarks(s[n..], depth + MarkLevel(m));
      var more := CommentLength(s[n..], depth + MarkLevel(m)).value;
      hide CommentLength;
      hide Greedy;
      hide MarksText;
      marks := [m] + rest;
      PrependMark(m, rest, depth);
      PrependMarkText(s, m, rest, more);
      GreedyFirst(s, rest);
    }
  }

  lemma PrependMarkText(s: Text, m: Mark, rest: seq<Mark>, more: nat)
    requires |MarkText(m)| + more <= |s| && s[..|MarkText(m)|] == MarkText(m) && rest != []
    requires MarksText(rest) == s[|MarkText(m)|..][..more]
    ensures MarksText([m] + rest) == s[..|MarkText(m)| + more]
    ensures |MarkText(m)| < |s| && MarkText(rest[0])[0] == s[|MarkText(m)|]
  {
    var n := |MarkText(m)|;
    assert ([m] + rest)[1..] == rest;
    Joins(s, n, more);
    FirstUnit(rest);
    assert MarksText(rest)[0] == s[n..][..more][0];
  }

  lemma FirstUnit(marks: seq<Mark>)
    requires marks != []
    ensures MarksText(marks) != [] && MarksText(marks)[0] == MarkText(marks[0])[0]
  {
  }

  // ------------------------------------------------------------------ gaps

  datatype Trivia = BlankUnit(u: Unit) | LineComment(body: Text) | BlockComment(marks: seq<Mark>)

  function TriviaText(t: Trivia): Text {
    match t
    case BlankUnit(u) => [u]
    case LineComment(body) => [DASH, DASH] + body
    case BlockComment(marks) => MarksText(marks)
  }

  predicate ValidTrivia(t: Trivia) {
    match t
    case BlankUnit(u) => Blank(u)
    case LineComment(body) => NEWLINE !in body
    case BlockComment(marks) => CompleteComment(marks)
  }

  type Gap = seq<Trivia>

  function GapText(g: Gap): Text {
    if g == [] then [] else TriviaText(g[0]) + GapText(g[1..])
  }

  /** A line comment runs to a newline, or to the end of the text in the last gap. */
  predicate ValidAt(g: Gap, k: nat, last: bool)
    requires k < |g|
  {
    ValidTrivia(g[k]) && (g[k].LineComment? ==> if k + 1 < |g| then g[k + 1] == BlankUnit(NEWLINE) else last)
  }

  predicate ValidGap(g: Gap, last: bool) {
    forall k :: 0 <= k < |g| ==> ValidAt(g, k, last)
  }

  // ------------------------------------------------------------------ token forms

  function Doubled(value: Text, quote: Unit): Text {
    if value == [] then []
    else (if value[0] == quote then [quote, quote] else [value[0]]) + Doubled(value[1..], quote)
  }

  /** A unit of an escape string: as it is, after a backslash, or a doubled quote. */
  datatype Piece = AsIs(u: Unit) | Backslashed(u: Unit) | TwoQuotes

  predicate ValidPiece(p: Piece) {
    p.AsIs? ==> p.u != QUOTE && p.u != BACKSLASH
  }

  function PiecesText(pieces: seq<Piece>): Text {
    if pieces == [] then []
    else
      (match pieces[0] case AsIs(u) => [u] case Backslashed(u) => [BACKSLASH, u] case TwoQuotes => [QUOTE, QUOTE])
      + PiecesText(pieces[1..])
  }

  function PiecesValue(pieces: seq<Piece>): Text {
    if pieces == [] then [] else [if pieces[0].TwoQuotes? then QUOTE else pieces[0].u] + PiecesValue(pieces[1..])
  }

  ghost predicate EscapeForm(value: Text, text: Text) {
    exists e: Unit, pieces: seq<Piece> ::
      && Exponential(e) && (forall k :: 0 <= k < |pieces| ==> ValidPiece(pieces[k]))
      && text == [e, QUOTE] + PiecesText(pieces) + [QUOTE] && value == PiecesValue(pieces)
  }

  predicate QuotedForm(value: Text, text: Text, quote: Unit) {
    text == [quote] + Doubled(value, quote) + [quote]
  }

  predicate TagText(tag: Text) {
    |tag| >= 2 && tag[0] == DOLLAR && tag[|tag| - 1] == DOLLAR
    && (|tag| > 2 ==> TagStart(tag[1])) && forall k :: 0 < k < |tag| - 1 ==> TagPart(tag[k])
  }

  /** The body is between two occurrences of its tag, the second of which is the next one. */
  ghost predicate BodyForm(value: Text, text: Text) {
    exists tag: Text ::
      && TagText(tag) && |tag| <= 64 && text == tag + value + tag
      && forall k :: 0 <= k < |value| ==> !StartsWith((value + tag)[k..], tag)
  }

  predicate AllDigits(t: Text) {
    forall k :: 0 <= k < |t| ==> Digit(t[k])
  }

  predicate ExponentForm(t: Text) {
    t == [] || (|t| >= 2 && Exponential(t[0])
                && ((t[1] in [43, DASH] && |t| >= 3 && AllDigits(t[2..])) || AllDigits(t[1..])))
  }

  predicate NumberParts(whole: Text, fraction: Text, exponent: Text) {
    && AllDigits(whole) && ExponentForm(exponent)
    && (fraction == [] || (fraction[0] == DOT && AllDigits(fraction[1..])))
    && (whole != [] || |fraction| >= 2)
  }

  ghost predicate NumberForm(t: Text) {
    exists whole: Text, fraction: Text, exponent: Text ::
      NumberParts(whole, fraction, exponent) && t == whole + fraction + exponent
  }

  predicate ParameterForm(t: Text) {
    |t| >= 2 && t[0] == DOLLAR && AllDigits(t[1..])
  }

  predicate WordForm(a: Alphabet, t: Text) {
    t != [] && WordStart(a, t[0]) && !Blank(t[0]) && forall k :: 0 <= k < |t| ==> WordPart(a, t[k])
  }

  /** No other kind of token can start with this unit. */
  predicate Stray(a: Alphabet, u: Unit) {
    && !Blank(u) && !WordStart(a, u) && !Digit(u) && u !in PUNCTUATION && u !in OPERATORS
    && u != QUOTE && u != DOUBLE_QUOTE
  }

  /** The form of each kind of token, its value against its text. */
  ghost predicate Formed(a: Alphabet, kind: Kind, value: Text, text: Text) {
    match kind
    case Word => (WordForm(a, text) && value == a.lower(text)) || (ParameterForm(text) && |text| <= 12 && value == text)
    case QuotedName => QuotedForm(value, text, DOUBLE_QUOTE)
    case StringText => QuotedForm(value, text, QUOTE) || EscapeForm(value, text) || BodyForm(value, text)
    case Number => NumberForm(text) && |text| <= 64 && value == text
    case Punct => |text| == 1 && text[0] in PUNCTUATION && value == text
    case Op =>
      && value == text && text != []
      && ((|text| == 1 && Stray(a, text[0])) || forall k :: 0 <= k < |text| ==> text[k] in OPERATORS)
  }

  /** A dollar tag within the first 64 units. */
  predicate TagAtFront(s: Text) {
    exists n :: 2 <= n <= |s| && n <= 64 && TagText(s[..n])
  }

  predicate CommentAt(s: Text) {
    OpensLineComment(s) || OpensComment(s)
  }

  /**
   A token is not cut short, and nothing else starts where it does: what follows could not have gone on with it,
   within the 64 units a number or tag and the 12 a parameter may have.
   */
  ghost predicate Whole(a: Alphabet, kind: Kind, text: Text, rest: Text)
    requires text != []
  {
    match kind
    case Word =>
      if text[0] == DOLLAR then |text| < 12 && rest != [] ==> !Digit(rest[0])
      else
        && (rest != [] ==> !WordPart(a, rest[0]))
        && !(|text| == 1 && Exponential(text[0]) && At(rest, 0, QUOTE))
    case QuotedName => !At(rest, 0, DOUBLE_QUOTE)
    case StringText => text[0] != DOLLAR ==> !At(rest, 0, QUOTE)
    case Number => forall k :: 0 < k <= |rest| && |text| + k <= 64 ==> !NumberForm(text + rest[..k])
    case Punct => text[0] == DOT && rest != [] ==> !Digit(rest[0])
    case Op =>
      if text[0] in OPERATORS then
        && (rest == [] || rest[0] !in OPERATORS || CommentAt(rest))
        && forall k :: 0 <= k < |text| ==> !CommentAt((text + rest)[k..])
      else text[0] == DOLLAR ==> !TagAtFront(text + rest) && (rest != [] ==> !Digit(rest[0]))
  }

  // ------------------------------------------------------------------ each step

  lemma {:induction false} NewlinesAdd(s: Text, t: Text)
    ensures Newlines(s + t) == Newlines(s) + Newlines(t)
  {
    if s == [] {
      assert s + t == t;
    } else {
      assert (s + t)[1..] == s[1..] + t;
      NewlinesAdd(s[1..], t);
    }
  }

  lemma {:induction false} NoNewlines(s: Text)
    requires NEWLINE !in s
    ensures Newlines(s) == 0
  {
    if s != [] {
      NoNewlines(s[1..]);
    }
  }

  lemma {:induction false} LineBody(s: Text)
    ensures NEWLINE !in s[..LineLength(s)]
    ensures LineLength(s) < |s| ==> s[LineLength(s)] == NEWLINE
  {
    if s != [] && s[0] != NEWLINE {
      LineBody(s[1..]);
      assert s[..LineLength(s)] == [s[0]] + s[1..][..LineLength(s[1..])];
    }
  }

  /** What is skipped is one piece of trivia, its lines counted. */
  lemma SkipIsTrivia(a: Alphabet, s: Text) returns (t: Trivia)
    requires s != [] && Next(a, s).Skip?
    ensures ValidTrivia(t) && TriviaText(t) == s[..Next(a, s).length]
    ensures Next(a, s).lines == Newlines(TriviaText(t))
    ensures s[0] == NEWLINE ==> t == BlankUnit(NEWLINE)
    ensures var rest := s[Next(a, s).length..]; t.LineComment? ==> rest == [] || rest[0] == NEWLINE
  {
    if Blank(s[0]) {
      t := BlankUnit(s[0]);
      assert Newlines([s[0]]) == (if s[0] == NEWLINE then 1 else 0) + Newlines([]);
    } else if OpensLineComment(s) {
      LineBody(s);
      t := LineComment(s[2..LineLength(s)]);
      NoNewlines(s[..LineLength(s)]);
    } else {
      var marks := CommentMarks(s, 0);
      t := BlockComment(marks);
    }
  }

  lemma {:induction false} QuotedIsForm(s: Text, quote: Unit)
    requires Quoted(s, quote).Some?
    ensures var r := Quoted(s, quote).value;
            s[..r.length] == Doubled(r.value, quote) + [quote] && !At(s, r.length, quote)
  {
    if s[0] == quote && !At(s, 1, quote) {
      assert s[..1] == [] + [quote];
    } else {
      var n := if s[0] == quote then 2 else 1;
      QuotedIsForm(s[n..], quote);
      var rest := Quoted(s[n..], quote).value;
      assert Quoted(s, quote) == Some(Scanned([s[0]] + rest.value, n + rest.length));
      hide Quoted;
      DoubledCons(s[0], rest.value, quote);
      Joins(s, n, rest.length);
      assert s[..n] == if s[0] == quote then [quote, quote] else [s[0]];
    }
  }

  lemma Joins(s: Text, n: nat, m: nat)
    requires n + m <= |s|
    ensures s[..n + m] == s[..n] + s[n..][..m]
  {
  }

  lemma DoubledCons(u: Unit, value: Text, quote: Unit)
    ensures Doubled([u] + value, quote) == (if u == quote then [quote, quote] else [u]) + Doubled(value, quote)
  {
    assert ([u] + value)[1..] == value;
  }

  lemma {:induction false} EscapedIsPieces(s: Text) returns (pieces: seq<Piece>)
    requires Escaped(s).Some?
    ensures forall k :: 0 <= k < |pieces| ==> ValidPiece(pieces[k])
    ensures var r := Escaped(s).value;
            s[..r.length] == PiecesText(pieces) + [QUOTE] && r.value == PiecesValue(pieces) && !At(s, r.length, QUOTE)
  {
    if s[0] == QUOTE && !At(s, 1, QUOTE) {
      pieces := [];
    } else {
      var p := if s[0] == BACKSLASH then Backslashed(s[1]) else if s[0] == QUOTE then TwoQuotes else AsIs(s[0]);
      var n := if p.AsIs? then 1 else 2;
      var more := EscapedIsPieces(s[n..]);
      pieces := [p] + more;
      assert pieces[1..] == more;
      var r, rest := Escaped(s).value, Escaped(s[n..]).value;
      assert s[..r.length] == s[..n] + s[n..][..rest.length];
    }
  }

  lemma {:induction false} IndexIsFirst(s: Text, t: Text)
    requires IndexOf(s, t).Some?
    ensures var n := IndexOf(s, t).value;
            StartsWith(s[n..], t) && forall k :: 0 <= k < n ==> !StartsWith(s[k..], t)
    decreases |s|
  {
    if !StartsWith(s, t) {
      IndexIsFirst(s[1..], t);
      forall k | 0 <= k < IndexOf(s, t).value ensures !StartsWith(s[k..], t) {
        if k > 0 {
          assert s[k..] == s[1..][k - 1..];
        }
      }
    }
  }

  lemma BodyOfParts(tag: Text, value: Text)
    requires TagText(tag) && |tag| <= 64 && forall k :: 0 <= k < |value| ==> !StartsWith((value + tag)[k..], tag)
    ensures BodyForm(value, tag + value + tag)
  {
  }

  lemma BodyIsForm(s: Text, tag: nat)
    requires 0 < tag <= |s| && tag <= 64 && TagText(s[..tag]) && BodyStep(tag, s).Emit?
    ensures var step := BodyStep(tag, s); BodyForm(step.value, s[..step.length])
  {
    hide BodyForm;
    hide TagText;
    hide IndexOf;
    var t, after := s[..tag], s[tag..];
    IndexIsFirst(after, t);
    var end := IndexOf(after, t).value;
    var value := after[..end];
    assert after[..end + tag] == value + t by {
      assert after[end..][..tag] == t;
    }
    assert s[..tag + end + tag] == t + value + t;
    forall k | 0 <= k < end ensures !StartsWith((value + t)[k..], t) {
      NoEarlierTag(after, end, t, k);
    }
    BodyOfParts(t, value);
  }

  lemma NoEarlierTag(after: Text, end: nat, t: Text, k: nat)
    requires k < end && end + |t| <= |after| && !StartsWith(after[k..], t)
    ensures !StartsWith(after[..end + |t|][k..], t)
  {
    assert after[..end + |t|][k..][..|t|] == after[k..][..|t|];
  }

  lemma TagIsForm(s: Text)
    requires TagLength(s) > 0
    ensures TagText(s[..TagLength(s)])
  {
    var n := TagLength(s);
    if n > 2 {
      forall k | 0 < k < n - 1 ensures TagPart(s[k]) {
        assert s[1..][k - 1] == s[k];
      }
    }
  }

  lemma ExponentIsForm(s: Text)
    ensures ExponentForm(s[..ExponentLength(s)])
  {
    var n := ExponentLength(s);
    if n > 0 {
      var sign := if At(s, 1, 43) || At(s, 1, DASH) then 2 else 1;
      forall k | 0 <= k < |s[..n][sign..]| ensures Digit(s[..n][sign..][k]) {
        assert s[..n][sign..][k] == s[sign..][k];
      }
    }
  }

  lemma FractionIsForm(s: Text)
    ensures var whole := Run(s, Digit);
            var f := s[whole..whole + FractionLength(s)]; f == [] || (f[0] == DOT && AllDigits(f[1..]))
    ensures |s| > 1 && s[0] == DOT && Digit(s[1]) ==> FractionLength(s) >= 2
  {
    var whole, n := Run(s, Digit), FractionLength(s);
    if n > 0 {
      var digits := s[whole + 1..];
      assert s[whole..whole + n][1..] == digits[..n - 1];
      if whole == 0 && |s| > 1 && Digit(s[1]) {
        assert digits[0] == s[1];
      }
    }
  }

  lemma NumberOfParts(whole: Text, fraction: Text, exponent: Text)
    requires NumberParts(whole, fraction, exponent)
    ensures NumberForm(whole + fraction + exponent)
  {
  }

  lemma Thirds(s: Text, i: nat, j: nat, k: nat)
    requires i <= j <= k <= |s|
    ensures s[..k] == s[..i] + s[i..j] + s[j..][..k - j]
  {
  }

  lemma NumberIsForm(s: Text)
    requires s != [] && (Digit(s[0]) || (s[0] == DOT && |s| > 1 && Digit(s[1])))
    ensures NumberForm(s[..NumberLength(s)])
  {
    hide NumberForm;
    hide ExponentLength;
    hide ExponentForm;
    hide FractionLength;
    var whole, fraction := Run(s, Digit), FractionLength(s);
    var tail := s[whole + fraction..];
    var exponent := ExponentLength(tail);
    ExponentIsForm(tail);
    FractionIsForm(s);
    Thirds(s, whole, whole + fraction, whole + fraction + exponent);
    NumberOfParts(s[..whole], s[whole..whole + fraction], tail[..exponent]);
  }

  lemma {:induction false} OperatorIsForm(s: Text)
    ensures forall k :: 0 <= k < OperatorLength(s) ==> s[k] in OPERATORS
    ensures forall k :: 0 <= k < OperatorLength(s) ==> !CommentAt(s[k..])
    ensures var rest := s[OperatorLength(s)..]; rest == [] || rest[0] !in OPERATORS || CommentAt(rest)
  {
    if s != [] && s[0] in OPERATORS && !CommentAt(s) {
      OperatorIsForm(s[1..]);
      assert s[OperatorLength(s)..] == s[1..][OperatorLength(s[1..])..];
      forall k | 0 <= k < OperatorLength(s) ensures !CommentAt(s[k..]) {
        if k > 0 {
          assert s[k..] == s[1..][k - 1..];
        }
      }
    }
  }

  ghost predicate GoodStep(a: Alphabet, s: Text, step: Step)
    requires step.Emit? && 0 < step.length <= |s|
  {
    var text := s[..step.length];
    && Formed(a, step.kind, step.value, text) && Whole(a, step.kind, text, s[step.length..])
    && step.lines == Newlines(text)
  }

  lemma EmitIsFormed(a: Alphabet, s: Text)
    requires s != [] && Next(a, s).Emit?
    ensures GoodStep(a, s, Next(a, s))
  {
    if Exponential(s[0]) && At(s, 1, QUOTE) {
      EscapeIsFormed(a, s);
    } else if s[0] == QUOTE {
      StringIsFormed(a, s);
    } else if s[0] == DOUBLE_QUOTE {
      NameIsFormed(a, s);
    } else {
      PlainIsFormed(a, s);
    }
    hide GoodStep;
    hide NextPlain;
    hide CommentLength;
  }

  lemma EscapeIsFormed(a: Alphabet, s: Text)
    requires s != [] && Exponential(s[0]) && At(s, 1, QUOTE) && Escaped(s[2..]).Some?
    ensures GoodStep(a, s, StringStep(StringText, 2, Escaped(s[2..]), OpenString, s))
  {
    var step := StringStep(StringText, 2, Escaped(s[2..]), OpenString, s);
    var text := s[..step.length];
    var pieces := EscapedIsPieces(s[2..]);
    assert text == s[..2] + s[2..][..step.length - 2];
    assert text == [s[0], QUOTE] + PiecesText(pieces) + [QUOTE];
    assert EscapeForm(step.value, text);
  }

  lemma StringIsFormed(a: Alphabet, s: Text)
    requires s != [] && s[0] == QUOTE && Quoted(s[1..], QUOTE).Some?
    ensures GoodStep(a, s, StringStep(StringText, 1, Quoted(s[1..], QUOTE), OpenString, s))
  {
    QuoteParts(s, QUOTE);
    var step := StringStep(StringText, 1, Quoted(s[1..], QUOTE), OpenString, s);
    var text := s[..step.length];
    QuotedStringIsForm(a, step.value, text, s[step.length..]);
    hide Formed;
    hide Whole;
    hide QuotedForm;
    hide Newlines;
  }

  lemma QuoteParts(s: Text, quote: Unit)
    requires s != [] && s[0] == quote && Quoted(s[1..], quote).Some?
    ensures var r := Quoted(s[1..], quote).value;
            QuotedForm(r.value, s[..1 + r.length], quote) && !At(s[1 + r.length..], 0, quote)
  {
    QuotedIsForm(s[1..], quote);
    var r := Quoted(s[1..], quote).value;
    assert s[..1 + r.length] == s[..1] + s[1..][..r.length];
    hide Quoted;
  }

  lemma QuotedStringIsForm(a: Alphabet, value: Text, text: Text, rest: Text)
    requires QuotedForm(value, text, QUOTE) && !At(rest, 0, QUOTE)
    ensures text != [] && Formed(a, StringText, value, text) && Whole(a, StringText, text, rest)
  {
    hide EscapeForm;
    hide BodyForm;
  }

  lemma NameIsFormed(a: Alphabet, s: Text)
    requires s != [] && s[0] == DOUBLE_QUOTE && Quoted(s[1..], DOUBLE_QUOTE).Some?
    ensures GoodStep(a, s, StringStep(QuotedName, 1, Quoted(s[1..], DOUBLE_QUOTE), OpenName, s))
  {
    QuoteParts(s, DOUBLE_QUOTE);
    hide QuotedForm;
    hide Newlines;
  }

  /** Neither a blank, a comment nor a quoted text is at the front. */
  predicate PlainFront(s: Text) {
    && s != [] && !Blank(s[0]) && !CommentAt(s) && s[0] != QUOTE && s[0] != DOUBLE_QUOTE
    && !(Exponential(s[0]) && At(s, 1, QUOTE))
  }

  lemma PlainIsFormed(a: Alphabet, s: Text)
    requires PlainFront(s) && NextPlain(a, s).Emit?
    ensures GoodStep(a, s, NextPlain(a, s))
  {
    hide GoodStep;
    hide CommentAt;
    var tag, parameter := TagLength(Window(s, 64)), ParameterLength(Window(s, 12));
    if tag > 0 {
      TagBodyIsFormed(a, s);
    } else if parameter > 0 {
      ParameterIsFormed(a, s);
    } else if WordStart(a, s[0]) {
      WordIsFormed(a, s);
    } else if Digit(s[0]) || (s[0] == DOT && |s| > 1 && Digit(s[1])) {
      NumberIsFormed(a, s);
    } else if s[0] in PUNCTUATION {
      PunctIsFormed(a, s);
    } else if s[0] in OPERATORS {
      OperatorIsFormed(a, s);
    } else {
      StrayIsFormed(a, s);
    }
  }

  lemma TagBodyIsFormed(a: Alphabet, s: Text)
    requires TagLength(Window(s, 64)) > 0 && BodyStep(TagLength(Window(s, 64)), s).Emit?
    ensures GoodStep(a, s, BodyStep(TagLength(Window(s, 64)), s))
  {
    var w, tag := Window(s, 64), TagLength(Window(s, 64));
    TagIsForm(w);
    assert w[..tag] == s[..tag];
    BodyIsForm(s, tag);
    BodyIsGood(a, s, tag);
  }

  lemma BodyIsGood(a: Alphabet, s: Text, tag: nat)
    requires 0 < tag <= |s| && s[0] == DOLLAR && BodyStep(tag, s).Emit?
    requires var step := BodyStep(tag, s); BodyForm(step.value, s[..step.length])
    ensures GoodStep(a, s, BodyStep(tag, s))
  {
    hide IndexOf;
    hide BodyForm;
    hide EscapeForm;
    hide QuotedForm;
    hide Newlines;
  }

  lemma WordIsFormed(a: Alphabet, s: Text)
    requires PlainFront(s) && WordStart(a, s[0])
    ensures var n := 1 + Run(s[1..], PartOf(a)); GoodStep(a, s, Emit(Word, a.lower(s[..n]), n, 0))
  {
    var n := 1 + Run(s[1..], PartOf(a));
    var text, rest := s[..n], s[n..];
    forall k | 0 <= k < n ensures WordPart(a, text[k]) && text[k] != NEWLINE {
      if k > 0 {
        assert s[1..][k - 1] == text[k] && PartOf(a)(text[k]);
      }
    }
    if rest != [] {
      assert s[1..][n - 1] == rest[0] && !PartOf(a)(rest[0]);
    }
    NoNewlines(text);
  }

  predicate NumberFront(s: Text) {
    s != [] && (Digit(s[0]) || (s[0] == DOT && |s| > 1 && Digit(s[1])))
  }

  lemma NumberIsFormed(a: Alphabet, s: Text)
    requires NumberFront(s)
    ensures GoodStep(a, s, PlainStep(Number, NumberLength(Window(s, 64)), s))
  {
    var n := NumberLength(Window(s, 64));
    NumberHasForm(a, s);
    NumberIsWhole(a, s);
    hide *;
    NoNewlines(s[..n]);
    PlainIsGood(a, Number, n, s);
  }

  lemma NumberHasForm(a: Alphabet, s: Text)
    requires NumberFront(s)
    ensures var text := s[..NumberLength(Window(s, 64))]; Formed(a, Number, text, text) && NEWLINE !in text
  {
    var w, n := Window(s, 64), NumberLength(Window(s, 64));
    NumberIsForm(w);
    assert w[..n] == s[..n];
    NumberHasNoNewline(s[..n]);
    hide NumberForm;
    hide NumberLength;
  }

  lemma NumberIsWhole(a: Alphabet, s: Text)
    requires NumberFront(s)
    ensures var n := NumberLength(Window(s, 64)); Whole(a, Number, s[..n], s[n..])
  {
    hide NumberForm;
    var w, n := Window(s, 64), NumberLength(Window(s, 64));
    hide NumberLength;
    forall k | 0 < k <= |s[n..]| && n + k <= 64 ensures !NumberForm(s[..n] + s[n..][..k]) {
      NumberIsLongest(w, n + k);
      assert s[..n] + s[n..][..k] == w[..n + k];
    }
  }

  /** The digits at the front of a text that goes on with something else. */
  lemma {:induction false} RunOf(s: Text, p: Unit -> bool, n: nat)
    requires n <= |s| && (forall k :: 0 <= k < n ==> p(s[k])) && (n < |s| ==> !p(s[n]))
    ensures Run(s, p) == n
  {
    if n > 0 {
      RunOf(s[1..], p, n - 1);
    }
  }

  lemma {:induction false} RunAtLeast(s: Text, p: Unit -> bool, n: nat)
    requires n <= |s| && forall k :: 0 <= k < n ==> p(s[k])
    ensures Run(s, p) >= n
  {
    if n > 0 {
      RunAtLeast(s[1..], p, n - 1);
    }
  }

  /** An exponent that a text starts with is no longer than the one read. */
  lemma ExponentIsLongest(s: Text, n: nat)
    requires n <= |s| && ExponentForm(s[..n])
    ensures n <= ExponentLength(s)
  {
    if n > 0 {
      var t := s[..n];
      var sign := if At(s, 1, 43) || At(s, 1, DASH) then 2 else 1;
      assert t[0] == s[0] && t[1] == s[1];
      assert AllDigits(t[sign..]) && n > sign;
      assert forall k :: 0 <= k < n - sign ==> s[sign..][k] == t[sign..][k];
      RunAtLeast(s[sign..], Digit, n - sign);
    }
  }

  lemma FractionIsRun(s: Text, whole: nat, fraction: nat)
    requires whole == Run(s, Digit) && whole + fraction <= |s| && fraction > 0
    requires s[whole] == DOT && forall k :: whole < k < whole + fraction ==> Digit(s[k])
    ensures fraction <= FractionLength(s)
    ensures whole + fraction < |s| && !Digit(s[whole + fraction]) ==> fraction == FractionLength(s)
  {
    hide Run;
    hide Digit;
    var tail := s[whole + 1..];
    assert forall k :: 0 <= k < |tail| ==> tail[k] == s[whole + 1 + k];
    RunAtLeast(tail, Digit, fraction - 1);
    if whole + fraction < |s| && !Digit(s[whole + fraction]) {
      RunOf(tail, Digit, fraction - 1);
    }
  }

  /** No front of the text longer than the number read is a number. */
  lemma NumberIsLongest(s: Text, n: nat)
    requires s != [] && (Digit(s[0]) || (s[0] == DOT && |s| > 1 && Digit(s[1])))
    requires NumberLength(s) < n <= |s|
    ensures !NumberForm(s[..n])
  {
    if NumberForm(s[..n]) {
      var whole: Text, fraction: Text, exponent: Text :|
        NumberParts(whole, fraction, exponent) && s[..n] == whole + fraction + exponent;
      NumberPartsFit(s, whole, fraction, exponent);
    }
  }

  lemma NumberPartsFit(s: Text, whole: Text, fraction: Text, exponent: Text)
    requires NumberFront(s) && NumberParts(whole, fraction, exponent) && StartsWith(s, whole + fraction + exponent)
    ensures |whole + fraction + exponent| <= NumberLength(s)
  {
    var t := whole + fraction + exponent;
    var i, j := |whole|, |whole| + |fraction|;
    assert s[..|t|] == t;
    assert t[..i] == whole && t[i..j] == fraction && t[j..] == exponent;
    assert s[..i] == whole && s[i..j] == fraction && s[j..|t|] == exponent;
    hide NumberLength;
    PartsFitAt(s, i, j, |t|);
  }

  /** The same, the parts given by their places. */
  lemma PartsFitAt(s: Text, i: nat, j: nat, k: nat)
    requires NumberFront(s) && i <= j <= k <= |s| && NumberParts(s[..i], s[i..j], s[j..k])
    ensures k <= NumberLength(s)
  {
    PartUnits(s, i, j, k);
    hide ExponentLength;
    hide ExponentForm;
    hide NumberParts;
    hide Run;
    RunAtLeast(s, Digit, i);
    if i < Run(s, Digit) {
      assert Digit(s[i]);
    } else {
      if i < j {
        FractionIsRun(s, i, j - i);
      }
      if j < k {
        ExponentIsLongest(s[j..], k - j);
      }
    }
  }

  lemma PartUnits(s: Text, i: nat, j: nat, k: nat)
    requires i <= j <= k <= |s| && NumberParts(s[..i], s[i..j], s[j..k])
    ensures forall m :: 0 <= m < i ==> Digit(s[m])
    ensures i < j ==> s[i] == DOT && forall m :: i < m < j ==> Digit(s[m])
    ensures j < k ==> Exponential(s[j]) && ExponentForm(s[j..][..k - j])
    ensures i == 0 ==> i < j
  {
    assert forall m :: 0 <= m < i ==> s[m] == s[..i][m];
    if i < j {
      assert s[i] == s[i..j][0];
      assert forall m :: i < m < j ==> s[m] == s[i..j][1..][m - i - 1];
    }
    if j < k {
      assert s[j] == s[j..k][0] && s[j..][..k - j] == s[j..k];
    }
  }

  lemma OperatorUnits(s: Text, n: nat)
    requires s != [] && s[0] in OPERATORS && !CommentAt(s) && n == 1 + OperatorLength(s[1..])
    ensures forall k :: 0 <= k < n ==> s[k] in OPERATORS && !CommentAt(s[k..])
    ensures var rest := s[n..]; rest == [] || rest[0] !in OPERATORS || CommentAt(rest)
  {
    OperatorIsForm(s[1..]);
    hide CommentAt;
    hide OperatorLength;
    assert s[n..] == s[1..][n - 1..];
    forall k | 0 <= k < n ensures s[k] in OPERATORS && !CommentAt(s[k..]) {
      if k > 0 {
        assert s[1..][k - 1] == s[k] && s[k..] == s[1..][k - 1..];
      } else {
        assert s[0..] == s;
      }
    }
  }

  lemma OperatorIsWhole(a: Alphabet, s: Text, n: nat)
    requires 0 < n <= |s| && s[0] in OPERATORS
    requires forall k :: 0 <= k < n ==> !CommentAt(s[k..])
    requires s[n..] == [] || s[n..][0] !in OPERATORS || CommentAt(s[n..])
    ensures Whole(a, Op, s[..n], s[n..])
  {
    hide CommentAt;
    assert s[..n] + s[n..] == s;
    assert s[..n][0] == s[0];
  }

  lemma OperatorHasForm(a: Alphabet, s: Text, n: nat)
    requires 0 < n <= |s| && forall k :: 0 <= k < n ==> s[k] in OPERATORS
    ensures Formed(a, Op, s[..n], s[..n]) && NEWLINE !in s[..n]
  {
    hide Stray;
    assert NEWLINE !in OPERATORS;
  }

  lemma OperatorIsFormed(a: Alphabet, s: Text)
    requires PlainFront(s) && s[0] in OPERATORS
    ensures GoodStep(a, s, PlainStep(Op, 1 + OperatorLength(s[1..]), s))
  {
    hide *;
    NotAtComment(s);
    var n := 1 + OperatorLength(s[1..]);
    OperatorUnits(s, n);
    OperatorHasForm(a, s, n);
    OperatorIsWhole(a, s, n);
    NoNewlines(s[..n]);
    PlainIsGood(a, Op, n, s);
  }

  lemma NotAtComment(s: Text)
    requires PlainFront(s)
    ensures s != [] && !CommentAt(s)
  {
  }

  lemma PlainIsGood(a: Alphabet, kind: Kind, n: nat, s: Text)
    requires 0 < n <= |s| && Newlines(s[..n]) == 0
    requires Formed(a, kind, s[..n], s[..n]) && Whole(a, kind, s[..n], s[n..])
    ensures GoodStep(a, s, PlainStep(kind, n, s))
  {
    hide Formed;
    hide Whole;
    hide Newlines;
  }

  lemma PunctIsFormed(a: Alphabet, s: Text)
    requires s != [] && s[0] in PUNCTUATION && !(s[0] == DOT && |s| > 1 && Digit(s[1]))
    ensures GoodStep(a, s, PlainStep(Punct, 1, s))
  {
    NoNewlines(s[..1]);
  }

  lemma StrayIsFormed(a: Alphabet, s: Text)
    requires PlainFront(s) && Stray(a, s[0])
    requires TagLength(Window(s, 64)) == 0 && ParameterLength(Window(s, 12)) == 0
    ensures GoodStep(a, s, PlainStep(Op, 1, s))
  {
    NoNewlines(s[..1]);
    assert s[..1] + s[1..] == s;
    if s[0] == DOLLAR {
      if n :| 2 <= n <= |s| && n <= 64 && TagText(s[..n]) {
        assert Window(s, 64)[..n] == s[..n];
        TagIsRead(Window(s, 64), n);
      }
      assert |s| > 1 ==> |Window(s, 12)| > 1 && Window(s, 12)[1] == s[1];
    }
  }

  /** A tag the text starts with is the one read. */
  lemma TagIsRead(s: Text, n: nat)
    requires 2 <= n <= |s| && TagText(s[..n])
    ensures TagLength(s) == n
  {
    var t := s[..n];
    assert t[0] == s[0] && t[n - 1] == s[n - 1];
    if n > 2 {
      assert t[1] == s[1];
      forall k | 0 <= k < n - 2 ensures TagPart(s[1..][k]) {
        assert t[k + 1] == s[1..][k];
      }
      assert s[1..][n - 2] == DOLLAR;
      RunOf(s[1..], TagPart, n - 2);
    }
  }

  lemma ParameterIsFormed(a: Alphabet, s: Text)
    requires ParameterLength(Window(s, 12)) > 0
    ensures GoodStep(a, s, PlainStep(Word, ParameterLength(Window(s, 12)), s))
  {
    var w, n := Window(s, 12), ParameterLength(Window(s, 12));
    var text := s[..n];
    assert forall k :: 0 < k < n ==> text[k] == w[1..][k - 1];
    if n < 12 && n < |s| {
      assert w[1..][n - 1] == s[n];
    }
    NoNewlines(text);
  }

  lemma NumberHasNoNewline(t: Text)
    requires NumberForm(t)
    ensures NEWLINE !in t
  {
    var whole: Text, fraction: Text, exponent: Text :|
      NumberParts(whole, fraction, exponent) && t == whole + fraction + exponent;
    assert forall k :: 1 <= k < |fraction| ==> fraction[k] == fraction[1..][k - 1];
    assert forall k :: 1 <= k < |exponent| ==> exponent[k] == exponent[1..][k - 1];
    assert forall k :: 2 <= k < |exponent| ==> exponent[k] == exponent[2..][k - 2];
  }

  // ------------------------------------------------------------------ the whole text

  /** The text laid out as gaps and tokens, each token formed, whole, and on its line. */
  ghost predicate Laid(a: Alphabet, s: Text, line: nat, tokens: seq<Token>, gaps: seq<Gap>)
    decreases |tokens|
  {
    && |gaps| == |tokens| + 1
    && ValidGap(gaps[0], tokens == [])
    && if tokens == [] then s == GapText(gaps[0])
       else
         var lead, t := GapText(gaps[0]), tokens[0];
         && t.text != [] && StartsWith(s, lead + t.text)
         && var rest := s[|lead| + |t.text|..];
            && Formed(a, t.kind, t.value, t.text) && Whole(a, t.kind, t.text, rest)
            && t.line == line + Newlines(lead)
            && Laid(a, rest, t.line + Newlines(t.text), tokens[1..], gaps[1..])
  }

  lemma PrependGap(t: Trivia, g: Gap, last: bool)
    requires ValidTrivia(t) && ValidGap(g, last)
    requires t.LineComment? ==> if g == [] then last else g[0] == BlankUnit(NEWLINE)
    ensures ValidGap([t] + g, last) && GapText([t] + g) == TriviaText(t) + GapText(g)
  {
    var gap := [t] + g;
    assert gap[1..] == g;
    forall k | 0 < k < |gap| ensures ValidAt(gap, k, last) {
      assert ValidAt(g, k - 1, last) && gap[k] == g[k - 1];
    }
  }

  /** What follows the first gap and token of a layout. */
  function AfterFirst(s: Text, tokens: seq<Token>, gaps: seq<Gap>): Text
    requires tokens != [] && gaps != []
  {
    var n := |GapText(gaps[0])| + |tokens[0].text|;
    if n <= |s| then s[n..] else []
  }

  lemma LaidFirst(a: Alphabet, s: Text, line: nat, tokens: seq<Token>, gaps: seq<Gap>)
    requires Laid(a, s, line, tokens, gaps) && tokens != []
    ensures |gaps| == |tokens| + 1 && ValidGap(gaps[0], false)
    ensures s == GapText(gaps[0]) + tokens[0].text + AfterFirst(s, tokens, gaps)
    ensures tokens[0].line == line + Newlines(GapText(gaps[0])) && tokens[0].text != []
    ensures Formed(a, tokens[0].kind, tokens[0].value, tokens[0].text)
    ensures Whole(a, tokens[0].kind, tokens[0].text, AfterFirst(s, tokens, gaps))
    ensures Laid(a, AfterFirst(s, tokens, gaps), tokens[0].line + Newlines(tokens[0].text), tokens[1..], gaps[1..])
  {
    hide Formed;
    hide Whole;
    hide ValidGap;
    var lead, t := GapText(gaps[0]), tokens[0];
    assert s == s[..|lead| + |t.text|] + s[|lead| + |t.text|..];
  }

  lemma LaidOf(a: Alphabet, s: Text, line: nat, tokens: seq<Token>, gaps: seq<Gap>, rest: Text)
    requires tokens != [] && |gaps| == |tokens| + 1 && ValidGap(gaps[0], false)
    requires s == GapText(gaps[0]) + tokens[0].text + rest && tokens[0].text != []
    requires tokens[0].line == line + Newlines(GapText(gaps[0]))
    requires Formed(a, tokens[0].kind, tokens[0].value, tokens[0].text)
    requires Whole(a, tokens[0].kind, tokens[0].text, rest)
    requires Laid(a, rest, tokens[0].line + Newlines(tokens[0].text), tokens[1..], gaps[1..])
    ensures Laid(a, s, line, tokens, gaps)
  {
    hide Formed;
    hide Whole;
    hide ValidGap;
    var n := |GapText(gaps[0])| + |tokens[0].text|;
    assert s[..n] == GapText(gaps[0]) + tokens[0].text && s[n..] == rest;
  }

  lemma PrependTrivia(a: Alphabet, s: Text, line: nat, t: Trivia, tokens: seq<Token>, gaps: seq<Gap>, rest: Text)
    requires |TriviaText(t)| <= |s| && s[..|TriviaText(t)|] == TriviaText(t) && ValidTrivia(t)
    requires rest == s[|TriviaText(t)|..] && Laid(a, rest, line + Newlines(TriviaText(t)), tokens, gaps)
    requires t.LineComment? ==> if gaps[0] == [] then tokens == [] else gaps[0][0] == BlankUnit(NEWLINE)
    ensures Laid(a, s, line, tokens, [[t] + gaps[0]] + gaps[1..])
  {
    hide Formed;
    hide Whole;
    hide ValidGap;
    hide TriviaText;
    LaidShape(a, rest, line + Newlines(TriviaText(t)), tokens, gaps);
    PrependGap(t, gaps[0], tokens == []);
    var others := [[t] + gaps[0]] + gaps[1..];
    assert others[0] == [t] + gaps[0] && others[1..] == gaps[1..];
    assert s == TriviaText(t) + rest;
    if tokens != [] {
      LaidFirst(a, rest, line + Newlines(TriviaText(t)), tokens, gaps);
      hide Laid;
      hide GapText;
      var later := AfterFirst(rest, tokens, gaps);
      NewlinesAdd(TriviaText(t), GapText(gaps[0]));
      Reassociate(TriviaText(t), GapText(gaps[0]), tokens[0].text, later);
      LaidOf(a, s, line, tokens, others, later);
    }
  }

  lemma Reassociate(a: Text, b: Text, c: Text, d: Text)
    ensures a + (b + c + d) == (a + b) + c + d
  {
  }

  lemma LaidShape(a: Alphabet, s: Text, line: nat, tokens: seq<Token>, gaps: seq<Gap>)
    requires Laid(a, s, line, tokens, gaps)
    ensures |gaps| == |tokens| + 1 && ValidGap(gaps[0], tokens == [])
    ensures tokens == [] ==> s == GapText(gaps[0])
  {
  }

  lemma {:induction false} LayOut(a: Alphabet, s: Text, line: nat) returns (gaps: seq<Gap>)
    requires Tokens(a, s, line).Ok?
    ensures |gaps| > 0 && Laid(a, s, line, Tokens(a, s, line).value, gaps)
    ensures s != [] && s[0] == NEWLINE ==> gaps[0] != [] && gaps[0][0] == BlankUnit(NEWLINE)
    ensures s == [] ==> gaps[0] == []
    decreases |s|
  {
    hide Next;
    hide Laid;
    hide GoodStep;
    hide Newlines;
    hide TriviaText;
    if s == [] {
      NothingLaid(a, line);
      return [[]];
    }
    var step := Next(a, s);
    var rest := s[step.length..];
    if step.Skip? {
      var t := SkipIsTrivia(a, s);
      gaps := LayOut(a, rest, line + step.lines);
      var tokens := Tokens(a, rest, line + step.lines).value;
      PrependTrivia(a, s, line, t, tokens, gaps, rest);
      gaps := [[t] + gaps[0]] + gaps[1..];
    } else {
      EmitIsFormed(a, s);
      if s[0] == NEWLINE {
        NewlineIsSkipped(a, s);
      }
      gaps := LayOut(a, rest, line + step.lines);
      AppendToken(a, s, line, Tokens(a, rest, line + step.lines).value, gaps);
      gaps := [[]] + gaps;
    }
  }

  lemma NothingLaid(a: Alphabet, line: nat)
    ensures Laid(a, [], line, [], [[]])
  {
  }

  lemma NewlineIsSkipped(a: Alphabet, s: Text)
    requires s != [] && s[0] == NEWLINE
    ensures Next(a, s).Skip?
  {
  }

  lemma AppendToken(a: Alphabet, s: Text, line: nat, tokens: seq<Token>, gaps: seq<Gap>)
    requires s != [] && Next(a, s).Emit? && GoodStep(a, s, Next(a, s))
    requires Laid(a, s[Next(a, s).length..], line + Next(a, s).lines, tokens, gaps)
    ensures var step := Next(a, s);
            Laid(a, s, line, [Token(step.kind, step.value, s[..step.length], line)] + tokens, [[]] + gaps)
  {
    hide Next;
    hide Formed;
    hide Whole;
    var step := Next(a, s);
    var t := Token(step.kind, step.value, s[..step.length], line);
    var more, others := [t] + tokens, [[]] + gaps;
    LaidShape(a, s[step.length..], line + step.lines, tokens, gaps);
    assert more[1..] == tokens && others[1..] == gaps;
    assert GapText([]) + t.text + s[step.length..] == s;
    LaidOf(a, s, line, more, others, s[step.length..]);
  }

  // ------------------------------------------------------------------ theorem

  /** Token texts with the gaps around them. */
  function Woven(tokens: seq<Token>, gaps: seq<Gap>): Text
    requires |gaps| == |tokens| + 1
  {
    GapText(gaps[0]) + if tokens == [] then [] else tokens[0].text + Woven(tokens[1..], gaps[1..])
  }

  /** What is before the k-th token. */
  function Before(tokens: seq<Token>, gaps: seq<Gap>, k: nat): Text
    requires |gaps| == |tokens| + 1 && k < |tokens|
  {
    GapText(gaps[0]) + if k == 0 then [] else tokens[0].text + Before(tokens[1..], gaps[1..], k - 1)
  }

  lemma {:induction false} LaidIsWoven(a: Alphabet, s: Text, line: nat, tokens: seq<Token>, gaps: seq<Gap>)
    requires Laid(a, s, line, tokens, gaps)
    ensures |gaps| == |tokens| + 1 && s == Woven(tokens, gaps)
    decreases |tokens|
  {
    hide Formed;
    hide Whole;
    hide ValidGap;
    if tokens == [] {
      assert GapText(gaps[0]) + [] == GapText(gaps[0]);
    } else {
      hide Laid;
      LaidFirst(a, s, line, tokens, gaps);
      var rest := AfterFirst(s, tokens, gaps);
      LaidIsWoven(a, rest, tokens[0].line + Newlines(tokens[0].text), tokens[1..], gaps[1..]);
      hide *;
      WovenFirst(tokens, gaps, rest);
    }
  }

  lemma WovenFirst(tokens: seq<Token>, gaps: seq<Gap>, rest: Text)
    requires tokens != [] && |gaps| == |tokens| + 1 && rest == Woven(tokens[1..], gaps[1..])
    ensures Woven(tokens, gaps) == GapText(gaps[0]) + tokens[0].text + rest
  {
    assert GapText(gaps[0]) + (tokens[0].text + rest) == GapText(gaps[0]) + tokens[0].text + rest;
  }

  lemma {:induction false} LaidGap(a: Alphabet, s: Text, line: nat, tokens: seq<Token>, gaps: seq<Gap>, k: nat)
    requires Laid(a, s, line, tokens, gaps) && k <= |tokens|
    ensures |gaps| == |tokens| + 1 && ValidGap(gaps[k], k == |tokens|)
    decreases |tokens|
  {
    hide Formed;
    hide Whole;
    hide ValidGap;
    if tokens != [] {
      hide Laid;
      LaidFirst(a, s, line, tokens, gaps);
      if k > 0 {
        LaidGap(a, AfterFirst(s, tokens, gaps), tokens[0].line + Newlines(tokens[0].text),
                tokens[1..], gaps[1..], k - 1);
      }
    }
  }

  lemma {:induction false} LaidToken(a: Alphabet, s: Text, line: nat, tokens: seq<Token>, gaps: seq<Gap>, k: nat)
    requires Laid(a, s, line, tokens, gaps) && k < |tokens|
    ensures |gaps| == |tokens| + 1
    ensures tokens[k].text != [] && Formed(a, tokens[k].kind, tokens[k].value, tokens[k].text)
    ensures tokens[k].line == line + Newlines(Before(tokens, gaps, k))
    decreases |tokens|
  {
    hide *;
    LaidFirst(a, s, line, tokens, gaps);
    LinesBefore(tokens, gaps, k);
    if k > 0 {
      var t := tokens[0];
      LaidToken(a, AfterFirst(s, tokens, gaps), t.line + Newlines(t.text), tokens[1..], gaps[1..], k - 1);
    }
  }

  lemma LinesBefore(tokens: seq<Token>, gaps: seq<Gap>, k: nat)
    requires |gaps| == |tokens| + 1 && k < |tokens|
    ensures Newlines(Before(tokens, gaps, k))
         == Newlines(GapText(gaps[0]))
            + if k == 0 then 0 else Newlines(tokens[0].text) + Newlines(Before(tokens[1..], gaps[1..], k - 1))
  {
    var lead := GapText(gaps[0]);
    if k == 0 {
      assert lead + [] == lead;
    } else {
      var later := Before(tokens[1..], gaps[1..], k - 1);
      NewlinesAdd(tokens[0].text, later);
      NewlinesAdd(lead, tokens[0].text + later);
    }
  }

  /**
   Whenever a text tokenizes, it is its token texts woven with gaps of blanks and complete comments; every
   token has the form of its kind, and its line is one more than the newlines before it.
   */
  lemma Lossless(a: Alphabet, sql: Text) returns (gaps: seq<Gap>)
    requires Tokens(a, sql, 1).Ok?
    ensures var tokens := Tokens(a, sql, 1).value;
            && |gaps| == |tokens| + 1 && sql == Woven(tokens, gaps) && Laid(a, sql, 1, tokens, gaps)
            && (forall k :: 0 <= k < |gaps| ==> ValidGap(gaps[k], k == |tokens|))
            && forall k :: 0 <= k < |tokens| ==>
                 && tokens[k].text != [] && Formed(a, tokens[k].kind, tokens[k].value, tokens[k].text)
                 && tokens[k].line == 1 + Newlines(Before(tokens, gaps, k))
  {
    gaps := LayOut(a, sql, 1);
    var tokens := Tokens(a, sql, 1).value;
    LaidIsWoven(a, sql, 1, tokens, gaps);
    forall k | 0 <= k < |gaps| ensures ValidGap(gaps[k], k == |tokens|) {
      LaidGap(a, sql, 1, tokens, gaps, k);
    }
    forall k | 0 <= k < |tokens|
      ensures && tokens[k].text != [] && Formed(a, tokens[k].kind, tokens[k].value, tokens[k].text)
              && tokens[k].line == 1 + Newlines(Before(tokens, gaps, k))
    {
      LaidToken(a, sql, 1, tokens, gaps, k);
    }
  }

  // ------------------------------------------------------------------ literals

  /** How a value is written as an SQL literal: quotes around it, its own doubled. */
  function Literal(value: Text): Text {
    [QUOTE] + Doubled(value, QUOTE) + [QUOTE]
  }

  lemma {:induction false} QuotedBack(value: Text)
    ensures var s := Doubled(value, QUOTE) + [QUOTE]; Quoted(s, QUOTE) == Some(Scanned(value, |s|))
  {
    var s := Doubled(value, QUOTE) + [QUOTE];
    if value != [] {
      QuotedBack(value[1..]);
      var n := if value[0] == QUOTE then 2 else 1;
      assert s[n..] == Doubled(value[1..], QUOTE) + [QUOTE];
      assert value == [value[0]] + value[1..];
      if n == 1 {
        assert s[0] != QUOTE;
      } else {
        assert s[0] == QUOTE && s[1] == QUOTE;
      }
    }
  }

  lemma LiteralStep(a: Alphabet, value: Text)
    ensures Next(a, Literal(value)) == Emit(StringText, value, |Literal(value)|, Newlines(Literal(value)))
  {
    var s := Literal(value);
    QuotedBack(value);
    assert s[1..] == Doubled(value, QUOTE) + [QUOTE];
    assert s[..|s|] == s;
  }

  /** A literal is one string token of the value it was written from, whatever the value. */
  lemma LiteralIsOneToken(a: Alphabet, value: Text)
    ensures Tokens(a, Literal(value), 1) == Ok([Token(StringText, value, Literal(value), 1)])
  {
    hide Next;
    var s := Literal(value);
    LiteralStep(a, value);
    var lines := Newlines(s);
    assert s != [] && s[|s|..] == [] && s[..|s|] == s;
    hide Literal;
    assert Tokens(a, [], 1 + lines) == Ok([]);
    var token := Token(StringText, value, s, 1);
    assert [token] + [] == [token];
  }
}
