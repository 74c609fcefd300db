/**
 The SQL tokenizer: what it takes from the front of a text, and the loop that takes it all.

 Letters and numerals beyond ASCII and the folding of words are given by an alphabet.
 */
module Tokenizer {
  import opened Options
  import opened Texts

  datatype Alphabet = Alphabet(letters: Unit -> bool, numerals: Unit -> bool, lower: Text -> Text)

  datatype Kind = Word | QuotedName | StringText | Number | Punct | Op

  datatype Token = Token(kind: Kind, value: Text, text: Text, line: nat)

  datatype Open = OpenComment | OpenString | OpenName | OpenBody

  /** What is never closed, and the line where it starts. */
  datatype Fault = Fault(what: Open, line: nat)

  const QUOTE: Unit := 39
  const DOUBLE_QUOTE: Unit := 34
  const BACKSLASH: Unit := 92
  const DASH: Unit := 45
  const SLASH: Unit := 47
  const STAR: Unit := 42
  const DOLLAR: Unit := 36
  const DOT: Unit := 46
  const UNDERSCORE: Unit := 95

  const PUNCTUATION: Text := [40, 41, 44, 59, 46, 91, 93] // ( ) , ; . [ ]

  const OPERATORS: Text := [43, 45, 42, 47, 60, 62, 61, 126, 33, 64, 35, 37, 94, 38, 124, 96, 63, 58]

  predicate WordStart(a: Alphabet, u: Unit) {
    Letter(u) || u == UNDERSCORE || (u >= 128 && a.letters(u))
  }

  predicate WordPart(a: Alphabet, u: Unit) {
    WordStart(a, u) || Digit(u) || u == DOLLAR || (u >= 128 && a.numerals(u))
  }

  function PartOf(a: Alphabet): Unit -> bool {
    (u: Unit) => WordPart(a, u)
  }

  predicate Exponential(u: Unit) {
    u == 69 || u == 101 // E e
  }

  predicate OpensComment(s: Text) {
    At(s, 0, SLASH) && At(s, 1, STAR)
  }

  predicate ClosesComment(s: Text) {
    At(s, 0, STAR) && At(s, 1, SLASH)
  }

  predicate OpensLineComment(s: Text) {
    At(s, 0, DASH) && At(s, 1, DASH)
  }

  function Newlines(s: Text): nat {
    if s == [] then 0 else (if s[0] == NEWLINE then 1 else 0) + Newlines(s[1..])
  }

  // ------------------------------------------------------------------ what is taken from the front

  /** Units before the end of the line. */
  function LineLength(s: Text): (n: nat)
    ensures n <= |s|
  {
    if s == [] || s[0] == NEWLINE then 0 else 1 + LineLength(s[1..])
  }

  function Longer(n: nat, rest: Option<nat>): Option<nat> {
    if rest.None? then None else Some(n + rest.value)
  }

  /** Units up to the close of the comments open at this depth, the close included. */
  function CommentLength(s: Text, depth: int): (n: Option<nat>)
    ensures n.Some? ==> n.value <= |s|
    decreases |s|
  {
    if s == [] then None
    else if OpensComment(s) then Longer(2, CommentLength(s[2..], depth + 1))
    else if ClosesComment(s) then if depth == 1 then Some(2) else Longer(2, CommentLength(s[2..], depth - 1))
    else Longer(1, CommentLength(s[1..], depth))
  }

  /** The content read and the units it took, the closing mark included. */
  datatype Scanned = Scanned(value: Text, length: nat)

  function Grown(value: Text, length: nat, rest: Option<Scanned>): Option<Scanned> {
    if rest.None? then None else Some(Scanned(value + rest.value.value, length + rest.value.length))
  }

  /** After an opening quote: up to the closing one, a doubled quote standing for itself. */
  function Quoted(s: Text, quote: Unit): (r: Option<Scanned>)
    ensures r.Some? ==> 0 < r.value.length <= |s|
  {
    if s == [] then None
    else if s[0] == quote && At(s, 1, quote) then Grown([quote], 2, Quoted(s[2..], quote))
    else if s[0] == quote then Some(Scanned([], 1))
    else Grown([s[0]], 1, Quoted(s[1..], quote))
  }

  /** After the opening of an escape string: a backslash stands for the unit that follows it. */
  function Escaped(s: Text): (r: Option<Scanned>)
    ensures r.Some? ==> 0 < r.value.length <= |s|
  {
    if s == [] then None
    else if s[0] == BACKSLASH then if |s| == 1 then None else Grown([s[1]], 2, Escaped(s[2..]))
    else if s[0] == QUOTE && At(s, 1, QUOTE) then Grown([QUOTE], 2, Escaped(s[2..]))
    else if s[0] == QUOTE then Some(Scanned([], 1))
    else Grown([s[0]], 1, Escaped(s[1..]))
  }

  /** Length of the longest front whose units all satisfy the predicate. */
  function Run(s: Text, p: Unit -> bool): (n: nat)
    ensures n <= |s| && (forall k :: 0 <= k < n ==> p(s[k])) && (n < |s| ==> !p(s[n]))
  {
    if s == [] || !p(s[0]) then 0 else 1 + Run(s[1..], p)
  }

  function Window(s: Text, n: nat): Text {
    if |s| <= n then s else s[..n]
  }

  predicate TagStart(u: Unit) {
    Letter(u) || u == UNDERSCORE
  }

  predicate TagPart(u: Unit) {
    TagStart(u) || Digit(u)
  }

  /** Length of the dollar tag at the front, 0 when there is none. */
  function TagLength(s: Text): (n: nat)
    ensures n <= |s| && (n == 0 || n >= 2)
  {
    if !At(s, 0, DOLLAR) then 0
    else if At(s, 1, DOLLAR) then 2
    else if |s| > 1 && TagStart(s[1]) then
      var n := 1 + Run(s[1..], TagPart); if At(s, n, DOLLAR) then n + 1 else 0
    else 0
  }

  predicate StartsWith(s: Text, t: Text) {
    |t| <= |s| && s[..|t|] == t
  }

  /** Place of the first occurrence. */
  function IndexOf(s: Text, t: Text): (n: Option<nat>)
    ensures n.Some? ==> n.value + |t| <= |s|
    decreases |s|
  {
    if StartsWith(s, t) then Some(0) else if s == [] then None else Longer(1, IndexOf(s[1..], t))
  }

  /** Length of the positional parameter at the front, 0 when there is none. */
  function ParameterLength(s: Text): (n: nat)
    ensures n <= |s| && n != 1
  {
    if At(s, 0, DOLLAR) && |s| > 1 && Digit(s[1]) then 1 + Run(s[1..], Digit) else 0
  }

  function ExponentLength(s: Text): (n: nat)
    ensures n <= |s|
  {
    if s == [] || !Exponential(s[0]) then 0
    else
      var sign := if At(s, 1, 43) || At(s, 1, DASH) then 2 else 1;
      var digits := Run(s[sign..], Digit);
      if digits == 0 then 0 else sign + digits
  }

  /** Length of the dot and the digits that follow the digits at the front. */
  function FractionLength(s: Text): (n: nat)
    ensures Run(s, Digit) + n <= |s|
  {
    var whole := Run(s, Digit);
    if At(s, whole, DOT) then 1 + Run(s[whole + 1..], Digit) else 0
  }

  /** Length of the number at the front of a text that starts with a digit, or a dot and a digit. */
  function NumberLength(s: Text): (n: nat)
    requires s != [] && (Digit(s[0]) || (s[0] == DOT && |s| > 1 && Digit(s[1])))
    ensures 0 < n <= |s|
  {
    var mantissa := Run(s, Digit) + FractionLength(s);
    mantissa + ExponentLength(s[mantissa..])
  }

  /** Further units of an operator; it stops before a comment. */
  function OperatorLength(s: Text): (n: nat)
    ensures n <= |s|
  {
    if s == [] || s[0] !in OPERATORS || OpensLineComment(s) || OpensComment(s) then 0 else 1 + OperatorLength(s[1..])
  }

  /** Units taken without a token, or with one, and the lines the tokenizer counts over them. */
  datatype Step =
    | Skip(length: nat, lines: nat)
    | Emit(kind: Kind, value: Text, length: nat, lines: nat)
    | Unclosed(what: Open)

  function StringStep(kind: Kind, open: nat, scanned: Option<Scanned>, what: Open, s: Text): Step
    requires scanned.Some? ==> open + scanned.value.length <= |s|
  {
    if scanned.None? then Unclosed(what)
    else
      var length := open + scanned.value.length;
      Emit(kind, scanned.value.value, length, Newlines(s[..length]))
  }

  function BodyStep(tag: nat, s: Text): (step: Step)
    requires 0 < tag <= |s|
    ensures !step.Unclosed? ==> 0 < step.length <= |s|
  {
    var end := IndexOf(s[tag..], s[..tag]);
    if end.None? then Unclosed(OpenBody)
    else
      var length := tag + end.value + tag;
      Emit(StringText, s[tag..][..end.value], length, Newlines(s[..length]))
  }

  function PlainStep(kind: Kind, n: nat, s: Text): Step
    requires n <= |s|
  {
    Emit(kind, s[..n], n, 0)
  }

  /** The same where neither blanks, comments nor quotes are at the front. */
  function NextPlain(a: Alphabet, s: Text): (step: Step)
    requires s != []
    ensures !step.Unclosed? ==> 0 < step.length <= |s|
  {
    if TagLength(Window(s, 64)) > 0 then BodyStep(TagLength(Window(s, 64)), s)
    else if ParameterLength(Window(s, 12)) > 0 then PlainStep(Word, ParameterLength(Window(s, 12)), s)
    else if WordStart(a, s[0]) then
      var n := 1 + Run(s[1..], PartOf(a));
      Emit(Word, a.lower(s[..n]), n, 0)
    else if Digit(s[0]) || (s[0] == DOT && |s| > 1 && Digit(s[1])) then
      PlainStep(Number, NumberLength(Window(s, 64)), s)
    else if s[0] in PUNCTUATION then PlainStep(Punct, 1, s)
    else if s[0] in OPERATORS then PlainStep(Op, 1 + OperatorLength(s[1..]), s)
    else PlainStep(Op, 1, s)
  }

  /** What the tokenizer takes from the front of a text. */
  function Next(a: Alphabet, s: Text): (step: Step)
    requires s != []
    ensures !step.Unclosed? ==> 0 < step.length <= |s|
  {
    if s[0] == NEWLINE then Skip(1, 1)
    else if Blank(s[0]) then Skip(1, 0)
    else if OpensLineComment(s) then Skip(LineLength(s), 0)
    else if OpensComment(s) then
      var n := CommentLength(s, 0);
      if n.None? then Unclosed(OpenComment) else Skip(n.value, Newlines(s[..n.value]))
    else if Exponential(s[0]) && At(s, 1, QUOTE) then StringStep(StringText, 2, Escaped(s[2..]), OpenString, s)
    else if s[0] == QUOTE then StringStep(StringText, 1, Quoted(s[1..], QUOTE), OpenString, s)
    else if s[0] == DOUBLE_QUOTE then StringStep(QuotedName, 1, Quoted(s[1..], DOUBLE_QUOTE), OpenName, s)
    else NextPlain(a, s)
  }

  function Joined(done: seq<Token>, rest: Result<seq<Token>, Fault>): Result<seq<Token>, Fault> {
    if rest.Err? then rest else Ok(done + rest.value)
  }

  /** The tokens of a text that starts on this line. */
  function Tokens(a: Alphabet, s: Text, line: nat): Result<seq<Token>, Fault>
    decreases |s|
  {
    if s == [] then Ok([])
    else
      var step := Next(a, s);
      match step
      case Unclosed(what) => Err(Fault(what, line))
      case Skip(n, lines) => Tokens(a, s[n..], line + lines)
      case Emit(kind, value, n, lines) =>
        Joined([Token(kind, value, s[..n], line)], Tokens(a, s[n..], line + lines))
  }
}
