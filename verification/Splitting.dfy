/** Cutting token lists: statements at top-level semicolons, parts at top-level separators, groups in parentheses. */
module Splitting {
  import opened Options
  import opened Texts
  import opened Tokenizer

  predicate IsPunct(t: Token, value: Text) {
    t.kind == Punct && t.value == value
  }

  const LEFT: Text := [40]
  const RIGHT: Text := [41]
  const LEFT_SQUARE: Text := [91]
  const RIGHT_SQUARE: Text := [93]
  const SEMICOLON: Text := [59]

  const BEGIN: Text := [98, 101, 103, 105, 110]
  const ATOMIC: Text := [97, 116, 111, 109, 105, 99]
  const CASE: Text := [99, 97, 115, 101]
  const END: Text := [101, 110, 100]

  predicate IsWord(t: Token, value: Text) {
    t.kind == Word && t.value == value
  }

  // ------------------------------------------------------------------ statements

  datatype Statement = Statement(tokens: seq<Token>, line: nat)

  /** Open parentheses, whether an atomic body is open, and the `case` expressions open in it. */
  datatype Nesting = Nesting(depth: nat, atomic: bool, cases: nat)

  function Nest(n: Nesting, tokens: seq<Token>, k: nat): Nesting
    requires k < |tokens|
  {
    var t := tokens[k];
    if IsPunct(t, LEFT) then n.(depth := n.depth + 1)
    else if IsPunct(t, RIGHT) then n.(depth := if n.depth > 0 then n.depth - 1 else 0)
    else if t.kind != Word then n
    else if t.value == BEGIN && k + 1 < |tokens| && IsWord(tokens[k + 1], ATOMIC) then n.(atomic := true)
    else if n.atomic && t.value == CASE then n.(cases := n.cases + 1)
    else if n.atomic && t.value == END then if n.cases > 0 then n.(cases := n.cases - 1) else n.(atomic := false)
    else n
  }

  /** The nesting once the first `k` tokens are read. */
  function NestingAt(tokens: seq<Token>, k: nat): Nesting
    requires k <= |tokens|
  {
    if k == 0 then Nesting(0, false, 0) else Nest(NestingAt(tokens, k - 1), tokens, k - 1)
  }

  /** A semicolon outside parentheses and atomic bodies. */
  predicate Ends(tokens: seq<Token>, k: nat)
    requires k < |tokens|
  {
    IsPunct(tokens[k], SEMICOLON) && NestingAt(tokens, k + 1).depth == 0 && !NestingAt(tokens, k + 1).atomic
  }

  /** The first `k` tokens without the semicolons that end statements. */
  function Kept(tokens: seq<Token>, k: nat): seq<Token>
    requires k <= |tokens|
  {
    if k == 0 then [] else Kept(tokens, k - 1) + if Ends(tokens, k - 1) then [] else [tokens[k - 1]]
  }

  function Concatenated(statements: seq<Statement>): seq<Token> {
    if statements == [] then []
    else Concatenated(statements[..|statements| - 1]) + statements[|statements| - 1].tokens
  }

  datatype Span = Span(from: nat, to: nat)

  /** A nonempty run of tokens between ending semicolons, or the ends of the list, that holds none. */
  predicate StatementSpan(tokens: seq<Token>, s: Span) {
    && s.from < s.to <= |tokens|
    && (s.from == 0 || Ends(tokens, s.from - 1)) && (s.to == |tokens| || Ends(tokens, s.to))
    && forall k :: s.from <= k < s.to ==> !Ends(tokens, k)
  }

  predicate Covered(spans: seq<Span>, k: nat) {
    exists j :: 0 <= j < |spans| && spans[j].from <= k < spans[j].to
  }

  predicate InOrder(spans: seq<Span>) {
    forall j :: 0 < j < |spans| ==> spans[j - 1].to < spans[j].from
  }

  function StatementAt(tokens: seq<Token>, s: Span): Statement
    requires s.from < s.to <= |tokens|
  {
    Statement(tokens[s.from..s.to], tokens[s.from].line)
  }

  /** The statements found before this place, at their spans. */
  ghost predicate Cut(tokens: seq<Token>, statements: seq<Statement>, spans: seq<Span>, from: nat) {
    && |spans| == |statements| && InOrder(spans)
    && (spans != [] ==> spans[|spans| - 1].to < from)
    && (forall j :: 0 <= j < |spans| ==>
          StatementSpan(tokens, spans[j]) && statements[j] == StatementAt(tokens, spans[j]))
    && forall k :: 0 <= k < from && k < |tokens| ==> (Covered(spans, k) <==> !Ends(tokens, k))
  }

  lemma ReadIsSpan(tokens: seq<Token>, current: seq<Token>, span: Span)
    requires Reading(tokens, current, span.from, span.to) && current != []
    requires span.to == |tokens| || Ends(tokens, span.to)
    ensures StatementSpan(tokens, span) && StatementAt(tokens, span) == Statement(current, current[0].line)
  {
  }

  lemma CoverAfter(tokens: seq<Token>, statements: seq<Statement>, spans: seq<Span>, span: Span, k: nat)
    requires Cut(tokens, statements, spans, span.from) && StatementSpan(tokens, span)
    requires k < span.to + 1 && k < |tokens|
    ensures Covered(spans + [span], k) <==> !Ends(tokens, k)
  {
    CoverMore(spans, span);
    if span.from <= k {
      NotCoveredLater(tokens, statements, spans, span.from, k);
    }
  }

  lemma CutStatement(tokens: seq<Token>, statements: seq<Statement>, spans: seq<Span>, span: Span,
                     current: seq<Token>)
    requires Cut(tokens, statements, spans, span.from) && Reading(tokens, current, span.from, span.to)
    requires current != [] && (span.to == |tokens| || Ends(tokens, span.to))
    ensures Cut(tokens, statements + [Statement(current, current[0].line)], spans + [span], span.to + 1)
  {
    ReadIsSpan(tokens, current, span);
    hide Reading;
    forall k | 0 <= k < span.to + 1 && k < |tokens| ensures Covered(spans + [span], k) <==> !Ends(tokens, k) {
      CoverAfter(tokens, statements, spans, span, k);
    }
    hide Covered;
    hide Ends;
  }

  lemma CutNothing(tokens: seq<Token>, statements: seq<Statement>, spans: seq<Span>, from: nat, k: nat)
    requires Cut(tokens, statements, spans, from) && Reading(tokens, [], from, k)
    requires k < |tokens| && Ends(tokens, k)
    ensures Cut(tokens, statements, spans, k + 1)
  {
    NotCoveredLater(tokens, statements, spans, from, k);
  }

  lemma NotCoveredLater(tokens: seq<Token>, statements: seq<Statement>, spans: seq<Span>, from: nat, k: nat)
    requires Cut(tokens, statements, spans, from) && from <= k
    ensures !Covered(spans, k)
  {
    if j :| 0 <= j < |spans| && spans[j].from <= k < spans[j].to {
      EarlierEnds(tokens, statements, spans, from, j);
    }
  }

  lemma {:induction false} EarlierEnds(tokens: seq<Token>, statements: seq<Statement>, spans: seq<Span>, from: nat,
                                       j: nat)
    requires Cut(tokens, statements, spans, from) && j < |spans|
    ensures spans[j].to < from
    decreases |spans| - j
  {
    if j + 1 < |spans| {
      EarlierEnds(tokens, statements, spans, from, j + 1);
      assert spans[j + 1 - 1].to < spans[j + 1].from;
      assert StatementSpan(tokens, spans[j + 1]);
    }
  }

  /**
   The statements are exactly the longest nonempty runs without an ending semicolon, in order: nothing of the
   list is lost but those semicolons.
   */
  method SplitStatements(tokens: seq<Token>) returns (statements: seq<Statement>, ghost spans: seq<Span>)
    ensures |spans| == |statements| && InOrder(spans)
    ensures forall j :: 0 <= j < |spans| ==>
              StatementSpan(tokens, spans[j]) && statements[j] == StatementAt(tokens, spans[j])
    ensures forall k :: 0 <= k < |tokens| ==> (Covered(spans, k) <==> !Ends(tokens, k))
    ensures Concatenated(statements) == Kept(tokens, |tokens|)
  {
    hide *;
    statements, spans := [], [];
    var current: seq<Token> := [];
    var n := Nesting(0, false, 0);
    ghost var from := 0;
    NothingCut(tokens);
    for k := 0 to |tokens|
      invariant n == NestingAt(tokens, k)
      invariant Reading(tokens, current, from, k) && Cut(tokens, statements, spans, from)
      invariant Concatenated(statements) + current == Kept(tokens, k)
    {
      n := Nest(n, tokens, k);
      ReadNext(tokens, current, from, k);
      if IsPunct(tokens[k], SEMICOLON) && n.depth == 0 && !n.atomic {
        if |current| > 0 {
          CutStatement(tokens, statements, spans, Span(from, k), current);
          statements := Append(statements, Statement(current, current[0].line));
          spans := spans + [Span(from, k)];
        } else {
          CutNothing(tokens, statements, spans, from, k);
        }
        current, from := [], k + 1;
      } else {
        current := current + [tokens[k]];
      }
    }
    if |current| > 0 {
      CutStatement(tokens, statements, spans, Span(from, |tokens|), current);
      statements := Append(statements, Statement(current, current[0].line));
      spans := spans + [Span(from, |tokens|)];
    } else {
      NothingRead(tokens, from);
    }
    CutAll(tokens, statements, spans, if |current| > 0 then |tokens| + 1 else from);
  }

  /** The tokens read since the last ending semicolon. */
  ghost predicate Reading(tokens: seq<Token>, current: seq<Token>, from: nat, k: nat) {
    && from <= k <= |tokens| && current == tokens[from..k] && (from == 0 || Ends(tokens, from - 1))
    && forall m :: from <= m < k ==> !Ends(tokens, m)
  }

  lemma ReadNext(tokens: seq<Token>, current: seq<Token>, from: nat, k: nat)
    requires Reading(tokens, current, from, k) && k < |tokens|
    ensures NestingAt(tokens, k + 1) == Nest(NestingAt(tokens, k), tokens, k)
    ensures var n := NestingAt(tokens, k + 1);
            if IsPunct(tokens[k], SEMICOLON) && n.depth == 0 && !n.atomic
            then Ends(tokens, k) && Reading(tokens, [], k + 1, k + 1) && Kept(tokens, k + 1) == Kept(tokens, k)
            else Reading(tokens, current + [tokens[k]], from, k + 1)
                 && Kept(tokens, k + 1) == Kept(tokens, k) + [tokens[k]]
  {
    hide Nest;
    assert Kept(tokens, k) + [] == Kept(tokens, k);
  }

  lemma NothingRead(tokens: seq<Token>, from: nat)
    requires Reading(tokens, [], from, |tokens|)
    ensures from == |tokens|
  {
  }

  lemma CutAll(tokens: seq<Token>, statements: seq<Statement>, spans: seq<Span>, from: nat)
    requires Cut(tokens, statements, spans, from) && from >= |tokens|
    ensures |spans| == |statements| && InOrder(spans)
    ensures forall j :: 0 <= j < |spans| ==>
              StatementSpan(tokens, spans[j]) && statements[j] == StatementAt(tokens, spans[j])
    ensures forall k :: 0 <= k < |tokens| ==> (Covered(spans, k) <==> !Ends(tokens, k))
  {
  }

  lemma NothingCut(tokens: seq<Token>)
    ensures Cut(tokens, [], [], 0) && Reading(tokens, [], 0, 0)
    ensures NestingAt(tokens, 0) == Nesting(0, false, 0) && Concatenated([]) + [] == Kept(tokens, 0)
  {
  }

  function Append(statements: seq<Statement>, s: Statement): (r: seq<Statement>)
    ensures r == statements + [s] && Concatenated(r) == Concatenated(statements) + s.tokens
  {
    assert (statements + [s])[..|statements|] == statements;
    statements + [s]
  }

  lemma CoverMore(spans: seq<Span>, span: Span)
    ensures forall k: nat :: Covered(spans + [span], k) <==> Covered(spans, k) || span.from <= k < span.to
  {
    var more := spans + [span];
    forall k: nat ensures Covered(more, k) <==> Covered(spans, k) || span.from <= k < span.to {
      if Covered(spans, k) {
        var j :| 0 <= j < |spans| && spans[j].from <= k < spans[j].to;
        assert more[j] == spans[j];
      }
      if span.from <= k < span.to {
        assert more[|spans|] == span;
      }
    }
  }

  // ------------------------------------------------------------------ what depth 0 means

  function Parenthesis(t: Token): int {
    if IsPunct(t, LEFT) then 1 else if IsPunct(t, RIGHT) then -1 else 0
  }

  /** Opening less closing parentheses. */
  function Depth(tokens: seq<Token>): int {
    if tokens == [] then 0 else Depth(tokens[..|tokens| - 1]) + Parenthesis(tokens[|tokens| - 1])
  }

  /** Where no parenthesis closes more than was opened, the counted depth is opening less closing. */
  lemma {:induction false} DepthIsBalance(tokens: seq<Token>, k: nat)
    requires k <= |tokens| && forall m :: 0 <= m <= k ==> Depth(tokens[..m]) >= 0
    ensures NestingAt(tokens, k).depth == Depth(tokens[..k])
  {
    if k > 0 {
      DepthIsBalance(tokens, k - 1);
      assert tokens[..k][..k - 1] == tokens[..k - 1];
      assert Depth(tokens[..k]) == Depth(tokens[..k - 1]) + Parenthesis(tokens[k - 1]);
    }
  }

  function Casing(t: Token): int {
    if IsWord(t, CASE) then 1 else if IsWord(t, END) then -1 else 0
  }

  /** The words `case` less the words `end` between two places. */
  function CaseBalance(tokens: seq<Token>, from: nat, to: nat): int
    requires from <= to <= |tokens|
  {
    if from == to then 0 else CaseBalance(tokens, from, to - 1) + Casing(tokens[to - 1])
  }

  predicate BeginsAtomic(tokens: seq<Token>, k: nat) {
    k + 1 < |tokens| && IsWord(tokens[k], BEGIN) && IsWord(tokens[k + 1], ATOMIC)
  }

  /** Outside atomic bodies no `case` is counted. */
  lemma {:induction false} NoCasesOutside(tokens: seq<Token>, k: nat)
    requires k <= |tokens|
    ensures !NestingAt(tokens, k).atomic ==> NestingAt(tokens, k).cases == 0
  {
    if k > 0 {
      NoCasesOutside(tokens, k - 1);
    }
  }

  lemma {:induction false} InsideBody(tokens: seq<Token>, from: nat, k: nat)
    requires BeginsAtomic(tokens, from) && from < k <= |tokens|
    requires forall m :: from < m <= k ==> NestingAt(tokens, from).cases + CaseBalance(tokens, from, m) >= 0
    ensures NestingAt(tokens, k).atomic
    ensures NestingAt(tokens, k).cases == NestingAt(tokens, from).cases + CaseBalance(tokens, from, k)
  {
    if k == from + 1 {
      assert CaseBalance(tokens, from, from) == 0;
    } else {
      InsideBody(tokens, from, k - 1);
      OneMoreToken(tokens, from, k - 1);
    }
  }

  /**
   After `begin atomic` the body is open exactly until the first `end` that no `case` since then accounts for
   (nor one that was open before, when bodies nest), and nothing in it ends a statement.
   */
  lemma AtomicBodyIsWhole(tokens: seq<Token>, from: nat, k: nat)
    requires BeginsAtomic(tokens, from) && from < k <= |tokens|
    requires forall m :: from < m < k ==> NestingAt(tokens, from).cases + CaseBalance(tokens, from, m) >= 0
    ensures NestingAt(tokens, k).atomic <==> NestingAt(tokens, from).cases + CaseBalance(tokens, from, k) >= 0
    ensures !NestingAt(tokens, from).atomic ==> NestingAt(tokens, from).cases == 0
    ensures forall m :: from <= m < k ==> !Ends(tokens, m)
  {
    hide *;
    NoCasesOutside(tokens, from);
    BodyOpens(tokens, from);
    forall m | from < m < k ensures NestingAt(tokens, m).atomic && !Ends(tokens, m - 1) {
      InsideBody(tokens, from, m);
      InsideNothingEnds(tokens, m - 1);
    }
    if k > from + 1 {
      InsideBody(tokens, from, k - 1);
      OneMoreToken(tokens, from, k - 1);
    }
    InsideNothingEnds(tokens, k - 1);
  }

  lemma InsideNothingEnds(tokens: seq<Token>, k: nat)
    requires k < |tokens|
    ensures NestingAt(tokens, k + 1).atomic || IsWord(tokens[k], END) ==> !Ends(tokens, k)
  {
  }

  lemma BodyOpens(tokens: seq<Token>, from: nat)
    requires BeginsAtomic(tokens, from)
    ensures from + 1 <= |tokens| && NestingAt(tokens, from + 1).atomic && CaseBalance(tokens, from, from + 1) == 0
  {
    assert CaseBalance(tokens, from, from) == 0;
  }

  lemma OneMoreToken(tokens: seq<Token>, from: nat, k: nat)
    requires from < k < |tokens| && NestingAt(tokens, k).atomic
    requires NestingAt(tokens, k).cases == NestingAt(tokens, from).cases + CaseBalance(tokens, from, k)
    ensures NestingAt(tokens, k + 1).atomic <==>
              NestingAt(tokens, from).cases + CaseBalance(tokens, from, k + 1) >= 0
    ensures if NestingAt(tokens, k + 1).atomic
            then NestingAt(tokens, k + 1).cases == NestingAt(tokens, from).cases + CaseBalance(tokens, from, k + 1)
            else IsWord(tokens[k], END)
  {
  }

  /** Some `begin atomic` before this place has had as many `case` as `end` words since, or more, all along. */
  predicate InBody(tokens: seq<Token>, k: nat)
    requires k <= |tokens|
  {
    exists from: nat :: from < k && BeginsAtomic(tokens, from) && StaysOpen(tokens, from, k)
  }

  predicate StaysOpen(tokens: seq<Token>, from: nat, k: nat)
    requires from <= k <= |tokens|
  {
    forall m :: from < m <= k ==> CaseBalance(tokens, from, m) >= 0
  }

  /** The outermost body that is open here, and the `case` words counted in it. */
  lemma {:induction false} OuterBody(tokens: seq<Token>, k: nat) returns (from: nat)
    requires k <= |tokens| && NestingAt(tokens, k).atomic
    ensures from < k && BeginsAtomic(tokens, from) && StaysOpen(tokens, from, k)
    ensures NestingAt(tokens, from).cases == 0
    ensures NestingAt(tokens, k).cases == CaseBalance(tokens, from, k)
    decreases k
  {
    if NestingAt(tokens, k - 1).atomic {
      from := OuterBody(tokens, k - 1);
      OneMoreToken(tokens, from, k - 1);
    } else {
      from := k - 1;
      NoCasesOutside(tokens, k - 1);
      BodyOpens(tokens, from);
    }
  }

  /** An atomic body is open exactly between a `begin atomic` and the `end` of its own. */
  lemma AtomicExactly(tokens: seq<Token>, k: nat)
    requires k <= |tokens|
    ensures NestingAt(tokens, k).atomic <==> InBody(tokens, k)
  {
    if NestingAt(tokens, k).atomic {
      var from := OuterBody(tokens, k);
    }
    if from: nat :| from < k && BeginsAtomic(tokens, from) && StaysOpen(tokens, from, k) {
      InsideBody(tokens, from, k);
    }
  }

  /** The counted depth is the height of the balance above its lowest so far: what closes too much is forgotten. */
  lemma {:induction false} DepthAboveLowest(tokens: seq<Token>, k: nat) returns (low: nat)
    requires k <= |tokens|
    ensures low <= k && NestingAt(tokens, k).depth == Depth(tokens[..k]) - Depth(tokens[..low])
    ensures forall m :: 0 <= m <= k ==> Depth(tokens[..low]) <= Depth(tokens[..m])
  {
    if k == 0 {
      low := 0;
    } else {
      low := DepthAboveLowest(tokens, k - 1);
      assert tokens[..k][..k - 1] == tokens[..k - 1];
      assert Depth(tokens[..k]) == Depth(tokens[..k - 1]) + Parenthesis(tokens[k - 1]);
      if Depth(tokens[..k]) < Depth(tokens[..low]) {
        low := k;
      }
    }
  }

  /** The semicolons that end statements: those in no atomic body, with the balance at its lowest so far. */
  lemma EndsExactly(tokens: seq<Token>, k: nat)
    requires k < |tokens|
    ensures Ends(tokens, k) <==>
              && IsPunct(tokens[k], SEMICOLON) && !InBody(tokens, k + 1)
              && forall m :: 0 <= m <= k + 1 ==> Depth(tokens[..k + 1]) <= Depth(tokens[..m])
  {
    AtomicExactly(tokens, k + 1);
    var low := DepthAboveLowest(tokens, k + 1);
    assert tokens[..low] == tokens[..low];
  }

  // ------------------------------------------------------------------ parts at top-level separators

  function Bracket(t: Token): int {
    if IsPunct(t, LEFT) || IsPunct(t, LEFT_SQUARE) then 1
    else if IsPunct(t, RIGHT) || IsPunct(t, RIGHT_SQUARE) then -1
    else 0
  }

  /** Opening less closing brackets of both kinds. */
  function Level(tokens: seq<Token>): int {
    if tokens == [] then 0 else Level(tokens[..|tokens| - 1]) + Bracket(tokens[|tokens| - 1])
  }

  /** A separator of the list at its own level 0. */
  predicate Separates(tokens: seq<Token>, k: nat, separator: Text)
    requires k < |tokens|
  {
    IsPunct(tokens[k], separator) && Level(tokens[..k + 1]) == 0
  }

  predicate Uncut(part: seq<Token>, separator: Text) {
    forall k :: 0 <= k < |part| ==> !Separates(part, k, separator)
  }

  /** The parts with the separators put back between them. */
  function Rejoined(parts: seq<seq<Token>>, separators: seq<Token>): seq<Token>
    requires |parts| == |separators| + 1
  {
    if separators == [] then parts[0]
    else
      Rejoined(parts[..|parts| - 1], separators[..|separators| - 1])
      + [separators[|separators| - 1]] + parts[|parts| - 1]
  }

  lemma LevelStep(part: seq<Token>, t: Token)
    ensures Level(part + [t]) == Level(part) + Bracket(t)
  {
    assert (part + [t])[..|part|] == part;
  }

  lemma UncutStep(part: seq<Token>, t: Token, separator: Text)
    requires Uncut(part, separator) && !(IsPunct(t, separator) && Level(part + [t]) == 0)
    ensures Uncut(part + [t], separator)
  {
    var more := part + [t];
    forall k | 0 <= k < |more| ensures !Separates(more, k, separator) {
      if k < |part| {
        assert more[..k + 1] == part[..k + 1];
        assert !Separates(part, k, separator);
      } else {
        assert more[..k + 1] == more;
      }
    }
  }

  lemma RejoinStep(parts: seq<seq<Token>>, separators: seq<Token>, current: seq<Token>, t: Token)
    requires |parts| == |separators|
    ensures Rejoined(parts + [current + [t]], separators) == Rejoined(parts + [current], separators) + [t]
    ensures Rejoined(parts + [current] + [[]], separators + [t]) == Rejoined(parts + [current], separators) + [t]
  {
    assert (parts + [current + [t]])[..|parts|] == parts && (parts + [current])[..|parts|] == parts;
    var more := parts + [current] + [[]];
    assert more[..|parts| + 1] == parts + [current] && (separators + [t])[..|separators|] == separators;
    assert Rejoined(more, separators + [t]) == Rejoined(parts + [current], separators) + [t] + [];
  }

  /**
   No part holds a separator at its own level 0, every cut is at a separator there, and putting the separators
   back gives the list again.
   */
  method SplitTopLevel(tokens: seq<Token>, separator: Text)
    returns (parts: seq<seq<Token>>, ghost separators: seq<Token>)
    ensures tokens == [] <==> parts == []
    ensures tokens != [] ==> |parts| == |separators| + 1 && Rejoined(parts, separators) == tokens
    ensures forall j :: 0 <= j < |parts| ==> Uncut(parts[j], separator)
    ensures forall j :: 0 <= j < |separators| ==>
              j < |parts| && IsPunct(separators[j], separator) && Level(parts[j]) + Bracket(separators[j]) == 0
  {
    hide *;
    parts, separators := [], [];
    var current: seq<Token> := [];
    var depth := 0;
    NothingParted(separator);
    assert parts + [current] == [[]] && tokens[..0] == [];
    for i := 0 to |tokens|
      invariant depth == Level(current) && Uncut(current, separator) && Parted(parts, separators, separator)
      invariant |parts| == |separators| && Rejoined(parts + [current], separators) == tokens[..i]
      invariant i > 0 <==> current != [] || parts != []
    {
      var t := tokens[i];
      depth := depth + Bracket(t);
      LevelStep(current, t);
      PartedMore(parts, separators, separator, current, t);
      RejoinStep(parts, separators, current, t);
      assert tokens[..i + 1] == tokens[..i] + [t];
      if depth == 0 && IsPunct(t, separator) {
        parts, separators := parts + [current], separators + [t];
        current := [];
        NothingParted(separator);
      } else {
        UncutStep(current, t, separator);
        current := current + [t];
      }
    }
    assert tokens[..|tokens|] == tokens;
    PartedAll(parts, separators, separator);
    if |current| > 0 || |parts| > 0 {
      parts := parts + [current];
    }
  }

  /** Every part but the last, which is still being read, is uncut and ends at a separator at its own level 0. */
  ghost predicate Parted(parts: seq<seq<Token>>, separators: seq<Token>, separator: Text) {
    && |parts| == |separators|
    && forall j :: 0 <= j < |parts| ==>
         && Uncut(parts[j], separator)
         && IsPunct(separators[j], separator) && Level(parts[j]) + Bracket(separators[j]) == 0
  }

  lemma PartedMore(parts: seq<seq<Token>>, separators: seq<Token>, separator: Text, part: seq<Token>, t: Token)
    requires Parted(parts, separators, separator)
    ensures |parts| == |separators|
    ensures Uncut(part, separator) && IsPunct(t, separator) && Level(part) + Bracket(t) == 0
        ==> Parted(parts + [part], separators + [t], separator)
  {
  }

  lemma PartedAll(parts: seq<seq<Token>>, separators: seq<Token>, separator: Text)
    requires Parted(parts, separators, separator)
    ensures |parts| == |separators|
    ensures forall j :: 0 <= j < |parts| ==>
              && Uncut(parts[j], separator)
              && IsPunct(separators[j], separator) && Level(parts[j]) + Bracket(separators[j]) == 0
  {
  }

  lemma NothingParted(separator: Text)
    ensures Uncut([], separator) && Level([]) == 0
    ensures Parted([], [], separator) && Rejoined([[]], []) == []
  {
  }

  // ------------------------------------------------------------------ groups

  /** A parenthesized group closes at its last token and not before. */
  predicate ClosesAtEnd(tokens: seq<Token>) {
    tokens != [] && Depth(tokens) == 0 && forall m :: 0 < m < |tokens| ==> Depth(tokens[..m]) > 0
  }

  predicate NeverCloses(tokens: seq<Token>) {
    forall m :: 0 < m <= |tokens| ==> Depth(tokens[..m]) > 0
  }

  class Cursor {
    var i: nat
    const tokens: seq<Token>

    constructor (tokens: seq<Token>)
      ensures this.tokens == tokens && i == 0
    {
      this.tokens := tokens;
      i := 0;
    }

    /** The tokens inside the parenthesized group at the cursor, which moves past it; an open group runs to the end. */
    method Group() returns (inside: Option<seq<Token>>)
      modifies this
      ensures (inside.Some? <==> old(i) < |tokens| && IsPunct(tokens[old(i)], LEFT)) && (inside.None? ==> i == old(i))
      ensures inside.Some? ==> old(i) < i <= |tokens|
      ensures inside.Some? ==>
                || (ClosesAtEnd(tokens[old(i)..i]) && tokens[old(i) + 1..i] == inside.value + [tokens[i - 1]])
                || (i == |tokens| && NeverCloses(tokens[old(i)..]) && inside.value == tokens[old(i) + 1..])
    {
      if i >= |tokens| || !IsPunct(tokens[i], LEFT) {
        return None;
      }
      var start := i;
      var close := Close(start);
      hide *;
      if close.Some? {
        SliceMore(tokens, start + 1, close.value);
        i := close.value + 1;
        return Some(tokens[start + 1..close.value]);
      }
      i := |tokens|;
      return Some(tokens[start + 1..]);
    }

    /** The loop of the group: the place of the parenthesis that closes the one at `start`. */
    method Close(start: nat) returns (close: Option<nat>)
      requires start < |tokens| && IsPunct(tokens[start], LEFT)
      ensures close.Some? ==> start < close.value < |tokens| && ClosesAtEnd(tokens[start..close.value + 1])
      ensures close.None? ==> NeverCloses(tokens[start..])
    {
      var depth := 0;
      GroupOpens(tokens, start);
      hide *;
      for k := start to |tokens|
        invariant depth == Depth(tokens[start..k]) && NeverCloses(tokens[start..k])
      {
        SliceMore(tokens, start, k);
        SliceEmpty(tokens, start, k);
        DepthStep(tokens[start..k], tokens[k]);
        depth := depth + Parenthesis(tokens[k]);
        if depth == 0 && IsPunct(tokens[k], RIGHT) {
          assert k > start;
          return Some(k);
        }
      }
      return None;
    }
  }

  lemma SliceEmpty(tokens: seq<Token>, from: nat, k: nat)
    requires from <= k < |tokens|
    ensures tokens[from..k] == [] <==> from == k
  {
  }

  lemma SliceMore(tokens: seq<Token>, from: nat, k: nat)
    requires from <= k < |tokens|
    ensures tokens[from..k + 1] == tokens[from..k] + [tokens[k]]
  {
  }

  lemma GroupOpens(tokens: seq<Token>, start: nat)
    requires start < |tokens| && IsPunct(tokens[start], LEFT)
    ensures NeverCloses(tokens[start..start]) && Depth(tokens[start..start]) == 0
    ensures Parenthesis(tokens[start]) == 1 && tokens[start..|tokens|] == tokens[start..]
  {
  }

  lemma DepthOfNone()
    ensures Depth([]) == 0
  {
  }

  lemma DepthSnoc(before: seq<Token>, t: Token)
    ensures Depth(before + [t]) == Depth(before) + Parenthesis(t)
  {
    assert (before + [t])[..|before|] == before;
  }

  lemma DepthStep(before: seq<Token>, t: Token)
    requires NeverCloses(before) && (before == [] ==> IsPunct(t, LEFT))
    ensures Depth(before + [t]) == Depth(before) + Parenthesis(t)
    ensures if Depth(before + [t]) == 0 then ClosesAtEnd(before + [t]) && IsPunct(t, RIGHT)
            else NeverCloses(before + [t])
  {
    var after := before + [t];
    DepthOfNone();
    hide Depth;
    DepthSnoc(before, t);
    assert before[..|before|] == before && after[..|after|] == after;
    assert before != [] ==> Depth(before[..|before|]) > 0;
    forall m | 0 < m < |after| ensures Depth(after[..m]) > 0 {
      assert after[..m] == before[..m];
    }
  }

  // ------------------------------------------------------------------ the signs themselves

  /** The words and signs that cut statements and parts, spelled out: only as punctuation do signs nest or cut. */
  lemma CutsSpelled(t: Token, sign: Text)
    ensures BEGIN == Ascii("begin") && ATOMIC == Ascii("atomic")
    ensures Casing(t) == if t.kind.Word? && t.value == Ascii("case") then 1
                         else if t.kind.Word? && t.value == Ascii("end") then -1 else 0
    ensures SEMICOLON == Ascii(";") && (IsPunct(t, sign) <==> t.kind.Punct? && t.value == sign)
    ensures Parenthesis(t) == if t.kind.Punct? && t.value == Ascii("(") then 1
                              else if t.kind.Punct? && t.value == Ascii(")") then -1 else 0
    ensures Bracket(t) == if t.kind.Punct? && t.value in {Ascii("("), Ascii("[")} then 1
                          else if t.kind.Punct? && t.value in {Ascii(")"), Ascii("]")} then -1 else 0
  {
    assert Ascii("begin") == [98, 101, 103, 105, 110] && Ascii("atomic") == [97, 116, 111, 109, 105, 99];
    assert Ascii("case") == [99, 97, 115, 101] && Ascii("end") == [101, 110, 100];
    assert Ascii("(") == [40] && Ascii(")") == [41] && Ascii("[") == [91] && Ascii("]") == [93] && Ascii(";") == [59];
  }
}
