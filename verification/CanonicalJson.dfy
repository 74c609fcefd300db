/**
 The canonical JSON text behind every identity hash: arrays and objects without blanks, object keys in
 code-unit order, leaves as `JSON.stringify` writes them.

 A finite number is known by the digits the language prints for it; that printer is injective except for
 negative zero, which is printed like zero.
 */
module CanonicalJson {
  import opened Options
  import opened Texts

  const QUOTE: Unit := 34
  const COMMA: Unit := 44
  const COLON: Unit := 58
  const OPEN_ARRAY: Unit := 91
  const BACKSLASH: Unit := 92
  const CLOSE_ARRAY: Unit := 93
  const OPEN_OBJECT: Unit := 123
  const CLOSE_OBJECT: Unit := 125

  predicate NumberUnit(u: Unit) {
    48 <= u <= 57 || u == 43 || u == 45 || u == 46 || u == 101 // digits + - . e
  }

  predicate NumberText(t: Text) {
    t != [] && forall i :: 0 <= i < |t| ==> NumberUnit(t[i])
  }

  type Digits = t: Text | NumberText(t) witness [48]

  const ZERO: Digits := [48]

  /** `NotFinite` is NaN or an infinity. */
  datatype Number = Finite(digits: Digits) | NegativeZero | NotFinite

  datatype Value =
    | Undefined
    | Null
    | Bool(b: bool)
    | Num(n: Number)
    | Str(s: Text)
    | Arr(items: seq<Value>)
    | Obj(members: seq<Keyed<Value>>)

  // ------------------------------------------------------------------ strings

  function Hex(d: int): Unit
    requires 0 <= d < 16
  {
    if d < 10 then 48 + d else 87 + d
  }

  function EscapeHex(u: Unit): Text {
    [BACKSLASH, 117, Hex(u / 4096), Hex(u / 256 % 16), Hex(u / 16 % 16), Hex(u % 16)]
  }

  predicate High(u: Unit) {
    0xD800 <= u <= 0xDBFF
  }

  predicate Low(u: Unit) {
    0xDC00 <= u <= 0xDFFF
  }

  function EscapeUnit(u: Unit): Text {
    if u == QUOTE then [BACKSLASH, QUOTE]
    else if u == BACKSLASH then [BACKSLASH, BACKSLASH]
    else if u == 8 then [BACKSLASH, 98]
    else if u == 9 then [BACKSLASH, 116]
    else if u == 10 then [BACKSLASH, 110]
    else if u == 12 then [BACKSLASH, 102]
    else if u == 13 then [BACKSLASH, 114]
    else if u < 32 || High(u) || Low(u) then EscapeHex(u)
    else [u]
  }

  predicate PairFirst(s: Text) {
    |s| >= 2 && High(s[0]) && Low(s[1])
  }

  /** Units of the first character: a surrogate pair counts for one. */
  function FirstLength(s: Text): nat
    requires s != []
  {
    if PairFirst(s) then 2 else 1
  }

  function EscapeFirst(s: Text): Text
    requires s != []
  {
    if PairFirst(s) then s[..2] else EscapeUnit(s[0])
  }

  function Escape(s: Text): Text {
    if s == [] then [] else EscapeFirst(s) + Escape(s[FirstLength(s)..])
  }

  function Quote(s: Text): Text {
    [QUOTE] + Escape(s) + [QUOTE]
  }

  // ------------------------------------------------------------------ keys

  predicate Less(a: Text, b: Text) {
    b != [] && (a == [] || a[0] < b[0] || (a[0] == b[0] && Less(a[1..], b[1..])))
  }

  function Insert<T>(x: Keyed<T>, xs: seq<Keyed<T>>): seq<Keyed<T>> {
    if xs == [] || !Less(xs[0].key, x.key) then [x] + xs else [xs[0]] + Insert(x, xs[1..])
  }

  /** The members in the order of their keys. */
  function Sort<T>(xs: seq<Keyed<T>>): (ys: seq<Keyed<T>>)
    ensures |ys| == 0 <==> |xs| == 0
  {
    if xs == [] then [] else Insert(xs[0], Sort(xs[1..]))
  }

  // ------------------------------------------------------------------ canonical

  function NumberTextOf(n: Number): Text {
    match n
    case Finite(digits) => digits
    case NegativeZero => ZERO
    case NotFinite => [110, 117, 108, 108]
  }

  /** Texts separated by commas. */
  function Join(texts: seq<Text>): Text {
    if texts == [] then [] else texts[0] + Rest(texts[1..])
  }

  function Rest(texts: seq<Text>): Text {
    if texts == [] then [] else [COMMA] + texts[0] + Rest(texts[1..])
  }

  function MemberTexts(entries: seq<Keyed<Text>>): (texts: seq<Text>)
    ensures |texts| == |entries|
  {
    if entries == [] then []
    else [Quote(entries[0].key) + [COLON] + entries[0].value] + MemberTexts(entries[1..])
  }

  /** The canonical text, or nothing where the source throws: on a value that is or holds `undefined`. */
  function Canonical(v: Value): Option<Text> {
    match v
    case Undefined => None
    case Null => Some([110, 117, 108, 108])
    case Bool(b) => Some(if b then [116, 114, 117, 101] else [102, 97, 108, 115, 101])
    case Num(n) => Some(NumberTextOf(n))
    case Str(s) => Some(Quote(s))
    case Arr(items) =>
      var texts := CanonicalItems(items);
      if texts.None? then None else Some([OPEN_ARRAY] + Join(texts.value) + [CLOSE_ARRAY])
    case Obj(members) =>
      var entries := CanonicalMembers(members);
      if entries.None? then None else Some([OPEN_OBJECT] + Join(MemberTexts(Sort(entries.value))) + [CLOSE_OBJECT])
  }

  function CanonicalItems(items: seq<Value>): Option<seq<Text>> {
    if items == [] then Some([])
    else
      var first, rest := Canonical(items[0]), CanonicalItems(items[1..]);
      if first.None? || rest.None? then None else Some([first.value] + rest.value)
  }

  function CanonicalMembers(members: seq<Keyed<Value>>): Option<seq<Keyed<Text>>> {
    if members == [] then Some([])
    else
      var first, rest := Canonical(members[0].value), CanonicalMembers(members[1..]);
      if first.None? || rest.None? then None else Some([Keyed(members[0].key, first.value)] + rest.value)
  }

  // ------------------------------------------------------------------ what a value means

  predicate WellFormed(v: Value) {
    match v
    case Arr(items) => forall x :: x in items ==> WellFormed(x)
    case Obj(members) => DistinctKeys(members) && forall m :: m in members ==> WellFormed(m.value)
    case _ => true
  }

  predicate HasUndefined(v: Value) {
    match v
    case Undefined => true
    case Arr(items) => exists x :: x in items && HasUndefined(x)
    case Obj(members) => exists m :: m in members && HasUndefined(m.value)
    case _ => false
  }

  /** A value up to the order of keys, with the two zeros as one and without number for what is not finite. */
  datatype Sense =
    | NoSense
    | NullSense
    | BoolSense(b: bool)
    | NumSense(digits: Digits)
    | StrSense(s: Text)
    | ArrSense(items: seq<Sense>)
    | ObjSense(members: map<Text, Sense>)

  function Meaning(v: Value): Sense {
    match v
    case Undefined => NoSense
    case Null => NullSense
    case Bool(b) => BoolSense(b)
    case Num(Finite(digits)) => NumSense(digits)
    case Num(NegativeZero) => NumSense(ZERO)
    case Num(NotFinite) => NullSense
    case Str(s) => StrSense(s)
    case Arr(items) => ArrSense(ItemMeanings(items))
    case Obj(members) => ObjSense(MemberMeanings(members))
  }

  function ItemMeanings(items: seq<Value>): seq<Sense> {
    if items == [] then [] else [Meaning(items[0])] + ItemMeanings(items[1..])
  }

  function MemberMeanings(members: seq<Keyed<Value>>): map<Text, Sense> {
    if members == [] then map[] else MemberMeanings(members[1..])[members[0].key := Meaning(members[0].value)]
  }
}
