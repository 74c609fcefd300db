/** The canonical text decides identity: two values have one text exactly when they mean the same. */
module CanonicalIdentity {
  import opened Options
  import opened CanonicalJson
  import opened Texts
  import opened CanonicalText

  // ------------------------------------------------------------------ the order of keys

  lemma {:induction false} LessIsStrict(a: Text, b: Text)
    ensures !(Less(a, b) && Less(b, a)) && !Less(a, a)
    ensures Less(a, b) || Less(b, a) || a == b
    decreases |a| + |b|
  {
    if a != [] && b != [] && a[0] == b[0] {
      LessIsStrict(a[1..], b[1..]);
      assert a == [a[0]] + a[1..] && b == [b[0]] + b[1..];
    }
    LessIrreflexive(a);
  }

  lemma {:induction false} LessIrreflexive(a: Text)
    ensures !Less(a, a)
  {
    if a != [] {
      LessIrreflexive(a[1..]);
    }
  }

  lemma {:induction false} LessTransitive(a: Text, b: Text, c: Text)
    requires Less(a, b) && Less(b, c)
    ensures Less(a, c)
    decreases |a|
  {
    if a != [] && a[0] == b[0] && b[0] == c[0] {
      LessTransitive(a[1..], b[1..], c[1..]);
    }
  }

  /** The order of strings: at the first difference the one that ends, or has the smaller unit, comes first. */
  ghost predicate Precedes(a: Text, b: Text) {
    exists i :: 0 <= i <= |a| && i < |b| && a[..i] == b[..i] && (i == |a| || a[i] < b[i])
  }

  lemma {:induction false} LessIsFirstDifference(a: Text, b: Text)
    ensures Less(a, b) <==> Precedes(a, b)
  {
    if a != [] && b != [] && a[0] == b[0] {
      var x, y := a[1..], b[1..];
      LessIsFirstDifference(x, y);
      if i :| 0 <= i <= |x| && i < |y| && x[..i] == y[..i] && (i == |x| || x[i] < y[i]) {
        assert a[..i + 1] == [a[0]] + x[..i] && b[..i + 1] == [b[0]] + y[..i];
      }
      if i :| 0 <= i <= |a| && i < |b| && a[..i] == b[..i] && (i == |a| || a[i] < b[i]) {
        assert i > 0 && x[..i - 1] == a[..i][1..] && y[..i - 1] == b[..i][1..];
      }
    } else if b != [] {
      assert a[..0] == b[..0];
      forall i | 0 < i <= |a| && i < |b| ensures a[..i] != b[..i] {
        assert a[..i][0] == a[0] && b[..i][0] == b[0];
      }
    }
  }

  predicate Ascending<T>(xs: seq<Keyed<T>>) {
    forall i, j :: 0 <= i < j < |xs| ==> Less(xs[i].key, xs[j].key)
  }

  lemma {:induction false} InsertHas<T>(x: Keyed<T>, xs: seq<Keyed<T>>, y: Keyed<T>)
    ensures y in Insert(x, xs) <==> y == x || y in xs
  {
    if xs != [] && Less(xs[0].key, x.key) {
      InsertHas(x, xs[1..], y);
      assert xs == [xs[0]] + xs[1..];
    }
  }

  lemma TailIndex<T>(xs: seq<T>, y: T) returns (j: nat)
    requires xs != [] && y in xs[1..]
    ensures 0 < j < |xs| && xs[j] == y
  {
    var tail := xs[1..];
    var i: nat :| i < |tail| && tail[i] == y;
    j := i + 1;
  }

  lemma {:induction false} InsertAscends<T>(x: Keyed<T>, xs: seq<Keyed<T>>)
    requires Ascending(xs) && forall i :: 0 <= i < |xs| ==> xs[i].key != x.key
    ensures Ascending(Insert(x, xs))
  {
    if xs != [] {
      LessIsStrict(xs[0].key, x.key);
      if Less(xs[0].key, x.key) {
        var rest := Insert(x, xs[1..]);
        InsertAscends(x, xs[1..]);
        forall i | 0 <= i < |rest| ensures Less(xs[0].key, rest[i].key) {
          InsertHas(x, xs[1..], rest[i]);
          if rest[i] != x {
            var j := TailIndex(xs, rest[i]);
          }
        }
      } else {
        forall j | 0 < j < |xs| ensures Less(x.key, xs[j].key) {
          LessTransitive(x.key, xs[0].key, xs[j].key);
        }
      }
    }
  }

  lemma {:induction false} SortHas<T>(xs: seq<Keyed<T>>, y: Keyed<T>)
    ensures y in Sort(xs) <==> y in xs
  {
    if xs != [] {
      SortHas(xs[1..], y);
      InsertHas(xs[0], Sort(xs[1..]), y);
      assert xs == [xs[0]] + xs[1..];
    }
  }

  lemma SortedTailAvoids<T>(xs: seq<Keyed<T>>)
    requires DistinctKeys(xs) && xs != []
    ensures forall i :: 0 <= i < |Sort(xs[1..])| ==> Sort(xs[1..])[i].key != xs[0].key
  {
    var rest := Sort(xs[1..]);
    forall i | 0 <= i < |rest| ensures rest[i].key != xs[0].key {
      SortHas(xs[1..], rest[i]);
      var j := TailIndex(xs, rest[i]);
    }
  }

  lemma {:induction false} SortIsAscending<T>(xs: seq<Keyed<T>>)
    requires DistinctKeys(xs)
    ensures Ascending(Sort(xs))
  {
    if xs != [] {
      SortIsAscending(xs[1..]);
      SortedTailAvoids(xs);
      InsertAscends(xs[0], Sort(xs[1..]));
    }
  }

  lemma {:induction false} InsertPermutes<T>(x: Keyed<T>, xs: seq<Keyed<T>>)
    ensures multiset(Insert(x, xs)) == multiset(xs) + multiset{x}
  {
    if xs != [] && Less(xs[0].key, x.key) {
      InsertPermutes(x, xs[1..]);
      assert xs == [xs[0]] + xs[1..];
    }
  }

  lemma {:induction false} SortPermutes<T>(xs: seq<Keyed<T>>)
    ensures multiset(Sort(xs)) == multiset(xs)
  {
    if xs != [] {
      SortPermutes(xs[1..]);
      InsertPermutes(xs[0], Sort(xs[1..]));
      assert xs == [xs[0]] + xs[1..];
    }
  }

  /** Sorting permutes the members so that each key comes before the next ones, unit by unit. */
  lemma SortAscends<T>(xs: seq<Keyed<T>>)
    requires DistinctKeys(xs)
    ensures multiset(Sort(xs)) == multiset(xs)
    ensures forall i, j :: 0 <= i < j < |Sort(xs)| ==> Precedes(Sort(xs)[i].key, Sort(xs)[j].key)
  {
    SortPermutes(xs);
    SortIsAscending(xs);
    forall i, j | 0 <= i < j < |Sort(xs)| ensures Precedes(Sort(xs)[i].key, Sort(xs)[j].key) {
      LessIsFirstDifference(Sort(xs)[i].key, Sort(xs)[j].key);
    }
  }

  // ------------------------------------------------------------------ values as trees

  function TreeOf(v: Value): Tree {
    match v
    case Undefined => NullTree
    case Null => NullTree
    case Bool(b) => BoolTree(b)
    case Num(Finite(digits)) => NumTree(digits)
    case Num(NegativeZero) => NumTree(ZERO)
    case Num(NotFinite) => NullTree
    case Str(s) => StrTree(s)
    case Arr(items) => ArrTree(ItemTrees(items))
    case Obj(members) => ObjTree(Sort(MemberTrees(members)))
  }

  function ItemTrees(items: seq<Value>): seq<Tree> {
    if items == [] then [] else [TreeOf(items[0])] + ItemTrees(items[1..])
  }

  function MemberTrees(members: seq<Keyed<Value>>): (trees: seq<Keyed<Tree>>)
    ensures |trees| == |members| && forall i :: 0 <= i < |trees| ==> trees[i].key == members[i].key
  {
    if members == [] then []
    else [Keyed(members[0].key, TreeOf(members[0].value))] + MemberTrees(members[1..])
  }

  lemma {:induction false} InsertPrints(x: Keyed<Tree>, xs: seq<Keyed<Tree>>)
    ensures PrintMembers(Insert(x, xs)) == Insert(Keyed(x.key, Print(x.value)), PrintMembers(xs))
  {
    if xs != [] && Less(xs[0].key, x.key) {
      InsertPrints(x, xs[1..]);
      assert PrintMembers(xs)[1..] == PrintMembers(xs[1..]);
      assert Insert(x, xs)[1..] == Insert(x, xs[1..]);
    } else {
      assert ([x] + xs)[1..] == xs;
    }
  }

  /** Sorting by key and printing the values commute. */
  lemma {:induction false} SortPrints(xs: seq<Keyed<Tree>>)
    ensures PrintMembers(Sort(xs)) == Sort(PrintMembers(xs))
  {
    if xs != [] {
      SortPrints(xs[1..]);
      InsertPrints(xs[0], Sort(xs[1..]));
      assert PrintMembers(xs)[1..] == PrintMembers(xs[1..]);
    }
  }

  /** The canonical text is the print of the tree; there is none exactly where the source throws. */
  lemma {:induction false} CanonicalIsPrint(v: Value)
    ensures Canonical(v) == if HasUndefined(v) then None else Some(Print(TreeOf(v)))
    decreases v, 1
  {
    match v
    case Arr(items) => ItemsArePrinted(items);
    case Obj(members) =>
      MembersArePrinted(members);
      SortPrints(MemberTrees(members));
    case _ =>
  }

  lemma {:induction false} ItemsArePrinted(items: seq<Value>)
    ensures CanonicalItems(items)
         == if exists x :: x in items && HasUndefined(x) then None else Some(PrintItems(ItemTrees(items)))
    decreases items, 0
  {
    if items != [] {
      CanonicalIsPrint(items[0]);
      ItemsArePrinted(items[1..]);
      assert items == [items[0]] + items[1..];
    }
  }

  lemma {:induction false} MembersArePrinted(members: seq<Keyed<Value>>)
    ensures CanonicalMembers(members)
         == if exists m :: m in members && HasUndefined(m.value) then None else Some(PrintMembers(MemberTrees(members)))
    decreases members, 0
  {
    if members != [] {
      CanonicalIsPrint(members[0].value);
      MembersArePrinted(members[1..]);
      assert members == [members[0]] + members[1..];
      assert MemberTrees(members)[1..] == MemberTrees(members[1..]);
    }
  }

  // ------------------------------------------------------------------ trees and meanings

  function SenseOf(t: Tree): Sense {
    match t
    case NullTree => NullSense
    case BoolTree(b) => BoolSense(b)
    case NumTree(digits) => NumSense(digits)
    case StrTree(s) => StrSense(s)
    case ArrTree(items) => ArrSense(ItemSenses(items))
    case ObjTree(members) => ObjSense(MemberSenses(members))
  }

  function ItemSenses(items: seq<Tree>): (senses: seq<Sense>)
    ensures |senses| == |items|
  {
    if items == [] then [] else [SenseOf(items[0])] + ItemSenses(items[1..])
  }

  function MemberSenses(members: seq<Keyed<Tree>>): map<Text, Sense> {
    if members == [] then map[] else MemberSenses(members[1..])[members[0].key := SenseOf(members[0].value)]
  }

  lemma {:induction false} SenseKeys(members: seq<Keyed<Tree>>, k: Text)
    ensures k in MemberSenses(members) <==> exists i :: 0 <= i < |members| && members[i].key == k
  {
    if members != [] {
      SenseKeys(members[1..], k);
      if k in MemberSenses(members[1..]) {
        var i :| 0 <= i < |members[1..]| && members[1..][i].key == k;
        assert members[i + 1].key == k;
      }
      if i :| 0 < i < |members| && members[i].key == k {
        assert members[1..][i - 1].key == k;
      }
    }
  }

  lemma {:induction false} InsertSenses(x: Keyed<Tree>, xs: seq<Keyed<Tree>>)
    requires forall i :: 0 <= i < |xs| ==> xs[i].key != x.key
    ensures MemberSenses(Insert(x, xs)) == MemberSenses(xs)[x.key := SenseOf(x.value)]
  {
    if xs != [] && Less(xs[0].key, x.key) {
      InsertSenses(x, xs[1..]);
      assert xs[0].key != x.key;
      assert Insert(x, xs)[1..] == Insert(x, xs[1..]);
    } else {
      assert ([x] + xs)[1..] == xs;
    }
  }

  lemma {:induction false} SortSenses(xs: seq<Keyed<Tree>>)
    requires DistinctKeys(xs)
    ensures MemberSenses(Sort(xs)) == MemberSenses(xs)
  {
    if xs != [] {
      SortSenses(xs[1..]);
      SortedTailAvoids(xs);
      InsertSenses(xs[0], Sort(xs[1..]));
    }
  }

  lemma {:induction false} TreeKeepsMeaning(v: Value)
    requires WellFormed(v) && !HasUndefined(v)
    ensures Meaning(v) == SenseOf(TreeOf(v))
    decreases v, 1
  {
    match v
    case Arr(items) => ItemsKeepMeaning(items);
    case Obj(members) =>
      MembersKeepMeaning(members);
      SortSenses(MemberTrees(members));
    case _ =>
  }

  lemma {:induction false} ItemsKeepMeaning(items: seq<Value>)
    requires forall x :: x in items ==> WellFormed(x) && !HasUndefined(x)
    ensures ItemMeanings(items) == ItemSenses(ItemTrees(items))
    decreases items, 0
  {
    if items != [] {
      TreeKeepsMeaning(items[0]);
      ItemsKeepMeaning(items[1..]);
      assert ItemTrees(items)[1..] == ItemTrees(items[1..]);
    }
  }

  lemma {:induction false} MembersKeepMeaning(members: seq<Keyed<Value>>)
    requires forall m :: m in members ==> WellFormed(m.value) && !HasUndefined(m.value)
    ensures MemberMeanings(members) == MemberSenses(MemberTrees(members))
    decreases members, 0
  {
    if members != [] {
      TreeKeepsMeaning(members[0].value);
      MembersKeepMeaning(members[1..]);
      assert MemberTrees(members)[1..] == MemberTrees(members[1..]);
    }
  }

  /** Keys ascend in every object of the tree. */
  predicate Ordered(t: Tree) {
    match t
    case ArrTree(items) => forall x :: x in items ==> Ordered(x)
    case ObjTree(members) => Ascending(members) && forall m :: m in members ==> Ordered(m.value)
    case _ => true
  }

  lemma {:induction false} TreeIsOrdered(v: Value)
    requires WellFormed(v)
    ensures Ordered(TreeOf(v))
    decreases v, 1
  {
    match v
    case Arr(items) => ItemsAreOrdered(items);
    case Obj(members) =>
      MembersAreOrdered(members);
      var trees := MemberTrees(members);
      SortIsAscending(trees);
      forall m | m in Sort(trees) ensures Ordered(m.value) {
        SortHas(trees, m);
      }
    case _ =>
  }

  lemma {:induction false} ItemsAreOrdered(items: seq<Value>)
    requires forall x :: x in items ==> WellFormed(x)
    ensures forall t :: t in ItemTrees(items) ==> Ordered(t)
    decreases items, 0
  {
    if items != [] {
      TreeIsOrdered(items[0]);
      ItemsAreOrdered(items[1..]);
    }
  }

  lemma {:induction false} MembersAreOrdered(members: seq<Keyed<Value>>)
    requires forall m :: m in members ==> WellFormed(m.value)
    ensures forall m :: m in MemberTrees(members) ==> Ordered(m.value)
    decreases members, 0
  {
    if members != [] {
      TreeIsOrdered(members[0].value);
      MembersAreOrdered(members[1..]);
    }
  }

  /** An ordered tree is known by what it means. */
  lemma {:induction false} SenseInjective(t: Tree, u: Tree)
    requires Ordered(t) && Ordered(u) && SenseOf(t) == SenseOf(u)
    ensures t == u
    decreases t, 1
  {
    match t
    case ArrTree(items) => ItemSensesInjective(items, u.items);
    case ObjTree(members) => MemberSensesInjective(members, u.members);
    case _ =>
  }

  lemma {:induction false} ItemSensesInjective(xs: seq<Tree>, ys: seq<Tree>)
    requires (forall x :: x in xs ==> Ordered(x)) && (forall y :: y in ys ==> Ordered(y))
    requires ItemSenses(xs) == ItemSenses(ys)
    ensures xs == ys
    decreases xs, 0
  {
    assert |ItemSenses(xs)| == |ItemSenses(ys)|;
    if xs != [] {
      assert ItemSenses(xs)[0] == ItemSenses(ys)[0];
      assert ItemSenses(xs)[1..] == ItemSenses(xs[1..]) && ItemSenses(ys)[1..] == ItemSenses(ys[1..]);
      SenseInjective(xs[0], ys[0]);
      ItemSensesInjective(xs[1..], ys[1..]);
      assert xs == [xs[0]] + xs[1..] && ys == [ys[0]] + ys[1..];
    }
  }

  /** The first key of an ascending list is below every other key, so it is not among them. */
  lemma FirstKeyAlone(xs: seq<Keyed<Tree>>)
    requires Ascending(xs) && xs != []
    ensures MemberSenses(xs[1..]) == MemberSenses(xs) - {xs[0].key}
  {
    SenseKeys(xs[1..], xs[0].key);
    LessIsStrict(xs[0].key, xs[0].key);
    assert forall i :: 0 <= i < |xs[1..]| ==> xs[1..][i] == xs[i + 1];
  }

  lemma FirstKeyLeast(xs: seq<Keyed<Tree>>, k: Text)
    requires Ascending(xs) && k in MemberSenses(xs)
    ensures xs != [] && (k == xs[0].key || Less(xs[0].key, k))
  {
    SenseKeys(xs, k);
  }

  lemma {:induction false} MemberSensesInjective(xs: seq<Keyed<Tree>>, ys: seq<Keyed<Tree>>)
    requires Ascending(xs) && Ascending(ys)
    requires (forall x :: x in xs ==> Ordered(x.value)) && (forall y :: y in ys ==> Ordered(y.value))
    requires MemberSenses(xs) == MemberSenses(ys)
    ensures xs == ys
    decreases xs, 0
  {
    if xs != [] {
      FirstKeyLeast(ys, xs[0].key);
      FirstKeyLeast(xs, ys[0].key);
      LessIsStrict(xs[0].key, ys[0].key);
      assert MemberSenses(xs)[xs[0].key] == SenseOf(xs[0].value);
      assert MemberSenses(ys)[ys[0].key] == SenseOf(ys[0].value);
      assert xs[0] in xs && ys[0] in ys;
      SenseInjective(xs[0].value, ys[0].value);
      FirstKeyAlone(xs);
      FirstKeyAlone(ys);
      MemberSensesInjective(xs[1..], ys[1..]);
      assert xs == [xs[0]] + xs[1..] && ys == [ys[0]] + ys[1..];
    } else if ys != [] {
      FirstKeyLeast(xs, ys[0].key);
    }
  }

  // ------------------------------------------------------------------ theorem

  /**
   The canonical text exists exactly for values without `undefined`, and two such values have the same text
   exactly when they are equal up to key order, the sign of zero, and numbers that are not finite as null.
   */
  lemma CanonicalDecidesIdentity(a: Value, b: Value)
    requires WellFormed(a) && WellFormed(b)
    ensures Canonical(a).None? <==> HasUndefined(a)
    ensures Canonical(a).Some? && Canonical(b).Some? ==> (Canonical(a) == Canonical(b) <==> Meaning(a) == Meaning(b))
  {
    CanonicalIsPrint(a);
    CanonicalIsPrint(b);
    if !HasUndefined(a) && !HasUndefined(b) {
      TreeKeepsMeaning(a);
      TreeKeepsMeaning(b);
      TreeIsOrdered(a);
      TreeIsOrdered(b);
      if Canonical(a) == Canonical(b) {
        PrintInjective(TreeOf(a), TreeOf(b));
      }
      if Meaning(a) == Meaning(b) {
        SenseInjective(TreeOf(a), TreeOf(b));
      }
    }
  }
}
