/** Python's ordering of tuples and strings, and the stable sort built on it.

    Every canonical order in the program compares tuples of strings and
    integers from left to right.  `Lex` is that comparison over any strict
    total order of the elements; it serves strings (over characters), keys
    (over atoms) and call paths (over edges). */
module Ordering {

  datatype Option<+T> = None | Some(value: T)

  /** One component of a comparison key. Keys compared with each other carry
      the same kind of component at every position up to their first
      difference, so the order chosen between the two kinds is never observed. */
  datatype Atom = Num(n: int) | Text(s: string)

  type Key = seq<Atom>

  ghost predicate StrictTotal<T(!new)>(less: (T, T) -> bool) {
    && (forall x :: !less(x, x))
    && (forall x, y, z :: less(x, y) && less(y, z) ==> less(x, z))
    && (forall x, y :: less(x, y) || x == y || less(y, x))
  }

  predicate Lex<T(==)>(less: (T, T) -> bool, a: seq<T>, b: seq<T>) {
    if b == [] then false
    else if a == [] then true
    else less(a[0], b[0]) || (a[0] == b[0] && Lex(less, a[1..], b[1..]))
  }

  predicate CharLess(x: char, y: char) { x < y }

  predicate StringLess(a: string, b: string) { Lex(CharLess, a, b) }

  predicate AtomLess(x: Atom, y: Atom) {
    match (x, y)
    case (Num(m), Num(n)) => m < n
    case (Text(s), Text(t)) => StringLess(s, t)
    case (Num(_), Text(_)) => true
    case (Text(_), Num(_)) => false
  }

  predicate KeyLess(a: Key, b: Key) { Lex(AtomLess, a, b) }

  lemma {:induction false} LexIrreflexive<T(!new)>(less: (T, T) -> bool, a: seq<T>)
    requires StrictTotal(less)
    ensures !Lex(less, a, a)
  {
    if a != [] { LexIrreflexive(less, a[1..]); }
  }

  lemma {:induction false} LexTransitive<T(!new)>(less: (T, T) -> bool, a: seq<T>, b: seq<T>, c: seq<T>)
    requires StrictTotal(less)
    requires Lex(less, a, b) && Lex(less, b, c)
    ensures Lex(less, a, c)
  {
    if a != [] && a[0] == b[0] && b[0] == c[0] {
      LexTransitive(less, a[1..], b[1..], c[1..]);
    }
  }

  lemma {:induction false} LexTotal<T(!new)>(less: (T, T) -> bool, a: seq<T>, b: seq<T>)
    requires StrictTotal(less)
    ensures Lex(less, a, b) || a == b || Lex(less, b, a)
  {
    if a != [] && b != [] && a[0] == b[0] {
      LexTotal(less, a[1..], b[1..]);
      assert a == [a[0]] + a[1..] && b == [b[0]] + b[1..];
    }
  }

  lemma StringOrder()
    ensures StrictTotal(StringLess)
  {
    forall a: string ensures !StringLess(a, a) { LexIrreflexive(CharLess, a); }
    forall a: string, b: string, c: string | StringLess(a, b) && StringLess(b, c) ensures StringLess(a, c) {
      LexTransitive(CharLess, a, b, c);
    }
    forall a: string, b: string ensures StringLess(a, b) || a == b || StringLess(b, a) { LexTotal(CharLess, a, b); }
  }

  lemma AtomOrder()
    ensures StrictTotal(AtomLess)
  {
    StringOrder();
  }

  lemma KeyOrder()
    ensures StrictTotal(KeyLess)
  {
    AtomOrder();
    forall a: Key ensures !KeyLess(a, a) { LexIrreflexive(AtomLess, a); }
    forall a: Key, b: Key, c: Key | KeyLess(a, b) && KeyLess(b, c) ensures KeyLess(a, c) {
      LexTransitive(AtomLess, a, b, c);
    }
    forall a: Key, b: Key ensures KeyLess(a, b) || a == b || KeyLess(b, a) { LexTotal(AtomLess, a, b); }
  }

  /** A common head never decides a comparison. */
  lemma {:induction false} LexCommonPrefix<T(!new)>(less: (T, T) -> bool, p: seq<T>, a: seq<T>, b: seq<T>)
    requires StrictTotal(less)
    ensures Lex(less, p + a, p + b) <==> Lex(less, a, b)
  {
    if p == [] {
      assert p + a == a && p + b == b;
    } else {
      assert (p + a)[1..] == p[1..] + a && (p + b)[1..] == p[1..] + b;
      LexCommonPrefix(less, p[1..], a, b);
    }
  }

  /** Comparing what is put together part by part: the first part that differs decides. */
  lemma {:induction false} LexSplit<T(!new)>(less: (T, T) -> bool, a: seq<T>, b: seq<T>, x: seq<T>, y: seq<T>)
    requires |a| == |b|
    ensures Lex(less, a + x, b + y) <==> Lex(less, a, b) || (a == b && Lex(less, x, y))
  {
    if a == [] {
      assert a + x == x && b + y == y;
    } else {
      assert (a + x)[1..] == a[1..] + x && (b + y)[1..] == b[1..] + y;
      assert a == b <==> a[0] == b[0] && a[1..] == b[1..] by { assert a == [a[0]] + a[1..] && b == [b[0]] + b[1..]; }
      LexSplit(less, a[1..], b[1..], x, y);
    }
  }

  /** Keys put together from parts of one length compare by the first part that differs. */
  lemma PartsDecide(a: Key, b: Key, x: Key, y: Key)
    requires |a| == |b|
    ensures KeyLess(a + x, b + y) <==> if a != b then KeyLess(a, b) else KeyLess(x, y)
  {
    AtomOrder();
    LexSplit(AtomLess, a, b, x, y);
    if a == b { LexIrreflexive(AtomLess, a); }
  }

  /** At any place, a difference decides, and without one the rest does. */
  lemma DecidesAt(k: Key, l: Key, i: nat)
    requires i < |k| && i < |l|
    ensures KeyLess(k[i..], l[i..]) <==>
            if k[i] != l[i] then AtomLess(k[i], l[i]) else KeyLess(k[i + 1..], l[i + 1..])
  {
    AtomOrder();
    assert k[i..][1..] == k[i + 1..] && l[i..][1..] == l[i + 1..];
  }

  lemma FourDecide(k: Key, l: Key)
    requires |k| == |l| == 4
    ensures KeyLess(k, l) <==>
            if k[0] != l[0] then AtomLess(k[0], l[0])
            else if k[1] != l[1] then AtomLess(k[1], l[1])
            else if k[2] != l[2] then AtomLess(k[2], l[2])
            else AtomLess(k[3], l[3])
  {
    hide KeyLess, AtomLess;
    assert k[0..] == k && l[0..] == l && k[4..] == l[4..];
    DecidesAt(k, l, 0);
    DecidesAt(k, l, 1);
    DecidesAt(k, l, 2);
    DecidesAt(k, l, 3);
    AtomOrder();
    KeyOrder();
  }

  /** Between sequences of equal length, a difference decides whatever follows. */
  lemma {:induction false} LexExtends<T(!new)>(less: (T, T) -> bool, a: seq<T>, b: seq<T>, x: seq<T>, y: seq<T>)
    requires StrictTotal(less)
    requires |a| == |b| && Lex(less, a, b)
    ensures Lex(less, a + x, b + y)
  {
    assert (a + x)[0] == a[0] && (b + y)[0] == b[0];
    if a[0] == b[0] {
      assert (a + x)[1..] == a[1..] + x && (b + y)[1..] == b[1..] + y;
      LexExtends(less, a[1..], b[1..], x, y);
    }
  }

  function Min(a: int, b: int): int { if a < b then a else b }

  function Max(a: nat, b: nat): nat { if a < b then b else a }

  // ----- Sorting -----

  ghost predicate SortedBy<T>(less: (T, T) -> bool, s: seq<T>) {
    forall i, j :: 0 <= i < j < |s| ==> !less(s[j], s[i])
  }

  function Insert<T>(less: (T, T) -> bool, x: T, s: seq<T>): (r: seq<T>)
    ensures multiset(r) == multiset{x} + multiset(s)
  {
    if s == [] || !less(s[0], x) then
      [x] + s
    else
      assert s == [s[0]] + s[1..];
      [s[0]] + Insert(less, x, s[1..])
  }

  /** Stable insertion sort: the observable meaning of Python's `sorted`. */
  function Sort<T>(less: (T, T) -> bool, s: seq<T>): (r: seq<T>)
    ensures multiset(r) == multiset(s)
  {
    if s == [] then []
    else
      assert s == [s[0]] + s[1..];
      Insert(less, s[0], Sort(less, s[1..]))
  }

  /** A strict order in which incomparable elements may differ, such as "by value" over tagged values. */
  ghost predicate StrictWeak<T(!new)>(less: (T, T) -> bool) {
    && (forall x :: !less(x, x))
    && (forall x, y, z :: less(x, y) && less(y, z) ==> less(x, z))
    && (forall x, y, z {:trigger less(x, y), less(x, z)} :: less(x, y) ==> less(x, z) || less(z, y))
  }

  lemma ConsSorted<T>(less: (T, T) -> bool, x: T, s: seq<T>)
    requires SortedBy(less, s) && forall k :: 0 <= k < |s| ==> !less(s[k], x)
    ensures SortedBy(less, [x] + s)
  {
  }

  lemma TailSorted<T>(less: (T, T) -> bool, s: seq<T>)
    requires SortedBy(less, s) && s != []
    ensures SortedBy(less, s[1..]) && forall k :: 0 <= k < |s[1..]| ==> !less(s[1..][k], s[0])
  {
  }

  lemma {:induction false} InsertSorted<T(!new)>(less: (T, T) -> bool, x: T, s: seq<T>)
    requires StrictWeak(less) && SortedBy(less, s)
    ensures SortedBy(less, Insert(less, x, s))
  {
    hide SortedBy;
    if s == [] {
      ConsSorted(less, x, s);
    } else {
      TailSorted(less, s);
      if !less(s[0], x) {
        forall k | 0 <= k < |s| ensures !less(s[k], x) {
          if k > 0 { assert s[k] == s[1..][k - 1]; }
        }
        ConsSorted(less, x, s);
      } else {
        var t := Insert(less, x, s[1..]);
        InsertSorted(less, x, s[1..]);
        forall k | 0 <= k < |t| ensures !less(t[k], s[0]) {
          assert t[k] in multiset(t);
          if t[k] != x { assert t[k] in s[1..]; }
        }
        ConsSorted(less, s[0], t);
      }
    }
  }

  lemma {:induction false} SortIsSorted<T(!new)>(less: (T, T) -> bool, s: seq<T>)
    requires StrictWeak(less)
    ensures SortedBy(less, Sort(less, s))
  {
    if s != [] {
      SortIsSorted(less, s[1..]);
      InsertSorted(less, s[0], Sort(less, s[1..]));
    }
  }

  lemma TotalIsWeak<T(!new)>(less: (T, T) -> bool)
    requires StrictTotal(less)
    ensures StrictWeak(less)
  {
  }

  ghost predicate NoDuplicates<T>(s: seq<T>) {
    forall i, j :: 0 <= i < j < |s| ==> s[i] != s[j]
  }

  lemma SameMembers<T>(a: seq<T>, b: seq<T>)
    requires multiset(a) == multiset(b)
    ensures forall x :: x in a <==> x in b
    ensures |a| == |b|
  {
    assert forall x :: x in a <==> x in multiset(a);
    assert forall x :: x in b <==> x in multiset(b);
    assert |a| == |multiset(a)| == |multiset(b)| == |b|;
  }

  /** The last element of one ordering occurs in any other, and removing it there leaves a reordering of the rest. */
  lemma RemoveLast<T>(s: seq<T>, t: seq<T>) returns (k: nat)
    requires s != [] && multiset(s) == multiset(t)
    ensures k < |t| && t[k] == s[|s| - 1]
    ensures t == t[..k] + [t[k]] + t[k + 1..]
    ensures multiset(s[..|s| - 1]) == multiset(t[..k] + t[k + 1..])
  {
    var x := s[|s| - 1];
    assert s == s[..|s| - 1] + [x];
    assert x in multiset(t);
    k :| 0 <= k < |t| && t[k] == x;
    assert t == t[..k] + [x] + t[k + 1..];
    assert multiset(t) == multiset(t[..k]) + multiset{x} + multiset(t[k + 1..]);
    assert multiset(s) == multiset(s[..|s| - 1]) + multiset{x};
    assert multiset(t[..k] + t[k + 1..]) == multiset(t[..k]) + multiset(t[k + 1..]) == multiset(t) - multiset{x};
    assert multiset(s[..|s| - 1]) == multiset(s) - multiset{x};
  }

  lemma DistinctStep<T>(s: seq<T>)
    requires s != []
    ensures NoDuplicates(s) <==> s[0] !in s[1..] && NoDuplicates(s[1..])
  {
    var t := s[1..];
    if s[0] !in t && NoDuplicates(t) {
      forall i, j | 0 <= i < j < |s| ensures s[i] != s[j] {
        assert s[j] == t[j - 1];
        if i > 0 { assert s[i] == t[i - 1]; }
      }
    }
  }

  lemma CountsStep<T>(s: seq<T>, x: T)
    requires s != []
    ensures multiset(s)[x] == (if x == s[0] then 1 else 0) + multiset(s[1..])[x]
    ensures multiset(s[1..])[x] > 0 <==> x in s[1..]
  {
    assert s == [s[0]] + s[1..];
  }

  lemma {:induction false} CountsAtMostOne<T>(s: seq<T>)
    ensures NoDuplicates(s) <==> forall x :: multiset(s)[x] <= 1
  {
    if s != [] {
      hide NoDuplicates;
      DistinctStep(s);
      CountsAtMostOne(s[1..]);
      CountsStep(s, s[0]);
      forall x
        ensures multiset(s)[x] <= 1 <==> multiset(s[1..])[x] <= (if x == s[0] then 0 else 1)
      {
        CountsStep(s, x);
      }
      if forall x :: multiset(s)[x] <= 1 {
        assert multiset(s)[s[0]] <= 1;
        forall x ensures multiset(s[1..])[x] <= 1 { assert multiset(s)[x] <= 1; }
      }
    }
  }

  lemma SortKeepsDistinct<T>(less: (T, T) -> bool, s: seq<T>)
    ensures NoDuplicates(Sort(less, s)) <==> NoDuplicates(s)
  {
    CountsAtMostOne(s);
    CountsAtMostOne(Sort(less, s));
  }

  lemma {:induction false} SubsetSize<T>(a: set<T>, b: set<T>)
    requires a <= b
    ensures |a| <= |b|
  {
    if a != {} {
      var x :| x in a;
      SubsetSize(a - {x}, b - {x});
    }
  }

  /** In a sorted list equal elements are neighbours, so comparing neighbours finds every repetition. */
  lemma NeighboursRepeat<T(!new)>(less: (T, T) -> bool, s: seq<T>)
    requires StrictTotal(less) && SortedBy(less, s)
    ensures NoDuplicates(s) <==> forall i :: 0 <= i < |s| - 1 ==> s[i] != s[i + 1]
  {
    if forall i :: 0 <= i < |s| - 1 ==> s[i] != s[i + 1] {
      forall i, j | 0 <= i < j < |s| ensures s[i] != s[j] {
        assert !less(s[i + 1], s[i]) && s[i] != s[i + 1];
        assert less(s[i], s[i + 1]);
        if i + 1 < j { assert !less(s[j], s[i + 1]); }
      }
    }
  }
}
