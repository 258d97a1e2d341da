/** Sorted, duplicate-free vectors. The program sorts with `std::tie` orders and
    then erases equal neighbours; each such order is given here by a sort key, a
    sequence of integers compared lexicographically. */
module Canonical {

  predicate Before(a: seq<int>, b: seq<int>) {
    b != [] && (a == [] || a[0] < b[0] || (a[0] == b[0] && Before(a[1..], b[1..])))
  }

  lemma {:induction false} BeforeIrreflexive(a: seq<int>)
    ensures !Before(a, a)
  {
    if a != [] {
      BeforeIrreflexive(a[1..]);
    }
  }

  lemma {:induction false} BeforeTransitive(a: seq<int>, b: seq<int>, c: seq<int>)
    requires Before(a, b) && Before(b, c)
    ensures Before(a, c)
  {
    if a != [] && a[0] == b[0] && b[0] == c[0] {
      BeforeTransitive(a[1..], b[1..], c[1..]);
    }
  }

  lemma {:induction false} BeforeTotal(a: seq<int>, b: seq<int>)
    ensures a == b || Before(a, b) || Before(b, a)
  {
    if a != [] && b != [] && a[0] == b[0] {
      BeforeTotal(a[1..], b[1..]);
      assert a == [a[0]] + a[1..] && b == [b[0]] + b[1..];
    }
  }

  function Elements<T(==)>(s: seq<T>): set<T> {
    set x | x in s
  }

  lemma ElementsAppend<T>(s: seq<T>, x: T)
    ensures Elements(s + [x]) == Elements(s) + {x}
  {
  }

  lemma ElementsConcat<T>(s: seq<T>, t: seq<T>)
    ensures Elements(s + t) == Elements(s) + Elements(t)
  {
  }

  ghost predicate Injective<T(!new)>(key: T -> seq<int>) {
    forall x, y :: key(x) == key(y) ==> x == y
  }

  ghost predicate Ascending<T>(s: seq<T>, key: T -> seq<int>) {
    forall i, j :: 0 <= i < j < |s| ==> Before(key(s[i]), key(s[j]))
  }

  /** One insertion into an ordered set kept as a vector. */
  function Insert<T(==)>(x: T, s: seq<T>, key: T -> seq<int>): (r: seq<T>)
  {
    if s == [] || Before(key(x), key(s[0])) then [x] + s
    else if key(x) == key(s[0]) then s
    else [s[0]] + Insert(x, s[1..], key)
  }

  /** `std::sort` followed by `erase(unique)`. */
  function Normalize<T(==)>(s: seq<T>, key: T -> seq<int>): (r: seq<T>)
  {
    if s == [] then [] else Insert(s[|s| - 1], Normalize(s[..|s| - 1], key), key)
  }

  lemma {:induction false} InsertAscending<T(!new)>(x: T, s: seq<T>, key: T -> seq<int>)
    requires Injective(key) && Ascending(s, key)
    ensures Ascending(Insert(x, s, key), key)
    ensures forall y :: y in Insert(x, s, key) <==> y == x || y in s
  {
    if s == [] {
    } else if Before(key(x), key(s[0])) {
      forall j | 0 <= j < |s| ensures Before(key(x), key(s[j])) {
        if j > 0 {
          BeforeTransitive(key(x), key(s[0]), key(s[j]));
        }
      }
    } else if key(x) == key(s[0]) {
      assert x == s[0];
    } else {
      var rest := Insert(x, s[1..], key);
      InsertAscending(x, s[1..], key);
      BeforeTotal(key(x), key(s[0]));
      forall j | 0 <= j < |rest| ensures Before(key(s[0]), key(rest[j])) {
        assert rest[j] in rest;
      }
      assert s == [s[0]] + s[1..];
    }
  }

  /** The result is strictly ascending and holds exactly the input's elements. */
  lemma {:induction false} NormalizeCorrect<T(!new)>(s: seq<T>, key: T -> seq<int>)
    requires Injective(key)
    ensures Ascending(Normalize(s, key), key)
    ensures Elements(Normalize(s, key)) == Elements(s)
  {
    if s != [] {
      var n := |s| - 1;
      NormalizeCorrect(s[..n], key);
      var r := Normalize(s[..n], key);
      InsertAscending(s[n], r, key);
      assert s == s[..n] + [s[n]];
      forall y ensures y in Normalize(s, key) <==> y in s {
        assert y in r <==> y in Elements(r);
        assert y in s[..n] <==> y in Elements(s[..n]);
      }
    }
  }

  lemma InsertElements<T(!new)>(x: T, s: seq<T>, key: T -> seq<int>)
    requires Injective(key) && Ascending(s, key)
    ensures Ascending(Insert(x, s, key), key)
    ensures Elements(Insert(x, s, key)) == Elements(s) + {x}
  {
    InsertAscending(x, s, key);
  }

  /** Two strictly ascending vectors with the same elements are the same vector. */
  lemma {:induction false} AscendingUnique<T>(a: seq<T>, b: seq<T>, key: T -> seq<int>)
    requires Ascending(a, key) && Ascending(b, key) && Elements(a) == Elements(b)
    ensures a == b
  {
    ElementsEmpty(a);
    ElementsEmpty(b);
    if a != [] {
      HeadIsLeast(a, key);
      HeadIsLeast(b, key);
      assert a[0] in Elements(b) && b[0] in Elements(a);
      if a[0] != b[0] {
        BeforeTransitive(key(a[0]), key(b[0]), key(a[0]));
        BeforeIrreflexive(key(a[0]));
      }
      TailElements(a, key);
      TailElements(b, key);
      AscendingUnique(a[1..], b[1..], key);
      assert a == [a[0]] + a[1..] && b == [b[0]] + b[1..];
    }
  }

  lemma ElementsEmpty<T>(s: seq<T>)
    ensures Elements(s) == {} <==> s == []
  {
    if s != [] {
      assert s[0] in Elements(s);
    }
  }

  lemma HeadIsLeast<T>(a: seq<T>, key: T -> seq<int>)
    requires a != [] && Ascending(a, key)
    ensures forall x :: x in Elements(a) && x != a[0] ==> Before(key(a[0]), key(x))
  {
  }

  lemma TailElements<T>(a: seq<T>, key: T -> seq<int>)
    requires a != [] && Ascending(a, key)
    ensures Elements(a[1..]) == Elements(a) - {a[0]}
  {
    assert a == [a[0]] + a[1..];
    if a[0] in a[1..] {
      BeforeIrreflexive(key(a[0]));
    }
  }

  /** Sorting and deduplicating forgets order and repetition, and nothing else. */
  lemma NormalizeCanonical<T(!new)>(a: seq<T>, b: seq<T>, key: T -> seq<int>)
    requires Injective(key)
    ensures Normalize(a, key) == Normalize(b, key) <==> Elements(a) == Elements(b)
  {
    NormalizeCorrect(a, key);
    NormalizeCorrect(b, key);
    if Elements(a) == Elements(b) {
      AscendingUnique(Normalize(a, key), Normalize(b, key), key);
    }
  }

  /** A string's sort key: its bytes, each shifted by one, and a terminator that
      sorts before every byte, so that keys of tuples can be concatenated. */
  function Bytes(s: string): seq<int> {
    if s == "" then [0] else [s[0] as int + 1] + Bytes(s[1..])
  }

  lemma HeadFree(x: int, y: int, a: seq<int>, b: seq<int>)
    requires [x] + a == [y] + b
    ensures x == y && a == b
  {
    assert ([x] + a)[0] == x && ([x] + a)[1..] == a;
    assert ([y] + b)[0] == y && ([y] + b)[1..] == b;
  }

  lemma {:induction false} BytesPrefixFree(s: string, t: string, x: seq<int>, y: seq<int>)
    requires Bytes(s) + x == Bytes(t) + y
    ensures s == t && x == y
  {
    hide Bytes;
    BytesHead(s, x);
    BytesHead(t, y);
    if s != "" {
      BytesPrefixFree(s[1..], t[1..], x, y);
      assert s == [s[0]] + s[1..] && t == [t[0]] + t[1..];
    }
  }

  lemma BytesHead(s: string, x: seq<int>)
    ensures var l := Bytes(s) + x;
      && l[0] == (if s == "" then 0 else s[0] as int + 1)
      && l[1..] == (if s == "" then x else Bytes(s[1..]) + x)
  {
    assert (Bytes(s) + x)[1..] == Bytes(s)[1..] + x;
  }

  lemma BytesInjective()
    ensures Injective(Bytes)
  {
    forall s, t | Bytes(s) == Bytes(t) ensures s == t {
      BytesPrefixFree(s, t, [], []);
    }
  }

  lemma InsertKey(x: string, s: seq<string>)
    requires Ascending(s, Bytes)
    ensures Ascending(Insert(x, s, Bytes), Bytes)
    ensures Elements(Insert(x, s, Bytes)) == Elements(s) + {x}
  {
    BytesInjective();
    InsertElements(x, s, Bytes);
  }

  // Sorting that keeps repetitions

  function Place<T>(x: T, s: seq<T>, key: T -> seq<int>): seq<T> {
    if s == [] || !Before(key(s[0]), key(x)) then [x] + s else [s[0]] + Place(x, s[1..], key)
  }

  /** `std::sort` alone. */
  function Sort<T>(s: seq<T>, key: T -> seq<int>): seq<T> {
    if s == [] then [] else Place(s[0], Sort(s[1..], key), key)
  }

  ghost predicate Ordered<T>(s: seq<T>, key: T -> seq<int>) {
    forall i, j :: 0 <= i < j < |s| ==> !Before(key(s[j]), key(s[i]))
  }

  lemma {:induction false} PlaceHolds<T>(x: T, s: seq<T>, key: T -> seq<int>)
    ensures multiset(Place(x, s, key)) == multiset(s) + multiset{x}
  {
    if s != [] && Before(key(s[0]), key(x)) {
      PlaceHolds(x, s[1..], key);
      assert s == [s[0]] + s[1..];
    }
  }

  /** Nothing placed comes before what `x` and all of `s` do not come before. */
  lemma {:induction false} PlaceAfter<T>(x: T, s: seq<T>, key: T -> seq<int>, bound: seq<int>)
    requires !Before(key(x), bound) && forall j :: 0 <= j < |s| ==> !Before(key(s[j]), bound)
    ensures forall j :: 0 <= j < |Place(x, s, key)| ==> !Before(key(Place(x, s, key)[j]), bound)
  {
    hide Before;
    if s != [] && Before(key(s[0]), key(x)) {
      PlaceAfter(x, s[1..], key, bound);
    }
  }

  lemma {:induction false} PlaceOrdered<T>(x: T, s: seq<T>, key: T -> seq<int>)
    requires Ordered(s, key)
    ensures Ordered(Place(x, s, key), key)
  {
    hide Before;
    if s == [] {
    } else if !Before(key(s[0]), key(x)) {
      forall j | 0 <= j < |s| ensures !Before(key(s[j]), key(x)) {
        NotBefore(key(s[j]), key(s[0]), key(x));
      }
    } else {
      PlaceOrdered(x, s[1..], key);
      BeforeOneWay(key(s[0]), key(x));
      PlaceAfter(x, s[1..], key, key(s[0]));
    }
  }

  lemma BeforeOneWay(a: seq<int>, b: seq<int>)
    requires Before(a, b)
    ensures !Before(b, a)
  {
    if Before(b, a) {
      BeforeTransitive(a, b, a);
      BeforeIrreflexive(a);
    }
  }

  /** What is not before `b` is not before anything `b` is not before. */
  lemma NotBefore(a: seq<int>, b: seq<int>, c: seq<int>)
    requires !Before(b, c) && (a == b || !Before(a, b))
    ensures !Before(a, c)
  {
    BeforeTotal(a, b);
    BeforeTotal(b, c);
    if Before(a, c) {
      if a != b {
        BeforeTransitive(b, a, c);
      }
    }
  }

  /** Sorting orders a list and neither drops nor adds anything. */
  lemma {:induction false} SortCorrect<T>(s: seq<T>, key: T -> seq<int>)
    ensures Ordered(Sort(s, key), key) && multiset(Sort(s, key)) == multiset(s)
  {
    if s != [] {
      SortCorrect(s[1..], key);
      PlaceOrdered(s[0], Sort(s[1..], key), key);
      PlaceHolds(s[0], Sort(s[1..], key), key);
      assert s == [s[0]] + s[1..];
    }
  }

  /** A list in order stays as it is. */
  lemma {:induction false} SortKeepsOrder<T>(s: seq<T>, key: T -> seq<int>)
    requires Ordered(s, key)
    ensures Sort(s, key) == s
  {
    hide Before;
    if s != [] {
      SortKeepsOrder(s[1..], key);
      assert s[1..] != [] ==> !Before(key(s[1]), key(s[0]));
      assert s == [s[0]] + s[1..];
    }
  }

  lemma BytesParts(s: string)
    ensures Bytes(s) != [] && Bytes(s)[0] == if s == "" then 0 else s[0] as int + 1
    ensures Bytes(s)[1..] == if s == "" then [] else Bytes(s[1..])
  {
  }

  /** The first of several sort keys decides. */
  lemma {:induction false} FirstKeyDecides(s: string, t: string, x: seq<int>, y: seq<int>)
    requires Before(Bytes(s), Bytes(t))
    ensures Before(Bytes(s) + x, Bytes(t) + y)
  {
    hide Bytes;
    BytesParts(s);
    BytesParts(t);
    BytesHead(s, x);
    BytesHead(t, y);
    if s != "" && t != "" && s[0] == t[0] {
      FirstKeyDecides(s[1..], t[1..], x, y);
    }
  }

  lemma HeadsAgree<T(!new)>(a: seq<T>, b: seq<T>, key: T -> seq<int>)
    requires Injective(key) && Ordered(a, key) && Ordered(b, key) && multiset(a) == multiset(b) && a != []
    ensures b != [] && a[0] == b[0]
  {
    hide Before;
    assert a[0] in multiset(b) && b[0] in multiset(a);
    var i :| 0 <= i < |b| && b[i] == a[0];
    var j :| 0 <= j < |a| && a[j] == b[0];
    if i > 0 && j > 0 {
      assert !Before(key(b[i]), key(b[0])) && !Before(key(a[j]), key(a[0]));
      BeforeTotal(key(a[0]), key(b[0]));
    }
  }

  lemma TailCounts<T>(a: seq<T>)
    requires a != []
    ensures multiset(a[1..]) == multiset(a) - multiset{a[0]}
  {
    assert a == [a[0]] + a[1..];
  }

  /** Two ordered lists of the same elements, with the same repetitions, are one list. */
  lemma {:induction false} OrderedUnique<T(!new)>(a: seq<T>, b: seq<T>, key: T -> seq<int>)
    requires Injective(key) && Ordered(a, key) && Ordered(b, key) && multiset(a) == multiset(b)
    ensures a == b
  {
    hide Injective;
    if a == [] {
      assert |multiset(b)| == 0;
    } else {
      HeadsAgree(a, b, key);
      TailCounts(a);
      TailCounts(b);
      OrderedUnique(a[1..], b[1..], key);
      assert a == [a[0]] + a[1..] && b == [b[0]] + b[1..];
    }
  }

  // Counting in a list

  lemma TwiceListed<T>(s: seq<T>, i: nat, j: nat)
    requires i < j < |s| && s[i] == s[j]
    ensures multiset(s)[s[i]] >= 2
  {
    assert s == s[..j] + [s[j]] + s[j + 1..];
    assert s[i] in s[..j];
  }

  lemma {:induction false} ListedTwice<T>(s: seq<T>, x: T)
    requires multiset(s)[x] >= 2
    ensures exists i, j :: 0 <= i < j < |s| && s[i] == x && s[j] == x
  {
    var n := |s| - 1;
    assert s == s[..n] + [s[n]];
    if s[n] == x {
      assert x in multiset(s[..n]);
      var i :| 0 <= i < n && s[..n][i] == x;
      assert s[i] == x && s[n] == x;
    } else {
      ListedTwice(s[..n], x);
      var i, j :| 0 <= i < j < n && s[..n][i] == x && s[..n][j] == x;
      assert s[i] == x && s[j] == x;
    }
  }

  /** `x` is at `i` and nowhere else. */
  predicate OnlyAt<T(==)>(s: seq<T>, i: nat, x: T)
    requires i < |s|
  {
    s[i] == x && forall j :: 0 <= j < |s| && s[j] == x ==> j == i
  }

  lemma OnceIs<T>(s: seq<T>, x: T)
    ensures multiset(s)[x] == 1 <==> exists i :: 0 <= i < |s| && OnlyAt(s, i, x)
  {
    if multiset(s)[x] >= 2 {
      ListedTwice(s, x);
    } else if multiset(s)[x] == 1 {
      assert x in s;
      var i :| 0 <= i < |s| && s[i] == x;
      forall j | 0 <= j < |s| && s[j] == x ensures j == i {
        if j != i {
          TwiceListed(s, if i < j then i else j, if i < j then j else i);
        }
      }
      assert OnlyAt(s, i, x);
    }
    if i :| 0 <= i < |s| && OnlyAt(s, i, x) {
      assert s[i] in multiset(s);
    }
  }
}
