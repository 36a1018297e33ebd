/** Sorted listings of finite sets: map keys are always visited in sorted order. */
module Sorting {
  import opened Seqs

  ghost predicate TotalOrder<T(!new)>(le: (T, T) -> bool) {
    && (forall x, y :: le(x, y) || le(y, x))
    && (forall x, y :: le(x, y) && le(y, x) ==> x == y)
    && (forall x, y, z :: le(x, y) && le(y, z) ==> le(x, z))
  }

  /** Every element is strictly above the one before it. */
  ghost predicate Ascends<T>(r: seq<T>, le: (T, T) -> bool) {
    |r| < 2 || (Ascends(Front(r), le) && le(Last(Front(r)), Last(r)) && Last(Front(r)) != Last(r))
  }

  function Elements<T(==)>(r: seq<T>): set<T> {
    if r == [] then {} else Elements(Front(r)) + {Last(r)}
  }

  /** r holds the elements of s, each once, in ascending order. */
  ghost predicate Lists<T>(r: seq<T>, s: set<T>, le: (T, T) -> bool) {
    Ascends(r, le) && Elements(r) == s
  }

  /** The elements of s in ascending order. */
  ghost function Sorted<T(!new)>(s: set<T>, le: (T, T) -> bool): seq<T>
    requires TotalOrder(le)
  {
    ListingExists(s, le);
    var r :| Lists(r, s, le);
    r
  }

  lemma {:induction false} ElementsAre<T>(r: seq<T>, x: T)
    ensures x in Elements(r) <==> x in r
  {
    if r != [] {
      FrontLast(r);
      ElementsAre(Front(r), x);
    }
  }

  /** The last element of an ascending list is above all others. */
  lemma {:induction false} LastIsGreatest<T(!new)>(r: seq<T>, le: (T, T) -> bool, k: nat)
    requires TotalOrder(le) && Ascends(r, le) && k < |r| - 1
    ensures le(r[k], Last(r)) && r[k] != Last(r)
  {
    if k < |r| - 2 {
      LastIsGreatest(Front(r), le, k);
    }
  }

  lemma {:induction false} LastOfElements<T(!new)>(r: seq<T>, le: (T, T) -> bool, x: T)
    requires TotalOrder(le) && Ascends(r, le) && r != [] && x in Elements(r)
    ensures le(x, Last(r)) && (x == Last(r) || x in Elements(Front(r)))
    ensures Last(r) !in Elements(Front(r))
  {
    ElementsAre(r, x);
    ElementsAre(Front(r), Last(r));
    var k :| 0 <= k < |r| && r[k] == x;
    if k < |r| - 1 { LastIsGreatest(r, le, k); }
    forall j | 0 <= j < |r| - 1 ensures r[j] != Last(r) {
      LastIsGreatest(r, le, j);
    }
  }

  /** There is only one ascending listing of a set. */
  lemma {:induction false} ListingUnique<T(!new)>(r: seq<T>, q: seq<T>, le: (T, T) -> bool)
    requires TotalOrder(le) && Ascends(r, le) && Ascends(q, le) && Elements(r) == Elements(q)
    ensures r == q
    decreases |r|
  {
    if r != [] {
      assert Last(r) in Elements(r);
      LastOfElements(q, le, Last(r));
      LastOfElements(r, le, Last(q));
      LastOfElements(r, le, Last(r));
      LastOfElements(q, le, Last(q));
      assert Last(r) == Last(q);
      assert Elements(Front(r)) == Elements(r) - {Last(r)};
      assert Elements(Front(q)) == Elements(q) - {Last(q)};
      ListingUnique(Front(r), Front(q), le);
      FrontLast(r);
      FrontLast(q);
    }
  }

  lemma {:induction false} SortedUnique<T(!new)>(r: seq<T>, s: set<T>, le: (T, T) -> bool)
    requires TotalOrder(le) && Lists(r, s, le)
    ensures r == Sorted(s, le)
  {
    ListingExists(s, le);
    ListingUnique(r, Sorted(s, le), le);
  }

  /** Inserts x where it belongs. */
  function Insert<T(==)>(r: seq<T>, x: T, le: (T, T) -> bool): seq<T> {
    if r == [] || le(Last(r), x) then r + [x] else Insert(Front(r), x, le) + [Last(r)]
  }

  lemma {:induction false} InsertLists<T(!new)>(r: seq<T>, x: T, le: (T, T) -> bool)
    requires TotalOrder(le) && Ascends(r, le) && x !in Elements(r)
    ensures Ascends(Insert(r, x, le), le) && Elements(Insert(r, x, le)) == Elements(r) + {x}
    ensures Last(Insert(r, x, le)) == if r == [] || le(Last(r), x) then x else Last(r)
  {
    if r == [] || le(Last(r), x) {
      FrontLastSnoc(r, x);
    } else {
      InsertLists(Front(r), x, le);
      FrontLastSnoc(Insert(Front(r), x, le), Last(r));
    }
  }

  lemma {:induction false} PutBack<T>(s: set<T>, x: T)
    requires x in s
    ensures s - {x} + {x} == s && |s - {x}| == |s| - 1
  {
  }

  lemma {:induction false} ListingExists<T(!new)>(s: set<T>, le: (T, T) -> bool)
    requires TotalOrder(le)
    ensures exists r :: Lists(r, s, le)
    decreases |s|
  {
    if s == {} {
      assert Lists([], s, le);
    } else {
      var x :| x in s;
      PutBack(s, x);
      ListingExists(s - {x}, le);
      var r :| Lists(r, s - {x}, le);
      InsertLists(r, x, le);
      assert Lists(Insert(r, x, le), s, le);
    }
  }

  /** Collects a set's elements in any order and sorts them. */
  method Sort<T(!new, ==)>(s: set<T>, le: (T, T) -> bool) returns (r: seq<T>)
    requires TotalOrder(le)
    ensures r == Sorted(s, le)
  {
    r := [];
    var rest := s;
    while rest != {}
      invariant rest <= s && Ascends(r, le) && Elements(r) == s - rest
      decreases rest
    {
      var x :| x in rest;
      InsertLists(r, x, le);
      r := Insert(r, x, le);
      rest := rest - {x};
    }
    assert s - rest == s;
    SortedUnique(r, s, le);
  }

  predicate IntLe(x: int, y: int) {
    x <= y
  }

  /** Strings compare character by character, a prefix before its extensions. */
  predicate StringLe(x: string, y: string) {
    x == "" || (y != "" && (x[0] < y[0] || (x[0] == y[0] && StringLe(x[1..], y[1..]))))
  }

  lemma {:induction false} StringLeTotal(x: string, y: string)
    ensures StringLe(x, y) || StringLe(y, x)
    ensures StringLe(x, y) && StringLe(y, x) ==> x == y
  {
    if x != "" && y != "" && x[0] == y[0] {
      StringLeTotal(x[1..], y[1..]);
      ConsTail(x);
      ConsTail(y);
    }
  }

  lemma {:induction false} StringLeTransitive(x: string, y: string, z: string)
    requires StringLe(x, y) && StringLe(y, z)
    ensures StringLe(x, z)
  {
    if x != "" && y != "" && z != "" && x[0] == y[0] == z[0] {
      StringLeTransitive(x[1..], y[1..], z[1..]);
    }
  }

  /** x and y agree before i, and there x ends or has the smaller character. */
  predicate PartsAt(x: string, y: string, i: nat) {
    i <= |x| && i < |y| && x[..i] == y[..i] && (i == |x| || x[i] < y[i])
  }

  ghost predicate Precedes(x: string, y: string) {
    exists i: nat :: PartsAt(x, y, i)
  }

  lemma {:induction false} StringLeMeans(x: string, y: string)
    ensures StringLe(x, y) && x != y <==> Precedes(x, y)
  {
    if x == "" || y == "" || x[0] != y[0] {
      assert x != y ==> (PartsAt(x, y, 0) <==> StringLe(x, y));
      forall i: nat
        ensures PartsAt(x, y, i) ==> i == 0
      {
        PartsAtFirst(x, y, i);
      }
    } else {
      StringLeMeans(x[1..], y[1..]);
      ConsTail(x);
      ConsTail(y);
      forall i: nat
        ensures i > 0 ==> (PartsAt(x, y, i) <==> PartsAt(x[1..], y[1..], i - 1))
      {
        PartsInside(x, y, i);
      }
      if Precedes(x[1..], y[1..]) {
        var i: nat :| PartsAt(x[1..], y[1..], i);
        assert PartsAt(x, y, i + 1);
      }
    }
  }

  lemma {:induction false} PartsAtFirst(x: string, y: string, i: nat)
    requires x == "" || y == "" || x[0] != y[0]
    ensures PartsAt(x, y, i) ==> i == 0
  {
    if 0 < i <= |x| && i < |y| {
      assert x[..i][0] == x[0] && y[..i][0] == y[0];
    }
  }

  lemma {:induction false} PartsInside(x: string, y: string, i: nat)
    requires x != "" && y != "" && x[0] == y[0]
    ensures !PartsAt(x, y, 0)
    ensures i > 0 ==> (PartsAt(x, y, i) <==> PartsAt(x[1..], y[1..], i - 1))
  {
    if 0 < i <= |x| && i <= |y| {
      assert x[..i] == [x[0]] + x[1..][..i - 1] && y[..i] == [y[0]] + y[1..][..i - 1];
      assert x[..i] == y[..i] ==> x[1..][..i - 1] == y[1..][..i - 1] by {
        TailOfCons(x[0], x[1..][..i - 1]);
        TailOfCons(y[0], y[1..][..i - 1]);
      }
    }
  }

  lemma {:induction false} OrdersAreTotal()
    ensures TotalOrder(StringLe) && TotalOrder(IntLe)
  {
    forall x, y ensures (StringLe(x, y) || StringLe(y, x)) && (StringLe(x, y) && StringLe(y, x) ==> x == y) {
      StringLeTotal(x, y);
    }
    forall x, y, z | StringLe(x, y) && StringLe(y, z) ensures StringLe(x, z) {
      StringLeTransitive(x, y, z);
    }
  }

  /** The strings of s in ascending order. */
  ghost function SortedStrings(s: set<string>): seq<string> {
    OrdersAreTotal();
    Sorted(s, StringLe)
  }

  /** The numbers of s in ascending order. */
  ghost function SortedInts(s: set<int>): seq<int> {
    OrdersAreTotal();
    Sorted(s, IntLe)
  }

  method SortStrings(s: set<string>) returns (r: seq<string>)
    ensures r == SortedStrings(s)
  {
    OrdersAreTotal();
    r := Sort(s, StringLe);
  }

  method SortInts(s: set<int>) returns (r: seq<int>)
    ensures r == SortedInts(s)
  {
    OrdersAreTotal();
    r := Sort(s, IntLe);
  }

  ghost predicate Distinct<T>(r: seq<T>) {
    r == [] || (Last(r) !in Front(r) && Distinct(Front(r)))
  }

  lemma {:induction false} AscendsDistinct<T(!new)>(r: seq<T>, le: (T, T) -> bool)
    requires TotalOrder(le) && Ascends(r, le)
    ensures Distinct(r)
  {
    if r != [] {
      AscendsDistinct(Front(r), le);
      LastOfElements(r, le, Last(r));
      ElementsAre(Front(r), Last(r));
    }
  }

  /** A sorted listing has each string of the set once. */
  lemma {:induction false} SortedStringsList(s: set<string>)
    ensures Distinct(SortedStrings(s))
    ensures forall x :: x in SortedStrings(s) <==> x in s
  {
    OrdersAreTotal();
    ListingExists(s, StringLe);
    var r := SortedStrings(s);
    AscendsDistinct(r, StringLe);
    forall x ensures x in r <==> x in s {
      ElementsAre(r, x);
    }
  }

  lemma {:induction false} SortedIntsList(s: set<int>)
    ensures Distinct(SortedInts(s))
    ensures forall x :: x in SortedInts(s) <==> x in s
  {
    OrdersAreTotal();
    ListingExists(s, IntLe);
    var r := SortedInts(s);
    AscendsDistinct(r, IntLe);
    forall x ensures x in r <==> x in s {
      ElementsAre(r, x);
    }
  }

  /** order names the numbers of s, each once, from the smallest to the greatest. */
  ghost predicate InOrder(order: seq<int>, s: set<int>) {
    && (forall j, k :: 0 <= j < k < |order| ==> order[j] < order[k])
    && (forall i :: i in order <==> i in s)
  }

  lemma {:induction false} AscendsIncreases(r: seq<int>)
    requires TotalOrder(IntLe) && Ascends(r, IntLe)
    ensures forall j, k :: 0 <= j < k < |r| ==> r[j] < r[k]
  {
    if r != [] {
      AscendsIncreases(Front(r));
      forall j | 0 <= j < |r| - 1
        ensures r[j] < Last(r)
      {
        LastIsGreatest(r, IntLe, j);
      }
    }
  }

  lemma {:induction false} SortedIntsInOrder(s: set<int>)
    ensures InOrder(SortedInts(s), s)
  {
    OrdersAreTotal();
    ListingExists(s, IntLe);
    SortedIntsList(s);
    AscendsIncreases(SortedInts(s));
  }

  /** There is only one such order. */
  lemma {:induction false} OneOrder(r: seq<int>, q: seq<int>, s: set<int>)
    requires InOrder(r, s) && InOrder(q, s)
    ensures r == q
  {
    OrdersAreTotal();
    InOrderAscends(r, s);
    InOrderAscends(q, s);
    ListingUnique(r, q, IntLe);
  }

  lemma {:induction false} InOrderAscends(r: seq<int>, s: set<int>)
    requires InOrder(r, s)
    ensures Ascends(r, IntLe) && Elements(r) == s
  {
    IncreasingAscends(r);
    forall x ensures x in Elements(r) <==> x in s {
      ElementsAre(r, x);
    }
  }

  lemma {:induction false} IncreasingAscends(r: seq<int>)
    requires forall j, k :: 0 <= j < k < |r| ==> r[j] < r[k]
    ensures Ascends(r, IntLe)
  {
    if |r| >= 2 {
      IncreasingAscends(Front(r));
    }
  }

  // ---- Maps in key order -------------------------------------------------------------

  /** Every key listed is in the map. */
  predicate Listed<T>(order: seq<int>, m: map<int, T>) {
    order == [] || (Listed(Front(order), m) && Last(order) in m)
  }

  lemma {:induction false} AllListed<T>(order: seq<int>, m: map<int, T>)
    requires forall i :: i in order ==> i in m
    ensures Listed(order, m)
  {
    if order != [] {
      var i := Last(order);
      assert i in order && forall j :: j in Front(order) ==> j in order;
      AllListed(Front(order), m);
    }
  }

  lemma {:induction false} ListedAt<T>(order: seq<int>, m: map<int, T>, k: nat)
    requires Listed(order, m) && k < |order|
    ensures order[k] in m
  {
    if k < |order| - 1 {
      ListedAt(Front(order), m, k);
    }
  }

  /** The keys of a map in ascending order. */
  ghost function Order<T>(m: map<int, T>): (order: seq<int>)
    ensures Listed(order, m)
  {
    SortedIntsList(m.Keys);
    AllListed(SortedInts(m.Keys), m);
    SortedInts(m.Keys)
  }
}
