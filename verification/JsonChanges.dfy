/** What the JSON diff lists, told from the two documents alone: exactly the places where they
    differ, each once, in the order of paths. */
module JsonChanges {
  import opened Json
  import opened JsonDiff
  import opened Options
  import opened Seqs
  import opened Sorting

  // ---- The differences ---------------------------------------------------------------

  function Inner(v: Value, s: Seg): Option<Value> {
    match s
    case Key(k) => if v.Object? && k in v.members then Some(v.members[k]) else None
    case Index(i) => if v.Array? && i < |v.items| then Some(v.items[i]) else None
  }

  /** What is at a path. */
  function At(v: Value, path: seq<Seg>): Option<Value>
    decreases |path|
  {
    if path == [] then Some(v)
    else
      match Inner(v, path[0])
      case None => None
      case Some(c) => At(c, path[1..])
  }

  predicate SameKind(x: Value, y: Value) {
    (x.Object? && y.Object?) || (x.Array? && y.Array?)
  }

  predicate ArrayOf(o: Option<Value>, n: nat) {
    o.Some? && o.value.Array? && |o.value.items| == n
  }

  /** There are containers of one kind around the place at path. */
  predicate Around(a: Value, b: Value, path: seq<Seg>) {
    && path != []
    && At(a, Front(path)).Some? && At(b, Front(path)).Some?
    && SameKind(At(a, Front(path)).value, At(b, Front(path)).value)
  }

  /** The documents differ in this way at this path. */
  predicate Differs(a: Value, b: Value, path: seq<Seg>, act: Action) {
    match act
    case Replace(x, y) => At(a, path) == Some(x) && At(b, path) == Some(y) && x != y && !SameKind(x, y)
    case Resize(n, m) => ArrayOf(At(a, path), n) && ArrayOf(At(b, path), m) && n != m
    case Remove(x) => At(a, path) == Some(x) && At(b, path).None? && Around(a, b, path)
    case Add(y) => At(a, path).None? && At(b, path) == Some(y) && Around(a, b, path)
  }

  lemma {:induction false} FrontOfCons(s: Seg, p: seq<Seg>)
    ensures ([s] + p)[0] == s && ([s] + p)[1..] == p
    ensures p == [] ==> Front([s] + p) == []
    ensures p != [] ==> Front([s] + p) == [s] + Front(p)
  {
  }

  lemma {:induction false} AtCons(v: Value, s: Seg, p: seq<Seg>)
    ensures At(v, [s] + p) == match Inner(v, s) case None => None case Some(c) => At(c, p)
  {
    FrontOfCons(s, p);
  }

  /** Below a segment that both have, the documents differ as what is there does. */
  lemma {:induction false} DiffersInside(a: Value, b: Value, s: Seg, p: seq<Seg>, act: Action)
    requires Inner(a, s).Some? && Inner(b, s).Some?
    ensures Differs(a, b, [s] + p, act) <==> Differs(Inner(a, s).value, Inner(b, s).value, p, act)
  {
    AtCons(a, s, p);
    AtCons(b, s, p);
    FrontOfCons(s, p);
    if p != [] {
      AtCons(a, s, Front(p));
      AtCons(b, s, Front(p));
    }
  }

  /** A segment that only one of two containers of a kind has is where they differ. */
  lemma {:induction false} DiffersAlone(a: Value, b: Value, s: Seg, p: seq<Seg>, act: Action)
    requires SameKind(a, b) && (Inner(a, s).None? || Inner(b, s).None?)
    ensures Differs(a, b, [s] + p, act)
       <==> p == [] && ((Inner(a, s).Some? && act == Remove(Inner(a, s).value))
                        || (Inner(b, s).Some? && act == Add(Inner(b, s).value)))
  {
    AtCons(a, s, p);
    AtCons(b, s, p);
    FrontOfCons(s, p);
    if p != [] {
      AtCons(a, s, Front(p));
      AtCons(b, s, Front(p));
    }
  }

  // ---- Exactly the differences are listed --------------------------------------------

  lemma {:induction false} UnderHas(s: Seg, cs: seq<Change>, p: seq<Seg>, act: Action)
    ensures Change([s] + p, act) in Under([s], cs) <==> Change(p, act) in cs
  {
    if cs != [] {
      UnderHas(s, Front(cs), p, act);
      FrontLast(cs);
      var c := Last(cs);
      InSnoc(Under([s], Front(cs)), Change([s] + c.path, c.act), Change([s] + p, act));
      InSnoc(Front(cs), c, Change(p, act));
      assert [s] + p == [s] + c.path ==> p == c.path by {
        FrontOfCons(s, p);
        FrontOfCons(s, c.path);
      }
    }
  }

  /** All changes under a segment begin with it. */
  lemma {:induction false} UnderBegins(s: Seg, cs: seq<Change>, k: nat)
    requires k < |cs|
    ensures Under([s], cs)[k] == Change([s] + cs[k].path, cs[k].act)
  {
    if k < |cs| - 1 {
      UnderBegins(s, Front(cs), k);
    }
  }

  lemma {:induction false} NotUnder(s: Seg, cs: seq<Change>, c: Change)
    requires c.path == [] || c.path[0] != s
    ensures c !in Under([s], cs)
  {
    forall k | 0 <= k < |cs|
      ensures Under([s], cs)[k] != c
    {
      UnderBegins(s, cs, k);
    }
  }

  lemma {:induction false} KeyBegins(k: string, a: Value, b: Value, c: Change)
    requires a.Object? && b.Object? && c in KeyDiff(k, a, b)
    ensures c.path != [] && c.path[0] == Key(k)
  {
    if k in a.members && k in b.members && (c.path == [] || c.path[0] != Key(k)) {
      NotUnder(Key(k), Diff(a.members[k], b.members[k]), c);
      assert false;
    }
  }

  lemma {:induction false} KeyHas(k: string, a: Value, b: Value, p: seq<Seg>, act: Action)
    requires a.Object? && b.Object?
    ensures Change([Key(k)] + p, act) in KeyDiff(k, a, b) <==> Differs(a, b, [Key(k)] + p, act)
    decreases a, 0
  {
    if k in a.members && k in b.members {
      UnderHas(Key(k), Diff(a.members[k], b.members[k]), p, act);
      ListsDifferences(a.members[k], b.members[k], p, act);
      DiffersInside(a, b, Key(k), p, act);
    } else {
      DiffersAlone(a, b, Key(k), p, act);
      FrontOfCons(Key(k), p);
      EmptyUnit([Key(k)]);
    }
  }

  lemma {:induction false} MembersHave(keys: seq<string>, a: Value, b: Value, c: Change)
    requires a.Object? && b.Object?
    ensures c in MemberDiff(keys, a, b) <==>
            c.path != [] && c.path[0].Key? && c.path[0].key in keys && c in KeyDiff(c.path[0].key, a, b)
  {
    if keys != [] {
      MembersHave(Front(keys), a, b, c);
      FrontLast(keys);
      if c in KeyDiff(Last(keys), a, b) {
        KeyBegins(Last(keys), a, b, c);
      }
    }
  }

  lemma {:induction false} ItemHas(i: nat, a: Value, b: Value, p: seq<Seg>, act: Action)
    requires a.Array? && b.Array? && i < |a.items| && i < |b.items|
    ensures Change([Index(i)] + p, act) in OneItemDiff(i, a, b) <==> Differs(a, b, [Index(i)] + p, act)
    decreases a, 0
  {
    UnderHas(Index(i), Diff(a.items[i], b.items[i]), p, act);
    ListsDifferences(a.items[i], b.items[i], p, act);
    DiffersInside(a, b, Index(i), p, act);
  }

  lemma {:induction false} ItemsHave(n: nat, a: Value, b: Value, c: Change)
    requires a.Array? && b.Array? && n <= |a.items| && n <= |b.items|
    ensures c in ItemDiff(n, a, b) <==>
            c.path != [] && c.path[0].Index? && c.path[0].index < n && c in OneItemDiff(c.path[0].index, a, b)
  {
    if n > 0 {
      ItemsHave(n - 1, a, b, c);
      if c in OneItemDiff(n - 1, a, b) && (c.path == [] || c.path[0] != Index(n - 1)) {
        NotUnder(Index(n - 1), Diff(a.items[n - 1], b.items[n - 1]), c);
        assert false;
      }
    }
  }

  lemma {:induction false} RemovalsHave(a: Value, lo: nat, hi: nat, c: Change)
    requires a.Array? && lo <= hi <= |a.items|
    ensures c in Removals(a, lo, hi) <==>
            |c.path| == 1 && c.path[0].Index? && lo <= c.path[0].index < hi && c.act == Remove(a.items[c.path[0].index])
  {
    if lo < hi {
      RemovalsHave(a, lo, hi - 1, c);
      assert |c.path| == 1 ==> c.path == [c.path[0]];
    }
  }

  lemma {:induction false} AdditionsHave(b: Value, lo: nat, hi: nat, c: Change)
    requires b.Array? && lo <= hi <= |b.items|
    ensures c in Additions(b, lo, hi) <==>
            |c.path| == 1 && c.path[0].Index? && lo <= c.path[0].index < hi && c.act == Add(b.items[c.path[0].index])
  {
    if lo < hi {
      AdditionsHave(b, lo, hi - 1, c);
      assert |c.path| == 1 ==> c.path == [c.path[0]];
    }
  }

  lemma {:induction false} ObjectHas(a: Value, b: Value, p: seq<Seg>, act: Action)
    requires a.Object? && b.Object?
    ensures Change(p, act) in Diff(a, b) <==> Differs(a, b, p, act)
    decreases a, 1
  {
    MembersHave(UnionKeys(a, b), a, b, Change(p, act));
    SortedStringsList(a.members.Keys + b.members.Keys);
    if p != [] {
      ConsTail(p);
      if p[0].Key? {
        KeyHas(p[0].key, a, b, p[1..], act);
      }
    }
  }

  lemma {:induction false} ArrayHas(a: Value, b: Value, p: seq<Seg>, act: Action)
    requires a.Array? && b.Array?
    ensures Change(p, act) in Diff(a, b) <==> Differs(a, b, p, act)
    decreases a, 1
  {
    var n, c := Min(|a.items|, |b.items|), Change(p, act);
    ItemsHave(n, a, b, c);
    RemovalsHave(a, n, |a.items|, c);
    AdditionsHave(b, n, |b.items|, c);
    if p != [] {
      ConsTail(p);
      if p[0].Index? && p[0].index < n {
        ItemHas(p[0].index, a, b, p[1..], act);
      } else {
        DiffersAlone(a, b, p[0], p[1..], act);
      }
    }
  }

  /** A change is listed exactly where the documents differ in that way. */
  lemma {:induction false} ListsDifferences(a: Value, b: Value, p: seq<Seg>, act: Action)
    ensures Change(p, act) in Diff(a, b) <==> Differs(a, b, p, act)
    decreases a, 2
  {
    if a.Object? && b.Object? {
      ObjectHas(a, b, p, act);
    } else if a.Array? && b.Array? {
      ArrayHas(a, b, p, act);
    } else if p != [] {
      ConsTail(p);
      NothingShared(a, b, p, act);
    }
  }

  /** Two documents that are not both objects, nor both arrays, share no place but the root. */
  lemma {:induction false} NothingShared(a: Value, b: Value, p: seq<Seg>, act: Action)
    requires !SameKind(a, b) && p != []
    ensures !Differs(a, b, p, act)
  {
    assert Inner(a, p[0]).None? || Inner(b, p[0]).None?;
    if |p| > 1 {
      assert Front(p)[0] == p[0];
    }
  }

  // ---- In the order of paths ---------------------------------------------------------

  ghost predicate SegBefore(s: Seg, t: Seg) {
    match s
    case Key(k) => t.Key? && Precedes(k, t.key)
    case Index(i) => t.Index? && i < t.index
  }

  /** A place comes before what is inside it; places part by key or index. */
  ghost predicate Before(p: seq<Seg>, q: seq<Seg>)
    decreases |p|
  {
    && q != []
    && (p == [] || (if p[0] == q[0] then Before(p[1..], q[1..]) else SegBefore(p[0], q[0])))
  }

  /** No place comes before itself: a list in this order has each place once. */
  lemma {:induction false} BeforeIsStrict(p: seq<Seg>)
    ensures !Before(p, p)
  {
    if p != [] {
      BeforeIsStrict(p[1..]);
    }
  }

  ghost predicate InPathOrder(cs: seq<Change>) {
    forall i, j :: 0 <= i < j < |cs| ==> Before(cs[i].path, cs[j].path)
  }

  /** Every change of x comes before every change of y. */
  ghost predicate AllBefore(x: seq<Change>, y: seq<Change>) {
    forall c, d :: c in x && d in y ==> Before(c.path, d.path)
  }

  lemma {:induction false} OrderOfConcat(x: seq<Change>, y: seq<Change>)
    requires InPathOrder(x) && InPathOrder(y) && AllBefore(x, y)
    ensures InPathOrder(x + y)
  {
    forall i, j | 0 <= i < j < |x + y|
      ensures Before((x + y)[i].path, (x + y)[j].path)
    {
      if i < |x| <= j {
        assert x[i] in x && y[j - |x|] in y;
      }
    }
  }

  lemma {:induction false} OrderUnder(s: Seg, cs: seq<Change>)
    requires InPathOrder(cs)
    ensures InPathOrder(Under([s], cs))
  {
    forall i, j | 0 <= i < j < |cs|
      ensures Before(Under([s], cs)[i].path, Under([s], cs)[j].path)
    {
      UnderBegins(s, cs, i);
      UnderBegins(s, cs, j);
      FrontOfCons(s, cs[i].path);
      FrontOfCons(s, cs[j].path);
    }
  }

  lemma {:induction false} KeyInOrder(k: string, a: Value, b: Value)
    requires a.Object? && b.Object?
    ensures InPathOrder(KeyDiff(k, a, b))
    decreases a, 0, 0
  {
    if k in a.members && k in b.members {
      ListsInOrder(a.members[k], b.members[k]);
      OrderUnder(Key(k), Diff(a.members[k], b.members[k]));
    }
  }

  lemma {:induction false} MembersInOrder(keys: seq<string>, a: Value, b: Value)
    requires a.Object? && b.Object? && Ascends(keys, StringLe)
    ensures InPathOrder(MemberDiff(keys, a, b))
    decreases a, 1, |keys|
  {
    if keys != [] {
      var k, before := Last(keys), MemberDiff(Front(keys), a, b);
      MembersInOrder(Front(keys), a, b);
      KeyInOrder(k, a, b);
      forall c, d | c in before && d in KeyDiff(k, a, b)
        ensures Before(c.path, d.path)
      {
        MembersHave(Front(keys), a, b, c);
        KeyBegins(k, a, b, d);
        KeyBelow(keys, c.path[0].key);
      }
      OrderOfConcat(before, KeyDiff(k, a, b));
    }
  }

  lemma {:induction false} KeyBelow(keys: seq<string>, k: string)
    requires Ascends(keys, StringLe) && keys != [] && k in Front(keys)
    ensures Precedes(k, Last(keys))
  {
    OrdersAreTotal();
    var j :| 0 <= j < |Front(keys)| && Front(keys)[j] == k;
    LastIsGreatest(keys, StringLe, j);
    StringLeMeans(k, Last(keys));
  }

  lemma {:induction false} ItemInOrder(i: nat, a: Value, b: Value)
    requires a.Array? && b.Array? && i < |a.items| && i < |b.items|
    ensures InPathOrder(OneItemDiff(i, a, b))
    decreases a, 0, 0
  {
    ListsInOrder(a.items[i], b.items[i]);
    OrderUnder(Index(i), Diff(a.items[i], b.items[i]));
  }

  lemma {:induction false} ItemsInOrder(n: nat, a: Value, b: Value)
    requires a.Array? && b.Array? && n <= |a.items| && n <= |b.items|
    ensures InPathOrder(ItemDiff(n, a, b))
    decreases a, 1, n
  {
    if n > 0 {
      var before, more := ItemDiff(n - 1, a, b), OneItemDiff(n - 1, a, b);
      ItemsInOrder(n - 1, a, b);
      ItemInOrder(n - 1, a, b);
      forall c, d | c in before && d in more
        ensures Before(c.path, d.path)
      {
        ItemsHave(n - 1, a, b, c);
        ItemBegins(n - 1, a, b, d);
      }
      OrderOfConcat(before, more);
    }
  }

  lemma {:induction false} ItemBegins(i: nat, a: Value, b: Value, c: Change)
    requires a.Array? && b.Array? && i < |a.items| && i < |b.items| && c in OneItemDiff(i, a, b)
    ensures c.path != [] && c.path[0] == Index(i)
  {
    if c.path == [] || c.path[0] != Index(i) {
      NotUnder(Index(i), Diff(a.items[i], b.items[i]), c);
      assert false;
    }
  }

  lemma {:induction false} RemovalsInOrder(a: Value, lo: nat, hi: nat)
    requires a.Array? && lo <= hi <= |a.items|
    ensures InPathOrder(Removals(a, lo, hi)) && InPathOrder(Additions(a, lo, hi))
  {
    if lo < hi {
      RemovalsInOrder(a, lo, hi - 1);
      forall c | c in Removals(a, lo, hi - 1)
        ensures Before(c.path, [Index(hi - 1)])
      {
        RemovalsHave(a, lo, hi - 1, c);
      }
      forall c | c in Additions(a, lo, hi - 1)
        ensures Before(c.path, [Index(hi - 1)])
      {
        AdditionsHave(a, lo, hi - 1, c);
      }
      OrderOfConcat(Removals(a, lo, hi - 1), [Change([Index(hi - 1)], Remove(a.items[hi - 1]))]);
      OrderOfConcat(Additions(a, lo, hi - 1), [Change([Index(hi - 1)], Add(a.items[hi - 1]))]);
    }
  }

  /** The changes of shared items come before those behind them. */
  lemma {:induction false} ItemsThenRest(a: Value, b: Value, n: nat)
    requires a.Array? && b.Array? && n == Min(|a.items|, |b.items|)
    ensures InPathOrder(ItemDiff(n, a, b) + Removals(a, n, |a.items|) + Additions(b, n, |b.items|))
    decreases a, 2, 0
  {
    var items, gone, more := ItemDiff(n, a, b), Removals(a, n, |a.items|), Additions(b, n, |b.items|);
    ItemsInOrder(n, a, b);
    RemovalsInOrder(a, n, |a.items|);
    RemovalsInOrder(b, n, |b.items|);
    forall c, d | c in items && (d in gone || d in more)
      ensures Before(c.path, d.path)
    {
      ItemsHave(n, a, b, c);
      RemovalsHave(a, n, |a.items|, d);
      AdditionsHave(b, n, |b.items|, d);
    }
    if gone == [] {
      EmptyUnit(items);
      OrderOfConcat(items, more);
    } else {
      EmptyUnit(items + gone);
      OrderOfConcat(items, gone);
    }
  }

  lemma {:induction false} ArrayInOrder(a: Value, b: Value)
    requires a.Array? && b.Array?
    ensures InPathOrder(Diff(a, b))
    decreases a, 3, 0
  {
    var n := Min(|a.items|, |b.items|);
    var rest := ItemDiff(n, a, b) + Removals(a, n, |a.items|) + Additions(b, n, |b.items|);
    ItemsThenRest(a, b, n);
    forall c, d | c in LengthNote(a, b) && d in rest
      ensures Before(c.path, d.path)
    {
      ItemsHave(n, a, b, d);
      RemovalsHave(a, n, |a.items|, d);
      AdditionsHave(b, n, |b.items|, d);
    }
    OrderOfConcat(LengthNote(a, b), rest);
    JoinFour(LengthNote(a, b), ItemDiff(n, a, b), Removals(a, n, |a.items|), Additions(b, n, |b.items|));
  }

  lemma {:induction false} JoinFour<T>(x: seq<T>, y: seq<T>, z: seq<T>, w: seq<T>)
    ensures x + y + z + w == x + (y + z + w)
  {
  }

  /** The changes are listed in the order of paths, and so each place once. */
  lemma {:induction false} ListsInOrder(a: Value, b: Value)
    ensures InPathOrder(Diff(a, b))
    decreases a, 4, 0
  {
    if a.Object? && b.Object? {
      UnionAscends(a, b);
      MembersInOrder(UnionKeys(a, b), a, b);
    } else if a.Array? && b.Array? {
      ArrayInOrder(a, b);
    }
  }

  lemma {:induction false} UnionAscends(a: Value, b: Value)
    requires a.Object? && b.Object?
    ensures Ascends(UnionKeys(a, b), StringLe)
  {
    OrdersAreTotal();
    ListingExists(a.members.Keys + b.members.Keys, StringLe);
  }
}
