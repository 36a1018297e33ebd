/** The structural JSON diff: the walk over two documents and the changes it lists. */
module JsonDiff {
  import opened Json
  import opened Seqs
  import opened Sorting

  /** "+ path: v", "- path: v", "~ path: old -> new" and the array length note. */
  datatype Action =
    | Add(added: Value)
    | Remove(removed: Value)
    | Replace(before: Value, after: Value)
    | Resize(from: nat, to: nat)

  datatype Change = Change(path: seq<Seg>, act: Action)

  function Min(x: nat, y: nat): nat {
    if x <= y then x else y
  }

  // ---- The changes as a list ---------------------------------------------------------

  /** The changes moved under a path. */
  function Under(path: seq<Seg>, cs: seq<Change>): (r: seq<Change>)
    ensures |r| == |cs|
  {
    if cs == [] then [] else
      Under(path, Front(cs)) + [Change(path + Last(cs).path, Last(cs).act)]
  }

  /** What walking a and b lists, with paths relative to them. */
  ghost function Diff(a: Value, b: Value): seq<Change>
    decreases a, 1, 0
  {
    if a.Object? && b.Object? then MemberDiff(UnionKeys(a, b), a, b)
    else if a.Array? && b.Array? then
      var n := Min(|a.items|, |b.items|);
      LengthNote(a, b) + ItemDiff(n, a, b) + Removals(a, n, |a.items|) + Additions(b, n, |b.items|)
    else if a == b then []
    else [Change([], Replace(a, b))]
  }

  /** The keys of both objects, sorted. */
  ghost function UnionKeys(a: Value, b: Value): seq<string>
    requires a.Object? && b.Object?
  {
    SortedStrings(a.members.Keys + b.members.Keys)
  }

  function LengthNote(a: Value, b: Value): seq<Change>
    requires a.Array? && b.Array?
  {
    if |a.items| != |b.items| then [Change([], Resize(|a.items|, |b.items|))] else []
  }

  ghost function KeyDiff(k: string, a: Value, b: Value): seq<Change>
    requires a.Object? && b.Object?
    decreases a, 0, 0
  {
    if k in a.members && k !in b.members then [Change([Key(k)], Remove(a.members[k]))]
    else if k !in a.members && k in b.members then [Change([Key(k)], Add(b.members[k]))]
    else if k in a.members then Under([Key(k)], Diff(a.members[k], b.members[k]))
    else []
  }

  ghost function MemberDiff(keys: seq<string>, a: Value, b: Value): seq<Change>
    requires a.Object? && b.Object?
    decreases a, 0, |keys| + 1
  {
    if keys == [] then []
    else MemberDiff(Front(keys), a, b) + KeyDiff(Last(keys), a, b)
  }

  /** The changes of the first n items. */
  ghost function ItemDiff(n: nat, a: Value, b: Value): seq<Change>
    requires a.Array? && b.Array? && n <= |a.items| && n <= |b.items|
    decreases a, 0, n + 1
  {
    if n == 0 then []
    else ItemDiff(n - 1, a, b) + OneItemDiff(n - 1, a, b)
  }

  ghost function OneItemDiff(i: nat, a: Value, b: Value): seq<Change>
    requires a.Array? && b.Array? && i < |a.items| && i < |b.items|
    decreases a, 0, 0
  {
    Under([Index(i)], Diff(a.items[i], b.items[i]))
  }

  /** The items from lo on, below hi, listed as removed. */
  function Removals(a: Value, lo: nat, hi: nat): seq<Change>
    requires a.Array? && lo <= hi <= |a.items|
  {
    if lo == hi then [] else Removals(a, lo, hi - 1) + [Change([Index(hi - 1)], Remove(a.items[hi - 1]))]
  }

  function Additions(b: Value, lo: nat, hi: nat): seq<Change>
    requires b.Array? && lo <= hi <= |b.items|
  {
    if lo == hi then [] else Additions(b, lo, hi - 1) + [Change([Index(hi - 1)], Add(b.items[hi - 1]))]
  }

  lemma {:induction false} MemberDiffSnoc(keys: seq<string>, n: nat, a: Value, b: Value)
    requires a.Object? && b.Object? && n < |keys|
    ensures MemberDiff(keys[..n + 1], a, b) == MemberDiff(keys[..n], a, b) + KeyDiff(keys[n], a, b)
  {
    FrontOfTake(keys, n + 1);
  }

  lemma {:induction false} UnderSnoc(path: seq<Seg>, cs: seq<Change>, c: Change)
    ensures Under(path, cs + [c]) == Under(path, cs) + [Change(path + c.path, c.act)]
  {
    FrontLastSnoc(cs, c);
  }

  lemma {:induction false} UnderConcat(path: seq<Seg>, x: seq<Change>, y: seq<Change>)
    ensures Under(path, x + y) == Under(path, x) + Under(path, y)
    decreases |y|
  {
    if y == [] {
      EmptyUnit(x);
    } else {
      FrontLastConcat(x, y);
      UnderConcat(path, x, Front(y));
      SnocOfSnoc(Under(path, x), Under(path, Front(y)), Change(path + Last(y).path, Last(y).act));
    }
  }

  /** Appending twice is appending the concatenation, also under a path. */
  lemma {:induction false} UnderTwice(start: seq<Change>, path: seq<Seg>, x: seq<Change>, y: seq<Change>)
    ensures start + Under(path, x) + Under(path, y) == start + Under(path, x + y)
  {
    UnderConcat(path, x, y);
    Assoc(start, Under(path, x), Under(path, y));
  }

  lemma {:induction false} UnderUnder(p: seq<Seg>, q: seq<Seg>, cs: seq<Change>)
    ensures Under(p, Under(q, cs)) == Under(p + q, cs)
  {
    if cs != [] {
      var c := Last(cs);
      UnderUnder(p, q, Front(cs));
      UnderSnoc(p, Under(q, Front(cs)), Change(q + c.path, c.act));
      Assoc(p, q, c.path);
    }
  }

  lemma {:induction false} UnderOne(path: seq<Seg>, c: Change)
    ensures Under(path, [c]) == [Change(path + c.path, c.act)]
  {
    UnderSnoc(path, [], c);
    EmptyUnit([c]);
  }

  // ---- The walk ----------------------------------------------------------------------

  /** Lists changes up to a maximum, and counts all of them. */
  class JsonDiffer {
    var lines: seq<Change>
    var total: nat
    const max: nat
    ghost var all: seq<Change>

    ghost predicate Valid() reads this {
      total == |all| && lines == all[..Min(max, |all|)]
    }

    constructor (max: nat)
      ensures Valid() && all == [] && this.max == max
    {
      this.max := max;
      lines, total, all := [], 0, [];
    }

    method Note(line: Change)
      requires Valid()
      modifies this
      ensures Valid() && all == old(all) + [line]
    {
      total := total + 1;
      if total <= max {
        lines := lines + [line];
      }
      all := all + [line];
    }

    method Walk(path: seq<Seg>, a: Value, b: Value)
      requires Valid()
      modifies this
      ensures Valid() && all == old(all) + Under(path, Diff(a, b))
      decreases a, 1, 0
    {
      if a.Object? && b.Object? {
        WalkMembers(path, a, b);
      } else if a.Array? && b.Array? {
        WalkArray(path, a, b);
      } else if a != b {
        Note(Change(path, Replace(a, b)));
        UnderOne(path, Change([], Replace(a, b)));
        EmptyUnit(path);
      }
    }

    method WalkMembers(path: seq<Seg>, a: Value, b: Value)
      requires Valid() && a.Object? && b.Object?
      modifies this
      ensures Valid() && all == old(all) + Under(path, MemberDiff(UnionKeys(a, b), a, b))
      decreases a, 0, |UnionKeys(a, b)| + 2
    {
      var keys := SortStrings(a.members.Keys + b.members.Keys);
      var n := 0;
      while n < |keys|
        invariant 0 <= n <= |keys| && Valid()
        invariant all == old(all) + Under(path, MemberDiff(keys[..n], a, b))
      {
        MemberDiffSnoc(keys, n, a, b);
        WalkKey(path, keys[n], a, b);
        UnderTwice(old(all), path, MemberDiff(keys[..n], a, b), KeyDiff(keys[n], a, b));
        n := n + 1;
      }
      TakeAll(keys);
    }

    method WalkKey(path: seq<Seg>, k: string, a: Value, b: Value)
      requires Valid() && a.Object? && b.Object?
      modifies this
      ensures Valid() && all == old(all) + Under(path, KeyDiff(k, a, b))
      decreases a, 0, 0
    {
      if k in a.members && k !in b.members {
        Note(Change(path + [Key(k)], Remove(a.members[k])));
        UnderOne(path, Change([Key(k)], Remove(a.members[k])));
      } else if k !in a.members && k in b.members {
        Note(Change(path + [Key(k)], Add(b.members[k])));
        UnderOne(path, Change([Key(k)], Add(b.members[k])));
      } else if k in a.members {
        Walk(path + [Key(k)], a.members[k], b.members[k]);
        UnderUnder(path, [Key(k)], Diff(a.members[k], b.members[k]));
      }
    }

    method WalkArray(path: seq<Seg>, a: Value, b: Value)
      requires Valid() && a.Array? && b.Array?
      modifies this
      ensures Valid() && all == old(all) + Under(path, Diff(a, b))
      decreases a, 0, |a.items| + 2
    {
      var n := Min(|a.items|, |b.items|);
      WalkLengths(path, a, b);
      WalkItems(path, n, a, b);
      ghost var done := LengthNote(a, b) + ItemDiff(n, a, b);
      UnderTwice(old(all), path, LengthNote(a, b), ItemDiff(n, a, b));
      NoteRemovals(path, n, a);
      UnderTwice(old(all), path, done, Removals(a, n, |a.items|));
      NoteAdditions(path, n, b);
      UnderTwice(old(all), path, done + Removals(a, n, |a.items|), Additions(b, n, |b.items|));
    }

    method WalkLengths(path: seq<Seg>, a: Value, b: Value)
      requires Valid() && a.Array? && b.Array?
      modifies this
      ensures Valid() && all == old(all) + Under(path, LengthNote(a, b))
    {
      if |a.items| != |b.items| {
        Note(Change(path, Resize(|a.items|, |b.items|)));
        UnderOne(path, Change([], Resize(|a.items|, |b.items|)));
        EmptyUnit(path);
      }
    }

    method WalkItems(path: seq<Seg>, n: nat, a: Value, b: Value)
      requires Valid() && a.Array? && b.Array? && n <= |a.items| && n <= |b.items|
      modifies this
      ensures Valid() && all == old(all) + Under(path, ItemDiff(n, a, b))
      decreases a, 0, n + 1
    {
      for i := 0 to n
        invariant Valid() && all == old(all) + Under(path, ItemDiff(i, a, b))
      {
        WalkItem(path, i, a, b);
        UnderTwice(old(all), path, ItemDiff(i, a, b), OneItemDiff(i, a, b));
      }
    }

    method WalkItem(path: seq<Seg>, i: nat, a: Value, b: Value)
      requires Valid() && a.Array? && b.Array? && i < |a.items| && i < |b.items|
      modifies this
      ensures Valid() && all == old(all) + Under(path, OneItemDiff(i, a, b))
      decreases a, 0, 0
    {
      Walk(path + [Index(i)], a.items[i], b.items[i]);
      UnderUnder(path, [Index(i)], Diff(a.items[i], b.items[i]));
    }

    method NoteRemovals(path: seq<Seg>, n: nat, a: Value)
      requires Valid() && a.Array? && n <= |a.items|
      modifies this
      ensures Valid() && all == old(all) + Under(path, Removals(a, n, |a.items|))
    {
      for i := n to |a.items|
        invariant Valid() && all == old(all) + Under(path, Removals(a, n, i))
      {
        Note(Change(path + [Index(i)], Remove(a.items[i])));
        UnderSnoc(path, Removals(a, n, i), Change([Index(i)], Remove(a.items[i])));
      }
    }

    method NoteAdditions(path: seq<Seg>, n: nat, b: Value)
      requires Valid() && b.Array? && n <= |b.items|
      modifies this
      ensures Valid() && all == old(all) + Under(path, Additions(b, n, |b.items|))
    {
      for i := n to |b.items|
        invariant Valid() && all == old(all) + Under(path, Additions(b, n, i))
      {
        Note(Change(path + [Index(i)], Add(b.items[i])));
        UnderSnoc(path, Additions(b, n, i), Change([Index(i)], Add(b.items[i])));
      }
    }
  }
}
