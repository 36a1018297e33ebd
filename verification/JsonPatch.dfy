/** The changes the JSON diff lists are a patch: replayed on a they give b, read backwards
    they are the diff from b to a, and there are none exactly when a and b are equal. */
module JsonPatch {
  import opened Json
  import opened JsonDiff
  import opened Options
  import opened Seqs
  import opened Sorting
  import EditScript
  import Hunks

  // ---- Replaying changes -------------------------------------------------------------

  function Child(v: Value, s: Seg): Option<Value> {
    match s
    case Key(k) => if v.Object? && k in v.members then Some(v.members[k]) else None
    case Index(i) => if v.Array? && i < |v.items| then Some(v.items[i]) else None
  }

  function WithChild(v: Value, s: Seg, c: Value): Value
    requires Child(v, s).Some?
  {
    match s
    case Key(k) => Object(v.members[k := c])
    case Index(i) => Array(v.items[i := c])
  }

  /** Adds a missing key or the next item, or takes out a key or the last item. */
  function Splice(v: Value, s: Seg, act: Action): Option<Value> {
    match s
    case Key(k) =>
      if !v.Object? then None
      else if act.Add? then (if k in v.members then None else Some(Object(v.members[k := act.added])))
      else if act.Remove? && k in v.members && v.members[k] == act.removed then Some(Object(v.members - {k}))
      else None
    case Index(i) =>
      if !v.Array? then None
      else if act.Add? then (if i == |v.items| then Some(Array(v.items + [act.added])) else None)
      else if act.Remove? && i + 1 == |v.items| && v.items[i] == act.removed then Some(Array(v.items[..i]))
      else None
  }

  /** One change at a path; None when the document is not what the change says it is. */
  function Edit(v: Value, path: seq<Seg>, act: Action): Option<Value>
    decreases |path|
  {
    if path == [] then
      match act
      case Replace(x, y) => if v == x then Some(y) else None
      case Resize(n, _) => if v.Array? && |v.items| == n then Some(v) else None
      case _ => None
    else if |path| == 1 && (act.Add? || act.Remove?) then Splice(v, path[0], act)
    else
      var c := Child(v, path[0]);
      if c == None then None
      else
        var c' := Edit(c.value, path[1..], act);
        if c' == None then None else Some(WithChild(v, path[0], c'.value))
  }

  /** Changes one after the other. */
  function EditAll(v: Value, cs: seq<Change>): Option<Value> {
    if cs == [] then Some(v)
    else
      var w := EditAll(v, Front(cs));
      if w == None then None else Edit(w.value, Last(cs).path, Last(cs).act)
  }

  /** Everything but the removals, first to last. */
  function Forward(cs: seq<Change>): seq<Change> {
    if cs == [] then []
    else if Last(cs).act.Remove? then Forward(Front(cs))
    else Forward(Front(cs)) + [Last(cs)]
  }

  /** The removals, last to first. */
  function Backward(cs: seq<Change>): seq<Change> {
    if cs == [] then []
    else if Last(cs).act.Remove? then [Last(cs)] + Backward(Front(cs))
    else Backward(Front(cs))
  }

  /** Replays a list of changes: additions and replacements in order, then removals from
      the last to the first, so that no removal shifts an item another one names. */
  function Replay(v: Value, cs: seq<Change>): Option<Value> {
    var mid := EditAll(v, Forward(cs));
    if mid == None then None else EditAll(mid.value, Backward(cs))
  }

  lemma {:induction false} EditAllSnoc(v: Value, cs: seq<Change>, c: Change)
    ensures EditAll(v, cs + [c]) ==
            if EditAll(v, cs) == None then None else Edit(EditAll(v, cs).value, c.path, c.act)
  {
    FrontLastSnoc(cs, c);
  }

  lemma {:induction false} EditAllConcat(v: Value, x: seq<Change>, y: seq<Change>)
    ensures EditAll(v, x + y) == if EditAll(v, x) == None then None else EditAll(EditAll(v, x).value, y)
    decreases |y|
  {
    if y == [] {
      EmptyUnit(x);
    } else {
      FrontLastConcat(x, y);
      EditAllConcat(v, x, Front(y));
    }
  }

  lemma {:induction false} ForwardConcat(x: seq<Change>, y: seq<Change>)
    ensures Forward(x + y) == Forward(x) + Forward(y)
    decreases |y|
  {
    if y == [] {
      EmptyUnit(x);
    } else {
      FrontLastConcat(x, y);
      ForwardConcat(x, Front(y));
      SnocOfSnoc(Forward(x), Forward(Front(y)), Last(y));
    }
  }

  lemma {:induction false} BackwardConcat(x: seq<Change>, y: seq<Change>)
    ensures Backward(x + y) == Backward(y) + Backward(x)
    decreases |y|
  {
    if y == [] {
      EmptyUnit(x);
      EmptyUnit(Backward(x));
    } else {
      FrontLastConcat(x, y);
      BackwardConcat(x, Front(y));
      Assoc([Last(y)], Backward(Front(y)), Backward(x));
    }
  }

  lemma {:induction false} ForwardUnder(path: seq<Seg>, cs: seq<Change>)
    ensures Forward(Under(path, cs)) == Under(path, Forward(cs))
  {
    if cs != [] {
      var c := Last(cs);
      ForwardUnder(path, Front(cs));
      FrontLastSnoc(Under(path, Front(cs)), Change(path + c.path, c.act));
      UnderSnoc(path, Forward(Front(cs)), c);
    }
  }

  lemma {:induction false} BackwardUnder(path: seq<Seg>, cs: seq<Change>)
    ensures Backward(Under(path, cs)) == Under(path, Backward(cs))
  {
    if cs != [] {
      var c := Last(cs);
      BackwardUnder(path, Front(cs));
      FrontLastSnoc(Under(path, Front(cs)), Change(path + c.path, c.act));
      UnderOne(path, c);
      UnderConcat(path, [c], Backward(Front(cs)));
    }
  }

  lemma {:induction false} EditUnderOne(v: Value, s: Seg, e: Value, c: Change, d: Value)
    requires Child(v, s) == Some(e) && Edit(e, c.path, c.act) == Some(d)
    ensures Edit(v, [s] + c.path, c.act) == Some(WithChild(v, s, d))
  {
    TailOfCons(s, c.path);
  }

  lemma {:induction false} WithChildTwice(v: Value, s: Seg, e: Value, d: Value)
    requires Child(v, s).Some?
    ensures Child(WithChild(v, s, e), s) == Some(e)
    ensures WithChild(WithChild(v, s, e), s, d) == WithChild(v, s, d)
    ensures WithChild(v, s, Child(v, s).value) == v
  {
    match s
    case Key(k) => assert v.members[k := e][k := d] == v.members[k := d] && v.members[k := v.members[k]] == v.members;
    case Index(i) =>
  }

  /** Changes under one step act on that child alone. */
  lemma {:induction false} EditUnder(v: Value, s: Seg, cs: seq<Change>, c: Value, d: Value)
    requires Child(v, s) == Some(c) && EditAll(c, cs) == Some(d)
    ensures EditAll(v, Under([s], cs)) == Some(WithChild(v, s, d))
  {
    if cs == [] {
      WithChildTwice(v, s, c, d);
    } else {
      var e := EditAll(c, Front(cs)).value;
      var l := Last(cs);
      EditUnder(v, s, Front(cs), c, e);
      EditAllSnoc(v, Under([s], Front(cs)), Change([s] + l.path, l.act));
      WithChildTwice(v, s, e, d);
      EditUnderOne(WithChild(v, s, e), s, e, l, d);
    }
  }

  // ---- The document between the two passes -------------------------------------------

  /** a after the additions and replacements, before the removals. */
  ghost function Mid(a: Value, b: Value): Value
    decreases a, 1, 0
  {
    if a.Object? && b.Object? then Object(MidMembers(UnionKeys(a, b), a, b))
    else if a.Array? && b.Array? then
      var n := Min(|a.items|, |b.items|);
      Array(MidItems(n, a, b) + a.items[n..] + b.items[n..])
    else b
  }

  ghost function MidMembers(keys: seq<string>, a: Value, b: Value): map<string, Value>
    requires a.Object? && b.Object?
    decreases a, 0, |keys|
  {
    if keys == [] then a.members
    else
      var m := MidMembers(Front(keys), a, b);
      var k := Last(keys);
      if k !in b.members then m
      else if k in a.members then m[k := Mid(a.members[k], b.members[k])]
      else m[k := b.members[k]]
  }

  ghost function MidItems(n: nat, a: Value, b: Value): (r: seq<Value>)
    requires a.Array? && b.Array? && n <= |a.items| && n <= |b.items|
    ensures |r| == n
    decreases a, 0, n
  {
    if n == 0 then [] else MidItems(n - 1, a, b) + [Mid(a.items[n - 1], b.items[n - 1])]
  }

  lemma {:induction false} MidMember(keys: seq<string>, a: Value, b: Value, k: string)
    requires a.Object? && b.Object? && Distinct(keys)
    ensures k !in keys ==> (k in MidMembers(keys, a, b) <==> k in a.members)
    ensures k !in keys && k in a.members ==> MidMembers(keys, a, b)[k] == a.members[k]
    ensures k in keys ==> MidAt(MidMembers(keys, a, b), a, b, k)
  {
    if keys != [] {
      FrontLast(keys);
      MidMember(Front(keys), a, b, k);
    }
  }

  /** Member k is what the first pass leaves there. */
  ghost predicate MidAt(m: map<string, Value>, a: Value, b: Value, k: string)
    requires a.Object? && b.Object?
  {
    if k !in b.members then (k in m <==> k in a.members) && (k in m ==> m[k] == a.members[k])
    else k in m && m[k] == if k in a.members then Mid(a.members[k], b.members[k]) else b.members[k]
  }

  // ---- First pass --------------------------------------------------------------------

  lemma {:induction false} ForwardGivesMid(a: Value, b: Value)
    ensures EditAll(a, Forward(Diff(a, b))) == Some(Mid(a, b))
    decreases a, 1, 0
  {
    if a.Object? && b.Object? {
      ForwardObject(a, b);
    } else if a.Array? && b.Array? {
      ForwardArray(a, b);
    } else {
      LeafPasses(a, b);
    }
  }

  lemma {:induction false} ForwardObject(a: Value, b: Value)
    requires a.Object? && b.Object?
    ensures EditAll(a, Forward(Diff(a, b))) == Some(Mid(a, b))
    decreases a, 0, |UnionKeys(a, b)| + 2
  {
    SortedStringsList(a.members.Keys + b.members.Keys);
    ForwardMembers(UnionKeys(a, b), a, b);
  }

  lemma {:induction false} LeafDiff(a: Value, b: Value)
    requires !(a.Object? && b.Object?) && !(a.Array? && b.Array?)
    ensures Diff(a, b) == if a == b then [] else [Change([], Replace(a, b))]
  {
  }

  lemma {:induction false} ReplaceEdits(a: Value, b: Value)
    ensures Edit(a, [], Replace(a, b)) == Some(b)
  {
  }

  lemma {:induction false} ReplacePasses(a: Value, b: Value, c: Change)
    requires c.path == [] && c.act == Replace(a, b)
    ensures EditAll(a, Forward([c])) == Some(b) && Backward([c]) == []
  {
    ForwardOne(c);
    EditOne(a, c);
    ReplaceEdits(a, b);
  }

  lemma {:induction false} LeafPasses(a: Value, b: Value)
    requires !(a.Object? && b.Object?) && !(a.Array? && b.Array?)
    ensures EditAll(a, Forward(Diff(a, b))) == Some(b) && Backward(Diff(a, b)) == []
  {
    LeafDiff(a, b);
    ReplacePasses(a, b, Change([], Replace(a, b)));
  }

  lemma {:induction false} ForwardOne(c: Change)
    ensures Forward([c]) == (if c.act.Remove? then [] else [c])
    ensures Backward([c]) == (if c.act.Remove? then [c] else [])
  {
    FrontLastSnoc([], c);
    EmptyUnit([c]);
    assert Front([c]) == [];
  }

  lemma {:induction false} EditOne(v: Value, c: Change)
    ensures EditAll(v, [c]) == Edit(v, c.path, c.act)
  {
    EditAllSnoc(v, [], c);
    EmptyUnit([c]);
  }

  /** What the first pass makes of member k. */
  ghost function MidKey(k: string, a: Value, b: Value, m: map<string, Value>): map<string, Value>
    requires a.Object? && b.Object?
    decreases a, 0, 0
  {
    if k !in b.members then m
    else m[k := if k in a.members then Mid(a.members[k], b.members[k]) else b.members[k]]
  }

  lemma {:induction false} ForwardKey(k: string, a: Value, b: Value, m: map<string, Value>)
    requires a.Object? && b.Object?
    requires k in m <==> k in a.members
    requires k in m ==> m[k] == a.members[k]
    ensures EditAll(Object(m), Forward(KeyDiff(k, a, b))) == Some(Object(MidKey(k, a, b, m)))
    decreases a, 0, 1
  {
    if k in a.members && k in b.members {
      ForwardSharedKey(k, a, b, m);
    } else if k in a.members {
      ForwardRemoval(Object(m), k, a.members[k]);
    } else if k in b.members {
      ForwardAddition(m, k, b.members[k]);
    } else {
      assert Forward(KeyDiff(k, a, b)) == [];
    }
  }

  lemma {:induction false} ForwardRemoval(v: Value, k: string, x: Value)
    ensures EditAll(v, Forward([Change([Key(k)], Remove(x))])) == Some(v)
  {
    ForwardOne(Change([Key(k)], Remove(x)));
  }

  lemma {:induction false} ForwardAddition(m: map<string, Value>, k: string, x: Value)
    requires k !in m
    ensures EditAll(Object(m), Forward([Change([Key(k)], Add(x))])) == Some(Object(m[k := x]))
  {
    var v, c := Object(m), Change([Key(k)], Add(x));
    assert EditAll(v, Forward([c])) == Edit(v, c.path, c.act) by {
      ForwardOne(c);
      EditOne(v, c);
    }
    EditAtStep(v, Key(k), Add(x));
  }

  lemma {:induction false} EditAtStep(v: Value, s: Seg, act: Action)
    requires act.Add? || act.Remove?
    ensures Edit(v, [s], act) == Splice(v, s, act)
  {
  }

  lemma {:induction false} BackwardRemoval(m: map<string, Value>, k: string, x: Value)
    requires k in m && m[k] == x
    ensures EditAll(Object(m), Backward([Change([Key(k)], Remove(x))])) == Some(Object(m - {k}))
  {
    ForwardOne(Change([Key(k)], Remove(x)));
    EditOne(Object(m), Change([Key(k)], Remove(x)));
    EditAtStep(Object(m), Key(k), Remove(x));
  }

  lemma {:induction false} BackwardAddition(m: map<string, Value>, k: string, x: Value)
    requires k in m && m[k] == x
    ensures EditAll(Object(m), Backward([Change([Key(k)], Add(x))])) == Some(Object(m[k := x]))
  {
    ForwardOne(Change([Key(k)], Add(x)));
    assert m[k := x] == m;
  }

  lemma {:induction false} ForwardSharedKey(k: string, a: Value, b: Value, m: map<string, Value>)
    requires a.Object? && b.Object? && k in a.members && k in b.members && k in m
    requires m[k] == a.members[k]
    ensures EditAll(Object(m), Forward(KeyDiff(k, a, b))) == Some(Object(MidKey(k, a, b, m)))
    decreases a, 0, 0
  {
    var x, y := a.members[k], b.members[k];
    ForwardGivesMid(x, y);
    ForwardUnder([Key(k)], Diff(x, y));
    EditUnder(Object(m), Key(k), Forward(Diff(x, y)), x, Mid(x, y));
  }

  lemma {:induction false} ForwardMembers(keys: seq<string>, a: Value, b: Value)
    requires a.Object? && b.Object? && Distinct(keys)
    ensures EditAll(a, Forward(MemberDiff(keys, a, b))) == Some(Object(MidMembers(keys, a, b)))
    decreases a, 0, |keys| + 1
  {
    if keys != [] {
      var k := Last(keys);
      ForwardMembers(Front(keys), a, b);
      ForwardConcat(MemberDiff(Front(keys), a, b), KeyDiff(k, a, b));
      EditAllConcat(a, Forward(MemberDiff(Front(keys), a, b)), Forward(KeyDiff(k, a, b)));
      MidMember(Front(keys), a, b, k);
      ForwardKey(k, a, b, MidMembers(Front(keys), a, b));
    }
  }

  lemma {:induction false} ForwardItems(n: nat, a: Value, b: Value)
    requires a.Array? && b.Array? && n <= |a.items| && n <= |b.items|
    ensures EditAll(a, Forward(ItemDiff(n, a, b))) == Some(Array(MidItems(n, a, b) + a.items[n..]))
    decreases a, 0, n + 1
  {
    if n == 0 {
      EmptyUnit(a.items);
      TakeAll(a.items);
    } else {
      ForwardItems(n - 1, a, b);
      ForwardConcat(ItemDiff(n - 1, a, b), OneItemDiff(n - 1, a, b));
      EditAllConcat(a, Forward(ItemDiff(n - 1, a, b)), Forward(OneItemDiff(n - 1, a, b)));
      ForwardOneItem(n, a, b, MidItems(n - 1, a, b));
    }
  }

  lemma {:induction false} ForwardOneItem(n: nat, a: Value, b: Value, done: seq<Value>)
    requires a.Array? && b.Array? && 0 < n <= |a.items| && n <= |b.items| && |done| == n - 1
    ensures EditAll(Array(done + a.items[n - 1..]), Forward(OneItemDiff(n - 1, a, b)))
         == Some(Array(done + [Mid(a.items[n - 1], b.items[n - 1])] + a.items[n..]))
    decreases a, 0, 0
  {
    var x, y := a.items[n - 1], b.items[n - 1];
    ForwardGivesMid(x, y);
    ForwardUnder([Index(n - 1)], Diff(x, y));
    SetFirst(done, a.items, n, Mid(x, y));
    EditUnder(Array(done + a.items[n - 1..]), Index(n - 1), Forward(Diff(x, y)), x, Mid(x, y));
  }

  lemma {:induction false} ForwardAdditions(xs: seq<Value>, b: Value, lo: nat, hi: nat)
    requires b.Array? && lo <= hi <= |b.items| && (lo < hi ==> |xs| == lo)
    ensures EditAll(Array(xs), Additions(b, lo, hi)) == Some(Array(xs + b.items[lo..hi]))
    decreases hi
  {
    if lo == hi {
      EmptyUnit(xs);
    } else {
      ForwardAdditions(xs, b, lo, hi - 1);
      SliceSnoc(xs, b.items, lo, hi);
      EditAllSnoc(Array(xs), Additions(b, lo, hi - 1), Change([Index(hi - 1)], Add(b.items[hi - 1])));
    }
  }

  lemma {:induction false} AdditionsOnlyForward(b: Value, lo: nat, hi: nat)
    requires b.Array? && lo <= hi <= |b.items|
    ensures Forward(Additions(b, lo, hi)) == Additions(b, lo, hi) && Backward(Additions(b, lo, hi)) == []
    decreases hi
  {
    if lo < hi {
      AdditionsOnlyForward(b, lo, hi - 1);
      FrontLastSnoc(Additions(b, lo, hi - 1), Change([Index(hi - 1)], Add(b.items[hi - 1])));
    }
  }

  lemma {:induction false} RemovalsOnlyBackward(a: Value, lo: nat, hi: nat)
    requires a.Array? && lo <= hi <= |a.items|
    ensures Forward(Removals(a, lo, hi)) == []
    decreases hi
  {
    if lo < hi {
      RemovalsOnlyBackward(a, lo, hi - 1);
      FrontLastSnoc(Removals(a, lo, hi - 1), Change([Index(hi - 1)], Remove(a.items[hi - 1])));
    }
  }

  /** The four parts of an array's changes, seen by the two passes. */
  lemma {:induction false} ArrayPasses(a: Value, b: Value, n: nat)
    requires a.Array? && b.Array? && n == Min(|a.items|, |b.items|)
    ensures Forward(Diff(a, b)) == LengthNote(a, b) + Forward(ItemDiff(n, a, b)) + Additions(b, n, |b.items|)
    ensures Backward(Diff(a, b)) == Backward(Removals(a, n, |a.items|)) + Backward(ItemDiff(n, a, b))
  {
    var l, i, r, d := LengthNote(a, b), ItemDiff(n, a, b), Removals(a, n, |a.items|), Additions(b, n, |b.items|);
    NotePasses(a, b);
    RemovalsOnlyBackward(a, n, |a.items|);
    AdditionsOnlyForward(b, n, |b.items|);
    ForwardConcat(l, i);
    ForwardConcat(l + i, r);
    ForwardConcat(l + i + r, d);
    EmptyUnit(l + Forward(i));
    BackwardConcat(l, i);
    BackwardConcat(l + i, r);
    BackwardConcat(l + i + r, d);
    EmptyUnit(Backward(i));
    EmptyUnit(Backward(r) + Backward(i));
  }

  lemma {:induction false} NotePasses(a: Value, b: Value)
    requires a.Array? && b.Array?
    ensures Forward(LengthNote(a, b)) == LengthNote(a, b) && Backward(LengthNote(a, b)) == []
    ensures EditAll(a, LengthNote(a, b)) == Some(a)
  {
    if |a.items| != |b.items| {
      ForwardOne(Change([], Resize(|a.items|, |b.items|)));
      EditOne(a, Change([], Resize(|a.items|, |b.items|)));
    }
  }

  lemma {:induction false} ForwardArray(a: Value, b: Value)
    requires a.Array? && b.Array?
    ensures EditAll(a, Forward(Diff(a, b))) == Some(Mid(a, b))
    decreases a, 0, |a.items| + 2
  {
    hide Forward, EditAll, Edit;
    var n := Min(|a.items|, |b.items|);
    var xs := MidItems(n, a, b) + a.items[n..];
    ArrayPasses(a, b, n);
    NotePasses(a, b);
    ForwardItems(n, a, b);
    EditAllConcat(a, LengthNote(a, b), Forward(ItemDiff(n, a, b)));
    EditAllConcat(a, LengthNote(a, b) + Forward(ItemDiff(n, a, b)), Additions(b, n, |b.items|));
    ForwardAdditions(xs, b, n, |b.items|);
    assert b.items[n..|b.items|] == b.items[n..];
  }

  // ---- Second pass -------------------------------------------------------------------

  /** The members once the keys are what they are in b. */
  ghost function Restored(keys: seq<string>, b: Value, m: map<string, Value>): map<string, Value>
    requires b.Object?
  {
    if keys == [] then m
    else Restored(Front(keys), b, if Last(keys) in b.members then m[Last(keys) := b.members[Last(keys)]]
                                  else m - {Last(keys)})
  }

  lemma {:induction false} RestoredMember(keys: seq<string>, b: Value, m: map<string, Value>, k: string)
    requires b.Object?
    ensures var r := Restored(keys, b, m);
            if k in keys then (k in r <==> k in b.members) && (k in r ==> r[k] == b.members[k])
            else (k in r <==> k in m) && (k in r ==> r[k] == m[k])
  {
    if keys != [] {
      var l := Last(keys);
      FrontLast(keys);
      RestoredMember(Front(keys), b, if l in b.members then m[l := b.members[l]] else m - {l}, k);
    }
  }

  lemma {:induction false} BackwardGivesB(a: Value, b: Value)
    ensures EditAll(Mid(a, b), Backward(Diff(a, b))) == Some(b)
    decreases a, 1, 0
  {
    if a.Object? && b.Object? {
      BackwardObject(a, b);
    } else if a.Array? && b.Array? {
      BackwardArray(a, b);
    } else {
      LeafPasses(a, b);
    }
  }

  lemma {:induction false} BackwardKey(k: string, a: Value, b: Value, m: map<string, Value>)
    requires a.Object? && b.Object? && MidAt(m, a, b, k)
    ensures EditAll(Object(m), Backward(KeyDiff(k, a, b))) == Some(Object(
              if k in b.members then m[k := b.members[k]] else m - {k}))
    decreases a, 0, 1
  {
    if k in a.members && k in b.members {
      BackwardSharedKey(k, a, b, m);
    } else if k in a.members {
      BackwardRemoval(m, k, a.members[k]);
    } else if k in b.members {
      BackwardAddition(m, k, b.members[k]);
    } else {
      assert m - {k} == m && Backward(KeyDiff(k, a, b)) == [];
    }
  }

  lemma {:induction false} BackwardSharedKey(k: string, a: Value, b: Value, m: map<string, Value>)
    requires a.Object? && b.Object? && k in a.members && k in b.members && MidAt(m, a, b, k)
    ensures EditAll(Object(m), Backward(KeyDiff(k, a, b))) == Some(Object(m[k := b.members[k]]))
    decreases a, 0, 0
  {
    var x, y := a.members[k], b.members[k];
    BackwardGivesB(x, y);
    BackwardUnder([Key(k)], Diff(x, y));
    EditUnder(Object(m), Key(k), Backward(Diff(x, y)), m[k], y);
  }

  lemma {:induction false} BackwardMembers(keys: seq<string>, a: Value, b: Value, m: map<string, Value>)
    requires a.Object? && b.Object? && Distinct(keys) && forall k :: k in keys ==> MidAt(m, a, b, k)
    ensures EditAll(Object(m), Backward(MemberDiff(keys, a, b))) == Some(Object(Restored(keys, b, m)))
    decreases a, 0, |keys| + 1
  {
    if keys != [] {
      var k := Last(keys);
      var m' := if k in b.members then m[k := b.members[k]] else m - {k};
      FrontLast(keys);
      BackwardKey(k, a, b, m);
      BackwardConcat(MemberDiff(Front(keys), a, b), KeyDiff(k, a, b));
      EditAllConcat(Object(m), Backward(KeyDiff(k, a, b)), Backward(MemberDiff(Front(keys), a, b)));
      assert forall j :: j in Front(keys) ==> j in keys && j != k;
      BackwardMembers(Front(keys), a, b, m');
    }
  }

  lemma {:induction false} BackwardObject(a: Value, b: Value)
    requires a.Object? && b.Object?
    ensures EditAll(Mid(a, b), Backward(Diff(a, b))) == Some(b)
    decreases a, 0, |UnionKeys(a, b)| + 2
  {
    var keys := UnionKeys(a, b);
    var m := MidMembers(keys, a, b);
    SortedStringsList(a.members.Keys + b.members.Keys);
    forall k ensures k in keys ==> MidAt(m, a, b, k) {
      MidMember(keys, a, b, k);
    }
    BackwardMembers(keys, a, b, m);
    AllRestored(a, b);
  }

  lemma {:induction false} AllRestored(a: Value, b: Value)
    requires a.Object? && b.Object?
    ensures Restored(UnionKeys(a, b), b, MidMembers(UnionKeys(a, b), a, b)) == b.members
  {
    var keys := UnionKeys(a, b);
    var m := MidMembers(keys, a, b);
    var r := Restored(keys, b, m);
    SortedStringsList(a.members.Keys + b.members.Keys);
    forall k ensures (k in r <==> k in b.members) && (k in r ==> r[k] == b.members[k]) {
      MemberRestored(keys, a, b, k);
    }
    assert r == b.members;
  }

  lemma {:induction false} MemberRestored(keys: seq<string>, a: Value, b: Value, k: string)
    requires a.Object? && b.Object? && Distinct(keys)
    requires forall j :: j in keys <==> j in a.members || j in b.members
    ensures var r := Restored(keys, b, MidMembers(keys, a, b));
            (k in r <==> k in b.members) && (k in r ==> r[k] == b.members[k])
  {
    RestoredMember(keys, b, MidMembers(keys, a, b), k);
    MidMember(keys, a, b, k);
  }

  lemma {:induction false} BackwardRemovalSnoc(v: Value, cs: seq<Change>, p: seq<Seg>, x: Value, w: Value)
    requires Edit(v, p, Remove(x)) == Some(w)
    ensures EditAll(v, Backward(cs + [Change(p, Remove(x))])) == EditAll(w, Backward(cs))
  {
    var c := Change(p, Remove(x));
    FrontLastSnoc(cs, c);
    EditOne(v, c);
    EditAllConcat(v, [c], Backward(cs));
  }

  lemma {:induction false} BackwardRemovals(xs: seq<Value>, a: Value, lo: nat, hi: nat)
    requires a.Array? && lo <= hi <= |a.items| && (lo < hi ==> |xs| == lo)
    ensures EditAll(Array(xs + a.items[lo..hi]), Backward(Removals(a, lo, hi))) == Some(Array(xs))
    decreases hi
  {
    if lo == hi {
      EmptyUnit(xs);
    } else {
      CutLast(xs, a.items, lo, hi);
      BackwardRemovalSnoc(Array(xs + a.items[lo..hi]), Removals(a, lo, hi - 1), [Index(hi - 1)], a.items[hi - 1],
                          Array(xs + a.items[lo..hi - 1]));
      BackwardRemovals(xs, a, lo, hi - 1);
    }
  }

  lemma {:induction false} BackwardItems(n: nat, a: Value, b: Value, tail: seq<Value>)
    requires a.Array? && b.Array? && n <= |a.items| && n <= |b.items|
    ensures EditAll(Array(MidItems(n, a, b) + tail), Backward(ItemDiff(n, a, b))) == Some(Array(b.items[..n] + tail))
    decreases a, 0, n + 1
  {
    if n == 0 {
      assert Backward(ItemDiff(n, a, b)) == [];
    } else {
      var tail' := [b.items[n - 1]] + tail;
      var v := Array(MidItems(n, a, b) + tail);
      var w := Array(MidItems(n - 1, a, b) + tail');
      assert EditAll(v, Backward(OneItemDiff(n - 1, a, b))) == Some(w) by {
        BackwardOneItem(n - 1, a, b, MidItems(n - 1, a, b), tail);
      }
      EditAllConcat(v, Backward(OneItemDiff(n - 1, a, b)), Backward(ItemDiff(n - 1, a, b)));
      BackwardConcat(ItemDiff(n - 1, a, b), OneItemDiff(n - 1, a, b));
      BackwardItems(n - 1, a, b, tail');
      assert b.items[..n - 1] + tail' == b.items[..n] + tail by {
        TakeLast(b.items, n);
        Assoc(b.items[..n - 1], [b.items[n - 1]], tail);
      }
    }
  }

  lemma {:induction false} BackwardOneItem(i: nat, a: Value, b: Value, done: seq<Value>, tail: seq<Value>)
    requires a.Array? && b.Array? && i < |a.items| && i < |b.items| && |done| == i
    ensures EditAll(Array(done + [Mid(a.items[i], b.items[i])] + tail), Backward(OneItemDiff(i, a, b)))
         == Some(Array(done + ([b.items[i]] + tail)))
    decreases a, 0, 0
  {
    var x, y := a.items[i], b.items[i];
    BackwardGivesB(x, y);
    BackwardUnder([Index(i)], Diff(x, y));
    SetBetween(done, i, Mid(x, y), tail, y);
    EditUnder(Array(done + [Mid(x, y)] + tail), Index(i), Backward(Diff(x, y)), Mid(x, y), y);
  }

  lemma {:induction false} BackwardArray(a: Value, b: Value)
    requires a.Array? && b.Array?
    ensures EditAll(Mid(a, b), Backward(Diff(a, b))) == Some(b)
    decreases a, 0, |a.items| + |b.items| + 2
  {
    var n := Min(|a.items|, |b.items|);
    var mid := MidItems(n, a, b);
    ArrayPasses(a, b, n);
    EditAllConcat(Mid(a, b), Backward(Removals(a, n, |a.items|)), Backward(ItemDiff(n, a, b)));
    EmptyUnit(mid + a.items[n..]);
    EmptyUnit(mid);
    SplitAt(b.items, n);
    TakeAll(b.items);
    if |a.items| >= |b.items| {
      assert a.items[n..|a.items|] == a.items[n..];
      BackwardRemovals(mid, a, n, |a.items|);
      EmptyUnit(b.items);
      BackwardItems(n, a, b, []);
    } else {
      BackwardItems(n, a, b, b.items[n..]);
    }
  }

  // ---- The theorems ------------------------------------------------------------------

  /** The changes are a complete patch. */
  lemma {:induction false} DiffPatches(a: Value, b: Value)
    ensures Replay(a, Diff(a, b)) == Some(b)
  {
    ForwardGivesMid(a, b);
    BackwardGivesB(a, b);
  }

  lemma {:induction false} NoSelfChanges(a: Value)
    ensures Diff(a, a) == []
    decreases a, 1, 0
  {
    if a.Object? {
      NoMemberChanges(UnionKeys(a, a), a);
    } else if a.Array? {
      NoItemChanges(|a.items|, a);
    }
  }

  lemma {:induction false} NoMemberChanges(keys: seq<string>, a: Value)
    requires a.Object?
    ensures MemberDiff(keys, a, a) == []
    decreases a, 0, |keys|
  {
    if keys != [] {
      NoMemberChanges(Front(keys), a);
      if Last(keys) in a.members { NoSelfChanges(a.members[Last(keys)]); }
    }
  }

  lemma {:induction false} NoItemChanges(n: nat, a: Value)
    requires a.Array? && n <= |a.items|
    ensures ItemDiff(n, a, a) == []
    decreases a, 0, n
  {
    if n > 0 {
      NoItemChanges(n - 1, a);
      NoSelfChanges(a.items[n - 1]);
    }
  }

  /** Nothing is listed exactly for equal documents. */
  lemma {:induction false} NoChangesIffEqual(a: Value, b: Value)
    ensures Diff(a, b) == [] <==> a == b
  {
    NoSelfChanges(a);
    DiffPatches(a, b);
  }

  /** A change read from b to a. */
  function Flip(act: Action): Action {
    match act
    case Add(x) => Remove(x)
    case Remove(x) => Add(x)
    case Replace(x, y) => Replace(y, x)
    case Resize(n, m) => Resize(m, n)
  }

  function FlipAll(cs: seq<Change>): (r: seq<Change>)
    ensures |r| == |cs|
  {
    if cs == [] then [] else FlipAll(Front(cs)) + [Change(Last(cs).path, Flip(Last(cs).act))]
  }

  lemma {:induction false} FlipConcat(x: seq<Change>, y: seq<Change>)
    ensures FlipAll(x + y) == FlipAll(x) + FlipAll(y)
    decreases |y|
  {
    if y == [] {
      EmptyUnit(x);
    } else {
      FrontLastConcat(x, y);
      FlipConcat(x, Front(y));
      SnocOfSnoc(FlipAll(x), FlipAll(Front(y)), Change(Last(y).path, Flip(Last(y).act)));
    }
  }

  lemma {:induction false} FlipUnder(path: seq<Seg>, cs: seq<Change>)
    ensures FlipAll(Under(path, cs)) == Under(path, FlipAll(cs))
  {
    if cs != [] {
      FlipUnder(path, Front(cs));
      FrontLastSnoc(Under(path, Front(cs)), Change(path + Last(cs).path, Last(cs).act));
      UnderSnoc(path, FlipAll(Front(cs)), Change(Last(cs).path, Flip(Last(cs).act)));
    }
  }

  lemma {:induction false} FlipOne(c: Change)
    ensures FlipAll([c]) == [Change(c.path, Flip(c.act))]
  {
    FrontLastSnoc([], c);
    EmptyUnit([c]);
    assert Front([c]) == [];
  }

  lemma {:induction false} FlipRemovals(a: Value, lo: nat, hi: nat)
    requires a.Array? && lo <= hi <= |a.items|
    ensures FlipAll(Removals(a, lo, hi)) == Additions(a, lo, hi)
    ensures FlipAll(Additions(a, lo, hi)) == Removals(a, lo, hi)
    decreases hi
  {
    if lo < hi {
      FlipRemovals(a, lo, hi - 1);
      FrontLastSnoc(Removals(a, lo, hi - 1), Change([Index(hi - 1)], Remove(a.items[hi - 1])));
      FrontLastSnoc(Additions(a, lo, hi - 1), Change([Index(hi - 1)], Add(a.items[hi - 1])));
    }
  }

  /** The diff from b to a is the diff from a to b with every change turned round. */
  lemma {:induction false} DiffTurnsRound(a: Value, b: Value)
    ensures Diff(b, a) == FlipAll(Diff(a, b)) && |Diff(b, a)| == |Diff(a, b)|
    decreases a, 1, 0
  {
    if a.Object? && b.Object? {
      assert a.members.Keys + b.members.Keys == b.members.Keys + a.members.Keys;
      MembersTurnRound(UnionKeys(a, b), a, b);
    } else if a.Array? && b.Array? {
      ArraysTurnRound(a, b);
    } else if a != b {
      FlipOne(Change([], Replace(a, b)));
    }
  }

  lemma {:induction false} MembersTurnRound(keys: seq<string>, a: Value, b: Value)
    requires a.Object? && b.Object?
    ensures MemberDiff(keys, b, a) == FlipAll(MemberDiff(keys, a, b))
    decreases a, 0, |keys|
  {
    if keys != [] {
      var k := Last(keys);
      MembersTurnRound(Front(keys), a, b);
      FlipConcat(MemberDiff(Front(keys), a, b), KeyDiff(k, a, b));
      if k in a.members && k in b.members {
        DiffTurnsRound(a.members[k], b.members[k]);
        FlipUnder([Key(k)], Diff(a.members[k], b.members[k]));
      } else if k in a.members {
        FlipOne(Change([Key(k)], Remove(a.members[k])));
      } else if k in b.members {
        FlipOne(Change([Key(k)], Add(b.members[k])));
      }
    }
  }

  lemma {:induction false} ItemDiffStep(n: nat, a: Value, b: Value)
    requires a.Array? && b.Array? && 0 < n <= |a.items| && n <= |b.items|
    ensures ItemDiff(n, a, b) == ItemDiff(n - 1, a, b) + OneItemDiff(n - 1, a, b)
  {
  }

  lemma {:induction false} ItemsTurnRound(n: nat, a: Value, b: Value)
    requires a.Array? && b.Array? && n <= |a.items| && n <= |b.items|
    ensures ItemDiff(n, b, a) == FlipAll(ItemDiff(n, a, b))
    decreases a, 0, n + 1
  {
    if n > 0 {
      var x, y := ItemDiff(n - 1, a, b), OneItemDiff(n - 1, a, b);
      ItemDiffStep(n, a, b);
      ItemDiffStep(n, b, a);
      FlipConcat(x, y);
      OneItemTurnsRound(n - 1, a, b);
      ItemsTurnRound(n - 1, a, b);
    }
  }

  lemma {:induction false} OneItemTurnsRound(i: nat, a: Value, b: Value)
    requires a.Array? && b.Array? && i < |a.items| && i < |b.items|
    ensures OneItemDiff(i, b, a) == FlipAll(OneItemDiff(i, a, b))
    decreases a, 0, 0
  {
    DiffTurnsRound(a.items[i], b.items[i]);
    FlipUnder([Index(i)], Diff(a.items[i], b.items[i]));
  }

  /** Four parts turned round, of which the third or the fourth is empty. */
  lemma {:induction false} FlipFour(l: seq<Change>, i: seq<Change>, r: seq<Change>, d: seq<Change>)
    requires r == [] || d == []
    ensures FlipAll(l + i + r + d) == FlipAll(l) + FlipAll(i) + FlipAll(d) + FlipAll(r)
  {
    FlipConcat(l + i + r, d);
    FlipConcat(l + i, r);
    FlipConcat(l, i);
    SwapEmpty(FlipAll(l) + FlipAll(i), FlipAll(r), FlipAll(d));
  }

  lemma {:induction false} NoteTurnsRound(a: Value, b: Value)
    requires a.Array? && b.Array?
    ensures FlipAll(LengthNote(a, b)) == LengthNote(b, a)
  {
    if |a.items| != |b.items| { FlipOne(Change([], Resize(|a.items|, |b.items|))); }
  }

  lemma {:induction false} SwapEmpty<T>(x: seq<T>, y: seq<T>, z: seq<T>)
    requires y == [] || z == []
    ensures x + y + z == x + z + y
  {
  }

  lemma {:induction false} ArraysTurnRound(a: Value, b: Value)
    requires a.Array? && b.Array?
    ensures Diff(b, a) == FlipAll(Diff(a, b))
    decreases a, 0, |a.items| + 2
  {
    var n := Min(|a.items|, |b.items|);
    ItemsTurnRound(n, a, b);
    NoteTurnsRound(a, b);
    FlipRemovals(a, n, |a.items|);
    FlipRemovals(b, n, |b.items|);
    assert Diff(b, a) == LengthNote(b, a) + ItemDiff(n, b, a) + Removals(b, n, |b.items|) + Additions(a, n, |a.items|);
    FlipFour(LengthNote(a, b), ItemDiff(n, a, b), Removals(a, n, |a.items|), Additions(b, n, |b.items|));
  }

  // ---- DiffJSON ----------------------------------------------------------------------

  const DEFAULT_MAX_CHANGES := 50

  datatype JsonDiffResult =
    | NotJson(text: Hunks.TextDiff)
    | Same
    | Listed(lines: seq<Change>, more: nat, total: nat)

  /** Compares two documents, given what parsing made of them: lists up to maxChanges
      changes and counts all. Input that does not parse is compared as text. */
  method DiffJson(a: string, b: string, va: Option<Value>, vb: Option<Value>, maxChanges: int)
    returns (r: JsonDiffResult, ghost ops: seq<EditScript.Op>)
    ensures r.NotJson? <==> va == None || vb == None
    ensures r.NotJson? ==> Hunks.Says(a, b, if maxChanges <= 0 then 50 else maxChanges, r.text)
    ensures r.NotJson? && r.text.TextDiff? ==> Hunks.Shows(a, b, r.text, ops)
    ensures r == Same <==> va != None && va == vb
    ensures r.Listed? ==> var limit := if maxChanges <= 0 then 50 else maxChanges;
              && r.total == |Diff(va.value, vb.value)| == |r.lines| + r.more
              && r.lines == Diff(va.value, vb.value)[..Min(limit, r.total)]
              && (r.more == 0 ==> Replay(va.value, r.lines) == vb)
  {
    hide Diff, Replay, Under;
    var limit := if maxChanges <= 0 then DEFAULT_MAX_CHANGES else maxChanges;
    if va == None || vb == None {
      var text;
      text, ops := Hunks.DiffText(a, b, limit);
      return NotJson(text), ops;
    }
    ops := [];
    var d := new JsonDiffer(limit);
    d.Walk([], va.value, vb.value);
    UnderRoot(Diff(va.value, vb.value));
    EmptyUnit(Diff(va.value, vb.value));
    NoChangesIffEqual(va.value, vb.value);
    DiffPatches(va.value, vb.value);
    if d.total == 0 { return Same, []; }
    TakeAll(Diff(va.value, vb.value));
    r := Listed(d.lines, if d.total > limit then d.total - limit else 0, d.total);
  }

  lemma {:induction false} UnderRoot(cs: seq<Change>)
    ensures Under([], cs) == cs
  {
    if cs != [] {
      UnderRoot(Front(cs));
      FrontLast(cs);
      EmptyUnit(Last(cs).path);
    }
  }
}
