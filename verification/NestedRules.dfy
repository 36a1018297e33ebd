/** JSON patches of any number of paths, each of which leads into another or parts from it: what
    bodies make of the rule's values, and that later bodies never notice. */
module NestedRules {
  import opened BodyPatch
  import opened Json
  import opened Options
  import opened RuleValues
  import opened Seqs
  import opened SetPath
  import opened Text

  /** As written, q goes on where p ends. */
  predicate Inside(p: seq<string>, q: seq<string>) {
    |p| < |q| && p <= q
  }

  /** Every later path goes on from an earlier one, or parts from it in every document. */
  predicate Nested(paths: seq<string>) {
    forall i, j :: 0 <= i < j < |paths| ==> NestedPair(paths, i, j)
  }

  predicate NestedPair(paths: seq<string>, i: nat, j: nat)
    requires i < |paths| && j < |paths|
  {
    Inside(Segs(paths[i]), Segs(paths[j])) || Apart(Segs(paths[i]), Segs(paths[j]))
  }

  lemma {:induction false} ApartTurned(p: seq<string>, q: seq<string>)
    requires Apart(p, q)
    ensures Apart(q, p)
    decreases |p|
  {
    if p[0] == q[0] { ApartTurned(p[1..], q[1..]); }
  }

  lemma {:induction false} ApartNotBegun(p: seq<string>, q: seq<string>)
    requires Apart(p, q)
    ensures !(p <= q)
    decreases |p|
  {
    if p[0] == q[0] {
      ApartNotBegun(p[1..], q[1..]);
      ConsPrefix(p, q);
    }
  }

  /** Apart paths stay apart when one goes on. */
  lemma {:induction false} ApartGoesOn(p: seq<string>, q: seq<string>, rest: seq<string>)
    requires Apart(p, q)
    ensures Apart(p, q + rest)
    decreases |p|
  {
    TailOfConcat(q, rest);
    if p[0] == q[0] { ApartGoesOn(p[1..], q[1..], rest); }
  }

  // ---- The paths one after the other -------------------------------------------------

  function Step(d: Value, path: string, v: Value): Result {
    if TrimSpace(path) == "" then Err(EmptyPath) else Set(d, Segs(path), v)
  }

  /** The first k paths set. */
  function SetUpTo(d: Value, paths: seq<string>, vs: seq<Value>, k: nat): Result
    requires k <= |paths| == |vs|
  {
    if k == 0 then Ok(d)
    else
      match SetUpTo(d, paths, vs, k - 1)
      case Err(e) => Err(e)
      case Ok(x) => Step(x, paths[k - 1], vs[k - 1])
  }

  /** Equal so far, and the same values from there on. */
  lemma {:induction false} SameOnwards(d: Value, paths: seq<string>, vs: seq<Value>, ws: seq<Value>, from: nat, to: nat)
    requires from <= to <= |paths| == |vs| == |ws| && (forall i :: from <= i < to ==> vs[i] == ws[i])
    requires SetUpTo(d, paths, vs, from) == SetUpTo(d, paths, ws, from)
    ensures SetUpTo(d, paths, vs, to) == SetUpTo(d, paths, ws, to)
  {
    if from < to { SameOnwards(d, paths, vs, ws, from, to - 1); }
  }

  // ---- What a body makes of the values -----------------------------------------------

  /** Value i once path m has been set in a body. */
  function GrowAt(paths: seq<string>, vs: seq<Value>, m: nat, i: nat): Value
    requires i < |paths| == |vs| && m < |paths|
  {
    var p, q := Segs(paths[i]), Segs(paths[m]);
    if i < m && Inside(p, q) && Set(vs[i], q[|p|..], vs[m]).Ok? then Set(vs[i], q[|p|..], vs[m]).value else vs[i]
  }

  function Grow(paths: seq<string>, vs: seq<Value>, m: nat): (ws: seq<Value>)
    requires m < |paths| == |vs|
    ensures |ws| == |vs|
  {
    seq(|vs|, i requires 0 <= i < |vs| => GrowAt(paths, vs, m, i))
  }

  /** The values once the first m paths have been set. */
  function Grown(paths: seq<string>, vs: seq<Value>, m: nat): (ws: seq<Value>)
    requires m <= |paths| == |vs|
    ensures |ws| == |vs|
  {
    if m == 0 then vs else Grow(paths, Grown(paths, vs, m - 1), m - 1)
  }

  /** Path m can be set in every value it leads into. */
  predicate Goes(paths: seq<string>, vs: seq<Value>, m: nat)
    requires m < |paths| == |vs|
  {
    forall i :: 0 <= i < m ==> GoesInto(paths, vs, m, i)
  }

  predicate GoesInto(paths: seq<string>, vs: seq<Value>, m: nat, i: nat)
    requires i < |paths| == |vs| && m < |paths|
  {
    var p, q := Segs(paths[i]), Segs(paths[m]);
    Inside(p, q) ==> Set(vs[i], q[|p|..], vs[m]).Ok?
  }

  /** The first m paths all can. */
  predicate AllGo(paths: seq<string>, vs: seq<Value>, m: nat)
    requires m <= |paths| == |vs|
  {
    m == 0 || (AllGo(paths, vs, m - 1) && Goes(paths, Grown(paths, vs, m - 1), m - 1))
  }

  /** Each of the first m values has in it those of the paths that go on from its own. */
  predicate Settled(paths: seq<string>, vs: seq<Value>, m: nat)
    requires m <= |paths| == |vs|
  {
    forall i, j :: 0 <= i < j < m ==> HoldsIt(paths, vs, i, j)
  }

  predicate HoldsIt(paths: seq<string>, vs: seq<Value>, i: nat, j: nat)
    requires i < |paths| == |vs| && j < |paths|
  {
    var p, q := Segs(paths[i]), Segs(paths[j]);
    Inside(p, q) ==> Get(vs[i], q[|p|..]) == Some(vs[j])
  }

  lemma {:induction false} RestOfRest(p: seq<string>, q: seq<string>, r: seq<string>)
    requires Inside(p, q) && Inside(q, r)
    ensures Inside(p, r) && r[|p|..] == q[|p|..] + r[|q|..]
  {
  }

  /** Two beginnings of a path, in order. */
  lemma {:induction false} BothBegin(p: seq<string>, q: seq<string>, r: seq<string>)
    requires (Inside(p, q) || Apart(p, q)) && Inside(p, r) && Inside(q, r)
    ensures Inside(p, q)
  {
    if Apart(p, q) {
      TakePrefix(q, r);
      ApartGoesOn(p, q, r[|q|..]);
      ApartNotBegun(p, r);
    }
  }

  /** Apart paths that both go on from one are apart behind it. */
  lemma {:induction false} ApartBehind(a: seq<string>, p: seq<string>, q: seq<string>)
    requires Inside(a, p) && Inside(a, q) && Apart(p, q)
    ensures Apart(p[|a|..], q[|a|..])
    decreases |a|
  {
    if a != [] {
      ApartBehind(a[1..], p[1..], q[1..]);
    }
  }

  /** Growing keeps the values settled, and settles one more. */
  lemma {:induction false} GrowSettles(paths: seq<string>, vs: seq<Value>, m: nat, i: nat, j: nat)
    requires m < |paths| == |vs| && Nested(paths) && Settled(paths, vs, m) && Goes(paths, vs, m) && i < j <= m
    ensures HoldsIt(paths, Grow(paths, vs, m), i, j)
  {
    var p, q, r := Segs(paths[i]), Segs(paths[j]), Segs(paths[m]);
    assert NestedPair(paths, i, j) && GoesInto(paths, vs, m, i);
    if Inside(p, q) {
      if j == m {
        SetGet(vs[i], q[|p|..], vs[m], []);
        EmptyUnit(q[|p|..]);
      } else {
        assert HoldsIt(paths, vs, i, j) && GoesInto(paths, vs, m, j);
        assert NestedPair(paths, j, m) && NestedPair(paths, i, m);
        if Inside(q, r) {
          RestOfRest(p, q, r);
          GetThrough(vs[i], q[|p|..], r[|q|..], vs[m]);
        } else if Inside(p, r) {
          ApartTurned(q, r);
          ApartBehind(p, r, q);
          ApartDiverge(vs[i], r[|p|..], q[|p|..]);
          SetElsewhere(vs[i], r[|p|..], vs[m], q[|p|..]);
        }
      }
    }
  }

  /** Setting below what can be read is read there. */
  lemma {:induction false} GetThrough(d: Value, p: seq<string>, rest: seq<string>, w: Value)
    requires Get(d, p).Some? && Set(Get(d, p).value, rest, w).Ok?
    ensures Set(d, p + rest, w).Ok? && Get(Set(d, p + rest, w).value, p) == Some(Set(Get(d, p).value, rest, w).value)
  {
    SetThere(d, p, rest, w);
    SetGet(d, p, Set(Get(d, p).value, rest, w).value, []);
    EmptyUnit(p);
  }

  // ---- Later bodies ------------------------------------------------------------------

  /** Setting where something can be read and setting apart from it can be swapped. */
  lemma {:induction false} Swapped(d: Value, p: seq<string>, q: seq<string>, y: Value, z: Value)
    requires Get(d, p).Some? && Apart(p, q) && Set(d, p, y).Ok?
    ensures Set(Set(d, p, y).value, q, z)
         == match Set(d, q, z) case Err(e) => Err(e) case Ok(x) => Set(x, p, y)
    decreases |p|
  {
    if p[0] == q[0] {
      Swapped(Child(d, p[0]), p[1..], q[1..], y, z);
      SwappedSame(d, p, q, y, z);
    } else {
      SwappedAtOnce(d, p, q, y, z);
    }
  }

  lemma {:induction false} SwappedAtOnce(d: Value, p: seq<string>, q: seq<string>, y: Value, z: Value)
    requires p != [] && q != [] && p[0] != q[0] && Apart(p, q) && Has(d, p[0]) && Set(d, p, y).Ok?
    ensures Set(Set(d, p, y).value, q, z)
         == match Set(d, q, z) case Err(e) => Err(e) case Ok(x) => Set(x, p, y)
  {
    var a, b := p[0], q[0];
    var c := Set(Child(d, a), p[1..], y).value;
    PutElsewhere(d, a, b, c);
    if Set(d, q, z).Ok? {
      var e := Set(Child(d, b), q[1..], z).value;
      PutsSwapped(d, a, b, c, e);
      PutElsewhere(d, b, a, e);
    }
  }

  lemma {:induction false} SwappedSame(d: Value, p: seq<string>, q: seq<string>, y: Value, z: Value)
    requires p != [] && q != [] && p[0] == q[0] && Has(d, p[0]) && Refusal(d, p[0]).None?
    requires Set(Child(d, p[0]), p[1..], y).Ok? && Set(d, p, y).Ok?
    requires Set(Set(Child(d, p[0]), p[1..], y).value, q[1..], z)
          == match Set(Child(d, p[0]), q[1..], z) case Err(e) => Err(e) case Ok(x) => Set(x, p[1..], y)
    ensures Set(Set(d, p, y).value, q, z)
         == match Set(d, q, z) case Err(e) => Err(e) case Ok(x) => Set(x, p, y)
  {
    var a := p[0];
    var c := Set(Child(d, a), p[1..], y).value;
    PutThenChild(d, a, c);
    if Set(Child(d, a), q[1..], z).Ok? {
      var e := Set(Child(d, a), q[1..], z).value;
      PutThenChild(d, a, e);
      if Set(e, p[1..], y).Ok? {
        PutTwice(d, a, c, Set(e, p[1..], y).value);
        PutTwice(d, a, e, Set(e, p[1..], y).value);
      }
    }
  }

  lemma {:induction false} PutsSwapped(d: Value, a: string, b: string, x: Value, y: Value)
    requires Has(d, a) && !SameStep(d, a, b) && !SameStep(d, b, a) && Refusal(d, b).None?
    ensures Refusal(d, a).None? && Refusal(Put(d, a, x), b).None? && Refusal(Put(d, b, y), a).None?
    ensures Put(Put(d, a, x), b, y) == Put(Put(d, b, y), a, x)
  {
    if d.Array? {
      var xs, i, j := d.items, Atoi(a).value, Atoi(b).value;
      if j == |xs| {
        assert xs[i := x] + [y] == (xs + [y])[i := x];
      } else {
        assert xs[i := x][j := y] == xs[j := y][i := x];
      }
    } else {
      var m := d.members;
      assert m[a := x][b := y] == m[b := y][a := x];
    }
  }

  /** Setting what is there already, below p. */
  lemma {:induction false} Rewrites(d: Value, p: seq<string>, q: seq<string>, v: Value, u: Value)
    requires Get(d, p) == Some(v) && Inside(p, q) && Get(v, q[|p|..]) == Some(u)
    ensures Set(d, q, u) == Ok(d)
  {
    TakePrefix(p, q);
    GetSetSame(d, p);
    SetGet(d, p, v, q[|p|..]);
    GetSetSame(d, q);
  }

  /** The two outcomes are the same but for what is at p. */
  predicate ButFor(x: Result, y: Result, p: seq<string>, v: Value, w: Value) {
    match x
    case Err(_) => y == x
    case Ok(d) => Get(d, p) == Some(v) && Set(d, p, w).Ok? && y == Set(d, p, w)
  }

  lemma {:induction false} FirstDiffers(d: Value, path: string, v: Value, w: Value)
    ensures ButFor(Step(d, path, v), Step(d, path, w), Segs(path), v, w)
  {
    var p := Segs(path);
    SetIgnores(d, p, v, w);
    if Set(d, p, v).Ok? {
      SetGet(d, p, v, []);
      EmptyUnit(p);
      SetSet(d, p, v, w);
    }
  }

  /** Path a is the first that leads to m's value. */
  predicate Outermost(paths: seq<string>, a: nat, m: nat)
    requires a < m < |paths|
  {
    Inside(Segs(paths[a]), Segs(paths[m])) && forall i :: 0 <= i < a ==> !Inside(Segs(paths[i]), Segs(paths[m]))
  }

  /** A path between them either goes on from path a and finds what it sets, or changes the same
      elsewhere. */
  lemma {:induction false} StepBetween(paths: seq<string>, vs: seq<Value>, m: nat, a: nat, j: nat, x: Value)
    requires m < |paths| == |vs| && Nested(paths) && Settled(paths, vs, m) && Goes(paths, vs, m)
    requires a < j < m && Outermost(paths, a, m) && Get(x, Segs(paths[a])) == Some(vs[a])
    ensures var p, ws := Segs(paths[a]), Grow(paths, vs, m);
            && Set(x, p, ws[a]).Ok?
            && ButFor(Step(x, paths[j], vs[j]), Step(Set(x, p, ws[a]).value, paths[j], ws[j]), p, vs[a], ws[a])
  {
    var p, q, r, ws := Segs(paths[a]), Segs(paths[j]), Segs(paths[m]), Grow(paths, vs, m);
    SetThere(x, p, [], ws[a]);
    var y := Set(x, p, ws[a]).value;
    SetGet(x, p, ws[a], []);
    EmptyUnit(p);
    assert NestedPair(paths, a, j) && HoldsIt(paths, vs, a, j);
    if Inside(p, q) {
      GrowSettles(paths, vs, m, a, j);
      Rewrites(x, p, q, vs[a], vs[j]);
      Rewrites(y, p, q, ws[a], ws[j]);
    } else {
      if Inside(q, r) { BothBegin(p, q, r); }
      Swapped(x, p, q, ws[a], vs[j]);
      if Set(x, q, vs[j]).Ok? {
        ApartTurned(p, q);
        ApartDiverge(x, q, p);
        SetElsewhere(x, q, vs[j], p);
        SetThere(Set(x, q, vs[j]).value, p, [], ws[a]);
      }
    }
  }

  lemma {:induction false} AtOutermost(d: Value, paths: seq<string>, vs: seq<Value>, ws: seq<Value>, a: nat)
    requires a < |paths| == |vs| == |ws| && forall i :: 0 <= i < a ==> vs[i] == ws[i]
    ensures ButFor(SetUpTo(d, paths, vs, a + 1), SetUpTo(d, paths, ws, a + 1), Segs(paths[a]), vs[a], ws[a])
  {
    SameOnwards(d, paths, vs, ws, 0, a);
    var x := SetUpTo(d, paths, vs, a);
    if x.Ok? { FirstDiffers(x.value, paths[a], vs[a], ws[a]); }
  }

  /** Up to path m, the grown values make a difference only where path a leads. */
  lemma {:induction false} Between(d: Value, paths: seq<string>, vs: seq<Value>, m: nat, a: nat, k: nat)
    requires m < |paths| == |vs| && Nested(paths) && Settled(paths, vs, m) && Goes(paths, vs, m)
    requires a < k <= m && Outermost(paths, a, m)
    ensures var ws := Grow(paths, vs, m);
            ButFor(SetUpTo(d, paths, vs, k), SetUpTo(d, paths, ws, k), Segs(paths[a]), vs[a], ws[a])
  {
    var ws := Grow(paths, vs, m);
    if k == a + 1 {
      AtOutermost(d, paths, vs, ws, a);
    } else {
      Between(d, paths, vs, m, a, k - 1);
      var x := SetUpTo(d, paths, vs, k - 1);
      if x.Ok? { StepBetween(paths, vs, m, a, k - 1, x.value); }
    }
  }

  /** Path m makes up for it. */
  lemma {:induction false} MadeUp(path: string, p: seq<string>, x: Value, v: Value, u: Value)
    requires Inside(p, Segs(path)) && Get(x, p) == Some(v) && Set(v, Segs(path)[|p|..], u).Ok?
    ensures var w := Set(v, Segs(path)[|p|..], u).value;
            Set(x, p, w).Ok? && Step(Set(x, p, w).value, path, u) == Step(x, path, u)
  {
    var q := Segs(path);
    var w := Set(v, q[|p|..], u).value;
    TakePrefix(p, q);
    SetThere(x, p, q[|p|..], u);
    var y := Set(x, p, w).value;
    SetGet(x, p, w, []);
    EmptyUnit(p);
    SetGet(v, q[|p|..], u, []);
    EmptyUnit(q[|p|..]);
    Rewrites(y, p, q, w, u);
  }

  /** Every body gets the same from the values grown by one path. */
  lemma {:induction false} GrowGivesTheSame(d: Value, paths: seq<string>, vs: seq<Value>, m: nat)
    requires m < |paths| == |vs| && Nested(paths) && Settled(paths, vs, m) && Goes(paths, vs, m)
    ensures SetUpTo(d, paths, Grow(paths, vs, m), |vs|) == SetUpTo(d, paths, vs, |vs|)
  {
    var ws := Grow(paths, vs, m);
    if a: nat :| a < m && Outermost(paths, a, m) {
      Between(d, paths, vs, m, a, m);
      var x := SetUpTo(d, paths, vs, m);
      assert GoesInto(paths, vs, m, a);
      if x.Ok? { MadeUp(paths[m], Segs(paths[a]), x.value, vs[a], vs[m]); }
      SameOnwards(d, paths, vs, ws, m + 1, |vs|);
    } else {
      NoneLeads(paths, m, m);
      SameOnwards(d, paths, vs, ws, 0, |vs|);
    }
  }

  lemma {:induction false} NoneLeads(paths: seq<string>, m: nat, k: nat)
    requires k <= m < |paths| && forall a: nat :: a < m ==> !Outermost(paths, a, m)
    ensures forall i :: 0 <= i < k ==> !Inside(Segs(paths[i]), Segs(paths[m]))
  {
    if k > 0 {
      NoneLeads(paths, m, k - 1);
      assert !Outermost(paths, k - 1, m);
    }
  }

  /** However many paths bodies have set in the values, every body gets what the rule as written
      gives. */
  lemma {:induction false} GrownGivesTheSame(d: Value, paths: seq<string>, vs: seq<Value>, m: nat)
    requires m <= |paths| == |vs| && Nested(paths) && AllGo(paths, vs, m)
    ensures SetUpTo(d, paths, Grown(paths, vs, m), |vs|) == SetUpTo(d, paths, vs, |vs|)
    ensures Settled(paths, Grown(paths, vs, m), m)
  {
    if m > 0 {
      GrownGivesTheSame(d, paths, vs, m - 1);
      var ws := Grown(paths, vs, m - 1);
      GrowGivesTheSame(d, paths, ws, m - 1);
      var us := Grow(paths, ws, m - 1);
      forall i, j | 0 <= i < j < m
        ensures HoldsIt(paths, us, i, j)
      {
        GrowSettles(paths, ws, m - 1, i, j);
      }
    }
  }

  // ---- The rule as written -----------------------------------------------------------

  /** The values of the paths, as the rule is written. */
  function Listing(paths: seq<string>, values: map<string, Value>): (vs: seq<Value>)
    requires forall p :: p in paths ==> p in values
    ensures |vs| == |paths| && forall i :: 0 <= i < |paths| ==> vs[i] == values[paths[i]]
  {
    seq(|paths|, i requires 0 <= i < |paths| => values[paths[i]])
  }

  lemma {:induction false} SetUpToIs(d: Value, paths: seq<string>, values: map<string, Value>, k: nat)
    requires (forall p :: p in paths ==> p in values) && k <= |paths|
    ensures (forall p :: p in paths[..k] ==> p in values)
    ensures SetUpTo(d, paths, Listing(paths, values), k) == SetAll(d, paths[..k], values)
  {
    if k > 0 {
      SetUpToIs(d, paths, values, k - 1);
      FrontOfTake(paths, k);
    }
  }

  /** Once a path has failed, all have. */
  lemma {:induction false} FailsOn(d: Value, paths: seq<string>, vs: seq<Value>, k: nat, n: nat)
    requires k <= n <= |paths| == |vs| && SetUpTo(d, paths, vs, k).Err?
    ensures SetUpTo(d, paths, vs, n) == SetUpTo(d, paths, vs, k)
  {
    if k < n { FailsOn(d, paths, vs, k, n - 1); }
  }

  /** No path makes a new container in the place of a value it leads into. */
  predicate Keeps(paths: seq<string>, vs: seq<Value>)
    requires |paths| == |vs|
  {
    forall i, j :: 0 <= i < j < |vs| ==> KeepsPair(paths, vs, i, j)
  }

  predicate KeepsPair(paths: seq<string>, vs: seq<Value>, i: nat, j: nat)
    requires i < |paths| == |vs| && j < |paths|
  {
    var p, q := Segs(paths[i]), Segs(paths[j]);
    Inside(p, q) ==> !Renews(vs[i], q[|p|..])
  }

  lemma {:induction false} RenewsStill(v: Value, p: seq<string>, w: Value, q: seq<string>)
    requires p != [] && q != [] && !Renews(v, p) && Set(v, p, w).Ok?
    ensures Renews(Set(v, p, w).value, q) <==> Renews(v, q)
  {
  }

  /** Growing changes nothing of that. */
  lemma {:induction false} KeepsGrown(paths: seq<string>, vs: seq<Value>, m: nat)
    requires m <= |paths| == |vs| && Keeps(paths, vs)
    ensures Keeps(paths, Grown(paths, vs, m))
  {
    if m > 0 {
      KeepsGrown(paths, vs, m - 1);
      var ws := Grown(paths, vs, m - 1);
      var us := Grow(paths, ws, m - 1);
      forall i, j | 0 <= i < j < |us|
        ensures KeepsPair(paths, us, i, j)
      {
        var p, q, r := Segs(paths[i]), Segs(paths[j]), Segs(paths[m - 1]);
        assert KeepsPair(paths, ws, i, j);
        if i < m - 1 && Inside(p, r) && Inside(p, q) && Set(ws[i], r[|p|..], ws[m - 1]).Ok? {
          assert KeepsPair(paths, ws, i, m - 1);
          RenewsStill(ws[i], r[|p|..], ws[m - 1], q[|p|..]);
        }
      }
    }
  }

  /** The paths each go on from one another or part, and none makes a new container in the place
      of another's value. */
  predicate Tame(paths: seq<string>, vs: seq<Value>)
    requires |paths| == |vs|
  {
    Nested(paths) && Keeps(paths, vs)
  }

  /** What the values have become. */
  predicate Past(paths: seq<string>, vs: seq<Value>, ws: seq<Value>, m: nat)
    requires m <= |paths| == |vs|
  {
    AllGo(paths, vs, m) && ws == Grown(paths, vs, m)
  }

  /** How the values have become what they are, with path k set for the first time. */
  lemma {:induction false} PastFurther(paths: seq<string>, vs: seq<Value>, ws: seq<Value>, k: nat)
    requires k < |paths| == |vs| == |ws| && Past(paths, vs, ws, k) && Goes(paths, ws, k)
    ensures Past(paths, vs, Grow(paths, ws, k), k + 1)
  {
  }

  /** All paths set give what the rule as written gives. */
  lemma {:induction false} AllSet(start: Value, paths: seq<string>, values: map<string, Value>, ws: seq<Value>, m: nat)
    requires (forall p :: p in paths ==> p in values) && m <= |paths|
    requires Past(paths, Listing(paths, values), ws, m) && (m > 0 ==> Tame(paths, Listing(paths, values)))
    ensures SetUpTo(start, paths, ws, |paths|) == SetAll(start, paths, values)
  {
    SetUpToIs(start, paths, values, |paths|);
    TakeAll(paths);
    if m > 0 { GrownGivesTheSame(start, paths, Listing(paths, values), m); }
  }

  lemma {:induction false} ApartNotLeads(d: Value, p: seq<string>, q: seq<string>)
    requires Apart(p, q)
    ensures !Leads(d, q, p)
    decreases |p|
  {
    if p[0] == q[0] { ApartNotLeads(Child(d, p[0]), p[1..], q[1..]); }
  }

  lemma {:induction false} IndependentAt(paths: seq<string>, i: nat, j: nat)
    requires Independent(paths) && i < j < |paths|
    ensures Apart(Segs(paths[i]), Segs(paths[j]))
  {
    if j < |paths| - 1 {
      IndependentAt(Front(paths), i, j);
    } else {
      UntouchedAt(Front(paths), Segs(paths[j]), i);
      ApartTurned(Segs(paths[j]), Segs(paths[i]));
    }
  }

  /** Paths that do not touch each other are tame, and leave the values as they are. */
  lemma {:induction false} IndependentStays(paths: seq<string>, vs: seq<Value>, m: nat)
    requires Independent(paths) && m <= |paths| == |vs|
    ensures Tame(paths, vs) && Grown(paths, vs, m) == vs
  {
    forall i, j | 0 <= i < j < |vs|
      ensures NestedPair(paths, i, j) && KeepsPair(paths, vs, i, j) && !Inside(Segs(paths[i]), Segs(paths[j]))
    {
      IndependentAt(paths, i, j);
      ApartNotBegun(Segs(paths[i]), Segs(paths[j]));
    }
    if m > 0 {
      IndependentStays(paths, vs, m - 1);
      assert Grow(paths, vs, m - 1) == vs;
    }
  }
}
