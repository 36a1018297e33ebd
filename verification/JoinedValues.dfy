/** The values of a rule as documents, between bodies and while one is patched: where they stand
    in the body and in each other. */
module JoinedValues {
  import opened BodyPatch
  import opened Json
  import opened JsonTree
  import opened NestedRules
  import opened Options
  import opened Seqs
  import opened Text
  import opened TwoPathsInPlace
  import S = SetPath

  // ---- The rule's values between bodies ---------------------------------------------

  /** All nodes of the values are among these. */
  predicate Within(ds: seq<Doc>, all: set<Node>) {
    forall i :: 0 <= i < |ds| ==> Ids(ds[i]) <= all
  }

  function Models(ds: seq<Doc>): (vs: seq<Value>)
    ensures |vs| == |ds| && forall i :: 0 <= i < |ds| ==> vs[i] == Model(ds[i])
  {
    seq(|ds|, i requires 0 <= i < |ds| => Model(ds[i]))
  }

  /** The first m paths have been set in some body: each of their values stands in the others as
      the paths go on from each other. All else shares nothing. */
  predicate Joined(paths: seq<string>, ds: seq<Doc>, m: nat)
    requires |paths| == |ds|
  {
    && (forall i :: 0 <= i < |ds| ==> Tree(ds[i]))
    && (forall i, j :: 0 <= i < j < |ds| ==> JoinedPair(paths, ds, m, i, j))
  }

  predicate JoinedPair(paths: seq<string>, ds: seq<Doc>, m: nat, i: nat, j: nat)
    requires i < |paths| == |ds| && j < |paths|
  {
    var p, q := Segs(paths[i]), Segs(paths[j]);
    if j < m && Inside(p, q) then DocAt(ds[i], q[|p|..]) == Some(ds[j]) else Ids(ds[i]) !! Ids(ds[j])
  }

  /** The values from k on are in memory. */
  ghost predicate InMemory(ds: seq<Doc>, k: nat, all: set<Node>)
    requires Within(ds, all)
    reads all
  {
    forall i :: k <= i < |ds| ==> Sound(ds[i])
  }

  /** The values are the documents of a rule's nodes. */
  predicate Named(paths: seq<string>, patch: map<string, Node>, ds: seq<Doc>) {
    |paths| == |ds| && forall i :: 0 <= i < |ds| ==> paths[i] in patch && ds[i].id == patch[paths[i]]
  }

  /** A rule of which bodies have set the first m paths: its values are what that makes of those
      written, and they are joined accordingly. Its nodes are among own. */
  ghost predicate Rule(patch: map<string, Node>, paths: seq<string>, values: map<string, Value>, ds: seq<Doc>, m: nat,
        own: set<Node>)
    reads own
  {
    && Named(paths, patch, ds) && m <= |paths| && (forall p :: p in paths ==> p in values)
    && Within(ds, own) && InMemory(ds, 0, own)
    && Joined(paths, ds, m) && Past(paths, Listing(paths, values), Models(ds), m)
    && (m > 0 ==> Tame(paths, Listing(paths, values)))
  }

  // ---- While a body is patched ------------------------------------------------------

  /** The values from k on, while a body is patched, stand in it already or are apart from it. */
  predicate Ahead(paths: seq<string>, ds: seq<Doc>, m: nat, k: nat, d: Doc)
    requires |paths| == |ds|
  {
    forall j :: k <= j < |ds| ==> Settable(d, Segs(paths[j]), ds[j]) && (j < m || Ids(d) !! Ids(ds[j]))
  }

  /** The first k values stand in the body. */
  predicate Behind(paths: seq<string>, ds: seq<Doc>, k: nat, d: Doc)
    requires k <= |paths| == |ds|
  {
    forall j :: 0 <= j < k ==> DocAt(d, Segs(paths[j])) == Some(ds[j])
  }

  /** A body between two paths. */
  ghost predicate Midway(paths: seq<string>, ds: seq<Doc>, m: nat, k: nat, d: Doc, all: set<Node>)
    requires |paths| == |ds|
    reads all
  {
    && Ids(d) <= all && Within(ds, all) && Sound(d) && Tree(d) && InMemory(ds, k, all)
    && Joined(paths, ds, m) && Ahead(paths, ds, m, k, d) && (m > 0 ==> Nested(paths))
  }

  /** So far, path by path. */
  predicate Sofar(paths: seq<string>, ds: seq<Doc>, es: seq<Doc>, k: nat, start: Value, d: Doc)
    requires k <= |paths| == |ds| == |es|
  {
    && SetUpTo(start, paths, Models(ds), k) == S.Ok(Model(d))
    && (forall i :: k <= i < |ds| ==> es[i] == ds[i]) && (forall i :: 0 <= i < |ds| ==> es[i].id == ds[i].id)
  }

  /** What is known of the values of a rule that is tame. */
  predicate Tracked(paths: seq<string>, vs: seq<Value>, es: seq<Doc>, m: nat, k: nat, d: Doc)
    requires k <= |paths| == |es| == |vs|
  {
    k <= m <= |paths| && Behind(paths, es, k, d) && Past(paths, vs, Models(es), m)
  }

  /** What is known between two paths. */
  predicate Known(paths: seq<string>, vs: seq<Value>, ds: seq<Doc>, es: seq<Doc>, m: nat, k: nat, start: Value, d: Doc,
        tame: bool)
    requires k <= |paths| == |ds| == |es| == |vs|
  {
    Sofar(paths, ds, es, k, start, d) && (if tame then Tracked(paths, vs, es, m, k, d) else m == 0)
  }

  // ---- One path ---------------------------------------------------------------------

  /** Nodes at paths that part share nothing. */
  lemma {:induction false} ApartIds(d: Doc, p: seq<string>, q: seq<string>)
    requires Tree(d) && Apart(p, q) && DocAt(d, p).Some? && DocAt(d, q).Some?
    ensures Ids(DocAt(d, p).value) !! Ids(DocAt(d, q).value)
    decreases |p|
  {
    KidModel(d, p[0]);
    if p[0] == q[0] {
      ApartIds(Kid(d, p[0]).value, p[1..], q[1..]);
    } else {
      KidsApart(d, p[0], q[0]);
      DocAtIds(Kid(d, p[0]).value, p[1..]);
      DocAtIds(Kid(d, q[0]).value, q[1..]);
    }
  }

  /** Where a path goes on from one that leads to c, it goes on in c. */
  lemma {:induction false} GoesOn(d: Doc, p: seq<string>, q: seq<string>, c: Doc)
    requires Inside(p, q) && DocAt(d, p) == Some(c)
    ensures DocAt(d, q) == DocAt(c, q[|p|..])
  {
    TakePrefix(p, q);
    DocAtConcat(d, p, q[|p|..]);
  }

  /** An earlier value once path k has been set. */
  lemma {:induction false} EarlierValue(paths: seq<string>, ds: seq<Doc>, m: nat, k: nat, d: Doc, r: Doc,
        used: set<Node>, i: nat)
    requires i < k < |paths| == |ds| && Nested(paths) && Joined(paths, ds, m) && Behind(paths, ds, k, d)
    requires SetTo(d, Segs(paths[k]), ds[k], r, used) && Keeps(paths, Models(ds))
    ensures DocAt(r, Segs(paths[i])).Some? && var x := DocAt(r, Segs(paths[i])).value;
            && x.id == ds[i].id && (k < m ==> x == ds[i])
            && Model(x) == GrowAt(paths, Models(ds), k, i)
            && GoesInto(paths, Models(ds), k, i)
  {
    var p, q := Segs(paths[i]), Segs(paths[k]);
    assert NestedPair(paths, i, k) && JoinedPair(paths, ds, m, i, k);
    if Inside(p, q) {
      var rest := q[|p|..];
      TakePrefix(p, q);
      assert KeepsPair(paths, Models(ds), i, k);
      SetToWithin(d, p, rest, ds[k], r, used);
      var x := DocAt(r, p).value;
      SetToModel(ds[i], rest, ds[k], x, used);
      SameNode(ds[i], rest, ds[k], x, used);
      if k < m { SetToSame(ds[i], rest, ds[k], x, used); }
    } else {
      ApartTurned(p, q);
      ApartNotBegun(p, q);
      ApartDiverge(Model(d), q, p);
      SetToElsewhere(d, q, ds[k], r, used, p);
    }
  }

  /** A later value once path k has been set. */
  lemma {:induction false} LaterValue(paths: seq<string>, ds: seq<Doc>, m: nat, k: nat, d: Doc, r: Doc,
        used: set<Node>, j: nat)
    requires k < j < |paths| == |ds| && (m > 0 ==> Nested(paths)) && Joined(paths, ds, m)
    requires Ahead(paths, ds, m, k, d)
    requires SetTo(d, Segs(paths[k]), ds[k], r, used) && Ids(ds[j]) <= used
    ensures Settable(r, Segs(paths[j]), ds[j]) && (j < m || Ids(r) !! Ids(ds[j]))
  {
    var p, q := Segs(paths[k]), Segs(paths[j]);
    assert JoinedPair(paths, ds, m, k, j) && Settable(d, q, ds[j]);
    SetToModel(d, p, ds[k], r, used);
    SetToIds(d, p, ds[k], r, used);
    if j < m {
      assert NestedPair(paths, k, j);
      if Inside(p, q) {
        GoesOn(r, p, q, ds[k]);
      } else if DocAt(d, q) == Some(ds[j]) {
        ApartDiverge(Model(d), p, q);
        SetToElsewhere(d, p, ds[k], r, used, q);
      }
    }
  }

  /** The values once path k has been set, as they stand in the body then. */
  function Next(paths: seq<string>, ds: seq<Doc>, k: nat, r: Doc): (es: seq<Doc>)
    requires |paths| == |ds|
    ensures |es| == |ds|
    ensures forall i :: 0 <= i < |ds| ==> es[i] == NextAt(paths, ds, k, r, i)
  {
    seq(|ds|, i requires 0 <= i < |ds| => NextAt(paths, ds, k, r, i))
  }

  function NextAt(paths: seq<string>, ds: seq<Doc>, k: nat, r: Doc, i: nat): Doc
    requires i < |paths| == |ds|
  {
    if i <= k && DocAt(r, Segs(paths[i])).Some? then DocAt(r, Segs(paths[i])).value else ds[i]
  }

  lemma {:induction false} NextWithin(paths: seq<string>, es: seq<Doc>, k: nat, r: Doc, all: set<Node>)
    requires |paths| == |es| && Ids(r) <= all && Within(es, all)
    ensures Within(Next(paths, es, k, r), all)
  {
    forall i | 0 <= i < |es|
      ensures Ids(NextAt(paths, es, k, r, i)) <= all
    {
      if DocAt(r, Segs(paths[i])).Some? { DocAtIds(r, Segs(paths[i])); }
    }
  }

  function Max(a: nat, b: nat): nat {
    if a < b then b else a
  }

  /** What value i is then, and where it stands. */
  predicate Stands(paths: seq<string>, ds: seq<Doc>, m: nat, k: nat, r: Doc, es: seq<Doc>, i: nat)
    requires i < |paths| == |ds| == |es| && k < |ds|
  {
    && es[i].id == ds[i].id && (k < m ==> es[i] == ds[i]) && (i <= k ==> DocAt(r, Segs(paths[i])) == Some(es[i]))
    && Model(es[i]) == GrowAt(paths, Models(ds), k, i) && (i < k ==> GoesInto(paths, Models(ds), k, i))
  }

  lemma {:induction false} ValueStands(paths: seq<string>, ds: seq<Doc>, m: nat, k: nat, d: Doc, r: Doc,
        used: set<Node>, i: nat)
    requires i < |paths| == |ds| && k < |ds| && Nested(paths) && Joined(paths, ds, m) && Keeps(paths, Models(ds))
    requires Behind(paths, ds, k, d) && SetTo(d, Segs(paths[k]), ds[k], r, used)
    ensures Stands(paths, ds, m, k, r, Next(paths, ds, k, r), i)
  {
    if i < k {
      EarlierValue(paths, ds, m, k, d, r, used, i);
    } else if i == k {
      SetToModel(d, Segs(paths[k]), ds[k], r, used);
    }
  }

  lemma {:induction false} AllStand(paths: seq<string>, ds: seq<Doc>, m: nat, k: nat, r: Doc, es: seq<Doc>)
    requires k < |paths| == |ds| == |es| && forall i :: 0 <= i < |ds| ==> Stands(paths, ds, m, k, r, es, i)
    ensures Behind(paths, es, k + 1, r) && (forall i :: 0 <= i < |ds| ==> es[i].id == ds[i].id)
    ensures (k < m ==> es == ds) && Models(es) == Grow(paths, Models(ds), k) && Goes(paths, Models(ds), k)
  {
    forall i | 0 <= i < |ds|
      ensures es[i].id == ds[i].id && (k < m ==> es[i] == ds[i]) && Models(es)[i] == GrowAt(paths, Models(ds), k, i)
    {
      assert Stands(paths, ds, m, k, r, es, i);
    }
    forall i | 0 <= i < k
      ensures GoesInto(paths, Models(ds), k, i)
    {
      assert Stands(paths, ds, m, k, r, es, i);
    }
    forall i | 0 <= i < k + 1
      ensures DocAt(r, Segs(paths[i])) == Some(es[i])
    {
      assert Stands(paths, ds, m, k, r, es, i);
    }
  }

  /** What the values are then, where they stand. */
  lemma {:induction false} ValuesStand(paths: seq<string>, ds: seq<Doc>, m: nat, k: nat, d: Doc, r: Doc,
        used: set<Node>)
    requires k < |paths| == |ds| && Nested(paths) && Joined(paths, ds, m) && Keeps(paths, Models(ds))
    requires Behind(paths, ds, k, d) && SetTo(d, Segs(paths[k]), ds[k], r, used)
    ensures var es := Next(paths, ds, k, r);
            && Behind(paths, es, k + 1, r) && (forall i :: 0 <= i < |ds| ==> es[i].id == ds[i].id)
            && (k < m ==> es == ds) && Models(es) == Grow(paths, Models(ds), k) && Goes(paths, Models(ds), k)
  {
    var es := Next(paths, ds, k, r);
    forall i | 0 <= i < |ds|
      ensures Stands(paths, ds, m, k, r, es, i)
    {
      ValueStands(paths, ds, m, k, d, r, used, i);
    }
    AllStand(paths, ds, m, k, r, es);
  }

  /** One path set: what stands in the body, what becomes of the values, and how they are joined
      then. */
  lemma {:induction false} OnePath(paths: seq<string>, ds: seq<Doc>, m: nat, k: nat, d: Doc, r: Doc, used: set<Node>)
    requires k < |paths| == |ds| && k <= m && Nested(paths) && Joined(paths, ds, m) && Keeps(paths, Models(ds))
    requires Behind(paths, ds, k, d) && Ahead(paths, ds, m, k, d) && Tree(r)
    requires SetTo(d, Segs(paths[k]), ds[k], r, used) && Within(ds, used)
    ensures var es, n := Next(paths, ds, k, r), Max(m, k + 1);
            Joined(paths, es, n) && Behind(paths, es, k + 1, r) && Ahead(paths, es, n, k + 1, r)
  {
    var es, n := Next(paths, ds, k, r), Max(m, k + 1);
    ValuesStand(paths, ds, m, k, d, r, used);
    forall j | k < j < |ds|
      ensures Settable(r, Segs(paths[j]), es[j]) && (j < m || Ids(r) !! Ids(es[j]))
    {
      LaterValue(paths, ds, m, k, d, r, used, j);
    }
    if k == m { StillJoined(paths, ds, k, es, r); }
  }

  /** The values of the first k + 1 paths are joined as they stand in the body. */
  lemma {:induction false} StillJoined(paths: seq<string>, ds: seq<Doc>, k: nat, es: seq<Doc>, r: Doc)
    requires k < |paths| == |ds| == |es| && Nested(paths) && Joined(paths, ds, k) && Tree(r)
    requires Behind(paths, es, k + 1, r)
    requires forall j :: k < j < |ds| ==> es[j] == ds[j] && Ids(r) !! Ids(es[j])
    ensures Joined(paths, es, k + 1)
  {
    forall i | 0 <= i < |ds|
      ensures Tree(es[i])
    {
      if i <= k { DocAtIds(r, Segs(paths[i])); }
    }
    var n := k + 1;
    forall i, j | 0 <= i < j < |ds|
      ensures JoinedPair(paths, es, n, i, j)
    {
      PairJoined(paths, ds, k, es, r, i, j);
    }
  }

  lemma {:induction false} PairJoined(paths: seq<string>, ds: seq<Doc>, k: nat, es: seq<Doc>, r: Doc, i: nat, j: nat)
    requires i < j < |paths| == |ds| == |es| && k < |ds| && Nested(paths) && Joined(paths, ds, k) && Tree(r)
    requires Behind(paths, es, k + 1, r)
    requires forall j :: k < j < |ds| ==> es[j] == ds[j] && Ids(r) !! Ids(es[j])
    ensures JoinedPair(paths, es, k + 1, i, j)
  {
    var p, q := Segs(paths[i]), Segs(paths[j]);
    assert NestedPair(paths, i, j) && JoinedPair(paths, ds, k, i, j);
    if j <= k {
      if Inside(p, q) { GoesOn(r, p, q, es[i]); } else { ApartIds(r, p, q); }
    } else if i <= k {
      DocAtIds(r, p);
    }
  }

  /** Path k writes no part of its value or a later one. */
  lemma {:induction false} AheadNotWritten(paths: seq<string>, ds: seq<Doc>, m: nat, k: nat, d: Doc, j: nat)
    requires k <= j < |paths| == |ds| && (m > 0 ==> Nested(paths)) && Tree(d) && Ahead(paths, ds, m, k, d)
    ensures Spine(d, Segs(paths[k])) !! Ids(ds[j])
  {
    var p, q := Segs(paths[k]), Segs(paths[j]);
    assert Settable(d, q, ds[j]);
    if Ids(d) !! Ids(ds[j]) {
      SpineIds(d, p);
    } else if j == k {
      SpineAbove(d, p);
    } else {
      assert NestedPair(paths, k, j);
      if Apart(p, q) { ApartNotLeads(Model(d), p, q); }
      SpineElsewhere(d, q, p);
    }
  }

  // ---- One path further -------------------------------------------------------------

  /** One path further. */
  lemma {:induction false} Further(paths: seq<string>, ds: seq<Doc>, es: seq<Doc>, k: nat, start: Value, d: Doc, r: Doc,
        used: set<Node>)
    requires k < |paths| == |ds| == |es| && Sofar(paths, ds, es, k, start, d) && TrimSpace(paths[k]) != ""
    requires SetTo(d, Segs(paths[k]), es[k], r, used)
    ensures Sofar(paths, ds, es, k + 1, start, r)
  {
    SetToModel(d, Segs(paths[k]), es[k], r, used);
    assert Models(ds)[k] == Model(es[k]);
  }

  /** In a tame rule, the values as they stand then. */
  lemma {:induction false} TameFurther(paths: seq<string>, vs: seq<Value>, es: seq<Doc>, m: nat, k: nat, d: Doc, r: Doc,
        used: set<Node>)
    requires k < |paths| == |es| == |vs| && Tame(paths, vs) && Tracked(paths, vs, es, m, k, d)
    requires Joined(paths, es, m) && Ahead(paths, es, m, k, d) && Tree(r)
    requires SetTo(d, Segs(paths[k]), es[k], r, used) && Within(es, used)
    ensures var fs, n := Next(paths, es, k, r), Max(m, k + 1);
            && Tracked(paths, vs, fs, n, k + 1, r) && Joined(paths, fs, n) && Ahead(paths, fs, n, k + 1, r)
            && (forall i :: k < i < |es| ==> fs[i] == es[i]) && (forall i :: 0 <= i < |es| ==> fs[i].id == es[i].id)
  {
    hide SetTo, Tree, Joined, Ahead;
    KeepsGrown(paths, vs, m);
    ValuesStand(paths, es, m, k, d, r, used);
    if k == m { PastFurther(paths, vs, Models(es), k); }
    OnePath(paths, es, m, k, d, r, used);
  }

  /** In any rule, the values as they are. */
  lemma {:induction false} AnyFurther(paths: seq<string>, es: seq<Doc>, k: nat, d: Doc, r: Doc, used: set<Node>)
    requires k < |paths| == |es| && Joined(paths, es, 0) && Ahead(paths, es, 0, k, d)
    requires SetTo(d, Segs(paths[k]), es[k], r, used) && Within(es, used)
    ensures Ahead(paths, es, 0, k + 1, r)
  {
    forall j | k < j < |es|
      ensures Settable(r, Segs(paths[j]), es[j]) && Ids(r) !! Ids(es[j])
    {
      LaterValue(paths, es, 0, k, d, r, used, j);
    }
  }

  /** So far the same with the later values as they are. */
  lemma {:induction false} SofarWith(paths: seq<string>, ds: seq<Doc>, es: seq<Doc>, fs: seq<Doc>, k: nat, start: Value,
        d: Doc)
    requires k <= |paths| == |ds| == |es| == |fs| && Sofar(paths, ds, es, k, start, d)
    requires (forall i :: k <= i < |es| ==> fs[i] == es[i]) && (forall i :: 0 <= i < |es| ==> fs[i].id == es[i].id)
    ensures Sofar(paths, ds, fs, k, start, d)
  {
  }

  lemma {:induction false} NamedWith(paths: seq<string>, patch: map<string, Node>, es: seq<Doc>, fs: seq<Doc>)
    requires Named(paths, patch, es) && |fs| == |es| && forall i :: 0 <= i < |es| ==> fs[i].id == es[i].id
    ensures Named(paths, patch, fs)
  {
  }

  /** The values fs, of which n are joined, follow from es when path k is set, which gives r. */
  predicate Follows(paths: seq<string>, es: seq<Doc>, m: nat, k: nat, r: Doc, fs: seq<Doc>,
        n: nat, now: set<Node>)
    requires |paths| == |es| == |fs|
  {
    && m <= n && (forall i :: k < i < |es| ==> fs[i] == es[i]) && (forall i :: 0 <= i < |es| ==> fs[i].id == es[i].id)
    && Within(fs, now) && Joined(paths, fs, n) && Ahead(paths, fs, n, k + 1, r) && (n > 0 ==> Nested(paths))
  }

  lemma {:induction false} TameFollows(paths: seq<string>, vs: seq<Value>, es: seq<Doc>,
        m: nat, k: nat, d: Doc, r: Doc, all: set<Node>, now: set<Node>) returns (fs: seq<Doc>, n: nat)
    requires k < |paths| == |es| == |vs| && Tame(paths, vs) && Tracked(paths, vs, es, m, k, d)
    requires Joined(paths, es, m) && Ahead(paths, es, m, k, d) && Tree(r)
    requires SetTo(d, Segs(paths[k]), es[k], r, all) && Within(es, all) && all + Ids(r) <= now
    ensures |fs| == |es| && Follows(paths, es, m, k, r, fs, n, now) && Tracked(paths, vs, fs, n, k + 1, r)
  {
    TameFurther(paths, vs, es, m, k, d, r, all);
    fs, n := Next(paths, es, k, r), Max(m, k + 1);
    NextWithin(paths, es, k, r, now);
  }

  lemma {:induction false} AnyFollows(paths: seq<string>, es: seq<Doc>, k: nat, d: Doc, r: Doc, all: set<Node>,
        now: set<Node>)
    requires k < |paths| == |es| && Joined(paths, es, 0) && Ahead(paths, es, 0, k, d)
    requires SetTo(d, Segs(paths[k]), es[k], r, all) && Within(es, all) && all <= now
    ensures Follows(paths, es, 0, k, r, es, 0, now)
  {
    AnyFurther(paths, es, k, d, r, all);
  }

  /** What one path set makes of the values, and what is known then. */
  lemma {:induction false} OneStep(paths: seq<string>, vs: seq<Value>, ds: seq<Doc>, es: seq<Doc>,
        m: nat, k: nat, start: Value, d: Doc, r: Doc, all: set<Node>, now: set<Node>, tame: bool)
    returns (fs: seq<Doc>, n: nat)
    requires k < |paths| == |ds| == |es| == |vs| && Known(paths, vs, ds, es, m, k, start, d, tame)
    requires tame ==> Tame(paths, vs)
    requires Joined(paths, es, m) && Ahead(paths, es, m, k, d) && Tree(r) && TrimSpace(paths[k]) != ""
    requires SetTo(d, Segs(paths[k]), es[k], r, all) && Within(es, all) && all + Ids(r) <= now
    ensures |fs| == |es| && Follows(paths, es, m, k, r, fs, n, now)
    ensures Known(paths, vs, ds, fs, n, k + 1, start, r, tame)
  {
    hide Tracked, Sofar, Ahead, Joined, Tame, SetTo, Tree;
    Further(paths, ds, es, k, start, d, r, all);
    if tame {
      fs, n := TameFollows(paths, vs, es, m, k, d, r, all, now);
      SofarWith(paths, ds, es, fs, k + 1, start, r);
    } else {
      AnyFollows(paths, es, k, d, r, all, now);
      fs, n := es, 0;
    }
  }

  /** Path k fails. */
  predicate Stuck(paths: seq<string>, es: seq<Doc>, k: nat, d: Doc, e: S.Error) {
    k < |paths| == |es| && Step(Model(d), paths[k], Model(es[k])) == S.Err(e)
  }

  /** Before the first path. */
  lemma {:induction false} Begins(patch: map<string, Node>, paths: seq<string>, values: map<string, Value>,
        ds: seq<Doc>, m: nat, own: set<Node>, d: Doc)
    requires Rule(patch, paths, values, ds, m, own) && Sound(d) && Tree(d) && Ids(d) !! own
    ensures |ds| == |paths| && Midway(paths, ds, m, 0, d, Ids(d) + own)
    ensures Known(paths, Listing(paths, values), ds, ds, m, 0, Model(d), d, Tame(paths, Listing(paths, values)))
    ensures SetUpTo(Model(d), paths, Models(ds), |paths|) == SetAll(Model(d), paths, values)
  {
    AllSet(Model(d), paths, values, Models(ds), m);
  }

  /** So does one that fails. */
  lemma {:induction false} OneFailed(start: Value, paths: seq<string>, ds: seq<Doc>, es: seq<Doc>, k: nat, d: Doc,
        e: S.Error)
    requires k < |paths| == |ds| == |es| && Sofar(paths, ds, es, k, start, d) && Stuck(paths, es, k, d, e)
    ensures SetUpTo(start, paths, Models(ds), |paths|) == S.Err(e)
  {
    assert Models(ds)[k] == Model(es[k]);
    FailsOn(start, paths, Models(ds), k + 1, |paths|);
  }

  /** Between bodies again. */
  lemma {:induction false} Settles(patch: map<string, Node>, paths: seq<string>, values: map<string, Value>,
        ds: seq<Doc>, es: seq<Doc>, m: nat, k: nat, start: Value, d: Doc, all: set<Node>)
    requires (forall p :: p in paths ==> p in values) && k <= |paths| == |ds| == |es| && Named(paths, patch, es)
    requires Tame(paths, Listing(paths, values))
    requires Midway(paths, es, m, k, d, all) && Known(paths, Listing(paths, values), ds, es, m, k, start, d, true)
    ensures Rule(patch, paths, values, es, m, all)
  {
    forall i | 0 <= i < |es|
      ensures Sound(es[i])
    {
      if i < k { SoundAt(d, Segs(paths[i])); }
    }
  }
}
