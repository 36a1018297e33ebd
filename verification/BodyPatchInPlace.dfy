/** The JSON patch of a rewrite_body action on mutable documents, where the values of the rule
    become part of every body they are set in, body after body. */
module BodyPatchInPlace {
  import opened BodyPatch
  import opened Json
  import opened JsonTree
  import opened JoinedValues
  import opened NestedRules
  import opened Options
  import opened Sorting
  import opened Text
  import opened TwoPathsInPlace
  import S = SetPath

  /** Sets the value of path k. All nodes of the body and the values are among all. */
  method SetOne(doc: Node, path: string, v: Node, ghost paths: seq<string>, ghost ds: seq<Doc>, ghost m: nat,
        ghost k: nat, ghost d: Doc, ghost all: set<Node>)
    returns (r: Node, err: Option<S.Error>, ghost dr: Doc)
    requires k < |paths| == |ds| && paths[k] == path && d.id == doc && ds[k].id == v && Midway(paths, ds, m, k, d, all)
    modifies Ids(d)
    ensures err.Some? ==> S.Set(Model(d), Segs(path), Model(ds[k])) == S.Err(err.value) && Sound(d)
    ensures err.None? ==> dr.id == r && Sound(dr) && Tree(dr) && SetTo(d, Segs(path), ds[k], dr, all)
    ensures err.None? ==> forall o :: o in Ids(dr) ==> o in all || fresh(o)
    ensures InMemory(ds, k, all)
  {
    ghost var segs := Segs(path);
    SpineIds(d, segs);
    forall j | k <= j < |ds|
      ensures Spine(d, segs) !! Ids(ds[j]) && forall o :: o in Ids(ds[j]) ==> allocated(o)
    {
      AheadNotWritten(paths, ds, m, k, d, j);
      Allocated(ds[j]);
    }
    r, err, dr := SetInPlace(doc, Split(path, '.'), v, d, ds[k], all);
    if err.None? { SetToTree(d, segs, ds[k], dr, all); }
  }

  /** Sets path k. */
  method PatchOne(doc: Node, paths: seq<string>, k: nat, patch: map<string, Node>, ghost vs: seq<Value>,
        ghost ds: seq<Doc>, ghost es: seq<Doc>, ghost m: nat, ghost start: Value, ghost d: Doc, ghost all: set<Node>,
        ghost tame: bool)
    returns (r: Node, err: Option<S.Error>, ghost dr: Doc, ghost fs: seq<Doc>, ghost n: nat, ghost now: set<Node>)
    requires k < |paths| == |ds| == |es| == |vs| && d.id == doc && Named(paths, patch, es)
    requires Midway(paths, es, m, k, d, all) && Known(paths, vs, ds, es, m, k, start, d, tame)
    requires tame ==> Tame(paths, vs)
    modifies all
    ensures err.Some? ==> Stuck(paths, es, k, d, err.value) && Midway(paths, es, m, k, d, all)
    ensures err.None? ==> dr.id == r && m <= n && |fs| == |ds| && Named(paths, patch, fs)
    ensures err.None? ==> Midway(paths, fs, n, k + 1, dr, now) && Known(paths, vs, ds, fs, n, k + 1, start, dr, tame)
    ensures forall o :: o in now ==> o in all || fresh(o)
  {
    fs, n, now := es, m, all;
    var path := paths[k];
    if TrimSpace(path) == "" { return doc, Some(S.EmptyPath), d, es, m, all; }
    r, err, dr := SetOne(doc, path, patch[path], paths, es, m, k, d, all);
    if err.None? {
      now := all + Ids(dr);
      fs, n := OneStep(paths, vs, ds, es, m, k, start, d, dr, all, now, tame);
      NamedWith(paths, patch, es, fs);
    }
  }

  /** Sets the paths in order, up to one that fails. The loop needs nothing of what the predicates
      mean. */
  method PatchAll(doc: Node, paths: seq<string>, patch: map<string, Node>, ghost vs: seq<Value>, ghost ds: seq<Doc>,
        ghost m: nat, ghost d: Doc, ghost all: set<Node>, ghost tame: bool)
    returns (r: Node, err: Option<S.Error>, ghost dr: Doc, ghost es: seq<Doc>, ghost n: nat, ghost k: nat,
        ghost now: set<Node>)
    requires |paths| == |ds| == |vs| && d.id == doc && Named(paths, patch, ds)
    requires Midway(paths, ds, m, 0, d, all) && Known(paths, vs, ds, ds, m, 0, Model(d), d, tame)
    requires tame ==> Tame(paths, vs)
    modifies all
    ensures Named(paths, patch, es) && k <= |ds| && m <= n
    ensures Midway(paths, es, n, k, dr, now) && Known(paths, vs, ds, es, n, k, Model(d), dr, tame)
    ensures match err
            case None => k == |ds| && dr.id == r
            case Some(e) => Stuck(paths, es, k, dr, e)
    ensures forall o :: o in now ==> o in all || fresh(o)
  {
    hide *;
    r, err, dr, es, n, now := doc, None, d, ds, m, all;
    for l := 0 to |paths|
      invariant dr.id == r && m <= n && |es| == |ds| && Named(paths, patch, es)
      invariant Midway(paths, es, n, l, dr, now) && Known(paths, vs, ds, es, n, l, Model(d), dr, tame)
      invariant forall o :: o in now ==> o in all || fresh(o)
    {
      k := l;
      var next;
      ghost var nd, ns, nm, nw;
      next, err, nd, ns, nm, nw := PatchOne(r, paths, l, patch, vs, ds, es, n, Model(d), dr, now, tame);
      if err.Some? { return; }
      r, dr, es, n, now := next, nd, ns, nm, nw;
    }
    err, k := None, |paths|;
  }

  /** Sets all paths of a rule in a decoded body, in sorted order, after any number of bodies. The
      outcome is that of the rule as written. A rule that is tame is ready for the next body. */
  method JsonPatchInPlace(doc: Node, patch: map<string, Node>, ghost values: map<string, Value>, ghost d: Doc,
        ghost ds: seq<Doc>, ghost m: nat, ghost own: set<Node>)
    returns (r: Node, err: Option<S.Error>, ghost dr: Doc, ghost es: seq<Doc>, ghost n: nat, ghost now: set<Node>)
    requires d.id == doc && Sound(d) && Tree(d) && Ids(d) !! own
    requires Rule(patch, SortedStrings(patch.Keys), values, ds, m, own)
    modifies Ids(d), own
    ensures Comes(SetAll(Model(d), SortedStrings(patch.Keys), values), r, err, dr)
    ensures Tame(SortedStrings(patch.Keys), Listing(SortedStrings(patch.Keys), values)) ==>
              m <= n && Rule(patch, SortedStrings(patch.Keys), values, es, n, now)
    ensures forall o :: o in now ==> o in Ids(d) || o in own || fresh(o)
  {
    Allocated(d);
    var paths := SortStrings(patch.Keys);
    ghost var vs := Listing(paths, values);
    ghost var k;
    Begins(patch, paths, values, ds, m, own, d);
    r, err, dr, es, n, k, now := PatchAll(doc, paths, patch, vs, ds, m, d, Ids(d) + own, Tame(paths, vs));
    if err.Some? { OneFailed(Model(d), paths, ds, es, k, dr, err.value); }
    if Tame(paths, vs) { Settles(patch, paths, values, ds, es, n, k, Model(d), dr, now); }
  }
}
