/** Two paths of a rule set in mutable documents, body after body: what each body becomes, and
    what the rule's own values become with it. */
module TwoPathsInPlace {
  import opened Json
  import opened JsonTree
  import opened Options
  import opened RuleValues
  import S = SetPath

  // ---- Where the second path goes ----------------------------------------------------

  /** The second path leads into what the first one has just set. */
  predicate Into(d: Value, p: seq<string>, q: seq<string>) {
    |q| > |p| && Leads(d, p, q)
  }

  /** Setting p does not change which paths lead into it. */
  lemma {:induction false} LeadsStill(d: Value, p: seq<string>, q: seq<string>, v: Value)
    requires S.Set(d, p, v).Ok?
    ensures Leads(S.Set(d, p, v).value, p, q) <==> Leads(d, p, q)
    decreases |p|
  {
    if p != [] && q != [] {
      var c := S.Child(d, p[0]);
      LeadsStill(c, p[1..], q[1..], v);
      S.PutThenChild(d, p[0], S.Set(c, p[1..], v).value);
    }
  }

  /** A path spelled otherwise leads to the same. */
  lemma {:induction false} Respelled(d: Doc, p: seq<string>, q: seq<string>)
    requires DocAt(d, p).Some? && Leads(Model(d), p, q)
    ensures |p| <= |q| && DocAt(d, q[..|p|]) == DocAt(d, p)
    decreases |p|
  {
    if p == [] {
      assert q[..0] == [];
    } else {
      KidModel(d, p[0]);
      KidSpelled(d, p[0], q[0]);
      Respelled(Kid(d, p[0]).value, p[1..], q[1..]);
      assert q[..|p|][0] == q[0] && q[..|p|][1..] == q[1..][..|p| - 1];
    }
  }

  /** A path that does not lead into what stands at p writes none of it. */
  lemma {:induction false} SpineElsewhere(d: Doc, p: seq<string>, q: seq<string>)
    requires Tree(d) && DocAt(d, p).Some? && !Into(Model(d), p, q)
    ensures Spine(d, q) !! Ids(DocAt(d, p).value)
    decreases |p|
  {
    if p != [] && q != [] {
      var c := Kid(d, p[0]).value;
      KidModel(d, p[0]);
      DocAtIds(c, p[1..]);
      if S.SameStep(Model(d), p[0], q[0]) {
        KidSpelled(d, p[0], q[0]);
        SpineElsewhere(c, p[1..], q[1..]);
      } else if Kid(d, q[0]).Some? {
        KidsApart(d, p[0], q[0]);
        SpineIds(Kid(d, q[0]).value, q[1..]);
      }
    }
  }

  // ---- The rule's two values ---------------------------------------------------------

  /** The second value is where the second path leads in the first one, put there by an earlier
      body, or shares nothing with it. */
  predicate Placed(dv: Doc, dw: Doc, rest: seq<string>) {
    Ids(dv) !! Ids(dw) || DocAt(dv, rest) == Some(dw)
  }

  /** The rule's two values between bodies. */
  ghost predicate Linked(dv: Doc, dw: Doc, p: seq<string>, q: seq<string>)
    reads Ids(dv), Ids(dw)
  {
    && Sound(dv) && Sound(dw) && Tree(dv) && Tree(dw)
    && (if |q| > |p| then Placed(dv, dw, q[|p|..]) else Ids(dv) !! Ids(dw))
  }

  /** An outcome, as the error reported or the document that is in memory. */
  ghost predicate Comes(out: S.Result, r: Node, err: Option<S.Error>, dr: Doc)
    reads Ids(dr)
  {
    match out
    case Err(e) => err == Some(e)
    case Ok(x) => err == None && dr.id == r && Sound(dr) && Model(dr) == x
  }

  /** All of w that is in the document is in v. */
  predicate OnlyThrough(d: Doc, dv: Doc, dw: Doc) {
    forall o :: o in Ids(d) && o in Ids(dw) ==> o in Ids(dv)
  }

  /** The second path writes into v's node. */
  predicate WritesIn(d: Doc, p: seq<string>, q: seq<string>, dv: Doc) {
    Into(Model(d), p, q) && !S.Renews(Model(dv), q[|p|..])
  }

  /** What the second path writes is never part of w, nor of v unless it writes into its node. */
  lemma {:induction false} SpineAvoids(d: Doc, p: seq<string>, q: seq<string>, dv: Doc, dw: Doc)
    requires Tree(d) && DocAt(d, p) == Some(dv) && OnlyThrough(d, dv, dw)
    requires Into(Model(d), p, q) ==> Placed(dv, dw, q[|p|..])
    ensures Ids(dw) !! Spine(d, q) && Spine(d, q) <= Ids(d)
    ensures !WritesIn(d, p, q, dv) ==> Spine(d, q) !! Ids(dv)
  {
    SpineIds(d, q);
    DocAtIds(d, p);
    if Into(Model(d), p, q) {
      var pre, rest := q[..|p|], q[|p|..];
      assert pre + rest == q;
      Respelled(d, p, q);
      SpineConcat(d, pre, rest);
      SpineAbove(d, pre);
      SpineIds(d, pre);
      SpineIds(dv, rest);
      if DocAt(dv, rest) == Some(dw) { SpineAbove(dv, rest); }
    } else {
      SpineElsewhere(d, p, q);
    }
  }

  /** Setting w in v's node makes of it what Through says. */
  lemma {:induction false} TakenIn(d: Doc, p: seq<string>, q: seq<string>, dv: Doc, dw: Doc, dr: Doc, used: set<Node>)
    requires SetTo(d, q, dw, dr, used) && DocAt(d, p) == Some(dv) && WritesIn(d, p, q, dv)
    requires Tree(dv) && Tree(dw) && Placed(dv, dw, q[|p|..]) && Ids(dv) <= used
    ensures |q| > |p| && DocAt(dr, q[..|p|]).Some? && Became(dv, dw, DocAt(dr, q[..|p|]).value, q[|p|..], used)
  {
    var pre, rest := q[..|p|], q[|p|..];
    assert pre + rest == q;
    Respelled(d, p, q);
    SetToWithin(d, pre, rest, dw, dr, used);
    var x := DocAt(dr, pre).value;
    SetToModel(dv, rest, dw, x, used);
    SameNode(dv, rest, dw, x, used);
    SetToTree(dv, rest, dw, x, used);
    SetToIds(dv, rest, dw, x, used);
  }

  /** v's node with w taken in. */
  predicate Became(dv: Doc, dw: Doc, dx: Doc, rest: seq<string>, used: set<Node>) {
    && dx.id == dv.id && Tree(dx) && Placed(dx, dw, rest) && Model(dx) == Through(Model(dv), rest, Model(dw))
    && forall o :: o in Ids(dx) ==> o in Ids(dv) || o in Ids(dw) || o !in used
  }

  /** What v's value is after a set that fails, or one that does not write into its node. */
  lemma {:induction false} NotTakenIn(d: Doc, p: seq<string>, q: seq<string>, dv: Doc, w: Value)
    requires DocAt(d, p) == Some(dv)
    requires WritesIn(d, p, q, dv) ==> S.Set(Model(d), q, w).Err?
    ensures Into(Model(d), p, q) ==> Through(Model(dv), q[|p|..], w) == Model(dv)
  {
    if WritesIn(d, p, q, dv) {
      var pre, rest := q[..|p|], q[|p|..];
      assert pre + rest == q;
      Respelled(d, p, q);
      DocAtIds(d, pre);
      SetThere(Model(d), pre, rest, w);
    }
  }

  /** Sets w at q in a document in which v stands at p. */
  method SetSecond(doc: Node, p: seq<string>, q: seq<string>, w: Node, ghost d: Doc, ghost dv: Doc, ghost dw: Doc)
    returns (r: Node, err: Option<S.Error>, ghost dr: Doc, ghost dx: Doc)
    requires d.id == doc && Sound(d) && Tree(d) && dw.id == w && Linked(dv, dw, p, q)
    requires DocAt(d, p) == Some(dv) && OnlyThrough(d, dv, dw)
    modifies Ids(d)
    ensures Comes(S.Set(Model(d), q, Model(dw)), r, err, dr)
    ensures dx.id == dv.id && Linked(dx, dw, p, q)
    ensures Model(dx) == if Into(Model(d), p, q) then Through(Model(dv), q[|p|..], Model(dw)) else Model(dv)
    ensures forall o :: o in Ids(dx) ==> o in Ids(dv) || o in Ids(dw) || fresh(o)
  {
    ghost var used := Ids(d);
    SpineAvoids(d, p, q, dv, dw);
    DocAtIds(d, p);
    Allocated(d);
    Allocated(dv);
    Allocated(dw);
    r, err, dr := SetInPlace(doc, q, w, d, dw, used);
    dx := dv;
    if err.Some? {
      SoundAt(d, p);
      NotTakenIn(d, p, q, dv, Model(dw));
    } else {
      SetToModel(d, q, dw, dr, used);
      if WritesIn(d, p, q, dv) {
        TakenIn(d, p, q, dv, dw, dr, used);
        SoundAt(dr, q[..|p|]);
        DocAtIds(dr, q[..|p|]);
        dx := DocAt(dr, q[..|p|]).value;
      } else {
        NotTakenIn(d, p, q, dv, Model(dw));
      }
    }
  }

  // ---- One body ----------------------------------------------------------------------

  /** What the first set gives the second. */
  lemma {:induction false} FirstSet(d: Doc, p: seq<string>, q: seq<string>, dv: Doc, dw: Doc, r: Doc, used: set<Node>)
    requires SetTo(d, p, dv, r, used) && Tree(d) && Tree(dv) && Ids(d) !! Ids(dv) && Ids(d) !! Ids(dw)
    requires Ids(d) <= used && Ids(dw) <= used
    ensures S.Set(Model(d), p, Model(dv)) == S.Ok(Model(r)) && DocAt(r, p) == Some(dv) && Tree(r)
    ensures OnlyThrough(r, dv, dw) && (Into(Model(r), p, q) <==> Into(Model(d), p, q))
  {
    SetToModel(d, p, dv, r, used);
    SetToTree(d, p, dv, r, used);
    SetToIds(d, p, dv, r, used);
    LeadsStill(Model(d), p, q, Model(dv));
  }

  /** Sets v at p in a body. */
  method SetFirst(doc: Node, p: seq<string>, ghost q: seq<string>, v: Node, ghost d: Doc, ghost dv: Doc, ghost dw: Doc)
    returns (r: Node, err: Option<S.Error>, ghost dr: Doc)
    requires d.id == doc && Sound(d) && Tree(d) && dv.id == v && Linked(dv, dw, p, q)
    requires Ids(d) !! Ids(dv) && Ids(d) !! Ids(dw)
    modifies Ids(d)
    ensures Linked(dv, dw, p, q)
    ensures Comes(S.Set(Model(d), p, Model(dv)), r, err, dr)
    ensures err.None? ==> Tree(dr) && DocAt(dr, p) == Some(dv) && OnlyThrough(dr, dv, dw)
    ensures err.None? ==> (Into(Model(dr), p, q) <==> Into(Model(d), p, q))
    ensures err.None? ==> forall o :: o in Ids(dr) ==> o in Ids(d) || o in Ids(dv) || fresh(o)
  {
    ghost var used := Ids(d) + Ids(dv) + Ids(dw);
    SpineIds(d, p);
    Allocated(dv);
    Allocated(dw);
    r, err, dr := SetInPlace(doc, p, v, d, dv, used);
    if err.None? { FirstSet(d, p, q, dv, dw, dr, used); }
  }

  /** Sets v at p and then w at q in a body. It becomes what it should; v may take w in, exactly
      as After says, and w stays as it was. */
  method SetTwo(doc: Node, p: seq<string>, q: seq<string>, v: Node, w: Node, ghost d: Doc, ghost dv: Doc, ghost dw: Doc)
    returns (r: Node, err: Option<S.Error>, ghost dr: Doc, ghost dx: Doc)
    requires d.id == doc && Sound(d) && Tree(d) && dv.id == v && dw.id == w && Linked(dv, dw, p, q)
    requires Ids(d) !! Ids(dv) && Ids(d) !! Ids(dw)
    modifies Ids(d), Ids(dv)
    ensures Comes(Twice(Model(d), p, q, Model(dv), Model(dw)), r, err, dr)
    ensures dx.id == v && Model(dx) == After(Model(dv), Model(d), p, q, Model(dw)) && Linked(dx, dw, p, q)
    ensures forall o :: o in Ids(dx) ==> o in Ids(dv) || o in Ids(dw) || fresh(o)
  {
    Allocated(dv);
    Allocated(dw);
    r, err, dr := SetFirst(doc, p, q, v, d, dv, dw);
    dx := dv;
    if err.Some? { return; }
    r, err, dr, dx := SetSecond(r, p, q, w, dr, dv, dw);
  }

  /** Two bodies one after the other. Each becomes what the rule gives with its values as they
      are then: the second with what the first has made of v. By the look of the two paths the
      second body gets what the rule as written gives, but for the exception that they are alike
      and neither begins the other. */
  method TwoBodies(first: Node, second: Node, p: seq<string>, q: seq<string>, v: Node, w: Node,
        ghost d1: Doc, ghost d2: Doc, ghost dv: Doc, ghost dw: Doc)
    returns (r1: Node, err1: Option<S.Error>, r2: Node, err2: Option<S.Error>,
        ghost out1: S.Result, ghost out2: S.Result, ghost dr: Doc, ghost dx: Doc)
    requires d1.id == first && Sound(d1) && Tree(d1) && d2.id == second && Sound(d2) && Tree(d2)
    requires dv.id == v && dw.id == w && Linked(dv, dw, p, q) && Ids(d1) !! Ids(d2)
    requires Ids(d1) !! Ids(dv) && Ids(d1) !! Ids(dw) && Ids(d2) !! Ids(dv) && Ids(d2) !! Ids(dw)
    modifies Ids(d1), Ids(d2), Ids(dv), Ids(dw)
    ensures out1 == Twice(Model(d1), p, q, Model(dv), Model(dw)) && (out1.Err? ==> err1 == Some(out1.error))
    ensures out2 == Twice(Model(d2), p, q, After(Model(dv), Model(d1), p, q, Model(dw)), Model(dw))
    ensures Comes(out2, r2, err2, dr)
    ensures |q| <= |p| || p <= q || !Alike(p, q) || Through(Model(dv), q[|p|..], Model(dw)) == Model(dv) ==>
              out2 == Twice(Model(d2), p, q, Model(dv), Model(dw))
    ensures dx.id == v && Linked(dx, dw, p, q)
    ensures Model(dx) == After(After(Model(dv), Model(d1), p, q, Model(dw)), Model(d2), p, q, Model(dw))
  {
    Allocated(d2);
    LaterBodiesIff(p, q, Model(dv), Model(dw));
    r1, err1, dr, dx := SetTwo(first, p, q, v, w, d1, dv, dw);
    out1 := if err1.Some? then S.Err(err1.value) else S.Ok(Model(dr));
    assert Model(dx) == After(Model(dv), Model(d1), p, q, Model(dw));
    r2, err2, dr, dx := SetTwo(second, p, q, v, w, d2, dx, dw);
    out2 := if err2.Some? then S.Err(err2.value) else S.Ok(Model(dr));
    assert Unnoticed(p, q, Model(dv), Model(dw), Model(d1), Model(d2))
      <==> out2 == Twice(Model(d2), p, q, Model(dv), Model(dw));
  }
}
