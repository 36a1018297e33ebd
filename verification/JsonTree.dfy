/** Setting a path in a document of mutable maps and arrays, in place. What a document is made
    of, node by node, is a value (Doc), and so is what setting does to it. */
module JsonTree {
  import opened Json
  import opened Options
  import opened Seqs
  import S = SetPath

  /** A node of a decoded document: a map, an array, or a value that is never changed. */
  class Node {
    var shape: Shape

    constructor (shape: Shape)
      ensures this.shape == shape
    {
      this.shape := shape;
    }
  }

  datatype Shape = Leaf(v: Value) | Map(m: map<string, Node>) | Slice(xs: seq<Node>)

  /** A document with the nodes it consists of. */
  datatype Doc = Tip(id: Node, v: Value) | Dict(id: Node, kids: map<string, Doc>) | Row(id: Node, items: seq<Doc>)

  /** The nodes of a document. */
  function Ids(d: Doc): set<Node> {
    match d
    case Tip(id, _) => {id}
    case Dict(id, kids) => {id} + set k, o | k in kids && o in Ids(kids[k]) :: o
    case Row(id, items) => {id} + set i, o | 0 <= i < |items| && o in Ids(items[i]) :: o
  }

  /** The value of a document. */
  function Model(d: Doc): Value {
    match d
    case Tip(_, v) => v
    case Dict(_, kids) => Object(map k | k in kids :: Model(kids[k]))
    case Row(_, items) => Array(seq(|items|, i requires 0 <= i < |items| => Model(items[i])))
  }

  /** What its topmost node holds. */
  function ShapeOf(d: Doc): Shape {
    match d
    case Tip(_, v) => Leaf(v)
    case Dict(_, kids) => Map(map k | k in kids :: kids[k].id)
    case Row(_, items) => Slice(seq(|items|, i requires 0 <= i < |items| => items[i].id))
  }

  /** Its nodes and what they hold. */
  function Cells(d: Doc): (cs: set<(Node, Shape)>)
    ensures forall c :: c in cs ==> c.0 in Ids(d)
  {
    match d
    case Tip(id, _) => {(id, ShapeOf(d))}
    case Dict(id, kids) => {(id, ShapeOf(d))} + set k, c | k in kids && c in Cells(kids[k]) :: c
    case Row(id, items) => {(id, ShapeOf(d))} + set i, c | 0 <= i < |items| && c in Cells(items[i]) :: c
  }

  /** The document is in memory. */
  ghost predicate Sound(d: Doc)
    reads Ids(d)
  {
    forall c :: c in Cells(d) ==> c.0.shape == c.1
  }

  lemma {:induction false} SoundParts(d: Doc)
    requires Sound(d)
    ensures d.id.shape == ShapeOf(d)
    ensures d.Dict? ==> forall k :: k in d.kids ==> Sound(d.kids[k])
    ensures d.Row? ==> forall i :: 0 <= i < |d.items| ==> Sound(d.items[i])
  {
    assert (d.id, ShapeOf(d)) in Cells(d);
  }

  /** No node is in it twice, and only maps and arrays have something below. */
  predicate Tree(d: Doc) {
    match d
    case Tip(_, v) => !v.Object? && !v.Array?
    case Dict(id, kids) =>
      && (forall k :: k in kids ==> id !in Ids(kids[k]) && Tree(kids[k]))
      && (forall j, k :: j in kids && k in kids && j != k ==> Ids(kids[j]) !! Ids(kids[k]))
    case Row(id, items) =>
      && (forall i :: 0 <= i < |items| ==> id !in Ids(items[i]) && Tree(items[i]))
      && (forall i, j :: 0 <= i < j < |items| ==> Ids(items[i]) !! Ids(items[j]))
  }

  // ---- Where a path leads ------------------------------------------------------------

  /** What a segment leads to. */
  function Kid(d: Doc, seg: string): Option<Doc> {
    match d
    case Tip(_, _) => None
    case Dict(_, kids) => if seg in kids then Some(kids[seg]) else None
    case Row(_, items) =>
      var i := S.Atoi(seg);
      if i.Some? && 0 <= i.value < |items| then Some(items[i.value]) else None
  }

  lemma {:induction false} KidModel(d: Doc, seg: string)
    ensures Kid(d, seg).Some? ==> S.Has(Model(d), seg) && Model(Kid(d, seg).value) == S.Child(Model(d), seg)
    ensures Kid(d, seg).None? && !d.Tip? ==> !S.Has(Model(d), seg) && S.Child(Model(d), seg) == Null
    ensures Kid(d, seg).Some? ==> Ids(Kid(d, seg).value) <= Ids(d)
  {
  }

  /** What a path leads to. */
  function DocAt(d: Doc, segs: seq<string>): Option<Doc>
    decreases |segs|
  {
    if segs == [] then Some(d)
    else
      match Kid(d, segs[0])
      case None => None
      case Some(c) => DocAt(c, segs[1..])
  }

  lemma {:induction false} DocAtIds(d: Doc, segs: seq<string>)
    requires DocAt(d, segs).Some?
    ensures Ids(DocAt(d, segs).value) <= Ids(d) && S.Get(Model(d), segs) == Some(Model(DocAt(d, segs).value))
    ensures Tree(d) ==> Tree(DocAt(d, segs).value)
    decreases |segs|
  {
    if segs != [] {
      KidModel(d, segs[0]);
      DocAtIds(Kid(d, segs[0]).value, segs[1..]);
    }
  }

  lemma {:induction false} DocAtConcat(d: Doc, p: seq<string>, q: seq<string>)
    requires DocAt(d, p).Some?
    ensures DocAt(d, p + q) == DocAt(DocAt(d, p).value, q)
    decreases |p|
  {
    if p == [] {
      EmptyUnit(q);
    } else {
      TailOfConcat(p, q);
      DocAtConcat(Kid(d, p[0]).value, p[1..], q);
    }
  }

  /** The nodes that setting writes: those on the way, up to where a new one is made. */
  function Spine(d: Doc, segs: seq<string>): set<Node>
    decreases |segs|
  {
    if segs == [] || d.Tip? || (d.Row? && Kid(d, segs[0]).None?) then {}
    else
      match Kid(d, segs[0])
      case None => {d.id}
      case Some(c) => {d.id} + Spine(c, segs[1..])
  }

  lemma {:induction false} SpineIds(d: Doc, segs: seq<string>)
    ensures Spine(d, segs) <= Ids(d)
    decreases |segs|
  {
    if segs != [] && Kid(d, segs[0]).Some? {
      KidModel(d, segs[0]);
      SpineIds(Kid(d, segs[0]).value, segs[1..]);
    }
  }

  /** Reading from where a path leads, the rest of it is written below. */
  lemma {:induction false} SpineConcat(d: Doc, p: seq<string>, rest: seq<string>)
    requires DocAt(d, p).Some? && rest != []
    ensures Spine(d, p + rest) == Spine(d, p) + Spine(DocAt(d, p).value, rest)
    decreases |p|
  {
    if p == [] {
      EmptyUnit(rest);
    } else {
      TailOfConcat(p, rest);
      SpineConcat(Kid(d, p[0]).value, p[1..], rest);
    }
  }

  /** What a path leads to is not written. */
  lemma {:induction false} SpineAbove(d: Doc, p: seq<string>)
    requires Tree(d) && DocAt(d, p).Some?
    ensures Spine(d, p) !! Ids(DocAt(d, p).value)
    decreases |p|
  {
    if p != [] {
      var c := Kid(d, p[0]).value;
      KidModel(d, p[0]);
      SpineAbove(c, p[1..]);
      DocAtIds(c, p[1..]);
    }
  }

  /** Different kids share nothing. */
  lemma {:induction false} KidsApart(d: Doc, a: string, b: string)
    requires Tree(d) && Kid(d, a).Some? && Kid(d, b).Some? && !S.SameStep(Model(d), a, b)
    ensures Ids(Kid(d, a).value) !! Ids(Kid(d, b).value)
  {
  }

  lemma {:induction false} SoundAt(d: Doc, p: seq<string>)
    requires Sound(d) && DocAt(d, p).Some?
    ensures Sound(DocAt(d, p).value)
    decreases |p|
  {
    if p != [] {
      SoundParts(d);
      SoundAt(Kid(d, p[0]).value, p[1..]);
    }
  }

  // ---- What setting does -------------------------------------------------------------

  /** Where there is nothing yet, new containers lead to v; their nodes are not in used. */
  predicate Made(segs: seq<string>, v: Doc, r: Doc, used: set<Node>)
    decreases |segs|
  {
    if segs == [] then r == v
    else
      && r.id !in used && r.id !in Ids(v)
      && (if S.Atoi(segs[0]) == Some(0) then r.Row? && |r.items| == 1 else r.Dict? && r.kids.Keys == {segs[0]})
      && (var c := if r.Row? then r.items[0] else r.kids[segs[0]];
          r.id !in Ids(c) && Made(segs[1..], v, c, used))
  }

  /** r is d with v at the end of the path: the nodes on the way stay, unless there is nothing
      yet or an array is appended to, which makes a new one. */
  predicate SetTo(d: Doc, segs: seq<string>, v: Doc, r: Doc, used: set<Node>)
    decreases |segs|
  {
    if segs == [] then r == v
    else
      match d
      case Tip(_, x) => x == Null && Made(segs, v, r, used)
      case Dict(id, kids) =>
        && r.Dict? && r.id == id && segs[0] in r.kids && r.kids == kids[segs[0] := r.kids[segs[0]]]
        && (if segs[0] in kids then SetTo(kids[segs[0]], segs[1..], v, r.kids[segs[0]], used)
            else Made(segs[1..], v, r.kids[segs[0]], used))
      case Row(id, items) =>
        var i := S.Atoi(segs[0]);
        && i.Some? && 0 <= i.value <= |items| && r.Row? && i.value < |r.items|
        && (if i.value < |items| then
              && r.id == id && r.items == items[i.value := r.items[i.value]]
              && SetTo(items[i.value], segs[1..], v, r.items[i.value], used)
            else
              && r.id !in used && r.id !in Ids(v) && r.items == items + [r.items[i.value]]
              && r.id !in Ids(r.items[i.value]) && Made(segs[1..], v, r.items[i.value], used))
  }

  lemma {:induction false} PutModelKey(id: Node, kids: map<string, Doc>, seg: string, c: Doc)
    ensures Model(Dict(id, kids[seg := c])) == Object(Model(Dict(id, kids)).members[seg := Model(c)])
  {
    var m := Model(Dict(id, kids)).members;
    var m' := Model(Dict(id, kids[seg := c])).members;
    assert m'.Keys == m[seg := Model(c)].Keys;
  }

  lemma {:induction false} PutModelItem(id: Node, items: seq<Doc>, i: nat, c: Doc)
    requires i < |items|
    ensures Model(Row(id, items[i := c])) == Array(Model(Row(id, items)).items[i := Model(c)])
  {
  }

  lemma {:induction false} AppendModel(id: Node, new_: Node, items: seq<Doc>, c: Doc)
    ensures Model(Row(new_, items + [c])) == Array(Model(Row(id, items)).items + [Model(c)])
  {
  }

  lemma {:induction false} OneModel(id: Node, seg: string, c: Doc)
    ensures Model(Row(id, [c])) == Array([Model(c)])
    ensures Model(Dict(id, map[seg := c])) == Object(map[seg := Model(c)])
  {
    var m := Model(Dict(id, map[seg := c])).members;
    assert m.Keys == {seg};
  }

  /** What new containers hold, where they lead, and what they consist of. */
  lemma {:induction false} MadeIs(segs: seq<string>, v: Doc, r: Doc, used: set<Node>)
    requires Made(segs, v, r, used)
    ensures S.Set(Null, segs, Model(v)) == S.Ok(Model(r)) && DocAt(r, segs) == Some(v)
    ensures forall o :: o in Ids(r) ==> o in Ids(v) || o !in used
    ensures Tree(v) ==> Tree(r)
    decreases |segs|
  {
    if segs != [] {
      var c := if r.Row? then r.items[0] else r.kids[segs[0]];
      MadeIs(segs[1..], v, c, used);
      OneModel(r.id, segs[0], c);
      if r.Row? {
        assert r.items == [c];
      } else {
        assert r.kids == map[segs[0] := c];
      }
    }
  }

  /** The document becomes what Set gives, and v is where it was put. */
  lemma {:induction false} SetToModel(d: Doc, segs: seq<string>, v: Doc, r: Doc, used: set<Node>)
    requires SetTo(d, segs, v, r, used)
    ensures S.Set(Model(d), segs, Model(v)) == S.Ok(Model(r)) && DocAt(r, segs) == Some(v)
    decreases |segs|
  {
    if segs != [] {
      match d
      case Tip(_, _) => MadeIs(segs, v, r, used);
      case Dict(id, kids) =>
        var c := r.kids[segs[0]];
        PutModelKey(id, kids, segs[0], c);
        KidModel(d, segs[0]);
        if segs[0] in kids { SetToModel(kids[segs[0]], segs[1..], v, c, used); } else { MadeIs(segs[1..], v, c, used); }
      case Row(id, items) =>
        var i := S.Atoi(segs[0]).value;
        var c := r.items[i];
        KidModel(d, segs[0]);
        if i < |items| {
          PutModelItem(id, items, i, c);
          SetToModel(items[i], segs[1..], v, c, used);
        } else {
          AppendModel(id, r.id, items, c);
          MadeIs(segs[1..], v, c, used);
        }
    }
  }

  /** It consists of its own nodes, those of the value, and new ones. */
  lemma {:induction false} SetToIds(d: Doc, segs: seq<string>, v: Doc, r: Doc, used: set<Node>)
    requires SetTo(d, segs, v, r, used)
    ensures forall o :: o in Ids(r) ==> o in Ids(d) || o in Ids(v) || o !in used
    decreases |segs|
  {
    if segs != [] {
      match d
      case Tip(_, _) => MadeIs(segs, v, r, used);
      case Dict(_, kids) =>
        var c := r.kids[segs[0]];
        if segs[0] in kids { SetToIds(kids[segs[0]], segs[1..], v, c, used); } else { MadeIs(segs[1..], v, c, used); }
      case Row(_, items) =>
        var i := S.Atoi(segs[0]).value;
        if i < |items| {
          SetToIds(items[i], segs[1..], v, r.items[i], used);
        } else {
          MadeIs(segs[1..], v, r.items[i], used);
        }
    }
  }

  /** The value set is not part of the document, or is where it is to be put. */
  predicate Settable(d: Doc, segs: seq<string>, v: Doc) {
    Ids(d) !! Ids(v) || DocAt(d, segs) == Some(v)
  }

  /** What takes a kid's place shares nothing with the rest of the document. */
  predicate Fits(d: Doc, seg: string, c: Doc) {
    forall o :: o in Ids(c) ==> o !in Ids(d) || (Kid(d, seg).Some? && o in Ids(Kid(d, seg).value))
  }

  /** Then still no node is in it twice. */
  lemma {:induction false} SetToTree(d: Doc, segs: seq<string>, v: Doc, r: Doc, used: set<Node>)
    requires SetTo(d, segs, v, r, used) && Tree(d) && Tree(v) && Ids(d) <= used && Settable(d, segs, v)
    ensures Tree(r)
    decreases |segs|
  {
    if segs != [] {
      match d
      case Tip(_, _) => MadeIs(segs, v, r, used);
      case Dict(_, kids) =>
        var c := r.kids[segs[0]];
        if segs[0] in kids {
          SetToFits(d, segs, v, c, used);
          SetToTree(kids[segs[0]], segs[1..], v, c, used);
        } else {
          MadeIs(segs[1..], v, c, used);
        }
        KidTree(d, segs[0], c);
      case Row(_, items) =>
        var i := S.Atoi(segs[0]).value;
        var c := r.items[i];
        if i < |items| {
          SetToFits(d, segs, v, c, used);
          SetToTree(items[i], segs[1..], v, c, used);
          ItemTree(d, segs[0], i, c);
        } else {
          MadeIs(segs[1..], v, c, used);
          LastTree(r.id, d, c);
        }
    }
  }

  lemma {:induction false} SetToFits(d: Doc, segs: seq<string>, v: Doc, c: Doc, used: set<Node>)
    requires segs != [] && Kid(d, segs[0]).Some? && Tree(d) && Ids(d) <= used && Settable(d, segs, v)
    requires SetTo(Kid(d, segs[0]).value, segs[1..], v, c, used)
    ensures Fits(d, segs[0], c) && Ids(Kid(d, segs[0]).value) <= used && Settable(Kid(d, segs[0]).value, segs[1..], v)
  {
    var kid := Kid(d, segs[0]).value;
    KidModel(d, segs[0]);
    SetToIds(kid, segs[1..], v, c, used);
    if DocAt(d, segs) == Some(v) { DocAtIds(kid, segs[1..]); }
  }

  lemma {:induction false} KidTree(d: Doc, seg: string, c: Doc)
    requires d.Dict? && Tree(d) && Tree(c) && Fits(d, seg, c)
    ensures Tree(Dict(d.id, d.kids[seg := c]))
  {
    forall k | k in d.kids && k != seg
      ensures Ids(d.kids[k]) !! Ids(c)
    {
      assert Ids(d.kids[k]) <= Ids(d);
    }
  }

  lemma {:induction false} ItemTree(d: Doc, seg: string, i: nat, c: Doc)
    requires d.Row? && S.Atoi(seg) == Some(i) && i < |d.items| && Tree(d) && Tree(c) && Fits(d, seg, c)
    ensures Tree(Row(d.id, d.items[i := c]))
  {
    forall k | 0 <= k < |d.items| && k != i
      ensures Ids(d.items[k]) !! Ids(c)
    {
      assert Ids(d.items[k]) <= Ids(d);
    }
  }

  lemma {:induction false} LastTree(new_: Node, d: Doc, c: Doc)
    requires d.Row? && Tree(d) && Tree(c) && new_ !in Ids(c) && new_ !in Ids(d) && Ids(d) !! Ids(c)
    ensures Tree(Row(new_, d.items + [c]))
  {
    forall i | 0 <= i < |d.items|
      ensures Ids(d.items[i]) <= Ids(d)
    {
    }
  }

  /** Paths that part from the one set lead to the same as before. */
  lemma {:induction false} SetToElsewhere(d: Doc, segs: seq<string>, v: Doc, r: Doc, used: set<Node>, q: seq<string>)
    requires SetTo(d, segs, v, r, used) && S.Diverge(Model(d), segs, q) && DocAt(d, q).Some?
    ensures DocAt(r, q) == DocAt(d, q)
    decreases |segs|
  {
    KidModel(d, q[0]);
    KidModel(d, segs[0]);
    if S.SameStep(Model(d), segs[0], q[0]) {
      KidSpelled(d, segs[0], q[0]);
      var c := Kid(d, segs[0]).value;
      match d
      case Dict(_, _) => SetToElsewhere(c, segs[1..], v, r.kids[segs[0]], used, q[1..]);
      case Row(_, _) => SetToElsewhere(c, segs[1..], v, r.items[S.Atoi(segs[0]).value], used, q[1..]);
    }
  }

  lemma {:induction false} KidSpelled(d: Doc, a: string, b: string)
    requires S.SameStep(Model(d), a, b)
    ensures !d.Tip? ==> Kid(d, a) == Kid(d, b)
  {
  }

  /** What a node on the way becomes is what setting in it makes of it. */
  lemma {:induction false} SetToWithin(d: Doc, p: seq<string>, rest: seq<string>, v: Doc, r: Doc, used: set<Node>)
    requires SetTo(d, p + rest, v, r, used) && DocAt(d, p).Some?
    ensures DocAt(r, p).Some? && SetTo(DocAt(d, p).value, rest, v, DocAt(r, p).value, used)
    decreases |p|
  {
    if p == [] {
      EmptyUnit(rest);
    } else {
      TailOfConcat(p, rest);
      var c := Kid(d, p[0]).value;
      match d
      case Dict(_, _) => SetToWithin(c, p[1..], rest, v, r.kids[p[0]], used);
      case Row(_, _) => SetToWithin(c, p[1..], rest, v, r.items[S.Atoi(p[0]).value], used);
    }
  }

  /** It is the same node unless a new one has to be made, and then nothing is written. */
  lemma {:induction false} SameNode(d: Doc, segs: seq<string>, v: Doc, r: Doc, used: set<Node>)
    requires SetTo(d, segs, v, r, used) && segs != []
    ensures !S.Renews(Model(d), segs) ==> r.id == d.id
    ensures S.Renews(Model(d), segs) ==> Spine(d, segs) == {}
  {
  }

  /** Setting what is there already changes nothing. */
  lemma {:induction false} SetToSame(d: Doc, segs: seq<string>, v: Doc, r: Doc, used: set<Node>)
    requires SetTo(d, segs, v, r, used) && DocAt(d, segs) == Some(v)
    ensures r == d
    decreases |segs|
  {
    if segs != [] {
      match d
      case Dict(_, kids) =>
        SetToSame(kids[segs[0]], segs[1..], v, r.kids[segs[0]], used);
        assert kids[segs[0] := kids[segs[0]]] == kids;
      case Row(_, items) =>
        var i := S.Atoi(segs[0]).value;
        SetToSame(items[i], segs[1..], v, r.items[i], used);
        assert items[i := items[i]] == items;
    }
  }

  // ---- One step of setting -----------------------------------------------------------

  lemma {:induction false} Allocated(d: Doc)
    ensures forall o :: o in Ids(d) ==> allocated(o)
  {
    match d
    case Tip(_, _) =>
    case Dict(_, kids) => forall k | k in kids { Allocated(kids[k]); }
    case Row(_, items) => forall i | 0 <= i < |items| { Allocated(items[i]); }
  }

  lemma {:induction false} KidFails(d: Doc, segs: seq<string>, c: Doc, x: Value, e: S.Error)
    requires segs != [] && Kid(d, segs[0]) == Some(c) && S.Set(Model(c), segs[1..], x) == S.Err(e)
    ensures S.Set(Model(d), segs, x) == S.Err(e)
  {
    KidModel(d, segs[0]);
  }

  lemma {:induction false} NoKidFails(d: Doc, segs: seq<string>, x: Value, e: S.Error)
    requires segs != [] && Kid(d, segs[0]).None? && !d.Tip? && S.Refusal(Model(d), segs[0]).None?
    requires S.Set(Null, segs[1..], x) == S.Err(e)
    ensures S.Set(Model(d), segs, x) == S.Err(e)
  {
    KidModel(d, segs[0]);
  }

  lemma {:induction false} DictStep(id: Node, kids: map<string, Doc>, segs: seq<string>, v: Doc, c: Doc,
        used: set<Node>)
    requires segs != []
    requires if segs[0] in kids then SetTo(kids[segs[0]], segs[1..], v, c, used) else Made(segs[1..], v, c, used)
    ensures SetTo(Dict(id, kids), segs, v, Dict(id, kids[segs[0] := c]), used)
  {
  }

  lemma {:induction false} RowStep(id: Node, items: seq<Doc>, segs: seq<string>, i: nat, v: Doc, c: Doc,
        used: set<Node>)
    requires segs != [] && S.Atoi(segs[0]) == Some(i) && i < |items| && SetTo(items[i], segs[1..], v, c, used)
    ensures SetTo(Row(id, items), segs, v, Row(id, items[i := c]), used)
  {
  }

  lemma {:induction false} AppendStep(id: Node, new_: Node, items: seq<Doc>, segs: seq<string>, v: Doc, c: Doc,
        used: set<Node>)
    requires segs != [] && S.Atoi(segs[0]) == Some(|items|) && Made(segs[1..], v, c, used)
    requires new_ !in used && new_ !in Ids(v) && new_ !in Ids(c)
    ensures SetTo(Row(id, items), segs, v, Row(new_, items + [c]), used)
  {
  }

  lemma {:induction false} MadeStep(new_: Node, segs: seq<string>, v: Doc, c: Doc, used: set<Node>)
    requires segs != [] && Made(segs[1..], v, c, used) && new_ !in used && new_ !in Ids(v) && new_ !in Ids(c)
    ensures Made(segs, v, if S.Atoi(segs[0]) == Some(0) then Row(new_, [c]) else Dict(new_, map[segs[0] := c]), used)
  {
  }

  lemma {:induction false} SpineStep(d: Doc, segs: seq<string>, c: Doc)
    requires Tree(d) && segs != [] && Kid(d, segs[0]) == Some(c)
    ensures Spine(d, segs) == {d.id} + Spine(c, segs[1..]) && Spine(c, segs[1..]) <= Ids(c) <= Ids(d)
    ensures Tree(c) && d.id !in Ids(c)
  {
    KidModel(d, segs[0]);
    SpineIds(c, segs[1..]);
  }

  /** All nodes of the document but those in the set hold what they should. */
  ghost predicate Aside(d: Doc, written: set<Node>)
    reads Ids(d)
  {
    forall x :: x in Cells(d) && x.0 !in written ==> x.0.shape == x.1
  }

  /** A map with a kid replaced or added is in memory when the kid and all the rest are. */
  lemma {:induction false} DictSound(d: Doc, segs: seq<string>, c: Doc, r: Doc)
    requires d.Dict? && Tree(d) && segs != [] && r == Dict(d.id, d.kids[segs[0] := c])
    requires Aside(d, Spine(d, segs)) && Sound(c) && r.id.shape == ShapeOf(r)
    ensures Sound(r)
  {
    forall x | x in Cells(r) && x != (r.id, ShapeOf(r)) && x !in Cells(c)
      ensures x.0.shape == x.1
    {
      var k :| k in r.kids && x in Cells(r.kids[k]);
      assert k != segs[0] && x in Cells(d.kids[k]) && x.0 in Ids(d.kids[k]);
      if segs[0] in d.kids { SpineIds(d.kids[segs[0]], segs[1..]); }
    }
  }

  lemma {:induction false} RowSound(d: Doc, segs: seq<string>, i: nat, c: Doc, r: Doc)
    requires d.Row? && Tree(d) && segs != [] && S.Atoi(segs[0]) == Some(i) && i < |d.items|
    requires r == Row(d.id, d.items[i := c])
    requires Aside(d, Spine(d, segs)) && Sound(c) && r.id.shape == ShapeOf(r)
    ensures Sound(r)
  {
    forall x | x in Cells(r) && x != (r.id, ShapeOf(r)) && x !in Cells(c)
      ensures x.0.shape == x.1
    {
      var k :| 0 <= k < |r.items| && x in Cells(r.items[k]);
      assert k != i && x in Cells(d.items[k]) && x.0 in Ids(d.items[k]);
      SpineIds(d.items[i], segs[1..]);
    }
  }

  /** A failure below has left everything as it was. */
  lemma {:induction false} SoundAgain(d: Doc, segs: seq<string>, c: Doc)
    requires Tree(d) && segs != [] && Kid(d, segs[0]) == Some(c)
    requires Aside(d, Spine(d, segs)) && Sound(c) && d.id.shape == ShapeOf(d)
    ensures Sound(d)
  {
    match d
    case Dict(_, kids) =>
      assert kids[segs[0] := c] == kids;
      DictSound(d, segs, c, d);
    case Row(_, items) =>
      var i := S.Atoi(segs[0]).value;
      assert items[i := c] == items;
      RowSound(d, segs, i, c, d);
  }

  lemma {:induction false} AppendSound(d: Doc, c: Doc, r: Doc)
    requires d.Row? && r.Row? && r.items == d.items + [c]
    requires Sound(d) && Sound(c) && r.id.shape == ShapeOf(r)
    ensures Sound(r)
  {
    forall x | x in Cells(r) && x != (r.id, ShapeOf(r)) && x !in Cells(c)
      ensures x.0.shape == x.1
    {
      var k :| 0 <= k < |r.items| && x in Cells(r.items[k]);
      assert k < |d.items| && x in Cells(d.items[k]);
    }
  }

  lemma {:induction false} OneSound(seg: string, c: Doc, r: Doc)
    requires (r.Row? && r.items == [c]) || (r.Dict? && r.kids == map[seg := c])
    requires Sound(c) && r.id.shape == ShapeOf(r)
    ensures Sound(r)
  {
  }

  lemma {:induction false} DictShape(id: Node, kids: map<string, Doc>, seg: string, c: Doc)
    ensures ShapeOf(Dict(id, kids[seg := c])) == Map(ShapeOf(Dict(id, kids)).m[seg := c.id])
  {
    var m, m' := ShapeOf(Dict(id, kids)).m, ShapeOf(Dict(id, kids[seg := c])).m;
    assert m'.Keys == m[seg := c.id].Keys;
  }

  lemma {:induction false} RowShape(id: Node, items: seq<Doc>, i: nat, c: Doc)
    requires i < |items|
    ensures ShapeOf(Row(id, items[i := c])) == Slice(ShapeOf(Row(id, items)).xs[i := c.id])
  {
  }

  lemma {:induction false} AppendShape(id: Node, new_: Node, items: seq<Doc>, c: Doc)
    ensures ShapeOf(Row(new_, items + [c])) == Slice(ShapeOf(Row(id, items)).xs + [c.id])
  {
  }

  lemma {:induction false} OneShape(id: Node, seg: string, c: Doc)
    ensures ShapeOf(Row(id, [c])) == Slice([c.id]) && ShapeOf(Dict(id, map[seg := c])) == Map(map[seg := c.id])
  {
    assert ShapeOf(Dict(id, map[seg := c])).m.Keys == {seg};
  }

  // ---- Setting -----------------------------------------------------------------------

  /** Sets a path in place: the document d of node becomes dr, which is d with v at the end of
      the path. Only nodes on the way are written, and none if the set fails. */
  method SetInPlace(node: Node, segs: seq<string>, v: Node, ghost d: Doc, ghost dv: Doc,
        ghost used: set<Node>)
    returns (r: Node, err: Option<S.Error>, ghost dr: Doc)
    requires d.id == node && Sound(d) && Tree(d) && dv.id == v && Sound(dv) && Ids(dv) !! Spine(d, segs)
    modifies Spine(d, segs)
    ensures err.Some? ==> S.Set(Model(d), segs, Model(dv)) == S.Err(err.value) && Sound(d)
    ensures err.None? ==> dr.id == r && Sound(dr) && SetTo(d, segs, dv, dr, used)
    ensures err.None? ==> forall o :: o in Ids(dr) ==> o in Ids(d) || o in Ids(dv) || fresh(o)
    decreases |segs|, 2
  {
    dr := dv;
    if segs == [] { return v, None, dv; }
    SoundParts(d);
    match node.shape
    case Leaf(x) => r, err, dr := SetInLeaf(node, x, segs, v, d, dv, used);
    case Map(m) =>
      if segs[0] in m {
        r, err, dr := SetInMember(node, m, segs, v, d, dv, used);
      } else {
        r, err, dr := SetNewMember(node, m, segs, v, d, dv, used);
      }
    case Slice(xs) =>
      var idx := S.Atoi(segs[0]);
      if idx.None? || idx.value < 0 || idx.value > |xs| { return node, Some(S.BadIndex(segs[0], |xs|)), dv; }
      if idx.value == |xs| {
        r, err, dr := SetPastEnd(node, xs, segs, v, d, dv, used);
      } else {
        r, err, dr := SetInItem(node, xs, idx.value, segs, v, d, dv, used);
      }
  }

  method SetInLeaf(node: Node, x: Value, segs: seq<string>, v: Node, ghost d: Doc, ghost dv: Doc,
        ghost used: set<Node>)
    returns (r: Node, err: Option<S.Error>, ghost dr: Doc)
    requires d.id == node && Sound(d) && Tree(d) && dv.id == v && Sound(dv) && Ids(dv) !! Spine(d, segs)
    requires segs != [] && node.shape == Leaf(x)
    modifies Spine(d, segs)
    ensures err.Some? ==> S.Set(Model(d), segs, Model(dv)) == S.Err(err.value) && Sound(d)
    ensures err.None? ==> dr.id == r && Sound(dr) && SetTo(d, segs, dv, dr, used)
    ensures err.None? ==> forall o :: o in Ids(dr) ==> o in Ids(d) || o in Ids(dv) || fresh(o)
    decreases |segs|, 1
  {
    dr := dv;
    SoundParts(d);
    if x != Null { return node, Some(S.NotAContainer(segs[0])), dv; }
    Allocated(d);
    r, err, dr := SetInNothing(segs, v, dv, used);
  }

  /** Sets a path where there is nothing yet. */
  method SetInNothing(segs: seq<string>, v: Node, ghost dv: Doc, ghost used: set<Node>)
    returns (r: Node, err: Option<S.Error>, ghost dr: Doc)
    requires dv.id == v && Sound(dv)
    ensures err.Some? ==> S.Set(Null, segs, Model(dv)) == S.Err(err.value)
    ensures err.None? ==> dr.id == r && Sound(dr) && Made(segs, dv, dr, used)
    ensures err.None? ==> forall o :: o in Ids(dr) ==> o in Ids(dv) || fresh(o)
    decreases |segs|, 0
  {
    if segs == [] { return v, None, dv; }
    var child;
    child, err, dr := SetInNothing(segs[1..], v, dv, used);
    if err.Some? { return v, err, dv; }
    ghost var dc := dr;
    Allocated(dc);
    Allocated(dv);
    if S.Atoi(segs[0]) == Some(0) {
      r := new Node(Slice([child]));
      dr := Row(r, [dc]);
    } else {
      r := new Node(Map(map[segs[0] := child]));
      dr := Dict(r, map[segs[0] := dc]);
    }
    MadeStep(r, segs, dv, dc, used);
    OneShape(r, segs[0], dc);
    OneSound(segs[0], dc, dr);
  }

  method SetInMember(node: Node, m: map<string, Node>, segs: seq<string>, v: Node, ghost d: Doc, ghost dv: Doc,
        ghost used: set<Node>)
    returns (r: Node, err: Option<S.Error>, ghost dr: Doc)
    requires d.id == node && Sound(d) && Tree(d) && dv.id == v && Sound(dv) && Ids(dv) !! Spine(d, segs)
    requires segs != [] && d.Dict? && node.shape == Map(m) && segs[0] in m
    modifies Spine(d, segs)
    ensures err.Some? ==> S.Set(Model(d), segs, Model(dv)) == S.Err(err.value) && Sound(d)
    ensures err.None? ==> dr.id == r && Sound(dr) && SetTo(d, segs, dv, dr, used)
    ensures err.None? ==> forall o :: o in Ids(dr) ==> o in Ids(d) || o in Ids(dv) || fresh(o)
    decreases |segs|, 1
  {
    var seg := segs[0];
    SoundParts(d);
    ghost var kid := d.kids[seg];
    SpineStep(d, segs, kid);
    Allocated(d);
    Allocated(dv);
    var child;
    ghost var dc;
    child, err, dc := SetInPlace(m[seg], segs[1..], v, kid, dv, used);
    r, dr := node, dv;
    if err.Some? {
      KidFails(d, segs, kid, Model(dv), err.value);
      assert Aside(d, Spine(d, segs)) && Sound(kid);
      SoundAgain(d, segs, kid);
    } else {
      dr := Dict(node, d.kids[seg := dc]);
      DictStep(node, d.kids, segs, dv, dc, used);
      Allocated(dc);
      DictShape(node, d.kids, seg, dc);
      node.shape := Map(m[seg := child]);
      assert Aside(d, Spine(d, segs)) && Sound(dc);
      DictSound(d, segs, dc, dr);
    }
  }

  method SetNewMember(node: Node, m: map<string, Node>, segs: seq<string>, v: Node, ghost d: Doc, ghost dv: Doc,
        ghost used: set<Node>)
    returns (r: Node, err: Option<S.Error>, ghost dr: Doc)
    requires d.id == node && Sound(d) && Tree(d) && dv.id == v && Sound(dv) && Ids(dv) !! Spine(d, segs)
    requires segs != [] && d.Dict? && node.shape == Map(m) && segs[0] !in m
    modifies Spine(d, segs)
    ensures err.Some? ==> S.Set(Model(d), segs, Model(dv)) == S.Err(err.value) && Sound(d)
    ensures err.None? ==> dr.id == r && Sound(dr) && SetTo(d, segs, dv, dr, used)
    ensures err.None? ==> forall o :: o in Ids(dr) ==> o in Ids(d) || o in Ids(dv) || fresh(o)
    decreases |segs|, 1
  {
    var seg := segs[0];
    SoundParts(d);
    Allocated(d);
    Allocated(dv);
    var child;
    ghost var dc;
    child, err, dc := SetInNothing(segs[1..], v, dv, used);
    r, dr := node, dv;
    if err.Some? {
      NoKidFails(d, segs, Model(dv), err.value);
    } else {
      dr := Dict(node, d.kids[seg := dc]);
      DictStep(node, d.kids, segs, dv, dc, used);
      Allocated(dc);
      DictShape(node, d.kids, seg, dc);
      node.shape := Map(m[seg := child]);
      assert Aside(d, Spine(d, segs)) && Sound(dc);
      DictSound(d, segs, dc, dr);
    }
  }

  method SetInItem(node: Node, xs: seq<Node>, i: nat, segs: seq<string>, v: Node, ghost d: Doc, ghost dv: Doc,
        ghost used: set<Node>)
    returns (r: Node, err: Option<S.Error>, ghost dr: Doc)
    requires d.id == node && Sound(d) && Tree(d) && dv.id == v && Sound(dv) && Ids(dv) !! Spine(d, segs)
    requires segs != [] && d.Row? && node.shape == Slice(xs) && S.Atoi(segs[0]) == Some(i) && i < |xs|
    modifies Spine(d, segs)
    ensures err.Some? ==> S.Set(Model(d), segs, Model(dv)) == S.Err(err.value) && Sound(d)
    ensures err.None? ==> dr.id == r && Sound(dr) && SetTo(d, segs, dv, dr, used)
    ensures err.None? ==> forall o :: o in Ids(dr) ==> o in Ids(d) || o in Ids(dv) || fresh(o)
    decreases |segs|, 1
  {
    SoundParts(d);
    ghost var kid := d.items[i];
    SpineStep(d, segs, kid);
    Allocated(d);
    Allocated(dv);
    var child;
    ghost var dc;
    child, err, dc := SetInPlace(xs[i], segs[1..], v, kid, dv, used);
    r, dr := node, dv;
    if err.Some? {
      KidFails(d, segs, kid, Model(dv), err.value);
      assert Aside(d, Spine(d, segs)) && Sound(kid);
      SoundAgain(d, segs, kid);
    } else {
      dr := Row(node, d.items[i := dc]);
      RowStep(node, d.items, segs, i, dv, dc, used);
      Allocated(dc);
      RowShape(node, d.items, i, dc);
      node.shape := Slice(xs[i := child]);
      assert Aside(d, Spine(d, segs)) && Sound(dc);
      RowSound(d, segs, i, dc, dr);
    }
  }

  method SetPastEnd(node: Node, xs: seq<Node>, segs: seq<string>, v: Node, ghost d: Doc, ghost dv: Doc,
        ghost used: set<Node>)
    returns (r: Node, err: Option<S.Error>, ghost dr: Doc)
    requires d.id == node && Sound(d) && Tree(d) && dv.id == v && Sound(dv) && Ids(dv) !! Spine(d, segs)
    requires segs != [] && d.Row? && node.shape == Slice(xs) && S.Atoi(segs[0]) == Some(|xs|)
    modifies Spine(d, segs)
    ensures err.Some? ==> S.Set(Model(d), segs, Model(dv)) == S.Err(err.value) && Sound(d)
    ensures err.None? ==> dr.id == r && Sound(dr) && SetTo(d, segs, dv, dr, used)
    ensures err.None? ==> forall o :: o in Ids(dr) ==> o in Ids(d) || o in Ids(dv) || fresh(o)
    decreases |segs|, 1
  {
    SoundParts(d);
    Allocated(d);
    Allocated(dv);
    var child;
    ghost var dc;
    child, err, dc := SetInNothing(segs[1..], v, dv, used);
    r, dr := node, dv;
    if err.Some? {
      NoKidFails(d, segs, Model(dv), err.value);
    } else {
      Allocated(dc);
      r := new Node(Slice(xs + [child]));
      dr := Row(r, d.items + [dc]);
      AppendStep(node, r, d.items, segs, dv, dc, used);
      AppendShape(node, r, d.items, dc);
      AppendSound(d, dc, dr);
    }
  }
}
