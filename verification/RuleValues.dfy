/** What becomes of the values of a JSON patch when one path leads into the value of another,
    and when later bodies notice. */
module RuleValues {
  import opened BodyPatch
  import opened Json
  import opened Options
  import opened Seqs
  import opened SetPath
  import opened Sorting
  import opened Text

  /** What a value is after a path into it has been set in a body it is part of. */
  function Through(v: Value, rest: seq<string>, w: Value): Value {
    if Renews(v, rest) || Set(v, rest, w).Err? then v else Set(v, rest, w).value
  }

  /** It is as before if and only if it was not written into, or had that value there. */
  lemma {:induction false} ThroughSameIff(v: Value, rest: seq<string>, w: Value)
    ensures Through(v, rest, w) == v <==> Renews(v, rest) || Set(v, rest, w).Err? || Get(v, rest) == Some(w)
  {
    if Set(v, rest, w).Ok? {
      SetGet(v, rest, w, []);
      EmptyUnit(rest);
      if Get(v, rest) == Some(w) { GetSetSame(v, rest); }
    }
  }

  /** Setting a path into what can be read is setting it there. */
  lemma {:induction false} SetThere(d: Value, p: seq<string>, rest: seq<string>, w: Value)
    requires Get(d, p).Some?
    ensures Set(d, p + rest, w)
         == match Set(Get(d, p).value, rest, w) case Err(e) => Err(e) case Ok(x) => Set(d, p, x)
    ensures forall x :: Set(d, p, x).Ok?
    decreases |p|
  {
    if p == [] {
      EmptyUnit(rest);
    } else {
      TailOfConcat(p, rest);
      SetThere(Child(d, p[0]), p[1..], rest, w);
    }
  }

  /** Setting a path into a value just set is setting it in the value. */
  lemma {:induction false} SetInside(d: Value, p: seq<string>, v: Value, rest: seq<string>, w: Value)
    requires Set(d, p, v).Ok?
    ensures Set(Set(d, p, v).value, p + rest, w)
         == match Set(v, rest, w) case Err(e) => Err(e) case Ok(x) => Set(d, p, x)
    ensures Set(v, rest, w).Ok? ==> Set(d, p, Set(v, rest, w).value).Ok?
  {
    var r := Set(d, p, v).value;
    SetGet(d, p, v, []);
    EmptyUnit(p);
    SetThere(r, p, rest, w);
    if Set(v, rest, w).Ok? { SetSet(d, p, v, Set(v, rest, w).value); }
  }

  /** Whether a set fails, and how, does not depend on the value. */
  lemma {:induction false} SetIgnores(d: Value, p: seq<string>, v: Value, w: Value)
    ensures Set(d, p, v).Ok? <==> Set(d, p, w).Ok?
    ensures Set(d, p, v).Err? ==> Set(d, p, v) == Set(d, p, w)
    decreases |p|
  {
    if p != [] { SetIgnores(Child(d, p[0]), p[1..], v, w); }
  }

  // ---- Two paths ---------------------------------------------------------------------

  /** A body with v set at p and then w at q. */
  function Twice(d: Value, p: seq<string>, q: seq<string>, v: Value, w: Value): Result {
    var x := Set(d, p, v);
    if x.Ok? then Set(x.value, q, w) else x
  }

  /** The first segments of q take the steps of p, as the nodes of the body have it. */
  predicate Leads(d: Value, p: seq<string>, q: seq<string>)
    decreases |p|
  {
    p == [] || (q != [] && SameStep(d, p[0], q[0]) && Leads(Child(d, p[0]), p[1..], q[1..]))
  }

  /** What the rule's value of p is once a body has been patched. */
  function After(v: Value, d: Value, p: seq<string>, q: seq<string>, w: Value): Value {
    if |q| > |p| && Set(d, p, v).Ok? && Leads(d, p, q) then Through(v, q[|p|..], w) else v
  }

  /** Equal, or two spellings of one index. */
  predicate AlikeSeg(a: string, b: string) {
    a == b || (Atoi(a).Some? && Atoi(a).value >= 0 && Atoi(a) == Atoi(b))
  }

  /** The first segments of q could take the steps of p in some body. */
  predicate Alike(p: seq<string>, q: seq<string>)
    decreases |p|
  {
    p == [] || (q != [] && AlikeSeg(p[0], q[0]) && Alike(p[1..], q[1..]))
  }

  lemma {:induction false} LeadsAlike(d: Value, p: seq<string>, q: seq<string>, v: Value)
    requires Set(d, p, v).Ok? && Leads(d, p, q)
    ensures Alike(p, q)
    decreases |p|
  {
    if p != [] { LeadsAlike(Child(d, p[0]), p[1..], q[1..], v); }
  }

  lemma {:induction false} SetInNull(segs: seq<string>, v: Value)
    ensures Set(Null, segs, v).Ok?
    decreases |segs|
  {
    if segs != [] { SetInNull(segs[1..], v); }
  }

  /** A body in which alike paths take the same steps. */
  function Meeting(p: seq<string>, q: seq<string>): Value
    requires Alike(p, q)
    decreases |p|
  {
    if p == [] then Null
    else if p[0] == q[0] then Object(map[p[0] := Meeting(p[1..], q[1..])])
    else Array(Nulls(Atoi(p[0]).value) + [Meeting(p[1..], q[1..])])
  }

  function Nulls(n: nat): (r: seq<Value>)
    ensures |r| == n
  {
    seq(n, _ => Null)
  }

  lemma {:induction false} MeetingLeads(p: seq<string>, q: seq<string>, v: Value)
    requires Alike(p, q)
    ensures Set(Meeting(p, q), p, v).Ok? && Leads(Meeting(p, q), p, q)
    decreases |p|
  {
    if p != [] {
      MeetingLeads(p[1..], q[1..], v);
      assert Child(Meeting(p, q), p[0]) == Meeting(p[1..], q[1..]);
    }
  }

  /** A body in which they part, as different keys. */
  function Parting(p: seq<string>, q: seq<string>): Value
    requires Alike(p, q) && !(p <= q)
    decreases |p|
  {
    if p[0] == q[0] then
      ConsPrefix(p, q);
      Object(map[p[0] := Parting(p[1..], q[1..])])
    else Object(map[])
  }

  lemma {:induction false} ConsPrefix(p: seq<string>, q: seq<string>)
    requires p != [] && q != [] && p[0] == q[0]
    ensures p <= q <==> p[1..] <= q[1..]
  {
    ConsTail(p);
    ConsTail(q);
  }

  /** There each path reads what it was set to. */
  lemma {:induction false} PartingKeeps(p: seq<string>, q: seq<string>, v: Value, w: Value)
    requires Alike(p, q) && !(p <= q)
    ensures ReadsBack(Parting(p, q), p, q, v, w)
    decreases |p|
  {
    if p[0] == q[0] {
      ConsPrefix(p, q);
      PartingKeeps(p[1..], q[1..], v, w);
      OneStepOut(p, q, Parting(p[1..], q[1..]), v, w);
    } else {
      PartAtOnce(p, q, v, w);
    }
  }

  /** With both set, p reads what it was set to. */
  predicate ReadsBack(d: Value, p: seq<string>, q: seq<string>, v: Value, w: Value) {
    var r := Twice(d, p, q, v, w);
    r.Ok? && Get(r.value, p) == Some(v)
  }

  lemma {:induction false} OneStepOut(p: seq<string>, q: seq<string>, c: Value, v: Value, w: Value)
    requires p != [] && q != [] && p[0] == q[0] && ReadsBack(c, p[1..], q[1..], v, w)
    ensures ReadsBack(Object(map[p[0] := c]), p, q, v, w)
  {
    var d := Object(map[p[0] := c]);
    var x := Set(c, p[1..], v).value;
    PutThenChild(d, p[0], x);
    assert Set(d, p, v) == Ok(Put(d, p[0], x));
    var y := Set(x, q[1..], w).value;
    PutThenChild(Put(d, p[0], x), q[0], y);
  }

  lemma {:induction false} PartAtOnce(p: seq<string>, q: seq<string>, v: Value, w: Value)
    requires p != [] && q != [] && p[0] != q[0]
    ensures ReadsBack(Object(map[]), p, q, v, w)
  {
    var d := Object(map[]);
    SetInNull(p[1..], v);
    SetInNull(q[1..], w);
    var x := Set(d, p, v).value;
    assert Child(x, q[0]) == Null;
    SetGet(d, p, v, []);
    EmptyUnit(p);
    SetElsewhere(x, q, w, p);
  }

  /** The value written into gives every later body the same result, where p begins q. */
  lemma {:induction false} ThroughGivesTheSame(d: Value, p: seq<string>, v: Value, rest: seq<string>, w: Value)
    ensures Twice(d, p, p + rest, Through(v, rest, w), w) == Twice(d, p, p + rest, v, w)
  {
    SetIgnores(d, p, v, Through(v, rest, w));
    if Set(d, p, v).Ok? {
      SetInside(d, p, v, rest, w);
      SetInside(d, p, Through(v, rest, w), rest, w);
      if Set(v, rest, w).Ok? { SetSet(v, rest, w, w); }
    }
  }

  /** A body can change the value if and only if some body lets q lead into it, by the look of
      the two paths, and writing there changes it. */
  lemma {:induction false} ValueStaysIff(p: seq<string>, q: seq<string>, v: Value, w: Value)
    ensures (forall d :: After(v, d, p, q, w) == v)
       <==> |q| <= |p| || !Alike(p, q) || Through(v, q[|p|..], w) == v
  {
    if |q| > |p| && Alike(p, q) {
      MeetingLeads(p, q, v);
      assert After(v, Meeting(p, q), p, q, w) == Through(v, q[|p|..], w);
    } else {
      forall d
        ensures After(v, d, p, q, w) == v
      {
        if Set(d, p, v).Ok? && Leads(d, p, q) { LeadsAlike(d, p, q, v); }
      }
    }
  }

  /** Behind body d1, body d2 gets what the rule as written gives. */
  predicate Unnoticed(p: seq<string>, q: seq<string>, v: Value, w: Value, d1: Value, d2: Value) {
    Twice(d2, p, q, After(v, d1, p, q, w), w) == Twice(d2, p, q, v, w)
  }

  /** Every later body gets what the rule as written gives, whatever the earlier one was, if and
      only if q cannot lead into p's value in any body, or does so in all, or changes nothing. */
  lemma {:induction false} LaterBodiesIff(p: seq<string>, q: seq<string>, v: Value, w: Value)
    ensures (forall d1, d2 :: Unnoticed(p, q, v, w, d1, d2))
       <==> |q| <= |p| || p <= q || !Alike(p, q) || Through(v, q[|p|..], w) == v
  {
    ValueStaysIff(p, q, v, w);
    if |q| <= |p| || !Alike(p, q) || Through(v, q[|p|..], w) == v {
      forall d1, d2
        ensures Unnoticed(p, q, v, w, d1, d2)
      {
        assert After(v, d1, p, q, w) == v;
      }
    } else if p <= q {
      TakePrefix(p, q);
      forall d1, d2
        ensures Unnoticed(p, q, v, w, d1, d2)
      {
        ThroughGivesTheSame(d2, p, v, q[|p|..], w);
      }
    } else {
      MeetingLeads(p, q, v);
      var d1, d2 := Meeting(p, q), Parting(p, q);
      PartingKeeps(p, q, v, w);
      PartingKeeps(p, q, Through(v, q[|p|..], w), w);
      assert !Unnoticed(p, q, v, w, d1, d2);
    }
  }

  // ---- A rule of two paths -----------------------------------------------------------

  lemma {:induction false} TwoSorted(p: string, q: string)
    requires StringLe(p, q) && p != q
    ensures SortedStrings({p, q}) == [p, q]
  {
    OrdersAreTotal();
    var two, one := [p, q], [p];
    assert Front(two) == one && Last(two) == q && Front(one) == [] && Last(one) == p;
    assert Elements(one) == Elements([]) + {p};
    assert Elements(two) == {p, q};
    SortedUnique(two, {p, q}, StringLe);
  }

  /** A rule of two paths sets one and then the other. */
  lemma {:induction false} TwoPaths(doc: Value, p: string, q: string, values: map<string, Value>)
    requires p in values && q in values && TrimSpace(p) != "" && TrimSpace(q) != ""
    ensures SetAll(doc, [p, q], values) == Twice(doc, Segs(p), Segs(q), values[p], values[q])
  {
    var two, one, none: seq<string> := [p, q], [p], [];
    assert Front(two) == one && Last(two) == q && Front(one) == none && Last(one) == p;
    assert SetAll(doc, none, values) == Ok(doc);
    assert SetAll(doc, one, values) == Set(doc, Segs(p), values[p]);
  }

  /** The rule's values once a body has been patched. */
  function Later(values: map<string, Value>, p: string, q: string, d: Value): map<string, Value>
    requires p in values && q in values
  {
    values[p := After(values[p], d, Segs(p), Segs(q), values[q])]
  }

  /** Behind body d1, body d2 gets what the rule of two paths as written gives. */
  ghost predicate RuleUnnoticed(p: string, q: string, values: map<string, Value>, d1: Value, d2: Value)
    requires p in values && q in values
  {
    SetAll(d2, [p, q], Later(values, p, q, d1)) == SetAll(d2, [p, q], values)
  }

  /** Every later body gets what a rule of two paths as written gives if and only if, by the
      look of it, the second cannot lead into the first one's value, or the first begins it, or
      writing there changes nothing. */
  lemma {:induction false} TwoPathRuleIff(p: string, q: string, values: map<string, Value>)
    requires StringLe(p, q) && p != q && TrimSpace(p) != "" && TrimSpace(q) != "" && p in values && q in values
    ensures SortedStrings({p, q}) == [p, q]
    ensures (forall d1, d2 :: RuleUnnoticed(p, q, values, d1, d2))
       <==> || |Segs(q)| <= |Segs(p)| || Segs(p) <= Segs(q) || !Alike(Segs(p), Segs(q))
            || Through(values[p], Segs(q)[|Segs(p)|..], values[q]) == values[p]
  {
    TwoSorted(p, q);
    var v, w := values[p], values[q];
    LaterBodiesIff(Segs(p), Segs(q), v, w);
    forall d1, d2
      ensures RuleUnnoticed(p, q, values, d1, d2) <==> Unnoticed(Segs(p), Segs(q), v, w, d1, d2)
    {
      TwoPaths(d2, p, q, values);
      TwoPaths(d2, p, q, Later(values, p, q, d1));
    }
  }

  // ---- Two rules that change ---------------------------------------------------------

  /** {"b": 1} */
  const ONE := Object(map["b" := Number("1")])

  lemma {:induction false} OneTakenIn()
    ensures Set(Object(map[]), ["b"], Number("1")) == Ok(ONE) && ONE != Object(map[])
    ensures Through(Object(map[]), ["b"], Number("1")) == ONE
  {
    var rest := ["b"];
    assert rest[1..] == [];
    assert map[][rest[0] := Number("1")] == map["b" := Number("1")];
    var m, e: map<string, Value> := map["b" := Number("1")], map[];
    assert "b" in m && "b" !in e;
  }

  /** {"a": {}, "a.b": 1}: the first body makes the rule's own value of "a" into {"b": 1}. */
  lemma {:induction false} ValueTakenIn()
    ensures SortedStrings({"a", "a.b"}) == ["a", "a.b"] && Segs("a.b") == Segs("a") + ["b"]
    ensures After(Object(map[]), Object(map[]), Segs("a"), Segs("a.b"), Number("1")) == ONE != Object(map[])
  {
    OneTakenIn();
    assert StringLe("a", "a.b");
    TwoSorted("a", "a.b");
    SplitNoSep("a", '.');
    SplitNoSep("b", '.');
    SplitAfterFirst("a", '.', "b");
    assert "a" + ['.'] + "b" == "a.b";
    var p, q := Segs("a"), Segs("a.b");
    assert p == ["a"] && p[1..] == [] && q[|p|..] == ["b"];
  }

  lemma {:induction false} ZeroTwice()
    ensures Atoi("0") == Some(0) && Atoi("00") == Some(0)
  {
    var s, z := "00", "0";
    assert Front(s) == z && Last(s) == '0';
    assert Digits(z) == Some(0);
    assert Digits(s) == Some(0);
  }

  lemma {:induction false} AlikeSplit()
    ensures Segs("l.0") == ["l", "0"] && Segs("l.00.b") == ["l", "00", "b"]
  {
    SplitNoSep("0", '.');
    SplitNoSep("b", '.');
    SplitAfterFirst("l", '.', "0");
    SplitAfterFirst("00", '.', "b");
    SplitAfterFirst("l", '.', "00.b");
    assert "l" + ['.'] + "0" == "l.0" && "00" + ['.'] + "b" == "00.b" && "l" + ['.'] + "00.b" == "l.00.b";
  }

  lemma {:induction false} AlikeSorted()
    ensures SortedStrings({"l.0", "l.00.b"}) == ["l.0", "l.00.b"]
  {
    var p, q := "l.0", "l.00.b";
    assert p[1..] == ".0" && q[1..] == ".00.b" && p[1..][1..] == "0" && q[1..][1..] == "00.b";
    assert StringLe(p[1..][1..], q[1..][1..]);
    assert StringLe(p[1..], q[1..]);
    TwoSorted(p, q);
  }

  lemma {:induction false} AfterArray(p: seq<string>, q: seq<string>)
    requires p == ["l", "0"] && q == ["l", "00", "b"]
    ensures After(Object(map[]), Object(map["l" := Array([])]), p, q, Number("1")) == ONE
  {
    ZeroTwice();
    OneTakenIn();
    assert p[1..] == ["0"] && p[1..][1..] == [] && q[1..] == ["00", "b"] && q[|p|..] == ["b"];
    var d := Object(map["l" := Array([])]);
    assert Set(Array([]), p[1..], Object(map[])).Ok?;
    assert Set(d, p, Object(map[])).Ok?;
    assert Leads(Array([]), p[1..], q[1..]);
    assert Leads(d, p, q);
  }

  /** A body with an object l, patched with x and then 1. */
  lemma {:induction false} ObjectTwice(p: seq<string>, q: seq<string>, x: Value)
    requires p == ["l", "0"] && q == ["l", "00", "b"]
    ensures Twice(Object(map["l" := Object(map[])]), p, q, x, Number("1"))
         == Ok(Object(map["l" := Object(map["0" := x, "00" := ONE])]))
  {
    assert p[1..] == ["0"] && p[1..][1..] == [] && q[1..] == ["00", "b"] && q[1..][1..] == ["b"];
    var d, e := Object(map[]), Object(map["0" := x]);
    assert map[]["0" := x] == map["0" := x];
    assert Set(d, p[1..], x) == Ok(e);
    assert map["l" := d]["l" := e] == map["l" := e];
    NullTakesOne();
    assert "00" !in map["0" := x] && map["0" := x]["00" := ONE] == map["0" := x, "00" := ONE];
    var f := Object(map["0" := x, "00" := ONE]);
    assert Set(e, q[1..], Number("1")) == Ok(f);
    assert map["l" := e]["l" := f] == map["l" := f];
  }

  lemma {:induction false} NullTakesOne()
    ensures Set(Null, ["b"], Number("1")) == Ok(ONE)
  {
    var q := ["b"];
    assert q[1..] == [] && Atoi("b") == None;
  }

  /** {"l.0": {}, "l.00.b": 1}: after a body with an array l the rule's value of "l.0" is
      {"b": 1}, and the next body, which has an object l, gets that at l.0 instead of {}. */
  lemma {:induction false} WrongSecondBody(values: map<string, Value>)
    requires values == map["l.0" := Object(map[]), "l.00.b" := Number("1")]
    ensures SortedStrings({"l.0", "l.00.b"}) == ["l.0", "l.00.b"]
    ensures var body := Object(map["l" := Object(map[])]);
            var later := Later(values, "l.0", "l.00.b", Object(map["l" := Array([])]));
            && SetAll(body, ["l.0", "l.00.b"], later) == Ok(Object(map["l" := Object(map["0" := ONE, "00" := ONE])]))
            && SetAll(body, ["l.0", "l.00.b"], values)
            == Ok(Object(map["l" := Object(map["0" := Object(map[]), "00" := ONE])]))
  {
    AlikeSorted();
    AlikeSplit();
    var p, q := "l.0", "l.00.b";
    var body, first := Object(map["l" := Object(map[])]), Object(map["l" := Array([])]);
    AfterArray(Segs(p), Segs(q));
    SegsNotBlank();
    TwoPaths(body, p, q, values);
    TwoPaths(body, p, q, Later(values, p, q, first));
    ObjectTwice(Segs(p), Segs(q), ONE);
    ObjectTwice(Segs(p), Segs(q), Object(map[]));
  }

  lemma {:induction false} SegsNotBlank()
    ensures TrimSpace("l.0") != "" && TrimSpace("l.00.b") != ""
  {
  }
}
