/** Setting dotted paths in a JSON document, and the lens laws it obeys. */
module SetPath {
  import opened Json
  import opened JsonUtil
  import opened Options
  import opened Seqs

  datatype Error = NotJson | EmptyPath | BadIndex(seg: string, length: nat) | NotAContainer(seg: string)

  datatype Result = Ok(value: Value) | Err(error: Error)

  // ---- Indices -----------------------------------------------------------------------

  predicate Digit(c: char) {
    '0' <= c <= '9'
  }

  /** The value of a text of digits. */
  function Digits(s: string): Option<nat> {
    if s == "" || !Digit(Last(s)) then None
    else
      var d := Last(s) as int - '0' as int;
      if |s| == 1 then Some(d)
      else match Digits(Front(s))
           case None => None
           case Some(n) => Some(10 * n + d)
  }

  const TWO63 := 0x8000_0000_0000_0000

  /** A decimal number with an optional sign that fits a 64-bit integer. */
  function Atoi(s: string): Option<int> {
    var neg := s != "" && s[0] == '-';
    var digits := if neg || (s != "" && s[0] == '+') then s[1..] else s;
    match Digits(digits)
    case None => None
    case Some(n) =>
      var i := if neg then 0 - n else n as int;
      if -TWO63 <= i < TWO63 then Some(i) else None
  }

  /** A number written in decimal. */
  function Printed(n: nat): string {
    (if n < 10 then "" else Printed(n / 10)) + ["0123456789"[n % 10]]
  }

  lemma {:induction false} DigitChar(d: nat)
    requires d < 10
    ensures "0123456789"[d] as int == '0' as int + d
  {
  }

  lemma {:induction false} DigitsOfPrinted(n: nat)
    ensures Digits(Printed(n)) == Some(n) && '0' <= Printed(n)[0] <= '9'
  {
    var c := "0123456789"[n % 10];
    DigitChar(n % 10);
    if n < 10 {
      EmptyUnit([c]);
    } else {
      DigitsOfPrinted(n / 10);
      FrontLastSnoc(Printed(n / 10), c);
    }
  }

  /** A leading zero changes nothing. */
  lemma {:induction false} DigitsOfPadded(s: string)
    requires Digits(s).Some?
    ensures Digits("0" + s) == Digits(s)
  {
    FrontLastConcat("0", s);
    if |s| > 1 {
      DigitsOfPadded(Front(s));
    } else {
      assert Front("0" + s) == "0" && Digits("0") == Some(0);
    }
  }

  lemma {:induction false} DigitsAll(s: string)
    requires s != "" && forall k :: 0 <= k < |s| ==> '0' <= s[k] <= '9'
    ensures Digits(s).Some?
  {
    if |s| > 1 {
      DigitsAll(Front(s));
    }
  }

  lemma {:induction false} DigitsOnly(s: string, k: nat)
    requires Digits(s).Some? && k < |s|
    ensures s[k] in "0123456789"
  {
    if k < |s| - 1 {
      DigitsOnly(Front(s), k);
    }
  }

  lemma {:induction false} AtoiOfSigned(s: string, n: nat)
    requires Digits(s) == Some(n) && '0' <= s[0] <= '9'
    ensures Atoi(s) == if n <= 0x7fff_ffff_ffff_ffff then Some(n) else None
    ensures Atoi("+" + s) == if n <= 0x7fff_ffff_ffff_ffff then Some(n) else None
    ensures Atoi("-" + s) == if n <= 0x8000_0000_0000_0000 then Some(0 - n) else None
  {
    TailOfCons('+', s);
    TailOfCons('-', s);
  }

  /** A number that fits 64 bits is read back as printed, whatever sign it has; one that does
      not is none. */
  lemma {:induction false} AtoiOfPrinted(n: nat)
    ensures Atoi(Printed(n)) == if n <= 0x7fff_ffff_ffff_ffff then Some(n) else None
    ensures Atoi("+" + Printed(n)) == if n <= 0x7fff_ffff_ffff_ffff then Some(n) else None
    ensures Atoi("-" + Printed(n)) == if n <= 0x8000_0000_0000_0000 then Some(0 - n) else None
  {
    DigitsOfPrinted(n);
    AtoiOfSigned(Printed(n), n);
  }

  /** What is read as a number has an optional sign and then digits, at least one. */
  lemma {:induction false} AtoiReadsDigits(s: string, k: nat)
    requires Atoi(s).Some?
    ensures s != "" && (k < |s| ==> s[k] in "0123456789" || (k == 0 && s[0] in "+-" && |s| > 1))
  {
    if k < |s| {
      if s[0] in "+-" {
        if k > 0 {
          DigitsOnly(s[1..], k - 1);
        }
      } else {
        DigitsOnly(s, k);
      }
    }
  }

  // ---- Setting -----------------------------------------------------------------------

  /** What a segment leads to; null where there is nothing yet. */
  function Child(node: Value, seg: string): Value {
    match node
    case Object(m) => At(m, seg)
    case Array(xs) =>
      var i := Atoi(seg);
      if i.Some? && 0 <= i.value < |xs| then xs[i.value] else Null
    case _ => Null
  }

  /** Whether a segment can be set, and if not, why. */
  function Refusal(node: Value, seg: string): Option<Error> {
    match node
    case Null => None
    case Object(_) => None
    case Array(xs) =>
      var i := Atoi(seg);
      if i.None? || i.value < 0 || i.value > |xs| then Some(BadIndex(seg, |xs|)) else None
    case _ => Some(NotAContainer(seg))
  }

  /** The node with the child under a segment replaced: null becomes an array for index 0 and
      an object otherwise, and an index one past the end appends. */
  function Put(node: Value, seg: string, child: Value): Value
    requires Refusal(node, seg).None?
  {
    match node
    case Object(m) => Object(m[seg := child])
    case Array(xs) =>
      var i := Atoi(seg).value;
      if i == |xs| then Array(xs + [child]) else Array(xs[i := child])
    case _ => if Atoi(seg) == Some(0) then Array([child]) else Object(map[seg := child])
  }

  function Set(node: Value, segs: seq<string>, v: Value): Result
    decreases |segs|
  {
    if segs == [] then Ok(v)
    else
      match Refusal(node, segs[0])
      case Some(e) => Err(e)
      case None =>
        match Set(Child(node, segs[0]), segs[1..], v)
        case Err(e) => Err(e)
        case Ok(child) => Ok(Put(node, segs[0], child))
  }

  /** Setting below makes a new container here: there is nothing yet, or an array is appended
      to. */
  predicate Renews(model: Value, rest: seq<string>) {
    rest == [] || model == Null || (model.Array? && Atoi(rest[0]) == Some(|model.items|))
  }

  // ---- Reading -----------------------------------------------------------------------

  /** Whether a segment leads somewhere. */
  predicate Has(node: Value, seg: string) {
    match node
    case Object(m) => seg in m
    case Array(xs) => Atoi(seg).Some? && 0 <= Atoi(seg).value < |xs|
    case _ => false
  }

  function Get(node: Value, segs: seq<string>): Option<Value>
    decreases |segs|
  {
    if segs == [] then Some(node)
    else if Has(node, segs[0]) then Get(Child(node, segs[0]), segs[1..])
    else None
  }

  // ---- One step ----------------------------------------------------------------------

  lemma {:induction false} PutThenChild(node: Value, seg: string, child: Value)
    requires Refusal(node, seg).None?
    ensures var d := Put(node, seg, child); Has(d, seg) && Child(d, seg) == child && Refusal(d, seg).None?
  {
  }

  lemma {:induction false} PutTwice(node: Value, seg: string, x: Value, y: Value)
    requires Refusal(node, seg).None?
    ensures Refusal(Put(node, seg, x), seg).None? && Put(Put(node, seg, x), seg, y) == Put(node, seg, y)
  {
    if node.Array? {
      var xs, i := node.items, Atoi(seg).value;
      if i == |xs| {
        assert (xs + [x])[i := y] == xs + [y];
      } else {
        assert xs[i := x][i := y] == xs[i := y];
      }
    } else if node.Object? {
      assert node.members[seg := x][seg := y] == node.members[seg := y];
    } else {
      assert [x][0 := y] == [y];
      assert map[seg := x][seg := y] == map[seg := y];
    }
  }

  lemma {:induction false} PutSame(node: Value, seg: string)
    requires Has(node, seg)
    ensures Refusal(node, seg).None? && Put(node, seg, Child(node, seg)) == node
  {
    if node.Array? {
      var xs, i := node.items, Atoi(seg).value;
      assert xs[i := xs[i]] == xs;
    } else {
      var m := node.members;
      assert m[seg := m[seg]] == m;
    }
  }

  /** Whether two segments lead to the same place in what the node is, or becomes when the
      first is set. */
  predicate SameStep(node: Value, a: string, b: string) {
    if node.Array? || (!node.Object? && Atoi(a) == Some(0)) then Atoi(a).Some? && Atoi(a) == Atoi(b) else a == b
  }

  lemma {:induction false} PutElsewhere(node: Value, a: string, b: string, child: Value)
    requires Refusal(node, a).None? && !SameStep(node, a, b)
    ensures var d := Put(node, a, child); Has(d, b) == Has(node, b) && (Has(node, b) ==> Child(d, b) == Child(node, b))
  {
  }

  lemma {:induction false} PutSamePlace(node: Value, a: string, b: string, child: Value)
    requires Refusal(node, a).None? && SameStep(node, a, b)
    ensures var d := Put(node, a, child); Has(d, b) && Child(d, b) == child
    ensures (Has(node, b) <==> Has(node, a)) && (Has(node, b) ==> Child(node, b) == Child(node, a))
  {
  }

  // ---- Lens laws ---------------------------------------------------------------------

  /** After a successful set, reading the path gives what was set; reading on goes into it. */
  lemma {:induction false} SetGet(node: Value, segs: seq<string>, v: Value, on: seq<string>)
    requires Set(node, segs, v).Ok?
    ensures Get(Set(node, segs, v).value, segs + on) == Get(v, on)
    decreases |segs|
  {
    if segs == [] {
      EmptyUnit(on);
    } else {
      TailOfConcat(segs, on);
      var child := Set(Child(node, segs[0]), segs[1..], v);
      SetGet(Child(node, segs[0]), segs[1..], v, on);
      PutThenChild(node, segs[0], child.value);
    }
  }

  /** Setting twice is setting the last value. */
  lemma {:induction false} SetSet(node: Value, segs: seq<string>, v: Value, w: Value)
    requires Set(node, segs, v).Ok?
    ensures Set(Set(node, segs, v).value, segs, w) == Set(node, segs, w)
    decreases |segs|
  {
    if segs != [] {
      var x := Set(Child(node, segs[0]), segs[1..], v);
      SetSet(Child(node, segs[0]), segs[1..], v, w);
      PutThenChild(node, segs[0], x.value);
      if Set(x.value, segs[1..], w).Ok? {
        PutTwice(node, segs[0], x.value, Set(x.value, segs[1..], w).value);
      }
    }
  }

  /** Setting what is there changes nothing. */
  lemma {:induction false} GetSetSame(node: Value, segs: seq<string>)
    requires Get(node, segs).Some?
    ensures Set(node, segs, Get(node, segs).value) == Ok(node)
    decreases |segs|
  {
    if segs != [] {
      GetSetSame(Child(node, segs[0]), segs[1..]);
      PutSame(node, segs[0]);
    }
  }

  /** Two paths that part at a different key or index. */
  predicate Diverge(node: Value, a: seq<string>, b: seq<string>)
    decreases |a|
  {
    && a != [] && b != []
    && (SameStep(node, a[0], b[0]) ==> Diverge(Child(node, a[0]), a[1..], b[1..]))
  }

  /** Every path that diverges reads as before. */
  lemma {:induction false} SetElsewhere(node: Value, segs: seq<string>, v: Value, q: seq<string>)
    requires Set(node, segs, v).Ok? && Diverge(node, segs, q)
    ensures Get(Set(node, segs, v).value, q) == Get(node, q)
    decreases |segs|
  {
    var child := Set(Child(node, segs[0]), segs[1..], v);
    if SameStep(node, segs[0], q[0]) {
      SetElsewhere(Child(node, segs[0]), segs[1..], v, q[1..]);
      PutSamePlace(node, segs[0], q[0], child.value);
      if !Has(node, q[0]) {
        NothingInNull(q[1..]);
      }
    } else {
      PutElsewhere(node, segs[0], q[0], child.value);
    }
  }

  lemma {:induction false} NothingInNull(q: seq<string>)
    ensures q != [] ==> Get(Null, q) == None
  {
  }

  /** The segments of a path that are set can be: no scalar is in the way, and an index is at
      most one past the end of its array. */
  predicate Passable(node: Option<Value>, seg: string) {
    match node
    case None => true
    case Some(Null) => true
    case Some(Object(_)) => true
    case Some(Array(xs)) => Atoi(seg).Some? && 0 <= Atoi(seg).value <= |xs|
    case _ => false
  }

  /** A set fails if and only if something that can be read on the way refuses the segment
      after it; and a failing set has changed nothing. */
  lemma {:induction false} SetSucceedsIff(node: Value, segs: seq<string>, v: Value)
    ensures Set(node, segs, v).Ok? <==> forall k :: 0 <= k < |segs| ==> Passable(Get(node, segs[..k]), segs[k])
    decreases |segs|
  {
    if segs != [] {
      var c := Child(node, segs[0]);
      SetSucceedsIff(c, segs[1..], v);
      assert segs[..0] == [];
      forall k | 0 < k < |segs|
        ensures Passable(Get(node, segs[..k]), segs[k]) <==> Passable(Get(c, segs[1..][..k - 1]), segs[1..][k - 1])
      {
        PrefixInside(node, segs, k);
      }
      if forall k :: 0 <= k < |segs| ==> Passable(Get(node, segs[..k]), segs[k]) {
        assert Passable(Get(node, segs[..0]), segs[0]);
        forall k | 0 <= k < |segs[1..]|
          ensures Passable(Get(c, segs[1..][..k]), segs[1..][k])
        {
          assert Passable(Get(node, segs[..k + 1]), segs[k + 1]);
        }
      }
    }
  }

  /** Below a segment that leads nowhere yet, nothing refuses. */
  lemma {:induction false} PrefixInside(node: Value, segs: seq<string>, k: nat)
    requires 0 < k < |segs|
    ensures Passable(Get(node, segs[..k]), segs[k])
       <==> Passable(Get(Child(node, segs[0]), segs[1..][..k - 1]), segs[1..][k - 1])
  {
    assert segs[..k][0] == segs[0] && segs[..k][1..] == segs[1..][..k - 1];
    if !Has(node, segs[0]) {
      assert Child(node, segs[0]) == Null;
      if k > 1 {
        NothingInNull(segs[1..][..k - 1]);
      }
    }
  }

  /** A set that fails names the first segment refused: an index that its array does not have,
      with the array's length, or the segment behind a scalar. */
  lemma {:induction false} SetFails(node: Value, segs: seq<string>, v: Value) returns (k: nat)
    requires Set(node, segs, v).Err?
    ensures k < |segs| && Get(node, segs[..k]).Some? && !Passable(Get(node, segs[..k]), segs[k])
    ensures var n := Get(node, segs[..k]).value;
            Set(node, segs, v).error
            == if n.Array? then BadIndex(segs[k], |n.items|) else NotAContainer(segs[k])
    decreases |segs|
  {
    if Refusal(node, segs[0]).Some? {
      k := 0;
      assert segs[..0] == [];
    } else {
      k := SetFails(Child(node, segs[0]), segs[1..], v);
      k := k + 1;
      assert segs[..k][0] == segs[0] && segs[..k][1..] == segs[1..][..k - 1];
      if !Has(node, segs[0]) && k > 1 {
        NothingInNull(segs[1..][..k - 1]);
      }
    }
  }

  /** after is what was before with c under seg and nothing else changed; where there was
      nothing, it is an array of c for index 0, and an object otherwise. */
  predicate Takes(before: Option<Value>, seg: string, c: Value, after: Value) {
    match before
    case Some(Object(m)) => after == Object(m[seg := c])
    case Some(Array(xs)) =>
      var i := Atoi(seg);
      && i.Some? && 0 <= i.value <= |xs|
      && after == if i.value < |xs| then Array(xs[i.value := c]) else Array(xs + [c])
    case _ => after == if Atoi(seg) == Some(0) then Array([c]) else Object(map[seg := c])
  }

  /** Every container on the way takes in the one below it. */
  lemma {:induction false} WayTakesIn(node: Value, segs: seq<string>, v: Value, k: nat)
    requires Set(node, segs, v).Ok? && k < |segs|
    ensures var r := Set(node, segs, v).value;
            && Get(r, segs[..k]).Some? && Get(r, segs[..k + 1]).Some?
            && Takes(Get(node, segs[..k]), segs[k], Get(r, segs[..k + 1]).value, Get(r, segs[..k]).value)
    decreases k
  {
    var c := Child(node, segs[0]);
    var child := Set(c, segs[1..], v);
    PutThenChild(node, segs[0], child.value);
    assert segs[..k + 1][0] == segs[0] && segs[..k + 1][1..] == segs[1..][..k];
    if k == 0 {
      assert segs[..0] == [];
    } else {
      assert segs[..k][0] == segs[0] && segs[..k][1..] == segs[1..][..k - 1];
      WayTakesIn(c, segs[1..], v, k - 1);
      if !Has(node, segs[0]) && k > 1 {
        NothingInNull(segs[1..][..k - 1]);
      }
    }
  }

  /** Every array on the way keeps its length or grows by one. */
  lemma {:induction false} ArraysGrowByOne(node: Value, segs: seq<string>, v: Value, k: nat)
    requires Set(node, segs, v).Ok? && k < |segs| && Get(node, segs[..k]).Some? && Get(node, segs[..k]).value.Array?
    ensures var d := Get(Set(node, segs, v).value, segs[..k]);
            d.Some? && d.value.Array?
            && |Get(node, segs[..k]).value.items| <= |d.value.items| <= |Get(node, segs[..k]).value.items| + 1
  {
    WayTakesIn(node, segs, v, k);
  }
}
