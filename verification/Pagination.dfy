/** Listing flows page by page, newest first, with a cursor that names the last flow listed. */
module Pagination {
  import opened FlowId
  import opened Mem
  import opened MemRing
  import opened Seqs

  /** A page: rows, how many flows match from the cursor on, the newest id, the next cursor. */
  datatype Page<T> = Page(flows: seq<Flow<T>>, total: nat, lastId: nat, cursor: string)

  const PREFIX := "before:"

  function Clamped(limit: int): (n: nat)
    ensures 0 < n <= 200
  {
    if limit <= 0 then 50 else if limit > 200 then 200 else limit
  }

  /** The id a cursor names; 0 for none, or for one that cannot be read. */
  function CursorId(cursor: string): nat {
    if PREFIX <= cursor && Parsed(cursor[|PREFIX|..]).Some? then Parsed(cursor[|PREFIX|..]).value else 0
  }

  function CursorFor(id: nat): string {
    PREFIX + ShortOf(id)
  }

  /** All flows, newest first. */
  function Newest<T>(held: seq<Flow<T>>): seq<Flow<T>> {
    if held == [] then [] else [Last(held)] + Newest(Front(held))
  }

  /** The matching flows older than the one named; 0 names none. */
  function Rest<T>(vs: seq<Flow<T>>, match_: Flow<T> -> bool, before: nat): seq<Flow<T>> {
    if vs == [] then []
    else
      var rest := Rest(vs[1..], match_, before);
      if (before == 0 || vs[0].id < before) && match_(vs[0]) then [vs[0]] + rest else rest
  }

  function Truncated<T>(s: seq<T>, n: nat): seq<T> {
    if |s| <= n then s else s[..n]
  }

  /** The newest id that is not 0. */
  function LastId<T>(vs: seq<Flow<T>>): nat {
    if vs == [] then 0 else if LastId(Front(vs)) != 0 then LastId(Front(vs)) else Last(vs).id
  }

  /** What Query returns for the flows vs, newest first. */
  function PageOf<T>(vs: seq<Flow<T>>, match_: Flow<T> -> bool, limit: int, cursor: string): Page<T> {
    var all := Rest(vs, match_, CursorId(cursor));
    var flows := Truncated(all, Clamped(limit));
    Page(flows, |all|, LastId(vs),
         if |all| > |flows| && Last(flows).id != 0 then CursorFor(Last(flows).id) else "")
  }

  // ---- Query -------------------------------------------------------------------------

  lemma {:induction false} VisitsAll<T>(held: seq<Flow<T>>, fn: Flow<T> -> bool)
    requires forall i :: 0 <= i < |held| ==> fn(held[i])
    ensures Visited(held, fn) == Newest(held)
  {
    if held != [] {
      VisitsAll(Front(held), fn);
    }
  }

  lemma {:induction false} RestSnoc<T>(vs: seq<Flow<T>>, f: Flow<T>, match_: Flow<T> -> bool, before: nat)
    ensures Rest(vs + [f], match_, before)
         == Rest(vs, match_, before) + if (before == 0 || f.id < before) && match_(f) then [f] else []
  {
    if vs == [] {
      assert (vs + [f])[1..] == [];
    } else {
      TailOfConcat(vs, [f]);
      RestSnoc(vs[1..], f, match_, before);
    }
  }

  method Query<T(0)>(m: Mem<T>, match_: Flow<T> -> bool, cursor: string, limit: int) returns (out: Page<T>)
    requires m.Valid()
    ensures out == PageOf(Newest(m.held), match_, limit, cursor)
  {
    var n := limit;
    if n <= 0 { n := 50; }
    if n > 200 { n := 200; }
    var before := 0;
    if PREFIX <= cursor {
      var id := ParseShort(cursor[|PREFIX|..]);
      if id.Some? { before := id.value; }
    }
    var visited := m.Each(f => true);
    VisitsAll(m.held, f => true);
    out := Gather(visited, match_, before, n);
  }

  /** What Query's visitor gathers. */
  method Gather<T>(visited: seq<Flow<T>>, match_: Flow<T> -> bool, before: nat, n: nat) returns (out: Page<T>)
    requires n > 0
    ensures var all := Rest(visited, match_, before);
            var flows := Truncated(all, n);
            out == Page(flows, |all|, LastId(visited),
                        if |all| > |flows| && Last(flows).id != 0 then CursorFor(Last(flows).id) else "")
  {
    var flows, total, lastId, last := [], 0, 0, 0;
    TakeAll(visited);
    for k := 0 to |visited|
      invariant flows == Truncated(Rest(visited[..k], match_, before), n)
      invariant total == |Rest(visited[..k], match_, before)|
      invariant last == if flows == [] then 0 else Last(flows).id
      invariant lastId == LastId(visited[..k])
    {
      var f := visited[k];
      TakeSnoc(visited, k);
      FrontLastSnoc(visited[..k], f);
      RestSnoc(visited[..k], f, match_, before);
      EmptyUnit(Rest(visited[..k], match_, before));
      if lastId == 0 { lastId := f.id; }
      if before != 0 && f.id >= before { continue; }
      if !match_(f) { continue; }
      total := total + 1;
      if |flows| < n {
        flows := flows + [f];
        last := f.id;
      }
    }
    var cursor := "";
    if total > |flows| && last != 0 { cursor := PREFIX + ShortOf(last); }
    out := Page(flows, total, lastId, cursor);
  }

  // ---- What a page holds -------------------------------------------------------------

  /** Whether a flow belongs to the list that goes on from before; 0 is the beginning. */
  predicate Listed<T>(f: Flow<T>, match_: Flow<T> -> bool, before: nat) {
    match_(f) && (before == 0 || f.id < before)
  }

  function Count<T>(vs: seq<Flow<T>>, match_: Flow<T> -> bool, before: nat): nat {
    if vs == [] then 0 else Count(Front(vs), match_, before) + if Listed(Last(vs), match_, before) then 1 else 0
  }

  lemma {:induction false} RestCounts<T>(vs: seq<Flow<T>>, match_: Flow<T> -> bool, before: nat)
    ensures |Rest(vs, match_, before)| == Count(vs, match_, before)
  {
    if vs != [] {
      RestCounts(Front(vs), match_, before);
      FrontLast(vs);
      RestSnoc(Front(vs), Last(vs), match_, before);
    }
  }

  lemma {:induction false} RestAt<T>(vs: seq<Flow<T>>, match_: Flow<T> -> bool, before: nat, k: nat)
    requires k < |vs| && Listed(vs[k], match_, before)
    ensures var at := Count(vs[..k], match_, before);
            at < |Rest(vs, match_, before)| && Rest(vs, match_, before)[at] == vs[k]
  {
    FrontLast(vs);
    RestSnoc(Front(vs), Last(vs), match_, before);
    RestCounts(Front(vs), match_, before);
    if k < |vs| - 1 {
      FrontTake(vs, k);
      RestAt(Front(vs), match_, before, k);
    } else {
      assert vs[..k] == Front(vs);
    }
  }

  /** id is the first that is not 0. */
  ghost predicate FirstId<T>(vs: seq<Flow<T>>, id: nat) {
    if id == 0 then forall k :: 0 <= k < |vs| ==> vs[k].id == 0
    else exists k :: 0 <= k < |vs| && vs[k].id == id && forall j :: 0 <= j < k ==> vs[j].id == 0
  }

  lemma {:induction false} LastIdIsFirst<T>(vs: seq<Flow<T>>)
    ensures FirstId(vs, LastId(vs))
  {
    if vs != [] {
      LastIdIsFirst(Front(vs));
      if LastId(Front(vs)) != 0 {
        var k :| 0 <= k < |Front(vs)| && Front(vs)[k].id == LastId(Front(vs))
                 && forall j :: 0 <= j < k ==> Front(vs)[j].id == 0;
        assert vs[k].id == LastId(vs) && forall j :: 0 <= j < k ==> vs[j].id == 0 by {
          assert forall j :: 0 <= j < k ==> vs[j] == Front(vs)[j];
        }
      } else if Last(vs).id != 0 {
        assert vs[|vs| - 1].id == LastId(vs);
      }
    }
  }

  /** A page has the first of the flows listed, 50 when no limit is given and never more than
      200, in order; it counts all of them, and names the newest id. */
  lemma {:induction false} PageTells<T>(vs: seq<Flow<T>>, match_: Flow<T> -> bool, limit: int, cursor: string, k: nat)
    ensures var page, before := PageOf(vs, match_, limit, cursor), CursorId(cursor);
            var most := if limit <= 0 then 50 else if limit < 200 then limit else 200;
            && page.total == Count(vs, match_, before) && FirstId(vs, page.lastId)
            && |page.flows| == (if page.total < most then page.total else most)
            && (k < |vs| && Listed(vs[k], match_, before) && Count(vs[..k], match_, before) < most ==>
                  Count(vs[..k], match_, before) < |page.flows|
                  && page.flows[Count(vs[..k], match_, before)] == vs[k])
  {
    RestCounts(vs, match_, CursorId(cursor));
    LastIdIsFirst(vs);
    if k < |vs| && Listed(vs[k], match_, CursorId(cursor)) {
      RestAt(vs, match_, CursorId(cursor), k);
    }
  }

  /** A cursor is "before:" and a flow id; any other text lists from the beginning. */
  lemma {:induction false} CursorIs(text: string, id: nat)
    ensures CursorId("before:" + text) == if Parsed(text).Some? then Parsed(text).value else 0
    ensures !("before:" <= text) ==> CursorId(text) == 0
    ensures CursorFor(id) == "before:" + ShortOf(id)
  {
    assert ("before:" + text)[7..] == text;
  }

  // ---- Following cursors -------------------------------------------------------------

  /** Ids descend, and are 64-bit numbers above 0. */
  predicate Descending<T>(vs: seq<Flow<T>>)
    decreases |vs|
  {
    vs == []
    || (0 < vs[0].id && ValidId(vs[0].id) && (|vs| > 1 ==> vs[1].id < vs[0].id) && Descending(vs[1..]))
  }

  /** vs with only ids below another. */
  predicate Below<T>(vs: seq<Flow<T>>, id: nat) {
    vs == [] || vs[0].id < id
  }

  lemma {:induction false} CursorReadBack(id: nat)
    requires ValidId(id)
    ensures CursorId(CursorFor(id)) == id
  {
    var c := CursorFor(id);
    assert c[|PREFIX|..] == ShortOf(id);
    ParseInvertsShort(id);
  }

  /** What is listed from a flow on lies below it. */
  lemma {:induction false} RestBelow<T>(vs: seq<Flow<T>>, match_: Flow<T> -> bool, before: nat, id: nat)
    requires Descending(vs) && Below(vs, id)
    ensures Below(Rest(vs, match_, before), id)
  {
    if vs != [] {
      RestBelow(vs[1..], match_, before, id);
    }
  }

  lemma {:induction false} RestDescends<T>(vs: seq<Flow<T>>, match_: Flow<T> -> bool, before: nat)
    requires Descending(vs)
    ensures Descending(Rest(vs, match_, before))
  {
    if vs != [] {
      var rest := Rest(vs[1..], match_, before);
      RestDescends(vs[1..], match_, before);
      RestBelow(vs[1..], match_, before, vs[0].id);
      TailOfCons(vs[0], rest);
    }
  }

  /** Below every flow of vs, the bound does not matter. */
  lemma {:induction false} RestAll<T>(vs: seq<Flow<T>>, match_: Flow<T> -> bool, before: nat)
    requires Descending(vs) && Below(vs, before)
    ensures Rest(vs, match_, before) == Rest(vs, match_, 0)
  {
    if vs != [] {
      RestAll(vs[1..], match_, before);
    }
  }

  /** From the first flow listed on, the list goes on with the second. */
  lemma {:induction false} RestAfterFirst<T>(vs: seq<Flow<T>>, match_: Flow<T> -> bool, before: nat)
    requires Descending(vs) && Rest(vs, match_, before) != []
    ensures Rest(vs, match_, Rest(vs, match_, before)[0].id) == Rest(vs, match_, before)[1..]
  {
    var all, rest := Rest(vs, match_, before), Rest(vs[1..], match_, before);
    if (before == 0 || vs[0].id < before) && match_(vs[0]) {
      TailOfCons(vs[0], rest);
      RestAll(vs[1..], match_, vs[0].id);
      if before != 0 { RestAll(vs[1..], match_, before); }
    } else {
      RestBelow(vs[1..], match_, before, vs[0].id);
      RestDescends(vs[1..], match_, before);
      RestAfterFirst(vs[1..], match_, before);
    }
  }

  /** From flow k of the list on, the list goes on with the next. */
  lemma {:induction false} RestAfter<T>(vs: seq<Flow<T>>, match_: Flow<T> -> bool, before: nat, k: nat)
    requires Descending(vs) && k < |Rest(vs, match_, before)|
    ensures Rest(vs, match_, Rest(vs, match_, before)[k].id) == Rest(vs, match_, before)[k + 1..]
    decreases k
  {
    var all := Rest(vs, match_, before);
    RestAfterFirst(vs, match_, before);
    if k > 0 {
      RestAfter(vs, match_, all[0].id, k - 1);
      DropMore(all, 1, k);
    }
  }

  lemma {:induction false} ListedAre<T>(vs: seq<Flow<T>>, k: nat)
    requires Descending(vs) && k < |vs|
    ensures 0 < vs[k].id && ValidId(vs[k].id)
  {
    if k > 0 { ListedAre(vs[1..], k - 1); }
  }

  /** The cursor for flow k of a list reads back as its id, and leads on to the next. */
  lemma {:induction false} CursorAt<T>(vs: seq<Flow<T>>, match_: Flow<T> -> bool, before: nat, k: nat)
    requires Descending(vs) && k < |Rest(vs, match_, before)|
    ensures var all := Rest(vs, match_, before);
            && all[k].id != 0 && CursorFor(all[k].id) != ""
            && Rest(vs, match_, CursorId(CursorFor(all[k].id))) == all[k + 1..]
  {
    var all := Rest(vs, match_, before);
    RestDescends(vs, match_, before);
    ListedAre(all, k);
    CursorReadBack(all[k].id);
    RestAfter(vs, match_, before, k);
  }

  /** A page's cursor leads to exactly what the page left out; it has none when nothing is. */
  lemma {:induction false} CursorContinues<T>(vs: seq<Flow<T>>, match_: Flow<T> -> bool, limit: int, cursor: string)
    requires Descending(vs)
    ensures var page, all := PageOf(vs, match_, limit, cursor), Rest(vs, match_, CursorId(cursor));
            && page.flows <= all
            && (page.cursor == "" <==> page.flows == all)
            && (page.cursor != "" ==>
                  page.flows != [] && Rest(vs, match_, CursorId(page.cursor)) == all[|page.flows|..])
  {
    var all, n := Rest(vs, match_, CursorId(cursor)), Clamped(limit);
    if |all| > n {
      CursorAt(vs, match_, CursorId(cursor), n - 1);
      assert Last(all[..n]) == all[n - 1];
    }
  }

  /** The flows of all pages, from a cursor on. */
  function Listing<T>(vs: seq<Flow<T>>, match_: Flow<T> -> bool, limit: int, cursor: string): seq<Flow<T>>
    requires Descending(vs)
    decreases |Rest(vs, match_, CursorId(cursor))|
  {
    var page := PageOf(vs, match_, limit, cursor);
    CursorContinues(vs, match_, limit, cursor);
    page.flows + if page.cursor == "" then [] else Listing(vs, match_, limit, page.cursor)
  }

  /** Pagination is exact: following the cursors ends, and lists every matching flow once, in
      order, whatever the limit. */
  lemma {:induction false} ListingIsExact<T>(vs: seq<Flow<T>>, match_: Flow<T> -> bool, limit: int, cursor: string)
    requires Descending(vs)
    ensures Listing(vs, match_, limit, cursor) == Rest(vs, match_, CursorId(cursor))
    decreases |Rest(vs, match_, CursorId(cursor))|
  {
    var page, all := PageOf(vs, match_, limit, cursor), Rest(vs, match_, CursorId(cursor));
    CursorContinues(vs, match_, limit, cursor);
    if page.cursor == "" {
      EmptyUnit(page.flows);
    } else {
      ListingIsExact(vs, match_, limit, page.cursor);
      SplitAt(all, |page.flows|);
    }
  }

  // ---- Rings whose ids descend -------------------------------------------------------

  /** Oldest first, ids rise. */
  ghost predicate Rising<T>(held: seq<Flow<T>>) {
    && (forall i :: 0 <= i < |held| ==> 0 < held[i].id && ValidId(held[i].id))
    && (forall i, j :: 0 <= i < j < |held| ==> held[i].id < held[j].id)
  }

  lemma {:induction false} RisingDescends<T>(held: seq<Flow<T>>)
    requires Rising(held)
    ensures Descending(Newest(held))
  {
    if held != [] {
      RisingDescends(Front(held));
      TailOfCons(Last(held), Newest(Front(held)));
    }
  }

  /** Flows get rising ids when they start; storing one, or a new snapshot of one held, keeps
      the ring in order of ids. */
  lemma {:induction false} UpsertKeepsRising<T>(held: seq<Flow<T>>, f: Flow<T>, size: nat)
    requires Rising(held) && 0 < f.id && ValidId(f.id)
    requires Find(held, f.id).None? ==> forall i :: 0 <= i < |held| ==> held[i].id < f.id
    ensures Rising(Upserted(held, f, size))
  {
  }

  lemma {:induction false} DeleteKeepsRising<T>(held: seq<Flow<T>>, match_: Flow<T> -> bool, want: bool)
    requires Rising(held)
    ensures Rising(Filter(held, match_, want))
  {
    if held != [] {
      DeleteKeepsRising(Front(held), match_, want);
      FilterHas(Front(held), match_, want);
    }
  }

  // ---- What the store holds after any run --------------------------------------------

  /** What is done to the store. */
  datatype StoreOp<!T> = Put(f: Flow<T>) | Drop(which: Flow<T> -> bool)

  /** The flows held after a run, oldest first. */
  function Stored<T>(ops: seq<StoreOp<T>>, size: nat): seq<Flow<T>> {
    if ops == [] then []
    else
      var held := Stored(Front(ops), size);
      match Last(ops)
      case Put(f) => Upserted(held, f, size)
      case Drop(which) => Filter(held, which, false)
  }

  /** Flows that are not held when they are stored are newer than all that are. */
  ghost predicate InOrder<T>(ops: seq<StoreOp<T>>, size: nat) {
    ops == [] || (InOrder(Front(ops), size) && (Last(ops).Put? ==> Newer(Stored(Front(ops), size), Last(ops).f)))
  }

  ghost predicate Newer<T>(held: seq<Flow<T>>, f: Flow<T>) {
    0 < f.id && ValidId(f.id) && (Find(held, f.id).None? ==> forall i :: 0 <= i < |held| ==> held[i].id < f.id)
  }

  lemma {:induction false} StoredRises<T>(ops: seq<StoreOp<T>>, size: nat)
    requires InOrder(ops, size)
    ensures Rising(Stored(ops, size))
  {
    if ops != [] {
      StoredRises(Front(ops), size);
      var held := Stored(Front(ops), size);
      match Last(ops)
      case Put(f) => UpsertKeepsRising(held, f, size);
      case Drop(which) => DeleteKeepsRising(held, which, false);
    }
  }

  lemma {:induction false} NewestMatches<T>(held: seq<Flow<T>>, match_: Flow<T> -> bool)
    ensures Rest(Newest(held), match_, 0) == Newest(Filter(held, match_, true))
  {
    if held != [] {
      var f, rest := Last(held), Filter(Front(held), match_, true);
      NewestMatches(Front(held), match_);
      TailOfCons(f, Newest(Front(held)));
      FrontLastSnoc(rest, f);
      EmptyUnit(rest);
    }
  }

  lemma {:induction false} NewestHas<T>(held: seq<Flow<T>>)
    ensures forall f :: f in Newest(held) <==> f in held
  {
    if held != [] {
      NewestHas(Front(held));
      FrontLast(held);
    }
  }

  /** In a ring whose ids rise, following the cursors lists every match once. */
  lemma {:induction false} RingListing<T>(held: seq<Flow<T>>, match_: Flow<T> -> bool, limit: int)
    requires Rising(held)
    ensures Descending(Newest(held)) && Listing(Newest(held), match_, limit, "") == Newest(Filter(held, match_, true))
  {
    RisingDescends(held);
    ListingIsExact(Newest(held), match_, limit, "");
    NewestMatches(held, match_);
  }

  /** After any run that stores flows in order, replaces and deletes them, following the cursors of
      Query's pages lists exactly the flows held that match, each once, newest first. */
  lemma {:induction false} EveryMatchOnce<T>(ops: seq<StoreOp<T>>, size: nat, match_: Flow<T> -> bool, limit: int)
    requires InOrder(ops, size)
    ensures var held := Stored(ops, size);
            && DistinctIds(held) && Descending(Newest(held))
            && Listing(Newest(held), match_, limit, "") == Newest(Filter(held, match_, true))
            && Descending(Listing(Newest(held), match_, limit, ""))
            && forall f :: f in Listing(Newest(held), match_, limit, "") <==> f in held && match_(f)
  {
    var held := Stored(ops, size);
    StoredRises(ops, size);
    RingListing(held, match_, limit);
    DeleteKeepsRising(held, match_, true);
    RisingDescends(Filter(held, match_, true));
    FilterKeeps(held, match_, true);
    NewestHas(Filter(held, match_, true));
  }
}
