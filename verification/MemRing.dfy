/** The flow ring: a fixed array written round and round, with an index by id. It refines a
    bounded sequence of flows, oldest first. */
module MemRing {
  import opened Options
  import opened Seqs

  /** A snapshot of a flow. */
  datatype Flow<T> = Flow(id: nat, data: T)

  const DEFAULT_SIZE := 10000

  // ---- The sequence it refines -------------------------------------------------------

  predicate DistinctIds<T>(held: seq<Flow<T>>) {
    forall i, j :: 0 <= i < j < |held| ==> held[i].id != held[j].id
  }

  /** Where id is held. */
  function Find<T>(held: seq<Flow<T>>, id: nat): (r: Option<nat>)
    ensures r.Some? ==> r.value < |held| && held[r.value].id == id
  {
    if held == [] then None
    else if Last(held).id == id then Some(|held| - 1)
    else Find(Front(held), id)
  }

  /** A known id is replaced where it stands; a new one is added, and when the ring is full the
      oldest flow makes room. */
  function Upserted<T>(held: seq<Flow<T>>, f: Flow<T>, size: nat): seq<Flow<T>> {
    var at := Find(held, f.id);
    if at.Some? then held[at.value := f]
    else if 0 < size == |held| then held[1..] + [f]
    else held + [f]
  }

  /** The flows an Upsert evicts. */
  function Displaced<T>(held: seq<Flow<T>>, f: Flow<T>, size: nat): seq<Flow<T>> {
    if Find(held, f.id).None? && 0 < size == |held| then [held[0]] else []
  }

  /** The flows that match, or those that do not. */
  function Filter<T>(held: seq<Flow<T>>, match_: Flow<T> -> bool, want: bool): seq<Flow<T>> {
    if held == [] then []
    else Filter(Front(held), match_, want) + if match_(Last(held)) == want then [Last(held)] else []
  }

  /** Newest first, up to the first flow that stop holds of. */
  function Visited<T>(held: seq<Flow<T>>, more: Flow<T> -> bool): seq<Flow<T>> {
    if held == [] then []
    else [Last(held)] + if more(Last(held)) then Visited(Front(held), more) else []
  }

  lemma {:induction false} FindNone<T>(held: seq<Flow<T>>, id: nat)
    ensures Find(held, id).None? <==> forall i :: 0 <= i < |held| ==> held[i].id != id
  {
    if held != [] {
      FindNone(Front(held), id);
    }
  }

  lemma {:induction false} FindAt<T>(held: seq<Flow<T>>, i: nat)
    requires i < |held| && DistinctIds(held)
    ensures Find(held, held[i].id) == Some(i)
  {
    if i < |held| - 1 {
      FindAt(Front(held), i);
    }
  }

  lemma {:induction false} FilterMore<T>(held: seq<Flow<T>>, k: nat, match_: Flow<T> -> bool, want: bool)
    requires k < |held|
    ensures Filter(held[..k + 1], match_, want)
         == if match_(held[k]) == want then Filter(held[..k], match_, want) + [held[k]]
            else Filter(held[..k], match_, want)
  {
    TakeSnoc(held, k);
    FrontLastSnoc(held[..k], held[k]);
    EmptyUnit(Filter(held[..k], match_, want));
  }

  lemma {:induction false} FilterLength<T>(held: seq<Flow<T>>, match_: Flow<T> -> bool)
    ensures |Filter(held, match_, true)| + |Filter(held, match_, false)| == |held|
    ensures Filter(held, match_, true) == [] ==> Filter(held, match_, false) == held
  {
    if held != [] {
      FilterLength(Front(held), match_);
      FrontLast(held);
    }
  }

  lemma {:induction false} FilterHas<T>(held: seq<Flow<T>>, match_: Flow<T> -> bool, want: bool)
    ensures forall i :: 0 <= i < |Filter(held, match_, want)| ==> Filter(held, match_, want)[i] in held
  {
    if held != [] {
      FilterHas(Front(held), match_, want);
      assert forall f :: f in Front(held) ==> f in held;
      assert held[|held| - 1] in held;
    }
  }

  lemma {:induction false} FilterKeeps<T>(held: seq<Flow<T>>, match_: Flow<T> -> bool, want: bool)
    ensures forall f :: f in Filter(held, match_, want) <==> f in held && match_(f) == want
  {
    if held != [] {
      FilterKeeps(Front(held), match_, want);
      FrontLast(held);
    }
  }

  /** Each flow in turn from the newest on, up to the first that the visitor does not go on from. */
  ghost predicate VisitedInTurn<T>(held: seq<Flow<T>>, more: Flow<T> -> bool, visited: seq<Flow<T>>) {
    && |visited| <= |held|
    && (forall k :: 0 <= k < |visited| ==> visited[k] == held[|held| - 1 - k])
    && (forall k :: 0 <= k < |visited| - 1 ==> more(visited[k]))
    && (|visited| < |held| ==> visited != [] && !more(Last(visited)))
  }

  lemma {:induction false} VisitsInTurn<T>(held: seq<Flow<T>>, more: Flow<T> -> bool)
    ensures VisitedInTurn(held, more, Visited(held, more))
  {
    if held != [] {
      VisitsInTurn(Front(held), more);
    }
  }

  /** A new flow: what is displaced and what is held are together what was held and the new
      one, in order; and as many are held as there is room for. */
  lemma {:induction false} UpsertedNew<T>(held: seq<Flow<T>>, f: Flow<T>, size: nat)
    requires 0 < size && |held| <= size && forall k :: 0 <= k < |held| ==> held[k].id != f.id
    ensures Displaced(held, f, size) + Upserted(held, f, size) == held + [f]
    ensures |Upserted(held, f, size)| == if |held| < size then |held| + 1 else size
  {
    FindNone(held, f.id);
  }

  /** A known flow: the new snapshot stands where the old one stood, and nothing else changes. */
  lemma {:induction false} UpsertedKnown<T>(held: seq<Flow<T>>, f: Flow<T>, size: nat, k: nat)
    requires DistinctIds(held) && k < |held| && held[k].id == f.id
    ensures Upserted(held, f, size) == held[k := f] && Displaced(held, f, size) == []
  {
    FindAt(held, k);
  }

  lemma {:induction false} FilterDistinct<T>(held: seq<Flow<T>>, match_: Flow<T> -> bool, want: bool)
    requires DistinctIds(held)
    ensures DistinctIds(Filter(held, match_, want))
  {
    if held != [] {
      FilterDistinct(Front(held), match_, want);
      FilterHas(Front(held), match_, want);
    }
  }

  // ---- Slots -------------------------------------------------------------------------

  /** The slot of the oldest of count flows, when head is to be written next. */
  function Base(head: nat, count: nat, n: nat): (b: nat)
    requires head < n && count <= n
    ensures b < n
  {
    if head >= count then head - count else head + n - count
  }

  /** The place in line of the flow in slot s. */
  function Age(base: nat, n: nat, s: nat): (i: nat)
    requires base < n && s < n
    ensures i < n
  {
    if s >= base then s - base else s + n - base
  }

  function Slot(base: nat, n: nat, i: nat): (s: nat)
    requires base < n && i < n
    ensures s < n && Age(base, n, s) == i
  {
    if base + i < n then base + i else base + i - n
  }

  /** Every slot holds the flow whose turn it is, or nothing. */
  ghost predicate Laid<T>(slots: seq<Option<Flow<T>>>, base: nat, held: seq<Flow<T>>) {
    && base < |slots| && |held| <= |slots|
    && forall s :: 0 <= s < |slots| ==>
         slots[s] == if Age(base, |slots|, s) < |held| then Some(held[Age(base, |slots|, s)]) else None
  }

  /** The index is the exact inverse of the occupied slots. */
  ghost predicate Inverse<T>(slots: seq<Option<Flow<T>>>, byId: map<nat, nat>) {
    && (forall s :: 0 <= s < |slots| && slots[s].Some? ==> slots[s].value.id in byId && byId[slots[s].value.id] == s)
    && (forall id :: id in byId ==>
          byId[id] < |slots| && slots[byId[id]].Some? && slots[byId[id]].value.id == id)
  }

  lemma {:induction false} LaidAt<T>(slots: seq<Option<Flow<T>>>, base: nat, held: seq<Flow<T>>, i: nat)
    requires Laid(slots, base, held) && i < |held|
    ensures slots[Slot(base, |slots|, i)] == Some(held[i])
  {
  }

  lemma {:induction false} LaidDistinct<T>(slots: seq<Option<Flow<T>>>, base: nat, held: seq<Flow<T>>,
        byId: map<nat, nat>)
    requires Laid(slots, base, held) && Inverse(slots, byId)
    ensures DistinctIds(held)
  {
    forall i, j | 0 <= i < j < |held|
      ensures held[i].id != held[j].id
    {
      LaidAt(slots, base, held, i);
      LaidAt(slots, base, held, j);
    }
  }

  /** The index finds what the sequence holds. */
  lemma {:induction false} IndexFinds<T>(slots: seq<Option<Flow<T>>>, base: nat, held: seq<Flow<T>>,
        byId: map<nat, nat>, id: nat)
    requires Laid(slots, base, held) && Inverse(slots, byId)
    ensures id in byId <==> Find(held, id).Some?
    ensures id in byId ==> byId[id] < |slots| && Find(held, id) == Some(Age(base, |slots|, byId[id]))
  {
    LaidDistinct(slots, base, held, byId);
    FindNone(held, id);
    if id in byId {
      FindAt(held, Age(base, |slots|, byId[id]));
    }
    if Find(held, id).Some? {
      LaidAt(slots, base, held, Find(held, id).value);
    }
  }

  lemma {:induction false} Replace<T>(slots: seq<Option<Flow<T>>>, base: nat, held: seq<Flow<T>>,
        byId: map<nat, nat>, f: Flow<T>)
    requires Laid(slots, base, held) && Inverse(slots, byId) && f.id in byId
    ensures byId[f.id] < |slots|
    ensures var s := byId[f.id];
            Laid(slots[s := Some(f)], base, held[Age(base, |slots|, s) := f]) && Inverse(slots[s := Some(f)], byId)
  {
  }

  lemma {:induction false} AddLaid<T>(slots: seq<Option<Flow<T>>>, base: nat, held: seq<Flow<T>>, f: Flow<T>, s: nat)
    requires Laid(slots, base, held) && |held| < |slots| && s == Slot(base, |slots|, |held|)
    ensures Laid(slots[s := Some(f)], base, held + [f])
  {
    forall t | 0 <= t < |slots| && t != s
      ensures Age(base, |slots|, t) != |held|
    {
    }
  }

  lemma {:induction false} AddInverse<T>(slots: seq<Option<Flow<T>>>, byId: map<nat, nat>, f: Flow<T>, s: nat)
    requires Inverse(slots, byId) && f.id !in byId && s < |slots| && slots[s].None?
    ensures Inverse(slots[s := Some(f)], byId[f.id := s])
  {
  }

  /** The oldest flow leaves its slot. */
  lemma {:induction false} DropLaid<T>(slots: seq<Option<Flow<T>>>, base: nat, held: seq<Flow<T>>, next: nat)
    requires Laid(slots, base, held) && held != [] && next == if base + 1 == |slots| then 0 else base + 1
    ensures slots[base] == Some(held[0]) && Laid(slots[base := None], next, held[1..])
  {
    forall t | 0 <= t < |slots| && t != base
      ensures Age(base, |slots|, t) == Age(next, |slots|, t) + 1
    {
    }
    assert Age(next, |slots|, base) == |slots| - 1;
  }

  lemma {:induction false} DropInverse<T>(slots: seq<Option<Flow<T>>>, byId: map<nat, nat>, s: nat)
    requires Inverse(slots, byId) && s < |slots| && slots[s].Some?
    ensures Inverse(slots[s := None], byId - {slots[s].value.id})
  {
  }

  /** A full ring: the oldest makes room for the newest in the same slot. */
  lemma {:induction false} TurnOver<T>(slots: seq<Option<Flow<T>>>, base: nat, held: seq<Flow<T>>,
        byId: map<nat, nat>, f: Flow<T>, next: nat)
    requires Laid(slots, base, held) && Inverse(slots, byId) && f.id !in byId && |held| == |slots|
    requires next == if base + 1 == |slots| then 0 else base + 1
    ensures slots[base] == Some(held[0])
    ensures Laid(slots[base := Some(f)], next, held[1..] + [f])
    ensures Inverse(slots[base := Some(f)], (byId - {held[0].id})[f.id := base])
  {
    DropLaid(slots, base, held, next);
    DropInverse(slots, byId, base);
    var empty := slots[base := None];
    assert empty[base := Some(f)] == slots[base := Some(f)];
    assert Slot(next, |slots|, |held| - 1) == base;
    AddLaid(empty, next, held[1..], f, base);
    AddInverse(empty, byId - {held[0].id}, f, base);
  }
}
