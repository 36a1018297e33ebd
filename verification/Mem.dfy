/** The in-memory flow store. */
module Mem {
  import opened MemRing
  import opened Options
  import opened Seqs

  /** Go's remainder takes the sign of the dividend. */
  function GoRem(a: int, b: int): int
    requires b > 0
  {
    if a >= 0 then a % b else -(-a % b)
  }

  /** The slot i places before the next write. */
  function Back(head: nat, i: nat, n: nat): int
    requires 0 < n
  {
    (GoRem(head - i, n) + n) % n
  }

  lemma {:induction false} BackIsSlot(head: nat, count: nat, n: nat, i: nat)
    requires head < n && 1 <= i <= count <= n
    ensures Back(head, i, n) == Slot(Base(head, count, n), n, count - i)
  {
    var a: int := head - i;
    if a >= 0 {
      Small(a, n);
    } else if a + n > 0 {
      Small(-a, n);
      Small(n + a, n);
    } else {
      Itself(n);
    }
  }

  lemma {:induction false} Small(a: int, n: int)
    requires 0 <= a < n
    ensures a % n == a && (a + n) % n == a
  {
    var q := (a + n) / n;
    assert a + n == q * n + (a + n) % n;
    if q >= 2 {
      AtLeast(q, 2, n);
    } else if q <= 0 {
      AtLeast(0, q, n);
    }
  }

  lemma {:induction false} AtLeast(x: int, y: int, n: int)
    requires x >= y && n > 0
    ensures x * n >= y * n
  {
  }

  lemma {:induction false} Itself(n: int)
    requires n > 0
    ensures n % n == 0 && 0 % n == 0
  {
    Small(0, n);
  }

  lemma {:induction false} Wraps(head: int, n: int)
    requires 0 <= head < n
    ensures (head + 1) % n == if head + 1 == n then 0 else head + 1
  {
    if head + 1 == n { Itself(n); } else { Small(head + 1, n); }
  }

  function Next(head: nat, n: nat): (r: nat)
    requires head < n
    ensures r < n
  {
    if head + 1 == n then 0 else head + 1
  }

  /** What writing a new flow at the head leaves. */
  lemma {:induction false} Inserted<T>(slots: seq<Option<Flow<T>>>, head: nat, held: seq<Flow<T>>,
        byId: map<nat, nat>, f: Flow<T>)
    requires head < |slots| && |held| < |slots| && f.id !in byId
    requires Laid(slots, Base(head, |held|, |slots|), held) && Inverse(slots, byId)
    ensures Laid(slots[head := Some(f)], Base(Next(head, |slots|), |held| + 1, |slots|), held + [f])
    ensures Inverse(slots[head := Some(f)], byId[f.id := head])
  {
    var base := Base(head, |held|, |slots|);
    assert head == Slot(base, |slots|, |held|) && Base(Next(head, |slots|), |held| + 1, |slots|) == base;
    AddLaid(slots, base, held, f, head);
    AddInverse(slots, byId, f, head);
  }

  lemma {:induction false} InsertedFull<T>(slots: seq<Option<Flow<T>>>, head: nat, held: seq<Flow<T>>,
        byId: map<nat, nat>, f: Flow<T>)
    requires head < |slots| == |held| && f.id !in byId
    requires Laid(slots, Base(head, |held|, |slots|), held) && Inverse(slots, byId)
    ensures slots[head] == Some(held[0])
    ensures Laid(slots[head := Some(f)], Base(Next(head, |slots|), |held|, |slots|), held[1..] + [f])
    ensures Inverse(slots[head := Some(f)], (byId - {held[0].id})[f.id := head])
  {
    assert Base(head, |held|, |slots|) == head;
    assert Base(Next(head, |slots|), |held|, |slots|) == Next(head, |slots|);
    TurnOver(slots, head, held, byId, f, Next(head, |slots|));
  }

  class Mem<T(0)> {
    const ring: array<Option<Flow<T>>>
    var head: nat
    var count: nat
    var byId: map<nat, nat>
    var total: nat
    /** The flows OnEvict was called for, in order. */
    var evicted: seq<Flow<T>>
    /** The flows held, oldest first. */
    ghost var held: seq<Flow<T>>

    ghost predicate Valid() reads this, ring {
      && 0 < ring.Length && head < ring.Length && count == |held| <= ring.Length
      && Laid(ring[..], Base(head, count, ring.Length), held) && Inverse(ring[..], byId)
      && total == |held| + |evicted|
    }

    constructor (size: int)
      ensures Valid() && held == [] && evicted == [] && total == 0 && fresh(ring)
      ensures ring.Length == if size <= 0 then 10000 else size
    {
      var n := if size <= 0 then DEFAULT_SIZE else size;
      ring := new Option<Flow<T>>[n](_ => None);
      head, count, byId, total, evicted, held := 0, 0, map[], 0, [], [];
    }

    /** Ids are held once each. */
    lemma {:induction false} IdsDistinct()
      requires Valid()
      ensures DistinctIds(held)
    {
      LaidDistinct(ring[..], Base(head, count, ring.Length), held, byId);
    }

    /** Puts in a flow: over the one with its id, or as the newest. */
    method Upsert(f: Flow<T>)
      requires Valid()
      modifies this, ring
      ensures Valid() && held == Upserted(old(held), f, ring.Length)
      ensures evicted == old(evicted) + Displaced(old(held), f, ring.Length)
    {
      ghost var base := Base(head, count, ring.Length);
      IndexFinds(ring[..], base, held, byId, f.id);
      EmptyUnit(evicted);
      if f.id in byId {
        Replace(ring[..], base, held, byId, f);
        held := held[Age(base, ring.Length, byId[f.id]) := f];
        ring[byId[f.id]] := Some(f);
      } else {
        Insert(f);
      }
    }

    method Advance()
      requires head < ring.Length
      modifies `head
      ensures head == Next(old(head), ring.Length)
    {
      Wraps(head, ring.Length);
      head := (head + 1) % ring.Length;
    }

    method Insert(f: Flow<T>)
      requires Valid() && f.id !in byId
      modifies this, ring
      ensures Valid() && held == if |old(held)| == ring.Length then old(held)[1..] + [f] else old(held) + [f]
      ensures evicted == old(evicted) + if |old(held)| == ring.Length then [old(held)[0]] else []
    {
      EmptyUnit(evicted);
      ghost var before := ring[..];
      var out := None;
      if count == ring.Length {
        InsertedFull(ring[..], head, held, byId, f);
        out := ring[head];
        byId := byId - {out.value.id};
        held := held[1..] + [f];
      } else {
        Inserted(ring[..], head, held, byId, f);
        count := count + 1;
        held := held + [f];
      }
      ring[head] := Some(f);
      assert ring[..] == before[head := Some(f)];
      byId := byId[f.id := head];
      Advance();
      total := total + 1;
      if out.Some? {
        evicted := evicted + [out.value];
      }
    }

    method Get(id: nat) returns (r: Option<Flow<T>>)
      requires Valid()
      ensures r == match Find(held, id)
                   case None => None
                   case Some(i) => Some(held[i])
      ensures if r.Some? then r.value in held && r.value.id == id else forall f :: f in held ==> f.id != id
    {
      FindNone(held, id);
      IndexFinds(ring[..], Base(head, count, ring.Length), held, byId, id);
      if id in byId {
        LaidAt(ring[..], Base(head, count, ring.Length), held, Find(held, id).value);
        return ring[byId[id]];
      }
      return None;
    }

    /** The flow i places before the next write. */
    method Before(i: nat) returns (f: Option<Flow<T>>)
      requires Valid() && 1 <= i <= count
      ensures f == Some(held[count - i])
    {
      BackIsSlot(head, count, ring.Length, i);
      LaidAt(ring[..], Base(head, count, ring.Length), held, count - i);
      f := ring[Back(head, i, ring.Length)];
    }

    /** Calls fn on one flow after another, beginning with the newest, as long as fn says so. */
    method Each(fn: Flow<T> -> bool) returns (visited: seq<Flow<T>>)
      requires Valid()
      ensures visited == Visited(held, fn) && VisitedInTurn(held, fn, visited)
    {
      visited := [];
      VisitsInTurn(held, fn);
      TakeAll(held);
      var i := 1;
      while i <= count
        invariant 1 <= i <= count + 1
        invariant Visited(held, fn) == visited + Visited(held[..count - (i - 1)], fn)
      {
        var f := Before(i);
        FrontOfTake(held, count - (i - 1));
        Assoc(visited, [f.value], if fn(f.value) then Visited(held[..count - i], fn) else []);
        visited := visited + [f.value];
        if !fn(f.value) {
          EmptyUnit(visited);
          return;
        }
        i := i + 1;
      }
      EmptyUnit(visited);
    }

    /** Removes every flow that matches and returns how many there were. */
    method Delete(match_: Flow<T> -> bool) returns (removed: nat)
      requires Valid()
      modifies this, ring
      ensures Valid() && removed == |Filter(old(held), match_, true)|
      ensures held == Filter(old(held), match_, false)
      ensures evicted == old(evicted) + Filter(old(held), match_, true)
      ensures forall f :: f in held <==> f in old(held) && !match_(f)
      ensures removed + |held| == |old(held)|
    {
      var keep, gone := Partition(match_);
      FilterKeeps(held, match_, false);
      FilterLength(held, match_);
      EmptyUnit(evicted);
      if |gone| > 0 {
        IdsDistinct();
        FilterDistinct(held, match_, false);
        Refill(keep);
        evicted := evicted + gone;
      }
      return |gone|;
    }

    method Partition(match_: Flow<T> -> bool) returns (keep: seq<Flow<T>>, gone: seq<Flow<T>>)
      requires Valid()
      ensures keep == Filter(held, match_, false) && gone == Filter(held, match_, true)
    {
      keep, gone := [], [];
      TakeAll(held);
      var i := count;
      while i >= 1
        invariant 0 <= i <= count
        invariant keep == Filter(held[..count - i], match_, false) && gone == Filter(held[..count - i], match_, true)
      {
        var f := Before(i);
        FilterMore(held, count - i, match_, false);
        FilterMore(held, count - i, match_, true);
        if match_(f.value) {
          gone := gone + [f.value];
        } else {
          keep := keep + [f.value];
        }
        i := i - 1;
      }
    }

    method Empty()
      requires 0 < ring.Length
      modifies `head, `count, `byId, `held, ring
      ensures head == 0 && count == 0 && held == [] && byId == map[]
      ensures Laid(ring[..], 0, held) && Inverse(ring[..], byId)
    {
      for i := 0 to ring.Length
        invariant forall k :: 0 <= k < i ==> ring[k] == None
      {
        ring[i] := None;
      }
      byId, head, count, held := map[], 0, 0, [];
    }

    /** The ring with the given flows only, written from the first slot on. */
    method Refill(keep: seq<Flow<T>>)
      requires 0 < ring.Length && |keep| <= ring.Length && DistinctIds(keep)
      modifies `head, `count, `byId, `held, ring
      ensures held == keep && head < ring.Length && count == |held|
      ensures Laid(ring[..], Base(head, count, ring.Length), held) && Inverse(ring[..], byId)
    {
      Empty();
      TakeAll(keep);
      for k := 0 to |keep|
        invariant held == keep[..k] && head < ring.Length && count == k
        invariant Laid(ring[..], Base(head, count, ring.Length), held) && Inverse(ring[..], byId)
      {
        TakeSnoc(keep, k);
        Place(keep[k]);
      }
    }

    method Place(f: Flow<T>)
      requires head < ring.Length && count == |held| < ring.Length
      requires forall i :: 0 <= i < |held| ==> held[i].id != f.id
      requires Laid(ring[..], Base(head, count, ring.Length), held) && Inverse(ring[..], byId)
      modifies `head, `count, `byId, `held, ring
      ensures held == old(held) + [f] && head < ring.Length && count == |held|
      ensures Laid(ring[..], Base(head, count, ring.Length), held) && Inverse(ring[..], byId)
    {
      IndexFinds(ring[..], Base(head, count, ring.Length), held, byId, f.id);
      Inserted(ring[..], head, held, byId, f);
      ghost var before := ring[..];
      ring[head] := Some(f);
      assert ring[..] == before[head := Some(f)];
      byId := byId[f.id := head];
      Advance();
      count := count + 1;
      held := held + [f];
    }
  }
}
