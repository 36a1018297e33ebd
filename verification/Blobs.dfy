/** The blob cache: a byte budget and a recency list. */
module Blobs {
  import opened Bytes
  import opened Options
  import opened Seqs

  const DEFAULT_BUDGET := 0x1000_0000

  /** A blob and its hash. */
  datatype Entry = Entry(hash: string, data: seq<byte>)

  // ---- Recency lists -----------------------------------------------------------------

  function Size(es: seq<Entry>): nat {
    if es == [] then 0 else Size(Front(es)) + |Last(es).data|
  }

  function Find(es: seq<Entry>, h: string): (r: Option<Entry>)
    ensures r.Some? ==> r.value.hash == h && r.value in es
  {
    if es == [] then None
    else if Last(es).hash == h then (assert es[|es| - 1] in es; Some(Last(es)))
    else Find(Front(es), h)
  }

  function Without(es: seq<Entry>, h: string): seq<Entry> {
    if es == [] then [] else Without(Front(es), h) + if Last(es).hash == h then [] else [Last(es)]
  }

  predicate DistinctHashes(es: seq<Entry>) {
    es == [] || (DistinctHashes(Front(es)) && Find(Front(es), Last(es).hash).None?)
  }

  /** Blobs from the least recently used end dropped until the budget is met, but one kept. */
  function Fit(es: seq<Entry>, budget: int): seq<Entry> {
    if Size(es) > budget && |es| > 1 then Fit(Front(es), budget) else es
  }

  /** The list after Put: a known blob moves to the front, a new one is added there. */
  function Put(es: seq<Entry>, e: Entry, budget: int): seq<Entry> {
    match Find(es, e.hash)
    case Some(known) => [known] + Without(es, e.hash)
    case None => Fit([e] + es, budget)
  }

  function Touched(es: seq<Entry>, h: string): seq<Entry> {
    match Find(es, h)
    case Some(e) => [e] + Without(es, h)
    case None => es
  }

  // ---- Facts about them --------------------------------------------------------------

  lemma {:induction false} SizeConcat(x: seq<Entry>, y: seq<Entry>)
    ensures Size(x + y) == Size(x) + Size(y)
    decreases |y|
  {
    if y == [] {
      EmptyUnit(x);
    } else {
      FrontLastConcat(x, y);
      SizeConcat(x, Front(y));
    }
  }

  lemma {:induction false} SizeOne(e: Entry)
    ensures Size([e]) == |e.data|
  {
    assert Front([e]) == [];
  }

  lemma {:induction false} FindConcat(x: seq<Entry>, y: seq<Entry>, h: string)
    ensures Find(x + y, h) == if Find(y, h).Some? then Find(y, h) else Find(x, h)
    decreases |y|
  {
    if y == [] {
      EmptyUnit(x);
    } else {
      FrontLastConcat(x, y);
      FindConcat(x, Front(y), h);
    }
  }

  lemma {:induction false} FindOne(e: Entry, h: string)
    ensures Find([e], h) == if e.hash == h then Some(e) else None
  {
    assert Front([e]) == [];
  }

  lemma {:induction false} FindWithout(es: seq<Entry>, h: string, g: string)
    ensures Find(Without(es, h), g) == if g == h then None else Find(es, g)
  {
    if es != [] {
      FindWithout(Front(es), h, g);
      EmptyUnit(Without(Front(es), h));
      FrontLastSnoc(Without(Front(es), h), Last(es));
    }
  }

  lemma {:induction false} WithoutDistinct(es: seq<Entry>, h: string)
    requires DistinctHashes(es)
    ensures DistinctHashes(Without(es, h))
  {
    if es != [] {
      WithoutDistinct(Front(es), h);
      EmptyUnit(Without(Front(es), h));
      FrontLastSnoc(Without(Front(es), h), Last(es));
      FindWithout(Front(es), h, Last(es).hash);
    }
  }

  lemma {:induction false} NothingWithout(es: seq<Entry>, h: string)
    requires Find(es, h).None?
    ensures Without(es, h) == es
  {
    if es != [] {
      NothingWithout(Front(es), h);
      FrontLast(es);
    }
  }

  /** Moving to the front changes no size. */
  lemma {:induction false} WithoutSize(es: seq<Entry>, h: string)
    requires DistinctHashes(es)
    ensures Size(Without(es, h)) == Size(es) - if Find(es, h).Some? then |Find(es, h).value.data| else 0
    ensures |Without(es, h)| == |es| - if Find(es, h).Some? then 1 else 0
  {
    if es != [] {
      WithoutSize(Front(es), h);
      EmptyUnit(Without(Front(es), h));
      FrontLastSnoc(Without(Front(es), h), Last(es));
      if Last(es).hash == h {
        NothingWithout(Front(es), h);
      }
    }
  }

  lemma {:induction false} ConsDistinct(e: Entry, es: seq<Entry>)
    requires DistinctHashes(es) && Find(es, e.hash).None?
    ensures DistinctHashes([e] + es)
  {
    if es == [] {
      EmptyUnit([e]);
      assert Front([e]) == [];
    } else {
      FrontLastConcat([e], es);
      ConsDistinct(e, Front(es));
      FindConcat([e], Front(es), Last(es).hash);
      FindOne(e, Last(es).hash);
    }
  }

  // ---- What Fit keeps ----------------------------------------------------------------

  /** Exactly the longest prefix that fits, and never fewer than the first. */
  lemma {:induction false} FitIsLongestPrefix(es: seq<Entry>, budget: int, k: nat)
    requires es != []
    ensures var r := Fit(es, budget);
            && r != [] && r <= es && (Size(r) <= budget || |r| == 1)
            && (|r| < k <= |es| ==> Size(es[..k]) > budget)
  {
    if Size(es) > budget && |es| > 1 {
      FitIsLongestPrefix(Front(es), budget, k);
      if k == |es| {
        TakeAll(es);
      } else if k < |es| {
        FrontTake(es, k);
      }
    }
  }

  // ---- Recency -----------------------------------------------------------------------

  function Hashes(es: seq<Entry>): seq<string> {
    if es == [] then [] else Hashes(Front(es)) + [Last(es).hash]
  }

  function Others(hs: seq<string>, h: string): seq<string> {
    if hs == [] then [] else Others(Front(hs), h) + if Last(hs) == h then [] else [Last(hs)]
  }

  /** The hashes used, the most recent first, each once. */
  function Recent(uses: seq<string>): seq<string> {
    if uses == [] then [] else [Last(uses)] + Others(Recent(Front(uses)), Last(uses))
  }

  lemma {:induction false} HashesConcat(x: seq<Entry>, y: seq<Entry>)
    ensures Hashes(x + y) == Hashes(x) + Hashes(y)
    decreases |y|
  {
    if y == [] {
      EmptyUnit(x);
      EmptyUnit(Hashes(x));
    } else {
      FrontLastConcat(x, y);
      HashesConcat(x, Front(y));
      Assoc(Hashes(x), Hashes(Front(y)), [Last(y).hash]);
    }
  }

  lemma {:induction false} HashesOne(e: Entry)
    ensures Hashes([e]) == [e.hash]
  {
    assert Front([e]) == [];
    EmptyUnit([e.hash]);
  }

  lemma {:induction false} HashesWithout(es: seq<Entry>, h: string)
    ensures Hashes(Without(es, h)) == Others(Hashes(es), h)
  {
    if es != [] {
      HashesWithout(Front(es), h);
      FrontLastSnoc(Hashes(Front(es)), Last(es).hash);
      EmptyUnit(Without(Front(es), h));
      FrontLastSnoc(Without(Front(es), h), Last(es));
      EmptyUnit(Others(Hashes(Front(es)), h));
    }
  }

  lemma {:induction false} OthersConcat(x: seq<string>, y: seq<string>, h: string)
    ensures Others(x + y, h) == Others(x, h) + Others(y, h)
    decreases |y|
  {
    if y == [] {
      EmptyUnit(x);
      EmptyUnit(Others(x, h));
    } else {
      FrontLastConcat(x, y);
      OthersConcat(x, Front(y), h);
      EmptyUnit(Others(Front(y), h));
      EmptyUnit(Others(x, h) + Others(Front(y), h));
      Assoc(Others(x, h), Others(Front(y), h), [Last(y)]);
    }
  }

  /** Using h keeps what is held a prefix of what was used most recently. */
  lemma {:induction false} UseKeepsPrefix(x: seq<string>, uses: seq<string>, h: string)
    requires x <= Recent(uses)
    ensures [h] + Others(x, h) <= Recent(uses + [h])
  {
    var r := Recent(uses);
    FrontLastSnoc(uses, h);
    TakePrefix(x, r);
    OthersConcat(x, r[|x|..], h);
    Assoc([h], Others(x, h), Others(r[|x|..], h));
  }

  lemma {:induction false} PrefixOfPrefix(x: seq<string>, y: seq<string>, z: seq<string>)
    requires x <= y && y <= z
    ensures x <= z
  {
  }

  lemma {:induction false} HashesPrefix(es: seq<Entry>, k: nat)
    requires k <= |es|
    ensures Hashes(es[..k]) <= Hashes(es)
  {
    if k == |es| {
      TakeAll(es);
    } else {
      FrontTake(es, k);
      HashesPrefix(Front(es), k);
    }
  }
}
