/** The in-memory blob store over its list and index. */
module MemBlobs {
  import opened Blobs
  import opened Bytes
  import opened Options
  import opened Seqs

  /** An element of the list. */
  class Element {
    const hash: string
    const data: seq<byte>

    constructor (hash: string, data: seq<byte>)
      ensures this.hash == hash && this.data == data
    {
      this.hash, this.data := hash, data;
    }
  }

  function EntryOf(el: Element): Entry {
    Entry(el.hash, el.data)
  }

  function Entries(lru: seq<Element>): (es: seq<Entry>)
    ensures |es| == |lru|
  {
    if lru == [] then [] else Entries(Front(lru)) + [EntryOf(Last(lru))]
  }

  function Removed(lru: seq<Element>, el: Element): seq<Element> {
    if lru == [] then [] else Removed(Front(lru), el) + if Last(lru) == el then [] else [Last(lru)]
  }

  function FindElement(lru: seq<Element>, h: string): Option<Element> {
    if lru == [] then None else if Last(lru).hash == h then Some(Last(lru)) else FindElement(Front(lru), h)
  }

  /** The index leads from h to its element, if there is one. */
  predicate IndexedAt(lru: seq<Element>, index: map<string, Element>, h: string) {
    match FindElement(lru, h)
    case None => h !in index
    case Some(el) => h in index && index[h] == el
  }

  ghost predicate Indexed(lru: seq<Element>, index: map<string, Element>) {
    forall h :: IndexedAt(lru, index, h)
  }

  predicate Hashed(lru: seq<Element>, hasher: seq<byte> -> string) {
    lru == [] || (Hashed(Front(lru), hasher) && Last(lru).hash == hasher(Last(lru).data))
  }

  lemma {:induction false} EntriesConcat(x: seq<Element>, y: seq<Element>)
    ensures Entries(x + y) == Entries(x) + Entries(y)
    decreases |y|
  {
    if y == [] {
      EmptyUnit(x);
      EmptyUnit(Entries(x));
    } else {
      FrontLastConcat(x, y);
      EntriesConcat(x, Front(y));
      Assoc(Entries(x), Entries(Front(y)), [EntryOf(Last(y))]);
    }
  }

  lemma {:induction false} EntriesOne(el: Element)
    ensures Entries([el]) == [EntryOf(el)]
  {
    assert Front([el]) == [];
    EmptyUnit([EntryOf(el)]);
  }

  lemma {:induction false} FindSnoc(es: seq<Entry>, e: Entry, h: string)
    ensures Find(es + [e], h) == if e.hash == h then Some(e) else Find(es, h)
  {
    FrontLastSnoc(es, e);
  }

  lemma {:induction false} FindsElement(lru: seq<Element>, h: string)
    ensures Find(Entries(lru), h)
         == if FindElement(lru, h).Some? then Some(EntryOf(FindElement(lru, h).value)) else None
  {
    if lru != [] {
      FindsElement(Front(lru), h);
      FindSnoc(Entries(Front(lru)), EntryOf(Last(lru)), h);
    }
  }

  /** Looking a hash up in the index is finding it in the list. */
  lemma {:induction false} IndexFinds(lru: seq<Element>, index: map<string, Element>, h: string)
    requires Indexed(lru, index)
    ensures h in index <==> FindElement(lru, h).Some?
    ensures h in index ==> FindElement(lru, h) == Some(index[h]) && index[h].hash == h
    ensures Find(Entries(lru), h) == if h in index then Some(EntryOf(index[h])) else None
  {
    assert IndexedAt(lru, index, h);
    FindsElement(lru, h);
    FoundHasHash(lru, h);
  }

  lemma {:induction false} FoundHasHash(lru: seq<Element>, h: string)
    ensures FindElement(lru, h).Some? ==> FindElement(lru, h).value.hash == h
  {
    if lru != [] { FoundHasHash(Front(lru), h); }
  }

  /** What is not there cannot be removed. */
  lemma {:induction false} NothingRemoved(lru: seq<Element>, el: Element)
    requires FindElement(lru, el.hash).None?
    ensures Removed(lru, el) == lru
  {
    if lru != [] {
      NothingRemoved(Front(lru), el);
      FrontLast(lru);
    }
  }

  lemma {:induction false} DistinctFront(lru: seq<Element>)
    requires lru != [] && DistinctHashes(Entries(lru))
    ensures DistinctHashes(Entries(Front(lru))) && FindElement(Front(lru), Last(lru).hash).None?
  {
    FrontLastSnoc(Entries(Front(lru)), EntryOf(Last(lru)));
    FindsElement(Front(lru), Last(lru).hash);
  }

  lemma {:induction false} RemovedIsWithout(lru: seq<Element>, el: Element)
    requires DistinctHashes(Entries(lru)) && FindElement(lru, el.hash) == Some(el)
    ensures Entries(Removed(lru, el)) == Without(Entries(lru), el.hash)
  {
    DistinctFront(lru);
    var f := Front(lru);
    FrontLastSnoc(Entries(f), EntryOf(Last(lru)));
    if Last(lru) == el {
      NothingRemoved(f, el);
      EmptyUnit(f);
      FindsElement(f, el.hash);
      NothingWithout(Entries(f), el.hash);
      EmptyUnit(Entries(f));
    } else {
      RemovedIsWithout(f, el);
      FrontLastSnoc(Removed(f, el), Last(lru));
    }
  }

  lemma {:induction false} FindInRemoved(lru: seq<Element>, el: Element, h: string)
    requires DistinctHashes(Entries(lru)) && FindElement(lru, el.hash) == Some(el)
    ensures FindElement(Removed(lru, el), h) == if h == el.hash then None else FindElement(lru, h)
  {
    DistinctFront(lru);
    var f := Front(lru);
    if Last(lru) == el {
      NothingRemoved(f, el);
      EmptyUnit(f);
    } else {
      FindInRemoved(f, el, h);
      FrontLastSnoc(Removed(f, el), Last(lru));
    }
  }

  lemma {:induction false} FindElementSnoc(lru: seq<Element>, el: Element, h: string)
    ensures FindElement(lru + [el], h) == if el.hash == h then Some(el) else FindElement(lru, h)
  {
    FrontLastSnoc(lru, el);
  }

  lemma {:induction false} FindInFront(el: Element, lru: seq<Element>, h: string)
    ensures FindElement([el] + lru, h)
         == if FindElement(lru, h).Some? then FindElement(lru, h) else if h == el.hash then Some(el) else None
  {
    if lru == [] {
      EmptyUnit([el]);
      FindElementSnoc([], el, h);
    } else {
      FindInFront(el, Front(lru), h);
      FrontLast(lru);
      SnocOfSnoc([el], Front(lru), Last(lru));
      FindElementSnoc([el] + Front(lru), Last(lru), h);
    }
  }

  /** The first element is found under its hash. */
  lemma {:induction false} FindsFirst(lru: seq<Element>)
    requires lru != [] && DistinctHashes(Entries(lru))
    ensures FindElement(lru, lru[0].hash) == Some(lru[0])
    ensures Find(Entries(lru), lru[0].hash) == Some(EntryOf(lru[0]))
  {
    if |lru| > 1 {
      DistinctFront(lru);
      FindsFirst(Front(lru));
    }
    FindsElement(lru, lru[0].hash);
  }

  lemma {:induction false} HashedSnoc(lru: seq<Element>, el: Element, hasher: seq<byte> -> string)
    ensures Hashed(lru + [el], hasher) <==> Hashed(lru, hasher) && el.hash == hasher(el.data)
  {
    FrontLastSnoc(lru, el);
  }

  lemma {:induction false} HashedConcat(el: Element, lru: seq<Element>, hasher: seq<byte> -> string)
    ensures Hashed([el] + lru, hasher) <==> el.hash == hasher(el.data) && Hashed(lru, hasher)
  {
    if lru == [] {
      EmptyUnit([el]);
      HashedSnoc([], el, hasher);
    } else {
      HashedConcat(el, Front(lru), hasher);
      FrontLast(lru);
      SnocOfSnoc([el], Front(lru), Last(lru));
      HashedSnoc([el] + Front(lru), Last(lru), hasher);
    }
  }

  lemma {:induction false} HashedRemoved(lru: seq<Element>, el: Element, hasher: seq<byte> -> string)
    requires Hashed(lru, hasher)
    ensures Hashed(Removed(lru, el), hasher)
    ensures FindElement(lru, el.hash) == Some(el) ==> el.hash == hasher(el.data)
  {
    if lru != [] {
      HashedRemoved(Front(lru), el, hasher);
      EmptyUnit(Removed(Front(lru), el));
      FrontLastSnoc(Removed(Front(lru), el), Last(lru));
    }
  }

  lemma {:induction false} HashedFound(lru: seq<Element>, h: string, hasher: seq<byte> -> string)
    requires Hashed(lru, hasher) && FindElement(lru, h).Some?
    ensures hasher(FindElement(lru, h).value.data) == h
  {
    if Last(lru).hash != h {
      HashedFound(Front(lru), h, hasher);
    }
  }

  /** What holds of the list: hashes once each, their sizes added up, within the budget unless
      a single blob is left, and the most recently used ones. */
  ghost predicate Kept(es: seq<Entry>, used: int, budget: int, uses: seq<string>) {
    && DistinctHashes(es) && used == Size(es) && (used <= budget || |es| <= 1)
    && Hashes(es) <= Recent(uses)
  }

  lemma {:induction false} TouchKeeps(es: seq<Entry>, used: int, budget: int, uses: seq<string>, h: string)
    requires Kept(es, used, budget, uses) && Find(es, h).Some?
    ensures Kept(Touched(es, h), used, budget, uses + [h])
  {
    var e, rest := Find(es, h).value, Without(es, h);
    WithoutDistinct(es, h);
    FindWithout(es, h, h);
    ConsDistinct(e, rest);
    WithoutSize(es, h);
    SizeConcat([e], rest);
    SizeOne(e);
    HashesConcat([e], rest);
    HashesOne(e);
    HashesWithout(es, h);
    UseKeepsPrefix(Hashes(es), uses, h);
  }

  /** Everything but the budget holds of the list with a new blob in front. */
  lemma {:induction false} PushKeeps(es: seq<Entry>, used: int, uses: seq<string>, e: Entry)
    requires DistinctHashes(es) && used == Size(es) && Hashes(es) <= Recent(uses) && Find(es, e.hash).None?
    ensures DistinctHashes([e] + es) && used + |e.data| == Size([e] + es)
    ensures Hashes([e] + es) <= Recent(uses + [e.hash])
  {
    ConsDistinct(e, es);
    SizeConcat([e], es);
    SizeOne(e);
    HashesConcat([e], es);
    HashesOne(e);
    NothingWithout(es, e.hash);
    HashesWithout(es, e.hash);
    UseKeepsPrefix(Hashes(es), uses, e.hash);
  }

  /** So it does of its prefixes. */
  lemma {:induction false} PopKeeps(es: seq<Entry>, uses: seq<string>)
    requires es != [] && DistinctHashes(es) && Hashes(es) <= Recent(uses)
    ensures DistinctHashes(Front(es)) && Hashes(Front(es)) <= Recent(uses)
  {
    HashesPrefix(es, |es| - 1);
    PrefixOfPrefix(Hashes(Front(es)), Hashes(es), Recent(uses));
  }

  class Store {
    const hasher: seq<byte> -> string
    const budget: int
    var used: int
    var lru: seq<Element>
    var index: map<string, Element>
    /** The hashes stored or fetched since the last Clear. */
    ghost var uses: seq<string>

    ghost predicate Valid() reads this {
      && 0 < budget && Kept(Entries(lru), used, budget, uses) && Indexed(lru, index) && Hashed(lru, hasher)
    }

    constructor (hasher: seq<byte> -> string, budget: int)
      ensures Valid() && lru == [] && uses == [] && this.hasher == hasher
      ensures this.budget == if budget <= 0 then 256 * 1024 * 1024 else budget
    {
      this.hasher := hasher;
      this.budget := if budget <= 0 then DEFAULT_BUDGET else budget;
      used, lru, index, uses := 0, [], map[], [];
    }

    method MoveToFront(el: Element)
      requires Valid() && el.hash in index && index[el.hash] == el
      modifies `lru, `uses
      ensures Valid() && Entries(lru) == Touched(old(Entries(lru)), el.hash) && uses == old(uses) + [el.hash]
      ensures lru != [] && lru[0] == el
    {
      IndexFinds(lru, index, el.hash);
      TouchKeeps(Entries(lru), used, budget, uses, el.hash);
      Moved(lru, el, hasher);
      MovedIndexed(lru, index, el);
      lru := [el] + Removed(lru, el);
      uses := uses + [el.hash];
    }

    /** Makes b the most recently used blob, under the hash returned. */
    method Put(b: seq<byte>) returns (h: string)
      requires Valid()
      modifies this
      ensures Valid() && h == hasher(b) && uses == old(uses) + [h]
      ensures Entries(lru) == Blobs.Put(old(Entries(lru)), Entry(h, b), budget)
      ensures lru != [] && lru[0].hash == h && Find(Entries(lru), h) == Some(EntryOf(lru[0]))
      ensures (forall a :: hasher(a) == h ==> a == b) ==> lru[0].data == b
    {
      h := hasher(b);
      IndexFinds(lru, index, h);
      if h in index {
        HashedFound(lru, h, hasher);
        MoveToFront(index[h]);
      } else {
        PutNew(b, h);
      }
      FindsFirst(lru);
    }

    method PutNew(b: seq<byte>, h: string)
      requires Valid() && h == hasher(b) && h !in index
      modifies this
      ensures Valid() && uses == old(uses) + [h]
      ensures Entries(lru) == Fit([Entry(h, b)] + old(Entries(lru)), budget)
      ensures lru != [] && lru[0].hash == h && lru[0].data == b
    {
      var el := new Element(h, b);
      IndexFinds(lru, index, h);
      PushKeeps(Entries(lru), used, uses, EntryOf(el));
      EntriesConcat([el], lru);
      EntriesOne(el);
      PushedIndexed(lru, index, el);
      HashedConcat(el, lru, hasher);
      lru := [el] + lru;
      index := index[h := el];
      used := used + |b|;
      uses := uses + [h];
      Evict();
    }

    /** Drops the least recently used blobs until the budget is met. */
    method Evict()
      requires lru != [] && 0 < budget && Indexed(lru, index) && used == Size(Entries(lru))
      requires DistinctHashes(Entries(lru)) && Hashes(Entries(lru)) <= Recent(uses)
      requires Hashed(lru, hasher)
      modifies `lru, `index, `used
      ensures Valid() && Entries(lru) == Fit(old(Entries(lru)), budget)
      ensures lru != [] && lru[0] == old(lru[0])
    {
      while used > budget && |lru| > 1
        invariant lru != [] && Indexed(lru, index) && used == Size(Entries(lru)) && lru[0] == old(lru[0])
        invariant DistinctHashes(Entries(lru)) && Hashes(Entries(lru)) <= Recent(uses)
        invariant Hashed(lru, hasher)
        invariant Fit(Entries(lru), budget) == Fit(old(Entries(lru)), budget)
        decreases |lru|
      {
        var last := Last(lru);
        FrontLastSnoc(Entries(Front(lru)), EntryOf(last));
        PopKeeps(Entries(lru), uses);
        PoppedIndexed(lru, index);
        used := used - |last.data|;
        index := index - {last.hash};
        lru := Front(lru);
      }
    }

    /** The bytes held under a hash, which counts as a use of them. */
    method Get(hash: string) returns (r: Option<seq<byte>>)
      requires Valid()
      modifies this
      ensures Valid() && Entries(lru) == Touched(old(Entries(lru)), hash)
      ensures r == match Find(old(Entries(lru)), hash)
                   case None => None
                   case Some(e) => Some(e.data)
      ensures uses == old(uses) + if r.Some? then [hash] else []
    {
      IndexFinds(lru, index, hash);
      EmptyUnit(uses);
      if hash !in index { return None; }
      var el := index[hash];
      MoveToFront(el);
      return Some(el.data);
    }

    /** Empties the store. */
    method Clear()
      requires Valid()
      modifies this
      ensures Valid() && lru == [] && used == 0
    {
      lru, index, used, uses := [], map[], 0, [];
    }
  }

  /** Fetching what was just stored gives it back, when no other bytes have its hash. */
  method PutThenGet(s: Store, b: seq<byte>) returns (h: string, r: Option<seq<byte>>)
    requires s.Valid()
    modifies s
    ensures s.Valid() && h == s.hasher(b) && r.Some? && s.hasher(r.value) == h
    ensures (forall a :: s.hasher(a) == h ==> a == b) ==> r == Some(b)
  {
    h := s.Put(b);
    FindsFirst(s.lru);
    HashedFound(s.lru, h, s.hasher);
    r := s.Get(h);
  }

  /** The list with an element moved to the front. */
  lemma {:induction false} Moved(lru: seq<Element>, el: Element, hasher: seq<byte> -> string)
    requires DistinctHashes(Entries(lru)) && FindElement(lru, el.hash) == Some(el) && Hashed(lru, hasher)
    ensures Entries([el] + Removed(lru, el)) == Touched(Entries(lru), el.hash)
    ensures Hashed([el] + Removed(lru, el), hasher)
  {
    FindsElement(lru, el.hash);
    RemovedIsWithout(lru, el);
    EntriesConcat([el], Removed(lru, el));
    EntriesOne(el);
    HashedRemoved(lru, el, hasher);
    HashedConcat(el, Removed(lru, el), hasher);
  }

  lemma {:induction false} MovedIndexed(lru: seq<Element>, index: map<string, Element>, el: Element)
    requires Indexed(lru, index) && DistinctHashes(Entries(lru)) && FindElement(lru, el.hash) == Some(el)
    ensures Indexed([el] + Removed(lru, el), index)
  {
    var moved := [el] + Removed(lru, el);
    forall h
      ensures IndexedAt(moved, index, h)
    {
      assert IndexedAt(lru, index, h);
      FindInRemoved(lru, el, h);
      FindInFront(el, Removed(lru, el), h);
    }
  }

  lemma {:induction false} PushedIndexed(lru: seq<Element>, index: map<string, Element>, el: Element)
    requires Indexed(lru, index) && el.hash !in index
    ensures Indexed([el] + lru, index[el.hash := el])
  {
    var longer, more := [el] + lru, index[el.hash := el];
    forall h
      ensures IndexedAt(longer, more, h)
    {
      assert IndexedAt(lru, index, h);
      FindInFront(el, lru, h);
    }
  }

  lemma {:induction false} PoppedIndexed(lru: seq<Element>, index: map<string, Element>)
    requires lru != [] && Indexed(lru, index) && DistinctHashes(Entries(lru))
    ensures Indexed(Front(lru), index - {Last(lru).hash})
  {
    DistinctFront(lru);
    var f, rest := Front(lru), index - {Last(lru).hash};
    forall h
      ensures IndexedAt(f, rest, h)
    {
      assert IndexedAt(lru, index, h);
    }
  }
}
