/** The engine's side of the hand-off: what hold, unregister, Resume and releaseAll do while
    they hold heldMu, each exactly one step of the machine. */
module HoldEngine {
  import opened Hold
  import opened HoldSteps
  import opened Options
  import opened Seqs

  class Engine {
    var entries: seq<Entry>
    var held: map<nat, nat>
    var senders: seq<Sender>

    function Current(): State reads this {
      State(entries, held, senders)
    }

    constructor ()
      ensures Current() == INIT
    {
      entries, held, senders := [], map[], [];
    }

    method Register(id: nat) returns (ent: nat)
      modifies this
      ensures ent == |old(entries)| && Current() == Next(old(Current()), Park(id))
    {
      ent := |entries|;
      entries := entries + [Entry(id, None, Selecting)];
      held := held[id := ent];
    }

    /** A waiter that gives up takes its entry out, unless a claim was faster; ok tells which. */
    method Unregister(ent: nat) returns (ok: bool)
      requires Enabled(Current(), Action.Unregister(ent))
      modifies this
      ensures ok == Held(old(Current()), ent) && Current() == Next(old(Current()), Action.Unregister(ent))
    {
      var e := entries[ent];
      if e.id !in held || held[e.id] != ent {
        entries := entries[ent := e.(waiter := Receiving)];
        return false;
      }
      held := held - {e.id};
      entries := entries[ent := e.(waiter := Done(Outcome.Left(e.waiter.reason)))];
      return true;
    }

    /** Resume up to its send: found says whether there was anything to claim. */
    method Claim(id: nat, req: Request) returns (found: bool)
      modifies this
      ensures found == (id in old(held)) && Current() == Next(old(Current()), Resume(id, req))
      ensures if found then |senders| == |old(senders)| + 1 && Last(senders) == Sender(old(held)[id], req, false)
              else Current() == old(Current())
    {
      found := id in held;
      if found {
        senders := senders + [Sender(held[id], req, false)];
        held := held - {id};
      }
    }

    /** releaseAll up to its sends, in whatever order the map yields its entries. */
    method ClaimAll() returns (ents: seq<nat>)
      requires Named(Current())
      modifies this
      ensures ListsHeld(old(Current()), ents) && Current() == Next(old(Current()), ReleaseAll(ents))
      ensures |senders| == |old(senders)| + |ents| && senders[..|old(senders)|] == old(senders)
      ensures forall k :: 0 <= k < |ents| ==>
                senders[|old(senders)| + k] == Sender(ents[k], Request("resume", ""), false)
    {
      ents := [];
      var left := held.Keys;
      while left != {}
        invariant Current() == old(Current()).(senders := senders) && left <= held.Keys
        invariant senders == Released(old(senders), ents)
        invariant Distinct(ents)
        invariant forall e: nat :: e in ents <==> e < |entries| && Held(Current(), e) && entries[e].id !in left
        decreases left
      {
        var id :| id in left;
        ghost var before := ents;
        ents := ents + [held[id]];
        senders := senders + [Sender(held[id], UNMODIFIED, false)];
        left := left - {id};
        FrontLastSnoc(before, held[id]);
      }
      held := map[];
      ReleasedIs(old(senders), ents);
    }
  }
}
