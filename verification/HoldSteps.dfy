/** Every step of the hand-off keeps its invariant, and touches at most one waiting exchange's
    standing for the better. */
module HoldSteps {
  import opened Hold
  import opened Seqs

  // ---- Claims ------------------------------------------------------------------------

  lemma {:induction false} ClaimsSnoc(senders: seq<Sender>, d: Sender, e: nat)
    ensures Claims(senders + [d], e) == Claims(senders, e) + if d.entry == e then 1 else 0
    ensures Claims(senders + [d], e) > 0 ==>
              (senders + [d])[ClaimOf(senders + [d], e)]
              == if d.entry == e then d else senders[ClaimOf(senders, e)]
  {
    FrontLastSnoc(senders, d);
  }

  /** No claim on an entry that does not exist. */
  lemma {:induction false} NoClaims(senders: seq<Sender>, e: nat)
    requires forall i :: 0 <= i < |senders| ==> senders[i].entry < e
    ensures Claims(senders, e) == 0
  {
    if senders != [] {
      NoClaims(Front(senders), e);
    }
  }

  lemma {:induction false} ClaimCounts(senders: seq<Sender>, i: nat)
    requires i < |senders|
    ensures Claims(senders, senders[i].entry) > 0
  {
    if i < |senders| - 1 {
      ClaimCounts(Front(senders), i);
    }
  }

  /** The only claim on an entry is the one found. */
  lemma {:induction false} OnlyClaim(senders: seq<Sender>, e: nat, i: nat)
    requires i < |senders| && senders[i].entry == e && Claims(senders, e) == 1
    ensures ClaimOf(senders, e) == i
  {
    if i < |senders| - 1 {
      ClaimCounts(Front(senders), i);
      OnlyClaim(Front(senders), e, i);
    } else if Claims(Front(senders), e) > 0 {
      assert false;
    }
  }

  /** Marking a send as made changes no count and no place. */
  lemma {:induction false} ClaimsMarked(senders: seq<Sender>, i: nat, d: Sender, e: nat)
    requires i < |senders| && d.entry == senders[i].entry
    ensures Claims(senders[i := d], e) == Claims(senders, e)
    ensures Claims(senders, e) > 0 ==> ClaimOf(senders[i := d], e) == ClaimOf(senders, e)
    decreases |senders|
  {
    var marked := senders[i := d];
    if i < |senders| - 1 {
      assert Front(marked) == Front(senders)[i := d] && Last(marked) == Last(senders);
      ClaimsMarked(Front(senders), i, d, e);
    } else {
      assert Front(marked) == Front(senders) && Last(marked) == d;
    }
  }

  lemma {:induction false} ClaimsReleased(senders: seq<Sender>, order: seq<nat>, e: nat)
    requires Distinct(order)
    ensures Claims(Released(senders, order), e) == Claims(senders, e) + if e in order then 1 else 0
    ensures e in order ==>
              Released(senders, order)[ClaimOf(Released(senders, order), e)] == Sender(e, UNMODIFIED, false)
    ensures e !in order && Claims(senders, e) > 0 ==>
              Released(senders, order)[ClaimOf(Released(senders, order), e)] == senders[ClaimOf(senders, e)]
  {
    if order != [] {
      ClaimsReleased(senders, Front(order), e);
      ClaimsSnoc(Released(senders, Front(order)), Sender(Last(order), UNMODIFIED, false), e);
      FrontLast(order);
    }
  }

  /** releaseAll owes each entry, in order, the plain resume; what was owed before stays. */
  lemma {:induction false} ReleasedIs(senders: seq<Sender>, order: seq<nat>)
    ensures var all := Released(senders, order);
            && |all| == |senders| + |order| && all[..|senders|] == senders
            && forall k :: 0 <= k < |order| ==>
                 all[|senders| + k] == Sender(order[k], Request("resume", ""), false)
  {
    if order != [] {
      ReleasedIs(senders, Front(order));
    }
  }

  lemma {:induction false} ReleasedNamed(senders: seq<Sender>, order: seq<nat>, n: nat)
    requires forall i :: 0 <= i < |senders| ==> senders[i].entry < n
    requires forall e :: e in order ==> e < n
    ensures forall i :: 0 <= i < |Released(senders, order)| ==> Released(senders, order)[i].entry < n
  {
    if order != [] {
      assert Last(order) in order && forall e :: e in Front(order) ==> e in order;
      ReleasedNamed(senders, Front(order), n);
    }
  }

  // ---- Steps seen from one entry -----------------------------------------------------

  /** How far a live exchange is from its outcome: at most five more steps of its own. */
  function Rank(v: View): nat {
    if v.entry.waiter.Done? then 0
    else
      (if v.held then 2 else if v.claims > 0 && !v.claim.sent then 1 else 0)
      + match v.entry.waiter
        case Selecting => 3
        case Leaving(_) => 2
        case _ => 1
  }

  /** What a step may do to an entry that was there: nothing; bring it closer to its outcome;
      or, registering its id again, displace it. */
  predicate Moves(v: View, w: View, a: Action) {
    || w == v
    || (Consistent(w) && !Orphaned(v) && !Orphaned(w) && !v.entry.waiter.Done? && w.entry.id == v.entry.id
        && Rank(w) < Rank(v))
    || (a == Park(v.entry.id) && v.held && w == v.(held := false))
    || (Orphaned(v) && Orphaned(w) && Consistent(w) && w.entry.id == v.entry.id)
  }

  lemma {:induction false} ParkMoves(s: State, id: nat, e: nat)
    requires e < |s.entries|
    ensures Moves(ViewOf(s, e), ViewOf(DoPark(s, id), e), Park(id))
  {
  }

  lemma {:induction false} ResumeMoves(s: State, id: nat, req: Request, e: nat)
    requires Named(s) && e < |s.entries| && Consistent(ViewOf(s, e))
    ensures Moves(ViewOf(s, e), ViewOf(DoResume(s, id, req), e), Resume(id, req))
  {
    if id in s.held {
      ClaimsSnoc(s.senders, Sender(s.held[id], req, false), e);
    }
  }

  lemma {:induction false} ReleaseAllMoves(s: State, order: seq<nat>, e: nat)
    requires ListsHeld(s, order) && e < |s.entries| && Consistent(ViewOf(s, e))
    ensures Moves(ViewOf(s, e), ViewOf(DoReleaseAll(s, order), e), ReleaseAll(order))
  {
    ClaimsReleased(s.senders, order, e);
  }

  lemma {:induction false} SendMoves(s: State, i: nat, e: nat)
    requires Named(s) && Enabled(s, Send(i)) && e < |s.entries| && Consistent(ViewOf(s, e))
    ensures Moves(ViewOf(s, e), ViewOf(DoSend(s, i), e), Send(i))
  {
    var d := s.senders[i];
    ClaimsMarked(s.senders, i, d.(sent := true), e);
    if d.entry == e {
      ClaimCounts(s.senders, i);
      OnlyClaim(s.senders, e, i);
    }
  }

  lemma {:induction false} ReceiveMoves(s: State, x: nat, e: nat)
    requires Enabled(s, Receive(x)) && e < |s.entries| && Consistent(ViewOf(s, e))
    ensures Moves(ViewOf(s, e), ViewOf(DoReceive(s, x), e), Receive(x))
  {
  }

  lemma {:induction false} LeaveMoves(s: State, x: nat, reason: Reason, e: nat)
    requires Enabled(s, Leave(x, reason)) && e < |s.entries| && Consistent(ViewOf(s, e))
    ensures Moves(ViewOf(s, e), ViewOf(SetWaiter(s, x, Leaving(reason)), e), Leave(x, reason))
  {
  }

  lemma {:induction false} UnregisterMoves(s: State, x: nat, e: nat)
    requires Enabled(s, Unregister(x)) && e < |s.entries| && Consistent(ViewOf(s, e))
    ensures Moves(ViewOf(s, e), ViewOf(DoUnregister(s, x), e), Unregister(x))
  {
  }

  lemma {:induction false} StepMoves(s: State, a: Action, e: nat)
    requires Named(s) && Enabled(s, a) && e < |s.entries| && Consistent(ViewOf(s, e))
    ensures |s.entries| <= |Next(s, a).entries|
    ensures Moves(ViewOf(s, e), ViewOf(Next(s, a), e), a)
  {
    match a
    case Park(id) => ParkMoves(s, id, e);
    case Resume(id, req) => ResumeMoves(s, id, req, e);
    case ReleaseAll(order) => ReleaseAllMoves(s, order, e);
    case Send(i) => SendMoves(s, i, e);
    case Receive(x) => ReceiveMoves(s, x, e);
    case Leave(x, reason) => LeaveMoves(s, x, reason, e);
    case Unregister(x) => UnregisterMoves(s, x, e);
  }

  lemma {:induction false} StepNamed(s: State, a: Action)
    requires Named(s) && Enabled(s, a)
    ensures Named(Next(s, a))
  {
    if a.ReleaseAll? {
      ReleasedNamed(s.senders, a.order, |s.entries|);
    }
  }

  /** Only parking makes a new entry, and it starts out registered and unclaimed. */
  lemma {:induction false} NewEntry(s: State, a: Action, e: nat)
    requires Named(s) && Enabled(s, a) && |s.entries| <= e < |Next(s, a).entries|
    ensures a.Park? && Consistent(ViewOf(Next(s, a), e)) && Held(Next(s, a), e)
  {
    NoClaims(s.senders, |s.entries|);
  }

  lemma {:induction false} StepKeeps(s: State, a: Action)
    requires Inv(s) && Enabled(s, a)
    ensures Inv(Next(s, a))
  {
    StepNamed(s, a);
    var t := Next(s, a);
    forall e | 0 <= e < |t.entries|
      ensures Consistent(ViewOf(t, e))
    {
      if e < |s.entries| {
        StepMoves(s, a, e);
      } else {
        NewEntry(s, a, e);
      }
    }
  }
}
