/** What the hand-off promises over whole runs. */
module HoldRuns {
  import opened Hold
  import opened HoldSteps
  import opened Options
  import opened Seqs

  /** A run: each action enabled where it is taken. */
  ghost predicate Run(s: State, acts: seq<Action>)
    decreases |acts|, 0
  {
    acts == [] || (Run(s, Front(acts)) && Enabled(After(s, Front(acts)), Last(acts)))
  }

  ghost function After(s: State, acts: seq<Action>): State
    requires Run(s, acts)
    decreases |acts|, 1
  {
    if acts == [] then s else Next(After(s, Front(acts)), Last(acts))
  }

  /** Parking an id only once the earlier wait under it is over, as the one goroutine that
      handles an exchange does. */
  predicate InTurn(s: State, a: Action) {
    a.Park? ==> forall e :: 0 <= e < |s.entries| && s.entries[e].id == a.id ==> s.entries[e].waiter.Done?
  }

  ghost predicate RunInTurn(s: State, acts: seq<Action>)
    requires Run(s, acts)
    decreases |acts|
  {
    acts == [] || (RunInTurn(s, Front(acts)) && InTurn(After(s, Front(acts)), Last(acts)))
  }

  lemma {:induction false} RunKeeps(s: State, acts: seq<Action>)
    requires Inv(s) && Run(s, acts)
    ensures Inv(After(s, acts))
    decreases |acts|
  {
    if acts != [] {
      RunKeeps(s, Front(acts));
      StepKeeps(After(s, Front(acts)), Last(acts));
    }
  }

  /** Entry e's outcome is settled for good, a sent message stays the one e was given, and an
      orphan stays one. */
  ghost predicate Settled(s: State, t: State, e: nat)
    requires e < |s.entries|
  {
    && e < |t.entries|
    && t.entries[e].id == s.entries[e].id
    && (s.entries[e].waiter.Done? ==> t.entries[e] == s.entries[e])
    && (Orphaned(ViewOf(s, e)) ==> Orphaned(ViewOf(t, e)))
  }

  lemma {:induction false} RunSettles(s: State, acts: seq<Action>, e: nat)
    requires Inv(s) && Run(s, acts) && e < |s.entries|
    ensures Settled(s, After(s, acts), e)
    decreases |acts|
  {
    if acts != [] {
      var t := After(s, Front(acts));
      RunKeeps(s, Front(acts));
      RunSettles(s, Front(acts), e);
      StepMoves(t, Last(acts), e);
    }
  }

  /** Senders are only ever added, and keep their entry and message. */
  lemma {:induction false} RunKeepsSenders(s: State, acts: seq<Action>, i: nat)
    requires Inv(s) && Run(s, acts) && i < |s.senders|
    ensures var t := After(s, acts);
            i < |t.senders| && t.senders[i].entry == s.senders[i].entry && t.senders[i].req == s.senders[i].req
            && (s.senders[i].sent ==> t.senders[i].sent)
    decreases |acts|
  {
    if acts != [] {
      var t := After(s, Front(acts));
      RunKeepsSenders(s, Front(acts), i);
      if Last(acts).ReleaseAll? {
        ReleasedKeeps(t.senders, Last(acts).order, i);
      }
    }
  }

  lemma {:induction false} ReleasedKeeps(senders: seq<Sender>, order: seq<nat>, i: nat)
    requires i < |senders|
    ensures i < |Released(senders, order)| && Released(senders, order)[i] == senders[i]
  {
    if order != [] {
      ReleasedKeeps(senders, Front(order), i);
    }
  }

  // ---- Nobody is displaced -----------------------------------------------------------

  ghost predicate NoOrphans(s: State) {
    forall e :: 0 <= e < |s.entries| ==> !Orphaned(ViewOf(s, e))
  }

  lemma {:induction false} ParkDisplaces(s: State, id: nat)
    requires Inv(s) && id in s.held
    ensures Orphaned(ViewOf(DoPark(s, id), s.held[id]))
  {
    assert Consistent(ViewOf(s, s.held[id]));
  }

  lemma {:induction false} StepDisplacesNobody(s: State, a: Action)
    requires Inv(s) && NoOrphans(s) && Enabled(s, a)
    ensures NoOrphans(Next(s, a)) <==> !(a.Park? && a.id in s.held)
  {
    var t := Next(s, a);
    if a.Park? && a.id in s.held {
      ParkDisplaces(s, a.id);
    } else {
      forall e | 0 <= e < |t.entries|
        ensures !Orphaned(ViewOf(t, e))
      {
        if e < |s.entries| {
          StepMoves(s, a, e);
        } else {
          NewEntry(s, a, e);
        }
      }
    }
  }

  /** A registered entry's exchange is still waiting, so in turn nobody parks over it. */
  lemma {:induction false} HeldIsLive(s: State, id: nat)
    requires Inv(s) && id in s.held
    ensures s.held[id] < |s.entries| && s.entries[s.held[id]].id == id && Live(s, s.held[id])
  {
    assert Consistent(ViewOf(s, s.held[id]));
  }

  lemma {:induction false} InTurnDisplacesNobody(s: State, acts: seq<Action>)
    requires Inv(s) && NoOrphans(s) && Run(s, acts) && RunInTurn(s, acts)
    ensures NoOrphans(After(s, acts))
    decreases |acts|
  {
    if acts != [] {
      var t, a := After(s, Front(acts)), Last(acts);
      InTurnDisplacesNobody(s, Front(acts));
      RunKeeps(s, Front(acts));
      if a.Park? && a.id in t.held {
        HeldIsLive(t, a.id);
      }
      StepDisplacesNobody(t, a);
    }
  }

  // ---- Main results ------------------------------------------------------------------

  /** Sends never block: whoever owes a message finds the slot empty, and its waiter is
      neither gone nor about to go. */
  lemma {:induction false} SendNeverBlocks(acts: seq<Action>, i: nat)
    requires Run(INIT, acts)
    ensures var s := After(INIT, acts);
            i < |s.senders| && !s.senders[i].sent ==>
              Enabled(s, Send(i)) && Live(s, s.senders[i].entry) && !Held(s, s.senders[i].entry)
  {
    RunKeeps(INIT, acts);
    var s := After(INIT, acts);
    if i < |s.senders| && !s.senders[i].sent {
      SenderClaims(s, i);
    }
  }

  /** A sender's entry was claimed by it alone. */
  lemma {:induction false} SenderClaims(s: State, i: nat)
    requires Inv(s) && i < |s.senders|
    ensures var v := ViewOf(s, s.senders[i].entry);
            Consistent(v) && v.claims == 1 && v.claim == s.senders[i]
  {
    var e := s.senders[i].entry;
    assert Consistent(ViewOf(s, e));
    ClaimCounts(s.senders, i);
    OnlyClaim(s.senders, e, i);
  }

  /** Every Resume that returns nil, and every send of releaseAll, is the one its waiter
      applies: whatever happens afterwards, once the wait is over it ended with that message. */
  lemma {:induction false} SentIsApplied(acts: seq<Action>, more: seq<Action>, i: nat)
    requires Run(INIT, acts) && Run(After(INIT, acts), more)
    requires i < |After(INIT, acts).senders| && After(INIT, acts).senders[i].sent
    ensures var d := After(INIT, acts).senders[i];
            var t := After(After(INIT, acts), more);
            && d.entry < |t.entries|
            && (Live(t, d.entry) ==> t.entries[d.entry].slot == Some(d.req))
            && (!Live(t, d.entry) ==> t.entries[d.entry].waiter == Done(Resumed(d.req)))
  {
    RunKeeps(INIT, acts);
    var s := After(INIT, acts);
    RunKeeps(s, more);
    RunKeepsSenders(s, more, i);
    SenderClaims(After(s, more), i);
  }

  /** What a waiter applies was sent to it, by exactly one sender; one that timed out or lost
      its client was sent nothing, and nobody will. */
  lemma {:induction false} AppliedWasSent(acts: seq<Action>, e: nat)
    requires Run(INIT, acts) && e < |After(INIT, acts).entries| && !Live(After(INIT, acts), e)
    ensures var s := After(INIT, acts);
            match s.entries[e].waiter.outcome
            case Resumed(r) =>
              && Claims(s.senders, e) == 1
              && s.senders[ClaimOf(s.senders, e)].sent && s.senders[ClaimOf(s.senders, e)].req == r
            case Left(_) => Claims(s.senders, e) == 0
  {
    RunKeeps(INIT, acts);
    assert Consistent(ViewOf(After(INIT, acts), e));
  }

  /** An outcome is final. */
  lemma {:induction false} OneOutcome(acts: seq<Action>, more: seq<Action>, e: nat)
    requires Run(INIT, acts) && Run(After(INIT, acts), more)
    requires e < |After(INIT, acts).entries| && !Live(After(INIT, acts), e)
    ensures e < |After(After(INIT, acts), more).entries|
    ensures After(After(INIT, acts), more).entries[e] == After(INIT, acts).entries[e]
  {
    RunKeeps(INIT, acts);
    RunSettles(After(INIT, acts), more, e);
  }

  /** After unregister returned false the message is in the slot, or a sender is committed to
      putting it there. */
  lemma {:induction false} LostRaceHasMessage(acts: seq<Action>, e: nat)
    requires Run(INIT, acts) && RunInTurn(INIT, acts)
    requires e < |After(INIT, acts).entries| && After(INIT, acts).entries[e].waiter.Receiving?
    ensures var s := After(INIT, acts);
            && Claims(s.senders, e) == 1
            && s.entries[e].slot == (var d := s.senders[ClaimOf(s.senders, e)]; if d.sent then Some(d.req) else None)
  {
    RunKeeps(INIT, acts);
    InTurnDisplacesNobody(INIT, acts);
    assert Consistent(ViewOf(After(INIT, acts), e));
  }

  /** The step that brings a waiting exchange closer to its outcome: its own, or its sender's. */
  function NextFor(s: State, e: nat): Action
    requires e < |s.entries|
  {
    if s.entries[e].waiter.Leaving? then Unregister(e)
    else if s.entries[e].slot.Some? then Receive(e)
    else if s.entries[e].waiter.Selecting? then Leave(e, Timeout)
    else if Claims(s.senders, e) > 0 then Send(ClaimOf(s.senders, e))
    else Receive(e)
  }

  /** Every parked exchange gets its outcome: there is always a step to be taken for it, by
      its own goroutine or a committed sender, and no step of anyone sets it back; five such
      steps at most, and it is done. */
  lemma {:induction false} EveryWaitEnds(acts: seq<Action>, e: nat)
    requires Run(INIT, acts) && RunInTurn(INIT, acts)
    requires e < |After(INIT, acts).entries|
    ensures var s := After(INIT, acts);
            && Rank(ViewOf(s, e)) <= 5 && (Rank(ViewOf(s, e)) == 0 <==> !Live(s, e))
            && (Live(s, e) ==> Enabled(s, NextFor(s, e)) && e < |Next(s, NextFor(s, e)).entries|
                               && Rank(ViewOf(Next(s, NextFor(s, e)), e)) < Rank(ViewOf(s, e)))
  {
    RunKeeps(INIT, acts);
    InTurnDisplacesNobody(INIT, acts);
    var s := After(INIT, acts);
    assert Consistent(ViewOf(s, e));
    if Live(s, e) {
      NextForEnabled(s, e);
      NextForChanges(s, e);
      StepMoves(s, NextFor(s, e), e);
    }
  }

  lemma {:induction false} NextForEnabled(s: State, e: nat)
    requires Inv(s) && e < |s.entries| && Live(s, e) && !Orphaned(ViewOf(s, e))
    ensures Enabled(s, NextFor(s, e))
  {
    assert Consistent(ViewOf(s, e));
  }

  lemma {:induction false} NextForChanges(s: State, e: nat)
    requires Inv(s) && e < |s.entries| && Live(s, e) && !Orphaned(ViewOf(s, e)) && Enabled(s, NextFor(s, e))
    ensures e < |Next(s, NextFor(s, e)).entries| && Next(s, NextFor(s, e)).entries[e] != s.entries[e]
  {
  }

  lemma {:induction false} NoStepSetsBack(acts: seq<Action>, a: Action, e: nat)
    requires Run(INIT, acts) && RunInTurn(INIT, acts) && e < |After(INIT, acts).entries|
    requires Enabled(After(INIT, acts), a) && InTurn(After(INIT, acts), a)
    ensures e < |Next(After(INIT, acts), a).entries|
    ensures var v, w := ViewOf(After(INIT, acts), e), ViewOf(Next(After(INIT, acts), a), e);
            w == v || Rank(w) < Rank(v)
  {
    RunKeeps(INIT, acts);
    InTurnDisplacesNobody(INIT, acts);
    var s := After(INIT, acts);
    if a.Park? && a.id in s.held {
      HeldIsLive(s, a.id);
    }
    StepMoves(s, a, e);
  }

  /** The exact limit of all this: a step leaves some exchange without an outcome if and only
      if it parks an id that is still registered, and that exchange then waits for ever. */
  lemma {:induction false} ParkedOverWaitsForever(acts: seq<Action>, a: Action, more: seq<Action>)
    requires Run(INIT, acts) && NoOrphans(After(INIT, acts)) && Enabled(After(INIT, acts), a)
    requires Run(Next(After(INIT, acts), a), more)
    ensures var s := After(INIT, acts);
            && (NoOrphans(Next(s, a)) <==> !(a.Park? && a.id in s.held))
            && (a.Park? && a.id in s.held ==>
                  var t := After(Next(s, a), more);
                  s.held[a.id] < |t.entries| && Live(t, s.held[a.id]))
  {
    RunKeeps(INIT, acts);
    var s := After(INIT, acts);
    StepDisplacesNobody(s, a);
    StepKeeps(s, a);
    if a.Park? && a.id in s.held {
      ParkDisplaces(s, a.id);
      RunSettles(Next(s, a), more, s.held[a.id]);
    }
  }

  /** Such a run: one id parked twice at once. */
  lemma {:induction false} ParkingTwiceAtOnce()
    ensures Run(INIT, [Park(7), Park(7)]) && !NoOrphans(After(INIT, [Park(7), Park(7)]))
  {
    assert Front([Park(7), Park(7)]) == [Park(7)] && Front([Park(7)]) == [];
    var t := DoPark(DoPark(INIT, 7), 7);
    assert t == After(INIT, [Park(7), Park(7)]);
    assert |t.entries| == 2 && Orphaned(ViewOf(t, 0));
  }

  // ---- From the caller to the waiter -------------------------------------------------

  /** A claim on an entry decides how it ends. */
  lemma {:induction false} ClaimDecides(s: State, more: seq<Action>, i: nat)
    requires Inv(s) && Run(s, more) && i < |s.senders|
    ensures var e, t := s.senders[i].entry, After(s, more);
            e < |s.entries| && e < |t.entries| && t.entries[e].id == s.entries[e].id
            && (Live(t, e) || t.entries[e].waiter == Done(Resumed(s.senders[i].req)))
  {
    RunKeeps(s, more);
    RunKeepsSenders(s, more, i);
    RunSettles(s, more, s.senders[i].entry);
    SenderClaims(After(s, more), i);
  }

  /** The message given to Resume is the one applied: wherever id leads to an entry, that
      exchange goes on with exactly this message, whatever happens afterwards. */
  lemma {:induction false} ResumeIsApplied(acts: seq<Action>, id: nat, req: Request, more: seq<Action>)
    requires Run(INIT, acts) && id in After(INIT, acts).held
    requires Run(Next(After(INIT, acts), Resume(id, req)), more)
    ensures var e, t := After(INIT, acts).held[id], After(Next(After(INIT, acts), Resume(id, req)), more);
            && e < |t.entries| && t.entries[e].id == id
            && (Live(t, e) || t.entries[e].waiter == Done(Resumed(req)))
  {
    RunKeeps(INIT, acts);
    var s, a := After(INIT, acts), Resume(id, req);
    StepKeeps(s, a);
    ClaimDecides(Next(s, a), more, |s.senders|);
  }

  /** Every exchange registered when releaseAll runs goes on unmodified. */
  lemma {:induction false} ReleaseAllIsApplied(acts: seq<Action>, order: seq<nat>, more: seq<Action>, e: nat)
    requires Run(INIT, acts) && Enabled(After(INIT, acts), ReleaseAll(order))
    requires e < |After(INIT, acts).entries| && Held(After(INIT, acts), e)
    requires Run(Next(After(INIT, acts), ReleaseAll(order)), more)
    ensures var t := After(Next(After(INIT, acts), ReleaseAll(order)), more);
            e < |t.entries| && (Live(t, e) || t.entries[e].waiter == Done(Resumed(Request("resume", ""))))
  {
    RunKeeps(INIT, acts);
    var s, a := After(INIT, acts), ReleaseAll(order);
    StepKeeps(s, a);
    ReleasedIs(s.senders, order);
    var k :| 0 <= k < |order| && order[k] == e;
    ClaimDecides(Next(s, a), more, |s.senders| + k);
  }

  /** The actions that take entry e, registered under id, out of the registry. */
  predicate Takes(a: Action, id: nat, e: nat) {
    a == Park(id) || (a.Resume? && a.id == id) || a.ReleaseAll? || a == Unregister(e)
  }

  predicate NoneTakes(acts: seq<Action>, id: nat, e: nat) {
    forall k :: 0 <= k < |acts| ==> !Takes(acts[k], id, e)
  }

  /** A parked exchange is found under its id until one of those. */
  lemma {:induction false} ParkedIsFound(acts: seq<Action>, id: nat, more: seq<Action>)
    requires Run(INIT, acts) && Run(Next(After(INIT, acts), Park(id)), more)
    requires NoneTakes(more, id, |After(INIT, acts).entries|)
    ensures var e, t := |After(INIT, acts).entries|, After(Next(After(INIT, acts), Park(id)), more);
            id in t.held && t.held[id] == e < |t.entries| && t.entries[e].id == id
    decreases |more|
  {
    var s, e := After(INIT, acts), |After(INIT, acts).entries|;
    RunKeeps(INIT, acts);
    StepKeeps(s, Park(id));
    if more != [] {
      var u := After(Next(s, Park(id)), Front(more));
      RunKeeps(Next(s, Park(id)), Front(more));
      ParkedIsFound(acts, id, Front(more));
      StillFound(u, Last(more), id, e);
    }
  }

  lemma {:induction false} StillFound(s: State, a: Action, id: nat, e: nat)
    requires Inv(s) && Enabled(s, a) && !Takes(a, id, e)
    requires id in s.held && s.held[id] == e < |s.entries| && s.entries[e].id == id
    ensures var t := Next(s, a); id in t.held && t.held[id] == e < |t.entries| && t.entries[e].id == id
  {
    if a.Unregister? && Held(s, a.entry) && s.entries[a.entry].id == id {
      assert false;
    }
  }

  // ---- From the waiter back to the caller --------------------------------------------

  /** A sender carries what some Resume was given for its entry's id, or a plain resume from
      releaseAll. */
  ghost predicate Asked(acts: seq<Action>, id: nat, req: Request) {
    exists k :: 0 <= k < |acts| &&
      (acts[k] == Resume(id, req) || (acts[k].ReleaseAll? && req == Request("resume", "")))
  }

  lemma {:induction false} AskedStill(acts: seq<Action>, id: nat, req: Request)
    requires acts != [] && Asked(Front(acts), id, req)
    ensures Asked(acts, id, req)
  {
    var k :| 0 <= k < |Front(acts)| && (Front(acts)[k] == Resume(id, req)
      || (Front(acts)[k].ReleaseAll? && req == Request("resume", "")));
    assert acts[k] == Front(acts)[k];
  }

  lemma {:induction false} ReleasedAre(senders: seq<Sender>, order: seq<nat>, i: nat)
    requires i < |Released(senders, order)|
    ensures i < |senders| ==> Released(senders, order)[i] == senders[i]
    ensures i >= |senders| ==> Released(senders, order)[i].req == Request("resume", "")
    ensures |senders| <= |Released(senders, order)|
  {
    if order != [] {
      if i < |Released(senders, Front(order))| {
        ReleasedAre(senders, Front(order), i);
      } else if i > 0 && |Released(senders, Front(order))| > 0 {
        ReleasedAre(senders, Front(order), 0);
      }
    }
  }

  lemma {:induction false} SenderWasAsked(acts: seq<Action>, i: nat)
    requires Run(INIT, acts) && i < |After(INIT, acts).senders|
    ensures var s := After(INIT, acts);
            s.senders[i].entry < |s.entries| && Asked(acts, s.entries[s.senders[i].entry].id, s.senders[i].req)
    decreases |acts|
  {
    RunKeeps(INIT, acts);
    var s, a := After(INIT, Front(acts)), Last(acts);
    RunKeeps(INIT, Front(acts));
    if i < |s.senders| {
      SenderWasAsked(Front(acts), i);
      RunKeepsOneSender(s, a, i);
      AskedStill(acts, s.entries[s.senders[i].entry].id, s.senders[i].req);
    } else {
      NewSender(s, a, i);
      assert acts[|acts| - 1] == a;
    }
  }

  lemma {:induction false} RunKeepsOneSender(s: State, a: Action, i: nat)
    requires Inv(s) && Enabled(s, a) && i < |s.senders|
    ensures var t := Next(s, a);
            && i < |t.senders| && t.senders[i].entry == s.senders[i].entry && t.senders[i].req == s.senders[i].req
            && s.senders[i].entry < |s.entries| <= |t.entries|
            && t.entries[s.senders[i].entry].id == s.entries[s.senders[i].entry].id
  {
    if a.ReleaseAll? { ReleasedKeeps(s.senders, a.order, i); }
  }

  lemma {:induction false} NewSender(s: State, a: Action, i: nat)
    requires Inv(s) && Enabled(s, a) && |s.senders| <= i < |Next(s, a).senders|
    ensures var t := Next(s, a);
            && t.senders[i].entry < |t.entries|
            && (a == Resume(t.entries[t.senders[i].entry].id, t.senders[i].req)
                || (a.ReleaseAll? && t.senders[i].req == Request("resume", "")))
  {
    StepKeeps(s, a);
    if a.ReleaseAll? { ReleasedAre(s.senders, a.order, i); }
  }

  /** What an exchange went on with, some Resume was given for its id, or releaseAll sent. */
  lemma {:induction false} AppliedWasAsked(acts: seq<Action>, e: nat)
    requires Run(INIT, acts) && e < |After(INIT, acts).entries|
    requires var w := After(INIT, acts).entries[e].waiter; w.Done? && w.outcome.Resumed?
    ensures var x := After(INIT, acts).entries[e]; Asked(acts, x.id, x.waiter.outcome.req)
  {
    AppliedWasSent(acts, e);
    SenderWasAsked(acts, ClaimOf(After(INIT, acts).senders, e));
  }

  /** The reason an exchange has for leaving. */
  function LeavesFor(w: Waiter): Option<Reason> {
    match w
    case Leaving(r) => Some(r)
    case Done(Left(r)) => Some(r)
    case _ => None
  }

  /** An exchange that left did so for the reason it gave up. */
  lemma {:induction false} LeftForThat(acts: seq<Action>, e: nat)
    requires Run(INIT, acts) && e < |After(INIT, acts).entries|
    requires LeavesFor(After(INIT, acts).entries[e].waiter).Some?
    ensures Leave(e, LeavesFor(After(INIT, acts).entries[e].waiter).value) in acts
    decreases |acts|
  {
    var s, a := After(INIT, Front(acts)), Last(acts);
    FrontLast(acts);
    RunKeeps(INIT, Front(acts));
    if e < |s.entries| && LeavesFor(s.entries[e].waiter).Some? {
      LeftForThat(Front(acts), e);
    }
  }
}
