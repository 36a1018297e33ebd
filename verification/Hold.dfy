/** The breakpoint hand-off: exchanges parked by hold, released by Resume and releaseAll, and
    left by timeout or client departure. Each action below is one atomic step: a critical
    section under heldMu, a send or a receive on a one-slot channel, or a select firing. */
module Hold {
  import opened Options
  import opened Seqs

  datatype Request = Request(action: string, edits: string)

  /** What releaseAll sends. */
  const UNMODIFIED := Request("resume", "")

  datatype Reason = Timeout | ClientGone
  datatype Outcome = Resumed(req: Request) | Left(reason: Reason)

  /** Where hold stands: in the select, about to unregister, in the receive after a lost race,
      or past it. */
  datatype Waiter = Selecting | Leaving(reason: Reason) | Receiving | Done(outcome: Outcome)

  /** A heldEntry, its one-slot channel, and the goroutine waiting on it. */
  datatype Entry = Entry(id: nat, slot: Option<Request>, waiter: Waiter)

  /** A send on the channel of an entry that was claimed: by Resume, or by releaseAll. */
  datatype Sender = Sender(entry: nat, req: Request, sent: bool)

  /** Entries are numbered as they are made; held maps a flow id to an entry. */
  datatype State = State(entries: seq<Entry>, held: map<nat, nat>, senders: seq<Sender>)

  datatype Action =
    | Park(id: nat)
    | Resume(id: nat, req: Request)
    | ReleaseAll(order: seq<nat>)
    | Send(sender: nat)
    | Receive(entry: nat)
    | Leave(entry: nat, reason: Reason)
    | Unregister(entry: nat)

  const INIT := State([], map[], [])

  /** Entry e is the one registered under its id. */
  predicate Held(s: State, e: nat)
    requires e < |s.entries|
  {
    s.entries[e].id in s.held && s.held[s.entries[e].id] == e
  }

  predicate Live(s: State, e: nat)
    requires e < |s.entries|
  {
    !s.entries[e].waiter.Done?
  }

  predicate Distinct(order: seq<nat>) {
    order == [] || (Last(order) !in Front(order) && Distinct(Front(order)))
  }

  /** Every registered entry once, in some order. */
  ghost predicate ListsHeld(s: State, order: seq<nat>) {
    && Distinct(order)
    && (forall e :: e in order ==> e < |s.entries|)
    && (forall e :: 0 <= e < |s.entries| ==> (e in order <==> Held(s, e)))
  }

  /** The sends releaseAll owes the entries it took. */
  function Released(senders: seq<Sender>, order: seq<nat>): seq<Sender> {
    if order == [] then senders
    else Released(senders, Front(order)) + [Sender(Last(order), UNMODIFIED, false)]
  }

  ghost predicate Enabled(s: State, a: Action) {
    match a
    case Park(_) => true
    case Resume(_, _) => true
    case ReleaseAll(order) => ListsHeld(s, order)
    case Send(i) =>
      && i < |s.senders| && !s.senders[i].sent && s.senders[i].entry < |s.entries|
      && s.entries[s.senders[i].entry].slot.None?
    case Receive(e) =>
      && e < |s.entries| && s.entries[e].slot.Some?
      && (s.entries[e].waiter.Selecting? || s.entries[e].waiter.Receiving?)
    case Leave(e, _) => e < |s.entries| && s.entries[e].waiter.Selecting?
    case Unregister(e) => e < |s.entries| && s.entries[e].waiter.Leaving?
  }

  /** A new entry, registered over whatever its id led to before. */
  function DoPark(s: State, id: nat): State {
    State(s.entries + [Entry(id, None, Selecting)], s.held[id := |s.entries|], s.senders)
  }

  /** Claims the entry under lock; when there is none, Resume reports that and does nothing. */
  function DoResume(s: State, id: nat, req: Request): State {
    if id in s.held then
      s.(held := s.held - {id}, senders := s.senders + [Sender(s.held[id], req, false)])
    else s
  }

  function DoReleaseAll(s: State, order: seq<nat>): State {
    s.(held := map[], senders := Released(s.senders, order))
  }

  function DoSend(s: State, i: nat): State
    requires i < |s.senders| && s.senders[i].entry < |s.entries|
  {
    var d := s.senders[i];
    s.(entries := s.entries[d.entry := s.entries[d.entry].(slot := Some(d.req))],
       senders := s.senders[i := d.(sent := true)])
  }

  function SetWaiter(s: State, e: nat, w: Waiter): State
    requires e < |s.entries|
  {
    s.(entries := s.entries[e := s.entries[e].(waiter := w)])
  }

  function DoReceive(s: State, e: nat): State
    requires e < |s.entries| && s.entries[e].slot.Some?
  {
    s.(entries := s.entries[e := s.entries[e].(slot := None, waiter := Done(Resumed(s.entries[e].slot.value)))])
  }

  function DoUnregister(s: State, e: nat): State
    requires e < |s.entries| && s.entries[e].waiter.Leaving?
  {
    if Held(s, e) then
      SetWaiter(s.(held := s.held - {s.entries[e].id}), e, Done(Left(s.entries[e].waiter.reason)))
    else SetWaiter(s, e, Receiving)
  }

  ghost function Next(s: State, a: Action): State
    requires Enabled(s, a)
  {
    match a
    case Park(id) => DoPark(s, id)
    case Resume(id, req) => DoResume(s, id, req)
    case ReleaseAll(order) => DoReleaseAll(s, order)
    case Send(i) => DoSend(s, i)
    case Receive(e) => DoReceive(s, e)
    case Leave(e, reason) => SetWaiter(s, e, Leaving(reason))
    case Unregister(e) => DoUnregister(s, e)
  }

  // ---- What every step keeps ---------------------------------------------------------

  /** The number of sends made or owed to entry e. */
  function Claims(senders: seq<Sender>, e: nat): nat {
    if senders == [] then 0 else Claims(Front(senders), e) + if Last(senders).entry == e then 1 else 0
  }

  /** The last of them. */
  function ClaimOf(senders: seq<Sender>, e: nat): (i: nat)
    requires Claims(senders, e) > 0
    ensures i < |senders| && senders[i].entry == e
  {
    if Last(senders).entry == e then |senders| - 1 else ClaimOf(Front(senders), e)
  }

  /** What one entry looks like from outside: itself, whether it is registered, how often it
      was claimed, and the claim. */
  datatype View = View(entry: Entry, held: bool, claims: nat, claim: Sender)

  const NO_CLAIM := Sender(0, UNMODIFIED, false)

  function ViewOf(s: State, e: nat): View
    requires e < |s.entries|
  {
    View(s.entries[e], Held(s, e), Claims(s.senders, e),
         if Claims(s.senders, e) > 0 then s.senders[ClaimOf(s.senders, e)] else NO_CLAIM)
  }

  /** Displaced: registered no more, and nobody owes it a message. */
  predicate Orphaned(v: View) {
    !v.entry.waiter.Done? && !v.held && v.claims == 0
  }

  /** A live entry is registered, or claimed once with the message owed or in the slot, or
      displaced; one resumed was claimed once, with what it applied; one that left never. */
  predicate Consistent(v: View) {
    match v.entry.waiter
    case Done(Resumed(r)) => !v.held && v.claims == 1 && v.claim.sent && v.claim.req == r && v.entry.slot.None?
    case Done(Left(_)) => !v.held && v.claims == 0 && v.entry.slot.None?
    case _ =>
      if v.held then v.claims == 0 && v.entry.slot.None? && !v.entry.waiter.Receiving?
      else if v.claims == 0 then v.entry.slot.None?
      else v.claims == 1 && v.entry.slot == if v.claim.sent then Some(v.claim.req) else None
  }

  /** The registry and the senders name entries that exist. */
  ghost predicate Named(s: State) {
    && (forall id :: id in s.held ==> s.held[id] < |s.entries| && s.entries[s.held[id]].id == id)
    && (forall i :: 0 <= i < |s.senders| ==> s.senders[i].entry < |s.entries|)
  }

  ghost predicate Inv(s: State) {
    Named(s) && forall e :: 0 <= e < |s.entries| ==> Consistent(ViewOf(s, e))
  }
}
