/** The hit limit of a rule under concurrency: any number of calls of fire, their atomic steps
    interleaved in any way. */
module HitLimit {
  import opened Seqs

  /** Where a call that passed the probability gate stands: before the increment; over the
      limit and about to take it back; the one that reached the limit, about to disable the
      rule; or done, fired or skipped. */
  datatype Call = Arrived | Over | Reached | Done(fired: bool)

  /** The rule's counter and switch, the calls, and how often disabling was asked for. */
  datatype State = State(hits: int, enabled: bool, calls: seq<Call>, asked: nat)

  datatype Action = Arrive | Increment(call: nat) | TakeBack(call: nat) | Disable(call: nat)

  /** A rule with hits so far. */
  function Start(hits: nat): State {
    State(hits, true, [], 0)
  }

  predicate Enabled(s: State, a: Action) {
    match a
    case Arrive => true
    case Increment(i) => i < |s.calls| && s.calls[i].Arrived?
    case TakeBack(i) => i < |s.calls| && s.calls[i].Over?
    case Disable(i) => i < |s.calls| && s.calls[i].Reached?
  }

  /** maxHits is 0 when there is no limit. */
  function Next(s: State, maxHits: nat, a: Action): State
    requires Enabled(s, a)
  {
    match a
    case Arrive => s.(calls := s.calls + [Arrived])
    case Increment(i) =>
      var n := s.hits + 1;
      if maxHits > 0 && n > maxHits then s.(hits := n, calls := s.calls[i := Over])
      else if maxHits > 0 && n == maxHits then s.(hits := n, calls := s.calls[i := Reached], asked := s.asked + 1)
      else s.(hits := n, calls := s.calls[i := Done(true)])
    case TakeBack(i) => s.(hits := s.hits - 1, calls := s.calls[i := Done(false)])
    case Disable(i) => s.(enabled := false, calls := s.calls[i := Done(true)])
  }

  predicate Run(s: State, maxHits: nat, acts: seq<Action>)
    decreases |acts|, 0
  {
    acts == [] || (Run(s, maxHits, Front(acts)) && Enabled(After(s, maxHits, Front(acts)), Last(acts)))
  }

  function After(s: State, maxHits: nat, acts: seq<Action>): State
    requires Run(s, maxHits, acts)
    decreases |acts|, 1
  {
    if acts == [] then s else Next(After(s, maxHits, Front(acts)), maxHits, Last(acts))
  }

  // ---- Counting ----------------------------------------------------------------------

  predicate Fires(c: Call) {
    c.Reached? || c == Done(true)
  }

  /** The calls that fire. */
  function Fired(calls: seq<Call>): nat {
    if calls == [] then 0 else Fired(Front(calls)) + if Fires(Last(calls)) then 1 else 0
  }

  /** The calls whose increment is still to be taken back. */
  function Overs(calls: seq<Call>): nat {
    if calls == [] then 0 else Overs(Front(calls)) + if Last(calls).Over? then 1 else 0
  }

  /** The calls that have counted. */
  function Counted(calls: seq<Call>): nat {
    if calls == [] then 0 else Counted(Front(calls)) + if Last(calls).Arrived? then 0 else 1
  }

  function One(b: bool): int {
    if b then 1 else 0
  }

  lemma {:induction false} CountsAfter(calls: seq<Call>, i: nat, c: Call)
    requires i < |calls|
    ensures Fired(calls[i := c]) == Fired(calls) + One(Fires(c)) - One(Fires(calls[i]))
    ensures Overs(calls[i := c]) == Overs(calls) + One(c.Over?) - One(calls[i].Over?)
    ensures Counted(calls[i := c]) == Counted(calls) + One(!c.Arrived?) - One(!calls[i].Arrived?)
  {
    var r := calls[i := c];
    if i == |calls| - 1 {
      assert Front(r) == Front(calls) && Last(r) == c;
    } else {
      assert Front(r) == Front(calls)[i := c] && Last(r) == Last(calls);
      CountsAfter(Front(calls), i, c);
    }
  }

  lemma {:induction false} CountsOfNew(calls: seq<Call>)
    ensures Fired(calls + [Arrived]) == Fired(calls) && Overs(calls + [Arrived]) == Overs(calls)
    ensures Counted(calls + [Arrived]) == Counted(calls)
  {
    FrontLastSnoc(calls, Arrived);
  }

  /** A counted call is over the limit or skipped only once the limit was used up. */
  predicate Inv(s: State, maxHits: nat, start: nat)
    requires start <= maxHits
  {
    && s.hits == start + Fired(s.calls) + Overs(s.calls)
    && start + Fired(s.calls) <= maxHits && Fired(s.calls) <= Counted(s.calls)
    && (Fired(s.calls) < Counted(s.calls) ==> start + Fired(s.calls) == maxHits)
    && Fired(s.calls) + Overs(s.calls) <= Counted(s.calls)
    && s.asked == (if start < maxHits && start + Fired(s.calls) == maxHits then 1 else 0)
  }

  lemma {:induction false} IncrementKeeps(s: State, maxHits: nat, start: nat, i: nat)
    requires start <= maxHits && maxHits > 0 && Inv(s, maxHits, start) && Enabled(s, Increment(i))
    ensures Inv(Next(s, maxHits, Increment(i)), maxHits, start)
  {
    CountsAfter(s.calls, i, Over);
    CountsAfter(s.calls, i, Reached);
    CountsAfter(s.calls, i, Done(true));
  }

  lemma {:induction false} StepKeeps(s: State, maxHits: nat, start: nat, a: Action)
    requires start <= maxHits && maxHits > 0 && Inv(s, maxHits, start) && Enabled(s, a)
    ensures Inv(Next(s, maxHits, a), maxHits, start)
  {
    match a
    case Arrive => CountsOfNew(s.calls);
    case Increment(i) => IncrementKeeps(s, maxHits, start, i);
    case TakeBack(i) => CountsAfter(s.calls, i, Done(false));
    case Disable(i) => CountsAfter(s.calls, i, Done(true));
  }

  lemma {:induction false} RunKeeps(maxHits: nat, start: nat, acts: seq<Action>)
    requires start <= maxHits && maxHits > 0 && Run(Start(start), maxHits, acts)
    ensures Inv(After(Start(start), maxHits, acts), maxHits, start)
    decreases |acts|
  {
    if acts != [] {
      RunKeeps(maxHits, start, Front(acts));
      StepKeeps(After(Start(start), maxHits, Front(acts)), maxHits, start, Last(acts));
    }
  }

  // ---- Main results ------------------------------------------------------------------

  function Min(a: int, b: int): int {
    if a <= b then a else b
  }

  /** At any moment of any interleaving, exactly as many calls have fired as have counted and
      the limit allows, and disabling was asked for once if they used up the limit. */
  lemma {:induction false} ExactlyTheLimitFires(maxHits: nat, start: nat, acts: seq<Action>)
    requires start <= maxHits && maxHits > 0 && Run(Start(start), maxHits, acts)
    ensures var s := After(Start(start), maxHits, acts);
            && Fired(s.calls) == Min(Counted(s.calls), maxHits - start)
            && s.asked == (if start < maxHits && Counted(s.calls) >= maxHits - start then 1 else 0)
            && s.hits == start + Fired(s.calls) + Overs(s.calls)
  {
    RunKeeps(maxHits, start, acts);
  }

  predicate AllDone(calls: seq<Call>) {
    calls == [] || (AllDone(Front(calls)) && Last(calls).Done?)
  }

  lemma {:induction false} AllDoneCounts(calls: seq<Call>)
    requires AllDone(calls)
    ensures Overs(calls) == 0 && Counted(calls) == |calls|
  {
    if calls != [] {
      AllDoneCounts(Front(calls));
    }
  }

  function ReachedCount(calls: seq<Call>): nat {
    if calls == [] then 0 else ReachedCount(Front(calls)) + if Last(calls).Reached? then 1 else 0
  }

  lemma {:induction false} ReachedSome(calls: seq<Call>, i: nat)
    requires i < |calls| && calls[i].Reached?
    ensures ReachedCount(calls) >= 1
  {
    if i < |calls| - 1 {
      ReachedSome(Front(calls), i);
    }
  }

  lemma {:induction false} ReachedAfter(calls: seq<Call>, i: nat, c: Call)
    requires i < |calls|
    ensures ReachedCount(calls[i := c]) == ReachedCount(calls) + One(c.Reached?) - One(calls[i].Reached?)
  {
    var r := calls[i := c];
    if i == |calls| - 1 {
      assert Front(r) == Front(calls) && Last(r) == c;
    } else {
      assert Front(r) == Front(calls)[i := c] && Last(r) == Last(calls);
      ReachedAfter(Front(calls), i, c);
    }
  }

  /** Between asking and disabling there is one call. */
  predicate Switch(s: State) {
    ReachedCount(s.calls) == if s.enabled then s.asked else s.asked - 1
  }

  lemma {:induction false} SwitchKeeps(s: State, maxHits: nat, start: nat, a: Action)
    requires start <= maxHits && maxHits > 0 && Inv(s, maxHits, start) && Switch(s) && Enabled(s, a)
    requires Inv(Next(s, maxHits, a), maxHits, start)
    ensures Switch(Next(s, maxHits, a))
  {
    match a
    case Arrive => FrontLastSnoc(s.calls, Arrived);
    case Increment(i) =>
      ReachedAfter(s.calls, i, Over);
      ReachedAfter(s.calls, i, Reached);
      ReachedAfter(s.calls, i, Done(true));
    case TakeBack(i) => ReachedAfter(s.calls, i, Done(false));
    case Disable(i) =>
      ReachedAfter(s.calls, i, Done(true));
      ReachedSome(s.calls, i);
  }

  lemma {:induction false} RunSwitches(maxHits: nat, start: nat, acts: seq<Action>)
    requires start <= maxHits && maxHits > 0 && Run(Start(start), maxHits, acts)
    ensures Switch(After(Start(start), maxHits, acts))
    decreases |acts|
  {
    if acts != [] {
      RunSwitches(maxHits, start, Front(acts));
      RunKeeps(maxHits, start, Front(acts));
      RunKeeps(maxHits, start, acts);
      SwitchKeeps(After(Start(start), maxHits, Front(acts)), maxHits, start, Last(acts));
    }
  }

  lemma {:induction false} NoneReached(calls: seq<Call>)
    requires AllDone(calls)
    ensures ReachedCount(calls) == 0
  {
    if calls != [] {
      NoneReached(Front(calls));
    }
  }

  /** Once every call is done: as many fired as there were calls or the limit allowed, the
      counter stands at exactly that, and the rule is disabled if and only if the limit was
      reached just now. */
  lemma {:induction false} SettlesAtTheLimit(maxHits: nat, start: nat, acts: seq<Action>)
    requires start <= maxHits && maxHits > 0 && Run(Start(start), maxHits, acts)
    requires AllDone(After(Start(start), maxHits, acts).calls)
    ensures var s := After(Start(start), maxHits, acts);
            && Fired(s.calls) == Min(|s.calls|, maxHits - start)
            && s.hits == Min(start + |s.calls|, maxHits)
            && (s.enabled <==> start == maxHits || start + |s.calls| < maxHits)
  {
    var s := After(Start(start), maxHits, acts);
    RunKeeps(maxHits, start, acts);
    RunSwitches(maxHits, start, acts);
    AllDoneCounts(s.calls);
    NoneReached(s.calls);
  }

  // ---- Without a limit ---------------------------------------------------------------

  /** Every call has fired or has not counted yet. */
  predicate AllFire(s: State, start: nat) {
    && (forall k :: 0 <= k < |s.calls| ==> s.calls[k].Arrived? || s.calls[k] == Done(true))
    && s.hits == start + Counted(s.calls) && Fired(s.calls) == Counted(s.calls) && s.enabled && s.asked == 0
  }

  lemma {:induction false} UnlimitedStep(s: State, start: nat, a: Action)
    requires AllFire(s, start) && Enabled(s, a)
    ensures AllFire(Next(s, 0, a), start)
  {
    match a
    case Arrive => CountsOfNew(s.calls);
    case Increment(i) => CountsAfter(s.calls, i, Done(true));
    case TakeBack(i) => assert false;
    case Disable(i) => assert false;
  }

  /** Without a limit, every call that has counted has fired, each counted once, and the rule
      stays enabled. */
  lemma {:induction false} NoLimitAllFire(start: nat, acts: seq<Action>)
    requires Run(Start(start), 0, acts)
    ensures AllFire(After(Start(start), 0, acts), start)
    decreases |acts|
  {
    if acts != [] {
      NoLimitAllFire(start, Front(acts));
      UnlimitedStep(After(Start(start), 0, Front(acts)), start, Last(acts));
    }
  }
}
