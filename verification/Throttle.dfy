/** The token bucket that paces throttled bodies, in real arithmetic with a monotone clock. */
module Throttle {
  import opened Options
  import TB = TokenBucket

  /** The largest read served at once, and the burst of a fresh bucket. */
  const THROTTLE_CHUNK := 32768

  datatype Limit = Limit(rate: real, burst: real, start: real)

  /** One call of reserve: when, for how many bytes, and when its caller may go on. */
  datatype Reservation = Reservation(at: real, n: nat, release: real)

  /** Why a read ends with an error. */
  datatype Fault = FromBelow | Cancelled

  /** When the bucket was last touched before reservation i; it was filled at the start. */
  function Touched(p: Limit, log: seq<Reservation>, i: nat): real
    requires i <= |log|
  {
    if i == 0 then p.start else log[i - 1].at
  }

  /** What the rate earns in a span of time. */
  function Earned(rate: real, from: real, to: real): real {
    rate * (to - from)
  }

  /** The tokens left by the first i reservations; less than none while callers wait. */
  function Tokens(p: Limit, log: seq<Reservation>, i: nat): real
    requires i <= |log|
  {
    if i == 0 then p.burst
    else
      TB.Min(p.burst, Tokens(p, log, i - 1) + Earned(p.rate, Touched(p, log, i - 1), log[i - 1].at))
      - log[i - 1].n as real
  }

  /** The time the rate takes to earn back a debt of tokens. */
  function Delay(rate: real, tokens: real): real
    requires rate > 0.0
  {
    if tokens >= 0.0 then 0.0 else -tokens / rate
  }

  /** The clock does not run backwards, and the caller waits for its tokens. */
  predicate ServedAt(p: Limit, log: seq<Reservation>, i: nat)
    requires p.rate > 0.0 && i < |log|
  {
    Touched(p, log, i) <= log[i].at && log[i].release == log[i].at + Delay(p.rate, Tokens(p, log, i + 1))
  }

  ghost predicate Served(p: Limit, log: seq<Reservation>) {
    p.rate > 0.0 && forall i :: 0 <= i < |log| ==> ServedAt(p, log, i)
  }

  /** The bytes of reservations j to k - 1. */
  function Bytes(log: seq<Reservation>, j: nat, k: nat): nat
    requires j <= k <= |log|
  {
    if j == k then 0 else Bytes(log, j, k - 1) + log[k - 1].n
  }

  // ---- Arithmetic --------------------------------------------------------------------

  lemma {:induction false} Distribute(r: real, a: real, b: real)
    ensures r * (a - b) == r * a - r * b && r * (a + b) == r * a + r * b
  {
  }

  lemma {:induction false} Ordering(r: real, a: real, b: real)
    requires r > 0.0
    ensures r * a <= r * b <==> a <= b
  {
    assert r * (b - a) >= 0.0 <==> b - a >= 0.0;
  }

  lemma {:induction false} Divided(r: real, t: real)
    requires r > 0.0
    ensures r * (t / r) == t
  {
  }

  lemma {:induction false} EarnedStep(r: real, t: real, burst: real, a: real, b: real, x: real, y: real)
    requires x == r * a && y == r * b
    ensures TB.Min(burst, t + Earned(r, b, a)) == TB.Min(burst, t + (x - y))
  {
  }

  lemma {:induction false} EarnedOrder(r: real, a: real, b: real, x: real, y: real)
    requires r > 0.0 && x == r * a && y == r * b
    ensures x <= y <==> a <= b
  {
    Ordering(r, a, b);
  }

  lemma {:induction false} ReleaseEarned(r: real, at: real, tokens: real, release: real, x: real)
    requires r > 0.0 && release == at + Delay(r, tokens) && x == r * at
    ensures r * release == x + if tokens >= 0.0 then 0.0 else -tokens
  {
    if tokens < 0.0 {
      Divided(r, -tokens);
      Distribute(r, at, -tokens / r);
    }
  }

  // ---- The same in bytes -------------------------------------------------------------

  predicate ScaledAt(p: Limit, log: seq<Reservation>, ds: seq<TB.Draw>, i: nat)
    requires |ds| == |log| && i < |log|
  {
    ds[i].x == p.rate * log[i].at && ds[i].n == log[i].n as real
  }

  /** The log with times told by what the rate has earned; so is the start. */
  ghost predicate Scaled(p: Limit, log: seq<Reservation>, ds: seq<TB.Draw>, start: real) {
    && |ds| == |log| && start == p.rate * p.start
    && forall i :: 0 <= i < |log| ==> ScaledAt(p, log, ds, i)
  }

  lemma {:induction false} Scale(p: Limit, log: seq<Reservation>) returns (ds: seq<TB.Draw>, start: real)
    ensures Scaled(p, log, ds, start)
  {
    start := p.rate * p.start;
    ds := seq(|log|, i requires 0 <= i < |log| => TB.Draw(p.rate * log[i].at, log[i].n as real));
  }

  lemma {:induction false} TouchedInBytes(p: Limit, log: seq<Reservation>, ds: seq<TB.Draw>, start: real, i: nat)
    requires Scaled(p, log, ds, start) && i < |log|
    ensures TB.Prev(start, ds, i) == p.rate * Touched(p, log, i)
  {
    if i > 0 { assert ScaledAt(p, log, ds, i - 1); }
  }

  /** One step of Tokens, with its parts named. */
  lemma {:induction false} TokensStep(p: Limit, log: seq<Reservation>, i: nat, t: real, at: real, touched: real, n: nat)
    requires 0 < i <= |log| && t == Tokens(p, log, i - 1) && touched == Touched(p, log, i - 1)
    requires at == log[i - 1].at && n == log[i - 1].n
    ensures Tokens(p, log, i) == TB.Min(p.burst, t + Earned(p.rate, touched, at)) - n as real
  {
  }

  lemma {:induction false} TokensInBytes(p: Limit, log: seq<Reservation>, ds: seq<TB.Draw>, start: real, i: nat)
    requires Scaled(p, log, ds, start) && i <= |log|
    ensures Tokens(p, log, i) == TB.Before(p.burst, start, ds, i)
  {
    if i > 0 {
      TokensInBytes(p, log, ds, start, i - 1);
      assert ScaledAt(p, log, ds, i - 1);
      TouchedInBytes(p, log, ds, start, i - 1);
      var t, at, touched := Tokens(p, log, i - 1), log[i - 1].at, Touched(p, log, i - 1);
      TokensStep(p, log, i, t, at, touched, log[i - 1].n);
      EarnedStep(p.rate, t, p.burst, at, touched, ds[i - 1].x, TB.Prev(start, ds, i - 1));
    }
  }

  lemma {:induction false} ReleaseAt(p: Limit, log: seq<Reservation>, i: nat, tokens: real, x: real)
    requires Served(p, log) && i < |log| && tokens == Tokens(p, log, i + 1) && x == p.rate * log[i].at
    ensures p.rate * log[i].release == x + if tokens >= 0.0 then 0.0 else -tokens
  {
    assert ServedAt(p, log, i);
    ReleaseEarned(p.rate, log[i].at, tokens, log[i].release, x);
  }

  lemma {:induction false} ReleaseInBytes(p: Limit, log: seq<Reservation>, ds: seq<TB.Draw>, start: real, i: nat)
    requires Served(p, log) && Scaled(p, log, ds, start) && i < |log|
    ensures p.rate * log[i].release == TB.Release(p.burst, start, ds, i)
  {
    TokensInBytes(p, log, ds, start, i + 1);
    assert ScaledAt(p, log, ds, i);
    ReleaseAt(p, log, i, TB.Tokens(p.burst, start, ds, i), ds[i].x);
  }

  lemma {:induction false} BytesInBytes(p: Limit, log: seq<Reservation>, ds: seq<TB.Draw>, start: real, j: nat, k: nat)
    requires Scaled(p, log, ds, start) && j <= k <= |log|
    ensures Bytes(log, j, k) as real == TB.Sum(ds, j, k)
  {
    if j < k {
      BytesInBytes(p, log, ds, start, j, k - 1);
      assert ScaledAt(p, log, ds, k - 1);
    }
  }

  lemma {:induction false} OrderedInBytes(p: Limit, log: seq<Reservation>, ds: seq<TB.Draw>, start: real)
    requires Served(p, log) && Scaled(p, log, ds, start)
    ensures TB.Ordered(start, ds)
  {
    forall i | 0 <= i < |ds|
      ensures TB.Prev(start, ds, i) <= ds[i].x
    {
      assert ServedAt(p, log, i) && ScaledAt(p, log, ds, i);
      TouchedInBytes(p, log, ds, start, i);
      EarnedOrder(p.rate, Touched(p, log, i), log[i].at, TB.Prev(start, ds, i), ds[i].x);
    }
  }

  // ---- Main results ------------------------------------------------------------------

  /** The bytes released between two release times, both ends included, stay within the burst
      and what the rate earns in between. */
  predicate Within(p: Limit, log: seq<Reservation>, j: nat, k: nat)
    requires j <= k < |log|
  {
    Bytes(log, j, k + 1) as real <= p.burst + p.rate * (log[k].release - log[j].release)
  }

  lemma {:induction false} WithinArithmetic(r: real, sum: real, burst: real, a: real, b: real, x: real, y: real)
    requires x == r * a && y == r * b && sum <= burst + (x - y)
    ensures sum <= burst + r * (a - b)
  {
  }

  lemma {:induction false} SumInWindow(p: Limit, log: seq<Reservation>, ds: seq<TB.Draw>, start: real, j: nat, k: nat)
    requires Scaled(p, log, ds, start) && j <= k < |log| && log[j].n as real <= p.burst
    ensures Bytes(log, j, k + 1) as real
         <= p.burst + (TB.Release(p.burst, start, ds, k) - TB.Release(p.burst, start, ds, j))
  {
    assert ScaledAt(p, log, ds, j);
    TB.WindowBound(p.burst, start, ds, j, k);
    BytesInBytes(p, log, ds, start, j, k + 1);
  }

  /** However many bodies share the bucket. */
  lemma {:induction false} WindowBound(p: Limit, log: seq<Reservation>, j: nat, k: nat)
    requires Served(p, log) && j <= k < |log| && log[j].n as real <= p.burst
    ensures Within(p, log, j, k)
  {
    var ds, start := Scale(p, log);
    SumInWindow(p, log, ds, start, j, k);
    ReleaseInBytes(p, log, ds, start, j);
    ReleaseInBytes(p, log, ds, start, k);
    WithinArithmetic(p.rate, Bytes(log, j, k + 1) as real, p.burst, log[k].release, log[j].release,
                     TB.Release(p.burst, start, ds, k), TB.Release(p.burst, start, ds, j));
  }

  lemma {:induction false} OneReadWithin(p: Limit, log: seq<Reservation>, j: nat)
    requires j < |log|
    ensures Within(p, log, j, j) <==> log[j].n as real <= p.burst
  {
    assert Bytes(log, j, j) == 0;
    Distribute(p.rate, log[j].release, log[j].release);
  }

  /** The bound holds of all windows if and only if no single read exceeds the burst. */
  lemma {:induction false} WindowBoundIff(p: Limit, log: seq<Reservation>)
    requires Served(p, log)
    ensures (forall j, k :: 0 <= j <= k < |log| ==> Within(p, log, j, k))
       <==> (forall j :: 0 <= j < |log| ==> log[j].n as real <= p.burst)
  {
    if forall j, k :: 0 <= j <= k < |log| ==> Within(p, log, j, k) {
      forall j | 0 <= j < |log| ensures log[j].n as real <= p.burst {
        assert Within(p, log, j, j);
        OneReadWithin(p, log, j);
      }
    } else {
      var j, k :| 0 <= j <= k < |log| && !Within(p, log, j, k);
      if log[j].n as real <= p.burst {
        WindowBound(p, log, j, k);
      }
    }
  }

  /** No read was larger than a chunk. */
  ghost predicate Capped(log: seq<Reservation>) {
    forall i :: 0 <= i < |log| ==> log[i].n <= 32 * 1024
  }

  /** With a burst of a chunk or more, the cap of the readers makes the bound hold of all
      windows. */
  lemma {:induction false} CappedWithin(p: Limit, log: seq<Reservation>)
    requires Served(p, log) && Capped(log) && p.burst >= 32768.0
    ensures forall j, k :: 0 <= j <= k < |log| ==> Within(p, log, j, k)
  {
    forall j, k | 0 <= j <= k < |log|
      ensures Within(p, log, j, k)
    {
      WindowBound(p, log, j, k);
    }
  }

  lemma {:induction false} NextRelease(p: Limit, log: seq<Reservation>, k: nat)
    requires Served(p, log) && 0 < k < |log|
    ensures log[k - 1].release <= log[k].release
  {
    var ds, start := Scale(p, log);
    var x, y := TB.Release(p.burst, start, ds, k - 1), TB.Release(p.burst, start, ds, k);
    assert x <= y by {
      OrderedInBytes(p, log, ds, start);
      assert ScaledAt(p, log, ds, k);
      TB.ReleasesInOrder(p.burst, start, ds, k);
    }
    ReleaseInBytes(p, log, ds, start, k - 1);
    ReleaseInBytes(p, log, ds, start, k);
    EarnedOrder(p.rate, log[k - 1].release, log[k].release, x, y);
  }

  /** Release times never go backwards. */
  lemma {:induction false} ReleasesInOrder(p: Limit, log: seq<Reservation>, j: nat, k: nat)
    requires Served(p, log) && j <= k < |log|
    ensures log[j].release <= log[k].release
    decreases k
  {
    if j < k {
      ReleasesInOrder(p, log, j, k - 1);
      NextRelease(p, log, k);
    }
  }

  /** The window from reservation j to k, by arrival times, stays within burst and rate. */
  predicate Fits(p: Limit, log: seq<Reservation>, j: nat, k: nat)
    requires j <= k < |log|
  {
    Bytes(log, j, k + 1) as real <= p.burst + p.rate * (log[k].at - log[j].at)
  }

  lemma {:induction false} FitsArithmetic(r: real, sum: real, burst: real, a: real, b: real, x: real, y: real)
    requires x == r * a && y == r * b
    ensures sum <= burst + r * (a - b) <==> burst + (x - y) - sum >= 0.0
  {
  }

  lemma {:induction false} FitsInBytes(p: Limit, log: seq<Reservation>, ds: seq<TB.Draw>, start: real, j: nat, k: nat)
    requires Scaled(p, log, ds, start) && j <= k < |log|
    ensures Fits(p, log, j, k) <==> TB.Allowance(p.burst, ds, j, k) >= 0.0
  {
    BytesInBytes(p, log, ds, start, j, k + 1);
    assert ScaledAt(p, log, ds, j) && ScaledAt(p, log, ds, k);
    FitsArithmetic(p.rate, Bytes(log, j, k + 1) as real, p.burst, log[k].at, log[j].at, ds[k].x, ds[j].x);
  }

  lemma {:induction false} ImmediateInBytes(p: Limit, log: seq<Reservation>, ds: seq<TB.Draw>, start: real, k: nat)
    requires Served(p, log) && Scaled(p, log, ds, start) && k < |log|
    ensures log[k].release == log[k].at <==> TB.Tokens(p.burst, start, ds, k) >= 0.0
  {
    ReleaseInBytes(p, log, ds, start, k);
    assert ScaledAt(p, log, ds, k);
    EarnedOrder(p.rate, log[k].release, log[k].at, TB.Release(p.burst, start, ds, k), ds[k].x);
    EarnedOrder(p.rate, log[k].at, log[k].release, ds[k].x, TB.Release(p.burst, start, ds, k));
  }

  /** Nobody waits longer than the limit asks for: a read goes through at once if and only if
      every window that ends with it fits. */
  lemma {:induction false} ImmediateIff(p: Limit, log: seq<Reservation>, k: nat)
    requires Served(p, log) && k < |log|
    ensures log[k].release == log[k].at <==> forall j :: 0 <= j <= k ==> Fits(p, log, j, k)
  {
    var ds, start := Scale(p, log);
    ImmediateInBytes(p, log, ds, start, k);
    forall j | 0 <= j <= k
      ensures Fits(p, log, j, k) <==> TB.Allowance(p.burst, ds, j, k) >= 0.0
      ensures TB.Tokens(p.burst, start, ds, k) <= TB.Allowance(p.burst, ds, j, k)
    {
      FitsInBytes(p, log, ds, start, j, k);
      TB.TokensAreTight(p.burst, start, ds, j, k);
    }
    OrderedInBytes(p, log, ds, start);
    var j := TB.TightestWindow(p.burst, start, ds, k);
  }

  /** What is released at the end of a window is within the burst and what the rate has earned
      since its first read came. */
  predicate Covered(p: Limit, log: seq<Reservation>, j: nat, k: nat)
    requires j <= k < |log|
  {
    Bytes(log, j, k + 1) as real <= p.burst + p.rate * (log[k].release - log[j].at)
  }

  /** And it is all of that. */
  predicate UsedUp(p: Limit, log: seq<Reservation>, j: nat, k: nat)
    requires j <= k < |log|
  {
    Bytes(log, j, k + 1) as real == p.burst + p.rate * (log[k].release - log[j].at)
  }

  lemma {:induction false} CoveredArithmetic(r: real, sum: real, burst: real, a: real, b: real, x: real, y: real)
    requires x == r * a && y == r * b
    ensures sum <= burst + r * (a - b) <==> sum <= burst + (x - y)
    ensures sum == burst + r * (a - b) <==> sum == burst + (x - y)
  {
  }

  lemma {:induction false} CoveredInBytes(p: Limit, log: seq<Reservation>, ds: seq<TB.Draw>, start: real, j: nat,
        k: nat)
    requires Served(p, log) && Scaled(p, log, ds, start) && j <= k < |log|
    ensures var t, a := TB.Tokens(p.burst, start, ds, k), TB.Allowance(p.burst, ds, j, k);
            && (Covered(p, log, j, k) <==> a >= if t >= 0.0 then 0.0 else t)
            && (UsedUp(p, log, j, k) <==> a == if t >= 0.0 then 0.0 else t)
  {
    BytesInBytes(p, log, ds, start, j, k + 1);
    assert ScaledAt(p, log, ds, j) && ScaledAt(p, log, ds, k);
    ReleaseInBytes(p, log, ds, start, k);
    CoveredArithmetic(p.rate, Bytes(log, j, k + 1) as real, p.burst, log[k].release, log[j].at,
                      TB.Release(p.burst, start, ds, k), ds[j].x);
  }

  /** It goes on at once, or when some window is just used up. */
  ghost predicate ImmediateOrTight(p: Limit, log: seq<Reservation>, k: nat)
    requires k < |log|
  {
    log[k].release == log[k].at || (log[k].release > log[k].at && exists j :: 0 <= j <= k && UsedUp(p, log, j, k))
  }

  lemma {:induction false} NotBefore(p: Limit, log: seq<Reservation>, ds: seq<TB.Draw>, start: real, k: nat)
    requires Served(p, log) && Scaled(p, log, ds, start) && k < |log|
    ensures log[k].at <= log[k].release
  {
    ReleaseInBytes(p, log, ds, start, k);
    assert ScaledAt(p, log, ds, k);
    EarnedOrder(p.rate, log[k].at, log[k].release, ds[k].x, TB.Release(p.burst, start, ds, k));
  }

  /** A read goes on at the first moment at which every window that ends with it is covered. */
  lemma {:induction false} ReleasedWhenCovered(p: Limit, log: seq<Reservation>, k: nat)
    requires Served(p, log) && k < |log|
    ensures ImmediateOrTight(p, log, k) && forall j :: 0 <= j <= k ==> Covered(p, log, j, k)
  {
    var ds, start := Scale(p, log);
    forall j | 0 <= j <= k
      ensures Covered(p, log, j, k)
    {
      CoveredInBytes(p, log, ds, start, j, k);
      TB.TokensAreTight(p.burst, start, ds, j, k);
    }
    OrderedInBytes(p, log, ds, start);
    NotBefore(p, log, ds, start, k);
    ImmediateInBytes(p, log, ds, start, k);
    var j := TB.TightestWindow(p.burst, start, ds, k);
    CoveredInBytes(p, log, ds, start, j, k);
  }

  // ---- The bucket --------------------------------------------------------------------

  lemma {:induction false} TokensOfPrefix(p: Limit, log: seq<Reservation>, x: Reservation, i: nat)
    requires i <= |log|
    ensures Tokens(p, log + [x], i) == Tokens(p, log, i) && Touched(p, log + [x], i) == Touched(p, log, i)
  {
    if i > 0 {
      TokensOfPrefix(p, log, x, i - 1);
      var t, touched := Tokens(p, log, i - 1), Touched(p, log, i - 1);
      TokensStep(p, log, i, t, log[i - 1].at, touched, log[i - 1].n);
      TokensStep(p, log + [x], i, t, log[i - 1].at, touched, log[i - 1].n);
    }
  }

  lemma {:induction false} ServedOneMore(p: Limit, log: seq<Reservation>, x: Reservation, tokens: real)
    requires Served(p, log) && Touched(p, log, |log|) <= x.at && x.release == x.at + Delay(p.rate, tokens)
    requires tokens == Tokens(p, log + [x], |log| + 1)
    ensures Served(p, log + [x])
  {
    forall i | 0 <= i <= |log|
      ensures ServedAt(p, log + [x], i)
    {
      TokensOfPrefix(p, log, x, i);
      if i < |log| {
        assert ServedAt(p, log, i);
        TokensOfPrefix(p, log, x, i + 1);
      }
    }
  }

  /** What reserve does to the tokens: t before, earned since, tokens after. */
  lemma {:induction false} Reserved(p: Limit, log: seq<Reservation>, x: Reservation, t: real, earned: real,
        tokens: real)
    requires Served(p, log) && t == Tokens(p, log, |log|) && Touched(p, log, |log|) <= x.at
    requires earned == Earned(p.rate, Touched(p, log, |log|), x.at)
    requires tokens == TB.Min(p.burst, t + earned) - x.n as real
    requires x.release == x.at + Delay(p.rate, tokens)
    ensures Served(p, log + [x]) && tokens == Tokens(p, log + [x], |log| + 1)
  {
    TokensOfPrefix(p, log, x, |log|);
    TokensStep(p, log + [x], |log| + 1, t, x.at, Touched(p, log, |log|), x.n);
    ServedOneMore(p, log, x, tokens);
  }

  class Bucket {
    const rate: real
    const burst: real
    var tokens: real
    var last: real
    ghost const start: real
    ghost var log: seq<Reservation>

    ghost function Limits(): Limit {
      Limit(rate, burst, start)
    }

    /** The fields are what the log of reservations makes them. */
    ghost predicate Valid() reads this {
      && Served(Limits(), log)
      && tokens == Tokens(Limits(), log, |log|) && last == Touched(Limits(), log, |log|)
    }

    constructor (rate: real, burst: real, now: real)
      requires rate > 0.0
      ensures Valid() && log == [] && Limits() == Limit(rate, burst, now)
    {
      this.rate, this.burst, this.tokens, this.last := rate, burst, burst, now;
      this.start, this.log := now, [];
    }

    /** Pays for n bytes, on credit if need be; the wait is what the rate takes to earn the
        debt back. */
    method Reserve(now: real, n: nat) returns (wait: real)
      requires Valid() && now >= last
      modifies this
      ensures Valid() && log == old(log) + [Reservation(now, n, now + wait)]
    {
      ghost var t := tokens;
      var earned := Earned(rate, last, now);
      tokens := TB.Min(burst, tokens + earned) - n as real;
      last := now;
      wait := Delay(rate, tokens);
      ghost var x := Reservation(now, n, now + wait);
      Reserved(Limits(), log, x, t, earned, tokens);
      log := log + [x];
    }

    /** A throttled read of a buffer of the given size. The reader below has so many bytes to
        give and may report a fault with them; the wait for tokens ends early, and with an
        error, when the context is done before. What was read is paid for all the same. */
    method Read(size: nat, available: nat, fault: Option<Fault>, done: Option<real>, now: real)
      returns (n: nat, at: real, err: Option<Fault>, ghost release: real)
      requires Valid() && now >= last
      modifies this
      ensures Valid()
      ensures n <= 32 * 1024 && n <= size && n <= available
      ensures n == 32 * 1024 || n == size || n == available
      ensures n == 0 ==> log == old(log) && release == now
      ensures n > 0 ==> log == old(log) + [Reservation(now, n, release)]
      ensures if done.Some? && now < release && done.value < release
              then now <= at < release && err == Some(Cancelled)
              else at == release && err == fault
      ensures old(Capped(log)) ==> Capped(log)
      ensures old(Capped(log)) && burst >= 32768.0 ==>
                forall j, k :: 0 <= j <= k < |log| ==> Within(Limits(), log, j, k)
    {
      var m := if size > THROTTLE_CHUNK then THROTTLE_CHUNK else size;
      n := if available > m then m else available;
      at, err, release := now, fault, now;
      if n > 0 {
        var d := Reserve(now, n);
        release := now + d;
        at := now + d;
        if d > 0.0 && done.Some? && done.value < at {
          at, err := if done.value < now then now else done.value, Some(Cancelled);
        }
      }
      if old(Capped(log)) && burst >= 32768.0 { CappedWithin(Limits(), log); }
    }
  }
}
