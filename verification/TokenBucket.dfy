/** The token bucket, in exact arithmetic.  The clock is a parameter of each call, in seconds. */
module TokenBuckets {

  datatype Bucket = Bucket(capacity: real, rate: real, tokens: real, lastTime: real, allowed: int, rejected: int)

  function Min(a: real, b: real): real {
    if a < b then a else b
  }

  /** Conversion to an integer, towards 0. */
  function Trunc(x: real): int {
    if x >= 0.0 then x.Floor else -(-x).Floor
  }

  /** The tokens added in a time. */
  function Earned(rate: real, elapsed: real): real {
    elapsed * rate
  }

  function Level(capacity: real, rate: real, tokens: real, elapsed: real): real {
    Min(capacity, tokens + Earned(rate, elapsed))
  }

  function Portion(n: int, tokens: real): int {
    Trunc(Min(n as real, tokens))
  }

  function Refill(b: Bucket, now: real): Bucket {
    b.(tokens := Level(b.capacity, b.rate, b.tokens, now - b.lastTime), lastTime := now)
  }

  function Allowing(b: Bucket, now: real, cost: real): (Bucket, bool) {
    var r := Refill(b, now);
    if r.tokens >= cost then (r.(tokens := r.tokens - cost, allowed := r.allowed + 1), true)
    else (r.(rejected := r.rejected + 1), false)
  }

  function AllowingN(b: Bucket, now: real, n: int): (Bucket, int) {
    var r := Refill(b, now);
    var given := Portion(n, r.tokens);
    (r.(tokens := r.tokens - given as real, allowed := r.allowed + given, rejected := r.rejected + (n - given)), given)
  }

  class TokenBucket {
    const capacity: real
    const rate: real
    var tokens: real
    var lastTime: real
    var allowed: int
    var rejected: int

    function View(): Bucket
      reads this
    {
      Bucket(capacity, rate, tokens, lastTime, allowed, rejected)
    }

    constructor (capacity: real, rate: real, now: real)
      ensures View() == Bucket(capacity, rate, capacity, now, 0, 0)
    {
      this.capacity := capacity;
      this.rate := rate;
      tokens := capacity;
      lastTime := now;
      allowed := 0;
      rejected := 0;
    }

    method Allow(now: real, cost: real) returns (ok: bool)
      modifies this
      ensures (View(), ok) == Allowing(old(View()), now, cost)
    {
      var elapsed := now - lastTime;
      lastTime := now;
      tokens := Level(capacity, rate, tokens, elapsed);
      if tokens >= cost {
        tokens := tokens - cost;
        allowed := allowed + 1;
        return true;
      }
      rejected := rejected + 1;
      return false;
    }

    method AllowN(now: real, n: int) returns (given: int)
      modifies this
      ensures given == AllowingN(old(View()), now, n).1
      ensures View() == AllowingN(old(View()), now, n).0
    {
      var elapsed := now - lastTime;
      lastTime := now;
      tokens := Level(capacity, rate, tokens, elapsed);
      given := Portion(n, tokens);
      tokens := tokens - given as real;
      allowed := allowed + given;
      rejected := rejected + (n - given);
    }
  }

  // ---------------------------------------------------------------- runs

  datatype Call = CallAllow(at: real, cost: real) | CallAllowN(at: real, n: int)

  predicate NonNegative(c: Call) {
    match c
    case CallAllow(_, cost) => cost >= 0.0
    case CallAllowN(_, n) => n >= 0
  }

  function After(b: Bucket, c: Call): Bucket {
    match c
    case CallAllow(at, cost) => Allowing(b, at, cost).0
    case CallAllowN(at, n) => AllowingN(b, at, n).0
  }

  /** The cost that a call is granted. */
  function Granted(b: Bucket, c: Call): real {
    match c
    case CallAllow(at, cost) => if Allowing(b, at, cost).1 then cost else 0.0
    case CallAllowN(at, n) => AllowingN(b, at, n).1 as real
  }

  function Run(b: Bucket, calls: seq<Call>): Bucket {
    if calls == [] then b else After(Run(b, calls[..|calls| - 1]), calls[|calls| - 1])
  }

  /** The total cost granted between two times, both included. */
  function GrantedBetween(b: Bucket, calls: seq<Call>, t1: real, t2: real): real {
    if calls == [] then 0.0
    else
      var n := |calls| - 1;
      var last := calls[n];
      GrantedBetween(b, calls[..n], t1, t2) + if t1 <= last.at <= t2 then Granted(Run(b, calls[..n]), last) else 0.0
  }

  /** The calls ask for nothing negative and the clock does not go back. */
  predicate IsRun(start: real, calls: seq<Call>) {
    calls == [] ||
    var n := |calls| - 1;
    && IsRun(start, calls[..n]) && NonNegative(calls[n])
    && calls[n].at >= if n == 0 then start else calls[n - 1].at
  }

  function Fresh(capacity: real, rate: real, start: real): Bucket {
    Bucket(capacity, rate, capacity, start, 0, 0)
  }

  /** The bucket holds between nothing and its capacity. */
  predicate InBounds(b: Bucket) {
    b.capacity >= 0.0 && b.rate >= 0.0 && 0.0 <= b.tokens <= b.capacity
  }

  lemma PortionIsThere(n: int, tokens: real)
    requires n >= 0 && tokens >= 0.0
    ensures 0.0 <= Portion(n, tokens) as real <= tokens
  {}

  /** A portion is the most whole tokens that were asked for and are there. */
  lemma PortionIsMost(n: int, tokens: real, k: int)
    requires n >= 0 && tokens >= 0.0
    ensures 0 <= k <= n && k as real <= tokens ==> k <= Portion(n, tokens)
    ensures 0 <= Portion(n, tokens) <= n && Portion(n, tokens) as real <= tokens
  {}

  /** A call is granted as much as it can be: its cost if the refilled bucket holds it, or the most whole tokens
      that it asks for and are there. */
  lemma GrantsMost(b: Bucket, c: Call, k: int)
    requires InBounds(b) && NonNegative(c) && c.at >= b.lastTime
    ensures var there := Refill(b, c.at).tokens;
            match c
            case CallAllow(_, cost) => Granted(b, c) == if cost <= there then cost else 0.0
            case CallAllowN(_, n) =>
              Granted(b, c) <= n as real && (0 <= k <= n && k as real <= there ==> k as real <= Granted(b, c))
  {
    Refilled(b, c.at);
    if c.CallAllowN? { PortionIsMost(c.n, Refill(b, c.at).tokens, k); }
  }

  /** What a call counts for: one request, or as many as it names. */
  function Weight(c: Call): int {
    if c.CallAllow? then 1 else c.n
  }

  /** How many of the requests of a call are granted. */
  function Passed(b: Bucket, c: Call): int {
    match c
    case CallAllow(at, cost) => if cost <= Refill(b, at).tokens then 1 else 0
    case CallAllowN(at, n) => AllowingN(b, at, n).1
  }

  function WeightOf(calls: seq<Call>): int {
    if calls == [] then 0 else WeightOf(calls[..|calls| - 1]) + Weight(calls[|calls| - 1])
  }

  function PassedOf(b: Bucket, calls: seq<Call>): int {
    if calls == [] then 0
    else PassedOf(b, calls[..|calls| - 1]) + Passed(Run(b, calls[..|calls| - 1]), calls[|calls| - 1])
  }

  /** In every run each request is counted once, as allowed or as rejected. */
  lemma {:induction false} EveryCallCounted(b: Bucket, calls: seq<Call>)
    ensures var b' := Run(b, calls);
            && b'.allowed == b.allowed + PassedOf(b, calls)
            && b'.allowed + b'.rejected == b.allowed + b.rejected + WeightOf(calls)
  {
    if calls != [] { EveryCallCounted(b, calls[..|calls| - 1]); }
  }

  lemma Earns(rate: real, a: real, b: real)
    requires rate >= 0.0 && a <= b
    ensures Earned(rate, b - a) >= 0.0
  {}

  lemma EarnsOn(rate: real, a: real, b: real, c: real)
    ensures Earned(rate, b - a) + Earned(rate, c - b) == Earned(rate, c - a)
  {}

  lemma Refilled(b: Bucket, now: real)
    requires InBounds(b) && now >= b.lastTime
    ensures InBounds(Refill(b, now)) && Refill(b, now).tokens <= b.tokens + Earned(b.rate, now - b.lastTime)
  {
    Earns(b.rate, b.lastTime, now);
  }

  /** A call takes from the refilled bucket exactly what it grants, and no more than is there. */
  lemma CallConserves(b: Bucket, c: Call)
    requires InBounds(b) && NonNegative(c) && c.at >= b.lastTime
    ensures InBounds(After(b, c)) && Granted(b, c) >= 0.0
    ensures After(b, c).tokens + Granted(b, c) == Refill(b, c.at).tokens
    ensures After(b, c).(tokens := 0.0, allowed := 0, rejected := 0)
            == b.(tokens := 0.0, lastTime := c.at, allowed := 0, rejected := 0)
  {
    Refilled(b, c.at);
    if c.CallAllowN? { PortionIsThere(c.n, Refill(b, c.at).tokens); }
  }

  /** In every run the bucket holds between nothing and its capacity, and its time is that of the last call. */
  lemma {:induction false} TokensInBounds(capacity: real, rate: real, start: real, calls: seq<Call>)
    requires capacity >= 0.0 && rate >= 0.0 && IsRun(start, calls)
    ensures var b := Run(Fresh(capacity, rate, start), calls);
            && InBounds(b) && b.capacity == capacity && b.rate == rate
            && b.lastTime == if calls == [] then start else calls[|calls| - 1].at
  {
    if calls != [] {
      var n := |calls| - 1;
      TokensInBounds(capacity, rate, start, calls[..n]);
      CallConserves(Run(Fresh(capacity, rate, start), calls[..n]), calls[n]);
    }
  }

  lemma {:induction false} NoneBefore(b: Bucket, start: real, calls: seq<Call>, t1: real, t2: real)
    requires IsRun(start, calls) && (calls != [] ==> calls[|calls| - 1].at < t1)
    ensures GrantedBetween(b, calls, t1, t2) == 0.0
  {
    if calls != [] { NoneBefore(b, start, calls[..|calls| - 1], t1, t2); }
  }

  /** One call after t1 keeps the balance: what was granted since t1 and what is left came from one full
      bucket and the refill since t1. */
  lemma CallBalances(b: Bucket, c: Call, t1: real, granted: real)
    requires InBounds(b) && NonNegative(c) && c.at >= b.lastTime && c.at >= t1
    requires if b.lastTime < t1 then granted == 0.0
             else granted + b.tokens <= b.capacity + Earned(b.rate, b.lastTime - t1)
    ensures granted + Granted(b, c) + After(b, c).tokens <= b.capacity + Earned(b.rate, c.at - t1)
  {
    CallConserves(b, c);
    Refilled(b, c.at);
    if b.lastTime < t1 {
      Earns(b.rate, t1, c.at);
    } else {
      EarnsOn(b.rate, t1, b.lastTime, c.at);
    }
  }

  lemma {:induction false} Balance(capacity: real, rate: real, start: real, calls: seq<Call>, t1: real, t2: real)
    requires capacity >= 0.0 && rate >= 0.0 && IsRun(start, calls) && calls != [] && t1 <= calls[|calls| - 1].at <= t2
    ensures GrantedBetween(Fresh(capacity, rate, start), calls, t1, t2)
            + Run(Fresh(capacity, rate, start), calls).tokens
            <= capacity + Earned(rate, calls[|calls| - 1].at - t1)
  {
    var n := |calls| - 1;
    var b := Fresh(capacity, rate, start);
    var before := Run(b, calls[..n]);
    TokensInBounds(capacity, rate, start, calls[..n]);
    if n == 0 {
      if start >= t1 { GrantedFromStart(before, start, t1); }
    } else if calls[n - 1].at < t1 {
      NoneBefore(b, start, calls[..n], t1, t2);
    } else {
      Balance(capacity, rate, start, calls[..n], t1, t2);
    }
    CallBalances(before, calls[n], t1, GrantedBetween(b, calls[..n], t1, t2));
  }

  lemma GrantedFromStart(b: Bucket, start: real, t1: real)
    requires InBounds(b) && b.lastTime == start && t1 <= start
    ensures b.tokens <= b.capacity + Earned(b.rate, start - t1)
  {
    Earns(b.rate, t1, start);
  }

  /** In every run, at most capacity + rate * (t2 - t1) is granted between any two times. */
  lemma {:induction false} GrantBound(capacity: real, rate: real, start: real, calls: seq<Call>, t1: real, t2: real)
    requires capacity >= 0.0 && rate >= 0.0 && IsRun(start, calls) && t1 <= t2
    ensures GrantedBetween(Fresh(capacity, rate, start), calls, t1, t2) <= capacity + Earned(rate, t2 - t1)
  {
    if calls == [] {
      Earns(rate, t1, t2);
    } else {
      var n := |calls| - 1;
      if t1 <= calls[n].at <= t2 {
        TokensInBounds(capacity, rate, start, calls);
        Balance(capacity, rate, start, calls, t1, t2);
        EarnsOn(rate, t1, calls[n].at, t2);
        Earns(rate, calls[n].at, t2);
      } else {
        GrantBound(capacity, rate, start, calls[..n], t1, t2);
      }
    }
  }

  lemma OneMore(b: Bucket, start: real, calls: seq<Call>, c: Call, t1: real, t2: real)
    requires IsRun(start, calls) && NonNegative(c) && t1 <= c.at <= t2
    requires c.at >= if calls == [] then start else calls[|calls| - 1].at
    ensures IsRun(start, calls + [c]) && Run(b, calls + [c]) == After(Run(b, calls), c)
    ensures GrantedBetween(b, calls + [c], t1, t2) == GrantedBetween(b, calls, t1, t2) + Granted(Run(b, calls), c)
  {
    assert (calls + [c])[..|calls|] == calls;
  }

  /** The bound is met: by a burst at the start and another at a time when the bucket has not filled up. */
  lemma BoundIsMet(capacity: real, rate: real, t: real)
    requires capacity >= 0.0 && rate >= 0.0 && t >= 0.0 && Earned(rate, t) <= capacity
    ensures var calls := [CallAllow(0.0, capacity)] + [CallAllow(t, Earned(rate, t))];
            && IsRun(0.0, calls)
            && GrantedBetween(Fresh(capacity, rate, 0.0), calls, 0.0, t) == capacity + Earned(rate, t)
  {
    var b := Fresh(capacity, rate, 0.0);
    var c0, c1 := CallAllow(0.0, capacity), CallAllow(t, Earned(rate, t));
    Earns(rate, 0.0, t);
    OneMore(b, 0.0, [], c0, 0.0, t);
    assert [] + [c0] == [c0];
    OneMore(b, 0.0, [c0], c1, 0.0, t);
    assert Earned(rate, 0.0 - 0.0) == 0.0 && t - 0.0 == t;
  }
}
