/**
 The lock service with fencing tokens.

 Time is in nanoseconds.  Every reading of the clock is a parameter: an operation that checks a grant and
 then sets an expiry reads it twice, first `now` and then `then`.
 */
module LockSpec {

  type Time = int

  type LockName = string

  datatype Error = HeldByOther | NotFound | TokenMismatch | StaleToken | AlreadyExpired

  datatype Result<T> = Ok(value: T) | Err(error: Error)

  datatype Grant = Grant(token: nat, expiresAt: Time, lockName: LockName, holder: string)

  datatype Service = Service(locks: map<LockName, Grant>, nextToken: nat)

  const DEFAULT_TTL: Time := 30_000_000_000

  predicate Current(g: Grant, now: Time) {
    now < g.expiresAt
  }

  function Acquire(s: Service, now: Time, then': Time, name: LockName, holder: string, ttl: Time)
    : (Service, Result<Grant>)
  {
    if name in s.locks && Current(s.locks[name], now) then (s, Err(HeldByOther))
    else
      var g := Grant(s.nextToken + 1, then' + (if ttl <= 0 then DEFAULT_TTL else ttl), name, holder);
      (Service(s.locks[name := g], s.nextToken + 1), Ok(g))
  }

  function Release(s: Service, name: LockName, token: nat): (Service, Result<()>) {
    if name !in s.locks then (s, Err(NotFound))
    else if s.locks[name].token != token then (s, Err(TokenMismatch))
    else (s.(locks := s.locks - {name}), Ok(()))
  }

  function Renew(s: Service, now: Time, then': Time, name: LockName, token: nat, ttl: Time): (Service, Result<()>) {
    if name !in s.locks then (s, Err(NotFound))
    else if s.locks[name].token != token then (s, Err(StaleToken))
    else if !Current(s.locks[name], now) then (s, Err(AlreadyExpired))
    else (s.(locks := s.locks[name := s.locks[name].(expiresAt := then' + ttl)]), Ok(()))
  }

  function Verify(s: Service, now: Time, name: LockName, token: nat): Result<()> {
    if name !in s.locks then Err(NotFound)
    else if s.locks[name].token > token then Err(StaleToken)
    else if !Current(s.locks[name], now) then Err(AlreadyExpired)
    else Ok(())
  }

  function Expire(s: Service, now: Time): Service {
    s.(locks := map name | name in s.locks && !(now > s.locks[name].expiresAt) :: s.locks[name])
  }

  // ---------------------------------------------------------------- runs

  datatype Event =
    | DoAcquire(now: Time, then': Time, name: LockName, holder: string, ttl: Time)
    | DoRelease(now: Time, name: LockName, token: nat)
    | DoRenew(now: Time, then': Time, name: LockName, token: nat, ttl: Time)
    | DoExpire(now: Time)

  /** The service, the last reading of the clock, and every grant made, with the expiry it has and whether
      it was released. */
  datatype World = World(service: Service, clock: Time, grants: seq<Given>)

  datatype Given = Given(name: LockName, token: nat, expiresAt: Time, released: bool)

  predicate InTime(clock: Time, e: Event) {
    match e
    case DoAcquire(now, then', _, _, _) => clock <= now <= then'
    case DoRelease(now, _, _) => clock <= now
    case DoRenew(now, then', _, _, _) => clock <= now <= then'
    case DoExpire(now) => clock <= now
  }

  /** The grants after one was released or renewed. */
  function Marked(gs: seq<Given>, token: nat, expiresAt: Time, released: bool): seq<Given> {
    seq(|gs|, i requires 0 <= i < |gs| =>
      if gs[i].token == token then gs[i].(expiresAt := expiresAt, released := released) else gs[i])
  }

  function After(w: World, e: Event): World {
    match e
    case DoAcquire(now, then', name, holder, ttl) =>
      var (s, r) := Acquire(w.service, now, then', name, holder, ttl);
      World(s, then', w.grants + if r.Ok? then [Given(name, r.value.token, r.value.expiresAt, false)] else [])
    case DoRelease(now, name, token) =>
      var (s, r) := Release(w.service, name, token);
      World(s, now, if r.Ok? then Marked(w.grants, token, w.service.locks[name].expiresAt, true) else w.grants)
    case DoRenew(now, then', name, token, ttl) =>
      var (s, r) := Renew(w.service, now, then', name, token, ttl);
      World(s, then', if r.Ok? then Marked(w.grants, token, then' + ttl, false) else w.grants)
    case DoExpire(now) => World(Expire(w.service, now), now, w.grants)
  }

  predicate IsRun(start: Time, es: seq<Event>) {
    es == [] || (IsRun(start, es[..|es| - 1]) && InTime(Run(start, es[..|es| - 1]).clock, es[|es| - 1]))
  }

  function Run(start: Time, es: seq<Event>): World {
    if es == [] then World(Service(map[], 1), start, [])
    else After(Run(start, es[..|es| - 1]), es[|es| - 1])
  }

  // ---------------------------------------------------------------- what holds in every run

  /** Grant i is what the service holds for its lock. */
  predicate Held(w: World, i: nat)
    requires i < |w.grants|
  {
    var g := w.grants[i];
    g.name in w.service.locks && w.service.locks[g.name].token == g.token
  }

  predicate Over(g: Given, now: Time) {
    g.released || g.expiresAt <= now
  }

  /** Grant i is the current one, unreleased and with the service's expiry, or it is over. */
  predicate Settled(w: World, i: nat)
    requires i < |w.grants|
  {
    var g := w.grants[i];
    if Held(w, i) then !g.released && w.service.locks[g.name].expiresAt == g.expiresAt else Over(g, w.clock)
  }

  ghost predicate Good(w: World) {
    && w.service.nextToken == |w.grants| + 1
    && (forall i :: 0 <= i < |w.grants| ==> w.grants[i].token == i + 2)
    && (forall i :: 0 <= i < |w.grants| ==> Settled(w, i))
    && (forall name :: name in w.service.locks ==> Known(w, name))
  }

  /** What the service holds for a lock was granted for it, and nothing later was. */
  ghost predicate Known(w: World, name: LockName)
    requires name in w.service.locks
  {
    var i := w.service.locks[name].token - 2;
    && 0 <= i < |w.grants| && w.grants[i].name == name
    && forall j :: i < j < |w.grants| ==> w.grants[j].name != name
  }

  lemma AcquireKeeps(w: World, now: Time, then': Time, name: LockName, holder: string, ttl: Time)
    requires Good(w) && w.clock <= now <= then'
    ensures Good(After(w, DoAcquire(now, then', name, holder, ttl)))
  {
    var w' := After(w, DoAcquire(now, then', name, holder, ttl));
    forall i | 0 <= i < |w'.grants| ensures Settled(w', i) {
      if i < |w.grants| { assert Settled(w, i); }
    }
    forall other | other in w'.service.locks ensures Known(w', other) {
      if other in w.service.locks { assert Known(w, other); }
    }
  }

  lemma ReleaseKeeps(w: World, now: Time, name: LockName, token: nat)
    requires Good(w) && w.clock <= now
    ensures Good(After(w, DoRelease(now, name, token)))
  {
    var w' := After(w, DoRelease(now, name, token));
    forall i | 0 <= i < |w'.grants| ensures Settled(w', i) { assert Settled(w, i); }
    forall other | other in w'.service.locks ensures Known(w', other) { assert Known(w, other); }
  }

  lemma RenewKeeps(w: World, now: Time, then': Time, name: LockName, token: nat, ttl: Time)
    requires Good(w) && w.clock <= now <= then'
    ensures Good(After(w, DoRenew(now, then', name, token, ttl)))
  {
    var w' := After(w, DoRenew(now, then', name, token, ttl));
    forall i | 0 <= i < |w'.grants| ensures Settled(w', i) { RenewSettled(w, now, then', name, token, ttl, i); }
    forall other | other in w'.service.locks ensures Known(w', other) { assert Known(w, other); }
  }

  lemma RenewSettled(w: World, now: Time, then': Time, name: LockName, token: nat, ttl: Time, i: nat)
    requires Good(w) && w.clock <= now <= then' && i < |w.grants|
    ensures var w' := After(w, DoRenew(now, then', name, token, ttl)); i < |w'.grants| && Settled(w', i)
  {
    assert Settled(w, i);
    if name in w.service.locks { assert Known(w, name); }
  }

  lemma ExpireKeeps(w: World, now: Time)
    requires Good(w) && w.clock <= now
    ensures Good(After(w, DoExpire(now)))
  {
    var w' := After(w, DoExpire(now));
    forall i | 0 <= i < |w'.grants| ensures Settled(w', i) { assert Settled(w, i); }
    forall other | other in w'.service.locks ensures Known(w', other) { assert Known(w, other); }
  }

  lemma {:induction false} AlwaysGood(start: Time, es: seq<Event>)
    requires IsRun(start, es)
    ensures Good(Run(start, es))
  {
    if es != [] {
      var n := |es| - 1;
      AlwaysGood(start, es[..n]);
      var w := Run(start, es[..n]);
      match es[n]
      case DoAcquire(now, then', name, holder, ttl) => AcquireKeeps(w, now, then', name, holder, ttl);
      case DoRelease(now, name, token) => ReleaseKeeps(w, now, name, token);
      case DoRenew(now, then', name, token, ttl) => RenewKeeps(w, now, then', name, token, ttl);
      case DoExpire(now) => ExpireKeeps(w, now);
    }
  }

  // ---------------------------------------------------------------- theorems

  /** In every run tokens strictly increase from grant to grant, over all locks. */
  lemma TokensIncrease(start: Time, es: seq<Event>, i: nat, j: nat)
    requires IsRun(start, es) && i < j < |Run(start, es).grants|
    ensures Run(start, es).grants[i].token < Run(start, es).grants[j].token
  {
    AlwaysGood(start, es);
  }

  /** In every run, of two grants of one lock the earlier is released or expired. */
  lemma OneHolder(start: Time, es: seq<Event>, i: nat, j: nat)
    requires IsRun(start, es) && i < j < |Run(start, es).grants|
    requires Run(start, es).grants[i].name == Run(start, es).grants[j].name
    ensures Over(Run(start, es).grants[i], Run(start, es).clock)
  {
    AlwaysGood(start, es);
    var w := Run(start, es);
    assert Settled(w, i);
    if w.grants[i].name in w.service.locks { assert Known(w, w.grants[i].name); }
  }

  /** No later grant of the same lock was made. */
  ghost predicate IsNewest(gs: seq<Given>, i: nat)
    requires i < |gs|
  {
    forall j :: i < j < |gs| ==> gs[j].name != gs[i].name
  }

  /** In every run the token of a grant passes for its lock exactly while the grant is the newest of the
      lock, unreleased and unexpired. */
  lemma Fencing(start: Time, es: seq<Event>, i: nat, now: Time)
    requires IsRun(start, es) && i < |Run(start, es).grants| && Run(start, es).clock <= now
    ensures var w := Run(start, es);
            var g := w.grants[i];
            Verify(w.service, now, g.name, g.token).Ok? <==> IsNewest(w.grants, i) && !Over(g, now)
  {
    AlwaysGood(start, es);
    var w := Run(start, es);
    var g := w.grants[i];
    assert Settled(w, i);
    if g.name in w.service.locks { assert Known(w, g.name); }
  }

  lemma {:induction false} GrantsStay(start: Time, es: seq<Event>, k: nat)
    requires k <= |es|
    ensures |Run(start, es[..k]).grants| <= |Run(start, es).grants|
    ensures forall i :: 0 <= i < |Run(start, es[..k]).grants| ==>
              && Run(start, es).grants[i].name == Run(start, es[..k]).grants[i].name
              && Run(start, es).grants[i].token == Run(start, es[..k]).grants[i].token
  {
    if k < |es| {
      GrantsStay(start, es[..|es| - 1], k);
      assert es[..|es| - 1][..k] == es[..k];
    } else {
      assert es[..k] == es;
    }
  }

  /** Once a lock was granted again, the token of the earlier grant is rejected for ever. */
  lemma StaleForEver(start: Time, es: seq<Event>, k: nat, i: nat, j: nat, now: Time)
    requires IsRun(start, es) && k <= |es| && Run(start, es).clock <= now
    requires i < j < |Run(start, es[..k]).grants|
    requires Run(start, es[..k]).grants[i].name == Run(start, es[..k]).grants[j].name
    ensures var g := Run(start, es[..k]).grants[i];
            Verify(Run(start, es).service, now, g.name, g.token).Err?
  {
    GrantsStay(start, es, k);
    Fencing(start, es, i, now);
    assert Run(start, es).grants[j].name == Run(start, es).grants[i].name;
  }

  /** How long a grant lasts: the time asked for, or 30 seconds if that is not positive. */
  function Life(ttl: Time): Time {
    if ttl > 0 then ttl else 30_000_000_000
  }

  /** A lock is granted exactly if nobody holds it, and the token then passes exactly until its time is over. */
  lemma GrantLasts(s: Service, now: Time, then': Time, name: LockName, holder: string, ttl: Time, t: Time)
    ensures var (s', r) := Acquire(s, now, then', name, holder, ttl);
            && (r.Ok? <==> !(name in s.locks && now < s.locks[name].expiresAt))
            && (r.Err? ==> s' == s)
            && (r.Ok? ==>
                  && r.value.lockName == name && r.value.holder == holder && r.value.token == s.nextToken + 1
                  && s'.nextToken == s.nextToken + 1 && s'.locks == s.locks[name := r.value]
                  && (Verify(s', t, name, r.value.token).Ok? <==> t < then' + Life(ttl)))
  {}

  /** A lock is released exactly with the token it is held with, and is then free for everybody at once. */
  lemma ReleaseFrees(s: Service, name: LockName, token: nat, now: Time, then': Time, holder: string, ttl: Time)
    ensures var (s', r) := Release(s, name, token);
            && (r.Ok? <==> name in s.locks && s.locks[name].token == token)
            && (r.Err? ==> s' == s)
            && (r.Ok? ==> s'.nextToken == s.nextToken && s'.locks == s.locks - {name}
                          && Acquire(s', now, then', name, holder, ttl).1.Ok?)
  {}

  /** A grant is renewed exactly with its own token before its time is over, and its token then passes exactly
      until the new time is.  Here a time that is not positive is taken as it is. */
  lemma RenewalLasts(s: Service, now: Time, then': Time, name: LockName, token: nat, ttl: Time, t: Time)
    ensures var (s', r) := Renew(s, now, then', name, token, ttl);
            && (r.Ok? <==> name in s.locks && s.locks[name].token == token && now < s.locks[name].expiresAt)
            && (r.Err? ==> s' == s)
            && (r.Ok? ==> (Verify(s', t, name, token).Ok? <==> t < then' + ttl))
            && (forall other :: other != name ==>
                  (other in s'.locks <==> other in s.locks) && (other in s.locks ==> s'.locks[other] == s.locks[other]))
  {}

  /** A round of the expiry loop removes exactly the grants whose time is over.  Nobody can tell: later requests
      are granted, renewed and checked as without it. */
  lemma ExpiryIsInvisible(s: Service, now: Time, t: Time, then': Time, name: LockName, holder: string, ttl: Time,
                          token: nat)
    requires now <= t
    ensures var s' := Expire(s, now);
            && (name in s'.locks <==> name in s.locks && now <= s.locks[name].expiresAt)
            && (name in s'.locks ==> s'.locks[name] == s.locks[name])
            && Acquire(s', t, then', name, holder, ttl).1 == Acquire(s, t, then', name, holder, ttl).1
            && Renew(s', t, then', name, token, ttl).1.Ok? == Renew(s, t, then', name, token, ttl).1.Ok?
            && Verify(s', t, name, token).Ok? == Verify(s, t, name, token).Ok?
  {}

  /** A token that is not the lock's own passes exactly if it is greater than the current grant's, so the
      check tells the current token from all others exactly if none greater is shown. */
  lemma VerifyIsExact(s: Service, now: Time, name: LockName, token: nat)
    ensures var own := name in s.locks && Current(s.locks[name], now) && s.locks[name].token == token;
            var greater := name in s.locks && Current(s.locks[name], now) && s.locks[name].token < token;
            && (Verify(s, now, name, token).Ok? <==> own || greater)
            && ((Verify(s, now, name, token).Ok? <==> own) <==> !greater)
  {}

  /** In every run, of all tokens granted for any lock exactly those from the newest of a lock on pass for it,
      and only while that one is unreleased and unexpired. */
  lemma TokensThatPass(start: Time, es: seq<Event>, i: nat, j: nat, now: Time)
    requires IsRun(start, es) && i < |Run(start, es).grants| && j < |Run(start, es).grants|
    requires Run(start, es).clock <= now && IsNewest(Run(start, es).grants, i)
    ensures var w := Run(start, es);
            Verify(w.service, now, w.grants[i].name, w.grants[j].token).Ok? <==> !Over(w.grants[i], now) && i <= j
  {
    AlwaysGood(start, es);
    Fencing(start, es, i, now);
    var w := Run(start, es);
    assert Settled(w, i);
    if w.grants[i].name in w.service.locks { assert Known(w, w.grants[i].name); }
  }

  /** The token of a lock granted later passes for a lock granted before. */
  lemma TokenOfAnotherLock()
    ensures var es := [DoAcquire(0, 0, "a", "x", 10), DoAcquire(0, 0, "b", "y", 10)];
            && IsRun(0, es) && Run(0, es).grants[1].name == "b"
            && Verify(Run(0, es).service, 1, "a", Run(0, es).grants[1].token).Ok?
  {
    var e0, e1 := DoAcquire(0, 0, "a", "x", 10), DoAcquire(0, 0, "b", "y", 10);
    assert [e0, e1][..1] == [e0] && [e0][..0] == [];
    assert Run(0, [e0]) == After(Run(0, []), e0);
    assert Run(0, [e0, e1]) == After(Run(0, [e0]), e1);
    assert "a" != "b";
  }
}
