/** The lock service, proved against LockSpec. */
module DistLocks {
  import opened Spec = LockSpec

  class LockGrant {
    const token: nat
    const lockName: LockName
    const holder: string
    var expiresAt: Time

    constructor (token: nat, expiresAt: Time, lockName: LockName, holder: string)
      ensures View() == Grant(token, expiresAt, lockName, holder)
    {
      this.token := token;
      this.expiresAt := expiresAt;
      this.lockName := lockName;
      this.holder := holder;
    }

    function View(): Grant
      reads this
    {
      Grant(token, expiresAt, lockName, holder)
    }

    predicate IsValid(now: Time)
      reads this
    {
      now < expiresAt
    }
  }

  class DistributedLockService {
    var locks: map<LockName, LockGrant>
    var nextToken: nat

    /** Every lock has a grant of its own. */
    ghost predicate Valid()
      reads this, locks.Values
    {
      forall name :: name in locks ==> locks[name].lockName == name
    }

    ghost function View(): Service
      reads this, locks.Values
    {
      Service(map name | name in locks :: locks[name].View(), nextToken)
    }

    constructor ()
      ensures Valid() && View() == Service(map[], 1)
    {
      locks := map[];
      nextToken := 1;
    }

    method Acquire(now: Time, then': Time, name: LockName, holder: string, ttl: Time) returns (r: Result<LockGrant>)
      requires Valid()
      modifies this
      ensures Valid() && View() == Spec.Acquire(old(View()), now, then', name, holder, ttl).0
      ensures match Spec.Acquire(old(View()), now, then', name, holder, ttl).1
              case Ok(g) => r.Ok? && fresh(r.value) && r.value.View() == g && name in locks && locks[name] == r.value
              case Err(e) => r == Err(e)
      ensures r.Err? ==> r.error == HeldByOther
    {
      var life := if ttl <= 0 then DEFAULT_TTL else ttl;
      if name in locks && locks[name].IsValid(now) {
        return Err(HeldByOther);
      }
      nextToken := nextToken + 1;
      var grant := new LockGrant(nextToken, then' + life, name, holder);
      locks := locks[name := grant];
      assert View().locks == old(View()).locks[name := grant.View()];
      return Ok(grant);
    }

    method Release(name: LockName, token: nat) returns (r: Result<()>)
      requires Valid()
      modifies this
      ensures Valid() && (View(), r) == Spec.Release(old(View()), name, token)
      ensures r == Err(NotFound) <==> name !in old(locks)
      ensures r == Err(TokenMismatch) <==> name in old(locks) && old(locks)[name].token != token
    {
      if name !in locks {
        return Err(NotFound);
      }
      if locks[name].token != token {
        return Err(TokenMismatch);
      }
      locks := locks - {name};
      assert View().locks == old(View()).locks - {name};
      return Ok(());
    }

    method Renew(now: Time, then': Time, name: LockName, token: nat, ttl: Time) returns (r: Result<()>)
      requires Valid()
      modifies if name in locks then {locks[name]} else {}
      ensures Valid() && (View(), r) == Spec.Renew(old(View()), now, then', name, token, ttl)
      ensures r == Err(NotFound) <==> name !in locks
      ensures r == Err(StaleToken) <==> name in locks && locks[name].token != token
      ensures r == Err(AlreadyExpired) <==>
                name in locks && locks[name].token == token && old(locks[name].expiresAt) <= now
    {
      if name !in locks {
        return Err(NotFound);
      }
      var existing := locks[name];
      if existing.token != token {
        return Err(StaleToken);
      }
      if !existing.IsValid(now) {
        return Err(AlreadyExpired);
      }
      existing.expiresAt := then' + ttl;
      assert View().locks == old(View()).locks[name := existing.View()];
      return Ok(());
    }

    method VerifyToken(now: Time, name: LockName, token: nat) returns (r: Result<()>)
      requires Valid()
      ensures r == Spec.Verify(View(), now, name, token)
      ensures r == Err(NotFound) <==> name !in locks
      ensures r == Err(StaleToken) <==> name in locks && locks[name].token > token
      ensures r == Err(AlreadyExpired) <==> name in locks && locks[name].token <= token && locks[name].expiresAt <= now
    {
      if name !in locks {
        return Err(NotFound);
      }
      if locks[name].token > token {
        return Err(StaleToken);
      }
      if !locks[name].IsValid(now) {
        return Err(AlreadyExpired);
      }
      return Ok(());
    }

    /** One round of the expiry loop. */
    method ExpireRound(now: Time)
      requires Valid()
      modifies this
      ensures Valid() && View() == Spec.Expire(old(View()), now)
    {
      var todo := locks.Keys;
      while todo != {}
        invariant nextToken == old(nextToken) && locks.Keys <= old(locks).Keys && todo <= locks.Keys
        invariant forall name :: name in locks ==> locks[name] == old(locks)[name]
        invariant forall name :: name in old(locks) && name !in todo ==>
                    (name in locks <==> !(now > old(locks)[name].expiresAt))
        decreases todo
      {
        var name :| name in todo;
        todo := todo - {name};
        if now > locks[name].expiresAt {
          locks := locks - {name};
        }
      }
    }
  }
}
