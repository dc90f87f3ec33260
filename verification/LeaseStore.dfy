/** The lease table that one node keeps, and the three calls that change it.
    The pure functions say what a call does to the table at one instant of the
    node's clock; `MemoryStore` is the object whose methods run them in place.
 */
module LeaseStore {

  newtype byte = x: int | 0 <= x < 256

  type Token = seq<byte>

  datatype Entry = Entry(token: Token, expiresAt: real)

  type Leases = map<string, Entry>

  datatype StoreError = ContextDone | EmptyResource | EmptyToken | NonPositiveTtl

  /** `Took(true)` is a granted call, `Took(false)` one that the table rejected. */
  datatype Outcome = Took(success: bool) | Refused(error: StoreError)

  /** The resource has a lease that the node's clock has not passed. */
  predicate Live(m: Leases, resource: string, now: real) {
    resource in m && now < m[resource].expiresAt
  }

  function AcquireOn(m: Leases, resource: string, token: Token, ttl: real, now: real): (r: (Leases, bool)) {
    if Live(m, resource, now) then (m, false)
    else (m[resource := Entry(token, now + ttl)], true)
  }

  function RenewOn(m: Leases, resource: string, token: Token, ttl: real, now: real): (r: (Leases, bool)) {
    if resource !in m then (m, false)
    else if m[resource].expiresAt <= now then (m - {resource}, false)
    else if m[resource].token != token then (m, false)
    else (m[resource := m[resource].(expiresAt := now + ttl)], true)
  }

  function ReleaseOn(m: Leases, resource: string, token: Token, now: real): (r: (Leases, bool)) {
    if resource !in m then (m, false)
    else if m[resource].expiresAt <= now then (m - {resource}, false)
    else if m[resource].token != token then (m, false)
    else (m - {resource}, true)
  }

  /** No entry of the table carries the token. */
  ghost predicate Absent(m: Leases, token: Token) {
    forall key :: key in m ==> m[key].token != token
  }

  /** The table holds a live lease of `token` that expires exactly `ttl` from now. */
  ghost predicate FreshLease(m: Leases, resource: string, token: Token, ttl: real, now: real) {
    resource in m && m[resource] == Entry(token, now + ttl)
  }

  /** The holder of the resource at the given time, if there is one. */
  ghost predicate HeldBy(m: Leases, resource: string, token: Token, now: real) {
    Live(m, resource, now) && m[resource].token == token
  }

  /** Nothing changes beyond the one resource. */
  ghost predicate OnlyAt(m: Leases, m': Leases, resource: string) {
    m' - {resource} == m - {resource}
  }

  /** An acquire is granted exactly if nobody holds the resource, and then the caller does. */
  lemma AcquireExactly(m: Leases, resource: string, token: Token, ttl: real, now: real)
    ensures var (m', ok) := AcquireOn(m, resource, token, ttl, now);
            && OnlyAt(m, m', resource)
            && (ok <==> !Live(m, resource, now))
            && (if ok then FreshLease(m', resource, token, ttl, now) else m' == m)
  {
  }

  /** A renewal is granted exactly to the holder, who then has a full `ttl`; no
      other holder loses anything, and what has expired is dropped. */
  lemma RenewExactly(m: Leases, resource: string, token: Token, ttl: real, now: real)
    ensures var (m', ok) := RenewOn(m, resource, token, ttl, now);
            && OnlyAt(m, m', resource)
            && (ok <==> HeldBy(m, resource, token, now))
            && (if ok then FreshLease(m', resource, token, ttl, now)
                else if Live(m, resource, now) then m' == m else resource !in m')
  {
  }

  /** A release is granted exactly to the holder, whose lease is gone then; no
      other holder loses anything, and what has expired is dropped. */
  lemma ReleaseExactly(m: Leases, resource: string, token: Token, now: real)
    ensures var (m', ok) := ReleaseOn(m, resource, token, now);
            && OnlyAt(m, m', resource)
            && (ok <==> HeldBy(m, resource, token, now))
            && (if Live(m, resource, now) && !ok then m' == m else resource !in m')
  {
  }

  /** `doneOnEntry` and `doneUnderLock` are the two looks at the call's context:
      before the arguments are checked and again once the mutex is held. */
  class MemoryStore {
    var leases: Leases

    constructor ()
      ensures leases == map[]
    {
      leases := map[];
    }

    method Acquire(doneOnEntry: bool, doneUnderLock: bool, resource: string, token: Token, ttl: int, now: real)
      returns (o: Outcome)
      modifies this
      ensures o.Refused? ==> leases == old(leases)
      ensures o.Took? <==> !doneOnEntry && !doneUnderLock && resource != "" && token != [] && 0 < ttl
      ensures o.Took? ==> (leases, o.success) == AcquireOn(old(leases), resource, token, ttl as real, now)
      // Exactly one holder: a grant installs the caller, a rejection leaves the holder.
      ensures o.Took? ==> OnlyAt(old(leases), leases, resource)
      ensures o.Took? ==> (o.success <==> !Live(old(leases), resource, now))
      ensures o.Took? && o.success ==> FreshLease(leases, resource, token, ttl as real, now)
      ensures o.Took? && !o.success ==> leases == old(leases)
    {
      var refusal := ValidateInput(doneOnEntry, resource, token, ttl);
      if refusal.Refused? {
        return refusal;
      }
      if doneUnderLock {
        return Refused(ContextDone);
      }
      if resource in leases && now < leases[resource].expiresAt {
        return Took(false);
      }
      leases := leases[resource := Entry(token, now + ttl as real)];
      return Took(true);
    }

    method Renew(doneOnEntry: bool, doneUnderLock: bool, resource: string, token: Token, ttl: int, now: real)
      returns (o: Outcome)
      modifies this
      ensures o.Refused? ==> leases == old(leases)
      ensures o.Took? <==> !doneOnEntry && !doneUnderLock && resource != "" && token != [] && 0 < ttl
      ensures o.Took? ==> (leases, o.success) == RenewOn(old(leases), resource, token, ttl as real, now)
      // The holder, and nobody else, gets a full ttl; another holder loses nothing.
      ensures o.Took? ==> OnlyAt(old(leases), leases, resource)
      ensures o.Took? ==> (o.success <==> HeldBy(old(leases), resource, token, now))
      ensures o.Took? && o.success ==> FreshLease(leases, resource, token, ttl as real, now)
      ensures o.Took? && !o.success ==>
                if Live(old(leases), resource, now) then leases == old(leases) else resource !in leases
    {
      var refusal := ValidateInput(doneOnEntry, resource, token, ttl);
      if refusal.Refused? {
        return refusal;
      }
      if doneUnderLock {
        return Refused(ContextDone);
      }
      if resource !in leases {
        return Took(false);
      }
      var lease := leases[resource];
      if !(now < lease.expiresAt) {
        leases := leases - {resource};
        return Took(false);
      }
      if lease.token != token {
        return Took(false);
      }
      lease := lease.(expiresAt := now + ttl as real);
      leases := leases[resource := lease];
      return Took(true);
    }

    method Release(doneOnEntry: bool, doneUnderLock: bool, resource: string, token: Token, now: real)
      returns (o: Outcome)
      modifies this
      ensures o.Refused? ==> leases == old(leases)
      ensures o.Took? <==> !doneOnEntry && !doneUnderLock && resource != "" && token != []
      ensures o.Took? ==> (leases, o.success) == ReleaseOn(old(leases), resource, token, now)
      // The holder, and nobody else, gives the resource up; another holder loses nothing.
      ensures o.Took? ==> OnlyAt(old(leases), leases, resource)
      ensures o.Took? ==> (o.success <==> HeldBy(old(leases), resource, token, now))
      ensures o.Took? ==>
                if Live(old(leases), resource, now) && !o.success then leases == old(leases) else resource !in leases
    {
      if doneOnEntry {
        return Refused(ContextDone);
      }
      if resource == "" {
        return Refused(EmptyResource);
      }
      if token == [] {
        return Refused(EmptyToken);
      }
      if doneUnderLock {
        return Refused(ContextDone);
      }
      if resource !in leases {
        return Took(false);
      }
      var lease := leases[resource];
      if !(now < lease.expiresAt) {
        leases := leases - {resource};
        return Took(false);
      }
      if lease.token != token {
        return Took(false);
      }
      leases := leases - {resource};
      return Took(true);
    }

    static method ValidateInput(done: bool, resource: string, token: Token, ttl: int) returns (o: Outcome)
      ensures o.Took? <==> !done && resource != "" && token != [] && 0 < ttl
      ensures o == Refused(ContextDone) <==> done
      ensures o == Refused(EmptyResource) <==> !done && resource == ""
      ensures o == Refused(EmptyToken) <==> !done && resource != "" && token == []
    {
      if done {
        return Refused(ContextDone);
      }
      if resource == "" {
        return Refused(EmptyResource);
      }
      if token == [] {
        return Refused(EmptyToken);
      }
      if ttl <= 0 {
        return Refused(NonPositiveTtl);
      }
      return Took(true);
    }
  }
}
