/** The allowance ledger: a lazily refilled, capped balance per member, and debits that happen once. */
module Allocation {
  import opened Basics

  type MemberId = nat
  type Nonce = nat

  datatype Policy = Policy(
    initialCredits: U64, periodicCredits: U64, periodSeconds: U64, creditCap: U64, maxAuthorizationSeconds: U64)
  {
    predicate Valid() {
      && 0 < periodSeconds <= MAX_INTEGER
      && initialCredits <= creditCap && periodicCredits <= creditCap && creditCap <= MAX_INTEGER
      && 0 < maxAuthorizationSeconds <= MAX_INTEGER
    }
  }

  /** A digest is represented by the request it hashes. */
  datatype Request = Request(memberId: MemberId, chatPublicKey: nat, nonce: Nonce, blinded: seq<Byte>, issuedAt: U64, expiresAt: U64)

  /** One call: the request, its credentials' deadlines, the verdicts of the checks around the
      window test, the three clock samples, and what the issuer would answer. */
  datatype Presentation = Presentation(
    request: Request, grantExpiresAt: U64, authorizationExpiresAt: U64,
    admission: Option<Error>, signature: Option<Error>,
    before: U64, now: U64, issued: Result<seq<Byte>>, completedAt: U64)

  datatype Account = Account(credits: U64, lastPeriod: U64)

  datatype Reservation = Reservation(request: Request, remaining: U64)

  datatype Ledger = Ledger(
    clockFloor: U64,
    members: map<MemberId, Account>,
    reservations: map<(MemberId, Nonce), Reservation>,
    responses: map<(MemberId, Nonce), seq<Byte>>)

  datatype Receipt = Receipt(request: Request, remaining: U64, response: seq<Byte>)

  /* ----- refill ----- */

  function SaturatingAdd(a: U64, b: U64): U64 { if a + b >= U64_LIMIT then U64_LIMIT - 1 else a + b }

  function SaturatingMul(a: U64, b: U64): U64 {
    MulMonotone(0, a, b);
    var product := a * b;
    if product >= U64_LIMIT then U64_LIMIT - 1 else product
  }

  /** The balance after `elapsed` periods, computed at once. */
  function Refilled(credits: U64, elapsed: U64, p: Policy): U64 {
    Min(SaturatingAdd(credits, SaturatingMul(elapsed, p.periodicCredits)), p.creditCap)
  }

  /** The balance credited one period at a time under the cap. */
  function CreditedPerPeriod(credits: nat, elapsed: nat, p: Policy): nat {
    if elapsed == 0 then credits else Min(CreditedPerPeriod(credits, elapsed - 1, p) + p.periodicCredits, p.creditCap)
  }

  lemma {:induction false} PerPeriodIsCappedSum(credits: nat, elapsed: nat, p: Policy)
    requires credits <= p.creditCap
    ensures CreditedPerPeriod(credits, elapsed, p) == Min(credits + elapsed * p.periodicCredits, p.creditCap)
  {
    if elapsed > 0 {
      PerPeriodIsCappedSum(credits, elapsed - 1, p);
      assert elapsed * p.periodicCredits == (elapsed - 1) * p.periodicCredits + p.periodicCredits;
    }
  }

  /** The lazy saturating refill is the period-by-period one. */
  lemma RefillIsPerPeriod(credits: U64, elapsed: U64, p: Policy)
    requires p.Valid() && credits <= p.creditCap
    ensures Refilled(credits, elapsed, p) == CreditedPerPeriod(credits, elapsed, p)
  {
    PerPeriodIsCappedSum(credits, elapsed, p);
  }

  /* ----- one call ----- */

  function Refill(l: Ledger, p: Policy, m: MemberId, period: U64): Result<U64> {
    if m !in l.members then Ok(p.initialCredits)
    else
      var account := l.members[m];
      var _ :- Need(account.credits <= p.creditCap, Storage);
      var _ :- Need(account.lastPeriod <= period, ClockRollback);
      Ok(Refilled(account.credits, period - account.lastPeriod, p))
  }

  function Admitted(p: Policy, x: Presentation): Result<()> {
    var r := x.request;
    var _ :- Need(x.admission.None?, if x.admission.Some? then x.admission.value else Storage);
    var _ :- Need(0 < r.issuedAt < r.expiresAt <= MAX_INTEGER, InvalidInput);
    var _ :- Need(
      && r.expiresAt - r.issuedAt <= p.maxAuthorizationSeconds
      && r.expiresAt <= x.grantExpiresAt && r.expiresAt <= x.authorizationExpiresAt
      && r.issuedAt <= x.before < r.expiresAt, Expired);
    Need(x.signature.None?, if x.signature.Some? then x.signature.value else Storage)
  }

  function OnTime(l: Ledger, x: Presentation): Result<()> {
    var _ :- Need(l.clockFloor <= x.now && x.before <= x.now <= MAX_INTEGER, ClockRollback);
    Need(x.request.issuedAt <= x.now < x.request.expiresAt && x.now < x.grantExpiresAt && x.now < x.authorizationExpiresAt, Expired)
  }

  function Key(r: Request): (MemberId, Nonce) { (r.memberId, r.nonce) }

  /** The stored answer to a request seen before; the clock still moves. */
  function Recovered(l: Ledger, p: Policy, x: Presentation): Result<(Ledger, Receipt)>
    requires Key(x.request) in l.reservations
  {
    var prior := l.reservations[Key(x.request)];
    var _ :- Need(prior.remaining <= p.creditCap, Storage);
    var _ :- Need(prior.request == x.request, Error.Replay);
    Ok((l.(clockFloor := x.now),
        Receipt(x.request, prior.remaining, if Key(x.request) in l.responses then l.responses[Key(x.request)] else [])))
  }

  /** One debit, written with its answer. */
  function Debited(l: Ledger, p: Policy, x: Presentation): Result<(Ledger, Receipt)>
    requires p.Valid()
  {
    var m, key, period := x.request.memberId, Key(x.request), PeriodOf(x.now, p);
    var credits :- Refill(l, p, m, period);
    var _ :- Need(0 < credits, NoAllowance);
    var response :- x.issued;
    var _ :- Need(x.now <= x.completedAt <= MAX_INTEGER, ClockRollback);
    var _ :- Need(x.completedAt < x.request.expiresAt && x.completedAt < x.grantExpiresAt && x.completedAt < x.authorizationExpiresAt, Expired);
    var _ :- Need(credits - 1 <= MAX_INTEGER && period <= MAX_INTEGER, Storage);
    Ok((Ledger(x.completedAt,
               l.members[m := Account(credits - 1, period)],
               l.reservations[key := Reservation(x.request, credits - 1)],
               l.responses[key := response]),
        Receipt(x.request, credits - 1, response)))
  }

  function PeriodOf(now: U64, p: Policy): (r: U64)
    requires p.Valid()
    ensures r <= now
  {
    DivisionBounds(now, p.periodSeconds);
    MulMonotone(1, p.periodSeconds, now / p.periodSeconds);
    now / p.periodSeconds
  }

  /** An error rolls everything back. */
  function Issued(l: Ledger, p: Policy, x: Presentation): Result<(Ledger, Receipt)>
    requires p.Valid()
  {
    var _ :- Admitted(p, x);
    var _ :- OnTime(l, x);
    if Key(x.request) in l.reservations then Recovered(l, p, x) else Debited(l, p, x)
  }

  class AllocationLedger {
    var clockFloor: U64
    var members: map<MemberId, Account>
    var reservations: map<(MemberId, Nonce), Reservation>
    var responses: map<(MemberId, Nonce), seq<Byte>>
    const policy: Policy

    function View(): Ledger
      reads this
    {
      Ledger(clockFloor, members, reservations, responses)
    }

    constructor (policy: Policy)
      requires policy.Valid()
      ensures this.policy == policy && View() == Ledger(0, map[], map[], map[])
    {
      this.policy := policy;
      clockFloor, members, reservations, responses := 0, map[], map[], map[];
    }

    method Issue(x: Presentation) returns (result: Result<Receipt>)
      requires policy.Valid()
      modifies this
      ensures match Issued(old(View()), policy, x)
              case Ok((ledger, receipt)) => View() == ledger && result == Ok(receipt)
              case Err(e) => View() == old(View()) && result == Err(e)
    {
      var _ :- Admitted(policy, x);
      var r, key := x.request, Key(x.request);
      if x.now < clockFloor || x.now < x.before || x.now > MAX_INTEGER {
        return Err(ClockRollback);
      }
      if x.now < r.issuedAt || x.now >= r.expiresAt || x.now >= x.grantExpiresAt || x.now >= x.authorizationExpiresAt {
        return Err(Expired);
      }
      if key in reservations {
        var prior := reservations[key];
        if prior.remaining > policy.creditCap {
          return Err(Storage);
        }
        if prior.request != r {
          return Err(Error.Replay);
        }
        clockFloor := x.now;
        return Ok(Receipt(r, prior.remaining, if key in responses then responses[key] else []));
      }
      result := Debit(x);
    }

    method Debit(x: Presentation) returns (result: Result<Receipt>)
      requires policy.Valid()
      modifies this
      ensures match Debited(old(View()), policy, x)
              case Ok((ledger, receipt)) => View() == ledger && result == Ok(receipt)
              case Err(e) => View() == old(View()) && result == Err(e)
    {
      hide Refilled;
      var m, key, period := x.request.memberId, Key(x.request), PeriodOf(x.now, policy);
      var credits := policy.initialCredits;
      if m in members {
        if members[m].credits > policy.creditCap {
          return Err(Storage);
        }
        if period < members[m].lastPeriod {
          return Err(ClockRollback);
        }
        credits := Refilled(members[m].credits, period - members[m].lastPeriod, policy);
      }
      if credits == 0 {
        return Err(NoAllowance);
      }
      var response :- x.issued;
      if x.completedAt < x.now || x.completedAt > MAX_INTEGER {
        return Err(ClockRollback);
      }
      if x.completedAt >= x.request.expiresAt || x.completedAt >= x.grantExpiresAt || x.completedAt >= x.authorizationExpiresAt {
        return Err(Expired);
      }
      if credits - 1 > MAX_INTEGER || period > MAX_INTEGER {
        return Err(Storage);
      }
      members := members[m := Account(credits - 1, period)];
      reservations := reservations[key := Reservation(x.request, credits - 1)];
      responses := responses[key := response];
      clockFloor := x.completedAt;
      return Ok(Receipt(x.request, credits - 1, response));
    }
  }
}
