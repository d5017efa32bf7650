/** The private-account policy: window arithmetic, age limits and its byte encoding. */
module AccountingPolicy {
  import opened Basics

  datatype AccountPolicy = AccountPolicy(
    initialCredit: U32,
    maximumAvailable: U32,
    outgoingReservation: U32,
    incomingReservation: U32,
    policyRevision: U64,
    policyValidFrom: U64,
    policyValidUntil: U64,
    newcomerPeriod: U64,
    rateWindow: U64,
    newcomerAdmissions: U32,
    maximumAdmissions: U32,
    refillPeriod: U64,
    refillUnits: U32,
    abandonAfter: U64)
  {
    predicate Valid() {
      && maximumAvailable != 0
      && initialCredit <= maximumAvailable
      && outgoingReservation != 0
      && incomingReservation != 0
      && outgoingReservation <= maximumAvailable
      && incomingReservation <= maximumAvailable
      && outgoingReservation <= initialCredit
      && incomingReservation <= initialCredit
      && newcomerAdmissions != 0
      && newcomerAdmissions <= maximumAdmissions
      && refillUnits != 0
      && refillUnits <= initialCredit
      && rateWindow <= abandonAfter
      && 0 < newcomerPeriod <= MAX_INTEGER
      && 0 < rateWindow <= MAX_INTEGER
      && 0 < refillPeriod <= MAX_INTEGER
      && 0 < abandonAfter <= MAX_INTEGER
      && 0 < policyRevision <= MAX_INTEGER
      && 0 < policyValidFrom < policyValidUntil <= MAX_INTEGER
    }

    function Validate(): Result<()> {
      Need(Valid(), InvalidInput)
    }

    /** Common public proof horizon of the rate window that contains `now`. */
    function ProofValidUntil(now: U64): Result<U64> {
      var _ :- Validate();
      var _ :- Need(policyValidFrom <= now < policyValidUntil, Expired);
      assert 0 <= now / rateWindow <= now by { DivisionBounds(now, rateWindow); MulMonotone(1, rateWindow, now / rateWindow); }
      var end :- CheckedMul(now / rateWindow + 1, rateWindow);
      Ok(Min(end, policyValidUntil))
    }

    function ReservationDeadline(now: U64): Result<U64> {
      var horizon :- ProofValidUntil(now);
      var deadline :- CheckedAdd(now, abandonAfter);
      var _ :- Need(horizon <= deadline < policyValidUntil, Expired);
      Ok(deadline)
    }

    function ValidateAge(createdAt: U64, now: U64): Result<()> {
      var _ :- Validate();
      var _ :- Need(policyValidFrom <= createdAt <= policyValidUntil && now <= MAX_INTEGER, InvalidInput);
      var horizon :- ProofValidUntil(now);
      var _ :- Need(createdAt <= horizon, ClockRollback);
      Need(now < policyValidUntil, Expired)
    }

    predicate Newcomer(createdAt: U64, now: U64) {
      now < createdAt || now - createdAt < newcomerPeriod
    }

    function CapacityAt(createdAt: U64, now: U64): Result<U32> {
      var _ :- ValidateAge(createdAt, now);
      Ok(if Newcomer(createdAt, now) then initialCredit else maximumAvailable)
    }

    function AdmissionLimitAt(createdAt: U64, now: U64): Result<U32> {
      var _ :- ValidateAge(createdAt, now);
      Ok(if Newcomer(createdAt, now) then newcomerAdmissions else maximumAdmissions)
    }

    /** The same policy with another waiting period, the one tunable field. */
    function Retuned(seconds: U64): AccountPolicy {
      this.(abandonAfter := seconds)
    }
  }

  /** The horizon overflows for no valid policy, lies after `now`, within one window, and every
      instant between `now` and the horizon shares the window and the horizon. */
  lemma HorizonIsTheWindowEnd(p: AccountPolicy, now: U64)
    requires p.Valid() && p.policyValidFrom <= now < p.policyValidUntil
    ensures p.ProofValidUntil(now).Ok?
    ensures var h := p.ProofValidUntil(now).value;
            now < h <= now + p.rateWindow && h <= p.policyValidUntil <= MAX_INTEGER
    ensures forall later: U64 :: now <= later < p.ProofValidUntil(now).value ==>
              && later / p.rateWindow == now / p.rateWindow
              && p.ProofValidUntil(later) == p.ProofValidUntil(now)
  {
    var w := p.rateWindow;
    DivisionBounds(now, w);
    forall later: U64 | now <= later < p.ProofValidUntil(now).value
      ensures later / w == now / w
    {
      QuotientUnique(later, w, now / w);
    }
  }

  /** A new deadline never precedes the proof horizon, so inside the validity interval the only
      way to be refused one is that the refund would fall at or after policy expiry. */
  lemma DeadlineRefusedExactlyAtPolicyEnd(p: AccountPolicy, now: U64)
    requires p.Valid() && p.policyValidFrom <= now < p.policyValidUntil
    ensures p.ReservationDeadline(now).Ok? <==> now + p.abandonAfter < p.policyValidUntil
    ensures p.ReservationDeadline(now).Ok? ==>
              p.ProofValidUntil(now).value <= p.ReservationDeadline(now).value == now + p.abandonAfter
    ensures p.ReservationDeadline(now).Err? ==> p.ReservationDeadline(now).error == Expired
  {
    HorizonIsTheWindowEnd(p, now);
  }

  /** Age never costs a member capacity: both limits only grow, and they mature together. */
  lemma LimitsGrowTogether(p: AccountPolicy, createdAt: U64, now: U64, later: U64)
    requires now <= later
    requires p.CapacityAt(createdAt, now).Ok? && p.CapacityAt(createdAt, later).Ok?
    ensures p.CapacityAt(createdAt, now).value <= p.CapacityAt(createdAt, later).value
    ensures p.AdmissionLimitAt(createdAt, now).Ok? && p.AdmissionLimitAt(createdAt, later).Ok?
    ensures p.AdmissionLimitAt(createdAt, now).value <= p.AdmissionLimitAt(createdAt, later).value
    ensures p.CapacityAt(createdAt, now).value < p.CapacityAt(createdAt, later).value ==>
              now < createdAt + p.newcomerPeriod <= later
    ensures p.AdmissionLimitAt(createdAt, now).value < p.AdmissionLimitAt(createdAt, later).value ==>
              now < createdAt + p.newcomerPeriod <= later
    ensures createdAt + p.newcomerPeriod <= now ==>
              && p.CapacityAt(createdAt, now).value == p.maximumAvailable
              && p.AdmissionLimitAt(createdAt, now).value == p.maximumAdmissions
    ensures now < createdAt + p.newcomerPeriod ==>
              && p.CapacityAt(createdAt, now).value == p.initialCredit
              && p.AdmissionLimitAt(createdAt, now).value == p.newcomerAdmissions
  {
  }
}
