/** What any sequence of calls, retries and lost replies leaves true of the allowance ledger. */
module AllocationTheorems {
  import opened Basics
  import opened Allocation

  /** A debit and what it was answered. */
  datatype Debit = Debit(member: MemberId, nonce: Nonce, period: U64, receipt: Receipt)

  /** `debits` is a history variable. */
  datatype State = State(ledger: Ledger, debits: seq<Debit>)

  const EMPTY: State := State(Ledger(0, map[], map[], map[]), [])

  function Step(s: State, p: Policy, x: Presentation): State
    requires p.Valid()
  {
    match Issued(s.ledger, p, x)
    case Err(_) => s
    case Ok((ledger, receipt)) =>
      State(ledger,
            if Key(x.request) in s.ledger.reservations then s.debits
            else s.debits + [Debit(x.request.memberId, x.request.nonce, PeriodOf(x.now, p), receipt)])
  }

  function Run(s: State, p: Policy, calls: seq<Presentation>): State
    requires p.Valid()
    decreases |calls|
  {
    if calls == [] then s else Run(Step(s, p, calls[0]), p, calls[1..])
  }

  function Count(debits: seq<Debit>, m: MemberId): nat {
    if debits == [] then 0
    else Count(debits[..|debits| - 1], m) + if debits[|debits| - 1].member == m then 1 else 0
  }

  lemma CountAppend(debits: seq<Debit>, d: Debit, m: MemberId)
    ensures Count(debits + [d], m) == Count(debits, m) + if d.member == m then 1 else 0
  {
    assert (debits + [d])[..|debits|] == debits;
  }

  /* ----- stored rows ----- */

  ghost predicate RowsOk(l: Ledger, p: Policy)
    requires p.Valid()
  {
    && l.clockFloor <= MAX_INTEGER
    && (forall m | m in l.members :: l.members[m].credits <= p.creditCap && l.members[m].lastPeriod <= PeriodOf(l.clockFloor, p))
    && (forall k | k in l.reservations ::
          && k == Key(l.reservations[k].request) && k.0 in l.members && k in l.responses
          && l.reservations[k].remaining <= p.creditCap)
  }

  lemma PeriodMonotone(a: U64, b: U64, p: Policy)
    requires p.Valid() && a <= b
    ensures PeriodOf(a, p) <= PeriodOf(b, p)
  {
    DivisionBounds(a, p.periodSeconds);
    DivisionBounds(b, p.periodSeconds);
    if PeriodOf(b, p) < PeriodOf(a, p) {
      MulMonotone(b / p.periodSeconds + 1, a / p.periodSeconds, p.periodSeconds);
    }
  }

  /** Past the clock-floor test no stored row is refused and no subtraction fails: what remains is
      the policy's answer or the caller's clock. */
  lemma StoredRowsNeverFail(l: Ledger, p: Policy, x: Presentation)
    requires p.Valid() && RowsOk(l, p) && Admitted(p, x).Ok? && OnTime(l, x).Ok?
    ensures Refill(l, p, x.request.memberId, PeriodOf(x.now, p)).Ok?
    ensures Issued(l, p, x) == Err(Storage) ==> x.issued == Err(Storage)
    ensures Issued(l, p, x) == Err(ClockRollback) ==> x.issued == Err(ClockRollback) || x.completedAt < x.now || MAX_INTEGER < x.completedAt
  {
    hide Refilled;
    PeriodMonotone(l.clockFloor, x.now, p);
    RefillCapped(l, p, x.request.memberId, PeriodOf(x.now, p));
  }

  lemma RefillCapped(l: Ledger, p: Policy, m: MemberId, period: U64)
    requires p.Valid()
    ensures Refill(l, p, m, period).Ok? ==> Refill(l, p, m, period).value <= p.creditCap
  {
  }

  lemma StepKeepsRows(s: State, p: Policy, x: Presentation)
    requires p.Valid() && RowsOk(s.ledger, p)
    ensures RowsOk(Step(s, p, x).ledger, p)
    ensures s.ledger.clockFloor <= Step(s, p, x).ledger.clockFloor
  {
    hide Refill, PeriodOf;
    if Issued(s.ledger, p, x).Ok? {
      PeriodMonotone(s.ledger.clockFloor, x.now, p);
      RefillCapped(s.ledger, p, x.request.memberId, PeriodOf(x.now, p));
      if Key(x.request) !in s.ledger.reservations {
        PeriodMonotone(x.now, x.completedAt, p);
      }
    }
  }

  /* ----- debits ----- */

  /** The debits and the reservations are the same keys, each once. */
  ghost predicate DebitsOk(s: State) {
    && (forall i | 0 <= i < |s.debits| :: (s.debits[i].member, s.debits[i].nonce) in s.ledger.reservations)
    && (forall i, j | 0 <= i < j < |s.debits| :: (s.debits[i].member, s.debits[i].nonce) != (s.debits[j].member, s.debits[j].nonce))
    && |s.debits| == |s.ledger.reservations|
  }

  lemma StepKeepsDebits(s: State, p: Policy, x: Presentation)
    requires p.Valid() && DebitsOk(s)
    ensures DebitsOk(Step(s, p, x))
  {
    hide Refill, PeriodOf, Admitted, OnTime;
  }

  /** The reservations are the debits' keys, and each stores what its debit was answered. */
  ghost predicate AnswersOk(s: State) {
    && (forall i | 0 <= i < |s.debits| :: StoredAsAnswered(s.ledger, s.debits[i]))
    && (forall k | k in s.ledger.reservations :: Taken(s.debits, k.0, k.1))
  }

  predicate StoredAsAnswered(l: Ledger, d: Debit) {
    var k := (d.member, d.nonce);
    && k == Key(d.receipt.request) && k in l.reservations && k in l.responses
    && l.reservations[k] == Reservation(d.receipt.request, d.receipt.remaining) && l.responses[k] == d.receipt.response
  }

  /** Some debit used the member's nonce. */
  ghost predicate Taken(debits: seq<Debit>, m: MemberId, n: Nonce) {
    exists i :: 0 <= i < |debits| && debits[i].member == m && debits[i].nonce == n
  }

  lemma TakenAppend(debits: seq<Debit>, d: Debit, m: MemberId, n: Nonce)
    ensures Taken(debits + [d], m, n) <==> Taken(debits, m, n) || (d.member == m && d.nonce == n)
  {
    var longer := debits + [d];
    assert longer[|debits|] == d;
    assert forall i | 0 <= i < |debits| :: longer[i] == debits[i];
    if Taken(debits, m, n) {
      var i :| 0 <= i < |debits| && debits[i].member == m && debits[i].nonce == n;
      assert longer[i] == debits[i];
    }
  }

  lemma StepKeepsAnswers(s: State, p: Policy, x: Presentation)
    requires p.Valid() && AnswersOk(s)
    ensures AnswersOk(Step(s, p, x))
  {
    hide Refill, PeriodOf, Admitted, OnTime, Taken;
    if Issued(s.ledger, p, x).Ok? && Key(x.request) !in s.ledger.reservations {
      var after := Step(s, p, x);
      forall k | k in after.ledger.reservations
        ensures Taken(after.debits, k.0, k.1)
      {
        TakenAppend(s.debits, after.debits[|s.debits|], k.0, k.1);
      }
    }
  }

  /* ----- allowances ----- */

  /** What a member may have had in hand just before its `i`th debit. */
  function Allowance(debits: seq<Debit>, p: Policy, i: nat): nat
    requires i < |debits|
  {
    if Count(debits[..i], debits[i].member) == 0 then p.initialCredits else p.creditCap
  }

  /** From any debit on: balance plus debits stay within the allowance then and the credits since. */
  ghost predicate BucketOk(s: State, p: Policy, i: nat)
    requires i < |s.debits|
  {
    var d := s.debits[i];
    && d.member in s.ledger.members
    && d.period <= s.ledger.members[d.member].lastPeriod
    && s.ledger.members[d.member].credits + Count(s.debits[i..], d.member)
         <= Allowance(s.debits, p, i) + (s.ledger.members[d.member].lastPeriod - d.period) * p.periodicCredits
  }

  /** Between any two debits of a member. */
  ghost predicate SpanOk(debits: seq<Debit>, p: Policy, i: nat, j: nat)
    requires i <= j < |debits|
  {
    debits[i].member == debits[j].member ==>
      && debits[i].period <= debits[j].period
      && Count(debits[i..j + 1], debits[i].member) <= Allowance(debits, p, i) + (debits[j].period - debits[i].period) * p.periodicCredits
  }

  ghost predicate Metered(s: State, p: Policy) {
    && (forall i | 0 <= i < |s.debits| :: BucketOk(s, p, i))
    && (forall i, j | 0 <= i <= j < |s.debits| :: SpanOk(s.debits, p, i, j))
    && (forall m :: m in s.ledger.members <==> Count(s.debits, m) > 0)
  }

  lemma RefillBound(l: Ledger, p: Policy, m: MemberId, period: U64)
    requires p.Valid() && Refill(l, p, m, period).Ok?
    ensures m in l.members ==>
      && l.members[m].lastPeriod <= period
      && Refill(l, p, m, period).value <= l.members[m].credits + (period - l.members[m].lastPeriod) * p.periodicCredits
    ensures m !in l.members ==> Refill(l, p, m, period).value == p.initialCredits
  {
    if m in l.members {
      MulNonNegative(period - l.members[m].lastPeriod, p.periodicCredits);
    }
  }

  lemma MulNonNegative(a: nat, b: nat)
    ensures 0 <= a * b
  {
  }

  /** How one effective debit moves the books. */
  lemma DebitMoves(s: State, p: Policy, x: Presentation)
    requires p.Valid() && Issued(s.ledger, p, x).Ok? && Key(x.request) !in s.ledger.reservations
    ensures var after, m, period := Step(s, p, x), x.request.memberId, PeriodOf(x.now, p);
      && after.debits == s.debits + [Debit(m, x.request.nonce, period, Issued(s.ledger, p, x).value.1)]
      && after.ledger.members.Keys == s.ledger.members.Keys + {m}
      && (forall o | o in s.ledger.members && o != m :: after.ledger.members[o] == s.ledger.members[o])
      && after.ledger.members[m].lastPeriod == period
      && (m in s.ledger.members ==>
            && s.ledger.members[m].lastPeriod <= period
            && after.ledger.members[m].credits + 1 <= s.ledger.members[m].credits + (period - s.ledger.members[m].lastPeriod) * p.periodicCredits
            && after.ledger.members[m].credits + 1 <= p.creditCap)
      && (m !in s.ledger.members ==> after.ledger.members[m].credits + 1 == p.initialCredits)
  {
    hide Refill, PeriodOf, Admitted, OnTime;
    RefillBound(s.ledger, p, x.request.memberId, PeriodOf(x.now, p));
    RefillCapped(s.ledger, p, x.request.memberId, PeriodOf(x.now, p));
  }

  lemma AllowanceKept(debits: seq<Debit>, d: Debit, p: Policy, i: nat)
    requires i < |debits|
    ensures Allowance(debits + [d], p, i) == Allowance(debits, p, i)
  {
    assert (debits + [d])[..i] == debits[..i];
  }

  lemma BucketAfterDebit(s: State, p: Policy, x: Presentation, i: nat)
    requires p.Valid() && Issued(s.ledger, p, x).Ok? && Key(x.request) !in s.ledger.reservations
    requires i < |s.debits| && BucketOk(s, p, i)
    ensures BucketOk(Step(s, p, x), p, i)
  {
    hide Step, Allowance, PeriodOf, Issued;
    var after, m, d := Step(s, p, x), x.request.memberId, s.debits[i];
    DebitMoves(s, p, x);
    var latest := after.debits[|s.debits|];
    AllowanceKept(s.debits, latest, p, i);
    assert after.debits[i..] == s.debits[i..] + [latest];
    CountAppend(s.debits[i..], latest, d.member);
    if d.member == m {
      var last := s.ledger.members[m].lastPeriod;
      Distribute(latest.period - last, last - d.period, p.periodicCredits);
    }
  }

  lemma Distribute(a: int, b: int, c: int)
    ensures a * c + b * c == (a + b) * c
  {
  }

  lemma BucketOfNewDebit(s: State, p: Policy, x: Presentation)
    requires p.Valid() && Issued(s.ledger, p, x).Ok? && Key(x.request) !in s.ledger.reservations && Metered(s, p)
    ensures BucketOk(Step(s, p, x), p, |s.debits|)
  {
    hide Step, PeriodOf, Issued, BucketOk, SpanOk;
    var after, m := Step(s, p, x), x.request.memberId;
    DebitMoves(s, p, x);
    NewDebitBucket(after, p, |s.debits|);
    assert after.debits[..|s.debits|] == s.debits;
  }

  lemma NewDebitBucket(after: State, p: Policy, n: nat)
    requires |after.debits| == n + 1 && after.debits[n].member in after.ledger.members
    requires after.ledger.members[after.debits[n].member].lastPeriod == after.debits[n].period
    requires after.ledger.members[after.debits[n].member].credits + 1 <= Allowance(after.debits, p, n)
    ensures BucketOk(after, p, n)
  {
    assert after.debits[n..] == [] + [after.debits[n]];
    CountAppend([], after.debits[n], after.debits[n].member);
  }

  lemma StepKeepsMetering(s: State, p: Policy, x: Presentation)
    requires p.Valid() && Metered(s, p)
    ensures Metered(Step(s, p, x), p)
  {
    hide BucketOk, SpanOk, Issued;
    var after := Step(s, p, x);
    if Issued(s.ledger, p, x).Ok? && Key(x.request) !in s.ledger.reservations {
      DebitMoves(s, p, x);
      var n := |s.debits|;
      forall i | 0 <= i <= n
        ensures BucketOk(after, p, i)
      {
        if i < n { BucketAfterDebit(s, p, x, i); } else { BucketOfNewDebit(s, p, x); }
      }
      forall i, j | 0 <= i <= j <= n
        ensures SpanOk(after.debits, p, i, j)
      {
        if j < n {
          SpanKept(s.debits, after.debits[n], p, i, j);
        } else {
          assert BucketOk(after, p, i);
          SpanFromBucket(after, p, i);
        }
      }
      forall m
        ensures m in after.ledger.members <==> Count(after.debits, m) > 0
      {
        CountAppend(s.debits, after.debits[n], m);
      }
    } else {
      RecoveryKeepsMetering(s, p, x);
    }
  }

  lemma SpanKept(debits: seq<Debit>, d: Debit, p: Policy, i: nat, j: nat)
    requires i <= j < |debits| && SpanOk(debits, p, i, j)
    ensures SpanOk(debits + [d], p, i, j)
  {
    AllowanceKept(debits, d, p, i);
    assert (debits + [d])[i..j + 1] == debits[i..j + 1];
  }

  lemma SpanFromBucket(s: State, p: Policy, i: nat)
    requires i < |s.debits| && BucketOk(s, p, i)
    requires var last := s.debits[|s.debits| - 1]; last.member in s.ledger.members && s.ledger.members[last.member].lastPeriod == last.period
    ensures SpanOk(s.debits, p, i, |s.debits| - 1)
  {
    assert s.debits[i..|s.debits|] == s.debits[i..];
  }

  lemma RecoveryKeepsMetering(s: State, p: Policy, x: Presentation)
    requires p.Valid() && Metered(s, p)
    requires Issued(s.ledger, p, x).Err? || Key(x.request) in s.ledger.reservations
    ensures Metered(Step(s, p, x), p)
  {
    hide SpanOk, Debited, Admitted, OnTime;
    var after := Step(s, p, x);
    forall i | 0 <= i < |s.debits|
      ensures BucketOk(after, p, i)
    {
      assert BucketOk(s, p, i);
    }
  }

  /* ----- the ledger that credits every period as it passes ----- */

  /** Balance and period after a member's debits, crediting period by period in between. */
  function Eager(debits: seq<Debit>, p: Policy, m: MemberId): Option<(int, nat)> {
    if debits == [] then None
    else
      var before, last := Eager(debits[..|debits| - 1], p, m), debits[|debits| - 1];
      if last.member != m then before
      else if before.None? then Some((p.initialCredits - 1, last.period))
      else if before.value.0 < 0 || last.period < before.value.1 then None
      else Some((CreditedPerPeriod(before.value.0, last.period - before.value.1, p) - 1, last.period))
  }

  /** The lazy rows are the eager ledger's. */
  ghost predicate RowsAreEager(s: State, p: Policy) {
    forall m: MemberId ::
      Eager(s.debits, p, m) == if m in s.ledger.members then Some((s.ledger.members[m].credits, s.ledger.members[m].lastPeriod)) else None
  }

  lemma StepKeepsEager(s: State, p: Policy, x: Presentation)
    requires p.Valid() && RowsOk(s.ledger, p) && RowsAreEager(s, p)
    ensures RowsAreEager(Step(s, p, x), p)
  {
    hide Issued, PeriodOf;
    if Issued(s.ledger, p, x).Ok? {
      if Key(x.request) in s.ledger.reservations {
        RecoveryKeepsMembers(s, p, x);
      } else {
        var after, period := Step(s, p, x), PeriodOf(x.now, p);
        DebitIsEager(s, p, x);
        DebitMoves(s, p, x);
        assert after.debits[..|s.debits|] == s.debits;
      }
    }
  }

  lemma RecoveryKeepsMembers(s: State, p: Policy, x: Presentation)
    requires p.Valid() && Issued(s.ledger, p, x).Ok? && Key(x.request) in s.ledger.reservations
    ensures Step(s, p, x).ledger.members == s.ledger.members && Step(s, p, x).debits == s.debits
  {
    hide Admitted, OnTime, Debited;
  }

  lemma DebitIsEager(s: State, p: Policy, x: Presentation)
    requires p.Valid() && RowsOk(s.ledger, p) && Issued(s.ledger, p, x).Ok? && Key(x.request) !in s.ledger.reservations
    ensures var m, period, after := x.request.memberId, PeriodOf(x.now, p), Step(s, p, x).ledger.members;
      && m in after && after[m].lastPeriod == period
      && (m !in s.ledger.members ==> after[m].credits == p.initialCredits - 1)
      && (m in s.ledger.members ==>
            && s.ledger.members[m].lastPeriod <= period
            && after[m].credits == CreditedPerPeriod(s.ledger.members[m].credits, period - s.ledger.members[m].lastPeriod, p) - 1)
  {
    hide PeriodOf, Admitted, OnTime, Refilled;
    var m, period := x.request.memberId, PeriodOf(x.now, p);
    if m in s.ledger.members && s.ledger.members[m].lastPeriod <= period {
      RefillIsPerPeriod(s.ledger.members[m].credits, period - s.ledger.members[m].lastPeriod, p);
    }
  }

  /* ----- runs ----- */

  ghost predicate StateOk(s: State, p: Policy)
    requires p.Valid()
  {
    RowsOk(s.ledger, p) && DebitsOk(s) && AnswersOk(s) && Metered(s, p) && RowsAreEager(s, p)
  }

  lemma {:induction false} RunKeepsState(s: State, p: Policy, calls: seq<Presentation>)
    requires p.Valid() && StateOk(s, p)
    ensures StateOk(Run(s, p, calls), p)
    decreases |calls|
  {
    hide Step, RowsOk, DebitsOk, AnswersOk, Metered, RowsAreEager;
    if calls != [] {
      StepKeepsAnswers(s, p, calls[0]);
      StepKeepsRows(s, p, calls[0]);
      StepKeepsDebits(s, p, calls[0]);
      StepKeepsMetering(s, p, calls[0]);
      StepKeepsEager(s, p, calls[0]);
      RunKeepsState(Step(s, p, calls[0]), p, calls[1..]);
    }
  }

  lemma EveryRunIsOk(p: Policy, calls: seq<Presentation>)
    requires p.Valid()
    ensures StateOk(Run(EMPTY, p, calls), p)
  {
    hide Run;
    RunKeepsState(EMPTY, p, calls);
  }

  /** A member's debits never exceed its initial credits and the credits of the periods since its
      first debit; between any two debits they never exceed the cap and the credits in between. */
  lemma DebitsAreBounded(p: Policy, calls: seq<Presentation>, i: nat, j: nat)
    requires p.Valid() && i <= j < |Run(EMPTY, p, calls).debits|
    requires Run(EMPTY, p, calls).debits[i].member == Run(EMPTY, p, calls).debits[j].member
    ensures var debits := Run(EMPTY, p, calls).debits;
      var m, span := debits[i].member, debits[j].period - debits[i].period;
      && 0 <= span
      && Count(debits[i..j + 1], m) <= p.creditCap + span * p.periodicCredits
      && (Count(debits[..i], m) == 0 ==> Count(debits[i..j + 1], m) <= p.initialCredits + span * p.periodicCredits)
  {
    hide Run, RowsOk, DebitsOk, AnswersOk, RowsAreEager;
    EveryRunIsOk(p, calls);
    assert SpanOk(Run(EMPTY, p, calls).debits, p, i, j);
  }

  /** In every run each stored balance is what a ledger crediting every period would show. */
  lemma BalancesAreEager(p: Policy, calls: seq<Presentation>, m: MemberId)
    requires p.Valid() && m in Run(EMPTY, p, calls).ledger.members
    ensures var s := Run(EMPTY, p, calls);
      Eager(s.debits, p, m) == Some((s.ledger.members[m].credits, s.ledger.members[m].lastPeriod))
  {
    hide Run, RowsOk, DebitsOk, AnswersOk, Metered;
    EveryRunIsOk(p, calls);
  }

  /** Each reservation was debited once, and nothing else was. */
  lemma EachNonceDebitsOnce(p: Policy, calls: seq<Presentation>)
    requires p.Valid()
    ensures DebitsOk(Run(EMPTY, p, calls))
    ensures forall m | m in Run(EMPTY, p, calls).ledger.members :: Run(EMPTY, p, calls).ledger.members[m].credits <= p.creditCap
  {
    hide Run, Metered, DebitsOk, AnswersOk, RowsAreEager;
    EveryRunIsOk(p, calls);
  }

  /* ----- retries ----- */

  ghost predicate Kept(a: Ledger, b: Ledger) {
    forall k | k in a.reservations && k in a.responses ::
      k in b.reservations && k in b.responses && b.reservations[k] == a.reservations[k] && b.responses[k] == a.responses[k]
  }

  lemma {:induction false} ReceiptsAreKept(s: State, p: Policy, calls: seq<Presentation>)
    requires p.Valid()
    ensures Kept(s.ledger, Run(s, p, calls).ledger)
    decreases |calls|
  {
    hide Issued;
    if calls != [] {
      StepKeepsReceipts(s, p, calls[0]);
      ReceiptsAreKept(Step(s, p, calls[0]), p, calls[1..]);
    }
  }

  lemma StepKeepsReceipts(s: State, p: Policy, x: Presentation)
    requires p.Valid()
    ensures Kept(s.ledger, Step(s, p, x).ledger)
  {
    hide Refill, PeriodOf, Admitted, OnTime;
  }

  /** Once a request has been answered, every later answer under its nonce is that answer, to that
      same request, whatever happened in between; nothing else is ever answered there. */
  lemma AnsweredOnceAnsweredAlike(p: Policy, calls: seq<Presentation>, x: Presentation, later: seq<Presentation>, y: Presentation)
    requires p.Valid() && Key(x.request) == Key(y.request)
    requires var s := Run(EMPTY, p, calls);
      Issued(s.ledger, p, x).Ok? && Issued(Run(Step(s, p, x), p, later).ledger, p, y).Ok?
    ensures var s := Run(EMPTY, p, calls);
      && y.request == x.request
      && Issued(Run(Step(s, p, x), p, later).ledger, p, y).value.1 == Issued(s.ledger, p, x).value.1
      && Run(Step(s, p, x), p, later + [y]).debits == Run(Step(s, p, x), p, later).debits
  {
    hide Run, Refill, PeriodOf, Admitted, OnTime, Metered, DebitsOk, AnswersOk, RowsAreEager;
    var s := Run(EMPTY, p, calls);
    EveryRunIsOk(p, calls);
    var after := Step(s, p, x);
    ReceiptsAreKept(after, p, later);
    AnswerIsStored(s, p, x);
    RunOneMore(after, p, later, y);
  }

  lemma AnswerIsStored(s: State, p: Policy, x: Presentation)
    requires p.Valid() && RowsOk(s.ledger, p) && Issued(s.ledger, p, x).Ok?
    ensures var after, k := Step(s, p, x).ledger, Key(x.request);
      && k in after.reservations && k in after.responses
      && Issued(s.ledger, p, x).value.1 == Receipt(after.reservations[k].request, after.reservations[k].remaining, after.responses[k])
      && after.reservations[k].request == x.request
  {
    hide Refill, PeriodOf, Admitted, OnTime;
  }

  lemma {:induction false} RunOneMore(s: State, p: Policy, calls: seq<Presentation>, x: Presentation)
    requires p.Valid()
    ensures Run(s, p, calls + [x]) == Step(Run(s, p, calls), p, x)
    decreases |calls|
  {
    hide Step;
    if calls == [] {
      assert Run(Step(s, p, x), p, [x][1..]) == Step(s, p, x);
      assert calls + [x] == [x];
    } else {
      assert (calls + [x])[1..] == calls[1..] + [x];
      RunOneMore(Step(s, p, calls[0]), p, calls[1..], x);
    }
  }

  /* ----- exactly what a call is answered ----- */

  /** The member's balance in a period, by its debits alone. */
  function Balance(debits: seq<Debit>, p: Policy, m: MemberId, period: nat): int {
    var last := Eager(debits, p, m);
    if last.None? then p.initialCredits
    else if last.value.0 < 0 || period < last.value.1 then -1
    else CreditedPerPeriod(last.value.0, period - last.value.1, p)
  }

  /** An admitted call whose readings and deadlines are in order under the clock floor. */
  predicate InOrder(floor: U64, p: Policy, x: Presentation) {
    var r := x.request;
    && x.admission.None? && x.signature.None?
    && 0 < r.issuedAt && r.expiresAt <= MAX_INTEGER && r.expiresAt - r.issuedAt <= p.maxAuthorizationSeconds
    && r.expiresAt <= x.grantExpiresAt && r.expiresAt <= x.authorizationExpiresAt
    && r.issuedAt <= x.before <= x.now < r.expiresAt && floor <= x.now
  }

  /** The issuer answers before the request expires. */
  predicate IssuedInTime(x: Presentation) {
    x.issued.Ok? && x.now <= x.completedAt < x.request.expiresAt
  }

  lemma InOrderIsChecked(l: Ledger, p: Policy, x: Presentation)
    ensures InOrder(l.clockFloor, p, x) <==> Admitted(p, x).Ok? && OnTime(l, x).Ok?
  {
  }

  lemma RefillIsBalance(s: State, p: Policy, x: Presentation)
    requires p.Valid() && RowsOk(s.ledger, p) && RowsAreEager(s, p) && s.ledger.clockFloor <= x.now
    ensures 0 <= Balance(s.debits, p, x.request.memberId, PeriodOf(x.now, p)) <= p.creditCap
    ensures Refill(s.ledger, p, x.request.memberId, PeriodOf(x.now, p)) == Ok(Balance(s.debits, p, x.request.memberId, PeriodOf(x.now, p)))
  {
    hide PeriodOf, Eager, Refilled;
    PeriodMonotone(s.ledger.clockFloor, x.now, p);
    var m, period := x.request.memberId, PeriodOf(x.now, p);
    assert Eager(s.debits, p, m) == if m in s.ledger.members then Some((s.ledger.members[m].credits, s.ledger.members[m].lastPeriod)) else None;
    RefillCapped(s.ledger, p, m, period);
    if m in s.ledger.members {
      RefillIsPerPeriod(s.ledger.members[m].credits, period - s.ledger.members[m].lastPeriod, p);
    }
  }

  /** The answer to a debit, and the clock it leaves. */
  predicate Debits(done: (Ledger, Receipt), x: Presentation, balance: int) {
    && done.1.request == x.request && done.1.remaining == balance - 1 && x.issued == Ok(done.1.response)
    && done.0.clockFloor == x.completedAt
  }

  lemma DebitedExactly(l: Ledger, p: Policy, x: Presentation, balance: int)
    requires p.Valid() && InOrder(l.clockFloor, p, x) && 0 <= balance <= p.creditCap
    requires Refill(l, p, x.request.memberId, PeriodOf(x.now, p)) == Ok(balance)
    ensures var done := Debited(l, p, x);
      && (done.Ok? <==> 0 < balance && IssuedInTime(x))
      && (done.Ok? ==> Debits(done.value, x, balance))
      && (done == Err(NoAllowance) <==> balance == 0 || x.issued == Err(NoAllowance))
      && (0 < balance && x.issued.Err? ==> done == Err(x.issued.error))
  {
    hide Refill;
  }

  /** In every run, a call in order under an unused nonce succeeds if and only if the member's
      balance is positive and the issuer answers in time; it is then told the balance less one. It
      is told it has no allowance exactly when the balance is zero. A call in order under a used
      nonce gets that debit's answer for the same request and a replay for any other. */
  lemma IssuedExactly(p: Policy, calls: seq<Presentation>, x: Presentation)
    requires p.Valid()
    ensures var s := Run(EMPTY, p, calls);
      var done, balance := Issued(s.ledger, p, x), Balance(s.debits, p, x.request.memberId, PeriodOf(x.now, p));
      && (done.Ok? ==> InOrder(s.ledger.clockFloor, p, x))
      && (InOrder(s.ledger.clockFloor, p, x) && !Taken(s.debits, x.request.memberId, x.request.nonce) ==>
            && (done.Ok? <==> 0 < balance && IssuedInTime(x))
            && (done.Ok? ==> Debits(done.value, x, balance))
            && (done == Err(NoAllowance) <==> balance == 0 || x.issued == Err(NoAllowance)))
      && (InOrder(s.ledger.clockFloor, p, x) ==>
            forall i | 0 <= i < |s.debits| && s.debits[i].member == x.request.memberId && s.debits[i].nonce == x.request.nonce ::
              && (if s.debits[i].receipt.request == x.request
                  then done == Ok((s.ledger.(clockFloor := x.now), s.debits[i].receipt)) else done == Err(Error.Replay)))
  {
    hide Run, Metered, DebitsOk, Refill, PeriodOf, Admitted, OnTime, Balance, Debited, InOrder, IssuedInTime;
    var s := Run(EMPTY, p, calls);
    EveryRunIsOk(p, calls);
    InOrderIsChecked(s.ledger, p, x);
    if InOrder(s.ledger.clockFloor, p, x) {
      FloorPassed(s.ledger.clockFloor, p, x);
      RefillIsBalance(s, p, x);
      DebitedExactly(s.ledger, p, x, Balance(s.debits, p, x.request.memberId, PeriodOf(x.now, p)));
      assert Taken(s.debits, x.request.memberId, x.request.nonce) <==> Key(x.request) in s.ledger.reservations;
    }
  }

  lemma FloorPassed(floor: U64, p: Policy, x: Presentation)
    requires InOrder(floor, p, x)
    ensures floor <= x.now
  {
  }
}
