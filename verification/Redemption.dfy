/** One shared store of spent tokens per epoch, and the key-access wrapper that binds a spend to a
    challenge. A stamp's signature is represented by what it signs. */
module Redemption {
  import opened Basics
  import opened KeyAccess

  type Token = nat

  /** What a spend is bound to: an opaque commitment, or a key-access challenge and its deadline. */
  datatype Commitment = Opaque(value: nat) | Challenge(context: Epoch, digest: nat, expiresAt: U64)

  datatype Stamp = Stamp(context: Epoch, token: Token, commitment: Commitment, claim: nat, expiresAt: U64)

  datatype Spent = Spent(claim: nat, commitment: Commitment, stamp: Stamp)

  datatype Store = Store(context: Option<Epoch>, floor: U64, spent: map<Token, Spent>)

  /** `permit` is what verifying the token's own signature and the request's shape said. */
  datatype Spend = Spend(token: Token, claim: nat, commitment: Commitment, permit: Option<Error>)

  datatype Clock = Clock(before: U64, now: U64, completed: U64)

  function StoreOpened(s: Store, e: Epoch): Result<Store> {
    var _ :- Need(e.Valid(), InvalidInput);
    var _ :- Need(s.context.Some? ==> s.context.value == e, PolicyMismatch);
    Ok(if s.context.Some? then s else s.(context := Some(e), floor := 0))
  }

  function Redeemed(s: Store, e: Epoch, x: Spend, clock: Clock): Result<(Store, Stamp)> {
    var _ :- e.CheckTime(clock.before, false);
    var _ :- Verdict(x.permit);
    var _ :- Need(clock.before <= clock.now <= MAX_INTEGER && s.floor <= clock.now, ClockRollback);
    var _ :- e.CheckTime(clock.now, false);
    var stamp :-
      if x.token in s.spent then Recovered(s.spent[x.token], e, x)
      else Ok(Stamp(e, x.token, x.commitment, x.claim, e.expiresAt));
    var _ :- Need(clock.now <= clock.completed <= MAX_INTEGER, ClockRollback);
    var _ :- e.CheckTime(clock.completed, false);
    Ok((s.(floor := clock.completed,
           spent := if x.token in s.spent then s.spent else s.spent[x.token := Spent(x.claim, x.commitment, stamp)]),
        stamp))
  }

  function Recovered(prior: Spent, e: Epoch, x: Spend): Result<Stamp> {
    var _ :- Need(prior.claim == x.claim && prior.commitment == x.commitment, Error.Replay);
    var _ :- Need(prior.stamp == Stamp(e, x.token, prior.commitment, prior.claim, e.expiresAt), Storage);
    Ok(prior.stamp)
  }

  function Forgotten(s: Store, e: Epoch, now: U64): Result<Store> {
    var _ :- Need(e.expiresAt <= now <= MAX_INTEGER, Expired);
    var _ :- Need(s.floor <= now, ClockRollback);
    Ok(s.(floor := now, spent := map[]))
  }

  class PermitRedeemer {
    var context: Option<Epoch>
    var floor: U64
    var spent: map<Token, Spent>

    function View(): Store
      reads this
    {
      Store(context, floor, spent)
    }

    constructor ()
      ensures View() == Store(None, 0, map[])
    {
      context, floor, spent := None, 0, map[];
    }

    method Open(e: Epoch) returns (result: Result<()>)
      modifies this
      ensures match StoreOpened(old(View()), e)
              case Ok(s) => View() == s && result == Ok(())
              case Err(err) => View() == old(View()) && result == Err(err)
    {
      if !e.Valid() {
        return Err(InvalidInput);
      }
      if context.Some? && context.value != e {
        return Err(PolicyMismatch);
      }
      if context.None? {
        context, floor := Some(e), 0;
      }
      return Ok(());
    }

    method Redeem(e: Epoch, x: Spend, clock: Clock) returns (result: Result<Stamp>)
      modifies this
      ensures match Redeemed(old(View()), e, x, clock)
              case Ok((s, stamp)) => View() == s && result == Ok(stamp)
              case Err(err) => View() == old(View()) && result == Err(err)
    {
      var _ :- e.CheckTime(clock.before, false);
      var _ :- Verdict(x.permit);
      if clock.now > MAX_INTEGER || clock.now < clock.before || clock.now < floor {
        return Err(ClockRollback);
      }
      var _ :- e.CheckTime(clock.now, false);
      var stamp := Stamp(e, x.token, x.commitment, x.claim, e.expiresAt);
      if x.token in spent {
        stamp :- Recovered(spent[x.token], e, x);
      }
      if clock.completed < clock.now || clock.completed > MAX_INTEGER {
        return Err(ClockRollback);
      }
      var _ :- e.CheckTime(clock.completed, false);
      if x.token !in spent {
        spent := spent[x.token := Spent(x.claim, x.commitment, stamp)];
      }
      floor := clock.completed;
      return Ok(stamp);
    }

    method PruneExpired(e: Epoch, now: U64) returns (result: Result<()>)
      modifies this
      ensures match Forgotten(old(View()), e, now)
              case Ok(s) => View() == s && result == Ok(())
              case Err(err) => View() == old(View()) && result == Err(err)
    {
      if now < e.expiresAt || now > MAX_INTEGER {
        return Err(Expired);
      }
      if now < floor {
        return Err(ClockRollback);
      }
      spent := map[];
      floor := now;
      return Ok(());
    }

    /** The key-access redeemer: a sample at or past the challenge's deadline, or behind the first
        one, is passed on as the epoch's end, so that no late spend commits. */
    method RedeemTicket(e: Epoch, token: Token, claim: nat, digest: nat, expiresAt: U64, permit: Option<Error>, start: U64, clock: Clock)
      returns (result: Result<Stamp>)
      modifies this
      ensures match Ticket(old(View()), e, token, claim, digest, expiresAt, permit, start, clock)
              case Ok((s, stamp)) => View() == s && result == Ok(stamp)
              case Err(err) => View() == old(View()) && result == Err(err)
    {
      if digest == 0 || expiresAt <= e.validFrom || expiresAt > e.expiresAt {
        return Err(InvalidInput);
      }
      if start >= expiresAt {
        return Err(Expired);
      }
      if claim == 0 {
        return Err(InvalidInput);
      }
      result := Redeem(e, Spend(token, claim, Challenge(e, digest, expiresAt), permit), Guarded(e, expiresAt, start, clock));
    }
  }

  function Guard(e: Epoch, expiresAt: U64, start: U64, at: U64): U64 {
    if at >= expiresAt || at < start then e.expiresAt else at
  }

  function Guarded(e: Epoch, expiresAt: U64, start: U64, clock: Clock): Clock {
    Clock(Guard(e, expiresAt, start, clock.before), Guard(e, expiresAt, start, clock.now), Guard(e, expiresAt, start, clock.completed))
  }

  function Ticket(s: Store, e: Epoch, token: Token, claim: nat, digest: nat, expiresAt: U64, permit: Option<Error>, start: U64, clock: Clock)
    : Result<(Store, Stamp)>
  {
    var _ :- Need(digest != 0 && e.validFrom < expiresAt <= e.expiresAt, InvalidInput);
    var _ :- Need(start < expiresAt, Expired);
    var _ :- Need(claim != 0, InvalidInput);
    Redeemed(s, e, Spend(token, claim, Challenge(e, digest, expiresAt), permit), Guarded(e, expiresAt, start, clock))
  }

  /* ----- runs ----- */

  datatype Action =
    | Open(epoch: Epoch)
    | Redeem(spend: Spend, clock: Clock)
    | Prune(now: U64)

  /** `stamps` is a history variable: every stamp handed out, in order. */
  datatype State = State(store: Store, stamps: seq<Stamp>)

  const START: State := State(Store(None, 0, map[]), [])

  /** Any replica works on the store's own epoch: opening with another one is refused. */
  function Step(s: State, a: Action): State {
    match a
    case Open(e) => if StoreOpened(s.store, e).Ok? then s.(store := StoreOpened(s.store, e).value) else s
    case Redeem(x, clock) =>
      if s.store.context.None? || Redeemed(s.store, s.store.context.value, x, clock).Err? then s
      else
        var (store, stamp) := Redeemed(s.store, s.store.context.value, x, clock).value;
        State(store, s.stamps + [stamp])
    case Prune(now) =>
      if s.store.context.None? || Forgotten(s.store, s.store.context.value, now).Err? then s
      else s.(store := Forgotten(s.store, s.store.context.value, now).value)
  }

  function Run(s: State, actions: seq<Action>): State
    decreases |actions|
  {
    if actions == [] then s else Run(Step(s, actions[0]), actions[1..])
  }

  /** Until the epoch ends every stamp handed out is stored, and every stored stamp is the one
      its row spells out. */
  ghost predicate StateOk(s: State) {
    && (s.store.context.None? ==> s.stamps == [] && s.store.spent == map[])
    && (s.store.context.Some? ==>
          var e := s.store.context.value;
          && (s.store.floor < e.expiresAt ==>
                forall i | 0 <= i < |s.stamps| :: s.stamps[i].token in s.store.spent && s.store.spent[s.stamps[i].token].stamp == s.stamps[i])
          && (forall t | t in s.store.spent ::
                var row := s.store.spent[t]; row.stamp == Stamp(e, t, row.commitment, row.claim, e.expiresAt)))
    && (forall i, j | 0 <= i <= j < |s.stamps| && s.stamps[i].token == s.stamps[j].token :: s.stamps[i] == s.stamps[j])
  }

  lemma RedeemMoves(s: Store, e: Epoch, x: Spend, clock: Clock)
    requires Redeemed(s, e, x, clock).Ok?
    ensures var (after, stamp) := Redeemed(s, e, x, clock).value;
      && s.floor <= clock.now < e.expiresAt && s.floor <= after.floor && after.context == s.context
      && stamp.token == x.token
      && (x.token in s.spent ==>
            && stamp == s.spent[x.token].stamp && after.spent == s.spent
            && s.spent[x.token].claim == x.claim && s.spent[x.token].commitment == x.commitment)
      && (x.token !in s.spent ==>
            && stamp == Stamp(e, x.token, x.commitment, x.claim, e.expiresAt)
            && after.spent == s.spent[x.token := Spent(x.claim, x.commitment, stamp)])
  {
  }

  lemma StepKeepsState(s: State, a: Action)
    requires StateOk(s)
    ensures StateOk(Step(s, a))
    ensures s.store.context.Some? ==> Step(s, a).store.context == s.store.context && s.store.floor <= Step(s, a).store.floor
  {
    hide Redeemed;
    if a.Redeem? && s.store.context.Some? && Redeemed(s.store, s.store.context.value, a.spend, a.clock).Ok? {
      RedeemMoves(s.store, s.store.context.value, a.spend, a.clock);
    }
  }

  lemma {:induction false} RunKeepsState(s: State, actions: seq<Action>)
    requires StateOk(s)
    ensures StateOk(Run(s, actions))
    ensures s.store.context.Some? ==> Run(s, actions).store.context == s.store.context && s.store.floor <= Run(s, actions).store.floor
    decreases |actions|
  {
    hide StateOk, Step;
    if actions != [] {
      StepKeepsState(s, actions[0]);
      RunKeepsState(Step(s, actions[0]), actions[1..]);
    }
  }

  /** Over the store's whole life, pruned and reopened at will, a token yields one stamp: one claim
      and one commitment. */
  lemma OneStampPerToken(actions: seq<Action>, i: nat, j: nat)
    requires i <= j < |Run(START, actions).stamps|
    requires Run(START, actions).stamps[i].token == Run(START, actions).stamps[j].token
    ensures Run(START, actions).stamps[i] == Run(START, actions).stamps[j]
  {
    hide Run;
    RunKeepsState(START, actions);
  }

  /** Once pruned, an epoch's store never stamps again. */
  lemma PrunedStoresStayClosed(actions: seq<Action>, now: U64, later: seq<Action>, x: Spend, clock: Clock)
    requires var s := Run(START, actions).store; s.context.Some? && Forgotten(s, s.context.value, now).Ok?
    ensures var s := Run(Step(Run(START, actions), Prune(now)), later).store;
      s.context.Some? && Redeemed(s, s.context.value, x, clock).Err?
  {
    hide Run, StateOk, Redeemed;
    StartIsOk();
    RunKeepsState(START, actions);
    var s := Run(START, actions);
    StepKeepsState(s, Prune(now));
    RunKeepsState(Step(s, Prune(now)), later);
    var t := Run(Step(s, Prune(now)), later).store;
    if Redeemed(t, t.context.value, x, clock).Ok? {
      RedeemMoves(t, t.context.value, x, clock);
    }
  }

  lemma StartIsOk()
    ensures StateOk(START)
  {
  }

  /** Stored rows never fail their own checks. */
  lemma StoredStampsNeverFail(actions: seq<Action>, x: Spend, clock: Clock)
    requires Run(START, actions).store.context.Some?
    ensures var s := Run(START, actions).store;
      Redeemed(s, s.context.value, x, clock) == Err(Storage) ==> x.permit == Some(Storage)
  {
    hide Run;
    RunKeepsState(START, actions);
  }

  /** A ticket commits only before its challenge's deadline, at every sample, and its stamp names
      exactly that challenge. */
  lemma TicketsAreNeverLate(s: Store, e: Epoch, token: Token, claim: nat, digest: nat, expiresAt: U64, permit: Option<Error>, start: U64, clock: Clock)
    requires Ticket(s, e, token, claim, digest, expiresAt, permit, start, clock).Ok?
    ensures start <= clock.before <= clock.now <= clock.completed < expiresAt <= e.expiresAt
    ensures Ticket(s, e, token, claim, digest, expiresAt, permit, start, clock).value.1
      == Stamp(e, token, Challenge(e, digest, expiresAt), claim, e.expiresAt)
  {
  }

  /* ----- exactly which spends are stamped ----- */

  /** The permit verifies and the samples rise inside the epoch, past the store's floor. */
  predicate Spendable(floor: U64, e: Epoch, x: Spend, clock: Clock) {
    && x.permit.None?
    && e.validFrom <= clock.before <= clock.now <= clock.completed < e.expiresAt && clock.completed <= MAX_INTEGER
    && floor <= clock.now
  }

  lemma RedeemDecides(s: State, x: Spend, clock: Clock)
    requires StateOk(s) && s.store.context.Some?
    ensures var e := s.store.context.value;
      Redeemed(s.store, e, x, clock).Ok? <==>
        && Spendable(s.store.floor, e, x, clock)
        && (x.token in s.store.spent ==> s.store.spent[x.token].claim == x.claim && s.store.spent[x.token].commitment == x.commitment)
  {
  }

  lemma RowsAreStamps(s: State, t: Token)
    requires StateOk(s) && s.store.context.Some? && s.store.floor < s.store.context.value.expiresAt
    ensures forall i | 0 <= i < |s.stamps| && s.stamps[i].token == t ::
      && t in s.store.spent && s.store.spent[t].claim == s.stamps[i].claim && s.store.spent[t].commitment == s.stamps[i].commitment
  {
  }

  /** Every stored token was handed a stamp. */
  ghost predicate Handed(s: State) {
    forall t | t in s.store.spent :: exists i :: 0 <= i < |s.stamps| && s.stamps[i].token == t
  }

  lemma StepHands(s: State, a: Action)
    requires StateOk(s) && Handed(s)
    ensures Handed(Step(s, a))
  {
    hide Redeemed, StateOk;
    var after := Step(s, a);
    if a.Redeem? && s.store.context.Some? && Redeemed(s.store, s.store.context.value, a.spend, a.clock).Ok? {
      RedeemMoves(s.store, s.store.context.value, a.spend, a.clock);
      forall t | t in after.store.spent
        ensures exists i :: 0 <= i < |after.stamps| && after.stamps[i].token == t
      {
        if t == a.spend.token {
          assert after.stamps[|s.stamps|].token == t;
        } else {
          var i :| 0 <= i < |s.stamps| && s.stamps[i].token == t;
          assert after.stamps[i].token == t;
        }
      }
    }
  }

  lemma {:induction false} RunHands(s: State, actions: seq<Action>)
    requires StateOk(s) && Handed(s)
    ensures StateOk(Run(s, actions)) && Handed(Run(s, actions))
    decreases |actions|
  {
    hide StateOk, Handed, Step;
    if actions != [] {
      StepKeepsState(s, actions[0]);
      StepHands(s, actions[0]);
      RunHands(Step(s, actions[0]), actions[1..]);
    }
  }

  /** In every run a spend is stamped if and only if its permit verifies, its samples rise inside the
      epoch past the floor, and every stamp ever handed out for its token names the same claim and
      commitment. */
  lemma StampedExactly(actions: seq<Action>, x: Spend, clock: Clock)
    requires Run(START, actions).store.context.Some?
    ensures var s := Run(START, actions);
      var e := s.store.context.value;
      Redeemed(s.store, e, x, clock).Ok? <==>
        && Spendable(s.store.floor, e, x, clock)
        && forall i | 0 <= i < |s.stamps| && s.stamps[i].token == x.token :: s.stamps[i].claim == x.claim && s.stamps[i].commitment == x.commitment
  {
    hide Run, StateOk, Redeemed;
    StartIsOk();
    RunHands(START, actions);
    var s := Run(START, actions);
    RedeemDecides(s, x, clock);
    if s.store.floor < s.store.context.value.expiresAt {
      RowsAreStamps(s, x.token);
    }
  }

  /** A ticket is stamped exactly where its challenge is in range, every sample lies between the first
      one and the challenge's deadline, and the bare spend would be stamped. */
  lemma TicketExactly(s: Store, e: Epoch, token: Token, claim: nat, digest: nat, expiresAt: U64, permit: Option<Error>, start: U64, clock: Clock)
    ensures Ticket(s, e, token, claim, digest, expiresAt, permit, start, clock).Ok? <==>
      && digest != 0 && claim != 0 && e.validFrom < expiresAt <= e.expiresAt
      && start <= clock.before <= clock.now <= clock.completed < expiresAt
      && Redeemed(s, e, Spend(token, claim, Challenge(e, digest, expiresAt), permit), clock).Ok?
  {
  }

  /** Pruning forgets every spent token of an ended epoch and nothing else moves back. */
  lemma PruneForgets(s: Store, e: Epoch, now: U64)
    ensures Forgotten(s, e, now).Ok? <==> e.expiresAt <= now <= MAX_INTEGER && s.floor <= now
    ensures Forgotten(s, e, now).Ok? ==> Forgotten(s, e, now).value == Store(s.context, now, map[])
  {
  }
}
