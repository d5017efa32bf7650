/** Quotas over an epoch's whole life: replicas, retries, reopening and pruning. */
module KeyAccessTheorems {
  import opened AccountingWire
  import opened Basics
  import opened KeyAccess

  /** One committed blind signature. */
  datatype Grant = Grant(epoch: Epoch, member: MemberId, requestId: RequestId, policy: Policy, signature: BlindSignature)

  datatype Replica = Replica(epoch: Epoch, config: Config)

  datatype Action =
    | Open(epoch: Epoch, config: Config)
    | Issue(replica: Replica, presentation: Presentation)
    | Prune(now: U64)

  /** `grants` is a history variable; replicas, once opened, may be used at any later time. */
  datatype State = State(db: Db, replicas: set<Replica>, grants: seq<Grant>)

  const START: State := State(EMPTY, {}, [])

  function Step(s: State, a: Action): State {
    match a
    case Open(e, c) => if Opened(s.db, e, c).Ok? then s.(db := Opened(s.db, e, c).value, replicas := s.replicas + {Replica(e, c)}) else s
    case Issue(replica, x) =>
      if replica !in s.replicas then s
      else (
        match Issued(s.db, replica.epoch, replica.config.policy, x)
        case Err(_) => s
        case Ok((db, signature)) =>
          s.(db := db,
             grants := if IssueKey(replica.epoch, x.request) in s.db.issues then s.grants
                       else s.grants + [Grant(replica.epoch, x.request.memberId, x.request.requestId, replica.config.policy, signature)]))
    case Prune(now) => if Pruned(s.db, now).Ok? then s.(db := Pruned(s.db, now).value) else s
  }

  function Run(s: State, actions: seq<Action>): State
    decreases |actions|
  {
    if actions == [] then s else Run(Step(s, actions[0]), actions[1..])
  }

  function Count(grants: seq<Grant>, e: Epoch, m: MemberId): nat {
    if grants == [] then 0
    else Count(grants[..|grants| - 1], e, m) + if grants[|grants| - 1].epoch == e && grants[|grants| - 1].member == m then 1 else 0
  }

  lemma CountAppend(grants: seq<Grant>, g: Grant, e: Epoch, m: MemberId)
    ensures Count(grants + [g], e, m) == Count(grants, e, m) + if g.epoch == e && g.member == m then 1 else 0
  {
    assert (grants + [g])[..|grants|] == grants;
  }

  function Served(grants: seq<Grant>, e: Epoch): set<MemberId> {
    set g | g in grants && g.epoch == e :: g.member
  }

  /* ----- invariants ----- */

  /** An epoch the clock floor has passed. */
  predicate Dead(db: Db, e: Epoch) { e.expiresAt <= db.floor }

  ghost predicate RegistryOk(s: State) {
    && (forall e | e in s.db.registry :: s.db.registry[e] == e.publicKey)
    && (forall e, f | e in s.db.registry && f in s.db.registry && e.publicKey == f.publicKey :: e == f)
    && (forall r | r in s.replicas :: r.epoch in s.db.registry)
    && (forall r | r in s.replicas && !Dead(s.db, r.epoch) :: r.epoch in s.db.configs && s.db.configs[r.epoch] == r.config)
  }

  /** While an epoch lives its rows are its whole history, under one configuration. */
  ghost predicate EpochOk(s: State, e: Epoch) {
    !Dead(s.db, e) ==>
      && (forall m: MemberId :: Count(s.grants, e, m) == if (e, m) in s.db.members then s.db.members[(e, m)] else 0)
      && (forall m: MemberId | (e, m) in s.db.members :: 0 < s.db.members[(e, m)])
      && (forall i | 0 <= i < |s.grants| && s.grants[i].epoch == e ::
            && IssueKey3(s.grants[i]) in s.db.issues
            && s.db.issues[IssueKey3(s.grants[i])].signature == s.grants[i].signature
            && e in s.db.configs && s.db.configs[e].policy == s.grants[i].policy)
      && (forall k | k in s.db.members && k.0 == e :: e in s.db.configs)
      && (forall k | k in s.db.issues && k.0 == e :: (e, k.1) in s.db.members && |s.db.issues[k].signature| == RSA_BYTES)
      && Served(s.grants, e) == MembersOf(s.db, e)
      && (forall k | k in s.db.issues && k.0 == e :: Granted(s.grants, k))
  }

  ghost predicate Granted(grants: seq<Grant>, k: (Epoch, MemberId, RequestId)) {
    exists i :: 0 <= i < |grants| && IssueKey3(grants[i]) == k
  }

  lemma GrantedAppend(grants: seq<Grant>, g: Grant, k: (Epoch, MemberId, RequestId))
    ensures Granted(grants + [g], k) <==> Granted(grants, k) || IssueKey3(g) == k
  {
    var longer := grants + [g];
    assert longer[|grants|] == g;
    assert forall i | 0 <= i < |grants| :: longer[i] == grants[i];
    if Granted(grants, k) {
      var i :| 0 <= i < |grants| && IssueKey3(grants[i]) == k;
      assert longer[i] == grants[i];
    }
  }

  function IssueKey3(g: Grant): (Epoch, MemberId, RequestId) { (g.epoch, g.member, g.requestId) }

  ghost predicate QuotasOk(grants: seq<Grant>) {
    && (forall i | 0 <= i < |grants| :: Count(grants, grants[i].epoch, grants[i].member) <= grants[i].policy.maximumPerMember)
    && (forall i | 0 <= i < |grants| :: |Served(grants, grants[i].epoch)| <= grants[i].policy.maximumMembers)
    && (forall i, j | 0 <= i < j < |grants| :: IssueKey3(grants[i]) != IssueKey3(grants[j]))
    && (forall i, j | 0 <= i < j < |grants| && grants[i].epoch == grants[j].epoch :: grants[i].policy == grants[j].policy)
  }

  ghost predicate StateOk(s: State) {
    RegistryOk(s) && (forall e :: EpochOk(s, e)) && QuotasOk(s.grants)
  }

  /* ----- opening ----- */

  lemma OpenKeepsState(s: State, e: Epoch, c: Config)
    requires StateOk(s)
    ensures StateOk(Step(s, Open(e, c)))
  {
    hide QuotasOk, EpochOk;
    if Opened(s.db, e, c).Ok? {
      OpenKeepsRegistry(s, e, c);
      forall o
        ensures EpochOk(Step(s, Open(e, c)), o)
      {
        assert EpochOk(s, o);
        OpenKeepsEpoch(s, e, c, o);
      }
    }
  }

  lemma OpenKeepsRegistry(s: State, e: Epoch, c: Config)
    requires RegistryOk(s) && Opened(s.db, e, c).Ok?
    ensures RegistryOk(Step(s, Open(e, c)))
  {
  }

  lemma OpenKeepsEpoch(s: State, e: Epoch, c: Config, o: Epoch)
    requires EpochOk(s, o) && Opened(s.db, e, c).Ok?
    ensures EpochOk(Step(s, Open(e, c)), o)
  {
    hide Count, Served, Granted;
  }

  /* ----- pruning ----- */

  lemma PruneKeepsState(s: State, now: U64)
    requires StateOk(s)
    ensures StateOk(Step(s, Prune(now)))
  {
    hide QuotasOk, EpochOk;
    if Pruned(s.db, now).Ok? {
      forall o
        ensures EpochOk(Step(s, Prune(now)), o)
      {
        assert EpochOk(s, o);
        PruneKeepsEpoch(s, now, o);
      }
    }
  }

  lemma PruneKeepsEpoch(s: State, now: U64, o: Epoch)
    requires EpochOk(s, o) && Pruned(s.db, now).Ok?
    ensures EpochOk(Step(s, Prune(now)), o)
  {
    hide Count, Served, Granted;
    if now < o.expiresAt {
      assert MembersOf(Step(s, Prune(now)).db, o) == MembersOf(s.db, o);
    }
  }

  /* ----- issuing ----- */

  /** A commit happens only while the epoch lives, and moves the floor no further than its end. */
  lemma IssueMoves(db: Db, e: Epoch, p: Policy, x: Presentation)
    requires Issued(db, e, p, x).Ok?
    ensures var after := Issued(db, e, p, x).value.0;
      && !Dead(db, e) && !Dead(after, e) && db.floor <= after.floor
      && after.registry == db.registry && after.configs == db.configs
  {
    hide Allowed;
  }

  lemma RecoveryMoves(db: Db, e: Epoch, p: Policy, x: Presentation)
    requires Issued(db, e, p, x).Ok? && IssueKey(e, x.request) in db.issues
    ensures var (after, signature) := Issued(db, e, p, x).value;
      && after == db.(floor := after.floor) && signature == db.issues[IssueKey(e, x.request)].signature
      && db.issues[IssueKey(e, x.request)].request == x.request
  {
    hide Allowed, Completed;
  }

  lemma FreshMoves(db: Db, e: Epoch, p: Policy, x: Presentation)
    requires Issued(db, e, p, x).Ok? && IssueKey(e, x.request) !in db.issues
    ensures var (after, signature) := Issued(db, e, p, x).value;
      var quota := (e, x.request.memberId);
      && after.members == db.members[quota := if quota in db.members then db.members[quota] + 1 else 1]
      && after.issues == db.issues[IssueKey(e, x.request) := Issuance(x.request, signature)] && |signature| == RSA_BYTES
      && (if quota in db.members then db.members[quota] < p.maximumPerMember else |MembersOf(db, e)| < p.maximumMembers)
  {
    hide Completed;
  }

  lemma FloorKeepsEpoch(s: State, after: State, o: Epoch)
    requires EpochOk(s, o) && s.db.floor <= after.db.floor && after.grants == s.grants
    requires after.db == s.db.(floor := after.db.floor)
    ensures EpochOk(after, o)
  {
    hide Count, Served, Granted;
    assert MembersOf(after.db, o) == MembersOf(s.db, o);
  }

  lemma FreshKeepsOtherEpoch(s: State, after: State, g: Grant, r: Request, n: nat, o: Epoch)
    requires EpochOk(s, o) && g.epoch != o && s.db.floor <= after.db.floor
    requires after.grants == s.grants + [g] && after.db.configs == s.db.configs
    requires after.db.members == s.db.members[(g.epoch, g.member) := n]
    requires after.db.issues == s.db.issues[IssueKey3(g) := Issuance(r, g.signature)]
    ensures EpochOk(after, o)
  {
    hide Count, Granted;
    if !Dead(after.db, o) {
      forall m: MemberId
        ensures Count(after.grants, o, m) == Count(s.grants, o, m)
      {
        CountAppend(s.grants, g, o, m);
      }
      ServedAppend(s.grants, g, o);
      forall k
        ensures Granted(after.grants, k) <==> Granted(s.grants, k) || IssueKey3(g) == k
      {
        GrantedAppend(s.grants, g, k);
      }
      assert MembersOf(after.db, o) == MembersOf(s.db, o);
    }
  }

  lemma ServedAppend(grants: seq<Grant>, g: Grant, e: Epoch)
    ensures Served(grants + [g], e) == Served(grants, e) + (if g.epoch == e then {g.member} else {})
  {
  }

  lemma FreshKeepsOwnEpoch(s: State, after: State, g: Grant, r: Request)
    requires EpochOk(s, g.epoch) && !Dead(s.db, g.epoch) && s.db.floor <= after.db.floor
    requires after.grants == s.grants + [g] && after.db.configs == s.db.configs
    requires g.epoch in s.db.configs && s.db.configs[g.epoch].policy == g.policy && IssueKey3(g) !in s.db.issues
    requires |g.signature| == RSA_BYTES
    requires var quota := (g.epoch, g.member);
      after.db.members == s.db.members[quota := if quota in s.db.members then s.db.members[quota] + 1 else 1]
    requires after.db.issues == s.db.issues[IssueKey3(g) := Issuance(r, g.signature)]
    ensures EpochOk(after, g.epoch)
  {
    hide Count, Granted;
    var e := g.epoch;
    forall m: MemberId
      ensures Count(after.grants, e, m) == Count(s.grants, e, m) + if g.member == m then 1 else 0
    {
      CountAppend(s.grants, g, e, m);
    }
    ServedAppend(s.grants, g, e);
    forall k
      ensures Granted(after.grants, k) <==> Granted(s.grants, k) || IssueKey3(g) == k
    {
      GrantedAppend(s.grants, g, k);
    }
    assert MembersOf(after.db, e) == MembersOf(s.db, e) + {g.member};
  }

  lemma QuotaHolds(s: State, g: Grant)
    requires EpochOk(s, g.epoch) && !Dead(s.db, g.epoch) && QuotasOk(s.grants) && IssueKey3(g) !in s.db.issues
    requires g.epoch in s.db.configs && s.db.configs[g.epoch].policy == g.policy && 0 < g.policy.maximumPerMember
    requires var quota := (g.epoch, g.member);
      if quota in s.db.members then s.db.members[quota] < g.policy.maximumPerMember else |MembersOf(s.db, g.epoch)| < g.policy.maximumMembers
    ensures QuotasOk(s.grants + [g])
  {
    hide Count, Served, Granted;
    var grants := s.grants + [g];
    var n := |s.grants|;
    ServedAppend(s.grants, g, g.epoch);
    NewServed(s, g);
    CountAppend(s.grants, g, g.epoch, g.member);
    forall i | 0 <= i <= n
      ensures Count(grants, grants[i].epoch, grants[i].member) <= grants[i].policy.maximumPerMember
      ensures |Served(grants, grants[i].epoch)| <= grants[i].policy.maximumMembers
    {
      CountAppend(s.grants, g, grants[i].epoch, grants[i].member);
      ServedAppend(s.grants, g, grants[i].epoch);
      if i < n {
        assert grants[i] == s.grants[i];
        if grants[i].epoch != g.epoch {
          assert Served(grants, grants[i].epoch) == Served(s.grants, grants[i].epoch);
        }
      }
    }
  }

  lemma NewServed(s: State, g: Grant)
    requires EpochOk(s, g.epoch) && !Dead(s.db, g.epoch) && QuotasOk(s.grants)
    requires g.epoch in s.db.configs && s.db.configs[g.epoch].policy == g.policy
    requires (g.epoch, g.member) in s.db.members || |MembersOf(s.db, g.epoch)| < g.policy.maximumMembers
    ensures |Served(s.grants, g.epoch) + {g.member}| <= g.policy.maximumMembers
  {
    hide Count, Granted;
    var served := Served(s.grants, g.epoch);
    assert served == MembersOf(s.db, g.epoch);
    if (g.epoch, g.member) in s.db.members {
      assert g.member in MembersOf(s.db, g.epoch);
      assert served + {g.member} == served;
      var i :| 0 <= i < |s.grants| && s.grants[i].epoch == g.epoch && s.grants[i].member == g.member;
      assert s.grants[i].policy == g.policy;
    }
  }

  lemma IssueKeepsState(s: State, replica: Replica, x: Presentation)
    requires StateOk(s) && (forall r | r in s.replicas :: r.config.policy.Valid())
    ensures StateOk(Step(s, Issue(replica, x)))
  {
    hide QuotasOk, EpochOk, Issued;
    var e, p := replica.epoch, replica.config.policy;
    if replica in s.replicas && Issued(s.db, e, p, x).Ok? {
      var after := Step(s, Issue(replica, x));
      IssueMoves(s.db, e, p, x);
      IssueKeepsRegistry(s, after, replica);
      if IssueKey(e, x.request) in s.db.issues {
        RecoveryMoves(s.db, e, p, x);
        forall o
          ensures EpochOk(after, o)
        {
          assert EpochOk(s, o);
          FloorKeepsEpoch(s, after, o);
        }
      } else {
        FreshMoves(s.db, e, p, x);
        var g := after.grants[|s.grants|];
        assert after.db.issues == s.db.issues[IssueKey3(g) := Issuance(x.request, g.signature)];
        assert EpochOk(s, e);
        QuotaHolds(s, g);
        forall o
          ensures EpochOk(after, o)
        {
          assert EpochOk(s, o);
          if o == e {
            FreshKeepsOwnEpoch(s, after, g, x.request);
          } else {
            FreshKeepsOtherEpoch(s, after, g, x.request, after.db.members[(g.epoch, g.member)], o);
          }
        }
      }
    }
  }

  lemma IssueKeepsRegistry(s: State, after: State, replica: Replica)
    requires RegistryOk(s) && after.replicas == s.replicas && s.db.floor <= after.db.floor
    requires after.db.registry == s.db.registry && after.db.configs == s.db.configs
    requires replica in s.replicas && !Dead(s.db, replica.epoch)
    ensures RegistryOk(after)
    ensures replica.epoch in s.db.configs && s.db.configs[replica.epoch] == replica.config
  {
  }

  /* ----- runs ----- */

  ghost predicate ReplicasOk(s: State) {
    forall r | r in s.replicas :: r.epoch.Valid() && r.config.policy.Valid()
  }

  lemma StepKeepsState(s: State, a: Action)
    requires StateOk(s) && ReplicasOk(s)
    ensures StateOk(Step(s, a)) && ReplicasOk(Step(s, a))
    ensures s.db.floor <= Step(s, a).db.floor
  {
    hide RegistryOk, EpochOk, QuotasOk, Issued;
    match a {
      case Open(e, c) => OpenKeepsState(s, e, c);
      case Issue(replica, x) =>
        IssueKeepsState(s, replica, x);
        if replica in s.replicas && Issued(s.db, replica.epoch, replica.config.policy, x).Ok? {
          IssueMoves(s.db, replica.epoch, replica.config.policy, x);
        }
      case Prune(now) => PruneKeepsState(s, now);
    }
  }

  lemma {:induction false} RunKeepsState(s: State, actions: seq<Action>)
    requires StateOk(s) && ReplicasOk(s)
    ensures StateOk(Run(s, actions)) && ReplicasOk(Run(s, actions))
    ensures s.db.floor <= Run(s, actions).db.floor
    decreases |actions|
  {
    hide StateOk, ReplicasOk, Step;
    if actions != [] {
      StepKeepsState(s, actions[0]);
      RunKeepsState(Step(s, actions[0]), actions[1..]);
    }
  }

  lemma EveryRunIsOk(actions: seq<Action>)
    ensures StateOk(Run(START, actions)) && ReplicasOk(Run(START, actions))
  {
    hide Run;
    StartIsOk();
    RunKeepsState(START, actions);
  }

  lemma StartIsOk()
    ensures StateOk(START) && ReplicasOk(START)
  {
    forall e
      ensures EpochOk(START, e)
    {
      assert Served([], e) == {} == MembersOf(EMPTY, e);
    }
  }

  /** Over every run a member obtains at most `maximumPerMember` committed signatures in an epoch,
      at most `maximumMembers` members are served, each request id is signed once, and an epoch is
      never served under two policies. */
  lemma QuotasHoldForLife(actions: seq<Action>)
    ensures QuotasOk(Run(START, actions).grants)
    ensures forall r, q | r in Run(START, actions).replicas && q in Run(START, actions).replicas && r.epoch.publicKey == q.epoch.publicKey :: r.epoch == q.epoch
  {
    hide Run, QuotasOk, EpochOk;
    EveryRunIsOk(actions);
  }

  /** Once the clock floor has passed an epoch's end nothing in it is ever issued or recovered
      again, by any replica, reopened or not. */
  lemma PrunedEpochsStayClosed(actions: seq<Action>, later: seq<Action>, e: Epoch, p: Policy, x: Presentation)
    requires Dead(Run(START, actions).db, e)
    ensures Issued(Run(Run(START, actions), later).db, e, p, x).Err?
  {
    hide Run, StateOk, Issued;
    EveryRunIsOk(actions);
    RunKeepsState(Run(START, actions), later);
    if Issued(Run(Run(START, actions), later).db, e, p, x).Ok? {
      IssueMoves(Run(Run(START, actions), later).db, e, p, x);
    }
  }

  /** A committed signature is what every successful presentation of that request id returns, to
      the very same request, for as long as the epoch lives. */
  lemma RetriesRecoverTheSignature(actions: seq<Action>, replica: Replica, x: Presentation, i: nat)
    requires var s := Run(START, actions);
      && i < |s.grants| && IssueKey3(s.grants[i]) == IssueKey(replica.epoch, x.request)
      && Issued(s.db, replica.epoch, replica.config.policy, x).Ok?
    ensures var s := Run(START, actions);
      && Issued(s.db, replica.epoch, replica.config.policy, x).value.1 == s.grants[i].signature
      && IssueKey(replica.epoch, x.request) in s.db.issues
      && s.db.issues[IssueKey(replica.epoch, x.request)].request == x.request
      && Step(s, Issue(replica, x)).grants == s.grants
  {
    hide Run, RegistryOk, QuotasOk, Issued, Count, Served;
    EveryRunIsOk(actions);
    var s := Run(START, actions);
    IssueMoves(s.db, replica.epoch, replica.config.policy, x);
    assert EpochOk(s, replica.epoch);
    RecoveryMoves(s.db, replica.epoch, replica.config.policy, x);
  }

  /** What a caller repeating a request must still bring: credentials and clocks in order. */
  predicate RetryPasses(floor: U64, e: Epoch, x: Presentation) {
    && x.request.Ok()
    && x.admission.None? && x.credentialsBefore.None? && x.credentialsNow.None? && x.credentialsCompleted.None?
    && e.validFrom <= x.before <= x.now <= x.completed < e.expiresAt && x.completed <= MAX_INTEGER && floor <= x.now
  }

  /** Once a request id has a committed signature, a presentation of it succeeds exactly when it is
      the very same request and its own checks pass, whatever the quotas, the issuing window or the
      private key would say; a stored signature is never unreadable. */
  lemma RetriesNeedOnlyTheirChecks(actions: seq<Action>, e: Epoch, p: Policy, x: Presentation, i: nat)
    requires i < |Run(START, actions).grants| && IssueKey3(Run(START, actions).grants[i]) == IssueKey(e, x.request)
    ensures var db := Run(START, actions).db;
      Issued(db, e, p, x).Ok? <==>
        RetryPasses(db.floor, e, x) && IssueKey(e, x.request) in db.issues && db.issues[IssueKey(e, x.request)].request == x.request
  {
    hide Run, RegistryOk, QuotasOk, Issued, Count, Served;
    EveryRunIsOk(actions);
    var s := Run(START, actions);
    assert EpochOk(s, e);
    if Dead(s.db, e) {
      if Issued(s.db, e, p, x).Ok? {
        IssueMoves(s.db, e, p, x);
      }
    } else {
      RecoversWhen(s.db, e, p, x);
    }
  }

  lemma RecoversWhen(db: Db, e: Epoch, p: Policy, x: Presentation)
    requires IssueKey(e, x.request) in db.issues && |db.issues[IssueKey(e, x.request)].signature| == RSA_BYTES
    ensures Issued(db, e, p, x).Ok? <==> RetryPasses(db.floor, e, x) && db.issues[IssueKey(e, x.request)].request == x.request
  {
    hide Allowed, BlindSigned;
  }

  /* ----- fresh requests ----- */

  /** A fresh request is signed by the granted device, inside the issuing window and its own time. */
  predicate IssuedInWindow(e: Epoch, p: Policy, x: Presentation) {
    var r := x.request;
    && x.completed < e.issueUntil && r.chatPublicKey == x.grantDevice
    && e.validFrom <= r.issuedAt <= x.now && x.completed < r.expiresAt <= e.issueUntil
    && r.expiresAt - r.issuedAt <= p.maxAuthorizationSeconds
  }

  /** The member is below its quota, or is a new member with room for it. */
  ghost predicate QuotaLeft(grants: seq<Grant>, e: Epoch, p: Policy, m: MemberId) {
    && Count(grants, e, m) < p.maximumPerMember
    && (m !in Served(grants, e) ==> |Served(grants, e)| < p.maximumMembers)
  }

  /** The private key gives a whole, faultless answer to a message in its range. */
  predicate Signs(e: Epoch, x: Presentation) {
    && 0 < ReadBig(x.request.blinded) < e.publicKey
    && x.produced.Some? && |x.produced.value| == RSA_BYTES && x.faultless
  }

  lemma FreshDecides(db: Db, e: Epoch, p: Policy, x: Presentation, left: bool)
    requires IssueKey(e, x.request) !in db.issues && !Dead(db, e)
    requires left == if (e, x.request.memberId) in db.members then db.members[(e, x.request.memberId)] < p.maximumPerMember
                     else |MembersOf(db, e)| < p.maximumMembers
    ensures Issued(db, e, p, x).Ok? <==> RetryPasses(db.floor, e, x) && IssuedInWindow(e, p, x) && left && Signs(e, x)
    ensures Issued(db, e, p, x).Ok? ==> x.produced == Some(Issued(db, e, p, x).value.1) && Issued(db, e, p, x).value.0.floor == x.completed
    ensures RetryPasses(db.floor, e, x) && IssuedInWindow(e, p, x) && !left ==> Issued(db, e, p, x) == Err(Capacity)
  {
    hide ReadBig, MembersOf;
  }

  lemma QuotaIsLeft(s: State, e: Epoch, p: Policy, m: MemberId)
    requires EpochOk(s, e) && !Dead(s.db, e) && 0 < p.maximumPerMember
    ensures QuotaLeft(s.grants, e, p, m) <==>
      if (e, m) in s.db.members then s.db.members[(e, m)] < p.maximumPerMember else |MembersOf(s.db, e)| < p.maximumMembers
  {
    hide Count, Granted;
    assert m in MembersOf(s.db, e) <==> (e, m) in s.db.members;
  }

  /** In every run an unused request id is signed if and only if its credentials and clocks are in
      order, it lies in the issuing window, the quota counted over all committed signatures is not
      used up, and the key answers; with the quota used up it is told so. */
  lemma FreshExactly(actions: seq<Action>, replica: Replica, x: Presentation)
    requires replica in Run(START, actions).replicas && !Granted(Run(START, actions).grants, IssueKey(replica.epoch, x.request))
    ensures var s, e, p := Run(START, actions), replica.epoch, replica.config.policy;
      var done := Issued(s.db, e, p, x);
      && (done.Ok? <==>
            && RetryPasses(s.db.floor, e, x) && IssuedInWindow(e, p, x) && Signs(e, x)
            && QuotaLeft(s.grants, e, p, x.request.memberId))
      && (done.Ok? ==> x.produced == Some(done.value.1) && done.value.0.floor == x.completed)
      && (RetryPasses(s.db.floor, e, x) && IssuedInWindow(e, p, x) && !QuotaLeft(s.grants, e, p, x.request.memberId) ==> done == Err(Capacity))
  {
    hide Run, RegistryOk, QuotasOk, Issued, Count, Served, Granted, QuotaLeft, IssuedInWindow, Signs;
    EveryRunIsOk(actions);
    var s, e, p := Run(START, actions), replica.epoch, replica.config.policy;
    assert EpochOk(s, e);
    if Dead(s.db, e) {
      if Issued(s.db, e, p, x).Ok? {
        IssueMoves(s.db, e, p, x);
      }
    } else {
      QuotaIsLeft(s, e, p, x.request.memberId);
      FreshDecides(s.db, e, p, x, QuotaLeft(s.grants, e, p, x.request.memberId));
    }
  }

  /* ----- opening and forgetting ----- */

  /** Every registered key and every stored configuration was brought by a replica. */
  ghost predicate Brought(s: State) {
    && (forall e | e in s.db.registry :: exists c :: Replica(e, c) in s.replicas)
    && (forall e | e in s.db.configs :: Replica(e, s.db.configs[e]) in s.replicas)
  }

  lemma StepKeepsBrought(s: State, a: Action)
    requires Brought(s)
    ensures Brought(Step(s, a))
  {
    hide Issued;
    match a {
      case Open(e, c) =>
        if Opened(s.db, e, c).Ok? {
          assert Replica(e, c) in Step(s, a).replicas;
        }
      case Issue(replica, x) =>
        if replica in s.replicas && Issued(s.db, replica.epoch, replica.config.policy, x).Ok? {
          IssueMoves(s.db, replica.epoch, replica.config.policy, x);
        }
      case Prune(now) =>
    }
  }

  lemma {:induction false} RunKeepsBrought(s: State, actions: seq<Action>)
    requires Brought(s)
    ensures Brought(Run(s, actions))
    decreases |actions|
  {
    hide Brought, Step;
    if actions != [] {
      StepKeepsBrought(s, actions[0]);
      RunKeepsBrought(Step(s, actions[0]), actions[1..]);
    }
  }

  /** In every run an epoch that has not ended opens if and only if it and its policy are valid, no
      other epoch was ever opened with its key, and every opening of it had this configuration. */
  lemma OpensExactly(actions: seq<Action>, e: Epoch, c: Config)
    requires !Dead(Run(START, actions).db, e)
    ensures var s := Run(START, actions);
      Opened(s.db, e, c).Ok? <==>
        && e.Valid() && c.policy.Valid()
        && forall r | r in s.replicas :: (r.epoch.publicKey == e.publicKey ==> r.epoch == e) && (r.epoch == e ==> r.config == c)
  {
    hide Run, EpochOk, QuotasOk;
    EveryRunIsOk(actions);
    RunKeepsBrought(START, actions);
    var s := Run(START, actions);
    if e in s.db.configs {
      assert Replica(e, s.db.configs[e]) in s.replicas;
    }
    forall o | o in s.db.registry
      ensures exists k :: Replica(o, k) in s.replicas
    {
    }
  }

  /** Pruning forgets exactly the quotas, answers and configurations of ended epochs. */
  lemma PruneForgets(db: Db, now: U64)
    requires Pruned(db, now).Ok?
    ensures var after := Pruned(db, now).value;
      && after.registry == db.registry && after.floor == now
      && (forall e :: e in after.configs <==> e in db.configs && now < e.expiresAt)
      && (forall k :: k in after.issues <==> k in db.issues && (k.0 in db.configs ==> now < k.0.expiresAt))
      && (forall k :: k in after.members <==> k in db.members && (k.0 in db.configs ==> now < k.0.expiresAt))
      && (forall k | k in after.issues :: after.issues[k] == db.issues[k])
      && (forall k | k in after.members :: after.members[k] == db.members[k])
  {
  }
}
