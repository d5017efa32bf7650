/** A run in which a lapsed member's heartbeat takes effect and leaves it live but unlisted. */
module DiscoveryWitness {
  import opened Basics
  import opened Discovery
  import opened DiscoveryHistory
  import opened DiscoveryPaging
  import opened DiscoveryStore
  import opened DiscoveryStoreTheorems

  const LIMITS: Limits := Limits(1000, 1000, 60, 20, 5, 5, 5, 5, 5, 10, 100, 10, 100, 10, 100)

  const PROFILE: CachedProfile := CachedProfile(1, 7, 1, 100, 400, map[], [])

  /** At 100 the member publishes under a lease of ten seconds; at 120 it sends a heartbeat. */
  const PUBLISHING: Request := Request(1, 7, 3, 1, 100, 115, Publish(PROFILE, Lease(3, 1, 110)))
  const BEATING: Request := Request(1, 7, 3, 2, 120, 130, Heartbeat(Lease(3, 2, 150)))

  const PUBLISHED: MemberControl := MemberControl(
    100, 400, map[7 := LeaseState(3, 1, 110, 120)],
    map[(3, 1) := ReplayMarker(115, WriteDigest(PUBLISHING))],
    Counter(100, 1), Counter(100, 1), Counter(0, 0), 1, 400, Some(PROFILE), Some(map[]))

  const BEATEN: MemberControl := PUBLISHED.(
    lastNow := 120,
    leases := map[7 := LeaseState(3, 2, 150, 150)],
    replay := map[(3, 2) := ReplayMarker(130, WriteDigest(BEATING))])

  function Calls(): seq<Call> { [Call(PUBLISHING, 100), Call(BEATING, 120)] }

  function Sizes(): DiscoveryStore.Encoding { DiscoveryStore.Encoding(0, summary => 1) }

  lemma Publishes()
    ensures Verified(PUBLISHING, LIMITS, 100)
    ensures Transition(EMPTY_CONTROL, PUBLISHING, LIMITS, 100) == Ok(Change(PUBLISHED, Some(PROFILE), false))
  {
    var swept := Swept(EMPTY_CONTROL, 100);
    assert swept.replay == map[] && swept.leases == map[];
  }

  lemma Beats()
    ensures Verified(BEATING, LIMITS, 120)
    ensures Transition(PUBLISHED, BEATING, LIMITS, 120) == Ok(Change(BEATEN, None, false))
  {
    var swept := Swept(PUBLISHED, 120);
    assert swept.replay == map[] && swept.leases == map[];
  }

  /** The deadline of a row with one live device. */
  lemma OneDevice(row: MemberControl, now: U64, lease: LeaseState)
    requires row.leases == map[7 := lease] && now < lease.expiresAt
    ensures LiveUntil(row, now) == Min(lease.expiresAt, row.profileExpiresAt)
  {
    hide LatestLease;
    assert 7 in row.leases.Keys;
    assert IsLatest(row.leases, row.leases.Keys, now, lease.expiresAt);
    LatestIsUnique(row.leases, now, lease.expiresAt, LatestLease(row.leases, row.leases.Keys, now));
  }

  lemma AfterPublishing(s: State)
    requires s == State(EMPTY, [])
    ensures Step(s, Call(PUBLISHING, 100), LIMITS, Sizes())
      == State(Community(100, map[1 := PUBLISHED], map[1 := (PROFILE, 110)]), [Record(EMPTY_CONTROL, PUBLISHING, 100)])
  {
    hide Transition, Verified, LiveUntil, Record;
    Publishes();
    OneDevice(PUBLISHED, 100, LeaseState(3, 1, 110, 120));
    assert Advanced(EMPTY, 100) == Community(100, map[], map[]);
  }

  lemma AfterBeating(s: State)
    requires s.community == Community(100, map[1 := PUBLISHED], map[1 := (PROFILE, 110)])
    ensures TakesEffect(s.community, Call(BEATING, 120), LIMITS)
    ensures Step(s, Call(BEATING, 120), LIMITS, Sizes())
      == State(Community(120, map[1 := BEATEN], map[]), s.log + [Record(PUBLISHED, BEATING, 120)])
  {
    hide Transition, Verified, LiveUntil, Record;
    Beats();
    assert Advanced(s.community, 120) == Community(120, map[1 := PUBLISHED], map[]);
  }

  /** Both requests take effect, the row is live again until 150, and the member is not listed. */
  lemma LiveButUnlisted()
    ensures var s := Reached(Calls(), LIMITS, Sizes());
      && |s.log| == 2 && s.community.lastNow == 120
      && 1 in s.community.controls && LiveUntil(s.community.controls[1], 120) == 150
      && 1 !in s.community.profiles
  {
    hide Step, LiveUntil, Record;
    var start := State(EMPTY, []);
    var first := Step(start, Calls()[0], LIMITS, Sizes());
    AfterPublishing(start);
    AfterBeating(first);
    OneDevice(BEATEN, 120, LeaseState(3, 2, 150, 150));
    assert Calls()[1..] == [Calls()[1]];
    assert Run(Step(first, Calls()[1], LIMITS, Sizes()), Calls()[1..][1..], LIMITS, Sizes()) == Step(first, Calls()[1], LIMITS, Sizes());
  }
}
