# Verification of the cooperative forum services

This project models the durable and ephemeral state machines of the cfrm repository as Dafny
classes, states what each of them does as functions on values, and proves properties of whole runs:
interleavings, lost replies, crashes, cache losses and pruning included. The classes carry the
source's loops, field updates and order of refusals; every method is proved equal to a function on
values, and the run theorems are about those functions.

## What is modelled

- **Accounts** (`AccountingPolicy`, `AccountingWire`, `Accounting`, `AccountLedgers`, `LedgerRuns`,
  `LedgerTheorems`, `LedgerCommits`). Handles share one database. `apply` checks under a lock, lets go while a proof is
  checked, re-checks and commits. The main results: every owner's history is one chain; every run is a
  run of a ledger whose `apply` is a single step; a stored answer is permanent; tuning loses nothing.
- **Discovery** (`Discovery`, `DiscoveryHistory`, `DiscoveryExactness`, `DiscoveryPaging`, `DiscoveryStore`,
  `DiscoveryStoreTheorems`, `DiscoveryControl`, `DiscoveryControlTheorems`, `DiscoveryCatalog`). One
  transition per request edits a member's row of quotas, replay markers, leases and publication floor;
  all of it is deleted in time. The same soundness argument covers the in-memory store and the durable
  table that fences an unreliable cache.
- **Introductions and groups** (`Tallies`, `Forum`, `ForumLaws`, `ForumTheorems`, `ForumActivity`,
  `ForumExactness`, `Groups`, `GroupTheorems`, `GroupExactness`). Tokens, contacts, imbalance windows, epochs and votes, and groups that call the
  forum.
- **Budgets and directories** (`Allocation`, `AllocationTheorems`, `KeyAccess`, `KeyAccessTheorems`,
  `Redemption`, `Onion`, `Board`, `BoardTheorems`, `BoardExactness`).
- **Chains and recovery** (`Orders`, `Checkpoints`, `CheckpointTheorems`, `CheckpointExactness`, `Publisher`,
  `PublisherTheorems`, `WireFrames`).
- **Witnesses** (`LedgerWitness`, `DiscoveryWitness`, `ForumWitness`, `CheckpointWitness`). Concrete runs
  for the surprises listed below.

For each main operation one result says exactly which calls succeed in any run, in terms of the history
of what succeeded before rather than of the tables and checks the operation reads.

## Conventions

- A digest is represented by the value it hashes, a signature by its key and what it signs; where a
  byte hash appears it is any function and a result may be "or two inputs collide". The verdicts of
  signature and credential checks are parameters that may differ at every clock sample; the account
  ledger fixes one verdict per credential and proof for a whole run, which then depend on the clock
  only through their deadlines.
- Clock samples are parameters. Nothing is assumed about them beyond what the code tests.
- A transaction is one step that commits or changes nothing; an event may lose its reply after the
  commit. A caller that crashed is a caller whose next step never comes.
- Times and counters are bounded integers with the source's checked, saturating or failing arithmetic.
- Member, device and group ids are numbered in the order in which the source sorts them.
- History variables (`log`, `grants`, `debits`, `chain`, `handed`, ...) appear only in run states, never
  in a class.

## What the proofs brought out

- Splitting `apply` is visible in one reply only, and exactly when the grant or the device has expired
  by the time the proof was checked: the second half answers expired, a single step not admitted
  (`LedgerTheorems.FinishIsAtomic`, `LedgerTheorems.EveryRunIsAtomic`). It does happen
  (`LedgerWitness.LapseIsReachable`).
- In the in-memory discovery store a member whose leases lapsed is not listed again by a heartbeat;
  it takes a new publish (`DiscoveryStoreTheorems.ListedExactly` gives the exact condition,
  `DiscoveryWitness.LiveButUnlisted` a run).
- The imbalance gates bound one side each: replies are not gated, so an acceptance can leave a member
  further out than the maximum on the other side (`ForumExactness.GatesHoldOneSide` gives the exact
  condition, `ForumWitness.AcceptedBeyondTheMaximum` a run).
- A client can be refused although some links are still stored: acceptance needs every intermediate
  link (`CheckpointTheorems.CatchUpExactly`; a run in `CheckpointWitness.RefusedWithLinksLeft`).

## Model

| member | source | states |
|---|---|---|
| AccountingPolicy.HorizonIsTheWindowEnd | src/accounting_policy.rs:104-113 | for every valid policy and time inside it the proof horizon exists, lies after that time and within one rate window, and every instant before it shares the window and the horizon |
| AccountingPolicy.DeadlineRefusedExactlyAtPolicyEnd | src/accounting_policy.rs:31-40 | a new reservation deadline is refused if and only if it would reach the policy's end, and never precedes the proof horizon |
| AccountingPolicy.LimitsGrowTogether | src/accounting_policy.rs:78-99 | capacity and admission limits only grow with age, and both step from their first to their full value exactly at the end of the newcomer period |
| AccountingWire.Append | src/accounting_policy.rs:132-157 | the encoder built up in place produces the policy's fields, fixed width, after the bytes it was given |
| AccountingWire.StateDigestBytes | src/accounting_policy.rs:159-169 | the state-digest input is the tag, the community and every policy field with the waiting period left out |
| AccountingWire.EncodeInjective | src/accounting_policy.rs:132-157 | records of one layout are determined by their bytes, and so is whatever follows them |
| AccountingWire.PolicyDigestBindsEverything | src/accounting_policy.rs:171-178 | equal policy digests mean equal communities and equal policies, or a collision of the hash |
| AccountingWire.StateDigestBindsAllButTheWait | src/accounting_policy.rs:159-169 | equal state digests mean policies that differ at most in the waiting period, or a collision of the hash |
| Accounting.StatementBytesInjective | src/accounting.rs:50-96 | two well-formed statements with the same bytes are the same statement, whatever the hash |
| AccountLedgers.AccountLedger.OpenOn | src/accounting_ledger.rs:204-299 | opening creates the configuration row once and afterwards accepts exactly the stored configuration |
| AccountLedgers.AccountLedger.Admit | src/accounting_ledger.rs:305-340 | a checkpoint root is stored once per slot; the same root again is accepted, another one refused |
| AccountLedgers.AccountLedger.Begin | src/accounting_ledger.rs:342-409 | the first half of apply answers an exact retry, refuses, or lets go of the lock with nothing written |
| AccountLedgers.AccountLedger.Finish | src/accounting_ledger.rs:410-507 | the second half re-checks everything under the lock and writes account, marker, request and clock together or nothing |
| AccountLedgers.AccountLedger.Apply | src/accounting_ledger.rs:342-507 | an uninterrupted call equals the specification that checks and commits in one step |
| AccountLedgers.AccountLedger.ReadStatus | src/accounting_ledger.rs:513-588 | a status query moves only the clock and signs the row the query asks for |
| AccountLedgers.AccountLedger.Tune | src/accounting_ledger/tuning.rs:81-129 | a tuning call compares and swaps the stored configuration; a lost reply leaves the handle behind and the row written |
| AccountLedgers.AccountLedger.Reload | src/accounting_ledger/tuning.rs:132-160 | a reload adopts the stored waiting period and revision only if everything else is identical and the revision has not fallen |
| LedgerRuns.FreshAcceptanceIsWellFormed | src/accounting_ledger.rs:436-470 | once the checks have passed, building and signing the acceptance cannot fail and it lies in its statement's slot and window |
| LedgerRuns.WrittenExtendsChain | src/accounting_ledger.rs:471-503 | a commit extends its owner's history by exactly one link |
| LedgerRuns.WrittenKeepsDb | src/accounting_ledger.rs:373-507 | a commit keeps every owner's history a chain and every stored acceptance well formed |
| LedgerRuns.TuneKeepsDb | src/accounting_ledger/tuning.rs:81-129 | a committed tuning moves the waiting period, the revision by one and the clock, and nothing else |
| LedgerRuns.ReloadedOk | src/accounting_ledger/tuning.rs:132-160 | in every reachable state a reload succeeds and lands on exactly the stored configuration |
| LedgerRuns.NextKeeps | src/accounting_ledger.rs:342-507 | every step of any handle, reply lost or not, keeps all invariants and loses nothing stored |
| LedgerRuns.RunKeeps | src/accounting_ledger.rs:342-507 | so does every run of any number of handles |
| LedgerTheorems.EveryHistoryIsAChain | src/accounting_ledger.rs:373-507 | from creation on, every owner with an account has one stored acceptance per version, linked state to state, ending in the account row, with exactly its nonzero markers, none twice |
| LedgerTheorems.FreshCommitMeetsItsState | src/accounting_ledger.rs:111-174 | a fresh acceptance opens the owner's account or continues its row under the row's root key, with an unused marker, under its slot's root and the stored policy, within every deadline, in its statement's slot and rate window |
| LedgerTheorems.PresentedAgain | src/accounting_ledger.rs:380-435 | once stored, an acceptance is what every later authorized presentation of its request returns, in any continuation; a different request under its id is refused as a replay |
| LedgerTheorems.PresentedMidway | src/accounting_ledger.rs:410-435 | so does a presentation that was already between its two transactions when another handle stored the id, while its credentials are still good |
| LedgerTheorems.StatusTellsTheTruth | src/accounting_ledger.rs:513-588 | a timely authorized status query never fails on stored rows, its reply passes the member's verifier, and without an id it reports the acceptance the account row records |
| LedgerTheorems.RevisionCountsTunings | src/accounting_ledger/tuning.rs:81-129 | the stored revision counts the committed updates, lost replies included, and the stored waiting period is the last one |
| LedgerTheorems.OneStatePolicy | src/accounting_policy.rs:159-169 | every configuration ever stored and every handle's copy differ from the first only in the waiting period |
| LedgerTheorems.BeginIsAtomic | src/accounting_ledger.rs:342-409 | when the first half answers or refuses, the one-step apply gives the same answer |
| LedgerTheorems.FinishIsAtomic | src/accounting_ledger.rs:410-507 | the second half equals the one-step apply at the commit time if and only if the grant and the device are unexpired on an accepted clock; where they have expired the answers are expired against not admitted |
| LedgerTheorems.EveryRunIsAtomic | src/accounting_ledger.rs:342-507 | every interleaving of begin, finish, status, checkpoint and tuning steps is a run of the ledger with one-step apply: same tables, same handles, and the same replies in order if and only if no second half found its credentials expired; each that did is answered as expired for not admitted |
| LedgerWitness.LapseIsReachable | src/accounting_ledger.rs:410-435 | a run from creation in which the two forms answer differently: the grant runs out while the proof is being checked |
| LedgerCommits.RowsDecide | src/accounting_ledger.rs:111-174 | the pending checks refuse with the first objection read off the log of commits, or pass |
| LedgerCommits.EveryCommitIsDue | src/accounting_ledger.rs:111-174 | over every run each commit was authorized, within all time bounds, under its slot's root, with a fresh marker and id; it opened the account or continued the last commit's version and state, under the device root key of the owner's first commit, which is the account row's |
| LedgerCommits.FinishExactly | src/accounting_ledger.rs:410-507 | in every run a second half with an unused id writes if and only if its clock is accepted, its credentials are in force then, and nothing in the log of commits objects; the first objection is the answer otherwise |
| LedgerCommits.BeginExactly | src/accounting_ledger.rs:342-409 | in every run a first half with an unused id lets go, and a one-step apply writes, if and only if the clocks are accepted, the credentials name the owner and device and are in force at both readings, signature and proof verify, and nothing objects |
| LedgerCommits.RootsStand | src/accounting_ledger.rs:305-340 | once a slot has a root every handle in any continuation accepts the same root without change and refuses any other |
| LedgerCommits.FirstRootIsStored | src/accounting_ledger.rs:305-340 | the first root of a slot whose end is in range is stored |
| LedgerCommits.TunedExactly | src/accounting_ledger/tuning.rs:81-129 | in every reachable state a tuning commits if and only if it expects its handle's revision, the handle is up to date, the clocks are accepted and a deadline under the new waiting period falls inside the policy |
| LedgerCommits.StatusExactly | src/accounting_ledger.rs:513-588 | in every reachable state a status query is answered if and only if it is well formed, current, for this community, and signed by a device whose credentials name its owner and are in force at both readings |
| Discovery.TakeFrom | src/discovery_store.rs:20-33 | a counter counts within the window of the current time and refuses above its maximum |
| Discovery.ComputeLiveUntil | src/discovery_store.rs:64-74 | the loop over leases finds the latest unexpired one, capped by the publication's expiry |
| Discovery.TransitionRow | src/discovery_store.rs:82-225 | the in-place edits of a row equal the transition specification, errors included |
| Discovery.PublishInto | src/discovery_store.rs:150-196 | the publish branch: never below the published sequence, the very same publication is not charged, the lease is set as signed, the row is kept until the publication expires |
| Discovery.DisconnectInto | src/discovery_store.rs:197-211 | the disconnect branch: same lease id, higher number, lease ended now, no other lease or field moved |
| Discovery.RenewLease | src/discovery_store.rs:227-260 | the lease is set exactly as signed under a higher number, new devices only within the cap, no other lease or field moved, and the row outlives it |
| DiscoveryHistory.RowMoves | src/discovery_store.rs:82-225 | what one acceptance does to a row: the marker stored, the lease exactly as signed and no other touched, the publication floor, the retention |
| DiscoveryHistory.QuotaSurvivesPruning | src/discovery_store.rs:144-149 | deleting rows past their retention cannot forget a count of a window still open |
| DiscoveryHistory.QuotaSurvivesAcceptance | src/discovery_store.rs:150-219 | an accepted request raises exactly the counts it belongs to |
| DiscoveryHistory.PromisesSurviveAcceptance | src/discovery_store.rs:129-149 | replay markers, lease floors and publication floors outlive every request they must stop |
| DiscoveryHistory.LawsSurviveAcceptance | src/discovery_store.rs:116-213 | a newly accepted request obeys the replay, lease and publication laws against the whole past |
| DiscoveryHistory.RowCurrentSurvivesAcceptance | src/discovery_store.rs:186-196 | a retained row names the member's last accepted publication and outlives it |
| DiscoveryHistory.PruningIsSound | src/discovery_store.rs:372-377 | pruning keeps quotas, promises and laws |
| DiscoveryHistory.AcceptanceIsSound | src/discovery_store.rs:82-225 | so does acceptance, for requests the service has let through |
| DiscoveryHistory.RetouchIsSound | src/discovery_control.rs:471-496 | so does writing a retried row back |
| DiscoveryHistory.TracedSurvivesAcceptance | src/discovery_store.rs:129-213 | every marker and lease of a row stays that of a logged request, and its floor that of its publication |
| DiscoveryExactness.MarkersAreLiveIds | src/discovery_store.rs:88-107 | the markers of a swept row are exactly the ids of the member's unexpired accepted requests |
| DiscoveryExactness.KnownDecides | src/discovery_store.rs:107-133 | a request under the ids of an unexpired accepted one is a retry if and only if it is the very same write, and a replay otherwise |
| DiscoveryExactness.EffectDecides | src/discovery_store.rs:82-225 | a verified request takes effect if and only if its ids are new, its member has room for another marker, and by the log its quota, publication floor and lease number allow it |
| DiscoveryExactness.LiveExactly | src/discovery_store.rs:64-74 | a row is live at a time exactly while its publication and some live lease last |
| DiscoveryPaging.QueryPage.Consider | src/discovery_store.rs:306-333 | a row joins the page, waits for the next one, or fails when it could never fit |
| DiscoveryPaging.RunQuery | src/discovery_store.rs:417-446 | the query loop equals the page specification |
| DiscoveryPaging.ScanTakesPrefix | src/discovery_store.rs:276-341 | a scan consumes a prefix, returns its entries, and stops early exactly when rows remain |
| DiscoveryPaging.PageIsAnInterval | src/discovery_store.rs:417-446 | a page lists exactly the matching rows between its cursor and the next, advances, and stays within bytes, results and scan budget |
| DiscoveryPaging.WalkListsEverything | src/discovery_store.rs:417-446 | following cursors over unchanged rows lists every matching row once in key order and ends within one page per row |
| DiscoveryPaging.OneRowMoreIsEnough | src/discovery_valkey.rs:256-270 | asking the index for one row more than the scan budget gives the same page as scanning everything |
| DiscoveryPaging.FirstEntryTooLarge | src/discovery_store.rs:318-326 | an entry that cannot fit alone is an error, never a cursor that stands still |
| DiscoveryStore.Enumerate | src/discovery_store.rs:417-420 | the index is listed in key order, each member once |
| DiscoveryStore.MemoryDiscoveryStore.Execute | src/discovery_store.rs:364-456 | one request against the in-memory community equals its specification, errors and pruning included |
| DiscoveryStore.MemoryDiscoveryStore.Respond | src/discovery_store.rs:411-455 | queries, fetches and writes are answered from the index |
| DiscoveryStore.DeadlineStands | src/discovery_store.rs:64-74 | a live deadline still ahead does not move with the clock |
| DiscoveryStore.StepKeepsState | src/discovery_store.rs:364-456 | every call keeps quotas, laws, the index and the member cap |
| DiscoveryStoreTheorems.QuotasHold | src/discovery_store.rs:20-33 | over every run no window holds more than its quota of a member's publications, field changes or reads, over all devices and retries |
| DiscoveryStoreTheorems.EffectsAreOrdered | src/discovery_store.rs:88-213 | over every run: effects once while unexpired, lease numbers forward, no superseded publication accepted again; the profile index agrees with the rows; the member cap holds |
| DiscoveryStoreTheorems.KnownIsAnswered | src/discovery_store.rs:107-133 | in every run a request under known ids changes nothing but clock and lapsed rows; it is answered as the logged one if it is the very same write, as a replay otherwise |
| DiscoveryStoreTheorems.EffectExactly | src/discovery_store.rs:364-410 | in every run a request takes effect if and only if its member has or can get a row, its ids are new and it fits the log; with new ids and no effect it is refused |
| DiscoveryStoreTheorems.FetchExactly | src/discovery_store.rs:447-453 | an effective fetch serves the target's last accepted publication if it is listed, and nothing otherwise |
| DiscoveryStoreTheorems.FetchIsHonest | src/discovery_store.rs:447-453 | a served profile is the member's last accepted publication, unexpired, with a live lease |
| DiscoveryStoreTheorems.SupersededIsNeverServed | src/discovery_store.rs:150-196 | after a higher sequence was accepted the lower publication is never served, whatever has been deleted |
| DiscoveryStoreTheorems.ListedExactly | src/discovery_store.rs:395-410 | after its own effective request a member is listed if and only if its row is live and it published now or was still listed |
| DiscoveryWitness.LiveButUnlisted | src/discovery_store.rs:395-410 | a run in which a lapsed member's heartbeat takes effect, its row is live again and it is not listed |
| DiscoveryStoreTheorems.DisconnectGoesDark | src/discovery_store.rs:197-211 | an effective disconnect ends the device's lease, and with no other device live the member is listed no more |
| DiscoveryStoreTheorems.ReadsLeaveTheIndex | src/discovery_store.rs:395-410 | a query or fetch changes no listing |
| DiscoveryStoreTheorems.BrowsingListsEverything | src/discovery_store.rs:364-456 | real calls at one time that follow cursors list exactly the live matching members, once, in key order, in boundedly many pages |
| DiscoveryControl.SqliteDiscoveryControl.Authorize | src/discovery_control.rs:400-506 | authorization commits clock, revision, pruning and row together, or nothing |
| DiscoveryControl.ValkeyDiscoveryStore.Mutate | src/discovery_valkey.rs:62-86 | a fenced cache write runs the commit script exactly when the row still carries the commit's revision |
| DiscoveryControl.ValkeyDiscoveryStore.Fetch | src/discovery_valkey.rs:166-195 | a body is returned only if the current control row vouches for it and is live |
| DiscoveryControl.AuthorizedIsSound | src/discovery_control.rs:400-506 | an authorization keeps quotas, promises and laws, on the first use of the scope too |
| DiscoveryControl.StepKeepsWorld | src/discovery_control.rs:400-535 | every step of every service, lost reply, delayed write or cache loss keeps the control table sound |
| DiscoveryControlTheorems.FencedWritesAreCurrent | src/discovery_control.rs:511-533 | a cache write that passes the fence runs with the row stored at that moment and writes only the last authorized publication |
| DiscoveryControlTheorems.NewerIntentsFenceOlder | src/discovery_control.rs:429-439 | once a member's next request is authorized no older write in flight can ever pass, even after the row expired and came back |
| DiscoveryControlTheorems.FetchIsNothingOrTheLastPublication | src/discovery_valkey.rs:166-195 | for any body the cache hands over and any delay, a fetch answers nothing or the last authorized publication, live |
| DiscoveryControlTheorems.ControlledEffectsAreOrdered | src/discovery_control.rs:440-470 | quotas and log laws hold for the durable table over every run |
| DiscoveryControlTheorems.AuthorizedExactly | src/discovery_control.rs:400-506 | in every run a request is authorized if and only if it repeats an unexpired accepted write, or its ids are new, its member has or can get a row, it fits the log and its retention fits; it is a retry exactly in the first case, and known ids that repeat nothing are a replay |
| DiscoveryControlTheorems.RefreshThenFetch | src/discovery_valkey.rs:62-86 | a request without a body that leaves the row live keeps the cached current publication served until the new deadline |
| DiscoveryControlTheorems.EndedIsRemoved | src/discovery_valkey.rs:62-86 | a fenced write whose row is no longer live removes the member's body, catalog row and deadline |
| DiscoveryControlTheorems.PublishThenFetch | src/discovery_valkey.rs:198-252 | a publication whose cache write ran is served until its deadline while nothing is lost |
| DiscoveryControlTheorems.RetryRepairsOnlyTheCurrent | src/discovery_control.rs:474-483 | an exact retry carries the publication again if and only if it is still the current one, and is not charged |
| DiscoveryCatalog.QueryCatalog | src/discovery_valkey.rs:256-307 | the bounded catalog query with index repair gives the page of the whole catalog |
| DiscoveryCatalog.Visit | src/discovery_valkey.rs:276-299 | a visited row contributes its checked entry, and only dead index rows are removed |
| DiscoveryCatalog.ListingIsHonest | src/discovery_valkey.rs:276-299 | every listed entry is a member's last authorized publication, matching and live |
| DiscoveryCatalog.PublishThenListed | src/discovery_valkey.rs:256-307 | a matching publication whose cache write ran is a row of the catalog until its deadline |
| Forum.ComputeImbalance | src/forum.js:100-103 | the sum over windows, in any order, is the imbalance |
| Forum.ForumExperiment.Tick | src/forum.js:35-44 | the two loops expire exactly the ended presences and pending contacts |
| Forum.ForumExperiment.Connect | src/forum.js:46-58 | an eligible member joins with the initial tokens and is present |
| Forum.ForumExperiment.Count | src/forum.js:93-98 | an event is counted in the totals and in the current epoch's window |
| Forum.ForumExperiment.Enter | src/forum.js:115-122 | the clock and the gate, in the source's order |
| Forum.ForumExperiment.Introduce | src/forum.js:129-150 | an introduction equals its specification: every refusal in order, or one token, one count, one pending contact |
| Forum.ForumExperiment.Accept | src/forum.js:157-169 | acceptance equals its specification |
| Forum.ForumExperiment.Reply | src/forum.js:171-187 | a first reply counts for both sides and marks both active |
| Forum.ForumExperiment.Decline | src/forum.js:189-197 | a decline equals its specification |
| Forum.ForumExperiment.Vote | src/forum.js:199-208 | one vote per member and epoch |
| Forum.ForumExperiment.AdvanceEpoch | src/forum.js:210-230 | votes move the grant, then every member's windows, activity and tokens advance |
| ForumLaws.TallyUpdate | src/forum.js:129-197 | a count of contacts changes by exactly the contact that changed |
| ForumLaws.VotedFacts | src/forum.js:211-215 | the grant moves at most one step, towards the majority, within its bounds |
| ForumLaws.CallKeepsForum | src/forum.js:129-197 | every gated call keeps every member's accounts |
| ForumLaws.AdvanceKeepsForum | src/forum.js:210-230 | so does an epoch |
| ForumTheorems.WindowsSumToNet | src/forum.js:100-103 | adding the windows gives the net of exactly the epochs they cover |
| ForumTheorems.StepKeepsWorld | src/forum.js:35-230 | every action keeps accounts, windows and log in step |
| ForumTheorems.EconomyIsBounded | src/forum.js:129-187 | in every run approaches and tokens never exceed grants, grants never exceed the ceiling, active epochs never exceed distinct replied partners, inboxes stay within their cap |
| ForumActivity.ActivityIsReplying | src/forum.js:171-187 | in every run the active epochs, and the current activity flag, are exactly the epochs in which the member made or received a first reply |
| ForumTheorems.ImbalanceIsExplained | src/forum.js:93-103 | approaches, sent and received are each an exact number of contacts; lifetime imbalance is unreplied approaches less accepted unanswered ones; the imbalance a gate compares is the net of exactly the epochs in the horizon |
| ForumTheorems.CommunityImbalance | src/forum.js:129-197 | summed over all members the imbalance is the pending, expired and declined contacts |
| ForumTheorems.ContactsMoveForward | src/forum.js:35-197 | a pair is introduced once, in one direction; declined, expired and replied are final |
| ForumExactness.IntroduceExactly | src/forum.js:129-150 | in every run an introduction is delivered if and only if the two meet for the first time, the inbox is open with room, the sender's net in the log over the horizon is below the maximum and it has a token, of which it costs one; refused for imbalance exactly when only that net stands against it |
| ForumExactness.AcceptExactly | src/forum.js:157-169 | in every run a waiting request is accepted if and only if the two meet and the recipient's received less sent over the horizon, by the log, is below the maximum; refused for imbalance exactly otherwise |
| ForumExactness.AnswerExactly | src/forum.js:171-197 | a reply counts if and only if the two meet and the request stands accepted, a decline if and only if it still waits |
| ForumExactness.GatesHoldOneSide | src/forum.js:143-166 | after an approach the net is at most the maximum, after an acceptance at least its negative; the other bound holds then if and only if the net was at most one beyond it before |
| ForumWitness.AcceptedBeyondTheMaximum | src/forum.js:157-187 | a run in which an acceptance leaves the recipient beyond the maximum on the other side, through replies that no gate limits |
| ForumExactness.ConnectExactly | src/forum.js:46-58 | connecting succeeds exactly for the eligible, starts a newcomer with the initial tokens, changes no other record, and gives presence for the policy's time |
| ForumExactness.VoteExactly | src/forum.js:199-208 | a vote counts exactly once an epoch for a present eligible member, where voting is on |
| ForumExactness.EpochPays | src/forum.js:210-230 | in every run an epoch pays each member the policy's grant and more for each epoch in which the log shows a first reply of its, up to the ceiling and the token cap |
| Groups.GroupExperiment.Create | src/groups.js:17-23 | a group starts with its creator |
| Groups.GroupExperiment.Invite | src/groups.js:25-36 | an invitation stands on a delivered introduction or an established contact |
| Groups.GroupExperiment.Consent | src/groups.js:44-54 | consent re-checks an established contact, or accepts and answers the introduction |
| Groups.GroupExperiment.Join | src/groups.js:38-58 | joining equals its specification, in the source's order of refusals |
| Groups.GroupExperiment.Send | src/groups.js:60-64 | only present members may send |
| GroupExactness.CreateExactly | src/groups.js:17-23 | a group is created exactly under a new nonempty name by a present eligible member |
| GroupExactness.InviteExactly | src/groups.js:25-36 | in every run an invitation succeeds if and only if a member meets a non-member not yet invited, there is room, and the two are in contact or the member may approach it |
| GroupExactness.ConsentDecides | src/groups.js:44-54 | consent stands if and only if recipient and inviter meet and their contact is replied, is accepted, or may be accepted now |
| GroupExactness.JoinExactly | src/groups.js:38-58 | in every run a recipient joins if and only if it is invited and no member, there is room, it meets its inviter and the contact stands or can |
| GroupExactness.SendExactly | src/groups.js:60-64 | a member may send exactly while present and eligible |
| GroupTheorems.ActionIsAForumRun | src/groups.js:17-64 | whatever a group action does to the forum, some forum calls do |
| GroupTheorems.EveryGroupIsATree | src/groups.js:25-58 | in every run each group has distinct members within the limit, and each later member joined over a replied contact with an earlier one |
| GroupTheorems.PathToCreator | src/groups.js:38-58 | every member reaches the creator along replied contacts through ever earlier members |
| GroupTheorems.GroupHoldsDistinctContacts | src/groups.js:38-58 | a group of n members holds at least n-1 distinct replied contacts |
| GroupTheorems.ForumLawsHoldUnderGroups | src/groups.js:25-58 | the forum's laws hold while groups call it |
| Allocation.AllocationLedger.Issue | src/allocation.rs:203-349 | a call recovers a stored answer, debits once with its answer, or changes nothing |
| Allocation.AllocationLedger.Debit | src/allocation.rs:292-349 | the debit branch, in the source's order of refusals |
| Allocation.RefillIsPerPeriod | src/allocation.rs:300-315 | the lazy saturating refill is crediting one period at a time under the cap |
| AllocationTheorems.StoredRowsNeverFail | src/allocation.rs:246-315 | past the clock-floor test the period subtraction never fails and no stored row is refused |
| AllocationTheorems.DebitsAreBounded | src/allocation.rs:292-349 | between any two debits of a member there are at most the cap plus the credits of the periods in between, and from the first one at most the initial credits plus those |
| AllocationTheorems.BalancesAreEager | src/allocation.rs:292-345 | in every run each stored balance is what a ledger that credits every period as it passes would show after the same debits |
| AllocationTheorems.IssuedExactly | src/allocation.rs:203-349 | in every run a call in order under an unused nonce succeeds if and only if the balance told by the debits alone is positive and the issuer answers in time, and is told that balance less one; no allowance exactly at zero; under a used nonce it gets that debit's answer for the same request and a replay for any other |
| AllocationTheorems.EachNonceDebitsOnce | src/allocation.rs:263-291 | reservations and debits are the same keys, each once; balances stay within the cap |
| AllocationTheorems.AnsweredOnceAnsweredAlike | src/allocation.rs:263-291 | once answered, a nonce is answered alike for ever, to the same request only, without another debit |
| Checkpoints.EnrollmentLedger.Bind | experiments/private-reciprocity/enrollment.js:100-137 | binding equals its specification: what commits on refusal and what on success |
| Checkpoints.EnrollmentLedger.Publish | experiments/private-reciprocity/enrollment.js:149-203 | publication returns the current epoch's head or extends it, keeping the newest links; an oversized encoding or roster is refused with nothing written |
| Checkpoints.EnrollmentLedger.CheckpointLinks | experiments/private-reciprocity/enrollment.js:204-210 | the stored links strictly between two epochs, oldest first |
| Checkpoints.CheckWellFormed | experiments/private-reciprocity/checkpoints.js:35-53 | the encoder's loop accepts exactly the bounded, strictly ordered checkpoints |
| Checkpoints.VerifyCheckpoint | experiments/private-reciprocity/checkpoints.js:75-104 | the verifier's loop equals the chain specification |
| CheckpointTheorems.BindingsArePermanent | experiments/private-reciprocity/enrollment.js:116-131 | bindings are one to one and never change, and a challenge is honoured once while fresh |
| CheckpointExactness.BindExactly | experiments/private-reciprocity/enrollment.js:100-137 | in every run a challenge binds if and only if it runs now within its qualification, no unexpired binding used its nonce, and no earlier binding gives its member or its commitment to another |
| CheckpointExactness.RosterIsExact | experiments/private-reciprocity/enrollment.js:176-184 | in every run a newly published roster is strictly rising and lists a commitment if and only if some successful binding under that policy is valid at least through the epoch's end, whatever qualifications were deleted |
| CheckpointExactness.PublishExactly | experiments/private-reciprocity/enrollment.js:149-203 | in every run a new checkpoint is published if and only if clock and epoch move on under the chain's issuer and epoch length, the eligible commitments are within capacity and the encodings fit |
| CheckpointTheorems.OneGrowingChain | experiments/private-reciprocity/enrollment.js:149-203 | published checkpoints form one ever-growing chain of rising epochs by one issuer, and a link is never overwritten |
| CheckpointTheorems.RosterIsBound | experiments/private-reciprocity/enrollment.js:176-182 | every published commitment belongs to one member for good |
| CheckpointTheorems.FollowsExactly | experiments/private-reciprocity/checkpoints.js:91-99 | any unforged links lead from one published body to another if and only if they are all the links in between, in order |
| CheckpointTheorems.AcceptsExactly | experiments/private-reciprocity/checkpoints.js:75-104 | the verifier's exact rule for an anchored client |
| CheckpointExactness.OnlyTheChainIsAccepted | experiments/private-reciprocity/checkpoints.js:75-104 | an anchored client accepts only a current published checkpoint at or after its anchor, as long as nobody forges the issuer's signatures |
| CheckpointExactness.FirstAcceptance | experiments/private-reciprocity/checkpoints.js:75-104 | without an anchor exactly the genuine current checkpoints presented without links are accepted |
| CheckpointTheorems.CatchUpExactly | experiments/private-reciprocity/enrollment.js:196-210 | a client anchored at any earlier checkpoint is accepted with the ledger's links while the head is current, if and only if every link between the two is still in the table |
| CheckpointTheorems.RetentionDepth | experiments/private-reciprocity/enrollment.js:196-198 | with at least a fixed number of links retained by every publication, a client at most that many checkpoints behind always catches up |
| CheckpointWitness.RefusedWithLinksLeft | experiments/private-reciprocity/enrollment.js:196-210 | a run of four publications retaining two links in which the first client is handed a link and still refused |
| Board.MeetingBoard.Tick | src/board.rs:179-186 | the clock moves forward only and ended rows go |
| Board.MeetingBoard.CountOnline | src/board.rs:217-236 | the counting loop counts each other member's live devices |
| Board.MeetingBoard.Apply | src/board.rs:117-251 | an update equals its specification: both credentials, membership, fields and endpoint, deadlines, then floor, idempotent repeat, caps, retention |
| Onion.ValidExactlyForItsKey | src/board.rs:57-86 | an endpoint is accepted if and only if its port is nonzero and its host is the one service name of the key it decodes to |
| Onion.EveryKeyHasItsHost | src/board.rs:57-86 | every key has an accepted host, which decodes to that key |
| Board.MeetingBoard.TakeSnapshot | src/board.rs:253-268 | live rows grouped by member in key order |
| BoardTheorems.SnapshotListsLiveRows | src/board.rs:253-268 | a snapshot lists exactly the live rows |
| BoardTheorems.SnapshotIsTheLastUpdates | src/board.rs:179-268 | in every run a snapshot lists a device if and only if the last update stored for it has an endpoint and is unexpired |
| BoardTheorems.SnapshotIsCredited | src/board.rs:117-143 | whatever a snapshot lists came with a grant and an authorization of its own device that are still in force, and names a sound onion service |
| BoardTheorems.ReplayFloorAndCaps | src/board.rs:203-251 | no device falls back to an update signed by the time a higher or equal sequence was stored; replay, device and member caps hold |
| BoardExactness.StoredExactly | src/board.rs:117-251 | in every run an update is stored if and only if it is presentable on a clock that has not gone back, above the device's remembered sequence or with room to remember it, and online only with room by the log; the remembered update is accepted again without effect |
| KeyAccess.KeyAccessIssuer.Open | src/key_access.rs:210-276 | a key serves one context for ever, a live context one configuration |
| KeyAccess.KeyAccessIssuer.Issue | src/key_access.rs:278-398 | issue recovers, signs within both quotas, or changes nothing; messages out of the key's range, faulty results and stored signatures of another length are refused |
| KeyAccess.KeyAccessIssuer.PruneExpired | src/key_access.rs:403-431 | ended epochs lose quotas and answers; the registry and the clock floor stay |
| KeyAccessTheorems.QuotasHoldForLife | src/key_access.rs:278-431 | over every run, reopening and pruning included, both quotas hold, each request id is signed once, and an epoch is served under one policy |
| KeyAccessTheorems.PrunedEpochsStayClosed | src/key_access.rs:403-431 | once the clock floor has passed an epoch's end nothing in it is issued or recovered by any replica |
| KeyAccessTheorems.RetriesRecoverTheSignature | src/key_access.rs:315-328 | a successful presentation of a signed request id returns the committed signature, to the same request, without a charge |
| KeyAccessTheorems.RetriesNeedOnlyTheirChecks | src/key_access.rs:315-388 | in every run a signed request id is answered if and only if the very same request comes with its credentials and clocks in order, whatever quotas, issuing window and key would say; a stored signature always reads back |
| KeyAccessTheorems.FreshExactly | src/key_access.rs:329-398 | in every run an unused request id is signed if and only if its checks pass, it lies in the issuing window, both quotas counted over all committed signatures leave room, and the key answers; a used-up quota is told as capacity |
| KeyAccessTheorems.OpensExactly | src/key_access.rs:210-276 | in every run an epoch that has not ended opens if and only if it and its policy are valid, no other epoch was opened with its key, and every opening of it had this configuration |
| KeyAccessTheorems.PruneForgets | src/key_access.rs:403-431 | pruning forgets exactly the quotas, answers and configurations of ended epochs |
| Redemption.PermitRedeemer.Open | src/permit_issuer.rs:203-237 | a store serves one epoch |
| Redemption.PermitRedeemer.Redeem | src/permit_issuer.rs:242-322 | a token is stamped, recovered for the same claim and commitment, or refused |
| Redemption.PermitRedeemer.PruneExpired | src/permit_issuer.rs:162-184 | spent tokens are forgotten only after the epoch, with the floor moved past it |
| Redemption.PermitRedeemer.RedeemTicket | src/key_access.rs:463-493 | the wrapper turns a late or backward sample into the epoch's end |
| Redemption.OneStampPerToken | src/permit_issuer.rs:162-322 | over a store's whole life a token yields one claim and one commitment |
| Redemption.PrunedStoresStayClosed | src/permit_issuer.rs:162-184 | a pruned store never stamps again |
| Redemption.StoredStampsNeverFail | src/permit_issuer.rs:266-295 | stored stamps always pass their own checks |
| Redemption.TicketsAreNeverLate | src/key_access.rs:463-493 | a ticket commits only before its challenge's deadline at every sample, and its stamp names that challenge |
| Redemption.StampedExactly | src/permit_issuer.rs:242-322 | in every run a spend is stamped if and only if its permit verifies, its samples rise inside the epoch past the floor, and every stamp ever handed out for its token names the same claim and commitment |
| Redemption.TicketExactly | src/key_access.rs:463-493 | a ticket is stamped exactly where its challenge is in range, every sample lies before its deadline and the bare spend would be stamped |
| Redemption.PruneForgets | src/permit_issuer.rs:162-184 | pruning succeeds exactly from the epoch's end on a clock that has not gone back and forgets every spent token |
| Publisher.ProfilePublisher.Restore | browser/profiles/publisher.js:18-41 | a restart holds only what was saved and has not expired, keeps the saved floor above it, and rejects disordered state |
| Publisher.ProfilePublisher.Publish | browser/profiles/publisher.js:62-64 | one operation at a time, none while a publication is in doubt; the reservation starts from the floor |
| Publisher.ProfilePublisher.OnReserved | browser/profiles/publisher.js:65-66 | a number goes to encryption only above the old floor, which it then is; a refused one leaves the floor |
| Publisher.ProfilePublisher.OnEncrypted | browser/profiles/publisher.js:67-70 | the fresh candidate is first saved as pending, next to the unchanged current publication; nothing is handed over yet |
| Publisher.ProfilePublisher.OnSaved | browser/profiles/publisher.js:48-51 | what is handed to the cache is the pending publication of the very checkpoint just saved, fresh, by an open publisher |
| Publisher.ProfilePublisher.OnPublished | browser/profiles/publisher.js:51-56 | an acknowledged publication, which was pending, becomes the current one and is saved as such; without an acknowledgement it stays in doubt |
| Publisher.ProfilePublisher.RetryPending | browser/profiles/publisher.js:73-83 | a retry saves exactly what is held, under no new number, and only while what is pending is fresh |
| Publisher.ProfilePublisher.Expire | browser/profiles/publisher.js:84-92 | exactly the expired publications are dropped, the rest and the floor stay and are saved |
| PublisherTheorems.StepKeepsWorld | browser/profiles/publisher.js:18-92 | every step, crash and lost reply keeps the order of what was handed over and the saved floor |
| PublisherTheorems.OnePublicationPerSequence | browser/profiles/publisher.js:42-92 | over every run all that is handed over under one number is one publication under one secret; different ones have rising numbers |
| PublisherTheorems.FloorNeverFalls | browser/profiles/publisher.js:84-92 | the saved floor never falls and never lies below anything handed over |
| PublisherTheorems.CurrentWasHandedOver | browser/profiles/publisher.js:42-61 | the publication a publisher calls current, in memory or on disk, is one it handed to the cache |
| PublisherTheorems.RestartAlwaysReads | browser/profiles/publisher.js:18-41 | whatever was saved last reads back, with the publication in doubt unless it has expired |
| PublisherTheorems.PublishCompletes | browser/profiles/publisher.js:42-72 | from rest with nothing in doubt, a number above the floor and waits that end well while the publication is fresh make it current in memory and on disk, handed over once |
| PublisherTheorems.RetryCompletes | browser/profiles/publisher.js:73-83 | a publication left in doubt completes by a retry under its own number while it is fresh |
| PublisherTheorems.ExpireCompletes | browser/profiles/publisher.js:84-92 | expiring drops exactly what has expired, on disk too |
| WireFrames.FramedSocket.OnData | experiments/member-profiles/wire.js:59-77 | a chunk copied into the header and body buffers starts the frame's clock if none runs, and extends, completes or refuses the frame as specified on the bytes |
| WireFrames.FramedSocket.Read | experiments/member-profiles/wire.js:78-92 | a read takes the ready frame or waits under a deadline |
| WireFrames.FramedSocket.Write | experiments/member-profiles/wire.js:78-103 | a write sends the frame's packet under a deadline and opens the channel for one answer |
| WireFrames.FramedSocket.OnTimers | experiments/member-profiles/wire.js:39-44 | a due timer closes the channel |
| WireFrames.ChunkingIsInvisible | experiments/member-profiles/wire.js:59-77 | however a packet is cut, the reader gets the frame with the last piece and the channel ends as if it came whole |
| WireFrames.NothingLostOrInvented | experiments/member-profiles/wire.js:49-77 | in every session the delivered frames are exactly the packets that arrived, in order, and an open channel accounts for every byte |
| WireFrames.NothingOutstaysItsDeadline | experiments/member-profiles/wire.js:36-85 | in every session, once the timers have run, an open channel's operation began less than a timeout ago and so did its partial frame, however its bytes are spread |
| WireFrames.ExchangeCompletes | experiments/member-profiles/wire.js:59-103 | a request within the limit is sent, and its answer, however cut and whether before or after the read, is delivered whole; the channel is idle again |
| WireFrames.UnaskedDataCloses | experiments/member-profiles/wire.js:59-61 | in every session nothing is kept that was not asked for, and unasked data closes the channel |

## Left out

- Cryptography: Ed25519, blind RSA, AES-GCM, ECDH, SHA-2 and SHA-3, Semaphore and Noir proofs and curve arithmetic; an onion checksum is any function of the key.
- SQL text, drivers, pooling and TLS; the model keeps atomic commit, rollback and a commit whose reply is lost.
- JSON and base64: canonical encodings are injective, entry lengths are an arbitrary function of the entry.
- HTTP, subprocess verifier, browser and Wasm bindings, sockets, session timers and the profile service around the frame parser.
- Directional receipts (`experiments/directional-receipts/receipts.js`) and the rendezvous (`src/rendezvous.js`): quota, nullifier and session tables of the kind modelled for key access and the board.
- Several communities in one store: each model is of one community, and no table row of one is read for another.
- Field shapes that reject malformed input in one branch, except where a run-level result rests on the bound.
- Diagnostics: rejection counters, metrics, roster order, balance and status read-outs of the synthetic forum and the allocation ledger.
- Overflow of `usize` sums in the page builder and of the double-precision clock plus a time to live in the JavaScript services.
- Expiry inside the cache: a Valkey key's own time to live is one of the losses the cache may suffer at any time.
- Queries against Valkey while other services write: `DiscoveryCatalog` runs one query over a cache and control table that only it changes; single fetches are covered under every interleaving.
- Holder seeds, key service and access control of the profile publisher; a wallet write that lands after a later restart.
- Liveness, fairness and privacy.
- Publisher.ProfilePublisher.OnSaved: a save that reported success was stored; one that reported failure may have been.
