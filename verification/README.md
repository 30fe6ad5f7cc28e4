# Content Grid: publisher verification and settlement, verified

A Dafny model of the on-chain protocol of `x/registry` with the two keepers it pays through (`x/verifiers`,
`x/tokenomics`) over one bank ledger, and of two companions: the ranking by which verifiers relay drand beacons, and
the crash-prone worker that broadcasts airdrop claims.

Publishers register a domain. Each round a panel of bonded verifiers, drawn by stake from drand randomness, checks every
due website: the verifiers commit to a verdict, reveal it, and at the deadline a quorum with a majority verifies the
publisher, demotes it, or hands the domain to a re-registration candidate. A fully finalized round is paid once out of
the minted emission pool. Verified publishers rent out slots; the price of a lease stays in escrow until the lease ends
or is violated.

## How it is built

- Algorithms, each proved against an independent specification: `Tally` (quorum, majority hash, median), `Sampling`
  (weighted draw), `RewardSplit` and `SplitAccuracy` (verifier split), `Emission` (round pools, claims),
  `DrandSchedule`, `CommitHash`, `StoreKeys` (byte keys refine tuple-keyed maps), `RelayRank`, `Airdrop`.
- The state machine. `ChainState` holds the state, with history that no step reads. Every operation is a function on the
  few stores that it touches: `Market`, `LeaseSettlement`, `Bonding`, `Registration`, `Votes`, `Verdicts`, `Rounds`,
  `Payments`, `Assigning`; `Finalization` and `Settlement` are passes over a key-ordered snapshot (`Folds`). `Chain` puts
  them together as messages, blocks, upgrade and transfers; a failed step rolls back.
- `Invariant` is the conjunction that `Chain` proves for every reachable state; `Evolution` is what no run can undo;
  `Guarantees` restates the results one by one, `Storage` those about the byte store.
- Beside the invariants, every operation has a statement of its whole effect in plain fields, votes and balances, apart
  from the functions that compute it (`...Exact`, `...Iff`, `...Meaning`, `...Frequency`).
- `Keepers` and `RegistryKeeper` are the same operations in the form of the source: objects whose methods check guards,
  loop over iterators and update stores in place. Each method's contract ties the objects' new view to the step function.
- `Base`, `Orders`, `Sums`, `Counting`, `Arith`, `Text`, `Domains`, `Bank`, `Params` are the vocabulary.

`dafny verify dfyconfig.toml` checks everything.

## What the proofs found

- A split payout can be off by more than n units (`RewardSplit.ErrorExceedsN`); `SplitAccuracy.WithinNIff` says exactly
  when not.
- A successful verifier can lack a payout entry, which Go reads as a nil amount and panics on
  (`RewardSplit.MissingEntry`); `RewardSplit.PayoutDefined` says exactly when, `Payments.BaseCoversAll` how to exclude it.
- The minted pool lasts for the emission period exactly when the parameters afford the last round that fits
  and the int64 denominator of `RoundEmissionPools` is positive (`Emission.SolventIff`). Both hold unless that denominator
  wraps or a pool rounds to zero (`Emission.RegularAffordable`); either can break solvency
  (`Emission.OverflowBreaksSolvency`, `Emission.FallbackBreaksSolvency`) but need not (`Emission.OverflowCanBeSolvent`).
- A submission window that makes a deadline overflow is valid, yet the assignment store refuses the wrapped deadline and
  the end of the block fails (`Assigning.HugeWindowNeverFits`); `Guarantees.AssignSucceedsIff` is exact.
- A cooldown base is valid up to MaxInt64, yet the first failed check of a website with a lease on air then gives a
  negative cooldown end, which the website store refuses, and the end of the block fails (`Verdicts.HugeBaseFails`).
  `Verdicts.BaseSafeIff` is exact for the parameters, `Finalization.FinalizeIff` for the pass. Doubling alone never
  overflows, because the last cooldown must have run out.
- A publisher is revoked only when the effective threshold is 1: the first failure demotes a verified publisher to
  pending, and pending ones are never revoked. The default of three failures therefore never revokes.
- The evidence hash always binds the three counts. It binds the two set hashes exactly when no other bar in either of them
  cuts the joined text into two fields that a valid reveal can carry (`CommitHash.SetHashesBoundIff`); a bar inside the
  expected or the observed hash is such a cut unless it would leave a counted field empty (`CommitHash.CutsAreBars`).
- Every round has a drand beacon of its own exactly when the round interval is at least the drand period
  (`DrandSchedule.StrictProgressIff`).
- Relay delays are ordered and capped exactly while rank times stagger fits an int64; the first rank beyond waits a
  negative time (`RelayRank.StaggeredIff`, `RelayRank.HugeStaggerMisorders`).
- The comment in `selectDeterministicWeighted` promises a fallback for a missing stake; a missing map entry is a nil
  amount and panics instead, so a stake entry is a precondition, which the caller meets.
- A zero parameter means "use the default" in every `Effective` accessor except the verifier base share, where it means
  that there is none.

## Modelling decisions

- An account is a user or a module; module accounts never sign. What outsiders send to module accounts is recorded as a
  gift, so that the ledger equations stay equalities.
- SHA-256, domain and URL parsing, the BLS check of beacons and the hashes behind round seeds, offsets and draws are
  functions in `Env`. Binding results never assume that a hash is injective: they exhibit the collision instead.
- Bech32 addresses are non-empty alphanumeric texts; the checksum is not modelled. Accounts are keyed by that text, so the
  upper-case and the lower-case spelling of one address are two users. Payments to stored owners and verifiers are to
  valid addresses by the invariant.
- Messages carry the fields that the handlers act on, trimmed where the handlers trim; stateless validation is part of the
  step.
- Block times are protobuf timestamps, so they end with year 9999; a round interval fits a time.Duration, about 292 years;
  the emission supply and the fixed rewards are at most 2^192.
- Where two errors could abort the same payment loop, the model does not say which one comes first; it says exactly when
  there is one. Either aborts the block.
- Parameters are validated whenever they are stored and change only by the upgrade. Int64 wrap-around is modelled in lease
  ends, cooldowns, assignment starts and deadlines, penalties, the emission denominator and relay delays; int32 in the
  failure streak and the penalty count.

## Model

| member | source | states |
|---|---|---|
| `Chain.ReachableOk` | x/registry/verification_rounds.go:24-38 | every state that any sequence of messages, transfers, upgrades and blocks reaches from an empty chain satisfies the whole invariant |
| `Chain.StepKeeps` | x/registry/verification_rounds.go:24-38 | each message, block step and upgrade keeps the invariant |
| `Chain.EndBlockKeeps` | x/registry/verification_rounds.go:24-38 | finalize, settle rounds, settle leases, assign, in that order, keeps the invariant |
| `Guarantees.RegistryAccount` | x/registry/lease_settlement.go:49-123 | per denomination the registry account is the sum of the open escrow of all leases plus outside deposits; Active means remaining = total and paid = 0, Completed paid = total, Violated both 0 |
| `Guarantees.VerifiersAccount` | x/verifiers/keeper.go:101-166 | the verifiers account is the sum of the recorded bonds, the stranded remainders and outside deposits; nothing strands when the minimum bond is at most 1 |
| `Guarantees.EmissionAccount` | x/tokenomics/keeper.go:90-108 | the emission account is the minted amount less exactly one round's pools per settled round, plus outside deposits |
| `Guarantees.ExactlyOnce` | x/registry/verification_rounds.go:648-680 | no round is paid twice, a round's assignments are all settled or all unsettled, the unsettled index is exactly the set of rounds with an unsettled assignment, and the partially-settled error is unreachable |
| `Guarantees.RoundsSpan` | x/registry/drand_schedule.go:22-28 | settled and waiting rounds are distinct grid points, so k of them span more than k - 1 intervals |
| `Guarantees.RunSince` | x/registry/verification_rounds.go:55-61 | over every run all rounds start after the chain did and at most one interval ahead of the clock |
| `Guarantees.RoomForAll` | x/registry/verification_rounds.go:693-715 | within the emission period there is room for all settled and waiting rounds |
| `Guarantees.AssignSucceedsIff` | x/registry/verification_rounds.go:40-198 | in every reachable state assigning succeeds if and only if no round is due, or drand has started and, once the beacon is there, the clock is positive and the deadline of every due website fits an int64 |
| `Guarantees.UpgradeSucceeds` | x/registry/module.go:103-126 | the upgrade succeeds in every reachable state |
| `Chain.UpgradeExact` | x/registry/module.go:103-126 | the upgrade resets the minimum reward to 1000 basis points, settles every assignment, empties the index and changes nothing else |
| `Chain.TransferExact` | x/tokenomics/keeper.go:111-120 | a transfer goes through exactly when the sender has the coins, and moves them to the recipient and nothing else |
| `Guarantees.EndBlockIff` | x/registry/verification_rounds.go:24-38 | in every reachable state the end of a block succeeds if and only if every first cooldown that it starts fits an int64, the topped-up emission account covers the rounds then due with a payout entry for each successful verifier, and schedule, clock and deadlines admit the next round; escrow, index and flags never make it fail |
| `Guarantees.EndBlockSucceeds` | x/registry/verification_rounds.go:24-38 | over every run the end of a block succeeds until the emission period that began with the chain is over, provided the parameters afford the schedule and a base unit per panel member, drand has started, and cooldowns and deadlines fit an int64 |
| `Guarantees.OwnershipSafety` | x/registry/verification_rounds.go:229-283 | an owner changes only at the end of a block that finalizes an open re-registration of that domain for exactly the new owner, of whose panel at least half revealed and of whose stored reveals more than half passed |
| `Guarantees.SlotsFollowOwner` | x/registry/slot_keeper.go:99-118 | every slot's publisher is the owner of its website, which exists |
| `Guarantees.LeasesDisjoint` | x/registry/msg_server.go:413-421 | active leases of one slot have disjoint half-open intervals |
| `Guarantees.RevocationNeedsThresholdOne` | x/registry/verification_rounds.go:322-337 | a verified publisher has no failure streak; a revoked one exists only when the effective threshold is 1 |
| `Guarantees.VotesAreHonest` | x/registry/msg_server.go:98-240 | every stored submission was committed in [start, commit deadline] and revealed in (commit deadline, deadline] by an assigned verifier, opens that commit and is stored as revealed |
| `Guarantees.RewardsAreEarned` | x/registry/verification_rounds.go:826-884 | in every reachable state an assignment pays exactly the verifiers whose stored reveal passed, and each of them was on its panel, committed by the commit deadline and revealed after it and by the deadline |
| `Guarantees.RecountAgrees` | x/registry/verification_rounds.go:717-735 | any later recount of a finalized assignment, after any events, gives the tally that decided it |
| `Guarantees.ClosedLeasesStayClosed` | x/registry/lease_settlement.go:66-108 | a lease that is not active never changes again |
| `Guarantees.BeaconDecidesRound` | x/registry/verification_rounds.go:100-124 | a beacon accepted in a block is the one that block's assignment consumes, whatever other messages the block carries: the pending round is assigned with it and had no metadata before |
| `Evolution.RunEvolves` | x/registry/verification_rounds.go:24-38 | over any run leases keep their terms and closed ones everything, slots keep their terms, verdicts are final, settled flags stay, reveals of finalized assignments are frozen, submissions, beacons and round metadata are only added, paid rounds stay on record in order |
| `Market.CreateSlotKeeps` | x/registry/msg_server.go:243-310 | creating a slot keeps the market invariants and uses an id never used before |
| `Market.SlotGranted` | x/registry/msg_server.go:252-302 | a slot is created if and only if the publisher owns the verified website, it is out of cooldown and the terms are well formed; it carries exactly these terms, starts paused, and no other slot changes |
| `Market.StatusSet` | x/registry/msg_server.go:313-352 | only its publisher sets the status of a slot, to anything but unspecified, and changes nothing else |
| `Market.LeaseSlotKeeps` | x/registry/msg_server.go:355-463 | a lease gets a fresh id, is fully escrowed and keeps active leases disjoint and the ledger equation |
| `Market.LeaseGranted` | x/registry/msg_server.go:355-463 | a lease is granted if and only if the listed slot of a verified website admits the duration, the time is free, after any cooldown and within an int64, and the lessee can pay; it has exactly the slot's publisher, the requested lessee, start and end, and the rate per unit moves from lessee to escrow |
| `Market.EndTimeExact` | x/registry/msg_server.go:404-407 | an accepted end time is the exact sum: int64 overflow is rejected |
| `Market.CloseKeeps` | x/registry/lease_settlement.go:49-108 | closing a lease always succeeds, moves exactly its escrow and keeps the book in order |
| `ChainState.IdsInjective` | x/registry/slot_keeper.go:47-55 | zero-padded ids of different sequence numbers differ, also beyond six digits |
| `ChainState.IdsReadable` | x/registry/slot_keeper.go:47-55 | an id is its prefix and a decimal number of at least six digits with the value of the sequence number |
| `ChainState.ListedOnce` | x/registry/verification_keeper.go:388-402 | the listing holds each voter's submission exactly once, in the order of the voters |
| `ChainState.TallyMeaning` | x/registry/verification_rounds.go:205-222 | a quorum is at least half of a non-empty panel, and a pass is more than half of the reveals on top of that |
| `LeaseSettlement.SettleLeasesExact` | x/registry/lease_settlement.go:11-47 | settlement never errs, closes exactly the due leases (refund during cooldown, payout otherwise), pays each user exactly what they owe it, touches no other module account and keeps the market invariants |
| `LeaseSettlement.SettledMeaning` | x/registry/lease_settlement.go:11-123 | exactly the active leases that are over are closed: as violated with the escrow back to the lessee while the website is in cooldown, as completed with the escrow paid to the publisher otherwise; every user receives exactly the sum |
| `LeaseSettlement.ViolateLeasesExact` | x/registry/lease_settlement.go:220-228 | violation never errs and refunds exactly the leases on air for the domain |
| `LeaseSettlement.ViolatePaysLessees` | x/registry/lease_settlement.go:85-123 | violation gives every user exactly the escrow of its own leases that are running on the domain, per denomination |
| `LeaseSettlement.ViolatedMeaning` | x/registry/lease_settlement.go:147-171 | exactly the active leases with start <= now <= end on the domain become violated, with nothing left |
| `Bonding.BondCoinsKeeps` | x/verifiers/keeper.go:101-126 | bonding keeps the escrow equation |
| `Bonding.UnbondCoinsKeeps` | x/verifiers/keeper.go:129-166 | unbonding keeps it, counting a dropped remainder as stranded |
| `Bonding.UnbondNeverShort` | x/verifiers/keeper.go:129-166 | unbonding succeeds exactly for a well-formed request of at most the recorded bond |
| `Bonding.BondThenUnbond` | x/verifiers/keeper.go:101-166 | bonding and unbonding the same amount restores every balance and record, except that a first-time bonder keeps an empty record when the minimum bond is 0 |
| `Bonding.BondedExact` | x/verifiers/keeper.go:101-126 | bonding succeeds if and only if the sender has the coins and its bond reaches the minimum; record, sender and account move by exactly the amount |
| `Bonding.UnbondedExact` | x/verifiers/keeper.go:129-166 | unbonding pays exactly the amount back; the record keeps the rest or is dropped below the minimum |
| `Registration.RegisterKeepsIndex` | x/registry/keeper.go:91-127 | registration keeps the primary-domain index and the websites in step |
| `Storage.OneSitePerPrimary` | x/registry/keeper.go:108-118 | in every reachable state no two websites share a primary domain |
| `Registration.PendingCandidateProtected` | x/registry/msg_server.go:53-58 | a well-formed request on a registered domain succeeds exactly when none is pending or it comes from the candidate or the owner |
| `Registration.RegisteredExact` | x/registry/msg_server.go:28-95 | a new domain is registered if and only if request and domain are valid and its primary domain is free, pending and owned by the sender; on a registered domain only the pending candidate and its referrer change |
| `Votes.SubmitCommitKeeps` | x/registry/msg_server.go:98-143 | a commit keeps commit-reveal safety |
| `Votes.RevealVoteKeeps` | x/registry/msg_server.go:146-240 | a reveal keeps commit-reveal safety |
| `Votes.FinalizedVotesFrozen` | x/registry/msg_server.go:160-166 | no reveal changes the submissions of a finalized assignment |
| `Votes.RevealKeepsTallies` | x/registry/verification_rounds.go:205-222 | recorded tallies still match a recount after a reveal |
| `Votes.PanelBound` | x/registry/verification_keeper.go:388-402 | the submissions of an assignment come from distinct members of its panel |
| `Votes.StoredVerdictBound` | x/registry/msg_server.go:184-202 | another reveal that opens the same commit agrees with the stored verdict or exhibits a hash collision |
| `Votes.CommitAccepted` | x/registry/msg_server.go:98-143 | a commit is accepted if and only if a panel member of an open assignment sends a 64-digit hash in the commit window for the first time; its lower-case form is stored |
| `Votes.RevealAcceptedIff` | x/registry/msg_server.go:146-215 | a reveal is accepted if and only if a panel member of an open assignment sends it, well formed and with fitting evidence and owner, in the reveal window, and it hashes to the sender's commit |
| `Votes.RevealStored` | x/registry/msg_server.go:204-240 | an accepted reveal replaces the commit by a submission with exactly the revealed fields |
| `Verdicts.ComputeCooldownSeconds` | x/registry/lease_settlement.go:173-182 | the doubling loop computes the base times 2^(count - 1), modulo 2^64 in int64 |
| `Verdicts.FitsIff` | x/registry/lease_settlement.go:184-196 | a cooldown that may start is accepted if and only if now plus its exact length, the base or twice the last cooldown, fits an int64 |
| `Verdicts.AcceptedCooldownExact` | x/registry/lease_settlement.go:184-196 | an accepted cooldown is exact and doubles the previous one |
| `Verdicts.FailureReadsOne` | x/registry/verification_rounds.go:322-337 | a verified publisher that fails reads streak 1, so it is revoked exactly when the threshold is 1 |
| `Verdicts.JudgeKeeps` | x/registry/verification_rounds.go:229-363 | a verdict keeps slots with their owners and the lease book in order |
| `Verdicts.JudgeKeepsSites` | x/registry/verification_rounds.go:229-363 | a verdict keeps status, streak and cooldown of every website consistent |
| `Verdicts.JudgeIff` | x/registry/verification_rounds.go:229-363 | a verdict errs if and only if it fails a website with leases on air, outside a cooldown, whose next cooldown ends beyond an int64; the refunds never err |
| `Verdicts.JudgeFailsIff` | x/registry/lease_settlement.go:184-196 | up to a third of the clock's range a repeated cooldown always fits, so a verdict errs if and only if it starts a first cooldown and now plus the base does not fit |
| `Verdicts.BaseSafeIff` | x/registry/types.go:388-390 | no verdict on any estate errs at a given time if and only if now plus the cooldown base fits an int64 |
| `Verdicts.HugeBaseFails` | x/registry/types.go:388-390 | with the valid base MaxInt64 a failed check of a rented-out website errs at any positive time |
| `Verdicts.OwnerChangesByVote` | x/registry/verification_rounds.go:238-270 | a verdict changes an owner only for a winning re-registration of that domain, to the assignment's candidate |
| `Verdicts.PassedCheck` | x/registry/verification_rounds.go:284-320 | a regular check that passes verifies the website, clears streak and cooldown, and changes no other field, website, slot or lease |
| `Verdicts.WinnerTakesOver` | x/registry/verification_rounds.go:238-270 | a winning candidate gets the website, verified from this height on with a clean record, and the old owner's slots of the domain; every other website and slot and all leases stay |
| `Verdicts.CandidateRejected` | x/registry/verification_rounds.go:271-283 | a candidate that a quorum turns down is withdrawn, and nothing else changes |
| `Verdicts.NothingDecided` | x/registry/verification_rounds.go:229-283 | without a quorum, for a stale candidate or a missing website, nothing changes |
| `Verdicts.LosingCandidateChangesNothing` | x/registry/verification_rounds.go:231-283 | a stale, rejected or quorum-less candidate leaves owner, referrer, status, cooldown, streak and slots unchanged |
| `Verdicts.FailedCheck` | x/registry/verification_rounds.go:322-363 | a failed check counts the failure unless revoked, turns a verified website pending, or revoked under threshold 1, and with leases on air outside a cooldown starts one of the base or twice the last; other websites, streaks and all slots stay |
| `Verdicts.FailureRefunds` | x/registry/verification_rounds.go:338-363 | exactly the leases that it finds on air then become violated and every user gets back exactly the escrow of its own; otherwise no lease and no balance changes |
| `Finalization.FinalizeKeeps` | x/registry/verification_rounds.go:200-435 | the finalization pass keeps the invariant |
| `Finalization.FinalizeIff` | x/registry/verification_rounds.go:200-435 | the pass succeeds if and only if no assignment starts, at its turn, a first cooldown that does not fit; none does while now plus the base fits |
| `Finalization.FinalizeFailsIff` | x/registry/verification_rounds.go:200-435 | while no website has two expired assignments, the pass errs if and only if one expired assignment, as it stands before the pass, starts such a cooldown |
| `Finalization.FinalizeCompletes` | x/registry/verification_rounds.go:205-207 | after the pass no assignment is overdue |
| `Finalization.FinalizeChanges` | x/registry/verification_rounds.go:407-413 | the pass changes assignments only by finalizing them with a frozen tally, and owners only by a won vote |
| `Finalization.ClosedExact` | x/registry/verification_rounds.go:407-413 | an assignment is closed exactly when its deadline has come, and verified exactly when at least half of the panel revealed, more than half of the reveals passed and a candidate is still the pending one |
| `Finalization.VerdictByVotes` | x/registry/verification_rounds.go:284-337 | in votes: without a quorum a regular check changes nothing; with most reveals passing the website is verified; otherwise a verified website becomes pending, or revoked under threshold 1 |
| `Finalization.PanelJudged` | x/registry/verification_rounds.go:365-405 | a panel member that did not reveal, or revealed against a quorum, gets one more strike; any other member is cleared and nobody else is touched |
| `Finalization.StrikesSuspendIff` | x/registry/verification_keeper.go:347-373 | from the threshold on a strike keeps a verifier off the panels for the suspension period if and only if the end of the period fits an int64 |
| `Finalization.StrikeNeverShortens` | x/registry/verification_keeper.go:347-368 | a strike never shortens a suspension and changes it only from the threshold on |
| `Rounds.MarkFinalizedKeeps` | x/registry/verification_keeper.go:112-127 | storing a finalized assignment keeps index, uniformity and paid rounds, and leaves the index as it was |
| `Rounds.NeverPartiallySettled` | x/registry/verification_rounds.go:648-680 | an indexed round is paid when fully finalized and waits otherwise; it was never paid before |
| `Rounds.MarkPaidKeeps` | x/registry/verification_rounds.go:887-898 | marking a paid round keeps exactly-once settlement |
| `Rounds.AddRoundKeeps` | x/registry/verification_rounds.go:150-197 | a later round adds new assignments only and keeps exactly-once settlement |
| `Rounds.MigrateEstablishes` | x/registry/module.go:103-126 | the upgrade establishes the settlement invariant from any mixture of settled flags and empties the index |
| `Rounds.MigrateKeeps` | x/registry/module.go:103-126 | the upgrade keeps the settlement invariant |
| `Payments.PayRoundConserves` | x/registry/verification_rounds.go:717-783 | a round settles exactly when the account covers both pools and every successful verifier has a payout entry; payouts plus burns are exactly both pools |
| `Payments.PayRoundFrame` | x/registry/verification_rounds.go:717-783 | no other module account moves, and the supply falls by exactly what is burned |
| `Payments.SpendExact` | x/tokenomics/keeper.go:111-131 | paying a batch and burning the rest takes exactly the budget, and fails exactly when it is not covered |
| `Payments.VerifierPaymentsSum` | x/registry/verification_rounds.go:870-884 | an assignment pays exactly its share less the undistributed remainder |
| `Payments.BaseCoversAll` | x/registry/verification_rounds.go:870-874 | with a base unit per successful verifier the nil-amount panic cannot occur |
| `Payments.FullClaimPaid` | x/registry/verification_rounds.go:799-824 | with enough verified links the publisher gets exactly the base share |
| `Payments.PassersPaid` | x/registry/verification_rounds.go:826-884 | an assignment pays exactly the verifiers that revealed a pass, each once and a positive amount: the base share without a bond; with one, the base share plus, up to rounding, the part of the weighted pool for bond times referrals |
| `Payments.RoundPays` | x/registry/verification_rounds.go:682-796 | settling a round pays every user exactly the claims of its websites on equal parts of the publisher pool, one part per verified assignment, and its entries in the splits of equal parts of the verifier pool, one part per assignment of the round |
| `Solvency.SettlePaymentsKeeps` | x/registry/verification_rounds.go:682-796 | settling one more round keeps the emission account in balance and moves no other module account |
| `Solvency.SettlesIff` | x/registry/verification_rounds.go:693-783 | a round settles if and only if pools and entries are defined and minted plus donated coins cover all rounds so far and this one |
| `Solvency.RunSolvent` | x/registry/verification_rounds.go:693-783 | with affordable parameters no round that fits into the emission period lacks funds |
| `Solvency.RoundsTakeTime` | x/registry/drand_schedule.go:22-28 | distinct rounds within a window number at most the intervals that fit, rounded up |
| `Settlement.SettleRoundsKeeps` | x/registry/verification_rounds.go:648-680 | the settlement pass keeps the invariant |
| `Settlement.SettleRoundsExact` | x/registry/verification_rounds.go:648-680 | the pass pays exactly the indexed rounds that are fully finalized, in order, each once |
| `Settlement.SettledFlags` | x/registry/verification_rounds.go:887-898 | settlement sets the settled flag of exactly the assignments of the due rounds |
| `Settlement.DueExact` | x/registry/verification_rounds.go:649-670 | a round is due exactly when it is indexed and all of its assignments are finalized |
| `Settlement.SettleRoundIff` | x/registry/verification_rounds.go:648-680 | a round errs only for lack of funds or of a payout entry |
| `Settlement.SettleRoundsIff` | x/registry/verification_rounds.go:648-680 | the pass succeeds if and only if the topped-up account covers the pools of all fully finalized indexed rounds together and every successful verifier in them has a payout entry |
| `Settlement.SettleRoundsSucceeds` | x/registry/verification_rounds.go:648-680 | with a sustainable schedule and room for the waiting rounds all due rounds are payable and the pass never errs |
| `Settlement.RoundDefined` | x/registry/verification_rounds.go:826-884 | when every share holds a base unit per panel member all payout entries exist |
| `Assigning.PanelExact` | x/registry/verification_rounds.go:155-163 | a panel lists, in order and once each, min(count, eligible) of the verifiers with at least the minimum bond and no running suspension |
| `Assigning.PanelFrequency` | x/registry/verification_rounds.go:155-163 | at every place of a panel, among the hash values below the stake left, exactly as many select an eligible verifier as its bond, one for a zero bond |
| `Assigning.RoundAssigned` | x/registry/verification_rounds.go:55-198 | without a later grid point or its beacon nothing changes; otherwise exactly the websites with a candidate, and the unrevoked ones out of cooldown at the round's start, get one open assignment with the drawn panel, offset start, deadline and owner, and the round gets its metadata |
| `Assigning.AssignKeeps` | x/registry/verification_rounds.go:40-198 | assignment keeps the schedule, the index, duties and beacon agreement, and earlier duties; every stored assignment passes the store's validation with an exact deadline |
| `Assigning.AssignIff` | x/registry/verification.go:28-57 | assigning succeeds exactly when the block is ready: a wrapped deadline or a clock at zero is refused by the stores |
| `Assigning.HugeWindowNeverFits` | x/registry/verification_rounds.go:150-152 | a valid submission window for which every deadline wraps |
| `Assigning.AcceptedBeaconConsumed` | x/registry/msg_server.go:488-506 | an accepted beacon is consumed by the assignment that follows, which fails exactly when a new assignment cannot be stored |
| `Assigning.BeaconAcceptedIff` | x/registry/msg_server.go:479-560 | a beacon is accepted if and only if it is the new one that the pending round requires, well formed and verified; it is stored in lower case |
| `DrandSchedule.NextRoundStartIsNext` | x/registry/drand_schedule.go:22-28 | the next round start is the first grid point after now, on Go's year-one grid |
| `DrandSchedule.RequiredIsLatest` | x/registry/drand_schedule.go:33-51 | the required beacon is the latest one emitted at or before round start less offset |
| `DrandSchedule.RequiredIff` | x/registry/drand_schedule.go:33-51 | a round requires a beacon exactly when drand had started by the offset before it |
| `DrandSchedule.StrictProgressIff` | x/registry/drand_schedule.go:33-51 | all rounds of the grid use strictly later beacons than earlier rounds if and only if the interval is at least the drand period |
| `DrandSchedule.SharedBeacon` | x/registry/drand_schedule.go:33-51 | with a shorter interval two consecutive rounds share a beacon within period many rounds after any round |
| `Sampling.SelectDistinct` | x/registry/verification_rounds.go:487-552 | distinct candidates give exactly min(k, n) distinct members |
| `Sampling.SelectionFrequency` | x/registry/verification_rounds.go:520-545 | exactly weight many pick values select a candidate |
| `Sampling.DrawFrequency` | x/registry/verification_rounds.go:508-566 | whatever the other draws hash to, exactly weight many of the hash values below the total weight draw a candidate |
| `Sampling.SelectFrequency` | x/registry/verification_rounds.go:487-566 | at every place j of a real selection, among the values of hash j below the weight left by the earlier members, exactly as many select a candidate as it has stake, one without |
| `Sampling.PickIndex` | x/registry/verification_rounds.go:525-538 | the scan finds that index; its last-index default is never used |
| `Sampling.DrawAll` | x/registry/verification_rounds.go:508-548 | the drawing loop is the repeated weighted draw |
| `Sampling.SelectDeterministicWeighted` | x/registry/verification_rounds.go:487-552 | the whole selection meets this; the top-up loop is never needed |
| `Tally.ComputeSimilarRoundStats` | x/registry/similar_settlement.go:23-95 | the loops meet the order-free specification of quorum, majority hash and median, for any map order |
| `Tally.TallyPermutationInvariant` | x/registry/similar_settlement.go:23-95 | two results that meet it on permuted submissions are equal |
| `Tally.VerifiedSimilarRobust` | x/registry/similar_settlement.go:68-92 | if more than half of the agreeing passes report matches in [lo, hi], so does the verified count, capped at 15 |
| `Tally.SortedMiddleIsMedian` | x/registry/similar_settlement.go:74-92 | the middle of the sorted reports is the counting median |
| `Tally.ComputeMeetsSpec` | x/registry/similar_settlement.go:23-95 | the function used by the state machine meets the specification |
| `Tally.LoopsComputeTheSame` | x/registry/similar_settlement.go:23-95 | the loops and the function agree on any order of the submissions |
| `RewardSplit.SplitVerifierAssignmentRewards` | x/registry/verification_rounds.go:568-646 | payouts plus remainder are the total for all inputs, the negative clamp is dead, and the result is the two-pool split |
| `RewardSplit.SplitPoolsConserves` | x/registry/verification_rounds.go:568-646 | the split conserves the pools, all entries positive |
| `RewardSplit.PayoutAccuracy` | x/registry/verification_rounds.go:568-646 | each weighted payout is less than 2 units below and at most 2(n - 1) above the exact rational share |
| `RewardSplit.PayoutExact` | x/registry/verification_rounds.go:580-646 | a payout is the equal part of the base pool plus the proportional part of the weighted pool, both rounded down, and the last of either list takes what is left |
| `RewardSplit.BasePoolExact` | x/registry/verification_rounds.go:580-590 | the base pool is the base share's basis points of the total, rounded down, and the weighted pool the rest |
| `SplitAccuracy.WithinNIff` | x/registry/verification_rounds.go:568-646 | every payout is within n units of its exact share if and only if the last verifier has no weight or the base remainder and the dust it collects amount to at most n units |
| `SplitAccuracy.LastCollectsDust` | x/registry/verification_rounds.go:620-640 | the last weighted verifier receives exactly the remainders of all others on top of its share |
| `RewardSplit.ErrorExceedsN` | x/registry/verification_rounds.go:568-646 | a concrete split whose error exceeds n |
| `RewardSplit.PayoutDefined` | x/registry/verification_rounds.go:870-874 | a verifier has an entry if and only if it is funded |
| `RewardSplit.MissingEntry` | x/registry/verification_rounds.go:870-874 | a concrete split without an entry |
| `Emission.SolventIff` | x/registry/types.go:535-563 | the denominator is valid and every number of rounds that fits into the emission period spends at most the minted amount, if and only if the denominator is positive and the parameters afford the largest such number, overflow and fallback included |
| `Emission.PoolsExact` | x/registry/types.go:535-563 | each pool is its own basis points of the supply for the interval's part of the period, rounded down, or its own fixed reward when nothing is left; undefined exactly when the wrapped denominator is not positive |
| `Emission.TargetExact` | x/registry/verification_rounds.go:707-715 | the minted amount is both pools' basis points of the supply, rounded down |
| `Emission.EmissionSolvent` | x/registry/types.go:535-563 | without overflow and fallback k rounds that fit into the emission period spend at most the minted amount |
| `Emission.RegularAffordable` | x/registry/types.go:535-563 | without overflow and fallback the parameters always afford the schedule |
| `Emission.OverflowCanBeSolvent` | x/registry/types.go:535-563 | an overflowing denominator with a solvent schedule |
| `Emission.OverflowBreaksSolvency` | x/registry/types.go:535-563 | a valid emission period that overflows the int64 denominator breaks solvency in the first round |
| `Emission.FallbackBreaksSolvency` | x/registry/verification_rounds.go:697-702 | the fixed fallback reward breaks solvency once a pool rounds to zero |
| `Emission.AmountsFit` | x/registry/types.go:553-561 | with a supply and fixed rewards of at most 2^192 no product of the pool and claim rules exceeds the 256 bits of sdk.Int, whatever the denominator |
| `PublisherParams.EffectiveValues` | x/registry/types.go:479-639 | every effective value is the field or, when that is zero, the default; only the base share may be zero |
| `Emission.ClaimableBounds` | x/registry/verification_rounds.go:799-824 | a claim stays between the guaranteed minimum and the base share, is monotone in the links and full with enough of them |
| `Emission.ClaimExact` | x/registry/verification_rounds.go:799-824 | a claim is the base share times max(minimum, min(matched * 10000 / required, 10000)) basis points, both rounded down |
| `CommitHash.CommitBindsVerdict` | x/registry/typespb/commit_hash.go:19-53 | two reveals that open one commit agree on pass or fail, or exhibit a collision |
| `CommitHash.CommitBindsCounts` | x/registry/typespb/commit_hash.go:55-69 | two valid reveals with evidence that open one commit agree on the three counts, or exhibit a collision |
| `CommitHash.CommitBindsEvidence` | x/registry/typespb/msg.go:126-143 | they carry one evidence hash, or exhibit a collision |
| `CommitHash.SetHashesBoundIff` | x/registry/typespb/commit_hash.go:55-69 | the evidence of a valid reveal binds its two set hashes if and only if no other bar of the joined text cuts it into two fields that a valid reveal can carry |
| `CommitHash.CommitBindsSetHashes` | x/registry/typespb/msg.go:126-143 | without such a cut, two valid reveals that open one commit have the same set hashes, or exhibit a collision |
| `CommitHash.CutsAreBars` | x/registry/typespb/msg.go:115-125 | for hashes without blanks the cuts are exactly the bars inside either hash, except one that would leave a counted field empty |
| `CommitHash.BarFreeHasNoCut` | x/registry/typespb/commit_hash.go:55-69 | without a bar in either hash there is no such cut |
| `CommitHash.OtherCutUnbinds` | x/registry/typespb/msg.go:126-143 | each such cut is another valid reveal that opens the same commit with the same evidence and different set hashes |
| `CommitHash.VersionsNeverAlias` | x/registry/typespb/commit_hash.go:19-53 | legacy and owner-scoped payloads never coincide |
| `CommitHash.LegacyLayout` | x/registry/typespb/commit_hash.go:19-34 | the legacy payload is domain, round, verifier, verdict, evidence and nonce between bars |
| `CommitHash.OwnerLayout` | x/registry/typespb/commit_hash.go:36-53 | the owner-scoped payload is the version, domain, round, verifier, owner, verdict, evidence and nonce between bars |
| `CommitHash.EvidenceLayout` | x/registry/typespb/commit_hash.go:55-69 | the evidence text is the version, the three counts and the two set hashes between bars |
| `StoreKeys.AssignmentKeyInjective` | x/registry/verification_keeper.go:418-424 | assignment keys are injective |
| `StoreKeys.VoteKeyInjective` | x/registry/verification_keeper.go:432-454 | commit and submission keys are injective |
| `StoreKeys.RoundScanExact` | x/registry/verification_keeper.go:184-199 | a round's prefix scan hits exactly its assignments |
| `StoreKeys.VoteScanExact` | x/registry/verification_keeper.go:388-402 | a submission prefix scan hits exactly its round and domain, also for a.com and a.com:80 |
| `StoreKeys.CommitNeverSimilar` | x/registry/similar_store.go:55-57 | commit keys never equal similar-stats keys although both live under 0x13 |
| `StoreKeys.EncodeInjective` | x/registry/keeper.go:18-37 | the encoding of all records of the registry store is injective |
| `Storage.StoredWellFormed` | x/registry/types.go:85-86 | every record stored in a reachable state has a well-formed key: its rounds fit an int64 and its domain, which passed the chain's pattern, contains no NUL byte |
| `Storage.StoreUnambiguous` | x/registry/keeper.go:18-37 | no two records of a reachable state share a key |
| `Storage.ScansExact` | x/registry/verification_keeper.go:388-402 | in a reachable state the submission scan of an assignment meets exactly its votes, the round scan exactly its round |
| `StoreKeys.GetRefines` | x/registry/verification_keeper.go:129-140 | a byte-keyed read is the tuple-keyed read |
| `StoreKeys.SetRefines` | x/registry/verification_keeper.go:112-127 | a byte-keyed write is the tuple-keyed write |
| `StoreKeys.DeleteRefines` | x/registry/verification_keeper.go:257-261 | a byte-keyed delete is the tuple-keyed delete |
| `StoreKeys.SubmissionScanSound` | x/registry/verification_keeper.go:388-402 | every key under a submission prefix is a submission of that assignment |
| `StoreKeys.SubmissionScanComplete` | x/registry/verification_keeper.go:388-402 | every submission of the assignment is under its prefix |
| `StoreKeys.AssignmentIterationOrder` | x/registry/verification_keeper.go:142-155 | byte order of assignment keys is round, then domain |
| `Bank.SendAllCovers` | x/tokenomics/keeper.go:111-120 | a batch of payments succeeds exactly when the account covers its sum, which it then loses |
| `Bank.SendAllFrame` | x/tokenomics/keeper.go:111-120 | a batch moves no other module account and keeps the supply |
| `RelayRank.RanksAreBijective` | offchain/verifierd/drand.go:110-197 | ranks map the active verifiers one to one onto 0..n-1, with one rank-0 primary |
| `RelayRank.RankIndependentOfListing` | offchain/verifierd/drand.go:110-197 | the rank does not depend on the order in which verifiers are listed |
| `RelayRank.DrandRelayRank` | offchain/verifierd/drand.go:110-197 | the computation returns that rank and the three errors exactly in their cases |
| `RelayRank.PrimaryFrequency` | offchain/verifierd/drand.go:150-175 | of the hash values below the sum of the bonds exactly as many make a verifier the primary as its bond; other hashes count modulo the sum |
| `RelayRank.RankCounts` | offchain/verifierd/drand.go:176-197 | a fallback's rank is one more than the number of fallbacks with a lower score, or an equal score and a smaller address |
| `RelayRank.RosterFirst` | offchain/verifierd/drand.go:118-148 | a non-blank trimmed address counts with the bond of its first entry, or 1 without a positive bond |
| `RelayRank.StaggeredIff` | offchain/verifierd/drand.go:95-104 | the delays of ranks 0..n start at 0, never decrease and respect the cap if and only if n times the stagger fits an int64 |
| `RelayRank.DelayExact` | offchain/verifierd/drand.go:95-104 | while the product fits, the delay is rank times stagger cut off at the cap |
| `RelayRank.FirstOverflow` | offchain/verifierd/drand.go:95-104 | the first rank whose product does not fit waits a negative time, whatever the cap |
| `RelayRank.HugeStaggerMisorders` | offchain/verifierd/config.go:214-218 | an accepted stagger for which the second fallback waits -2 seconds |
| `AirdropWorkers.AtMostOneBroadcast` | cmd/congrid-site/airdrop.go:363-395 | over any interleaving of workers, requests, crashes and restarts Broadcast runs at most once per site, and never for an imported claim |
| `AirdropWorkers.ConfirmedThroughBroadcast` | cmd/congrid-site/airdrop.go:397-421 | a claim reserved here reaches confirmed only through broadcast with a transaction hash |
| `AirdropWorkers.RequestRecorded` | cmd/congrid-site/airdrop_store.go:216-260 | a complete request reserves a verified claim, once per site |
| `AirdropWorkers.SubmissionRecorded` | cmd/congrid-site/airdrop_store.go:286-298 | a submission moves the claim to submitting and counts it |
| `AirdropWorkers.BroadcastRecorded` | cmd/congrid-site/airdrop.go:363-395 | an accepted broadcast is recorded with its hash, a rejected one as failed, an ambiguous one as needing reconciliation |
| `AirdropWorkers.InclusionRecorded` | cmd/congrid-site/airdrop.go:397-421 | inclusion confirms a claim, a failed delivery fails it, a timeout leaves it to reconcile |
| `AirdropWorkers.RestartRecorded` | cmd/congrid-site/airdrop_store.go:332-345 | a restart moves exactly the interrupted submissions to needing reconciliation |
| `AirdropWorkers.StepKeepsInv` | cmd/congrid-site/airdrop.go:154-176 | every step of every worker keeps the claim invariant |
| `AirdropStore.ClaimStore.Reserve` | cmd/congrid-site/airdrop_store.go:216-260 | a claim whose domain matches its primary key is inserted unless the site has one; the stored claim is returned |
| `AirdropStore.ClaimStore.MarkSubmitting` | cmd/congrid-site/airdrop_store.go:286-298 | only a verified claim moves to submitting, and only once |
| `AirdropStore.ClaimStore.Transition` | cmd/congrid-site/airdrop_store.go:347-372 | compare-and-set on the status |
| `AirdropStore.ClaimStore.MarkTerminal` | cmd/congrid-site/airdrop_store.go:316-330 | a submitting claim ends as failed or as needing reconciliation |
| `AirdropStore.ClaimStore.RecoverInterrupted` | cmd/congrid-site/airdrop_store.go:332-345 | exactly the interrupted submissions come to need reconciliation, none becomes verified again |
| `Keepers.TokenomicsKeeper.EnsureEmissionPool` | x/tokenomics/keeper.go:90-108 | mints the missing part of the target and records it |
| `Keepers.TokenomicsKeeper.SendFromPool` | x/tokenomics/keeper.go:111-120 | a send out of the pool, or failure without effect |
| `Keepers.TokenomicsKeeper.BurnFromPool` | x/tokenomics/keeper.go:122-131 | a burn out of the pool, or failure without effect |
| `Keepers.VerifiersKeeper.BondCoins` | x/verifiers/keeper.go:101-126 | the object's new escrow is the bonding step's, with the same error |
| `Keepers.VerifiersKeeper.UnbondCoins` | x/verifiers/keeper.go:129-166 | the object's new escrow is the unbonding step's, with the same error |
| `RegistryStore.Registry.constructor` | x/registry/module.go:143-162 | an empty registry is a genesis state of the machine |
| `RegistryStore.Registry.RegisterPublisher` | x/registry/msg_server.go:28-95 | the stores after the call are the registration step's |
| `RegistryStore.Registry.SubmitVerificationCommit` | x/registry/msg_server.go:98-143 | the stores after the call are the commit step's |
| `RegistryStore.Registry.RevealVerification` | x/registry/msg_server.go:146-240 | the stores after the call are the reveal step's |
| `RegistryStore.Registry.CreateSlot` | x/registry/msg_server.go:243-310 | the state after the call is the slot step's |
| `RegistryStore.Registry.CheckLease` | x/registry/msg_server.go:355-432 | the guards refuse a lease for the same reason, in the same order |
| `RegistryStore.Registry.FindOverlap` | x/registry/msg_server.go:413-421 | the scan finds an overlap exactly when one exists |
| `RegistryStore.Registry.LeaseSlot` | x/registry/msg_server.go:355-463 | the state after the call is the lease step's |
| `RegistryStore.Registry.SubmitDrandBeacon` | x/registry/msg_server.go:479-560 | the beacons after the call are the beacon step's |
| `RegistryStore.Registry.PayoutLease` | x/registry/lease_settlement.go:49-83 | the escrow goes to the publisher and the lease is completed, as in the payout step; it fails exactly when the account is short |
| `RegistryStore.Registry.RefundLease` | x/registry/lease_settlement.go:85-123 | the escrow goes back to the lessee and the lease is violated, as in the refund step; it fails exactly when the account is short |
| `RegistryStore.Registry.SettleLeases` | x/registry/lease_settlement.go:11-47 | the loop over the lease iterator is the settlement pass |
| `RegistryStore.Registry.ActiveLeasesForDomain` | x/registry/lease_settlement.go:147-171 | the loop lists exactly the leases on air for the domain, in order |
| `RegistryStore.Registry.ViolateActiveLeasesForDomain` | x/registry/lease_settlement.go:220-228 | the loop is the violation pass |
| `RegistryStore.Registry.TransferSlotsForDomain` | x/registry/slot_keeper.go:99-118 | collect-then-update rewrites exactly the old owner's slots of the domain |
| `RegistryStore.Registry.ApplyVerdict` | x/registry/verification_rounds.go:229-363 | websites, streaks, slots, leases and bank afterwards are those of the verdict, with the same error |
| `RegistryStore.Registry.PunishPublisher` | x/registry/verification_rounds.go:338-363 | cooldown and refund of the leases on air, as in the verdict step, with the same error |
| `RegistryStore.Registry.PenalizeVerifiers` | x/registry/verification_rounds.go:365-405 | the panel loop is the penalty pass |
| `RegistryStore.Registry.SetAssignment` | x/registry/verification_keeper.go:112-127 | stores exactly a valid assignment and indexes its round while it is unsettled |
| `RegistryStore.Registry.CountVotes` | x/registry/verification_rounds.go:209-217 | the counting loops over the stored reveals give the tally of the state machine |
| `RegistryStore.Registry.FinalizeAssignments` | x/registry/verification_rounds.go:200-435 | the loop over assignments is the finalization pass |
| `RegistryStore.Registry.PayPublishers` | x/registry/verification_rounds.go:719-750 | the loop pays exactly the publisher batch, or fails exactly when it does |
| `RegistryStore.Registry.PayVerifiers` | x/registry/verification_rounds.go:826-884 | one assignment's verifiers are paid exactly its batch |
| `RegistryStore.Registry.PayAllVerifiers` | x/registry/verification_rounds.go:757-767 | the loop pays exactly the verifier batch, or fails exactly when it does |
| `RegistryStore.Registry.MarkRewardsSettled` | x/registry/verification_rounds.go:887-898 | the loop settles exactly the round and clears its index entry, or fails exactly when an assignment cannot be stored |
| `RegistryStore.Registry.DecideRound` | x/registry/verification_rounds.go:649-675 | the counting loop takes the branch of the state machine |
| `RegistryStore.Registry.SettleVerificationRound` | x/registry/verification_rounds.go:682-796 | treasury, assignments and index afterwards are those of paying and marking the round; it fails exactly when one of the two does |
| `RegistryStore.Registry.SettleFinalizedRounds` | x/registry/verification_rounds.go:648-680 | the loop over the index is the settlement pass |
| `RegistryStore.Registry.CollectDueSites` | x/registry/verification_rounds.go:66-84 | the filter lists exactly the due websites, in order |
| `RegistryStore.Registry.MakeAssignment` | x/registry/verification_rounds.go:150-182 | a new assignment has the drawn panel, start, deadline and verification owner of the assignment step |
| `RegistryStore.Registry.AssignEach` | x/registry/verification_rounds.go:146-194 | the loop adds exactly the new round and indexes it when it is not empty, or fails exactly when an assignment cannot be stored |
| `RegistryStore.Registry.AssignNewRound` | x/registry/verification_rounds.go:40-198 | the assignment step, including skipped rounds and the errors of schedule and stores |
| `RegistryStore.Registry.Migrate2To3` | x/registry/module.go:103-126 | the loop settles every assignment and clears the index: the upgrade step |
| `RegistryStore.Registry.EndBlock` | x/registry/verification_rounds.go:24-38 | the four passes in order are the end-of-block step |

## Left out

- Genesis import of websites and verifiers: it skips the primary-domain index and the bond escrow, so runs start empty.
- BLS verification of drand beacons, SHA-256, bech32 checksums, URL and regular-expression parsing: foreign code, functions of the environment.
- The similar-stats record, events, JSON marshalling, pagination and query servers: no step reads them.
- A registry without a tokenomics or verifiers keeper: the application always wires both.
- The 256-bit limit of sdk.Int on balances, bonds and reward weights, and wrap-around of the uint64 sequences. An emission supply or fixed reward beyond 2^192, which `Validate` accepts and which can overflow the pool arithmetic, is not part of the model either.
- Round intervals beyond 292 years, whose time.Duration wraps, and block times beyond year 9999, which a protobuf timestamp cannot hold.
- `violateActiveLeases` and `activeLeasesForPublisher`: unused by the protocol.
- `MintAndSend`, `MintAndBurn`, `SplitPublisherRewards`, score functions and emission simulations: not on the settlement path.
- Verifierd's agent loop, beacon fetching, HTML checks, the website and its HTTP handlers, app wiring and IBC: input and output around the protocol.
- RegistryStore.Registry.SettleFinalizedRounds: on failure promises only that the step function fails too, not which error; the order of sends and entry checks inside one batch is not distinguished.
- RegistryStore.Registry.EndBlock: on failure promises only that the step function fails too, and nothing about the partly written stores, which the chain discards.
- RegistryStore.Registry.PayVerifiers: collects the successful verifiers and their weights as comprehensions instead of loops.
