# gShare control plane in Dafny

This project models the parts of gShare whose correctness does not show in any single function, and proves
what they are for.

- **Credit.** Wallets, the append-only ledger with its UNIQUE idempotency key, and every operation that mints,
  moves, holds, charges or gives back credit. `Ledger` says what it means for the tables to be in order,
  `Movers`, `Bulk`, `Grants`, `Refill`, `Engine` and `Operations` describe the operations as functions on the
  tables, `Effects` and `Ceilings` say what a caller sees of them, and `Store` runs them row by row on mutable tables and is
  proved against those functions.
- **Concurrency.** `Concurrency` is the interleaved system of transactions: key check, row locks, checks,
  inserts against the index, commit or rollback. `Interleaving` holds what every run keeps, `Serializability`
  when a run is serializable, `LostUpdate` a run that is not, and `Deadlock` that requests always finish.
- **Billing.** `Charges` says what a session is charged from its own figures; `Reservations`, `Metering` and
  `History` are about holds, ticks and settlement over whole runs.
- **Who decides.** `Staffing` compares the three lookups that route an allocation request, `Routing` ties them to
  the requests that can be stored; `Migration` is the table rewrite that moved organization administrators to
  their own rows.
- **Users.** `Cascade` and `Directory`: freezing and thawing users with their groups.
- **Cards.** `Pool`, `Drain` and `Fleet`: the MIG split, the drain state machine and the inventory reports.
- **Views and samples.** `Calendar`, `Spend`, `Fold`, `Hours`, `Volumes` and `Sampler`.

Amounts are whole cents, since the columns are `Numeric(18, 2)`; hourly rates and CPU rates are reals. A handler
that fails leaves the tables as they were, because its transaction is never committed. Clocks, fresh ids and
what the cluster answers are parameters.

## Where the code does not do what it says

Each of these is stated as a lemma with the exact condition under which the property holds, together with a
concrete input where it fails or a proof that it fails for every input of the failing kind.

- An approval that draws on a pool finds the pool's wallet before it locks it. The locking query
  (backend/app/api/credits_router.py:81-90) does not refresh a row the session has already loaded, and nothing
  else does, so a balance committed in between is overwritten: `Serializability.SerializableIff`, with the run
  in `LostUpdate.UpdateIsLost`. Requests that lock first are serializable: `Serializability.Serializable`.
- A session that spends past its own hold uses up its neighbour's reservation on the same wallet:
  `Reservations.DebitExactIff`, `Reservations.SettleExactIff`, with the case in
  `History.OverspendUsesNeighboursHold`, which a run from an empty wallet reaches (`History.TwoHoldsIsReachable`).
- The sum of all rows of a wallet is its balance only if no hold or refund was ever recorded:
  `History.HistorySumsIff`, with the case in `History.HoldsBreakTheSum`.
- Switching an organization on thaws members who have only archived groups there:
  `Cascade.OrgActivationKeepsRuleIff`, with the run in `Cascade.ArchivedMemberIsThawed`. An unrelated edit of a
  frozen user keeps them frozen: `Cascade.EditKeepsFrozen`.
- The recipients of a request are documented to be administrators who can approve it. The lookup ignores expiry
  and deleted groups, the check at approval does not: `Staffing.RecipientsCanFulfillIff` and `Staffing.StuckIff`,
  with the cases in `Staffing.ExpiredAdministratorIsTold` and `Staffing.DeletedGroupIsAnswered`.
- The membership migration drops expiry dates, and roles held on deleted groups:
  `Migration.SamePrincipalAfterIff`, with the case in `Migration.ExpiredAdministratorReturns`.
- The split by target count can mark a card ready in a mode other than its target:
  `Drain.RetargetFittingIff`, with the case in `Drain.ExclusiveCardLeftUnfit`.
- A card leaving MIG never becomes ready again by itself, although the worker's documentation describes
  the full cycle: `Drain.FinishesIff`, where `Drain.LeavingMigNeverFinishes` covers every such card.
- The sampler's maps are documented not to grow without bound. A path that resolved and was never read stays:
  `Sampler.PathsBoundedIff`, with the case in `Sampler.PathLeaks`.

## Model

| member | source | states |
|---|---|---|
| Ledger.WriteKeepsLedger | backend/app/api/credits_router.py:1818-1830 | a wallet change written with a row of the same amount keeps: balance is the sum of the wallet's rows, each row's balance_after is the running sum there, 0 <= reserved <= balance, keys unique |
| Ledger.PostMovesSum | backend/app/api/credits_router.py:370-383 | one leg changes the total of a set of wallets by its amount if it lands in the set and not at all otherwise |
| Movers.HandleKeepsLedger | backend/app/api/credits_router.py:246-394 | topup, adjust, transfer, allocate and approval keep the ledger invariant, whatever their answer |
| Movers.MoveConserves | backend/app/api/credits_router.py:348-394 | a movement keeps the total of every set of wallets that holds both ends or neither |
| Movers.MoveKeepsTotal | backend/app/api/credits_router.py:603-643 | transfer, allocate and non-system approval keep the total of all balances |
| Movers.CreatedRequestIsOneLevelUp | backend/app/api/credits_router.py:1063-1117 | a stored request names its approver, one level above its target, and is at home in the caller's organization unless a system administrator raised it for themselves |
| Movers.MoveKeepsOrgTotals | backend/app/api/credits_router.py:397-433 | what anyone but a system administrator may move, and any approval that draws on a pool, keeps every organization's own total |
| Effects.MoveEffect | backend/app/api/credits_router.py:328-394 | a transfer or allocation succeeds iff the wallets differ and exist, the caller may move between them (`Routing.MayMoveIff`), the source can pay and the keys are unused; then exactly those two balances change, by the amount |
| Effects.MoveRows | backend/app/api/credits_router.py:379-383 | the two rows of a transfer or allocation: kind, amounts, running balances, notes and keys |
| Routing.MayMoveIff | backend/app/api/credits_router.py:397-433 | who may move between two wallets, from the membership rows: an organization and its group's by an unexpired administrator row of the organization; a group and its member's by one of the group, or of its organization while the group is live; anything else by a system administrator only |
| Routing.MoveAnswers | backend/app/api/credits_router.py:328-394 | every answer of a transfer or allocation whose caller is resolved from the rows, errors included and in order |
| Effects.MintEffect | backend/app/api/credits_router.py:246-325 | a topup or adjustment succeeds iff the wallet exists, the key is unused and the balance stays above the reservation; then exactly that balance changes |
| Effects.MintAnswers | backend/app/api/credits_router.py:246-325 | every answer of a topup or adjustment, and its one row |
| Effects.ApproveEffect | backend/app/api/credits_router.py:1230-1257 | an approval pays the request's amount to its target, out of the wallet of the group or organization that approves unless the system mints it |
| Effects.ApproveAnswers | backend/app/api/credits_router.py:1214-1257 | every answer of an approval, errors included |
| Effects.ApprovedOnce | backend/app/api/credits_router.py:1214-1273 | an approval decides its own request only, and a second one is refused |
| Effects.HoldEffect | backend/app/domain/credit_engine.py:109-130 | a hold succeeds iff it is the first on its key and the wallet has enough unreserved, and moves the reservation only |
| Effects.ApproveTopupEffect | backend/app/api/credits_router.py:1723-1779 | every answer of a topup request's approval; the requested amount goes to the requested wallet once |
| Effects.RejectEffects | backend/app/api/credits_router.py:1276-1303 | a rejection decides its own request, moves nothing, and is refused once decided |
| Effects.WelcomeEffect | backend/app/domain/welcome_credit.py:22-60 | welcome credit goes to the user's own wallet once per group and user, and to nobody without a wallet |
| Effects.JoinEffect | backend/app/api/groups_router.py:887-920 | a grant on joining is paid by the group's wallet to the user's, or refused when it cannot pay |
| Effects.JoinWithoutGrant | backend/app/api/groups_router.py:881-899 | without a grant only the welcome credit happens; a grant needs both wallets |
| Effects.CreateEffect | backend/app/api/credits_router.py:1063-1117 | every answer of a new request; a stored one is pending, for the asked amount, into the caller's own wallet or the named group's |
| Effects.LedgerIsAppendOnly | backend/app/api/credits_router.py:1818-1830 | over every run rows are only added and no wallet appears or disappears |
| Effects.RetryNeverPaysTwice | backend/app/api/credits_router.py:93-99 | after a request went through and any run of operations, the same request again is a replay |
| Interleaving.StepKeeps | backend/app/api/credits_router.py:246-280 | every step of every request keeps the system invariant: locks and uncommitted keys have one holder, copies are the locked rows up to the balance of a pool read early, committed requests share no key |
| Interleaving.KeyTakesEffectOnce | backend/alembic/versions/0001_initial.py:132 | of all requests using a key at most one commits, and the key is on at most one row |
| Interleaving.ReplayAnswersTheWinner | backend/app/api/credits_router.py:102-114 | a replayed answer is a committed row with the request's own key; a topup that loses the race is never refused for it |
| Serializability.CommitMatchesHandlerIff | backend/app/api/credits_router.py:1236-1257 | a commit does what its handler run alone at that moment does iff its copy of the pool's wallet, if it read one before locking, is still the row |
| Serializability.StepSerialIff | backend/app/api/credits_router.py:81-90 | from serial tables a step leads to serial tables unless it commits on a stale copy |
| Serializability.RefusalIsTheHandlers | backend/app/api/credits_router.py:366-375 | a request refused under its locks gets the answer its handler run alone at that moment would give |
| Serializability.StopIsTheHandlers | backend/app/api/credits_router.py:258-262 | a request stopped at its first check gets the handler's answer |
| Serializability.SerializableIff | backend/app/api/credits_router.py:1236-1257 | a run's tables are at every point those of its committed requests run one after another in commit order, iff no approval commits on a pool row that changed since it was read |
| Serializability.LockFixesTheCopy | backend/app/api/credits_router.py:1241-1245 | once the pool's wallet is locked nobody else makes the copy stale: the window is between the read and the lock |
| Serializability.OwnStepsKeepTheCopy | backend/app/api/credits_router.py:1241-1245 | locking a row already loaded does not refresh it |
| Serializability.StaleCommitLosesTheUpdate | backend/app/api/credits_router.py:1243-1257 | a stale commit leaves the pool's wallet off its own rows by exactly what was committed in between |
| LostUpdate.UpdateIsLost | backend/app/api/credits_router.py:1236-1257 | a concrete run of an approval and a topup that both commit and leave 90 in a wallet whose rows add up to 140 |
| Serializability.Serializable | backend/app/api/credits_router.py:348-394 | any interleaving of topups, adjustments, transfers, allocations and system-scope approvals is serializable in commit order at every point, and keeps the ledger invariant |
| Deadlock.WaitingRaisesRank | backend/app/api/credits_router.py:359-364 | whoever is waited for is further on in an order of phases, wallet ids and sides |
| Deadlock.WaitsAreAcyclic | backend/app/api/credits_router.py:614-618 | in every reachable state no chain of waits returns to its start |
| Deadlock.SomeoneCanStep | backend/app/api/credits_router.py:1241-1245 | while a request is unfinished some request can step |
| Deadlock.RunsEnd | backend/app/api/credits_router.py:348-394 | every run ends: at most nine steps per request |
| Engine.ActiveMinutes | backend/app/domain/credit_engine.py:50-71 | minutes are rounded up, at least one once the run has begun and none before |
| Engine.RoundCents | backend/app/domain/credit_engine.py:28-32 | the nearest cent, half up |
| Engine.Occupancy | backend/app/domain/credit_engine.py:35-47 | the billed share of a card is always positive |
| Engine.OccupancyWithinOneIff | backend/app/domain/credit_engine.py:35-47 | it is at most one iff the snapshot asks for no more cores and memory than a card has |
| Engine.OwedGrows | backend/app/domain/credit_engine.py:132-170 | what a run owes never decreases with time |
| Charges.OwedFromFigures | backend/app/domain/credit_engine.py:162-165 | what a run owes is rate times share times minutes over 60 to the nearest cent, with the share and the minutes given by the session's own figures |
| Charges.SumRowsIsSum | backend/app/domain/credit_engine.py:252-284 | a session's sums are over exactly its own rows of one kind on its wallet, since the run began where that is asked |
| Charges.FiguresFromRows | backend/app/domain/credit_engine.py:286-298 | what is charged for the run and what is left of the hold, from those rows |
| Charges.TickEffect | backend/app/domain/credit_engine.py:132-185 | a tick takes what is owed and not yet charged out of balance and reservation, as far as each reaches; any other tick does nothing |
| Charges.ExhaustsIff | backend/app/domain/credit_engine.py:186-191 | when a tick stops the session, from the wallet's figures |
| Charges.StoppedIff | backend/app/domain/credit_engine.py:186-191 | the same in terms of what is due, the balance and what the other sessions still hold |
| Charges.SettleEffect | backend/app/domain/credit_engine.py:196-244 | the balance and reservation a settlement leaves, with and without a last charge |
| Engine.HoldKeepsLedger | backend/app/domain/credit_engine.py:109-130 | a hold keeps the ledger invariant or is refused |
| Engine.TickKeepsLedger | backend/app/domain/credit_engine.py:132-194 | a billing tick keeps the ledger invariant, even when it exhausts the wallet |
| Engine.SettleKeepsLedger | backend/app/domain/credit_engine.py:196-244 | settling keeps the ledger invariant |
| Reservations.PlainKeepsBacked | backend/app/api/credits_router.py:246-325 | topups and adjustments leave the relation between reserved and open holds as it was |
| Reservations.HoldKeepsBacked | backend/app/domain/credit_engine.py:109-130 | a hold raises reserved and the session's outstanding hold alike |
| Reservations.DebitExactIff | backend/app/domain/credit_engine.py:174-185 | reserved never exceeds the open holds after a debit, and equals them exactly when the debit stays within the session's own hold or nobody else holds anything |
| Reservations.TickKeepsBacked | backend/app/domain/credit_engine.py:132-194 | no tick makes a wallet reserve more than its open sessions have outstanding |
| Reservations.ReleaseKeepsBacked | backend/app/domain/credit_engine.py:304-319 | releasing gives back the session's own leftover and touches no other session's |
| Reservations.SettleExactIff | backend/app/domain/credit_engine.py:196-244 | settling closes the session, and leaves reserved equal to the open holds exactly under the condition of the debit |
| Reservations.NoStrandedReservation | backend/app/domain/credit_engine.py:196-244 | once every session of a wallet is settled it reserves nothing |
| Reservations.OwnSolvency | backend/app/domain/credit_engine.py:286-302 | what a session may draw on is the balance less the other sessions' outstanding holds |
| Metering.TickMeters | backend/app/domain/credit_engine.py:132-194 | a tick raises the charged total to what is owed, never past it, and exactly to it when the balance covers it |
| Metering.NeverOvercharged | backend/app/domain/credit_engine.py:132-194 | over every run of ticks, repeats included, the charge never exceeds the most that was owed |
| Metering.ZeroDrift | backend/app/domain/credit_engine.py:132-194 | after a covered tick the run has been charged what it owes to the cent, whatever ticks were missed |
| Metering.SettleClosesTheBill | backend/app/domain/credit_engine.py:196-244 | settling charges the remainder, and no later tick or settle changes anything |
| History.HistorySumsIff | backend/app/domain/credit_engine.py:330-348 | all rows of a wallet add up to its balance exactly when no nonzero hold or refund was recorded on it |
| History.RunHistorySumsIff | backend/app/domain/credit_engine.py:330-348 | the same in every state reachable from empty wallets |
| History.HoldsBreakTheSum | backend/app/domain/credit_engine.py:126-130 | a concrete wallet holding 1000 whose rows add up to 1090 |
| History.TwoHoldsIsReachable | backend/app/domain/credit_engine.py:109-130 | that wallet is the result of a topup and two holds, in order and with exact reservations |
| History.OverspendUsesNeighboursHold | backend/app/domain/credit_engine.py:178-185 | a concrete wallet where one session's overspending leaves 40 reserved for a neighbour's hold of 80 |
| Bulk.FundAllSucceedsIff | backend/app/api/credits_router.py:815-847 | the per-member check is the documented up-front one: success iff the available balance covers every member not yet funded under the key |
| Bulk.FundAllSource | backend/app/api/credits_router.py:822-839 | the source pays once per newly funded member |
| Bulk.FundAllMember | backend/app/api/credits_router.py:822-839 | each newly funded member gets the amount and no other wallet changes |
| Bulk.FundAllKeys | backend/app/api/credits_router.py:815-847 | a successful batch adds the two keys of each member not funded before and no other key |
| Bulk.FundedPairsIff | backend/app/api/credits_router.py:795-798 | after success every member has exactly one debit row and one credit row under the key, iff each member skipped as funded already had the credit row |
| Bulk.RerunMovesNothing | backend/app/api/credits_router.py:795-798 | the same batch again succeeds and changes nothing |
| Bulk.FundAllKeeps | backend/app/api/credits_router.py:786-855 | a batch keeps the ledger invariant and the total of all balances |
| Grants.BulkMatchesSingles | backend/app/api/credits_router.py:883-898 | from grants within the group's own, with every member in that group only, the bulk call succeeds iff some order of single calls, each working out its own ceiling, does, and every such order leaves the same wallets |
| Grants.CallsUseOneScope | backend/app/api/credits_router.py:659-714 | setting one grant changes nobody else's ceiling: the single calls run as if parent and siblings were given |
| Grants.SetEachSucceeds | backend/app/api/credits_router.py:729-749 | decreases first, then increases, is always such an order |
| Grants.SomeOrderPassesBulk | backend/app/api/credits_router.py:694-713 | any successful order of single calls passes the bulk ceiling |
| Grants.OneGroupScope | backend/app/api/credits_router.py:694-713 | a member whose only row is in one group is checked against that group's wallet and all its members |
| Grants.GrantedKeeps | backend/app/api/credits_router.py:646-656 | crediting the increase of a grant keeps the ledger invariant |
| Ceilings.SystemGrantIff | backend/app/api/credits_router.py:670-673 | the system's total is set by a system administrator, without a ceiling |
| Ceilings.OrgGrantIff | backend/app/api/credits_router.py:674-681 | an organization's grant: by a system administrator, with the other organizations within the system's total |
| Ceilings.GroupGrantIff | backend/app/api/credits_router.py:682-693 | a group's grant: by whoever administers its organization, with the organization's other groups that are not deleted within its grant |
| Ceilings.MemberGrantIff | backend/app/api/credits_router.py:694-713 | a member's grant: by whoever may fund them, with the group's other members who are not deleted within the group's grant |
| Ceilings.GrantEffect | backend/app/api/credits_router.py:717-756 | the grant is stored and its excess over the balance credited with one row; no other wallet changes |
| Ceilings.BulkGrantIff | backend/app/api/credits_router.py:878-898 | the bulk call is refused for a group without member wallets and above the group's grant; else every member gets the grant and its excess |
| Refill.SweepTopsUp | backend/app/workers/credit_refill.py:67-127 | after a sweep every listed wallet due this month stands at its target and no other wallet has changed |
| Refill.SweepFigures | backend/app/workers/credit_refill.py:77-126 | a wallet with a grant and no row for the month ends at the largest of its balance, its grant and its reservation; no other figure changes |
| Refill.InterruptedSweepResumes | backend/app/workers/credit_refill.py:67-127 | a sweep cut off anywhere and started over ends where an uninterrupted one does |
| Refill.PageContinues | backend/app/workers/credit_refill.py:73-88 | each batch starts exactly where the previous one stopped, and an empty one means the end |
| Refill.SweepKeeps | backend/app/workers/credit_refill.py:67-127 | the sweep keeps the ledger invariant |
| Operations.WelcomeKeeps | backend/app/domain/welcome_credit.py:22-60 | welcome credit keeps the tables in order |
| Operations.JoinKeeps | backend/app/api/groups_router.py:887-920 | the credit granted on joining a group keeps the tables in order |
| Operations.JoinMoves | backend/app/api/groups_router.py:887-920 | the grant on joining moves credit and creates none |
| Operations.ApproveTopupKeeps | backend/app/api/credits_router.py:1723-1779 | approving a topup request keeps the tables in order |
| Operations.RejectTopupKeeps | backend/app/api/credits_router.py:1782-1814 | rejecting one keeps the tables in order |
| Operations.RejectAllocationKeeps | backend/app/api/credits_router.py:1276-1303 | rejecting an allocation request keeps the tables in order |
| Operations.ExecKeepsDecisions | backend/app/api/credits_router.py:1214-1303 | a request once approved or rejected is never decided again |
| Operations.BlankIsOk | backend/app/api/groups_router.py:325-333 | tables of new wallets, at zero and without rows, are in order |
| Operations.RunKeepsTheLedger | backend/alembic/versions/0001_initial.py:110-112 | in every state reachable by any run of any of these operations every balance is the sum of its rows, every balance_after the running sum, 0 <= reserved <= balance, and nothing is reserved without an open hold |
| Operations.RunConserves | backend/app/api/credits_router.py:822-839 | a run of transfers, allocations, batches, approvals and member grants keeps the total of all balances |
| Operations.ExecKeepsHome | backend/app/api/credits_router.py:1063-1117 | stored requests stay within one organization through movements, batches, new requests and decisions |
| Operations.RunKeepsOrgTotals | backend/app/api/credits_router.py:397-433 | no run of tenant-level operations, the requests raised in it included, carries credit into or out of an organization |
| Store.Tables.constructor | backend/app/api/groups_router.py:325-333 | wallets start at zero, nothing reserved, without rows |
| Store.Tables.TopUp | backend/app/api/credits_router.py:246-280 | does what the topup description says, reply and tables |
| Store.Tables.AdjustBalance | backend/app/api/credits_router.py:283-325 | the same for adjust |
| Store.Tables.Move | backend/app/api/credits_router.py:328-394 | the same for transfer and allocate, on the two wallets locked in id order |
| Store.Tables.FindWallet | backend/app/api/credits_router.py:908-913 | finds the one wallet of an owner |
| Store.Tables.ApproveAllocation | backend/app/api/credits_router.py:1214-1273 | the same for approving an allocation request, its status included |
| Store.Tables.BulkAllocate | backend/app/api/credits_router.py:811-847 | a group without member wallets is refused; otherwise the loop is the batch description, and counts the members it granted and skipped |
| Store.Tables.BulkMonthlyGrant | backend/app/api/credits_router.py:883-898 | one ceiling check, then every member's grant set and increase credited |
| Store.Tables.RefillBatch | backend/app/workers/credit_refill.py:89-126 | one batch is a sweep of its wallets |
| Store.Tables.RefillPage | backend/app/workers/credit_refill.py:76-126 | one page moves the sweep on by exactly its wallets, and an empty page means it is finished |
| Store.Tables.RefillSweep | backend/app/workers/credit_refill.py:67-127 | the batched loop is one sweep over all eligible wallets |
| Store.Tables.PlaceHoldOn | backend/app/domain/credit_engine.py:109-130 | does what the hold description says |
| Store.Tables.Consume | backend/app/domain/credit_engine.py:132-194 | does what the tick description says, exhaustion included |
| Store.Tables.SettleSession | backend/app/domain/credit_engine.py:196-244 | does what the settle description says |
| Staffing.InboxMirrorsRecipients | backend/app/api/credits_router.py:1007-1060 | for every request with an approver, the system administrators' inbox holds it iff the recipient lookup falls through to them |
| Staffing.SomebodyIsTold | backend/app/api/credits_router.py:1035-1060 | a request notifies nobody only if there is no system administrator |
| Staffing.CanFulfillIff | backend/app/api/credits_router.py:936-945 | who may approve, in terms of unexpired rows and live groups |
| Staffing.RecipientsCanFulfillIff | backend/app/api/credits_router.py:1035-1060 | whoever is told about a request can approve it, except when the row they are told by has expired or the organization answers for a deleted group |
| Staffing.StuckIff | backend/app/api/credits_router.py:1035-1060 | exactly when nobody who is told can approve, and that such a request is not in the system administrators' inbox |
| Staffing.ExpiredAdministratorIsTold | backend/app/api/credits_router.py:1044-1053 | a concrete live group whose only administrator row has expired |
| Staffing.DeletedGroupIsAnswered | backend/app/api/credits_router.py:1054-1057 | a concrete deleted group whose organization's administrator is told and cannot approve |
| Staffing.OrgAdminAdministersIff | backend/app/auth/rbac.py:243-262 | a caller administers exactly the organizations of their unexpired administrator rows, in either shape |
| Staffing.AdministersIff | backend/app/auth/rbac.py:243-278 | a caller administers exactly the groups of their unexpired administrator rows and the live groups of organizations they administer |
| Staffing.HasRoleIff | backend/app/auth/rbac.py:243-278 | a caller has a role in a group iff they have an unexpired row there or it is a live group of an organization they administer |
| Staffing.RoleIs | backend/app/auth/rbac.py:243-278 | the role is the organization administrator's there, else the row's own |
| Staffing.StandingIs | backend/app/auth/rbac.py:243-297 | system administrators and administered organizations, from the account and the unexpired rows |
| Routing.RunKeepsNames | backend/app/api/credits_router.py:1063-1117 | in every reachable state each stored organization- or group-scope request names its approver |
| Routing.StoredRequestsMirror | backend/app/api/credits_router.py:1007-1032 | so the inbox mirrors the recipients for every stored request of every reachable state |
| Routing.ResolvedRolesAreOwn | backend/app/auth/rbac.py:243-278 | the roles resolved for a caller lie in organizations they belong to |
| Migration.MembershipTable.InsertOrgRows | backend/alembic/versions/0017_org_scoped_membership.py:45-60 | adds one organization row per user and organization that lacks one, and none twice |
| Migration.MembershipTable.DeleteLegacyRows | backend/alembic/versions/0017_org_scoped_membership.py:61 | removes exactly the legacy rows, in order |
| Migration.MembershipTable.Upgrade | backend/alembic/versions/0017_org_scoped_membership.py:45-61 | the insert followed by the delete |
| Migration.SameOrgAdmins | backend/alembic/versions/0017_org_scoped_membership.py:36-61 | every organization has the same administrators before and after |
| Migration.UpgradeIsClean | backend/alembic/versions/0017_org_scoped_membership.py:36-61 | the rows satisfy the new unique index, no legacy row is left, the others keep their order, a second run changes nothing |
| Migration.SameAuthorityIff | backend/alembic/versions/0017_org_scoped_membership.py:45-60 | the organizations a user administers are the same after the upgrade iff in each some legacy row has not expired; none is lost |
| Migration.SamePrincipalAfterIff | backend/alembic/versions/0017_org_scoped_membership.py:45-61 | a caller is resolved to the same organizations and group roles iff that holds and no unexpired legacy row is on a deleted group |
| Migration.ExpiredAdministratorReturns | backend/alembic/versions/0017_org_scoped_membership.py:45-60 | a concrete expired administrator who administers the organization after the upgrade |
| Cascade.FreezeRestores | backend/app/api/groups_router.py:658-718 | freezing after groups were switched off restores the rule |
| Cascade.ThawRestoresIff | backend/app/api/groups_router.py:658-718 | thawing restores the rule iff every frozen member of the groups now has an active one |
| Cascade.GroupStepKeepsRule | backend/app/api/groups_router.py:739-744 | any change of a group's status keeps the rule |
| Cascade.OrgDeactivationKeepsRule | backend/app/api/groups_router.py:367-393 | switching an organization off keeps the rule |
| Cascade.OrgActivationKeepsRuleIff | backend/app/api/groups_router.py:367-393 | switching one on keeps the rule iff no frozen member has only archived groups there |
| Cascade.CascadeAgreesWithRule | backend/app/api/groups_router.py:658-718 | over every run of switches a member who is not suspended is inactive exactly when none of their groups is active |
| Cascade.RunLeavesUntouchable | backend/app/api/groups_router.py:692-717 | over every run of switches and edits a suspended user stays suspended and a user in no group keeps their status; their last reason changes by an edit only |
| Cascade.GroupStepIsLocal | backend/app/api/groups_router.py:658-690 | switching a group reaches its own members only |
| Cascade.GroupStepSets | backend/app/api/groups_router.py:739-744 | a group's switch sets its status and no other |
| Cascade.OrgStepSets | backend/app/api/groups_router.py:367-393 | an organization's switch switches its groups that are not archived and no other |
| Cascade.ArchivedMemberIsThawed | backend/app/api/groups_router.py:367-393 | a concrete run from everything active that leaves a member active with only an archived group |
| Cascade.OthersStayFrozen | backend/app/api/groups_router.py:701-717 | a user switched off by anyone else stays off through every later run |
| Cascade.EditKeepsFrozen | backend/app/api/groups_router.py:701-717 | reactivating a group thaws a frozen member iff their last update row is the cascade's |
| Directory.Accounts.SwitchUser | backend/app/api/groups_router.py:692-717 | one user is switched exactly when the rule of the loop says so, and leaves the audit row later steps read |
| Directory.Accounts.CascadeGroupUsers | backend/app/api/groups_router.py:658-718 | the loop does what the cascade description says |
| Directory.Accounts.UpdateProject | backend/app/api/groups_router.py:739-744 | the same for a group's status change |
| Directory.Accounts.UpdateOrganization | backend/app/api/groups_router.py:367-393 | the same for an organization's |
| Directory.Accounts.EditUser | backend/app/api/users_router.py:1140 | any other update of a user is the last row the cascade sees |
| Pool.SortSorts | backend/app/api/infra_router.py:1241-1244 | candidates are in stable order of memory and cores used |
| Pool.ChosenAreEmptiest | backend/app/api/infra_router.py:1239-1256 | as many cards as asked for or all that may move are chosen, none fuller than one left behind |
| Pool.SplitReached | backend/app/api/infra_router.py:1230-1257 | the MIG pool ends at the target or as near as unlent cards allow |
| Pool.OthersUntouched | backend/app/api/infra_router.py:1220-1257 | lent cards, other clusters' cards and cards out of service are never changed |
| Pool.EmptiestMove | backend/app/api/infra_router.py:1241-1257 | no card moved is fuller than one that could have moved and stayed |
| Pool.SplitCount | backend/app/api/infra_router.py:1230-1257 | the count of cards to be in MIG, by target or observed mode, after a split |
| Pool.SplitOfCard | backend/app/api/infra_router.py:1245-1257 | what a split does to one card: target and state of a free card on the side it draws from, nothing otherwise |
| Pool.EmptiestFirst | backend/app/api/infra_router.py:1241-1254 | of two free cards the one with less memory in use moves first, then with fewer cores in use, then the earlier |
| Pool.SecondCallMovesNothing | backend/app/api/infra_router.py:1230-1257 | the same request again moves nothing |
| Pool.RefusedIff | backend/app/api/infra_router.py:1220-1236 | refused exactly when the cluster has no ready card or fewer than asked for, and then nothing changes |
| Drain.ReactKeepsIff | backend/app/cluster/inventory_sync.py:182-190 | every event keeps a ready card on its target's side of the MIG line, except a report that contradicts the target |
| Drain.RequestEffect | backend/app/api/infra_router.py:1174-1185 | asking for a mode: refused when lent, ready when nothing changes, else draining |
| Drain.ModeChanges | backend/app/domain/pool.py:19-28 | the observed mode changes by a report, or to the target on a card that is ready then |
| Drain.SameSideApplies | backend/app/domain/pool.py:19-28 | a change within one side applies at the next release or pass once the card is empty, never before |
| Drain.CrossingStarts | backend/app/workers/pool_rebalancer.py:59-91 | a change across the MIG line starts at a pass that finds the card empty on a known node |
| Drain.CrossingEnds | backend/app/workers/pool_rebalancer.py:93-109 | it ends by the job's failure, or its success once the new side is observed |
| Drain.IdleCard | backend/app/workers/pool_rebalancer.py:54-57 | a card on its way without a target is ready at the next pass; ready and failed cards are left alone |
| Drain.ReportEffect | backend/app/cluster/inventory_sync.py:182-190 | what a report does to the observed mode |
| Drain.RetargetKeepsAligned | backend/app/api/infra_router.py:1238-1257 | a split keeps every ready card on its target's side |
| Drain.RunKeepsAligned | backend/app/api/infra_router.py:1174-1185 | over every run of target changes, splits, releases, worker passes and agreeing reports ready cards stay on their target's side |
| Drain.RetargetFittingIff | backend/app/api/infra_router.py:1249-1257 | a split leaves ready cards in exactly their target mode iff it takes out of MIG only cards observed in MIG or fractional mode |
| Drain.ExclusiveCardLeftUnfit | backend/app/api/infra_router.py:1249-1257 | a concrete exclusive card marked ready for fractional |
| Drain.LeavingMigNeverFinishes | backend/app/workers/pool_rebalancer.py:93-109 | a card being taken off MIG is never ready again under any run of passes, releases and reports |
| Drain.FinishesIff | backend/app/workers/pool_rebalancer.py:54-109 | a pending transition can finish iff it is not one out of MIG |
| Fleet.CardTable.ListCards | backend/app/api/infra_router.py:1230-1234 | the cluster's ready cards on one side, in table order |
| Fleet.CardTable.MarkCards | backend/app/api/infra_router.py:1245-1257 | the assignment loops change exactly the chosen cards |
| Fleet.CardTable.ChooseCards | backend/app/api/infra_router.py:1239-1254 | the slice of the sorted candidates is the chosen cards |
| Fleet.CardTable.SetPoolTargets | backend/app/api/infra_router.py:1209-1257 | the handler does what the split description says, refusals included |
| Fleet.CardTable.SetDeviceMode | backend/app/api/infra_router.py:1158-1185 | sets one card's target, or refuses a lent card |
| Fleet.CardTable.Rebalance | backend/app/workers/pool_rebalancer.py:37-109 | one pass steps every card on its own |
| Calendar.NextDayIsNextOrdinal | backend/app/api/credits_router.py:556-557 | the calendar's successor is the next day number across months and leap years |
| Calendar.MonthLengths | backend/app/api/credits_router.py:533-535 | the lengths of the months |
| Calendar.DateOrderIsOrdinalOrder | backend/app/api/credits_router.py:555 | comparing dates field by field is comparing day numbers |
| Calendar.ThirtyTwoDaysReachNextMonth | backend/app/api/credits_router.py:556-557 | the first of a month plus 32 days is always in the following month |
| Calendar.NextRefillIsTheNext | backend/app/api/credits_router.py:539-558 | next_at is on the configured day and hour, strictly after now, and no such instant lies in between |
| Spend.WindowIsTheLocalDays | backend/app/api/credits_router.py:1468-1471 | the shifted UTC range holds exactly the instants whose local day is in the range |
| Spend.Query | backend/app/api/credits_router.py:1472-1483 | the wallet's consume rows in the range, up to the cap |
| Spend.SpendDaily | backend/app/api/credits_router.py:1448-1494 | under the cap every local day with spend appears with its total and no other; the range check refuses exactly the documented ranges; the in-loop day check never fires |
| Spend.ChartIs | backend/app/api/credits_router.py:1484-1494 | a day of the range is on the chart iff the wallet was charged between its local midnights, with the sum of those charges |
| Spend.ChartConservesSpend | backend/app/api/credits_router.py:1484-1494 | the days add up to the absolute amounts of exactly the range's consume rows |
| Fold.FoldSettleMarkers | backend/app/api/credits_router.py:1433-1444 | flags exactly the first line of the best kind per settled session and drops a settle row iff its session has such a line |
| Fold.HostIs | backend/app/api/credits_router.py:1430-1442 | the flagged line is the session's first refund on the page, else its first charge, else its first hold |
| Fold.OneFlagPerSession | backend/app/api/credits_router.py:1437-1442 | a settled session has exactly one flagged line if any line could carry the flag, else none |
| Fold.FoldedPage | backend/app/api/credits_router.py:1443-1444 | all other rows stay in order, and the total is kept when settle amounts are zero |
| Fold.KeptIff | backend/app/api/credits_router.py:1443-1444 | a row leaves the page iff it is a settle row of a hosted session |
| Hours.HoursAreAdditive | backend/app/api/infra_router.py:1566-1588 | each key's time over adjoining periods adds up to its time over the whole |
| Hours.FetchDropsNothing | backend/app/api/infra_router.py:1549-1563 | the query drops no session that would contribute |
| Hours.Fetch | backend/app/api/infra_router.py:1549-1563 | the started GPU sessions of the scope that began before the period's end |
| Hours.AddSession | backend/app/api/infra_router.py:1567-1588 | adds one session's overlap to its key, if it has both |
| Hours.OverlapIsInstants | backend/app/api/infra_router.py:1571-1579 | a session's overlap is the number of instants of the period at which it ran: from its start to its end, or until now |
| Hours.GpuHours | backend/app/api/infra_router.py:1565-1588 | every key's figure is the number of instants the sessions billed to it ran, over GPU sessions of the scope with that group, wallet or offering; no key without any appears |
| Volumes.CreateAcceptedIff | backend/app/api/volumes_router.py:436-462 | on a table within its bounds a creation is accepted iff the table with the new volume is within them |
| Volumes.GrowAcceptedIff | backend/app/api/volumes_router.py:547-556 | growing is accepted iff the larger quota fits, shrinking never |
| Volumes.FitsIff | backend/app/api/volumes_router.py:89-197 | within bounds: all live quotas within the pool if it has a size, each user's and group's within its limit if set and not zero |
| Volumes.AcceptedEffect | backend/app/api/volumes_router.py:451-607 | an accepted operation adds one live row, enlarges one quota, or makes one row not live, and changes nothing else |
| Volumes.RefusalIs | backend/app/api/volumes_router.py:157-197 | why an operation is refused, the pool before the scope's limit |
| Volumes.RunKeepsCapacity | backend/app/api/volumes_router.py:132-197 | over every run of create, grow and delete the live quotas stay within the pool and every scope's limit, and no quota decreases |
| Volumes.VolumeTable.CreateVolume | backend/app/api/volumes_router.py:436-462 | does what the description of create says |
| Volumes.VolumeTable.UpdateQuota | backend/app/api/volumes_router.py:531-556 | does what the description of grow says; no quota in the body changes nothing |
| Volumes.VolumeTable.DeleteVolume | backend/app/api/volumes_router.py:578-607 | does what the description of delete says |
| Sampler.Rate | agent/internal/sampler/sampler.go:122-127 | a rate exists iff time passed and the counter did not go back, and rate times time is the counter's advance |
| Sampler.EmittedIff | agent/internal/sampler/sampler.go:63-90 | a pod gets a sample iff it is read through its path, was read before, time has passed and its counter has not gone back |
| Sampler.SamplesAreOfThisTick | agent/internal/sampler/sampler.go:91-96 | every sample is of this tick, for a listed pod's session, with the memory its file shows |
| Sampler.MapsStayBounded | agent/internal/sampler/sampler.go:98-106 | after a tick with a listing every remembered counter belongs to a listed pod and has a path |
| Sampler.PathsBoundedIff | agent/internal/sampler/sampler.go:98-106 | every remembered path belongs to a listed pod iff each pod that left with a path had been read |
| Sampler.LeakedPathStays | agent/internal/sampler/sampler.go:98-106 | a path left behind is never forgotten while its pod stays away |
| Sampler.ReadablePathsStayBounded | agent/internal/sampler/sampler.go:61-106 | while every path that resolves can be read both maps stay within the listed pods |
| Sampler.PathLeaks | agent/internal/sampler/sampler.go:66-79 | a concrete pod that leaves its path behind |
| Sampler.SamplesCoverTheClimb | agent/internal/sampler/sampler.go:61-97 | while a pod stays listed its samples account for exactly the CPU time its counter climbed, through failed listings and reads |
| Sampler.CpuTimeIsConservedIff | agent/internal/sampler/sampler.go:49-106 | they add up to the CPU time between its first and last readings iff the counter never went backwards |
| Sampler.Loop.constructor | agent/internal/sampler/sampler.go:43-45 | both maps start empty |
| Sampler.Loop.ReadPod | agent/internal/sampler/sampler.go:62-96 | one pod's turn does what the visit description says |
| Sampler.Loop.OnTick | agent/internal/sampler/sampler.go:49-106 | one tick does what the step description says, its batch included |
| Sampler.Loop.Forget | agent/internal/sampler/sampler.go:98-106 | removes both entries of exactly the remembered pods that are not listed |

## Left out

- Serializability.Serializable: for requests that lock before they read; for approvals that draw on a pool `Serializability.SerializableIff` gives the exact condition. Batches, grants, refill and the credit engine are modelled as whole transactions only.
- Deadlock.WaitsAreAcyclic: excludes bulk allocation and joining a group, which lock the group's wallet first and not in id order.
- Movers.CreatedRequestIsOneLevelUp: a member-level request a system administrator raises may name a group of any organization, so nothing is claimed of where it is at home.
- Grants.BulkMatchesSingles: single and bulk calls share one nonce per batch, since the random part of a grant's key is a parameter.
- Spend.SpendDaily: says nothing about the chart's contents beyond the row cap, where the query returns an unspecified part of the rows.
- Store.Tables.BulkAllocate: authorization and the lookup of the group's members come before the modelled part.
- Store.Tables.BulkMonthlyGrant: authorization and the lookup of the group's members come before the modelled part.
- Volumes.RunKeepsCapacity: the pool's usable size and the effective policy limits are parameters; how 95 percent of the capacity is rounded and how policies merge are not modelled.
- Sampler.CpuTimeIsConservedIff: counters and rates are exact numbers, without uint64 wrap-around or float64 rounding.
- The `version` column of wallets, which nothing compares.
- Amounts of the credit engine before rounding are exact reals; Decimal precision is not modelled.
- The scheduler, sessions, queue ranking, policy resolution and node-pool access.
- The principal cache and suspended or deleted callers.
- The refill's Redis month marker; the sweep's own idempotency is modelled.
- Notifications, audit hash chain, number of users a cascade reports, display names and rounding of report figures.
- Dates past the year 9999, where Python's calendar ends.
- Mounting, access modes and permissions of volumes, except that a mounted volume is not deleted without force.
- HTTP plumbing, authentication, pagination, migrations other than 0017, dashboards, operator and frontend code.
