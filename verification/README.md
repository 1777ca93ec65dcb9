# billet's capacity ledger, proved

billet sells CI-runner capacity before it advertises it, fences holders that crash by
epoch, and has to prove over an unreliable fleet that no compute is left running. This
project models that core of the control plane (`internal/alloc`, with the admission row of
`internal/state` and the patterns of `internal/alerts`) in Dafny and proves what it promises,
for all inputs and over every run. `dafny verify dfyconfig.toml` checks the whole of it.

How the model is laid out:

- **Placer.** `Placement.dfy` says what placing one job at a time until nothing fits amounts
  to; `Counting.dfy` holds the argument that counting rank by rank is the same number;
  `Placer.dfy` is the code on the shared free-room maps.
- **Ledger.** `Catalogue.dfy` (configuration and host rows), `Ledger.dfy` (one value per table,
  one definition of every sum), `Fleet.dfy`, `Floors.dfy`, `Purchases.dfy` (what a purchase is
  measured against), `Escrow.dfy` and `Resizing.dfy` (the transactions), `Capacity.dfy` (the
  overcommit invariant). `Candidates.dfy`, `Tightness.dfy`, `HeldHosts.dfy` and `Reshaping.dfy` say what
  those come to in hosts, leases and charges alone: who may serve a tier and what it is charged, that no
  floor is left short and nothing is held back that could be kept or sold, when a purchase is rolled back,
  when a shape is authorised.
- **Leases.** `Leases.dfy` (each call's effect on the row it names), `LeaseStore.dfy` (the calls
  as they run), `LeaseAnswers.dfy` (what each answer promises), `Lifecycle.dfy` (what every effect
  keeps), `Packing.dfy` and `Heartbeats.dfy` (many renewals in one statement).
- **Barrier.** `Barriers.dfy` (the tables), `BarrierStore.dfy` and `NodeStore.dfy` (the
  transactions and the report), `BarrierRuns.dfy`, `HostReports.dfy` and `UnsafeRequests.dfy` (what holds
  over runs), `FleetSteps.dfy` (hosts and admission, event by event).
- **Runs.** `Runs.dfy` makes every transaction above one event on one ledger; `Safety.dfy`, `SoldOnce.dfy`,
  `LeaseRuns.dfy`, `BarrierRuns.dfy` and `HostReports.dfy` prove properties of every sequence of events.
- **Self-contained algorithms.** `Glob.dfy`, `Shedding.dfy`, `Holding.dfy`, `JobPhases.dfy`
  (`Sorting.dfy` and `Names.dfy` are the library order and sort they use).
- **Smaller ledgers.** `Alerts.dfy` and `AlertHistory.dfy`, `PoolRunners.dfy`, `Enrollment.dfy`.

A transaction is one atomic change of the ledger value; one that fails leaves it as it was.
Each SQL statement the code depends on is written out as a definition, from the query files
under `internal/state/queries`: the expired-lease scan leaves out quarantine
(`leases.sql:234-253`), a reclaim bumps the epoch (`leases.sql:218-232`), a barrier run keeps its
start only where barrier, epoch and dispatch all match (`barrier.sql:106-128`), a registration always
moves the epoch (`nodes.sql:286-342`). Times are integers, in nanoseconds.

Four properties are not true as one might first state them, and are given with their exact condition:

- A clear fleet does not always mean that nothing was sold since the barrier was requested. From any ledger with
  headroom left in some tier it does exactly when the request named a generation already reached, or the next one of
  a deployment already sealed (`SafeRequest`, `UnsoldExactlyWhenSafe`); `SmallFleetIsSold` is one host and one tier
  where a lease is sold and the fleet still reads as clear. Whether the deployment was sealed throughout has the same
  exact condition from every ledger (`SealedExactlyWhenSafe`).
- A barrier reported stale is documented to mean nothing any more (`barrier.go:625-626`). That is so exactly when its
  generation is not still to come (`StaleForGoodExactlyWhen`).
- Giving reservations back does not always give back the fewest. Over all lists of leases, each charged something of
  both dimensions, it does exactly when one deficit is at most one or both are at most three (`FewestExactlyWhen`);
  beyond that `DecoyIsTaken` is a family of three leases given back where two would have done.
- A terminal phase is not never left: a failed lease may become done. A finished lease's phase can still change
  exactly when its verdict is the provisional one an inventory inferred, and it stays finished
  (`VerdictChangesExactlyWhen`).

## Model

| member | source | states |
|---|---|---|
| Placement.QuotTruncates | internal/alloc/placement.go:387-402 | the quotient used for room is Go's division, truncated toward zero for negative room too |
| Placement.QuotCut | internal/alloc/placement.go:387-402 | cutting that quotient off at zero agrees with dividing what is really free, so both rounding conventions agree |
| Placement.RoomForMeansFits | internal/alloc/placement.go:387-402 | a host has room exactly when one more fits its vCPU, memory, licence and the deployment |
| Placement.RoomForIsMost | internal/alloc/placement.go:387-402 | how many a host has room for is the most that fit its vCPU, memory, licences and the deployment together |
| Placement.BestIsPreferred | internal/alloc/placement.go:538-642 | the host chosen comes first of every other host with room: its backend no later in the tier's list; then the least room when packing, the most when spreading, the least share of the host left over when fitting tightly; then the first name |
| Placement.BestIgnoresOrder | internal/alloc/placement.go:618-642 | the choice does not depend on the order hosts are listed in |
| Names.BeforeMeans | internal/alloc/placement.go:618-642 | a name comes before another exactly when it ends, or has the lesser character, where the two first differ |
| Placement.DrawIsFillPrefix | internal/alloc/placement.go:538-560 | placing at most n is the first n of placing until nothing fits |
| Counting.BestInRank | internal/alloc/placement.go:421-481 | while better ranks are full the next host is the one its own rank alone would choose |
| Counting.FillRank | internal/alloc/placement.go:429-481 | placing until nothing fits fills a rank as if it were alone, then goes on with the rest |
| Counting.FillUniform | internal/alloc/placement.go:497-536 | where one charge serves a whole rank, the number placed is the lesser of the hosts' rooms together and the deployment's |
| PlacerImpl.Placer.Spend | internal/alloc/placement.go:575-585 | spending takes the charge off the host, its licence and the deployment, and nothing else |
| PlacerImpl.Placer.Next | internal/alloc/placement.go:538-560 | the host chosen has room and comes first of every other host with room by backend, policy and name, and its charge is spent; nothing is chosen, and nothing changes, exactly when no host has room |
| PlacerImpl.Placer.UniformCount | internal/alloc/placement.go:497-536 | the count of a one-charge rank, without placing anything |
| PlacerImpl.Placer.CountByRank | internal/alloc/placement.go:421-481 | counting rank by rank is exactly how often placing one at a time would succeed, mixed charges included, and the placer is left as it was |
| Catalogue.EligibleDistinct | internal/alloc/headroom_node.go:149-215 | filtering hosts for a tier keeps each host at most once |
| Catalogue.FirstShape | internal/alloc/placement.go:109-137 | the charge of a bought shape is that of the first declared shape that holds the tier on its architecture, and none exactly when no shape does |
| Floors.FloorHeldInFull | internal/alloc/floors.go:153-180 | a floor is held in full, or until nothing its tier may use has room for another |
| Floors.FloorsPlace | internal/alloc/floors.go:40-137 | every slot held for a floor sits on a placeable host its own tier may use, charged as that host charges it |
| Floors.FloorsTake | internal/alloc/floors.go:40-137 | holding floors moves each host's room by exactly what the slots charge it |
| Floors.FloorsSolvent | internal/alloc/floors.go:153-180 | no host holding a slot is taken below zero, by that floor or a later one |
| Fleet.DrawAccounts | internal/alloc/placement.go:575-585 | every host's room moves by exactly what the drawn leases charge it, and a host drawn on is never left below zero |
| Fleet.DrawDeployment | internal/alloc/placement.go:575-585 | so does the deployment's |
| Purchases.AttemptGrantsHeadroom | internal/alloc/alloc.go:669-789 | with nothing to protect, an open deployment grants exactly the lesser of what is wanted and headroom |
| EscrowImpl.FleetResources | internal/alloc/placement.go:139-201 | each placeable host's free room is its size less what open leases charge it |
| EscrowImpl.HoldFloorOn | internal/alloc/floors.go:153-180 | one floor is taken off the shared fleet, and its cost is what its slots charge |
| EscrowImpl.ReserveFloorsOn | internal/alloc/floors.go:40-137 | every other tier's floor is taken off in label order, with the totals held overall and per target; how many slots that is, `Tightness.FloorsAreMet` says |
| EscrowImpl.HeadroomWithPlacer | internal/alloc/alloc.go:1134-1193 | headroom is the floors-kept, ceiling-, share- and cap-bounded count, and the placer returned is what it was measured on; that it is all there is, `Tightness.HeadroomIsAllThereIs` and `HeldHosts.HeadroomExactlyWhen` say |
| EscrowImpl.KeepForOn | internal/alloc/placement.go:372-385 | each held host keeps its owner's need, and one held by an unknown tier is not offered, in whatever order holds are visited |
| EscrowImpl.PlacerAvoiding | internal/alloc/alloc.go:795-818 | a tier below its floor with room nowhere else may use held hosts, up to its floor |
| EscrowImpl.RoomNow | internal/alloc/alloc.go:863-879 | how many an escrow could grant now, off the room held against the tier |
| EscrowImpl.OwnersNow | internal/alloc/alloc.go:820-861 | the held hosts whose owner fits there now |
| EscrowImpl.Escrow | internal/alloc/alloc.go:669-789 | one attempt measures, inserts, reads back with floors held again, and commits only if every waiter keeps its lease |
| EscrowImpl.EscrowFor | internal/alloc/alloc.go:621-654 | every larger attempt up to what is wanted was rolled back for a waiter's sake; while a tier named in `protect` has no lease to take nothing is bought; a purchase leaves each of those one, leaves each tier named in `keep` that had one its one, and leaves each held host's owner that fitted there its fit unless the buyer is below its floor with room nowhere else and takes no more than its floor lacks |
| EscrowImpl.Reserve | internal/alloc/alloc.go:1199-1239 | it succeeds exactly when the tier is known, the deployment open and headroom at least one, and inserts one lease on the preferred host |
| EscrowImpl.UnprotectedEscrowGrantsHeadroom | internal/alloc/alloc.go:621-789 | with nothing to protect no attempt is rolled back, and an escrow on an open deployment grants exactly the lesser of what is wanted and headroom |
| EscrowImpl.ReserveIsOnePurchase | internal/alloc/alloc.go:1199-1239 | reserving is buying one with nothing to protect |
| Candidates.CostMeans | internal/alloc/placement.go:109-137 | a host is charged the request itself, or on EC2 and CodeBuild the first declared shape that holds it (of its architecture on EC2), and nothing where none does |
| Candidates.EligibleExactlyWhen | internal/alloc/headroom_node.go:149-215 | a tier may be placed on a host exactly when its node and site pins name it, its backends include it, the host's policy permits the guest, the host runs the architecture, sells a shape that holds it, and speaks a wire new enough for what it asks |
| Candidates.LicencesMean | internal/alloc/alloc.go:1097-1117 | a host has two macOS licences unless its policy says how many, and none where the policy forbids the guest |
| Candidates.PlanMeans | internal/alloc/placement.go:291-361 | the placer's view of an eligible host: its charge, its backend's first place in the tier's own list, its size where hosts are fitted tightly, the deployment's policy |
| Candidates.PurchaseWritesReservations | internal/alloc/alloc.go:1253-1330 | a purchase adds at most what is wanted and changes nothing else; each row is a reservation of the tier bought on a host in contact, taking work and eligible, charged as that host charges, at epoch zero, lapsing one lease time from now |
| Tightness.FloorsAreMet | internal/alloc/floors.go:40-180 | for every tier but the buyer, its open leases on hosts in contact and the slots held for it together reach its floor and do not pass it, or when its turn came no host it may use could take one more beside all leases and what was held by then |
| Tightness.HeadroomIsAllThereIs | internal/alloc/alloc.go:1134-1193 | headroom taken in full leaves the tier at its cap, or no host it may use that could take one more beside all leases, every floor and what was taken |
| HeldHosts.RoomIsOneMore | internal/alloc/alloc.go:1134-1193 | a tier is offered room on a host exactly when one more lease fits the host, a licence, the deployment and the share beside all leases and every other floor |
| HeldHosts.HeadroomExactlyWhen | internal/alloc/alloc.go:1134-1193 | there is headroom exactly when the tier is below its cap and some host takes one more of it beside slots that keep every other floor |
| HeldHosts.OwnerFitsExactlyWhen | internal/alloc/alloc.go:820-843 | the owner of a held host fits there exactly when the catalogue knows it, it may use the host and one more of it fits beside every other floor |
| HeldHosts.HeldHostOffers | internal/alloc/placement.go:372-385 | on a host held for a known tier a purchase is offered what that tier's request leaves, one held for an unknown tier is not offered, and every other is offered whole |
| HeldHosts.AttemptInserts | internal/alloc/alloc.go:669-818 | an attempt inserts what is wanted, within headroom and within what held hosts leave; a tier below its floor that they leave nothing takes held room up to what its floor lacks |
| HeldHosts.RoomMeansGrant | internal/alloc/alloc.go:863-879 | a waiting tier is judged to have room exactly when an attempt to buy one of it would insert it |
| HeldHosts.RolledBackExactlyWhen | internal/alloc/alloc.go:669-789 | an attempt is rolled back exactly when admission is open, nobody protected was short already, it would insert something, and that leaves somebody the caller named short or the owner of a held host out of its host |
| HeldHosts.AttemptBuysExactly | internal/alloc/alloc.go:669-789 | one attempt changes nothing where nothing is wanted, admission is sealed, somebody protected is short or it is rolled back, and otherwise inserts all it would |
| Capacity.PurchaseKeepsLimits | internal/alloc/alloc.go:669-789 | no purchase up to headroom, from held hosts or not, oversells a host, a licence, the deployment, a share or a cap |
| Capacity.PurchaseKeepsFloors | internal/alloc/floors.go:40-180 | after a non-empty purchase from any offer the slots held for floors are an explicit packing: with all leases and the purchase they fit every host that a slot or the purchase touches, licences included wherever a macOS slot or lease sits, and the deployment |
| Capacity.OpenWithinAdvertised | internal/alloc/ceiling.go:30-50 | within those limits a tier's open leases never exceed its advertised ceiling, up to the protocol's cap |
| Capacity.CeilingIsTight | internal/alloc/ceiling.go:30-50 | the advertised ceiling is the largest count the cap, the deployment and the protocol all allow |
| Resizing.ResizeKeepsLimits | internal/alloc/alloc.go:1477-1634 | whatever it answers, a resize oversells nothing; on a host out of contact it can only shrink |
| Resizing.ShareRoomFor | internal/alloc/share.go:143-180 | a shape fits what is returned exactly when it fits its own target's share, or every share when its tier left the catalogue |
| Resizing.ResizeLeaving | internal/alloc/alloc.go:1477-1634 | a shape is authorised exactly when it is declared, holds the request, matches the architecture and fits as if the old one were returned, and a growth leaves each protected tier a lease |
| Reshaping.CreditIsReturned | internal/alloc/floors.go:40-137 | crediting a share with the shape handed back leaves every floor exactly what it would have were the lease charged nothing: its own target's share, or every share when its tier is gone |
| Reshaping.FloorsBesideAreMet | internal/alloc/floors.go:40-180 | the floors held beside a resized lease keep every other tier's floor of the ledger in which that lease is charged nothing |
| Reshaping.ResizeExactlyWhen | internal/alloc/alloc.go:1477-1634 | a resize is authorised exactly for a launching lease bound to a host that sells shapes and declares this one, large enough for the reservation, when it has the shape already, or the architecture is right, the shape fits its host, the deployment and the shares beside slots that keep every other floor with its old shape handed back, and a growth leaves every tier named in `protect` one lease; the row then has exactly that shape and nothing else changes |
| Lifecycle.TableIsAcyclic | internal/alloc/alloc.go:49-64 | every listed move goes up, exactly the terminal phases have no successor, and every other may end |
| Lifecycle.TableIsExact | internal/alloc/alloc.go:49-64 | exactly which moves there are: one step at a time from capacity to busy, to custody, teardown or quarantine from launching on, and never back to capacity |
| Lifecycle.CallsAreLawful | internal/alloc/alloc.go:3172-3322 | every call moves the row it names along one edge of the table or not at all, never moves a fence back or a charge, and touches a finished row only to explain or correct its verdict |
| Lifecycle.SettleKeepsBooks | internal/alloc/alloc.go:3903-3976 | a lawful change keeps the books: one history entry per closed lease saying what its row says, and release generations counting closes |
| Lifecycle.ReclaimAllRows | internal/alloc/alloc.go:2947-3005 | a batch reclaims exactly its rows, each once |
| Lifecycle.AbsentRows | internal/alloc/quarantine.go:551-688 | an inventory settles exactly the old quarantines of its host that it does not list |
| LeaseStore.AssignLease | internal/alloc/alloc.go:1341-1379 | assigning, its idempotent repeat and its conflict |
| LeaseStore.BindLease | internal/alloc/alloc.go:1658-1756 | binding only to the pinned host, once, under the host's policy and registered provider |
| LeaseStore.AdvanceLease | internal/alloc/alloc.go:3172-3322 | a fenced move along the table, placement checked before a repeat is acknowledged, a terminal move archived |
| LeaseStore.HeartbeatLease | internal/alloc/alloc.go:1759-1790 | renewing an open lease at its epoch, refused once a release was asked for |
| LeaseStore.MarkLeaseFailure | internal/alloc/alloc.go:1999-2068 | a reason is recorded once and never replaced, and reserved ones are refused |
| LeaseStore.ReleaseLease | internal/alloc/alloc.go:2080-2113 | ending a lease archives it; the same outcome again is acknowledged and another refused |
| LeaseStore.ReleaseLeaseFailed | internal/alloc/alloc.go:2127-2185 | failing a lease with its reason, and explaining one the reaper failed first |
| LeaseStore.TerminateForced | internal/alloc/force.go:127-195 | a forced end only from the phases an operator approved |
| LeaseStore.ReleaseForced | internal/alloc/quarantine.go:269-337 | a quarantine is ended, and a holder in custody or teardown is asked to let go |
| LeaseStore.ResolveQuarantined | internal/alloc/quarantine.go:417-438 | only a quarantined lease is resolved, with the caller's outcome |
| LeaseStore.ResolveQuarantinedFailed | internal/alloc/quarantine.go:448-517 | the same with a reason, or explaining a lease the reaper failed |
| LeaseStore.SettleCompletionOnTerminal | internal/alloc/quarantine.go:200-253 | a completion corrects inventory's provisional verdict and no other |
| LeaseStore.ResolveQuarantineFor | internal/alloc/quarantine.go:551-688 | an inventory fenced on the registration settles old quarantines it does not list, and counts them |
| LeaseStore.ReadExpired | internal/state/queries/leases.sql:234-253 | the scan answers expired rows once each, longest expired first, all of them or a full batch with none earlier left behind |
| LeaseStore.Reap | internal/alloc/alloc.go:2947-3015 | a batch is reclaimed with every fence moved, quarantining what may have compute and archiving the rest |
| LeaseAnswers.ReleaseMeans | internal/alloc/alloc.go:2080-2113 | a release is answered OK exactly for a row at the caller's epoch that is open or ended so already; the row's phase and its one history entry are then exactly the outcome asked for, its reason and charge unchanged, and the same release again answers OK and changes nothing; another outcome is a conflict |
| LeaseAnswers.ReleaseFailedMeans | internal/alloc/alloc.go:2127-2185 | a lease is failed with the reason it already had, and otherwise the caller's; one already failed unexplained is explained in its row and its entry; a done one is refused |
| LeaseAnswers.ForceTerminateMeans | internal/alloc/force.go:127-195 | exactly assigned to busy are ended, failed with the fence moved and any reason kept; finished or missing is as good; anything else is refused |
| LeaseAnswers.ForceReleaseMeans | internal/alloc/quarantine.go:269-337 | a quarantine ends failed with the fence moved, custody and teardown only get the request, every other phase is refused |
| LeaseAnswers.ResolveMeans | internal/alloc/quarantine.go:417-438 | exactly a quarantined lease is ended, exactly as asked, with the fence moved |
| LeaseAnswers.ResolveFailedMeans | internal/alloc/quarantine.go:448-517 | a quarantine ends failed with its earlier reason or the one given, and a lease already failed unexplained is explained |
| LeaseAnswers.SettleCompletionMeans | internal/alloc/quarantine.go:200-253 | a completion rewrites exactly a finished row with the provisional verdict whose epoch is not behind the caller's, to the outcome and no reason, in the row and its entry |
| LeaseAnswers.AssignMeans | internal/alloc/alloc.go:1341-1379 | an assignment is accepted from capacity, or repeated for the same job; the row then records exactly that run and request and lapses one lease time from now |
| LeaseAnswers.AdvanceMeans | internal/alloc/alloc.go:3172-3322 | a move is accepted along the table or repeated, with placement legal where a host is presumed running; the row is then in exactly that phase, renewed if it moved, archived if it ended |
| LeaseAnswers.CheckPlacementMeans | internal/alloc/alloc.go:989-1038 | a host may run a lease exactly when it is registered, permits the guest, and its backend is one the lease accepts |
| LeaseAnswers.BindMeans | internal/alloc/alloc.go:1658-1756 | a binding is accepted to the host the lease is pinned to, before it runs, where the host may run it, or repeated; the row then names that host and the backend it registered |
| LeaseAnswers.HeartbeatMeans | internal/alloc/alloc.go:1759-1790 | a renewal is accepted exactly for an open lease at its epoch nobody asked to be released, and moves its expiry to one lease time from now and nothing else |
| LeaseAnswers.MarkFailureMeans | internal/alloc/alloc.go:1999-2068 | a reason is recorded exactly where there is none or the same one |
| LeaseAnswers.ReclaimedMeans | internal/alloc/alloc.go:2947-3005 | a reclaim moves the fence, quarantines a lease past assignment and fails one before it |
| LeaseAnswers.ReapableMeans | internal/state/queries/leases.sql:234-253 | the scan may take exactly what has lapsed and is neither finished nor quarantined |
| LeaseAnswers.AbsentMeans | internal/alloc/quarantine.go:551-688 | a guest no longer listed is done if its completion was recorded and nothing explained a failure, failed with the reason there was, and otherwise failed provisionally |
| LeaseAnswers.SettleableMeans | internal/alloc/quarantine.go:551-688 | an inventory may speak about exactly its own quarantined leases more than five minutes past their expiry |
| Safety.StepMovesRowsLawfully | internal/alloc/alloc.go:49-64 | no event of any kind drops a row or moves one other than lawfully |
| Safety.RegistrationKeepsLimits | internal/state/queries/nodes.sql:286-342 | a registration keeps every limit exactly when it is large enough for what the host is charged |
| Safety.BuyKeepsLimits | internal/alloc/alloc.go:621-789 | a committed purchase, whatever was protected or held, oversells nothing |
| Safety.BuyKeepsFloors | internal/alloc/alloc.go:669-789 | whatever a committed purchase inserted, and whatever was protected or held, there are slots that keep every other tier's floor as far as it could be kept (`FloorsMet`), packed beside all leases and the purchase on every host they touch and in the deployment |
| Safety.UnprotectedBuySellsAllThereIs | internal/alloc/alloc.go:621-789 | with nothing to protect, an open deployment sells all that is wanted, or up to the cap, or until no host the tier may use could take one more beside all leases, every other floor and what was sold |
| Safety.RunKeepsLimits | internal/alloc/alloc.go:669-789 | over every run in which no host re-registers smaller, open leases never exceed a host, licence, the deployment, a share or a cap |
| Safety.RunStaysWithinAdvertised | internal/alloc/ceiling.go:30-50 | so over every such run a tier's open leases never exceed its advertised ceiling |
| SoldOnce.NothingIsSoldTwice | internal/alloc/alloc.go:669-789 | over every such run, whichever different open leases are on one host fit its size and licences together, whichever are open at all fit the deployment, and whichever are of one capped tier are within its cap |
| SoldOnce.SharesAreKept | internal/alloc/share.go:119-141 | over every such run, whichever open leases of one target's tiers, with whichever whose tier left the catalogue, fit the target's share |
| Safety.HostsStay | internal/state/queries/nodes.sql:286-342 | a host stays in the table; only its registering moves its epoch and only a launch its dispatch |
| LeaseRuns.RunKeepsBooks | internal/alloc/alloc.go:3903-3976 | over every run each closed lease is archived exactly once and a tier's release generation equals its closed leases |
| LeaseRuns.RunAgesLeases | internal/alloc/alloc.go:49-64 | over every run a lease's phase and fence only go forward, what finished stays finished with its charge, and a verdict changes only if it was provisional |
| LeaseRuns.VerdictChangesExactlyWhen | internal/alloc/quarantine.go:200-253 | some call can still change a finished lease's phase exactly when its verdict is the provisional one, and none ever opens it |
| LeaseRuns.StaleHolderChangesNothing | internal/alloc/alloc.go:3414-3445 | once a fence has passed an epoch, no call or resize presenting that epoch ever changes anything again |
| LeaseRuns.ReapMovesFences | internal/alloc/alloc.go:2947-3005 | a reclaim moves the fence of every lease it takes |
| LeaseRuns.ExpiryNeverEndsCompute | internal/alloc/alloc.go:2947-3005 | over every run a lease from launching to quarantine is closed only by a call that names it or by its own host's inventory, under its registration and more than five minutes past the lease's expiry, not listing it |
| LeaseRuns.RunKeepsPlacementLegal | internal/alloc/alloc.go:989-1038 | over every run a bound lease is on a host that permits its guest and a backend it accepts, and a running lease is bound |
| Packing.PackingReadsBack | internal/alloc/alloc.go:1899-1926 | the packed records of any list, cut in halves by the statement, read back as exactly the accepted references, order and duplicates included |
| Heartbeats.PackLeaseRefs | internal/alloc/alloc.go:1905-1926 | what is packed, how many and which, for every list |
| Heartbeats.HeartbeatLeases | internal/state/queries/leases.sql:98-147 | the statement renews exactly the open rows named at their epoch that nobody asked to be released |
| Heartbeats.OneByOneIsASet | internal/alloc/alloc.go:1771-1790 | heartbeats one at a time at one instant are a set of renewals, each answered as the first ledger would |
| Heartbeats.HeartbeatMany | internal/alloc/alloc.go:1817-1890 | every answer and the ledger left are those of one heartbeat per reference in order, for any list with repeats, unpackable ids and batch boundaries |
| BarrierStore.BumpDispatch | internal/alloc/barrier.go:47-72 | a launch moves one host's fence, durably and by one |
| BarrierStore.RequestComputeBarrier | internal/alloc/barrier.go:152-209 | a second waiter of a generation joins; another generation replaces the barrier and every observation |
| BarrierStore.DropComputeBarrier | internal/alloc/barrier.go:252-275 | only the barrier named is dropped, with its observations |
| BarrierStore.RecordBarrierObservation | internal/alloc/barrier.go:323-391 | a current empty answer extends or starts a run; a stale or non-empty one ends it |
| BarrierStore.InvalidateBarrierRun | internal/alloc/barrier.go:423-452 | an arrival discards the host's run and no other |
| BarrierStore.ProvedTx | internal/alloc/barrier.go:957-1024 | the proof a transaction derives for itself; from which events, `HostReports.ProvedExactlyWhen` says |
| BarrierStore.Decommission | internal/alloc/nodes.go:300-406 | a host is excluded never while it holds leases, as proven only if proved in this transaction, and its run goes with it |
| BarrierStore.ComputeClear | internal/alloc/barrier.go:675-745 | the report lists exactly the expected hosts, each with its state, and exactly the excluded ones; from which events, `HostReports.ClearanceIsHistory` says |
| BarrierStore.ReportIsClear | internal/alloc/barrier.go:603-629 | the report says clear exactly when every expected host is proved under the seal in force, and stale exactly when a barrier stands whose seal is not in force |
| BarrierStore.ProofsAgree | internal/alloc/barrier.go:1032-1034 | a decommission's proof and the report never disagree about a host |
| BarrierStore.NeverWaitsInVain | internal/alloc/barrier.go:755-847 | the report never says to wait for a host that cannot answer, never buries one that says it is running something, and always says something |
| BarrierStore.Blocking | internal/alloc/barrier.go:633-648 | hosts are listed state by state, what is running first |
| BarrierStore.BlockingIsExact | internal/alloc/barrier.go:633-648 | blocking names exactly the expected hosts that are not proved |
| BarrierStore.BlockingOrder | internal/alloc/barrier.go:631-648 | what is running is named first, then what is too old to answer, out of contact, waited for and settling |
| BarrierStore.SealAdmission | internal/state/admission.go:163-309 | a seal moves the generation unless the caller only wanted it sealed by its own kind |
| BarrierStore.ResumeAdmission | internal/state/admission.go:191-309 | a resume clears only a seal the caller may clear, and moves the generation |
| NodeStore.UpsertRegistration | internal/state/queries/nodes.sql:286-342 | a registration writes the host's row and always moves its epoch, keeping its launch fence |
| NodeStore.NodeGone | internal/alloc/alloc.go:2865-2911 | giving up on a host is refused once it has registered again |
| NodeStore.NodeWithdrawn | internal/alloc/nodes.go:192-219 | only the registered process takes its host out of contact |
| NodeStore.NodeDraining | internal/alloc/nodes.go:236-258 | only the registered process takes its host out of placement |
| NodeStore.ForgetFleet | internal/alloc/alloc.go:2919-2938 | a plane that starts knows no host live and no inventory |
| NodeStore.SupersededProcessChangesNothing | internal/alloc/nodes.go:192-258 | over every run, once a host has registered again nothing said under its earlier registration changes the ledger |
| FleetSteps.HostStep | internal/alloc/nodes.go:192-406 | exactly what each event of any kind leaves of a host's row: who is in contact, drained, removed, how large, under which epoch and launch generation |
| FleetSteps.HostsAppear | internal/state/queries/nodes.sql:286-342 | a host appears only by registering, at its first epoch with nothing launched to it |
| FleetSteps.ExcludedExactlyWhen | internal/alloc/nodes.go:300-406 | a host is removed exactly when it is in the table with no open lease on it or aimed at it, and a person insists, or it is out of contact and proved |
| FleetSteps.AdmissionStep | internal/state/admission.go:223-309 | exactly which event seals admission and which reopens it, by generation, kind and entitlement, each moving the generation by one |
| FleetSteps.SealStandsUntilCleared | internal/state/admission.go:191-309 | over every run a seal stands until a resume holding the generation in force and entitled to clear that kind of seal |
| FleetSteps.OpenUntilSealed | internal/state/admission.go:163-309 | over every run an open deployment is sealed only by a seal holding the generation in force, whose kind it then carries |
| BarrierRuns.RunStep | internal/alloc/barrier.go:323-391 | exactly what each event of any kind does to one host's stored run |
| BarrierRuns.RowSummarisesHistory | internal/state/queries/barrier.sql:106-128 | every stored row's two ends are two recorded empty answers under its barrier and fence, with nothing since the first ending the run |
| BarrierRuns.ProofIsTwoAnswers | internal/alloc/barrier.go:867-897 | a proved host has two recorded empty answers under one barrier, epoch and dispatch, the grace apart, with no stale or non-empty answer, arrival, launch or registration since the first |
| BarrierRuns.TwoAnswersProve | internal/alloc/barrier.go:867-897 | conversely, with a clock that never runs back, two such answers prove the host unless it says itself that it runs something |
| HostReports.ReportedComputeBlocks | internal/alloc/barrier.go:755-800 | over every run from any ledger: once a host has reported something under the registration it has, then until it reports again under its registration, registers or the plane forgets the fleet, it is not proved, the report says it is running, and the fleet is not clear unless a person removed the host |
| HostReports.WordIsHistory | internal/state/queries/barrier.sql:147-172 | over every run a host is held to say it runs something exactly when its last believed report listed something and nothing has taken that report's place |
| HostReports.QuietWordHoldsNothingBack | internal/alloc/barrier.go:755-800 | a host whose last believed report listed nothing, or that made none since it registered or was forgotten, is not held back: two empty answers five minutes apart prove it |
| HostReports.ClearanceIsHistory | internal/alloc/barrier.go:755-847 | every host's state in the report, from the run's events alone: running while its last word names something, else proved by two empty answers five minutes apart with nothing in between, settling on the way, below protocol, waited for while in contact, unreachable otherwise |
| HostReports.ProvedExactlyWhen | internal/alloc/barrier.go:957-1034 | a host is proved in a transaction exactly when the seal its barrier named holds, it answered empty twice five minutes apart with nothing in between, and its last word names nothing |
| HostReports.ClearExactlyWhen | internal/alloc/barrier.go:603-623 | over every run the report reads clear exactly when that seal holds and that is so of every host nobody removed |
| BarrierRuns.OnlyAnswersProve | internal/alloc/barrier.go:873-897 | no event but a recorded empty answer of the host completes its run, so time alone proves nothing |
| BarrierRuns.SealedThroughout | internal/alloc/barrier.go:211-222 | if the seal a safe request named holds later, the deployment was sealed at every moment in between |
| BarrierRuns.BarrierWasRequested | internal/alloc/barrier.go:152-209 | a barrier in force was requested at some point of the run and has stood since |
| BarrierRuns.ClearMeansNothingSold | internal/alloc/barrier.go:603-623 | when the fleet is clear after a safe request, the deployment was sealed throughout, no lease was inserted, and to each expected host nothing was launched since a first empty answer after the request |
| UnsafeRequests.UnsafeRequestIsOutlived | internal/alloc/barrier.go:152-209 | for every ledger, every request that is not safe and every purchase, some run makes that purchase against the same hosts and leases while open and still ends with the fleet clear under the barrier requested |
| UnsafeRequests.SealedExactlyWhenSafe | internal/alloc/barrier.go:603-623 | from every ledger, a fleet clear under the barrier was sealed at every moment since the request, whatever happened, exactly when the request was safe |
| UnsafeRequests.UnsafeRequestIsSold | internal/alloc/barrier.go:603-623 | after an unsafe request whatever a tier has headroom for can be sold, to the last lease wanted, and the fleet still read as clear |
| UnsafeRequests.UnsoldExactlyWhenSafe | internal/alloc/barrier.go:603-623 | from every ledger with headroom in some tier, a fleet clear under the barrier was sold nothing since the request exactly when the request was safe |
| UnsafeRequests.SmallFleetIsSold | internal/alloc/barrier.go:603-623 | one host, one tier, an open deployment and a request under its next generation: a lease is sold and the fleet reads as clear |
| UnsafeRequests.StaleForGoodExactlyWhen | internal/alloc/barrier.go:625-629 | while a stale barrier stands the fleet never reads as clear again exactly when its generation is not still to come |
| Glob.Decide | internal/alerts/rule.go:282-316 | the scan that backtracks only to the last star decides the declarative match, in at most (pattern+1)*(value+1) turns |
| Shedding.ShedHost | internal/alloc/headroom_node.go:428-452 | one host gives back the best cover each time |
| Shedding.ShedOvercommit | internal/alloc/headroom_node.go:392-456 | host by host, nothing from a host within its size, and a host that cannot be read fails the call |
| Shedding.ShedStopsWhenSettled | internal/alloc/headroom_node.go:428-452 | nothing is given back within size, each candidate given back was still needed, and it ends settled or out of candidates |
| Shedding.ShedTakesBest | internal/alloc/headroom_node.go:428-479 | each candidate given back settles the most of what is then still short among those left, the least id on ties |
| Shedding.ShedAtMeans | internal/alloc/headroom_node.go:392-456 | a host gives back only its own candidates, as long as what is charged to it does not fit its size and no longer, or until none is left |
| Shedding.FewestForOne | internal/alloc/headroom_node.go:467-479 | with one dimension short no choice of fewer candidates would settle it |
| Shedding.FewestForTwosAndThrees | internal/alloc/headroom_node.go:428-479 | with both deficits two or three no choice of fewer leases would settle them |
| Shedding.FewestExactlyWhen | internal/alloc/headroom_node.go:428-479 | over all lists of leases that cost something of both, it gives back the fewest exactly when one deficit is at most one or both are at most three |
| Shedding.DecoyIsTaken | internal/alloc/headroom_node.go:428-479 | in every balanced decoy three leases that all cost something are given back where the last two settle both deficits |
| Holding.EverFits | internal/alloc/hold.go:214-223 | whether the shape fits the host once all its leases are gone |
| Holding.ReadyAt | internal/alloc/hold.go:214-265 | the least time by which the non-stuck leases ending make the shape fit, never exactly when all of them going would not, always on a host large enough, and late exactly when a non-stuck lease up to the first fitting place of the stable order is |
| JobPhases.Phases | internal/alloc/jobphases.go:95-140 | the code's writing back of sorted phases is the ordering below |
| JobPhases.OrderedIsRight | internal/alloc/jobphases.go:85-140 | the result is a permutation in which unparsable stamps keep their positions and parsable ones are in time order, ties in lifecycle order |
| JobPhases.PhasesAreTheRecord | internal/alloc/jobphases.go:85-140 | a job's phases are exactly the stamps its record keeps, each under its own name and once, and two of one instant stand in the order a lease lives them |
| Alerts.AlertLedger.RecordAlertJudgement | internal/alloc/alerts.go:226-299 | one judgement's mark, streak, firing and notices, together |
| Alerts.AlertLedger.PruneAlerts | internal/alloc/alerts.go:415-434 | old judgements are forgotten, and old streaks unless their cooldown still runs |
| Alerts.CountedOnce | internal/alloc/alerts.go:219-248 | each rule, lease and condition is counted at most once, unless a prune in between forgot that it was |
| Alerts.StreakCountsHits | internal/alloc/alerts.go:250-277 | a streak is the number of counted hits of its key since the last counted miss, or since a prune forgot it |
| Alerts.FiringsKeepApart | internal/alloc/alerts.go:262-277 | two firings of one key are never closer than the first one's cooldown, whatever is pruned between them on a clock that never runs back |
| Alerts.NoticesAreForFirings | internal/alloc/alerts.go:279-297 | notices are owed for every firing and for nothing else |
| AlertHistory.FiresExactlyWhen | internal/alloc/alerts.go:226-299 | over every run a rule fires exactly on a hit it was not asked about before, that with the hits since the key's last miss or forgetting makes as many in a row as the rule wants, with every earlier firing's cooldown over and no mute running |
| AlertHistory.StreakIsHits | internal/alloc/alerts.go:250-277 | a streak is the number of first answers that were hits since the last that was a miss, or since a prune older than none of its answers and none of its cooldowns forgot it |
| AlertHistory.MarkIsHistory | internal/alloc/alerts.go:226-248 | what is remembered as judged, and since when, is what the run asked and no prune has forgotten |
| AlertHistory.MuteIsHistory | internal/alloc/alerts.go:303-345 | a rule is muted exactly while its last mute runs and nothing has said otherwise since |
| PoolRunners.Pool.RegisterPoolRunner | internal/alloc/pool_runner.go:56-104 | an idle member is journaled once, its owner filled only where unknown; another member's claim, name or request is refused |
| PoolRunners.Pool.StartPoolRunner | internal/alloc/pool_runner.go:109-220 | a member is bound to the job GitHub gave it, once, and answered as it stands; any other job is refused |
| PoolRunners.Pool.PreserveRecoveredBusyPoolRunner | internal/alloc/pool_runner.go:242-289 | a busy registration is journaled with its job unknown; a mismatch or a retiring member is refused |
| PoolRunners.Pool.RetireRecoveredPoolRunner | internal/alloc/pool_runner.go:294-353 | only an idle or unbound member is claimed; a bound one is answered unchanged and a mismatch refused |
| PoolRunners.Pool.ReinstateBusyPoolRunner | internal/alloc/pool_runner.go:447-472 | only a retiring, unbound member is reinstated; any other is refused |
| PoolRunners.Pool.RetirePoolRunner | internal/alloc/pool_runner.go:475-504 | an idle or busy member is claimed for teardown, one already claimed is acknowledged, a missing one refused |
| PoolRunners.Pool.SettlePoolRunner | internal/alloc/pool_runner.go:510-533 | settlement retires the member, or deletes it if acknowledged |
| PoolRunners.Pool.AcknowledgePoolRunner | internal/alloc/pool_runner.go:537-560 | acknowledgement is recorded, or deletes the member if settled |
| PoolRunners.RefusalsChangeNothing | internal/alloc/pool_runner.go:56-504 | a refused call leaves the table as it was, and a start that is not refused leaves the member bound to that job |
| PoolRunners.RegisterMeans | internal/alloc/pool_runner.go:56-104 | a registration is accepted exactly when complete and new, or about the member that is there; it journals the member idle and unbound, or fills in its owner, and touches no other |
| PoolRunners.StartMeans | internal/alloc/pool_runner.go:109-220 | a start is accepted exactly for the runner and name the member has, when it is free for the job or has it already; a member not on its way out is then busy on that runner with that job |
| PoolRunners.PreserveMeans | internal/alloc/pool_runner.go:242-289 | a busy registration found again is accepted unless the member is on its way out, and is journaled busy |
| PoolRunners.RetireRecoveredMeans | internal/alloc/pool_runner.go:294-353 | a recovered registration is claimed for teardown unless it is bound or on its way out already, and is then left so |
| PoolRunners.ReinstateMeans | internal/alloc/pool_runner.go:447-472 | a claim is undone exactly for an unbound member claimed for teardown, which is then busy |
| PoolRunners.RetireMeans | internal/alloc/pool_runner.go:475-504 | any member there is may be claimed; one on its way out already stays as it is |
| PoolRunners.BindingStands | internal/alloc/pool_runner.go:109-220 | over every interleaving a living member's bound job and known runner never change, and an idle or unbound one has no job |
| PoolRunners.SettleAndAcknowledge | internal/alloc/pool_runner.go:506-560 | in any order, with any repeats and any other calls between, the row stands while either is outstanding and goes exactly with the second |
| Enrollment.EnrollmentDesk.SpendJoinToken | internal/alloc/jointoken.go:109-132 | a use is spent exactly when the token is live |
| Enrollment.EnrollmentDesk.RequestEnrollment | internal/alloc/enrollment.go:254-320 | a name is recorded when free or denied, held against another key otherwise |
| Enrollment.EnrollmentDesk.RequestEnrollmentWithToken | internal/alloc/enrollment.go:82-131 | the request and the use that pays for it land together or not at all |
| Enrollment.EnrollmentDesk.DecideEnrollment | internal/alloc/enrollment.go:385-443 | only a pending request is decided, by its own fingerprint, with the certificate kept; every other is refused as what it is |
| Enrollment.UsesAreAdmissions | internal/alloc/enrollment.go:82-131 | over every run a token's uses gone are exactly the requests it newly admitted |
| Enrollment.PollsAreFree | internal/alloc/enrollment.go:188-209 | asking again, and asking under a name another key holds, spend and change nothing |
| Enrollment.KeyChangesOnlyFromDenied | internal/alloc/enrollment.go:286-320 | over every run, outside direct issue, a name's key changes only from a denied request |
| Enrollment.ApprovedKeyStands | internal/alloc/enrollment.go:278-320 | an approved key stands over every run without direct issue |
| Enrollment.RowIsHistory | internal/alloc/enrollment.go:254-506 | over every run each row was made by an event and has stood since: a pending one by its asking, an approved one by an operator approving its fingerprint or handing out its certificate, a denied one by an operator denying it |
| Enrollment.DecisionTakes | internal/alloc/enrollment.go:385-443 | a decision by the fingerprint a waiting request has leaves the row approved or denied as decided, with the certificate, and nothing else changed |
| Enrollment.TokenIsHistory | internal/alloc/jointoken.go:44-132 | a token at the desk is its first mint's: its expiry and the uses made |
| Enrollment.AdmitsExactlyWhen | internal/alloc/enrollment.go:82-131 | over every run the token path records a new request exactly when nobody holds the name but who was denied, it is not a pool name, and the token was minted, has not expired and has admitted fewer than its uses |
| Enrollment.RepliesAreTrue | internal/alloc/enrollment.go:82-131 | whoever is told of a request holds the name under the key asked with; a refusal changes nothing and names the first thing wrong |

## Left out

- Integer width: Go's `int` and `int64` arithmetic on capacity is unbounded here; epochs and the packed digits are bounded where the packing depends on it.
- Floating point: the scores of `leftOver` and `covers` are exact reals, so a tie the code breaks by rounding is not modelled.
- PlacerImpl.Placer.CountByRank: returns the count only; the code's second result, how many ranks were counted without placing, is an instrument and is not modelled.
- Lease identity: a lease's id is its row number, so ids are fresh by construction; `Heartbeats.HeartbeatMany` alone takes ids as strings, unique per row.
- Heartbeats.HeartbeatMany: an id that is not valid UTF-8 is not distinguished from one that is, and a batch whose transaction fails is not modelled.
- LeaseStore.AdvanceLease: the holder's incarnation, the time a hold began and the job-start and phase stamps are not modelled; they are reported and decide nothing here.
- LeaseStore.MarkLeaseFailure: the disruption token written beside a reason is not modelled, because only reports read it; reasons arrive trimmed.
- LeaseStore.ResolveQuarantineFor: the disruption mark it writes is not modelled, for the same reason.
- NodeStore.NodeGone: the disruption mark it writes on the host's leases is not modelled, for the same reason.
- NodeStore.UpsertRegistration: whether the host is held out of placement is an input, because the code derives it from pool orders, which are not part of this model.
- Safety.RegistrationKeepsLimits: the checks that refuse a registration (fleet claims, a provider or site change under live work, a released pool host) are not modelled; an accepted one is the event.
- BarrierStore.RecordBarrierObservation: contradicting a pool release is not modelled, nor is anything else of pool orders.
- BarrierStore.InvalidateBarrierRun: contradicting a pool release is not modelled.
- BarrierStore.Decommission: clearing what contradicted a pool release is not modelled.
- BarrierStore.ComputeClear: the name order of the report and the times it prints beside each host are not modelled.
- BarrierRuns.ProofIsTwoAnswers: what a provider lists is not modelled; the claim is about recorded answers, which the ledger stamps on arrival.
- UnsafeRequests.UnsoldExactlyWhenSafe: on a ledger with no headroom in any tier only the sealed-throughout form is stated, because what could be sold there depends on what is released or registered first.
- Alerts.NoticesAreForFirings: delivering notices, and pruning delivered ones, are not modelled; one still owed is never pruned.
- PoolRunners.Pool.RegisterPoolRunner: the registration stamp on the job's history is not modelled, nor are the runner-id and job-start stamps of the other pool-runner calls.
- PoolRunners.Pool.StartPoolRunner: the job start it records on the history is not modelled.
- Enrollment.EnrollmentDesk.RequestEnrollmentWithToken: tokens minted for a pool order are not modelled, so a pool's own name is always refused.
- Enrollment.EnrollmentDesk.DecideEnrollment: linking a pool host to its order, and the separate register of issued certificates, are not modelled.
- Prices, sites on leases, cache observations and the usage sequence: carried columns that decide nothing here.
- Configuration checks in `New`, including `checkFloorsFit`: only the facts the arithmetic needs are assumed (positive sizes, unique labels).
- `Stranded`, `HoldCandidates` and `runsAsLarge`: they gather the inputs of `shedOvercommit` and `readyAt` from the ledger and from predicted runtimes, which are not part of this model.
- `Judge`, `judgeDuration` and `matchesWorkflow`: case analyses of one job record whose meaning is their own text.
- SQL text, engines, retries and the connection pools; the command line, actions, wire handlers and reports.
