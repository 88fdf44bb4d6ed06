# Florist ERP: verified core

A Dafny model of the state machines and numeric kernels of the florist ERP: the stock ledger, delivery jobs,
sessions and login lockout, the rate limiter, document numbers, roles and store access, money, composition
totals and the workspace ranking. `dafny verify dfyconfig.toml` checks all of it.

Each use case is one serial, all-or-nothing step over stored rows, as `runInTransaction` makes it. Four
layers describe it:

* **tables and commands** (`*Tables`, `*Posting`, `*Issue`, `*Commands`, ...): every command as a function from
  the tables before it to the tables it commits, or to the error that rolls it back. Unique indexes and check
  constraints of the database are part of the guarded writes;
* **services** (`InventoryService`, `DeliveryService`, `AuthService`, `RoleService`, `RateLimiter`): classes
  whose fields are the tables and whose methods run statement by statement in the order of the source, with
  its loops, and restore the old tables on failure. Each method is proved equal to its command function;
* **outcomes** (`*Outcomes`, `*Refusals`, `InventoryReceipts`, `InventoryReserved`, `InventorySettled`,
  `InventoryWasted`, `NumberReading`, `MoneyText`, ...): when each command goes through, in terms its caller can
  check before the call, and the rows it leaves behind;
* **theorems** about all runs (`*Runs`, `*History`, `*Retries`, `*Undo`, ...).

Rows are kept in sequences and identified by their position; a row is created and updated, never deleted,
except role and store-access rows, memberships and users, which are sets and maps. Stock quantities are exact
thousandths, fees exact hundredths, times milliseconds.

## What the proofs found

* **Reserved stock can lose its batch.** Reversing or correcting a goods receipt checks the balance, not the
  holds on the batch. The exact conditions are `ReversalCoversIffUnreserved` and `CorrectionCoversIffRoom`.
  `ReversalCanStrandAHold` is a run in which every step commits and the order can then not be issued until it is
  reserved again, which mends it (`ReservingAgainMendsAHold`); `CorrectionCanStrandAHold` leaves a hold short.
* **A reservation plans all its lines against the same free stock.** Lines for one item overbook its first free
  batch exactly when together they want more than is free there (`ReservationCoversIffLinesFit`);
  `RepeatedItemOverbooksABatch` is such a command. No caller sends one: all of them pass the rows of a
  composition, which schema.prisma:801 keeps unique per item (`DistinctItemsFit`), so the gap is the adapter's alone.
* **Covered holds are enough.** With every hold covered an issue commits exactly when its lines ask for no more than
  their own holds and the free stock (`IssueSucceedsIff`).
* **Reversal movements are stored negated**, for receipts, sales and write-offs alike, so applying
  `signedMovementDelta` to a stored row counts them the wrong way round (`RawDeltaIsTrueIffNotReversal`). The
  replay here applies it to the absolute quantity.
* **Corrections and reversals trust their caller** for item and scope: agreement of balances, batches and
  movements holds exactly when the caller names the right ones (`CorrectionAgreesIffAddressed`,
  `SaleReversalAgreesIffInScope`, `WriteOffReversalAgreesIffInScope`; `MisnamedCorrectionDisagrees`,
  `MisplacedReturnDisagrees` and `MisplacedUnwasteDisagrees` are runs on the failing side). No present caller reaches it:
  supply.use-cases.ts:448 passes the item its posted line was found by, sale.use-cases.ts:536 and
  write-off.use-cases.ts:193 pass the stored document's own store and warehouse. Batches and movements agree on
  every run, whatever is named (`BatchesReplayOnEveryRun`).
* **`resolveProblem` leaves terminal statuses.** It checks its target only (`TerminalIsLeftIff`), so a
  delivered job can go back into transit, a cancelled one can keep its courier, a job can be ASSIGNED to nobody
  (`AssignedToNobody`), and reviving one is the single way to meet the one-active-job index (`IndexRefusesIff`,
  `RevivalMeetsTheIndex`).
* **COURIER_ORG_MISMATCH is never answered**: a courier of another organization is not found in the first place
  (`AssignRefusal`).
* **Three order commands call the delivery ports inside their own transaction**, which `PrismaUnitOfWork` refuses
  to nest: `updateDraft` (order.use-cases.ts:341, 366), `markReady` (:1109) and `assembleOrder` (:1254). Those calls
  never write: marking an order ready fails exactly when its delivery would have to follow (`NestedReadyFailsIff`), and
  a draft changes its type exactly when no delivery has to (`NestedSwitchSucceedsIff`). `createOrder` (:243) calls
  after its transaction has ended, and that call writes. The port theorems are stated for calls outside a transaction.
* **A rotated refresh token revokes nothing**, although docs/development/session-management.md says it revokes
  the family: the old hash matches no session, and every session is its family's only member
  (`RotatedTokenRevokesNothing`, `ReplayedTokenSparesTheSession`). The model follows the code.
* **A right password extends a running lock** (`LockedUserIsRefused`), and unblocking does not clear it.
* **The rate limiter's true bound** in any window is `2 * limit - 1`, reached by `WorstCaseIsReached`.
* **The last-director check counts memberships, not accounts that can log in** (`LosesUsableDirectorIff`,
  `OnlyDirectorCanBeBlocked`), and a member who has ever logged in cannot be hard-deleted, because the membership is
  deleted before the sessions that refer to it (`LoggedInMemberIsNeverDeleted`).
* **Serials of nine digits are invisible to the scan** for the next number (`FirstAttemptIsFreeIff`,
  `NineDigitsAreMissed`), and a negative amount that rounds to zero prints a sign that is lost on reading
  (`PrintingIsStableIff`, `MinusZeroLosesItsSign`).

## Assumptions

* Commands are serial. `login` is several writes without a transaction in the source and one step here.
  `createDeliveryFromOrder` and the role checks read before their transaction starts; here they read its state.
* Refresh tokens and identifiers made with `randomUUID` or `randomBytes` are never drawn twice; the keyed hash
  of a token and the password check are exact (a hash determines its token, a password matches only itself).
* Database queries without an order return the oldest matching row. Where the invariant leaves one candidate
  (open assignments, active jobs, sessions by hash) the choice does not matter.
* The stock adapters' callers name the item and the scope of the batches they correct or reverse
  (`RunAddressed`); the exact cost of not doing so is stated by the three lemmas above.
* The calendar day of a time and the locale's order of strings are parameters: the day never goes back, the
  order is total and transitive.

## Model

| member | source | states |
|---|---|---|
| `InventoryRuns.LedgerAgreesOnEveryRun` | apps/api/src/modules/inventory/infrastructure/prisma-inventory-posting.adapter.ts:37-67 | after any run of receipts, corrections, reversals, issues, write-offs and reservations, for every warehouse and item: on-hand is the sum of the batches' remaining quantities and the replay of the movements; reserved is the sum of the active holds and lies between 0 and on-hand; available is the difference |
| `InventoryRuns.BatchesReplayOnEveryRun` | apps/api/prisma/migrations/20260715210000_master_data_hardening_and_supply_inventory/migration.sql:54-54 | on every run, whatever its callers name: every batch replays from its own movements to its remaining quantity, `0 <= remaining <= initial`, `initial > 0`; what is missing from a batch is exactly what was drawn and not given back; a reversed batch is empty and nothing is drawn from it |
| `InventoryRuns.RunKeepsInv` | apps/api/src/modules/inventory/infrastructure/prisma-inventory-posting.adapter.ts:22-232 | every run whose corrections and reversals name their batches' item and scope keeps the whole stock invariant, refused steps included |
| `InventoryRuns.RunStaysSound` | apps/api/src/modules/inventory/infrastructure/prisma-inventory-posting.adapter.ts:22-232 | every run, addressed or not, keeps batches, movements and holds in step: histories, unique sources, reversals that point back to what they give back, holds on batches of their own key |
| `InventoryRuns.ReceiptLinePostsOnce` | apps/api/src/modules/inventory/infrastructure/prisma-inventory-posting.adapter.ts:37-43 | over any run, keys or no keys, and whatever corrections and reversals name, a receipt line yields at most one batch, one RECEIPT and one RECEIPT_REVERSAL |
| `InventoryRuns.CommitBindsKey` | apps/api/src/modules/inventory/infrastructure/prisma-inventory-posting.adapter.ts:24-34 | a committed command leaves its idempotency key bound to its document |
| `InventoryRuns.RetryChangesNothing` | apps/api/src/modules/inventory/infrastructure/prisma-inventory-posting.adapter.ts:24-34 | whatever ran in between, a committed command sent again succeeds and changes nothing, any command with its key for the same document is a no-op, and for another document is refused |
| `InventoryRuns.RunExtends` | apps/api/src/modules/inventory/infrastructure/prisma-inventory-posting.adapter.ts:22-232 | no run rewrites or drops a movement row, rebinds a key, or loses a batch row |
| `InventoryRuns.CorrectionKeepsDrawn` | apps/api/src/modules/inventory/infrastructure/prisma-inventory-posting.adapter.ts:127-212 | a correction keeps `initial - remaining` of every batch, changes no other batch, and sets the corrected batch's initial quantity to the accepted one |
| `InventoryRuns.CorrectionAgreesIffAddressed` | apps/api/src/modules/inventory/infrastructure/prisma-inventory-posting.adapter.ts:183-199 | the correction moves the balance of the item the caller names: on-hand stays in agreement if and only if that is the batch's item and scope or nothing moves |
| `InventoryRuns.RawDeltaIsTrueIffNotReversal` | apps/api/src/modules/inventory/domain/inventory-movement-delta.ts:13-31 | on every run: applied to a stored quantity as it stands, `signedMovementDelta` gives the true effect exactly for movements that are no reversal: all three reversal kinds are stored already negated |
| `InventoryUndo.ReversalEmptiesItsBatches` | apps/api/src/modules/inventory/infrastructure/prisma-inventory-posting.adapter.ts:74-125 | a committed reversal turns exactly the batches of the named lines into empty REVERSED ones and touches no other batch and no reservation |
| `InventoryUndo.PostCorrectReverseIsUndone` | apps/api/src/modules/inventory/infrastructure/prisma-inventory-posting.adapter.ts:22-212 | a receipt posted with any lines (repeated items, skipped lines), corrected any number of times and then reversed leaves every on-hand quantity as before posting, its batches reversed and empty, every other batch untouched |
| `InventoryGiveBack.SaleReversalGivesBackAll` | apps/api/src/modules/inventory/infrastructure/prisma-inventory-issue.adapter.ts:217-329 | the first reversal of a sale gives every batch exactly what all the sale's issues ever took from it, and the named scope exactly what they took of each item; nothing else moves and no hold comes back |
| `InventoryGiveBack.WriteOffReversalGivesBackAll` | apps/api/src/modules/inventory/infrastructure/prisma-inventory-write-off.adapter.ts:154-230 | a committed reversal gives every batch and item exactly what all the write-off's rows ever took |
| `InventoryGiveBack.ReversedSaleIsUndone` | apps/api/src/modules/inventory/infrastructure/prisma-inventory-issue.adapter.ts:68-329 | from any valid stock, a sale issued for the first time can always be reversed in its scope under a fresh key, and every batch and every on-hand quantity is then exactly as before the issue; consumed holds stay consumed |
| `InventoryGiveBack.ReversedWriteOffIsUndone` | apps/api/src/modules/inventory/infrastructure/prisma-inventory-write-off.adapter.ts:24-230 | the same for a write-off, which leaves the reservations alone as well |
| `InventoryGiveBack.OpenRowHasFreeSource` | apps/api/src/modules/inventory/infrastructure/prisma-inventory-issue.adapter.ts:281-305 | the unique source line refuses a compensating row only if the draw has been given back already |
| `InventoryGiveBack.RowsOfADocument` | apps/api/src/modules/inventory/infrastructure/prisma-inventory-issue.adapter.ts:245-262 | the rows found for a document are its own of the kind asked for, and no other's |
| `InventoryGiveBack.IssueWrites` | apps/api/src/modules/inventory/infrastructure/prisma-inventory-issue.adapter.ts:119-136 | every row an issue writes is an ISSUE of its document in its scope, at its batch's cost and the command's time, reversing nothing |
| `InventoryGiveBack.WriteOffWrites` | apps/api/src/modules/inventory/infrastructure/prisma-inventory-write-off.adapter.ts:81-103 | the same for a write-off, which leaves the holds alone |
| `InventoryGiveBack.FirstSaleReversalCommits` | apps/api/src/modules/inventory/infrastructure/prisma-inventory-issue.adapter.ts:217-329 | the first reversal of a sale, named in its scope, always commits |
| `InventoryGiveBack.ReversedSaleIsLeftAlone` | apps/api/src/modules/inventory/infrastructure/prisma-inventory-issue.adapter.ts:236-256 | a sale already reversed is left alone under any fresh key, which is bound to it |
| `InventoryGiveBack.WriteOffReversalSucceedsIff` | apps/api/src/modules/inventory/infrastructure/prisma-inventory-write-off.adapter.ts:154-230 | under a fresh key a write-off named in its scope can be reversed if and only if it has not been |
| `InventoryGiveBack.SaleReversalWrites` | apps/api/src/modules/inventory/infrastructure/prisma-inventory-issue.adapter.ts:270-320 | one compensating row for each issue row, in their order: negated, at its cost, on its batch, item and source line, pointing back at it |
| `InventoryGiveBack.WriteOffReversalWrites` | apps/api/src/modules/inventory/infrastructure/prisma-inventory-write-off.adapter.ts:180-222 | the same for a write-off |
| `InventoryTotals.PostingAddsWhatWasAccepted` | apps/api/src/modules/inventory/infrastructure/prisma-inventory-posting.adapter.ts:37-67 | a fresh posting raises on-hand of each item by the sum of its lines' positive accepted quantities and reserves nothing |
| `InventoryReceipts.PostingSucceedsIff` | apps/api/src/modules/inventory/infrastructure/prisma-inventory-posting.adapter.ts:22-72 | under a fresh key a posting commits if and only if no line with an accepted quantity was posted before or is named twice |
| `InventoryReceipts.PostingWritesItsLines` | apps/api/src/modules/inventory/infrastructure/prisma-inventory-posting.adapter.ts:37-67 | a committed posting appends, line by line, one batch and one RECEIPT with the line's item, quantity, price and dates, flowers with a shelf life expiring that many days after receipt, and nothing else |
| `InventoryReceipts.CorrectionSucceedsIff` | apps/api/src/modules/inventory/infrastructure/prisma-inventory-posting.adapter.ts:127-198 | when a correction commits, exactly |
| `InventoryReceipts.CorrectionWrites` | apps/api/src/modules/inventory/infrastructure/prisma-inventory-posting.adapter.ts:150-212 | the batch gets the accepted quantity and the new price, keeps what was drawn, and is ACTIVE exactly when something remains; a moved quantity is one movement of the type of its sign, with the absolute difference and the new price |
| `InventoryReceipts.ReversalSucceedsIff` | apps/api/src/modules/inventory/infrastructure/prisma-inventory-posting.adapter.ts:74-125 | under a fresh key a reversal commits if and only if nothing was drawn from the lines' batches, none is reversed, and each item's balance has that much unreserved |
| `InventoryReceipts.ReversalWritesItsRows` | apps/api/src/modules/inventory/infrastructure/prisma-inventory-posting.adapter.ts:86-123 | one RECEIPT_REVERSAL for each batch, pointing at its RECEIPT, with its whole quantity negated, its cost and the command's time |
| `InventoryTotals.IssueTakesWhatWasAsked` | apps/api/src/modules/inventory/infrastructure/prisma-inventory-issue.adapter.ts:68-215 | a fresh issue lowers on-hand of each item by exactly what its lines ask for, however much of it was reserved |
| `InventoryTotals.WriteOffTakesWhatWasAsked` | apps/api/src/modules/inventory/infrastructure/prisma-inventory-write-off.adapter.ts:24-152 | a fresh write-off lowers on-hand of each item by exactly the positive quantities of its lines |
| `InventoryScope.SaleReversalAgreesIffInScope` | apps/api/src/modules/inventory/infrastructure/prisma-inventory-issue.adapter.ts:217-329 | a fresh sale reversal keeps on-hand in agreement if and only if it names the scope every issue of the sale was booked in |
| `InventoryScope.WriteOffReversalAgreesIffInScope` | apps/api/src/modules/inventory/infrastructure/prisma-inventory-write-off.adapter.ts:154-230 | the same for a fresh write-off reversal |
| `InventoryConsumption.ConsumedBeforeIsTotalPreorder` | apps/api/src/modules/inventory/domain/batch-consumption-order.ts:1-5 | a batch may be consumed before another unless that one was received earlier, or at once and expires first, none being last; the order compares any two batches, consistently |
| `InventoryConsumption.IssueDrawsOldestFirst` | apps/api/src/modules/inventory/infrastructure/prisma-inventory-issue.adapter.ts:398-480 | an issue from free stock draws exactly what was asked, and on a batch only when every eligible batch before it, by receipt and then by expiry, has nothing free left |
| `InventoryConsumption.WriteOffDrawsOldestFirst` | apps/api/src/modules/inventory/infrastructure/prisma-inventory-write-off.adapter.ts:63-135 | a written-off line draws on a batch only when every eligible batch before it has nothing free left |
| `InventoryConsumption.ReservationHoldsOldestFirst` | apps/api/src/modules/inventory/infrastructure/prisma-inventory-reservation.adapter.ts:88-120 | a reservation line holds a batch only when it holds all that is free on every eligible batch before it |
| `InventoryReserved.ReservationSucceedsIff` | apps/api/src/modules/inventory/infrastructure/prisma-inventory-reservation.adapter.ts:34-165 | with holds covered a reservation commits if and only if every line asks for something and what its lines get of each item fits what others leave |
| `InventoryReserved.ReservationReservesItsShares` | apps/api/src/modules/inventory/infrastructure/prisma-inventory-reservation.adapter.ts:70-165 | a committed reservation leaves each item reserved for what others hold plus what its lines get: each line the smaller of its quantity and what others leave |
| `InventoryReserved.ReservationHoldsForItsItems` | apps/api/src/modules/inventory/infrastructure/prisma-inventory-reservation.adapter.ts:94-140 | a composition item's active holds of an item sum to what its lines get of it |
| `InventoryReserved.EachLineHoldsWhatThereIs` | apps/api/src/modules/inventory/infrastructure/prisma-inventory-reservation.adapter.ts:70-140 | lines for different items: each item is reserved for the others' holds h plus the smaller of the line's quantity and on-hand less h, and the line's own holds sum to that |
| `InventoryReserved.DistinctItemsAlwaysReserve` | apps/api/src/modules/inventory/infrastructure/prisma-inventory-reservation.adapter.ts:34-165 | lines for different items always commit when each asks for something |
| `InventoryReserved.ReservationRows` | apps/api/src/modules/inventory/infrastructure/prisma-inventory-reservation.adapter.ts:100-112 | the old holds of the command's composition items are released and all others stay; every new row is an active hold of a positive quantity for one of the lines, on a batch of its item |
| `InventoryReserved.ReservationFillsOldestFirst` | apps/api/src/modules/inventory/infrastructure/prisma-inventory-reservation.adapter.ts:94-112 | a new hold lies on a batch only if nothing is left free on any batch received before it, or with it and expiring first |
| `InventoryReserved.ReleaseGivesUpItsHolds` | apps/api/src/modules/inventory/infrastructure/prisma-inventory-reservation.adapter.ts:242-273 | releasing a composition always commits, releases exactly its active holds and leaves each item reserved for the others |
| `InventoryCoverage.ReversalCoversIffUnreserved` | apps/api/src/modules/inventory/infrastructure/prisma-inventory-posting.adapter.ts:86-123 | a committed reversal leaves every hold covered by its batch if and only if nothing was reserved on the batches it empties: the adapter only checks the balance |
| `InventoryCoverage.CorrectionCoversIffRoom` | apps/api/src/modules/inventory/infrastructure/prisma-inventory-posting.adapter.ts:150-212 | a committed correction leaves every hold covered if and only if the corrected batch still has room for its holds |
| `InventoryHolds.CarefulRunsKeepHoldsCovered` | apps/api/src/modules/inventory/infrastructure/prisma-inventory-reservation.adapter.ts:34-165 | along a run in which every command that commits is careful, every hold is covered at the end |
| `InventoryHolds.HoldsStayCoveredIffCareful` | apps/api/src/modules/inventory/infrastructure/prisma-inventory-reservation.adapter.ts:34-165 | along a run from covered stock the holds are covered at every point if and only if every command that commits is careful: reversals empty no reserved batch, corrections leave room for the holds, reservations do not compete with themselves for a batch |
| `InventoryHolds.CommitCoversIffCareful` | apps/api/src/modules/inventory/infrastructure/prisma-inventory-reservation.adapter.ts:34-165 | a committed command leaves every hold covered if and only if it meets its own one of these guards; issues, write-offs, their reversals, postings and releases need none |
| `InventoryOverbooking.ReservationCoversIffLinesFit` | apps/api/src/modules/inventory/infrastructure/prisma-inventory-reservation.adapter.ts:70-140 | a committed reservation leaves every hold covered if and only if each item stands on one line only, or has no free stock, or its lines together want no more than the first batch with free stock has free |
| `InventoryOverbooking.DistinctItemsFit` | apps/api/prisma/schema.prisma:801-801 | lines for different items always meet that condition, and the rows of a composition are unique per item |
| `InventoryBookings.RunStaysUnbooked` | apps/api/src/modules/inventory/infrastructure/prisma-inventory-issue.adapter.ts:107-160 | after any run no issue row names a hold that is still active |
| `InventoryIssuable.HoldIsConsumed` | apps/api/src/modules/inventory/infrastructure/prisma-inventory-issue.adapter.ts:107-160 | where holds are covered, consuming an active hold always commits (that it was not booked before is `RunStaysUnbooked`) |
| `InventoryIssuable.LineIssuesIff` | apps/api/src/modules/inventory/infrastructure/prisma-inventory-issue.adapter.ts:86-200 | where holds are covered, a line is issued if and only if it asks for something, and for no more than its own holds and the free stock |
| `InventoryIssuable.IssueSucceedsIff` | apps/api/src/modules/inventory/infrastructure/prisma-inventory-issue.adapter.ts:68-215 | where holds are covered, an issue under a fresh key commits if and only if its quantities are positive and, item by item and line after line, it asks for no more than its lines hold and nobody holds |
| `InventorySettled.LineSettlesItsHolds` | apps/api/src/modules/inventory/infrastructure/prisma-inventory-issue.adapter.ts:100-161 | an issue line draws on its holds in the order they were made, each for what the line still needs behind those before it; a hold drawn whole is CONSUMED, any other RELEASED for the rest, and holds it does not name stay as they were |
| `InventorySettled.LineBooksItsHolds` | apps/api/src/modules/inventory/infrastructure/prisma-inventory-issue.adapter.ts:115-136 | the new rows given for a hold lie on its batch and sum to what it gave; free stock is booked on no hold |
| `InventoryWasted.WriteOffSucceedsIff` | apps/api/src/modules/inventory/infrastructure/prisma-inventory-write-off.adapter.ts:24-152 | with holds covered, under a fresh key a write-off commits if and only if its lines, item by item and in their order, ask for no more than is free, each under an identifier of its own that was not written off before |
| `InventoryWasted.LineWastesIff` | apps/api/src/modules/inventory/infrastructure/prisma-inventory-write-off.adapter.ts:52-124 | the same for one line |
| `InventoryWasted.LineRowsAreNamed` | apps/api/src/modules/inventory/infrastructure/prisma-inventory-write-off.adapter.ts:95-99 | the first row of a written-off line carries the line's identifier and no other row does |
| `InventoryIssuable.CarefulRunsIssueIff` | apps/api/src/modules/inventory/infrastructure/prisma-inventory-issue.adapter.ts:68-215 | so it is after every careful run |
| `InventoryIssuable.FreeLiesOnBatches` | apps/api/src/modules/inventory/infrastructure/prisma-inventory-issue.adapter.ts:398-480 | what the balance calls available is exactly what is free on the item's batches |
| `InventoryWitnesses.ReversalCanStrandAHold` | apps/api/src/modules/inventory/infrastructure/prisma-inventory-posting.adapter.ts:74-125 | a run in which every step commits and the ledger agrees, yet a hold sits on an emptied batch and its order is refused |
| `InventoryWitnesses.ReservingAgainMendsAHold` | apps/api/src/modules/orders/application/order.use-cases.ts:667-697 | reserving that order again covers its hold on the other batch, and the issue refused before commits |
| `InventoryWitnesses.CorrectionCanStrandAHold` | apps/api/src/modules/inventory/infrastructure/prisma-inventory-posting.adapter.ts:150-212 | a run in which a correction commits and leaves a hold without cover |
| `InventoryWitnesses.MisnamedCorrectionDisagrees` | apps/api/src/modules/inventory/infrastructure/prisma-inventory-posting.adapter.ts:183-199 | a run in which a correction names another item and on-hand stops agreeing |
| `InventoryWitnesses.MisplacedReturnDisagrees` | apps/api/src/modules/inventory/infrastructure/prisma-inventory-issue.adapter.ts:217-329 | a run in which a sale is reversed into another warehouse and on-hand stops agreeing |
| `InventoryWitnesses.MisplacedUnwasteDisagrees` | apps/api/src/modules/inventory/infrastructure/prisma-inventory-write-off.adapter.ts:154-230 | the same for a write-off |
| `InventoryWitnesses.RepeatedItemOverbooksABatch` | apps/api/src/modules/inventory/infrastructure/prisma-inventory-reservation.adapter.ts:70-140 | a run in which one command names an item on two lines that together want more than its first batch has free: both holds land there and it cannot cover them |
| `InventoryPosting.AdjustBalanceEffect` | apps/api/src/modules/inventory/infrastructure/prisma-inventory-posting.adapter.ts:214-232 | a guarded balance change moves one key's on-hand and available together and leaves every other key alone |
| `InventoryPosting.PostKeepsInv` | apps/api/src/modules/inventory/infrastructure/prisma-inventory-posting.adapter.ts:22-72 | posting keeps the stock invariant |
| `InventoryPosting.ReverseKeepsInv` | apps/api/src/modules/inventory/infrastructure/prisma-inventory-posting.adapter.ts:74-125 | reversing keeps the stock invariant, for any lines and scope named |
| `InventoryPosting.AdjustKeepsInv` | apps/api/src/modules/inventory/infrastructure/prisma-inventory-posting.adapter.ts:127-212 | an addressed correction keeps the stock invariant |
| `InventoryIssueProofs.IssueKeepsInv` | apps/api/src/modules/inventory/infrastructure/prisma-inventory-issue.adapter.ts:68-215 | issuing, from holds and from free stock, keeps the stock invariant |
| `InventoryIssueProofs.ReverseIssueKeepsInv` | apps/api/src/modules/inventory/infrastructure/prisma-inventory-issue.adapter.ts:217-329 | giving a sale back keeps the stock invariant |
| `InventoryWriteOff.PostWriteOffKeepsInv` | apps/api/src/modules/inventory/infrastructure/prisma-inventory-write-off.adapter.ts:24-152 | writing off keeps the stock invariant |
| `InventoryWriteOff.ReverseWriteOffKeepsInv` | apps/api/src/modules/inventory/infrastructure/prisma-inventory-write-off.adapter.ts:154-230 | reversing a write-off keeps the stock invariant |
| `InventoryReservation.ReserveKeepsInv` | apps/api/src/modules/inventory/infrastructure/prisma-inventory-reservation.adapter.ts:34-165 | releasing old holds, planning and storing new ones keeps the stock invariant |
| `InventoryReservation.ReleaseActiveKeepsInv` | apps/api/src/modules/inventory/infrastructure/prisma-inventory-reservation.adapter.ts:242-273 | releasing the active holds of composition items keeps the stock invariant |
| `InventoryService.StockDatabase.PostGoodsReceipt` | apps/api/src/modules/inventory/infrastructure/prisma-inventory-posting.adapter.ts:22-72 | the posting loop over lines, with its key, commits exactly the specified tables or rolls back with the specified error |
| `InventoryService.StockDatabase.PostOneLine` | apps/api/src/modules/inventory/infrastructure/prisma-inventory-posting.adapter.ts:37-67 | one line: skipped when nothing was accepted, refused when already posted, else batch, RECEIPT and balance |
| `InventoryService.StockDatabase.ReverseGoodsReceipt` | apps/api/src/modules/inventory/infrastructure/prisma-inventory-posting.adapter.ts:74-125 | the reversal loop over batches commits exactly the specified tables or rolls back |
| `InventoryService.StockDatabase.ReverseOneBatch` | apps/api/src/modules/inventory/infrastructure/prisma-inventory-posting.adapter.ts:86-123 | one batch: refused when used or already reversed, else balance, RECEIPT_REVERSAL and an empty REVERSED batch |
| `InventoryService.StockDatabase.AdjustGoodsReceiptItem` | apps/api/src/modules/inventory/infrastructure/prisma-inventory-posting.adapter.ts:127-212 | the correction's writes commit exactly the specified tables or roll back |
| `InventoryService.StockDatabase.IssueStock` | apps/api/src/modules/inventory/infrastructure/prisma-inventory-issue.adapter.ts:68-215 | the issue loop over lines commits exactly the specified tables or rolls back |
| `InventoryService.StockDatabase.ConsumeReservations` | apps/api/src/modules/inventory/infrastructure/prisma-inventory-issue.adapter.ts:107-160 | holds are consumed row by row until nothing is left to find |
| `InventoryService.StockDatabase.MarkReleased` | apps/api/src/modules/inventory/infrastructure/prisma-inventory-issue.adapter.ts:367-396 | the holds an issue did not need are released in place and their quantity summed |
| `InventoryService.StockDatabase.TakeFreeSlices` | apps/api/src/modules/inventory/infrastructure/prisma-inventory-issue.adapter.ts:398-480 | free stock is taken batch by batch in consumption order |
| `InventoryService.StockDatabase.ReverseIssue` | apps/api/src/modules/inventory/infrastructure/prisma-inventory-issue.adapter.ts:217-329 | the loop over a sale's issues gives each back, or rolls back |
| `InventoryService.StockDatabase.PostWriteOff` | apps/api/src/modules/inventory/infrastructure/prisma-inventory-write-off.adapter.ts:24-152 | the write-off loop over lines and batches commits or rolls back |
| `InventoryService.StockDatabase.ReverseWriteOff` | apps/api/src/modules/inventory/infrastructure/prisma-inventory-write-off.adapter.ts:154-230 | the loop over a write-off's rows gives each back, or rolls back |
| `InventoryService.StockDatabase.ReserveComposition` | apps/api/src/modules/inventory/infrastructure/prisma-inventory-reservation.adapter.ts:34-165 | release, plan and store commit exactly the specified tables or roll back |
| `InventoryService.StockDatabase.ReleaseComposition` | apps/api/src/modules/inventory/infrastructure/prisma-inventory-reservation.adapter.ts:167-174 | releasing a composition commits or rolls back |
| `InventoryService.StockDatabase.MarkReleasedByItem` | apps/api/src/modules/inventory/infrastructure/prisma-inventory-reservation.adapter.ts:242-262 | the loop that releases holds in place and totals them by item |
| `DeliveryRuns.RunKeepsInv` | apps/api/src/modules/delivery/application/delivery.use-cases.ts:189-1281 | every run of the delivery commands keeps the delivery invariant |
| `DeliveryRuns.CourierIsTheOpenAssignment` | apps/api/src/modules/delivery/application/delivery.use-cases.ts:497-589 | in every reachable state an unreleased assignment of a job is its only one and its courier is the job's courier |
| `DeliveryRuns.NoCourierWithoutAssignment` | apps/api/src/modules/delivery/application/delivery.use-cases.ts:497-589 | in every reachable state a job with a courier has an unreleased assignment of that courier |
| `DeliveryRuns.StatusIsBackedByItsMarks` | apps/api/src/modules/delivery/application/delivery.use-cases.ts:656-864 | in every reachable state: PROBLEM has an OPEN problem record, DELIVERED a delivery time, CANCELLED a cancellation time, IN_TRANSIT and DELIVERED a departure or a recorded problem; a departed job was handed over; windows are ordered; coordinates carry the source they came from and no lookup is left pending |
| `DeliveryRuns.CommandStep` | apps/api/src/modules/delivery/infrastructure/prisma-delivery.repository.ts:217-244 | one step leaves a job's row exactly as it was, or moves it along a transition of the command, at the version the command named |
| `DeliveryHistory.JobOverRun` | apps/api/src/modules/delivery/infrastructure/prisma-delivery.repository.ts:217-244 | over any run a job keeps its organization, store and order, no timestamp once set is cleared, the version never falls, and an equal version means the same row |
| `DeliveryHistory.ChangeRaisesVersion` | apps/api/src/modules/delivery/application/delivery.use-cases.ts:168-187 | a commit that changes a job raises its version by one (two for a lookup), and a command that names a version changes a job only at that version |
| `DeliveryHistory.OneCommitPerVersion` | apps/api/src/modules/delivery/application/delivery.use-cases.ts:168-187 | of any two commands in a run that carry the same version for a job, at most one changes it |
| `DeliveryHistory.ChangesFollowTheMachine` | apps/api/src/modules/delivery/domain/delivery-rules.ts:71-117 | every status change is a transition of its command, and each timestamp is written only by its own commands, with their time |
| `DeliveryHistory.TerminalIsAbsorbing` | apps/api/src/modules/delivery/domain/delivery-rules.ts:66-69 | along runs without a problem resolution on the job, DELIVERED and CANCELLED stay |
| `DeliveryHistory.TerminalIsLeftIff` | apps/api/src/modules/delivery/domain/delivery-rules.ts:257-264 | a terminal status is left if and only if a resolution that passes its checks names another target; the checks look at the target, the key, the record and the version, never at the job's status |
| `DeliveryHistory.ResolutionOutcome` | apps/api/src/modules/delivery/application/delivery.use-cases.ts:803-864 | when a resolution commits, what it writes, and when the order index refuses it |
| `DeliveryHistory.ResolutionMisplacesCourierIff` | apps/api/src/modules/delivery/application/delivery.use-cases.ts:837-860 | "a cancelled job holds no courier, an ASSIGNED job has one" is broken exactly by a resolution that cancels a job with a courier or moves one without to ASSIGNED |
| `DeliveryWitnesses.AssignedToNobody` | apps/api/src/modules/delivery/application/delivery.use-cases.ts:803-864 | from any reachable state with a planned job without a courier: reported, resolved to ASSIGNED, and assigned to nobody |
| `DeliveryWitnesses.AssignedToNobodyFromNothing` | apps/api/src/modules/delivery/application/delivery.use-cases.ts:803-864 | such a run from the empty tables |
| `DeliveryRetries.RetryChangesNothing` | apps/api/src/modules/delivery/application/delivery.use-cases.ts:140-166 | a committed delivery, cancellation or resolution sent again under its key succeeds and changes nothing; for the first two, whatever ran in between but a resolution on that job |
| `DeliveryRetries.RetryReplaysIff` | apps/api/src/modules/delivery/application/delivery.use-cases.ts:140-166 | whatever ran in between and whatever version it names, such a retry succeeds without changing anything if and only if the job is still delivered or cancelled as it left it; a resolution's always does |
| `DeliveryRetries.RunRemembers` | apps/api/src/modules/delivery/infrastructure/prisma-delivery.repository.ts:412-446 | over any run keys stay bound to their document and a resolved problem stays resolved and with its job |
| `DeliveryFulfilment.IndexRefusesIff` | apps/api/prisma/migrations/20260717000000_delivery_operations/migration.sql:163-164 | in a reachable state the unique indexes refuse a command if and only if it adds a second courier profile for a membership, or is a resolution that revives a cancelled job whose order has another active one |
| `DeliveryWitnesses.RevivalMeetsTheIndex` | apps/api/src/modules/delivery/application/delivery.use-cases.ts:803-864 | from any reachable state with a planned job: reported, cancelled, superseded by another delivery, resolved to IN_TRANSIT, and the index refuses |
| `DeliveryWitnesses.RevivalFromNothing` | apps/api/src/modules/delivery/application/delivery.use-cases.ts:803-864 | such a run from the empty tables |
| `DeliveryFulfilment.PickupSucceedsIff` | apps/api/src/modules/delivery/application/delivery.use-cases.ts:1181-1206 | when the switch to pickup succeeds, exactly |
| `DeliveryFulfilment.PickupLeavesNoDelivery` | apps/api/src/modules/delivery/application/delivery.use-cases.ts:1181-1206 | after a successful switch to pickup every delivery of the order is cancelled |
| `DeliveryFulfilment.EnsureSucceedsIff` | apps/api/src/modules/delivery/application/delivery.use-cases.ts:1225-1281 | with none active, a delivery is made exactly for a delivery order with an address, outside a transaction |
| `DeliveryFulfilment.EnsureLeavesOnePlanned` | apps/api/src/modules/delivery/application/delivery.use-cases.ts:1225-1281 | a delivery made for an order without one is its only active job and PLANNED, whatever the address lookup answers |
| `DeliveryFulfilment.PickupAndBack` | apps/api/src/modules/delivery/application/delivery.use-cases.ts:1163-1223 | a switch to pickup and back leaves exactly one active job, new and PLANNED |
| `DeliveryFulfilment.NestedSwitchSucceedsIff` | apps/api/src/modules/orders/application/order.use-cases.ts:309-372 | inside a transaction a draft changes its type exactly when no delivery has to be cancelled or made |
| `DeliveryFulfilment.NestedReadyFailsIff` | apps/api/src/modules/orders/application/order.use-cases.ts:1084-1115 | marking an order ready fails exactly when its delivery is PLANNED or ASSIGNED and so has to follow |
| `DeliveryReopened.ClosedJobCanBeReopened` | apps/api/src/modules/delivery/application/delivery.use-cases.ts:803-864 | any problem ever reported on a closed job lets a fresh key send it back into transit |
| `DeliveryReopened.DeliveredJobGoesBack` | apps/api/src/modules/delivery/application/delivery.use-cases.ts:769-864 | from any reachable state with a planned job: reported, delivered, resolved to IN_TRANSIT, all committing |
| `DeliveryReopened.PlannedJobIsReachable` | apps/api/src/modules/delivery/application/delivery.use-cases.ts:1225-1281 | such a state is reachable |
| `DeliveryOutcomes.CreateSucceedsIff` | apps/api/src/modules/delivery/application/delivery.use-cases.ts:189-316 | a delivery is created if and only if the order is a delivery order of the store with no other delivery, the address is not blank, the window is in order and the fee not negative |
| `DeliveryOutcomes.CreationWrites` | apps/api/src/modules/delivery/application/delivery.use-cases.ts:258-290 | the new DRAFT as drawn up, to be sent off the buffer before its window unless a time is given |
| `DeliveryOutcomes.PlanSucceedsIff` | apps/api/src/modules/delivery/application/delivery.use-cases.ts:318-350 | a plan commits if and only if the job is seen at its version, DRAFT or PLANNED, and its window and fee hold |
| `DeliveryOutcomes.PlanWrites` | apps/api/src/modules/delivery/application/delivery.use-cases.ts:340-375 | what was given as given, what was not as it was, and the dispatch time drawn up anew from the window |
| `DeliveryOutcomes.AddressSucceedsIff` | apps/api/src/modules/delivery/application/delivery.use-cases.ts:377-438 | when a new address is taken and what it writes: the line, and no coordinates |
| `DeliveryOutcomes.GeocodeSucceedsIff` | apps/api/src/modules/delivery/application/delivery.use-cases.ts:440-470 | a lookup fails only for the version or its service; an unknown address keeps the coordinates |
| `DeliveryOutcomes.PinSucceedsIff` | apps/api/src/modules/delivery/application/delivery.use-cases.ts:472-495 | a pin is taken at any status, at the version named |
| `DeliveryOutcomes.AssignSucceedsIff` | apps/api/src/modules/delivery/domain/delivery-rules.ts:171-189 | an assignment commits if and only if the job is seen at its version, is DRAFT, PLANNED, READY_FOR_DISPATCH or ASSIGNED, and the courier is an active one of the organization |
| `DeliveryOutcomes.AssignmentWrites` | apps/api/src/modules/delivery/application/delivery.use-cases.ts:497-546 | the courier written, READY_FOR_DISPATCH kept and anything else ASSIGNED; the open assignment closed and the new one behind it |
| `DeliveryOutcomes.ReleaseSucceedsIff` | apps/api/src/modules/delivery/application/delivery.use-cases.ts:560-589 | a release takes the courier off at any status, ASSIGNED goes back to PLANNED, and the open assignment is closed |
| `DeliveryOutcomes.MarkReadySucceedsIff` | apps/api/src/modules/delivery/application/delivery.use-cases.ts:591-623 | from PLANNED, ASSIGNED or READY_FOR_DISPATCH, once the order is ready, to READY_FOR_DISPATCH |
| `DeliveryOutcomes.HandoverSucceedsIff` | apps/api/src/modules/delivery/application/delivery.use-cases.ts:625-654 | from READY_FOR_DISPATCH or ASSIGNED, once the order is ready; only the time is written |
| `DeliveryOutcomes.DepartSucceedsIff` | apps/api/src/modules/delivery/application/delivery.use-cases.ts:656-690 | from READY_FOR_DISPATCH, ASSIGNED or IN_TRANSIT, and not by taxi or another service without courier and reference; a handover not yet recorded is recorded |
| `DeliveryOutcomes.DeliverSucceedsIff` | apps/api/src/modules/delivery/application/delivery.use-cases.ts:692-723 | when completing a delivery is accepted, exactly, repeated keys included |
| `DeliveryOutcomes.DeliveryWrites` | apps/api/src/modules/delivery/application/delivery.use-cases.ts:692-723 | DELIVERED with its time and its key bound, or nothing for a repeated key |
| `DeliveryOutcomes.CancellationSucceedsIff` | apps/api/src/modules/delivery/application/delivery.use-cases.ts:725-767 | when a cancellation is accepted, exactly, repeated keys included |
| `DeliveryOutcomes.CancellationWrites` | apps/api/src/modules/delivery/application/delivery.use-cases.ts:725-767 | CANCELLED with its time and no courier, the open assignment closed and the key bound, or nothing for a repeated key |
| `DeliveryOutcomes.ReportSucceedsIff` | apps/api/src/modules/delivery/application/delivery.use-cases.ts:769-801 | from PLANNED, READY_FOR_DISPATCH, ASSIGNED or IN_TRANSIT; an open record and the status |
| `DeliveryOutcomes.ResolveSucceedsIff` | apps/api/src/modules/delivery/application/delivery.use-cases.ts:803-864 | when a resolution is accepted, exactly: the record found, the target allowed, the version named, and no second delivery revived |
| `DeliveryOutcomes.ResolutionWrites` | apps/api/src/modules/delivery/application/delivery.use-cases.ts:837-864 | the target with its time, the record resolved and the key bound, or nothing for a repeated key |
| `DeliveryOutcomes.ReadyOutcome` | apps/api/src/modules/delivery/application/delivery.use-cases.ts:1134-1160 | the delivery of an order marked ready follows if and only if it is PLANNED or ASSIGNED, and never inside a transaction |
| `DeliveryOutcomes.NothingToFollow` | apps/api/src/modules/delivery/application/delivery.use-cases.ts:1134-1206 | an order without a delivery is marked ready or switched to pickup without a write |
| `DeliveryOutcomes.EnsureKeepsTheOneThereIs` | apps/api/src/modules/delivery/application/delivery.use-cases.ts:1225-1240 | an order that has its delivery is not given another |
| `DeliveryOutcomes.PickupWrites` | apps/api/src/modules/delivery/application/delivery.use-cases.ts:1181-1206 | the switch to pickup cancels the delivery and releases its courier |
| `DeliveryOutcomes.EnsureWrites` | apps/api/src/modules/delivery/application/delivery.use-cases.ts:1225-1281 | the delivery made for an order: own courier, no fee, the two hours from when it is ready, to be sent off the buffer before, with the looked-up coordinates if there are any |
| `DeliveryOutcomes.ProfileSucceedsIff` | apps/api/prisma/migrations/20260717000000_delivery_operations/migration.sql:163-164 | a courier profile is created if and only if the membership has none |
| `DeliveryOutcomes.SyncOutcome` | apps/api/src/modules/delivery/application/delivery.use-cases.ts:904-940 | a sync always goes through: a COURIER has a profile that is not archived, anybody else none or an archived one, and no other profile moves |
| `DeliveryRefusals.CreateRefusal` | apps/api/src/modules/delivery/application/delivery.use-cases.ts:189-316 | creating a delivery that is refused in a reachable state names a reason that holds, and can be refused for no other |
| `DeliveryRefusals.PlanRefusal` | apps/api/src/modules/delivery/application/delivery.use-cases.ts:318-375 | a plan that is refused in a reachable state names a reason that holds, and can be refused for no other |
| `DeliveryRefusals.AddressRefusal` | apps/api/src/modules/delivery/application/delivery.use-cases.ts:377-438 | a new address that is refused in a reachable state names a reason that holds, and can be refused for no other |
| `DeliveryRefusals.GeocodeRefusal` | apps/api/src/modules/delivery/application/delivery.use-cases.ts:440-470 | a lookup that is refused in a reachable state names a reason that holds, and can be refused for no other |
| `DeliveryRefusals.AssignRefusal` | apps/api/src/modules/delivery/application/delivery.use-cases.ts:497-546 | an assignment that is refused in a reachable state names a reason that holds, and can be refused for no other |
| `DeliveryRefusals.ReleaseRefusal` | apps/api/src/modules/delivery/application/delivery.use-cases.ts:560-589 | a release that is refused in a reachable state names a reason that holds, and can be refused for no other |
| `DeliveryRefusals.MarkReadyRefusal` | apps/api/src/modules/delivery/application/delivery.use-cases.ts:591-623 | marking a job ready that is refused in a reachable state names a reason that holds, and can be refused for no other |
| `DeliveryRefusals.HandoverRefusal` | apps/api/src/modules/delivery/application/delivery.use-cases.ts:625-654 | a handover that is refused in a reachable state names a reason that holds, and can be refused for no other |
| `DeliveryRefusals.DepartRefusal` | apps/api/src/modules/delivery/application/delivery.use-cases.ts:656-690 | a departure that is refused in a reachable state names a reason that holds, and can be refused for no other |
| `DeliveryRefusals.DeliverRefusal` | apps/api/src/modules/delivery/application/delivery.use-cases.ts:692-723 | a completion that is refused in a reachable state names a reason that holds, and can be refused for no other |
| `DeliveryRefusals.CancelRefusal` | apps/api/src/modules/delivery/application/delivery.use-cases.ts:725-767 | a cancellation that is refused in a reachable state names a reason that holds, and can be refused for no other |
| `DeliveryRefusals.ReportRefusal` | apps/api/src/modules/delivery/application/delivery.use-cases.ts:769-801 | a report that is refused in a reachable state names a reason that holds, and can be refused for no other |
| `DeliveryRefusals.ResolveRefusal` | apps/api/src/modules/delivery/application/delivery.use-cases.ts:803-864 | a resolution that is refused in a reachable state names a reason that holds, and can be refused for no other |
| `DeliveryRefusals.EnsureRefusal` | apps/api/src/modules/delivery/application/delivery.use-cases.ts:1225-1281 | making a delivery for an order that is refused in a reachable state names a reason that holds, and can be refused for no other |
| `DeliveryRefusals.PickupRefusal` | apps/api/src/modules/delivery/application/delivery.use-cases.ts:1181-1206 | a switch to pickup that is refused in a reachable state names a reason that holds, and can be refused for no other |
| `DeliveryRefusals.ReadyIsRefusedOnlyNested` | apps/api/src/modules/delivery/application/delivery.use-cases.ts:1134-1160 | outside a transaction a delivery always follows its order's readiness |
| `DeliveryService.DeliveryDatabase.UpdateJob` | apps/api/src/modules/delivery/infrastructure/prisma-delivery.repository.ts:217-244 | the row is replaced only at its expected version, one version on, and only if the order index admits it |
| `DeliveryService.DeliveryDatabase.ReleaseActiveAssignment` | apps/api/src/modules/delivery/infrastructure/prisma-delivery.repository.ts:260-275 | the first open assignment found is released in place, all else kept |
| `DeliveryService.DeliveryDatabase.ClaimIdempotency` | apps/api/src/modules/delivery/application/delivery.use-cases.ts:140-166 | a new key is bound, a bound one is a replay or a conflict |
| `DeliveryService.DeliveryDatabase.CreateDelivery` | apps/api/src/modules/delivery/application/delivery.use-cases.ts:189-316 | creating a job, with its checks in their order: does what its command function says |
| `DeliveryService.DeliveryDatabase.PlanDelivery` | apps/api/src/modules/delivery/application/delivery.use-cases.ts:318-375 | planning a job: does what its command function says |
| `DeliveryService.DeliveryDatabase.UpdateAddress` | apps/api/src/modules/delivery/application/delivery.use-cases.ts:377-438 | a new address drops the coordinates: does what its command function says |
| `DeliveryService.DeliveryDatabase.GeocodeDelivery` | apps/api/src/modules/delivery/application/delivery.use-cases.ts:440-470 | two writes around the lookup, all or nothing: does what its command function says |
| `DeliveryService.DeliveryDatabase.SetCoordinatesManual` | apps/api/src/modules/delivery/application/delivery.use-cases.ts:472-495 | a pin placed by hand: does what its command function says |
| `DeliveryService.DeliveryDatabase.AssignCourier` | apps/api/src/modules/delivery/application/delivery.use-cases.ts:497-546 | release, create, update; a failed version check undoes the first two: does what its command function says |
| `DeliveryService.DeliveryDatabase.ReleaseCourier` | apps/api/src/modules/delivery/application/delivery.use-cases.ts:560-589 | release and update, all or nothing: does what its command function says |
| `DeliveryService.DeliveryDatabase.SyncCourierMembership` | apps/api/src/modules/delivery/application/delivery.use-cases.ts:904-940 | the courier profile follows the role: does what its command function says |
| `DeliveryService.DeliveryDatabase.MarkReadyForDispatch` | apps/api/src/modules/delivery/application/delivery.use-cases.ts:591-623 | guarded by the order's readiness: does what its command function says |
| `DeliveryService.DeliveryDatabase.Handover` | apps/api/src/modules/delivery/application/delivery.use-cases.ts:625-654 | guarded by the order's readiness: does what its command function says |
| `DeliveryService.DeliveryDatabase.StartTransit` | apps/api/src/modules/delivery/application/delivery.use-cases.ts:656-690 | departure, and handover if it was not recorded: does what its command function says |
| `DeliveryService.DeliveryDatabase.MarkDelivered` | apps/api/src/modules/delivery/application/delivery.use-cases.ts:692-723 | key, guard, update; a failure unbinds the key: does what its command function says |
| `DeliveryService.DeliveryDatabase.CancelDelivery` | apps/api/src/modules/delivery/application/delivery.use-cases.ts:725-767 | key, guard, release, update; a failure undoes them: does what its command function says |
| `DeliveryService.DeliveryDatabase.ReportProblem` | apps/api/src/modules/delivery/application/delivery.use-cases.ts:769-801 | a problem record and the status, all or nothing: does what its command function says |
| `DeliveryService.DeliveryDatabase.ResolveProblem` | apps/api/src/modules/delivery/application/delivery.use-cases.ts:803-864 | key, record, guard, two writes, all or nothing: does what its command function says |
| `DeliveryService.DeliveryDatabase.OnOrderMarkedReady` | apps/api/src/modules/delivery/application/delivery.use-cases.ts:1134-1160 | the job follows its order, at the version just read: does what its command function says |
| `DeliveryService.DeliveryDatabase.EnsureDeliveryForOrder` | apps/api/src/modules/delivery/application/delivery.use-cases.ts:1225-1281 | three transactions, of which an earlier one stays when a later one fails, and the lookup's failure is swallowed: does what its command function says |
| `DeliveryService.DeliveryDatabase.SwitchToPickup` | apps/api/src/modules/delivery/application/delivery.use-cases.ts:1181-1206 | the active job is cancelled under a made-up key: does what its command function says |
| `DeliveryService.DeliveryDatabase.OnFulfillmentTypeChanged` | apps/api/src/modules/delivery/application/delivery.use-cases.ts:1163-1223 | the switch in both directions: does what its command function says |
| `RateLimiter.InMemoryRateLimiter.Consume` | apps/api/src/modules/auth/infrastructure/rate-limiter.service.ts:13-23 | the bucket map after a call and whether it was accepted |
| `RateLimiter.WindowSeesFewerThanTwiceTheLimit` | apps/api/src/modules/auth/infrastructure/rate-limiter.service.ts:13-23 | for every history with a clock that never goes back, any half-open stretch of `windowMs` sees at most `2 * limit - 1` calls accepted for a key |
| `RateLimiter.BucketLifetimeSeesAtMostTheLimit` | apps/api/src/modules/auth/infrastructure/rate-limiter.service.ts:13-23 | a bucket's count is the number of calls accepted in its lifetime, from 1 to the limit |
| `RateLimiter.CallIsRefusedIff` | apps/api/src/modules/auth/infrastructure/rate-limiter.service.ts:13-23 | from the accepted times alone: a call is refused if and only if the window last opened is still running and has accepted the limit |
| `RateLimiter.WorstCaseIsReached` | apps/api/src/modules/auth/infrastructure/rate-limiter.service.ts:13-23 | the bound cannot be lowered: a history reaches it |
| `AuthRuns.TokenWorksOnce` | apps/api/src/modules/auth/application/auth.use-cases.ts:277-348 | over a whole run no refresh token is accepted twice, provided tokens are never drawn twice |
| `AuthRuns.RunKeepsHashes` | apps/api/src/modules/identity/infrastructure/prisma-session.repository.ts:29-83 | in every reachable state no two sessions share a hash, every hash is of a token handed out in the run, and each session is alone in its family |
| `AuthRuns.ClosedSessionStaysClosed` | apps/api/src/modules/identity/infrastructure/prisma-session.repository.ts:75-120 | a session that has stopped being ACTIVE is never ACTIVE again |
| `AuthRuns.RefreshSucceedsIff` | apps/api/src/modules/auth/application/auth.use-cases.ts:290-330 | a refresh goes through if and only if it is not throttled and the newest session with the token's hash is open and not overdue, its membership active and its user active and not locked |
| `AuthRuns.RotatedTokenRevokesNothing` | docs/development/session-management.md:13-16 | presenting a rotated token again changes nothing: the promised revocation of the whole family does not happen |
| `AuthRuns.ReplayedTokenSparesTheSession` | apps/api/src/modules/auth/application/auth.use-cases.ts:277-300 | a run: a login, a refresh, and the first token again is refused while the session stays active |
| `AuthRuns.RefusedRefreshSparesOthers` | apps/api/src/modules/auth/application/auth.use-cases.ts:294-307 | in a reachable state a refused refresh changes no session but the one whose token was presented |
| `AuthRuns.InactiveUserHasNoSession` | apps/api/src/modules/identity/application/user-management.use-cases.ts:113-137 | in every reachable state a BLOCKED or ARCHIVED user has no ACTIVE session |
| `AuthRuns.NewPasswordEndsOtherSessions` | apps/api/src/modules/auth/application/auth.use-cases.ts:427-456 | a new password ends every session of the user but the one it was changed from |
| `AuthLockout.CounterIsTheHistory` | apps/api/src/modules/auth/application/auth.use-cases.ts:82-107 | the failure counter is the number of counted failures since the last login that went through; the lock is set exactly when it has reached the maximum, to the last of them plus the lockout |
| `AuthLockout.NothingPassesTheLock` | apps/api/src/modules/identity/domain/identity-rules.ts:34-41 | while the last of at least `maxAttempts` failures is less than the lockout ago, no login and no refresh goes through for the user |
| `AuthLockout.LockedUserIsRefused` | apps/api/src/modules/auth/application/auth.use-cases.ts:119-125 | even the right password counts against a locked user and pushes the lock out |
| `AuthLockout.LoginSucceedsIff` | apps/api/src/modules/auth/application/auth.use-cases.ts:109-176 | a login goes through if and only if it is not throttled, the password is right, the account active and not locked, the code right where one is needed, and there is an active membership in the organization asked for, or exactly one when none is |
| `AuthOutcomes.LoginWrites` | apps/api/src/modules/auth/application/auth.use-cases.ts:127-190 | the new session: in the active membership asked for, or the user's only active one, alone in its family, under its token's hash, for the full lifetime; failures and lock forgotten |
| `AuthOutcomes.LoginAnswers` | apps/api/src/modules/auth/application/auth.use-cases.ts:75-160 | what any other login answers, exactly |
| `AuthOutcomes.UnsuccessfulLoginWrites` | apps/api/src/modules/auth/application/auth.use-cases.ts:82-107 | a failed login counts itself and sets the lock at the maximum; a throttled one, a choice still to make and a missing code write nothing |
| `AuthOutcomes.RefreshWrites` | apps/api/src/modules/auth/application/auth.use-cases.ts:318-335 | a refresh renews the hash, the use and the whole lifetime of the session presented, and nothing else |
| `AuthOutcomes.RefusedRefreshWrites` | apps/api/src/modules/auth/application/auth.use-cases.ts:284-317 | what a refused refresh answers and writes: a revoked session's family revoked, an overdue session expired, one without a membership revoked, else nothing |
| `AuthOutcomes.UnknownTokenIsRefused` | apps/api/src/modules/auth/application/auth.use-cases.ts:284-293 | a token of no session is refused without a write |
| `AuthOutcomes.LogoutAllWrites` | apps/api/src/modules/auth/application/auth.use-cases.ts:366-373 | every open session of the user but the excepted one is revoked, no other session moves |
| `AuthOutcomes.RevokeSucceedsIff` | apps/api/src/modules/auth/application/auth.use-cases.ts:409-425 | a session is revoked if and only if it is the user's own |
| `AuthOutcomes.ChangePasswordSucceedsIff` | apps/api/src/modules/auth/application/auth.use-cases.ts:427-464 | ten characters, a known user and the current password are asked for, in this order; the password and the user's other sessions change |
| `AuthOutcomes.ResetPasswordSucceedsIff` | apps/api/src/modules/identity/application/user-management.use-cases.ts:139-148 | ten characters and a membership in the organization are asked for; the password and every session of the user change |
| `AuthOutcomes.DeactivateSucceedsIff` | apps/api/src/modules/identity/application/user-management.use-cases.ts:113-137 | a membership in the organization is asked for; the status and every session of the user change |
| `AuthOutcomes.UnblockSucceedsIff` | apps/api/src/modules/identity/application/user-management.use-cases.ts:122-128 | the status alone goes back to ACTIVE |
| `AuthService.AuthDatabase.LogIn` | apps/api/src/modules/auth/application/auth.use-cases.ts:65-204 | login's branches in their order, failures counted as they happen |
| `AuthService.AuthDatabase.FailLogin` | apps/api/src/modules/auth/application/auth.use-cases.ts:82-107 | one counted failure: the counter, the lock, nothing else |
| `AuthService.AuthDatabase.RefreshTokens` | apps/api/src/modules/auth/application/auth.use-cases.ts:277-348 | refresh's branches in their order |
| `AuthService.AuthDatabase.RevokeUserSessions` | apps/api/src/modules/identity/infrastructure/prisma-session.repository.ts:106-120 | exactly the user's ACTIVE sessions, but for the exception, become REVOKED |
| `AuthService.AuthDatabase.RevokeSessionFamily` | apps/api/src/modules/identity/infrastructure/prisma-session.repository.ts:99-104 | exactly the family's ACTIVE sessions become REVOKED |
| `AuthService.AuthDatabase.LogOut` | apps/api/src/modules/auth/application/auth.use-cases.ts:350-364 | one session is revoked, if there is one |
| `AuthService.AuthDatabase.LogOutAll` | apps/api/src/modules/auth/application/auth.use-cases.ts:366-373 | exactly the ACTIVE sessions of the user, but for the excepted one, become REVOKED |
| `AuthService.AuthDatabase.RevokeSession` | apps/api/src/modules/auth/application/auth.use-cases.ts:409-425 | only the user's own session can be revoked |
| `AuthService.AuthDatabase.ChangeOwnPassword` | apps/api/src/modules/auth/application/auth.use-cases.ts:427-464 | policy, current password, update, other sessions |
| `AuthService.AuthDatabase.DeactivateUser` | apps/api/src/modules/identity/application/user-management.use-cases.ts:113-137 | the status and the end of every session |
| `AuthService.AuthDatabase.UnblockUser` | apps/api/src/modules/identity/application/user-management.use-cases.ts:122-128 | the status alone: counter and lock stay |
| `AuthService.AuthDatabase.ResetUserPassword` | apps/api/src/modules/identity/application/user-management.use-cases.ts:139-148 | the password and the end of every session |
| `DocumentNumbers.CleanPrefixIsIdempotent` | apps/api/src/infrastructure/ids/allocate-document-number.ts:6-14 | a cleaned prefix is left alone by cleaning it again |
| `DocumentNumbers.DocumentNumberRoundTrip` | apps/api/src/infrastructure/ids/allocate-document-number.ts:57-62 | parsing a printed number gives its serial back exactly when it has at most eight digits; otherwise nothing |
| `DocumentNumbers.SequentialCodeRoundTrip` | apps/api/src/infrastructure/ids/allocate-sequential-code.ts:11-26 | the same for catalog codes |
| `DocumentNumbers.PrintingUndoesParsingIff` | apps/api/src/infrastructure/ids/allocate-document-number.ts:23-26 | printing a parsed number gives it back if and only if it is written as the printer writes it |
| `DocumentNumbers.DocumentNumberIsInjective` | apps/api/src/infrastructure/ids/allocate-document-number.ts:23-26 | a number determines its cleaned prefix, its day and its serial |
| `DocumentNumbers.SequentialCodeIsInjective` | apps/api/src/infrastructure/ids/allocate-sequential-code.ts:11-15 | a code determines its cleaned prefix and its serial |
| `DocumentNumbers.DatedNumberIsNoCode` | apps/api/src/infrastructure/ids/allocate-sequential-code.ts:17-26 | a dated number is never read as a catalog code |
| `NumberReading.DayKeyReads` | apps/api/src/infrastructure/ids/allocate-document-number.ts:16-21 | the day is printed as digits that read 10000 * year + 100 * month + day, four of them behind the year's |
| `NumberReading.EarlierDayHasSmallerKey` | apps/api/src/infrastructure/ids/allocate-document-number.ts:16-21 | of two days the earlier one has the smaller key, and only that one |
| `NumberReading.SerialReads` | apps/api/src/infrastructure/ids/allocate-document-number.ts:23-26 | a serial is printed with four digits, or as many as it takes without a leading zero, and reads back |
| `NumberReading.CleanPrefixIsTheLetters` | apps/api/src/infrastructure/ids/allocate-document-number.ts:6-14 | a cleaned prefix is the first eight letters and digits of the prefix in capitals, or X when it has none |
| `NumberReading.ParsesIff` | apps/api/src/infrastructure/ids/allocate-document-number.ts:57-62 | a serial is read if and only if one to eight digits and nothing else stand behind the head |
| `NumberAllocation.AllocateDocumentNumber` | apps/api/src/infrastructure/ids/allocate-document-number.ts:33-56 | the loop returns the first free number of 500 from the start, or nothing when all are taken |
| `NumberReading.AllocatedNumberReads` | apps/api/src/infrastructure/ids/allocate-document-number.ts:33-56 | whatever is allocated is free and made of the cleaned prefix, the key of the day asked for and a serial from the start on, each read as numbers |
| `NumberReading.MaxSerialIsTheHighest` | apps/api/src/infrastructure/ids/org-document-number.ts:20-28 | the serial found is an upper bound of all under the head and, unless it is 0, one of them |
| `NumberAllocation.MaxSeqForDay` | apps/api/src/infrastructure/ids/org-document-number.ts:20-28 | the loop returns the highest serial among the numbers under the day's prefix |
| `NumberAllocation.AllocateOrgDocumentNumber` | apps/api/src/infrastructure/ids/org-document-number.ts:10-31 | the first free number behind the highest stored one |
| `NumberAllocation.AllocateUniqueCode` | apps/api/src/infrastructure/ids/allocate-unique-code.ts:10-33 | with a listing behind its highest serial, without one from 1 |
| `NumberAllocation.AllocateSequentialCode` | apps/api/src/infrastructure/ids/allocate-sequential-code.ts:32-62 | both loops: the highest serial, then the first free code |
| `NumberReading.AllocatedCodeReads` | apps/api/src/infrastructure/ids/allocate-sequential-code.ts:32-62 | the same for a catalog code, which carries no day |
| `NumberAllocation.FirstFreeIsUnique` | apps/api/src/infrastructure/ids/allocate-document-number.ts:47-53 | the allocated number is determined by what is stored |
| `NumberAllocation.FirstAttemptIsFreeIff` | apps/api/src/infrastructure/ids/allocate-document-number.ts:38-53 | with a complete listing the first attempt is free unless the eight digits are used up and the nine-digit number is stored |
| `NumberAllocation.NineDigitsAreMissed` | apps/api/src/infrastructure/ids/allocate-document-number.ts:57-62 | with the last eight-digit and the first nine-digit serial stored, the first attempt is taken |
| `NumberAllocation.EveryRequestGetsTheNextNumber` | apps/api/src/infrastructure/ids/org-document-number.ts:10-31 | in any interleaving of requests for different prefixes and days every request is served, with a number nobody had and the serials of each prefix and day consecutive |
| `NumberAllocation.OtherHeadsDoNotCount` | apps/api/src/infrastructure/ids/allocate-document-number.ts:57-62 | numbers of other prefixes or days are never counted |
| `RoleRuns.FloristsKeepAStore` | apps/api/src/modules/identity/application/user-management.use-cases.ts:150-209 | over any run every FLORIST membership has SELECTED_STORES with at least one store |
| `RoleRuns.OrganizationKeepsADirector` | apps/api/src/modules/identity/application/user-management.use-cases.ts:155-165 | an organization with an active director keeps one over any run |
| `RoleRuns.LosesUsableDirectorIff` | apps/api/src/modules/identity/application/user-management.use-cases.ts:113-165 | an organization loses its last director who can log in exactly when a block, an archiving, a deletion or a role change that passes its checks, spelled out, hits the only one; none of those checks looks at the accounts |
| `RoleRuns.OnlyDirectorCanBeBlocked` | apps/api/src/modules/identity/application/user-management.use-cases.ts:113-128 | a run: a new organization's only director is blocked, and nobody is left who can log in |
| `RoleRuns.LoggedInMemberIsNeverDeleted` | apps/api/prisma/migrations/20260715230000_identity_and_access/migration.sql:166-166 | a membership that a session row refers to can never be deleted: the delete comes before the sessions' |
| `RoleRuns.AssignedRoles` | apps/api/src/modules/identity/infrastructure/prisma-identity.repository.ts:254-268 | after an assignment the member holds exactly the codes asked for and nobody else's roles moved |
| `RoleRuns.AccessAsSet` | apps/api/src/modules/identity/infrastructure/prisma-identity.repository.ts:278-305 | after store access is set the member has exactly the chosen stores and nobody else's moved |
| `RoleOutcomes.AssignSucceedsIff` | apps/api/src/modules/identity/application/user-management.use-cases.ts:150-187 | roles are assigned if and only if they are known and named once, a member made a florist has a store already, and there are two active directors when a director is to lose the role |
| `RoleOutcomes.AssignmentWrites` | apps/api/src/modules/identity/infrastructure/prisma-identity.repository.ts:254-268 | only the member's role rows change, to the codes asked for |
| `RoleOutcomes.AccessSucceedsIff` | apps/api/src/modules/identity/application/user-management.use-cases.ts:189-209 | store access is set if and only if the stores are the organization's, named once, and a florist is left with one |
| `RoleOutcomes.AccessWrites` | apps/api/src/modules/identity/infrastructure/prisma-identity.repository.ts:278-305 | the member's mode is the one asked for, its stores the chosen ones or none with ALL_STORES, and nothing else changes |
| `RoleOutcomes.CreateUserSucceedsIff` | apps/api/src/modules/identity/application/user-management.use-cases.ts:69-111 | a user is created under a new login in an existing organization: active, for all stores, without a role |
| `RoleOutcomes.CreateDirectorSucceedsIff` | apps/api/src/modules/identity/application/create-director.use-cases.ts:56-170 | an organization, and for an existing login the wish to attach it, are asked for; user and membership are made as far as they are missing |
| `RoleOutcomes.SetStatusSucceedsIff` | apps/api/src/modules/identity/application/user-management.use-cases.ts:113-137 | a membership is asked for; the status is the user's, in every organization |
| `RoleOutcomes.DeleteSucceedsIff` | apps/api/src/modules/deletions/application/entity-hard-delete.service.ts:147-181 | a member is deleted if and only if no session refers to it and, when it is a director, there are two active directors |
| `RoleOutcomes.DeletionWrites` | apps/api/src/modules/deletions/application/entity-hard-delete.service.ts:147-181 | the membership goes with its rows; the user and the sessions go with the last membership |
| `RoleOutcomes.AssignRefusal` | apps/api/src/modules/identity/application/user-management.use-cases.ts:150-187 | a refused assignment names a reason that holds |
| `RoleOutcomes.AccessRefusal` | apps/api/src/modules/identity/application/user-management.use-cases.ts:189-209 | refused store access names a reason that holds |
| `RoleOutcomes.TwoDirectorsIff` | apps/api/src/modules/identity/infrastructure/prisma-identity.repository.ts:371-378 | counting more than one director row tells exactly that two members are active directors |
| `RoleService.IdentityDatabase.AssignRoles` | apps/api/src/modules/identity/application/user-management.use-cases.ts:150-187 | checks in their order, then rows replaced, or no trace |
| `RoleService.IdentityDatabase.ReplaceMembershipRoles` | apps/api/src/modules/identity/infrastructure/prisma-identity.repository.ts:254-268 | delete all, then create one by one; a repeated code is refused |
| `RoleService.IdentityDatabase.SetStoreAccess` | apps/api/src/modules/identity/application/user-management.use-cases.ts:189-209 | checks in their order, then rows replaced, or no trace |
| `RoleService.IdentityDatabase.ReplaceStoreAccess` | apps/api/src/modules/identity/infrastructure/prisma-identity.repository.ts:278-305 | mode, delete all, create one by one; a repeated store is refused |
| `RoleService.IdentityDatabase.CreateUser` | apps/api/src/modules/identity/application/user-management.use-cases.ts:69-111 | user and membership, or no trace |
| `RoleService.IdentityDatabase.CreateDirector` | apps/api/src/modules/identity/application/create-director.use-cases.ts:56-170 | user, membership and role as far as they are missing |
| `RoleService.IdentityDatabase.SetUserStatus` | apps/api/src/modules/identity/application/user-management.use-cases.ts:113-137 | the status of the user, in every organization |
| `RoleService.IdentityDatabase.DeleteOrgUser` | apps/api/src/modules/deletions/application/entity-hard-delete.service.ts:147-181 | the deletes in their order, or no trace |
| `Money.RoundIsNearest` | packages/shared-kernel/src/money.ts:139-142 | the rounded amount is a whole number of units, at most half a unit away, and at a tie the one further from zero |
| `Money.RoundIsIdempotent` | packages/shared-kernel/src/money.ts:139-142 | rounding a rounded amount to as many places or more changes nothing |
| `Money.RoundIsMonotone` | packages/shared-kernel/src/money.ts:139-142 | rounding keeps order |
| `Money.RoundIsOdd` | packages/shared-kernel/src/money.ts:139-142 | rounding treats both signs alike |
| `Money.PrintedAmountReadsBack` | packages/shared-kernel/src/money.ts:144-151 | reading a printed amount gives exactly the amount rounded to the places printed |
| `Money.PrintingIsStableIff` | packages/shared-kernel/src/money.ts:144-146 | a printed amount read and printed again is the same text unless it was a negative amount that rounds to zero |
| `Money.MinusZeroLosesItsSign` | packages/shared-kernel/src/money.ts:139-151 | -0.001 prints as -0.00, which reads as zero and prints as 0.00 |
| `Money.PlainIsNormal` | packages/shared-kernel/src/decimal-string.ts:1-4 | a printed amount is already in normal form |
| `MoneyText.PrintedForm` | packages/shared-kernel/src/money.ts:144-146 | an amount is printed with its sign, a whole part without leading zeros and exactly the places asked for, which together are the rounded amount in units of the last place |
| `MoneyText.ParsesIff` | packages/shared-kernel/src/money.ts:34-45 | a text is read as an amount if and only if, spaces aside, it is a sign or none, digits, a dot or comma or none and digits, at least one digit; the amount is what is written |
| `Composition.AggregateCompositionNeeds` | apps/backoffice/src/lib/order-composition-stock.ts:42-60 | the loop's result: each item asked for once, in order of first mention, with its first name and its total |
| `Composition.NameIsOfTheFirstAsk` | apps/backoffice/src/lib/order-composition-stock.ts:42-60 | the name listed is that of the first line that asks for the item |
| `Composition.ItemsComeInOrder` | apps/backoffice/src/lib/order-composition-stock.ts:42-60 | items are listed in the order of the lines that first ask for them |
| `Composition.AggregationKeepsTotals` | apps/backoffice/src/lib/order-composition-stock.ts:42-60 | aggregating what is aggregated changes no total |
| `Composition.LinesToMap` | apps/backoffice/src/lib/bouquet-composition-match.ts:6-28 | the map holds exactly the items with a positive total, with that total |
| `Composition.CompositionMapsEqual` | apps/backoffice/src/lib/bouquet-composition-match.ts:30-37 | comparing sizes and one map's entries decides equality of the maps |
| `Composition.CompositionsMatch` | apps/backoffice/src/lib/bouquet-composition-match.ts:6-37 | two line lists match if and only if they ask the same total of every item |
| `Composition.TotalOfPermutation` | apps/backoffice/src/lib/bouquet-composition-match.ts:6-28 | totals do not depend on the order of the lines |
| `Composition.ScalingMultipliesTotals` | apps/backoffice/src/lib/order-composition-stock.ts:31-40 | scaling by a whole number multiplies every total by it |
| `Composition.ComputeStockShortages` | apps/backoffice/src/lib/order-composition-stock.ts:62-82 | aggregate, keep the short ones, sort by name |
| `Composition.ShortagesAreExact` | apps/backoffice/src/lib/order-composition-stock.ts:62-82 | an entry is listed if and only if its item's total need exceeds the stock, with needed, available and missing as they are |
| `Composition.EachShortageOnce` | apps/backoffice/src/lib/order-composition-stock.ts:62-82 | no item is listed twice |
| `Composition.ShortagesAreByName` | apps/backoffice/src/lib/order-composition-stock.ts:62-82 | the entries stand in the order of their names |
| `Urgency.PriorityNeverRelaxes` | apps/api/src/modules/analytics/domain/urgency.ts:41-72 | as the clock advances urgency never relaxes and the priority never gets worse, for any status, time and calendar |
| `Urgency.LevelsInMinutes` | apps/api/src/modules/analytics/domain/urgency.ts:41-53 | OVERDUE is past, URGENT within half the notice, SOON within all of it, and an order without a time NORMAL |
| `Urgency.PlacesInTheWorkspace` | apps/api/src/modules/analytics/domain/urgency.ts:56-72 | the five places: overdue, within its notice, in preparation, due today, the rest |
| `Urgency.CompareIsPreorder` | apps/api/src/modules/analytics/domain/urgency.ts:74-80 | the comparison orders any two cards, consistently |
| `Urgency.PageIsRanked` | apps/api/src/modules/analytics/domain/urgency.ts:74-80 | the sorted page holds the same cards, by priority, then by time with undated ones last, then by number |
| `Sorting.SortIsOrdered` | apps/api/src/modules/analytics/domain/urgency.ts:74-80 | sorting by such a comparison gives an ordered sequence |
| `Sorting.SortIsStable` | apps/api/src/modules/analytics/domain/urgency.ts:74-80 | sorting an ordered sequence changes nothing |
| `Sorting.SortKeepsRanked` | apps/api/src/modules/analytics/domain/urgency.ts:74-80 | rows that rank alike keep the order they came in |

## Left out

- Database isolation below serial execution, row locks and `FOR UPDATE`.
- Audit records, timeline events, permissions, HTTP mapping of errors, request context.
- Stock: the store is fixed together with its warehouse in a scope; reservation lookups in the source filter by
  organization, warehouse and item. Line results, cost of goods and cost snapshots returned to callers are not modelled.
- Stock: foreign keys, and DECIMAL ranges of the columns.
- Stock: transfers and inventory counts, whose posting code is elsewhere.
- Delivery: recipient, comments, display address, delivery date, number, provider name, release reasons and who did what; existence checks of the store and organization.
- Delivery: the address lookup itself, which is an answer given with the command; board, map, calendar and links.
- Delivery: fees finer than a hundredth, and dates that cannot be parsed.
- DeliveryService.DeliveryDatabase.EnsureDeliveryForOrder: refuses inside a transaction after the checks that come before one; it does not model a transaction opened by a caller that later rolls back.
- AuthService.AuthDatabase.LogIn: the rate limiter's answer and the code check are inputs; access tokens, TOTP enrolment and audit are not modelled.
- Users: login and password formats at creation, the courier profile sync after a role change, other tables that refer to a user.
- RoleTables: role rows name the four system roles, which the source keeps active in every organization; archived or custom roles do not occur in the modelled code.
- DocumentNumbers.CleanPrefixIsIdempotent: ASCII only; `toUpperCase` and `trim` on other characters are not modelled.
- Money: the 28-digit limit of decimal.js and exponent notation on input; currencies and arithmetic other than rounding.
- Composition: parsing quantities from text, multipliers that are not whole numbers, and the lookup of a catalog bouquet through the API.
- Urgency: board cards' labels and actions.
- Views, navigation, calendars, environment parsing, bootstrap scripts: easy or finite.
