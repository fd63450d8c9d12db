# Verified models of the invitation platform

This Dafny project models the parts of the platform where several requests, workers or crashes
meet on the same rows, and the conversions whose results other parts trust. Each transaction of
the source is one pure function on the tables it touches; a class beside it performs the same
writes in the source's order and is proved equal to that function. Reads and writes outside a
transaction are separate steps. Runs are sequences of steps, so that a statement about runs covers
every interleaving, retry and crash. The modules named after outcomes say of each transaction exactly
when it takes effect and what every row holds afterwards, without the function. `dafny verify dfyconfig.toml` checks everything.

- Guest access: `GuestAccess`, `GuestAccessSafety`, `GuestOutcomes`, `RateLimit`. Link generations, sessions and access epochs.
- Households and responses: `Households`, `HouseholdsSafety`, `HouseholdOutcomes`, `Csv`, `HouseholdCsv`, `ImportOutcomes`.
- Payments: `Payments`, `PaymentsSafety`, `PaymentOutcomes`, `CheckoutLeases`. Leased checkouts, settlement, orders, refunds, reconciliation.
- Media: `MediaWorker`, `MediaConvergence`, `MediaOutcomes`, `MediaSizes`, `MediaQuota`.
- Retention: `Retention`, `RetentionSafety`, `RetentionOutcomes`.
- Canonical forms: `StableJson`, `JsonText`, `KeyOrder`, `Snapshot`, `Brief`, `BriefSubmission`, `BriefOutcomes`, `LocalTime`. `Texts` holds JavaScript strings.

## What the proofs found

- `stableStringify` does not tell `[undefined]` from `[]` (`StableJson.LoneUndefinedPrintsAsEmpty`),
  and shows insertion order exactly for values with two different keys of one object that compare
  equal (`KeyOrder.OrderNeverShowsExactlyWhenKeysApart`; the smallest case is
  `StableJson.TiedKeysShowInsertionOrder`). Neither reaches it from its only caller:
  the schema of a snapshot has fixed keys of ASCII letters and no array of undefined elements, so a
  content hash stands for the exact snapshot (`Snapshot.SnapshotHashStandsForContent`).
- A checkout holder that answers after its 60-second lease sets the attempt back to OPEN even when
  it has been paid; no order and no refund ever finds the payment again
  (`CheckoutLeases.LateHolderHidesAPayment`, `HiddenForever`). Over all runs that happens exactly when
  the unguarded update at `lib/commerce/paymongo.ts:100` reaches a paid attempt with a session no
  other attempt has (`HiddenExactlyWhenReopened`), and never while holders are on time.
- A duplicate webhook that read its attempt before the first one settled it is refused as a
  different payment. It changes nothing, and a fresh retry is recognised (`RepeatedEvent`).
- Variants are kept apart by width and height, but stored under their width alone. Two of one width
  and unequal size can never both be stored, and the image is then neither published nor rejected. An
  upload is published exactly when none of its puts clashes (`MediaConvergence.PublishedExactlyWhenStorable`);
  which image sizes clash is `MediaSizes.StuckExactlyWhenRoundedTogether`. A 2001x10000 image does: its
  variants are 480x2399 and 480x2400 (`MediaSizes.TallImageSharesAPath`, `TallUploadIsStuck`).
- An edit that supplies one seat id twice is accepted and leaves a gap in the display orders
  (`HouseholdsSafety.NumberedExactlyWhenDistinct`).
- The allowance of 12 media objects can be exceeded: a run reaches 13 (`MediaQuota.ThirteenLiveObjects`).
  It holds throughout a run exactly when no worker or finalisation ends by writing a row that was
  deleted meanwhile, in an order that is full (`MediaQuota.AllowanceHoldsExactly`).
- `docs/operations.md:72` asks for exact CSV columns. The reader takes the four columns in any order
  and ignores others; the model follows the reader.

## Model

| member | source | states |
|---|---|---|
| Csv.ParseCsv | lib/guests/csv.ts:34-53 | the reading loop ends although it also advances its index inside, and computes the character machine that the CSV lemmas are about |
| Csv.ScanDoubled | lib/guests/csv.ts:41-43 | inside quotes, doubled quotes come back single and the closing quote ends the cell, whatever follows |
| Csv.ExportRoundTrip | lib/guests/csv.ts:28-53 | reading an exported table gives back every cell: unchanged unless it began a formula, then with an apostrophe; no cell read begins one |
| Csv.RefusedExactlyOnOddQuotes | lib/guests/csv.ts:41-50 | a text is refused exactly when it holds an odd number of quotes |
| HouseholdCsv.EveryImportIsCanonical | lib/guests/csv.ts:3-26 | an accepted import is at most 500 households, each valid for the household schema: trimmed names without semicolons, adults first, then children, then at most ten unnamed extra adults |
| ImportOutcomes.ImportedExactlyWhen | lib/guests/csv.ts:3-26 | a file is imported exactly when it is a table of at most 500 rows under a header with the four columns and each row with something in it can be read; each becomes its household, in order |
| ImportOutcomes.RowReadExactlyWhen | lib/guests/csv.ts:14-25 | a row is read exactly within the limits of title, names, extra seats and seats in all, and its household has the named adults, then the named children, then the extra adults |
| ImportOutcomes.SplitCutsAtSemicolons | lib/guests/csv.ts:12 | a cell is cut at every semicolon and nowhere else |
| ImportOutcomes.ColumnsAreWords | lib/guests/csv.ts:6-9 | a column is recognised by its name in letters of either case, with spaces around it |
| HouseholdCsv.WrittenHouseholdsComeBack | lib/guests/csv.ts:3-32 | households written with the export's cells are read back exactly, with the four columns in any order |
| StableJson.ReadPrinted | lib/invitation/compiler.ts:63-67 | a reader recovers the tree with sorted keys from the printed text followed by any delimiter |
| StableJson.TextDeterminesValue | lib/invitation/compiler.ts:63-67 | equal texts come only from values equal up to object key order and lone undefined elements, whatever the key comparison |
| StableJson.SameTextExactlyWhenSameValue | lib/invitation/compiler.ts:63-67 | with a linear key order under which the keys of each object differ, two values print the same text exactly when they are equal up to key order and lone undefined elements |
| StableJson.ContentHashStandsForContent | lib/invitation/compiler.ts:53 | for values without a lone undefined element, equal hashes mean equal content, the digest being injective |
| JsonText.PrintedIsWellFormed | lib/invitation/compiler.ts:63-67 | every printed text has no control character and no unpaired surrogate, so that encoding it as UTF-8 loses nothing |
| JsonText.HashStandsForContent | lib/invitation/compiler.ts:53 | so a digest injective on well-formed texts is enough for equal hashes to mean equal content |
| StableJson.LoneUndefinedPrintsAsEmpty | lib/invitation/compiler.ts:64 | an array of one undefined prints like the empty array, though they differ |
| KeyOrder.OrderNeverShowsExactlyWhenKeysApart | lib/invitation/compiler.ts:63-67 | for any value and linear key order, every value equal to it up to key order prints the same text exactly when no two keys of one object compare equal anywhere in it |
| KeyOrder.SortIsStable | lib/invitation/compiler.ts:65 | of two keys that compare equal, the sort leaves the one inserted first in front |
| Snapshot.ConformingIsHashable | lib/invitation/config.ts:45-71 | whatever a strict schema of ASCII-letter keys lets through has no lone undefined element and no two keys that compare equal |
| Snapshot.SnapshotHashStandsForContent | lib/invitation/compiler.ts:21-53 | two compiled snapshots have equal hashes exactly when their contents are equal, and the order of their keys never shows |
| LocalTime.LocalDateTimeToInstant | components/portal/portal-workspace.tsx:209-224 | the loop of two corrections computes the twice-corrected instant |
| LocalTime.TwoStepsReachTheWallTime | components/portal/portal-workspace.tsx:215-221 | with at most one offset change within 14 hours, the result shows the wall time exactly when some instant does |
| LocalTime.TypedTimeIsShownAgain | components/portal/portal-workspace.tsx:198-224 | the form then shows the time that was typed |
| RateLimit.RateLimits.Enforce | lib/guests/service.ts:313-323 | the counter of the caller's minute grows by one, and the call passes exactly when it was below the limit before |
| RateLimit.RateLimits.DeleteOldWindows | lib/operations/retention.ts:41 | exactly the windows older than a day are deleted |
| RateLimit.OpenWindowsCountCalls | lib/operations/retention.ts:41 | while time moves forward, an open window's counter is the number of its calls whatever the sweeps deleted |
| RateLimit.AcceptedExactlyBelowLimit | lib/guests/service.ts:318-322 | a call passes exactly when fewer than the limit came before it in its minute |
| RateLimit.AlignedMinuteBound | lib/guests/service.ts:313-323 | in each aligned minute exactly the first calls up to the limit pass |
| RateLimit.SlidingMinuteBound | lib/guests/service.ts:313-323 | in any 60 seconds, aligned or not, at most twice the limit pass |
| GuestAccess.GuestStore.CreateHousehold | lib/guests/service.ts:62-77 | a household with its first link, unless the limit of 500 or a unique column refuses it |
| GuestAccess.GuestStore.ImportHouseholds | lib/guests/service.ts:79-98 | all rows of an import or none |
| GuestAccess.GuestStore.RotateHouseholdLink | lib/guests/service.ts:129-146 | every link and session of the household revoked, then one link of the next generation |
| GuestAccess.GuestStore.HighestGeneration | lib/guests/service.ts:139 | the greatest generation of a household's links, by the aggregate over all rows |
| GuestAccess.MaxIsReached | lib/guests/service.ts:139 | the aggregate bounds every generation and is one of them, or zero |
| GuestAccess.GuestStore.RevokeHouseholdLink | lib/guests/service.ts:148-160 | every link and session of the household revoked and nothing added |
| GuestAccess.GuestStore.ReadGrant | lib/guests/service.ts:167-181 | the exchange's read: a grant exactly when link, household and invitation are usable now |
| GuestAccess.GuestStore.WriteSession | lib/guests/service.ts:182 | the exchange's separate insert, carrying the generation and epoch read before |
| GuestAccess.GuestStore.ExpireInvitation | lib/operations/retention.ts:17-23 | automatic expiry: epoch raised, links and sessions of all the invitation's households revoked |
| GuestAccessSafety.ReachableStatesAreGood | lib/guests/service.ts:129-184 | in every interleaving generations are unique per household, at most one link is unrevoked, and no session or request in flight is ahead of its household |
| GuestAccessSafety.RevocationIsFinal | lib/guests/service.ts:129-184 | once a generation has been revoked, no session of it is ever authorised again, even if inserted later by an exchange that read before |
| GuestAccessSafety.EpochBumpIsFinal | lib/guests/service.ts:305-307 | once the access epoch is raised, no session at or below the old one ever passes again |
| GuestAccessSafety.UsableLinkLetsIn | lib/guests/service.ts:162-184 | a usable link exchanged without interruption gives a session that is authorised at once |
| GuestAccessSafety.LimitHolds | lib/guests/service.ts:67-97 | no run of creations and imports gives an invitation more than 500 households |
| GuestOutcomes.RotationIssuesALink | lib/guests/service.ts:129-146 | a rotation succeeds exactly for the invitation's own household with a new digest; its link is unrevoked with that digest and expiry and the next generation, all earlier links and sessions of the household are revoked, and other households are untouched |
| GuestOutcomes.RotatedLinkLetsIn | lib/guests/service.ts:142-184 | the credential a rotation hands out can be exchanged, and the session is authorised, whenever the household is open |
| GuestOutcomes.IssuedLinkIsUsable | lib/guests/service.ts:167-179 | an issued link is usable exactly while the household is active, the invitation live and neither has expired |
| GuestOutcomes.CreationAddsAHousehold | lib/guests/service.ts:62-77 | accepted exactly below the limit with fresh rows; the household is active with a working first link and nothing else changes |
| GuestOutcomes.ImportAddsHouseholds | lib/guests/service.ts:79-98 | accepted exactly within the limit with all rows fresh and different; every household of it is there with a working first link and nothing else changes |
| GuestOutcomes.RevocationCloses | lib/guests/service.ts:148-160 | every link and session of the household revoked and none of any other |
| GuestOutcomes.ChangesAre | lib/reviews/service.ts:299-344 | where each change of availability may start and end, which raise the epoch, and that only removal and expiry close the invitation's households, and no others |
| GuestOutcomes.PurgeTakesItsHouseholds | lib/operations/retention.ts:69 | a deleted invitation takes its households, links and sessions along and no others |
| GuestOutcomes.GrantEndsFirst | lib/guests/service.ts:180-182 | a session lasts 30 days or until its link or invitation expires, whichever comes first |
| GuestOutcomes.NobodyEntersOtherwise | lib/guests/service.ts:305-310 | every usable link and authorised session is of an open household at this address, unrevoked, unexpired and of the current epoch |
| Households.SameCountExactlyWhenAllocated | lib/guests/service.ts:213-214 | the length comparison after filtering holds exactly when the requested ids are distinct and all allocated to the household |
| Households.ShiftingNeverClashes | lib/guests/service.ts:118 | in whatever order rows are shifted by 1000, no two rows of a household ever share an order |
| Households.WritingNeverClashes | lib/guests/service.ts:119-122 | nor while the supplied slots are written one by one |
| Households.HouseholdStore.WriteSlot | db/schema.ts:317 | one row write, allowed only where the unique index on household and order holds right after it |
| Households.HouseholdStore.ShiftOrders | lib/guests/service.ts:118 | every row of the household shifted by 1000, row by row in any order |
| Households.HouseholdStore.WriteInputs | lib/guests/service.ts:119-122 | the supplied slots written at their positions, updating or inserting |
| Households.HouseholdStore.CreateHousehold | lib/guests/service.ts:71-72 | a household with its slots numbered from zero |
| Households.HouseholdStore.UpdateHousehold | lib/guests/service.ts:100-127 | revision checked, foreign and occupied slots refused, otherwise slots removed, renumbered and written and the revision raised |
| Households.HouseholdStore.SubmitGuestRsvp | lib/guests/service.ts:204-229 | one response and its attendees replaced, or the first failing check named, or a replay recognised |
| Households.HouseholdStore.AnyUnnamed | lib/guests/service.ts:215-217 | the loop finds whether some selected adult has neither an assigned nor a given name |
| Households.HouseholdStore.CorrectHouseholdRsvp | lib/guests/service.ts:231-256 | the administrator's correction, with its own checks and a fresh key |
| HouseholdsSafety.EditedRows | lib/guests/service.ts:109-122 | a finished edit has rewritten every row of its household, each with the position of the last input for it, and no other household's row |
| HouseholdsSafety.NumberedExactlyWhenDistinct | lib/guests/service.ts:110-122 | a finished edit leaves the orders 0 to n-1 exactly when no id was supplied twice |
| HouseholdsSafety.SeatsAreAlwaysOwn | lib/guests/service.ts:109-252 | in every run attendees sit in their own household's slots, and a response attends exactly when someone does |
| HouseholdsSafety.OrdersAreAlwaysUnique | lib/guests/service.ts:118-122 | in every run the orders of a household are unique and below 20, which keeps every state of the next shift by 1000 clear of the unique index |
| HouseholdsSafety.RevisionCountsAccepted | lib/guests/service.ts:218-223 | a household's revision is the number of its accepted submissions and corrections |
| HouseholdsSafety.AcceptedSubmissionNeverActsAgain | lib/guests/service.ts:219-220 | however a run continues, sending an accepted submission again changes nothing |
| HouseholdsSafety.ImmediateReplayIsRecognised | lib/guests/service.ts:219 | sent again at once it is recognised, not refused |
| HouseholdsSafety.AcceptedSubmissionSeatsTheRequested | lib/guests/service.ts:224-225 | an accepted submission seats exactly the requested slots, or nobody when declining, and no other household's attendees change |
| HouseholdOutcomes.SavedExactlyWhen | lib/guests/service.ts:204-220 | a response is saved exactly when it is sensible, in time, for the live version, asks for different seats of the household, names every unnamed adult, and has the current revision and a new key; otherwise nothing is written |
| HouseholdOutcomes.SavedResponseIs | lib/guests/service.ts:221-225 | the saved row has the status, version, note and key and the next revision; exactly the requested seats attend, an assigned name winning over a typed one; nothing else changes |
| HouseholdOutcomes.CorrectedExactlyWhen | lib/guests/service.ts:231-252 | the same of a correction, which asks for neither revision nor deadline |
| HouseholdOutcomes.EditedExactlyWhen | lib/guests/service.ts:105-116 | an edit is saved exactly at the current revision with 1 to 20 seats, own ids and no occupied seat left out |
| HouseholdOutcomes.EditedHouseholdIs | lib/guests/service.ts:110-123 | each seat holds type, name and kind of the input at its order, seats left out are gone, and responses and other households are untouched |
| HouseholdOutcomes.CreatedHouseholdIs | lib/guests/service.ts:71-72 | a created household has exactly the seats of its inputs, in order |
| Payments.PaymentStore.ClaimCheckout | lib/commerce/paymongo.ts:40-61 | create, reuse or take over the newest attempt in progress, with its lease and whether it is the first |
| Payments.LatestInProgress | lib/commerce/paymongo.ts:44 | the attempt found is in progress and newer than every other one in progress |
| Payments.PaymentStore.OpenCheckout | lib/commerce/paymongo.ts:100 | the session written and the attempt opened whatever its state |
| Payments.PaymentStore.FailCheckout | lib/commerce/paymongo.ts:88-90 | an attempt fails only while it is being created |
| Payments.PaymentStore.SettlePurchase | lib/commerce/paymongo.ts:131-143 | the settlement under the lock, with the attempt row as read before it |
| Payments.PaymentStore.ApplyEvent | lib/commerce/paymongo.ts:118-146 | an event applied whole: its shape checked, its attempt found, its payment settled |
| Payments.PaymentStore.PlaceOrder | lib/orders/service.ts:71-191 | one order for a paid purchase with one provider receipt of its price, or the first refusal: not ready or not matching, no payment found, a missing reference |
| Payments.PaymentStore.ConfirmRefund | lib/commerce/paymongo.ts:193-229 | a confirmed full refund: one reversing receipt, the invitation suspended, the purchase refunded |
| Payments.PaymentStore.Reconcile | lib/commerce/paymongo.ts:148-178 | the loop over the pending attempts computes the fold of its single inspections, with its counters |
| PaymentsSafety.SettledExactlyOnce | lib/commerce/paymongo.ts:118-143 | in every interleaving exactly one attempt carries a payment when the purchase is settled and none otherwise, and amounts equal prices |
| PaymentsSafety.ResultsComeOnceInOrder | lib/commerce/paymongo.ts:60-230 | newly-started, newly-paid and newly-refunded come at most once each, in that order, and say where the purchase stands |
| PaymentsSafety.LedgerFollowsThePurchase | lib/commerce/paymongo.ts:202-213 | the provider receipts of an order sum to the price while ordered and to zero once refunded |
| PaymentsSafety.RevenueIsTheLedger | lib/orders/service.ts:183-191 | over all orders together, the provider receipts sum to the prices of the paid purchases that are not refunded, less those without an order |
| PaymentsSafety.RevenueOfAnyLine | lib/commerce/purchases.ts:259-270 | the same for every group of purchases, so for each line of the report, a tier within 30 days: its revenue is the provider money on its purchases' orders plus its prices without an order |
| PaymentsSafety.SettledForGood | lib/commerce/paymongo.ts:135-141 | a settled purchase stays settled at its price, whatever follows |
| PaymentsSafety.RepeatedEvent | lib/commerce/paymongo.ts:128-143 | the settling event sent again changes nothing; a fresh read recognises it, a stale one reports a conflict |
| PaymentsSafety.RefundedForGood | lib/commerce/paymongo.ts:200-201 | after a recorded refund no run and no confirmation changes that purchase's ledger again |
| PaymentsSafety.RepeatedRefund | lib/commerce/paymongo.ts:200 | the same confirmation sent again is recognised and writes nothing |
| PaymentsSafety.RefundClosesAccess | lib/commerce/paymongo.ts:214-217 | a refunded order's invitation is not live afterwards, its epoch raised exactly if it was, and no other invitation changes |
| PaymentsSafety.ReconcileIsARun | lib/commerce/paymongo.ts:157-176 | a reconciliation does what some steps of the protocol do, and counts each attempt at most once |
| PaymentOutcomes.ClaimIs | lib/commerce/paymongo.ts:40-61 | whether a claim is refused, creates, takes over or reuses, by state, age and lease, and what it writes |
| PaymentOutcomes.AnswersAre | lib/commerce/paymongo.ts:87-101 | what a provider's session, its refusal and the end of a session each write |
| PaymentOutcomes.EventNamesItsPayment | lib/commerce/paymongo.ts:118-126 | an event is taken for a payment exactly when kind, mode, session and reference fit and one payment of it is paid, with id and amount |
| PaymentOutcomes.SettlesExactlyWhen | lib/commerce/paymongo.ts:131-143 | a payment settles exactly an awaiting purchase for its full price in PHP under an unused id; every other answer and its condition; nothing else changes |
| PaymentOutcomes.EverySettlementIsPaidInFull | lib/commerce/paymongo.ts:133-141 | over every run, each settled purchase was settled by a payment in PHP of exactly its price, and carries that payment |
| PaymentOutcomes.FullPaymentSettles | lib/commerce/paymongo.ts:128-143 | the other way round, such a payment settles its purchase when read and applied |
| PaymentOutcomes.IdsNameOneAttempt | db/schema.ts:97-102 | over every run no two attempts have one session or carry one payment |
| PaymentOutcomes.OrderPlacedExactlyWhen | lib/orders/service.ts:71-191 | exactly when an order is placed, its receipt of the price naming the payment, and that a refusal writes nothing |
| PaymentOutcomes.RefundRecordedExactlyWhen | lib/commerce/paymongo.ts:193-210 | exactly when a refund is recorded, recognised or refused: another id, payment, amount or currency is never confirmed |
| PaymentOutcomes.RecordedRefundIs | lib/commerce/paymongo.ts:202-223 | a recorded refund reverses the receipt of its payment and touches no other purchase, order or invitation |
| PaymentOutcomes.InspectionIs | lib/commerce/paymongo.ts:157-176 | what one inspected session does, and the counter it raises |
| PaymentOutcomes.PaidSessionIsSettled | lib/commerce/paymongo.ts:170-172 | an inspected session with one paid payment of the price settles its awaiting purchase |
| CheckoutLeases.LeaseSafety | lib/commerce/paymongo.ts:40-61 | if every holder finishes within its lease, no two create one attempt and no purchase has two attempts in progress |
| CheckoutLeases.TimelyPaymentIsFound | lib/orders/service.ts:82-85 | then every paid purchase can be ordered |
| CheckoutLeases.OrderedAndRefundedExactlyWhenSettled | lib/orders/service.ts:82-85 | in every run a paid purchase can be ordered, and its full refund is confirmed, exactly when the attempt that carries its payment is still in the paid state |
| CheckoutLeases.ReopenedExactlyBy | lib/commerce/paymongo.ts:100 | a step takes a paid attempt out of that state exactly when it is the answer of a holder of that very attempt with a session no other attempt has |
| CheckoutLeases.HiddenForever | lib/commerce/paymongo.ts:193-199 | a payment that is no longer found stays so whatever follows: every order and every refund is refused and changes nothing |
| CheckoutLeases.HiddenExactlyWhenReopened | lib/commerce/paymongo.ts:100 | over every run a settled purchase's payment is not found exactly when such an answer reopened its paid attempt |
| CheckoutLeases.LateHolderHidesAPayment | lib/commerce/paymongo.ts:100 | one run in which this happens |
| MediaWorker.MediaStore.PutImmutable | lib/media/storage.ts:60-81 | put if absent; refused exactly when the path holds content of another size |
| MediaWorker.MediaStore.RecordReady | lib/media/worker.ts:79-117 | variant rows inserted unless present, the row published, one success audit |
| MediaWorker.MediaStore.RecordRejected | lib/media/worker.ts:131-141 | the row rejected with its code and one audit |
| MediaWorker.MediaStore.EnqueueBackup | lib/backup/worker.ts:47-53 | one backup row and job, kept if present |
| MediaWorker.MediaStore.LandVariants | lib/media/worker.ts:73-77 | variants landing in any order; all landed, one was refused exactly on a conflict |
| MediaWorker.RefusedExactlyOnConflict | lib/media/worker.ts:73-77 | whether a landing is refused does not depend on the order of landing |
| MediaWorker.MediaStore.ProcessMedia | lib/media/worker.ts:48-146 | one run stopped after any number of durable steps does exactly that prefix of the run's plan |
| MediaWorker.MediaStore.SweepQuarantine | lib/media/worker.ts:200-208 | the upload of a finished image removed and its key cleared |
| MediaConvergence.CutLeadsToTheSame | lib/media/worker.ts:48-146 | stopping a run anywhere does not change where the state leads |
| MediaConvergence.CompleteRunThenSweep | lib/media/worker.ts:48-208 | one complete run and one sweep give the outcome that is defined without steps |
| MediaConvergence.CrashConvergence | lib/media/worker.ts:48-208 | any number of runs cut anywhere, then a complete run and a sweep, equal one complete run and a sweep: row, variants, objects, audits, backup |
| MediaConvergence.AcceptedUploadEndsPublished | lib/media/worker.ts:79-127 | that outcome: published, every file in place, upload gone, key forgotten, exactly one success audit added, one backup queued |
| MediaOutcomes.PublishedRowsNameTheirFiles | lib/media/worker.ts:71-117 | whatever runs were cut before: the published row has the image's facts and names its stored original, every new variant row names a stored file of its width with the size, height and checksum of a variant of that width, and every variant has a row |
| MediaOutcomes.RemovalIs | lib/media/worker.ts:119-126 | what a run leaves to the sweep: the upload and its key, the key alone, or nothing |
| MediaOutcomes.RefusedUploadsEndRejected | lib/media/worker.ts:129-143 | a refused upload ends rejected with its reason and one audit, and nothing is stored; one with its file missing is only marked |
| MediaOutcomes.AcceptedExactlyWhen | lib/media/worker.ts:59-69 | an upload is accepted exactly when pending, present and of the claimed type |
| MediaOutcomes.PublishedStaysAsItIs | lib/media/worker.ts:53-56 | later runs of a published image add its backup once and change nothing else |
| MediaConvergence.PublishedExactlyWhenStorable | lib/media/worker.ts:71-77 | after any runs cut anywhere, a complete run leaves an accepted upload published exactly when none of its puts had to be refused at the start |
| MediaConvergence.StuckConvergence | lib/media/worker.ts:71-77 | with one file for each width, a stuck upload converges too: whatever runs were cut before, a complete run leaves the same row, the same audits and every file that does not clash |
| MediaSizes.SharedPathExactlyWhenRoundedTogether | lib/media/image-processor.ts:62-93 | two kept sizes share a width exactly when a target that limits by width and one limited by height round to one width but not to one height |
| MediaSizes.InsideIs | lib/media/image-processor.ts:71 | a variant reaches its target width or the height 2400, as the image's shape decides, and its other side is the nearest in proportion |
| MediaSizes.TargetsAre | lib/media/image-processor.ts:62-63 | the target widths are those of the policy, each at most the image's own, once and in order |
| MediaSizes.StuckExactlyWhenRoundedTogether | lib/media/policy.ts:32-34 | a fresh accepted upload whose files differ in size is stuck exactly when its width and height round so |
| MediaSizes.TallUploadIsStuck | lib/media/image-processor.ts:71 | an upload of 2001x10000 that no run publishes or rejects |
| MediaConvergence.StuckForever | lib/media/storage.ts:60-81 | an upload with such a put is neither published nor rejected by any number of runs |
| Retention.RetentionStore.ExpireInvitation | lib/operations/retention.ts:17-27 | the row checked again, epoch raised, a deletion record 30 days ahead unless one exists, one audit |
| Retention.RetentionStore.ExportTombstone | lib/operations/retention.ts:45-51 | tombstone stored, then marked; nothing when already marked |
| Retention.RetentionStore.DeleteBackups | lib/operations/retention.ts:57-62 | the files of every backup of the order removed and its row marked, in any order |
| Retention.RetentionStore.PurgeInvitation | lib/operations/retention.ts:53-80 | backups first, then every row in one transaction, nothing when already purged |
| Retention.RetentionStore.RunRetentionSweep | lib/operations/retention.ts:12-43 | expiries, then due records; one that throws is reported and does not stop the others |
| RetentionSafety.PurgedAfterExportAndDate | lib/operations/retention.ts:29-79 | with any number of sweeps at once, each stopping anywhere: a purged record has its tombstone stored, its date has come and its invitation is gone |
| RetentionSafety.PurgedAndAuditedOnce | lib/operations/retention.ts:63-79 | and it is purged at most once, with exactly one audit |
| RetentionSafety.PurgeConvergence | lib/operations/retention.ts:45-79 | any number of passes cut anywhere and then a whole pass come to what one pass alone comes to |
| RetentionSafety.PurgedIs | lib/operations/retention.ts:53-79 | that is: rows and files gone, media deleted except catalog artwork, the order closed, one audit |
| RetentionOutcomes.PurgeLeavesOthersAlone | lib/operations/retention.ts:53-80 | media of other orders and catalog artwork, other backups, files, briefs, events, notifications, reviews, orders, invitations, records and tombstones are unchanged by a purge |
| RetentionOutcomes.PurgeLeavesNothingOfItsOwn | lib/operations/retention.ts:63-79 | the record's own reviews, notifications, brief, event and invitation are gone, its media and backups deleted, and its tombstone says what it was |
| RetentionOutcomes.UndisturbedWorkerPurges | lib/operations/retention.ts:32-79 | a sweep's steps for one record, taken one after another without interruption, come to exactly one purge |
| RetentionOutcomes.ExpiryIs | lib/operations/retention.ts:17-27 | exactly when an invitation expires automatically, with its record 30 days ahead, and nothing else |
| RetentionOutcomes.EndingByHandIs | lib/reviews/service.ts:310-337 | removal is due at once, expiry after 30 days, also over an earlier record's date |
| RetentionOutcomes.SweepPurgesTheRest | lib/operations/retention.ts:29-40 | of the due records a sweep purges exactly those that do not throw |
| RetentionOutcomes.SweepExpires | lib/operations/retention.ts:13-27 | of the candidates it expires exactly those still due, and no other invitation |
| MediaQuota.MediaTable.CreateUploadIntent | lib/media/service.ts:34-97 | an earlier intent returned or refused, the allowance checked, otherwise one quarantined row |
| MediaQuota.IntentIs | lib/media/service.ts:51-85 | exactly when an intent is accepted, answered again or refused, another customer's key among them, and the row it adds |
| MediaQuota.AllowanceHoldsExactly | lib/media/worker.ts:97-141 | with worker runs and finalisations overlapping anything, every order keeps its allowance of 12 throughout a run exactly when none of them ends by writing a row deleted meanwhile into a full order |
| MediaQuota.AllowanceHoldsWithoutOverlap | lib/media/worker.ts:97-109 | it does whenever no object is deleted while a run of it is under way |
| MediaQuota.AllowanceHolds | lib/media/service.ts:64-71 | in every such run an order has at most 12 live objects, and their bytes fit the allowance and the 32-bit cast |
| MediaQuota.ByteCheckNeverDecides | lib/media/service.ts:69 | and a new key of valid size is refused for the allowance exactly when the order holds 12 objects |
| MediaQuota.AcceptedKeyNamesOneRow | lib/media/service.ts:51-62 | an accepted key names one row for good, and sending it again adds nothing |
| MediaQuota.ThirteenLiveObjects | lib/media/worker.ts:97-109 | a run from no rows at all that leaves an order with 13 live objects |
| Brief.StripEmptyOptionalText | lib/content/brief.ts:100-106 | the deleting loop drops exactly the empty optional texts |
| Brief.EventRoundTrip | lib/content/brief.ts:56-91 | completing the brief of a valid event gives it back without empty optional texts, exactly when its schedule fits the draft schema and its deadline is not after its date |
| Brief.DocumentRoundTrip | lib/content/brief.ts:56-91 | briefing the completion of a ready document gives the parsed document back; only wedding details are lost |
| Brief.DeadlineKept | lib/domain/event.ts:75-82 | a completed event's deadline is not after its date |
| Texts.TrimIsIdentity | lib/content/brief.ts:6 | trimming changes exactly the texts that begin or end with a space |
| BriefSubmission.BriefStore.SaveEventBrief | lib/content/service.ts:124-152 | compare and set on the revision: document replaced, submission withdrawn, draft and order updated |
| BriefSubmission.BriefStore.InsertActivities | lib/content/service.ts:194-204 | one row for each activity in order, refused exactly when two share an id or one has an id of another order's event |
| BriefSubmission.BriefStore.SubmitEventBrief | lib/content/service.ts:175-256 | the submission's transaction: rows deleted and inserted again, or everything taken back |
| BriefSubmission.RowsReadBack | lib/orders/service.ts:255-312 | an event's rows, read back, are the event with start times in UTC |
| BriefSubmission.SubmittedMeansRowsMatch | lib/content/service.ts:107-256 | in every interleaving a submitted brief has the event rows of the completion of the document now stored |
| BriefSubmission.SubmittedOrderShowsTheDocument | lib/orders/service.ts:209-253 | so the order shows the event its customer completed |
| BriefSubmission.PlacedOrderCatchesUp | lib/commerce/purchases.ts:127-154 | an order placed from a document read before a later save shows the stored document once submitted, in every interleaving, and the submission that follows at once gets it there |
| BriefSubmission.OneSavePerRevision | lib/content/service.ts:130-155 | two saves from one revision are never both accepted, and a submission that read before a save cannot write after it |
| BriefOutcomes.ParsesExactlyWhen | lib/content/brief.ts:6-48 | a document can be saved exactly when its trimmed draft and photos are within the limits, which are spelled out |
| BriefOutcomes.CompletesExactlyWhen | lib/content/brief.ts:56-98 | and it is ready exactly when every field an event needs is filled in besides and the deadline does not sort after the date |
| BriefOutcomes.SavedExactlyWhen | lib/content/service.ts:118-152 | a save is accepted exactly for the stored revision and the same event, and what it writes |
| BriefOutcomes.ReadsExactlyWhen | lib/content/service.ts:155-172 | a submission gets to its transaction exactly with the stored revision, a ready brief and ready photos |
| BriefOutcomes.SubmittedExactlyWhen | lib/content/service.ts:175-215 | its transaction takes effect exactly while that revision is stored, the ids are free and the theme is released |
| BriefOutcomes.SubmissionIs | lib/content/service.ts:175-250 | what it leaves in brief, rows, invitation, draft and order; a delivered or closed order is not reopened |
| BriefOutcomes.RowsHoldTheEvent | lib/content/service.ts:185-215 | each activity, participant and text of the event is in its row |

## Left out

- LeaseSafety: holds for holders that finish within their lease; the source bounds only the provider call, by 15 seconds.
- CrashConvergence: runs are cut one after another, not overlapped, and the sweep's batch limit and the job table's leases are not modelled.
- StuckConvergence: variants of one width are taken to be one file, because which of two equally large ones lands first is a race.
- StuckExactlyWhenRoundedTogether: heights and widths are rounded to the nearest integer, at least 1; the resizing library is not part of this model.
- ChangesAre: the balance that resuming a paid order's invitation also asks for is not modelled.
- SavedExactlyWhen: whether the deadline has passed in the event's time zone is a parameter.
- CreateHousehold: of the access model has no slots; they are written in `Households.HouseholdStore.CreateHousehold`.
- ImportHouseholds: has no slots either.
- ExpireInvitation: of the retention model has no links and sessions; the access model revokes them.
- PurgedAfterExportAndDate: the date of a record is compared with the clock at the purge, not with the sweep's own starting time, which an administrator's later removal can overtake.
- TwoStepsReachTheWallTime: calendar fields and the formatter are replaced by an offset for each instant; the fallback for unknown zones is not modelled.
- EventRoundTrip: formats of ids, dates, zones and addresses are arbitrary predicates; wedding details have a schema of their own and stay opaque.
- RowsReadBack: reading and printing a start time are arbitrary functions whose printed form is a valid date and time.
- EveryImportIsCanonical: reading a number is an arbitrary function; lower case is exact for the letters of the required names.
- SameTextExactlyWhenSameValue: key comparison is an arbitrary linear order; numbers stand for the text JavaScript prints for them.
- SnapshotHashStandsForContent: lengths, formats and enumerations of the schema are not needed and left open; that the comparison tells words of ASCII letters apart is assumed.
- Transactions are atomic and serialised, also those without an advisory lock; clocks do not run backwards; drawn ids are fresh and digests injective.
- Permissions, authentication, rate keys, HTTP, error texts and notifications are parameters or absent.
- The slots and the link of one household creation are written in one transaction; the household model and the access model each keep their own part.
- `savePurchaseBrief` is the same compare-and-set as saving an event brief and is not repeated; `getPurchaseBrief` and quotes are absent.
- RevenueOfAnyLine: the group of purchases of a report line is arbitrary; production costs are left out, and manual receipts enter the ledger freely, since provider totals do not depend on them.
- Cleanup of stale, rejected and deleted media, delivery variants and signed addresses: easy beside the worker.
- The review, publication and rollback workflow appears only as the availability changes it makes.
- State tables, permission tables, dashboards, metrics storage and all user interface beyond the two time functions.
