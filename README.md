# A verified model of the ELearning booking backend

This project models the core of a lesson-booking backend written in
JavaScript (Express and Mongoose) and proves properties of the model in
Dafny. The core has four parts:

- **Teacher availability.** The TeacherAvailability collection is a store of
  blocks of time. `AddAvailability` validates an interval and refuses one
  that overlaps a block. It then merges the blocks the interval touches into
  one new block. `UpdateAvailability` and `RemoveAvailability` each change
  one block. `SpecialSlotCreate` applies the same overlap test.
- **Slot derivation.** `GetAvailability` subtracts the teacher's bookings
  that are not cancelled from each block. A cursor walks the block,
  skipping five minutes past each booking, and emits the gaps as free slots.
- **The Stripe webhook.** For `checkout.session.completed` it checks that
  the session is paid and that its payment intent has no StripePayment yet.
  Then exactly one of four branches records the payment: a wallet recharge,
  a bulk purchase, a bonus, or a lesson booking. The Zoom webhook parses
  chat transcripts and uploads each recording file at most once.
- **Earnings.** `EarningsGet` and `DashboardApi` sum the teacher's earnings
  over completed bookings, in buckets chosen by which payout dates are set.

The model represents values as follows:

- Times are integer UTC instants in milliseconds.
- Ids are natural numbers, and money is an exact `real`.
- Strings are `seq<char>`.
- A Stripe metadata flag that may be absent is an `Option<string>`. JavaScript
  truthiness is `Truthy`: present and not empty.
- `srNo` keeps its text (`None` when absent), and `JsNumbers.ParseInt` reads
  it as JavaScript's `parseInt` does. The other metadata ids and numbers are
  the values the handler's conversion yields. `None` is an absent value or text that is not a
  number (NaN), and empty text is the number 0.
- The database is a collection of sequences of records. Fresh `_id`s are
  taken from a counter.
- Calls into code outside the model are parameters: the Stripe signature
  check, the payment intent lookup, the Zoom download and upload, and the
  existence of a student.

Files and modules:

- `wrappers.dfy` (`Wrappers`): Option and Result.
- `values.dfy` (`Values`): the value types.
- `text.dfy` (`Text`): split, join and includes on strings.
- `booking.dfy` (`BookingSchema`) and `stripe_payment.dfy` (`StripePaymentSchema`):
  the two schemas, their required paths and their defaults.
- `availability.dfy` (`Availability`): the block store, as functions and as a class.
- `slots.dfy` (`SlotDerivation`): GetAvailability.
- `special_slot.dfy` (`SpecialSlots`): SpecialSlotCreate.
- `earnings.dfy` (`Earnings`): the earnings buckets.
- `numbers.dfy` (`JsNumbers`): `parseInt` with no radix, as section 19.2.5
  of ECMAScript 2024 defines it, and the decimal text of an integer.
- `checkout.dfy` (`StripeWebhook`): the Stripe webhook, as functions and as a class.
- `chat.dfy` (`ZoomChat`) and `recordings.dfy` (`ZoomRecordings`): the Zoom webhook.

Handlers that update records step by step are methods. Each method is proved
equal to a function, and the properties are lemmas about that function. This
covers `AvailabilityStore`, `WebhookStore`, `GetAvailability`,
`WalkBlock`, `WidenToAdjacents` and `RecordingCompleted`.

The recording loop skips a file when any stored download URL contains its id
as a substring (`includes`, app.js:752); `ZoomRecordings.StoredMentions`
models that test.

`GetAvailability` builds each `bookedSlots` entry from paths a Booking does
not have (see Findings). The slot functions therefore take a `Reading`:
`AsWritten` follows the code, and `Intended` reads `UserId` and `LessonId`.
The handler method `SlotDerivation.GetAvailability` is proved equal to the
as-written response.

## Model

| member | source | states |
|---|---|---|
| Availability.OfTeacher | controller/teacherController.js:34 | A block is among the teacher's blocks exactly when it is stored with that teacher. |
| Availability.Adjacents | controller/teacherController.js:41-44 | The result holds exactly the given blocks that end at the new start or start at the new end. |
| Availability.SpanStart | controller/teacherController.js:45-49 | The merged start is at most the new start and every adjacent start, and equals one of them. |
| Availability.SpanEnd | controller/teacherController.js:45-49 | The merged end is at least the new end and every adjacent end, and equals one of them. |
| Availability.WidenToAdjacents | controller/teacherController.js:46-49 | The min/max loop computes exactly the merged start and end. |
| Availability.RemoveIds | controller/teacherController.js:50-51 | `deleteMany` keeps exactly the blocks whose id is not in the set, and never adds any. |
| Availability.Add | controller/teacherController.js:18-62 | A missing time gives 400 "required", and start ≥ end gives 400 "after". Success happens exactly when the interval is valid and overlaps none of the teacher's blocks. Every error leaves the store unchanged. The new block has the fresh id and is stored last. It runs from the least to the greatest of the interval's ends and the ends of the blocks it absorbs: it covers each of them, and its start and its end are each the interval's or an absorbed block's. |
| Availability.TouchingIsNotOverlap | controller/teacherController.js:35-44 | A block that only touches a proper interval does not overlap it. |
| Availability.AddKeepsOthers | controller/teacherController.js:41-57 | A successful add keeps every block it does not absorb. It deletes every touching block of the teacher. The only new block is the merged one. |
| Availability.MergedClearOfKept | controller/teacherController.js:41-57 | The merged block overlaps none of the teacher's blocks that are kept, in either direction. |
| Availability.AddPreservesNonOverlapping | controller/teacherController.js:34-57 | If all blocks are proper and a teacher's blocks are pairwise disjoint, every add keeps it so. |
| Availability.IndexOfId | controller/teacherController.js:74 | The position of the first block with that id, or none when no block has it. |
| Availability.Update | controller/teacherController.js:64-92 | A missing id gives 400, and an unknown id gives 404. Otherwise only that block changes: each supplied endpoint is overwritten and every other field is kept. |
| Availability.UpdateMayInvertBlock | controller/teacherController.js:79-87 | Example: an update can leave end before start, which breaks the invariant. |
| Availability.UpdateMayCreateOverlap | controller/teacherController.js:79-87 | Example: an update can move a block onto another block of the same teacher. |
| Availability.CheckedUpdatePreservesNonOverlapping | controller/teacherController.js:79-87 | An update whose result is proper and clear of the teacher's other blocks keeps the invariant. |
| Availability.Remove | controller/teacherController.js:94-112 | A missing id gives 400, and an unknown id gives 404. Otherwise exactly that block is deleted and every other block stays. |
| Availability.RemovePreservesNonOverlapping | controller/teacherController.js:102-106 | Removing a block keeps the invariant. |
| Availability.RemoveDeletesTheId | controller/teacherController.js:102-106 | With unique ids, no block with the removed id is left. |
| Availability.RemoveIdsKeepsUniqueIds | controller/teacherController.js:50-51 | Deleting by ids cannot create a duplicate id. |
| Availability.AppendFreshKeepsUniqueIds | controller/teacherController.js:53-57 | Creating a record with a fresh id keeps ids unique. |
| Availability.RemoveAtKeepsUniqueIds | controller/teacherController.js:102 | Deleting one record keeps ids unique and adds nothing. |
| Availability.AvailabilityStore.AddAvailability | controller/teacherController.js:18-62 | The stored blocks and the answer are those of `Add`. The id counter advances exactly when a block is created. Ids stay unique, and the non-overlap invariant is kept. |
| Availability.AvailabilityStore.UpdateAvailability | controller/teacherController.js:64-92 | The stored blocks and the answer are those of `Update`. |
| Availability.AvailabilityStore.RemoveAvailability | controller/teacherController.js:94-112 | The stored blocks and the answer are those of `Remove`. |
| SpecialSlots.CreateSpecialSlot | controller/teacherController.js:754-830 | A missing field (an amount of 0 included) gives "All fields are required". With all fields present, the request is refused for overlap exactly when it overlaps one of the teacher's blocks. It succeeds exactly when all fields are present, nothing overlaps and the student exists. The saved slot copies the request. The handler sets no payment status; any schema default is not modelled. |
| SpecialSlots.SameOverlapTestAsAvailability | controller/teacherController.js:775-779 | For a proper interval, a special slot is refused for overlap exactly when AddAvailability would refuse the interval for overlap. |
| SpecialSlots.AcceptedSlotClearOfAvailability | controller/teacherController.js:773-787 | An accepted slot ends before or starts after each of the teacher's blocks. |
| SpecialSlots.ZeroAmountRefused | controller/teacherController.js:762-764 | An amount of 0 is refused as a missing field. |
| SpecialSlots.InvertedSlotAccepted | controller/teacherController.js:762-803 | Example: nothing checks that the slot ends after it starts. |
| SlotDerivation.ActiveBookings | controller/teacherController.js:122 | A booking is considered exactly when it is the teacher's and is not cancelled. |
| SlotDerivation.Matching | controller/teacherController.js:138-140 | A booking is matched exactly when it is active and meets the block. |
| SlotDerivation.InsertByStart | controller/teacherController.js:142 | Insertion adds exactly one element, as a multiset. |
| SlotDerivation.InsertKeepsSorted | controller/teacherController.js:142 | Inserting into a list sorted by start keeps it sorted. |
| SlotDerivation.SortByStart | controller/teacherController.js:142 | The sorted bookings are ordered by start and are a permutation of the input. |
| SlotDerivation.SortKeepsMembers | controller/teacherController.js:142 | Sorting keeps exactly the same bookings. |
| SlotDerivation.Advance | controller/teacherController.js:171-172 | The cursor moves to five minutes past the booking's end or stays put, whichever is later. It never moves backward. |
| SlotDerivation.Walk | controller/teacherController.js:155-182 | The walk emits at most one slot per booking plus one, each without an `_id`, for the teacher. |
| SlotDerivation.FreeSlots | controller/teacherController.js:144-182 | A block without matching bookings gives exactly one slot, with the block's `_id`. Otherwise the slots come from the walk, carry no `_id`, and number at most one per booking plus one. |
| SlotDerivation.DeriveBlock | controller/teacherController.js:136-192 | One booked entry per matching booking, and at most one more free slot than booked entries. |
| SlotDerivation.DeriveAll | controller/teacherController.js:134-193 | Over all blocks there are at most as many free slots as booked entries plus blocks. |
| SlotDerivation.View | controller/teacherController.js:114-202 | "No Data found" exactly when there are no blocks. The free slots number at most the booked entries plus the blocks, and with no active booking nothing is booked. |
| SlotDerivation.WalkInside | controller/teacherController.js:155-182 | Every slot of a walk is non-empty and lies between the cursor and the block's end. |
| SlotDerivation.WalkClear | controller/teacherController.js:155-182 | Over sorted bookings, no slot meets any booking extended by the five-minute buffer. |
| SlotDerivation.WalkAscending | controller/teacherController.js:155-182 | The slots come out ascending and pairwise disjoint. |
| SlotDerivation.BlockSlotsSound | controller/teacherController.js:134-182 | Every free slot of a block lies inside the block. Every slot is non-empty when the block is proper. No slot meets a buffered matching booking. The slots are ascending. |
| SlotDerivation.CoveredBlockHasNoSlot | controller/teacherController.js:155-182 | A block that one booking covers, buffer included, yields no free slot. |
| SlotDerivation.ExampleBlock | controller/teacherController.js:155-182 | The block 10:00-11:00 with a booking 10:15-10:30 yields exactly 10:00-10:15 and 10:35-11:00. |
| SlotDerivation.AllSlotsSound | controller/teacherController.js:134-193 | Every free slot of the response lies in one of the blocks and is clear of that block's bookings. |
| SlotDerivation.UntouchedBlockKept | controller/teacherController.js:144-153 | A block that no active booking meets appears whole, with its `_id`. |
| SlotDerivation.BookedSlots | controller/teacherController.js:184-192 | One entry per matching booking, in order, each as the reading builds it. |
| SlotDerivation.ReadingOnlyChangesNames | controller/teacherController.js:134-193 | The two readings give the same free slots. Each as-written entry is the intended entry at the same position with student and lesson dropped. |
| SlotDerivation.ViewAsWrittenLosesStudents | controller/teacherController.js:184-192 | The response as written has the same free slots as the intended one. Every `bookedSlots` entry has neither student nor lesson. |
| SlotDerivation.BookedSlotsNameStudents | controller/teacherController.js:184-192 | With the intended reading, every booked entry names the student and lesson of an active booking that meets one of the blocks. |
| SlotDerivation.BookedSlotAsWrittenLosesStudent | controller/teacherController.js:189-190 | The entries as written have neither student nor lesson. |
| SlotDerivation.AsSlots | controller/teacherController.js:124-128 | With no active booking, the stored blocks are returned one for one. |
| SlotDerivation.CancelledBookingIgnored | controller/teacherController.js:122 | Adding a cancelled booking never changes the response. |
| SlotDerivation.ActiveIgnoresCancelled | controller/teacherController.js:122 | The active bookings do not change when a cancelled booking is added. |
| SlotDerivation.NewBookingIsActive | model/booking.js:50-57 | A newly saved booking is active for its teacher, so it is subtracted. |
| SlotDerivation.WalkBlock | controller/teacherController.js:155-182 | The cursor loop emits exactly the slots of the walk. |
| SlotDerivation.GetAvailability | controller/teacherController.js:114-202 | The response is `View` with the as-written reading. It is "No Data found" exactly when the teacher has no blocks. With no active booking, the stored blocks are returned. |
| Earnings.EarningsSummary | controller/teacherController.js:529-533 | The corrected summary always has `requestedEarnings`, and it is all zeros when nothing is counted. |
| Earnings.Counted | controller/teacherController.js:429-455 | No contract: the `$match` of the teacher's bookings both parties marked completed, within the optional date range. |
| Earnings.InBucket | controller/teacherController.js:490-525 | No contract: the `$cond` of each of the four accumulators, by which payout dates are null. |
| Earnings.Sum | controller/teacherController.js:486-527 | No contract: the `$sum` of `teacherEarning` over counted bookings in one bucket. Its properties are the lemmas below. |
| Earnings.Grouped | controller/teacherController.js:486-527 | The aggregate's group always has `requestedEarnings`. With non-negative earnings, each bucket lies between 0 and the total. |
| Earnings.SummaryAsWritten | controller/teacherController.js:529-533 | As written, `requestedEarnings` is missing exactly when no booking is counted, and the other three are then 0. |
| Earnings.NothingCountedSumsZero | controller/teacherController.js:486-533 | With nothing counted, every bucket sums to zero. |
| Earnings.SummaryIsGroupedOrZero | controller/teacherController.js:486-533 | The corrected summary equals the four conditional sums in every case. |
| Earnings.BucketsPartitionTotal | controller/teacherController.js:490-525 | When no counted booking was paid out without a request, pending + requested + approved = total. |
| Earnings.PaidWithoutRequestCountedTwice | controller/teacherController.js:493-524 | A booking paid out without a request counts as both pending and approved, so the buckets exceed the total. |
| Earnings.BucketBoundedByTotal | controller/teacherController.js:490-525 | With non-negative earnings, each bucket is between 0 and the total. |
| Earnings.NewBookingNotCounted | model/booking.js:41-49 | A new booking changes no bucket until its teacher marks it completed. |
| Earnings.CompletedNewBookingIsPending | model/booking.js:74-81 | Once completed, a new booking adds its earning to the total and to pending only. |
| Earnings.FallbackLacksRequested | controller/teacherController.js:529-533 | As written, the fallback summary has no `requestedEarnings`, and the corrected one has 0. |
| Earnings.AsWrittenAgreesWhenCounted | controller/teacherController.js:529 | When some booking is counted, the as-written and corrected summaries agree. |
| BookingSchema.AllPathsListed | model/booking.js:5-73 | The list of required paths names all nine. |
| BookingSchema.MissingAmong | model/booking.js:5-73 | The result holds exactly the listed paths that are undefined. |
| BookingSchema.MissingIsNotRequired | model/booking.js:5-73 | A missing required path means the fields are incomplete. |
| BookingSchema.NewBooking | model/booking.js:3-96 | Saving succeeds exactly when all nine required paths are present, and otherwise names exactly the missing ones. The saved booking copies the paths and has the schema's defaults. |
| BookingSchema.IndexOf | model/booking.js:3-96 | The position of the first booking with that id, or none. |
| StripePaymentSchema.NewStripePayment | model/StripePayment.js:3-46 | Creation succeeds exactly when `srNo` and `amount` are present, and otherwise names the missing ones. Status defaults to "pending", currency to "JPY" and `IsBonus` to false. The supplied paths are copied. |
| StripePaymentSchema.FindByPaymentId | model/StripePayment.js:25-28 | The lookup finds a record with that payment id, or there is none. |
| StripePaymentSchema.DuplicatePaymentIdAccepted | model/StripePayment.js:25-28 | A second record with the same payment id is valid, so the schema does not keep payment ids unique. |
| StripeWebhook.WalletOf | app.js:162 | The first wallet of the user, or none when no wallet has that user. |
| StripeWebhook.SlotFor | app.js:331-339 | The first special slot with that student, lesson and start, or none. |
| StripeWebhook.BranchOf | app.js:145-279 | The branch is wallet if `isWallet` is truthy, else bulk if `isBulk` is "true", else bonus if `IsBonus` is truthy, else booking. Each of the four holds exactly under its condition. |
| StripeWebhook.Webhook | app.js:69-636 | The answer is 400 exactly when the signature is not valid. Only a verified `checkout.session.completed` event can write. |
| StripeWebhook.Checkout | app.js:113-396 | A checkout never answers 400, and it answers nothing only in the bonus branch. |
| StripeWebhook.RechargeWallet | app.js:145-190 | Either 500 with nothing written, or acknowledged with one payment, one transaction and at most one new wallet. |
| StripeWebhook.RecordBulkPurchase | app.js:192-243 | Always 500. Either nothing is written, or one payment and one bulk record are. |
| StripeWebhook.RecordBonus | app.js:245-276 | Either no answer, with one payment and one Bonus written, or 500 with nothing written. No booking is added or removed. |
| StripeWebhook.BookingFieldsFor | app.js:310-324 | The booking paths carry the payment's id, an amount and a fee. The teacher's earning is missing exactly when the processing fee is. |
| StripeWebhook.RecordBooking | app.js:279-396 | When `parseInt(srNo \|\| 1)` is NaN, the answer is 500 with nothing written. Otherwise the payment is saved. The answer is acknowledged exactly when one booking is added, and otherwise it is 500 with no booking added. |
| StripeWebhook.UnpaidSessionWritesNothing | app.js:119-123 | An unpaid session is acknowledged with no writes. |
| StripeWebhook.KnownPaymentWritesNothing | app.js:135-143 | A payment intent that already has a StripePayment is acknowledged with no writes. |
| StripeWebhook.OnlyCheckoutWrites | app.js:77-111 | A bad signature gives 400, and other event types are acknowledged. Neither writes anything. |
| StripeWebhook.CheckoutRecordsItsPayment | app.js:113-396 | A checkout either writes nothing, or appends exactly one StripePayment for the session's intent, which had none. |
| StripeWebhook.RedeliveryWritesNothing | app.js:135-143 | Delivering the same event a second time writes nothing. |
| StripeWebhook.RepeatedDeliveryIsOneDelivery | app.js:135-143 | Any number of sequential deliveries leaves the store as one delivery does. |
| StripeWebhook.RepeatedOnFixedPoint | app.js:135-143 | Once a delivery writes nothing, further deliveries write nothing. |
| StripeWebhook.CheckoutKeepsPaymentIdsUnique | app.js:135-143 | Unique payment ids stay unique across checkouts. |
| StripeWebhook.OneBranchRuns | app.js:145-396 | Only the selected branch's collections change. Wallets and transactions change only for a recharge, bulk records only for a bulk purchase, bonuses only for a bonus, and special slots only for a booking. |
| StripeWebhook.WalletFlagFalseStillRecharges | app.js:145 | `isWallet` = "false" still selects the wallet branch. |
| StripeWebhook.BulkFlagMustBeTrueText | app.js:192 | An `isBulk` other than "true" falls through to the later branches. |
| StripeWebhook.WalletCredit | app.js:145-190 | A missing wallet is created with balance 0. The wallet ends at old plus amount, and no other wallet changes. One credit transaction records the amount, the payment and the new balance. |
| StripeWebhook.BulkStartsWithAllLessonsRemaining | app.js:192-217 | The bulk record starts with `lessonsRemaining` = `totalLessons` = `multipleLessons` or 0. It is tied to the new payment, and the request ends in 500. |
| StripeWebhook.BulkWithoutSerialWritesNothing | app.js:193-202 | When `parseInt(srNo)` is NaN, the payment does not save, and nothing is written. |
| StripeWebhook.Serial | app.js:151 | No contract: `parseInt(metadata.srNo)`, where an absent `srNo` is the text "undefined". |
| StripeWebhook.BookingSerial | app.js:298 | No contract: `parseInt(metadata.srNo \|\| 1)`, where a blank `srNo` becomes 1 and `parseInt` reads its text "1". |
| StripeWebhook.AbsentSerialIsNaN | app.js:151 | An absent `srNo` reads as NaN. |
| StripeWebhook.BlankSerialBookingSavesSerialOne | app.js:297-308 | In the lesson branch, a blank `srNo` saves the payment for the intent with serial 1. |
| StripeWebhook.DecimalSerialBookingSavesIt | app.js:297-308 | In the lesson branch, an `srNo` that is the decimal text of an integer saves one payment with that integer as its serial. |
| StripeWebhook.NonNumericSerialBookingWritesNothing | app.js:297-308 | In the lesson branch, an `srNo` that is not blank and has no decimal digit is NaN. The payment save fails, the answer is 500 and nothing is written. |
| StripeWebhook.BookingLinkedToSpecialSlotOnlyWhenFound | app.js:279-345 | One booking is saved and tied to the new payment. For a special session with a matching slot, that slot is marked paid and linked. Otherwise no slot changes and the booking is unlinked. |
| StripeWebhook.FailedBookingStrandsPayment | app.js:297-325 | A booking that fails validation leaves its payment saved and answers 500. A retry is then acknowledged with no booking. |
| StripeWebhook.BookingWithoutFeeFails | app.js:308-322 | Without a processing fee, the teacher's earning is not a number, so the booking fails on `teacherEarning`. |
| StripeWebhook.BonusMarksBooking | app.js:245-276 | A bonus adds one Bonus, marks the rewarded booking with it, stores the payment as a bonus, and sends no answer. |
| StripeWebhook.OpenWalletBalanced | app.js:162-169 | Opening an empty wallet for a user without one keeps the ledger balanced. |
| StripeWebhook.CreditBalanced | app.js:171-186 | Crediting one wallet and recording the credit keeps the ledger balanced. |
| StripeWebhook.RechargeLedgerWrites | app.js:162-186 | A recharge that writes anything appends one credit for the user, and credits the found or newly opened wallet. |
| StripeWebhook.RechargeKeepsLedgerBalanced | app.js:145-190 | After a recharge, every wallet still equals the credits recorded for its user. |
| StripeWebhook.CheckoutKeepsLedgerBalanced | app.js:113-396 | Every checkout keeps the ledger balanced. |
| StripeWebhook.WebhookStore.StripeWebhook | app.js:69-636 | The answer and the new store are those of `Webhook`. The ledger balance and unique payment ids are kept. |
| StripeWebhook.WebhookStore.HandleCheckout | app.js:113-396 | The answer and the new store are those of `Checkout`. |
| StripeWebhook.WebhookStore.CreditWallet | app.js:145-190 | The answer and the new store are those of `RechargeWallet`. |
| StripeWebhook.WebhookStore.SaveBulkPurchase | app.js:192-243 | The answer and the new store are those of `RecordBulkPurchase`. |
| StripeWebhook.WebhookStore.SaveBonus | app.js:245-276 | The answer and the new store are those of `RecordBonus`. |
| StripeWebhook.WebhookStore.SaveBooking | app.js:279-396 | The answer and the new store are those of `RecordBooking`. |
| JsNumbers.DigitValue | app.js:151 | A digit's value is below the radix. In base 10 exactly `0` to `9` are digits. |
| JsNumbers.TrimStartSuffix | app.js:151 | Trimming drops only white space and line terminators, and leaves a suffix that does not start with one. |
| JsNumbers.LeadingDigitsLongest | app.js:151 | The digits read are those of a prefix of the text, and the character after them is not a digit of the radix. |
| JsNumbers.ParseInt | app.js:151 | No contract: skip leading white space, read one sign, take base 16 after `0x` or `0X` and base 10 otherwise, and read the longest run of digits; NaN without one. |
| JsNumbers.ParseIntUnsigned | app.js:151 | Text that starts with a digit is read with no sign: its value is its magnitude. |
| JsNumbers.ParseIntNegative | app.js:151 | A minus sign followed by a digit negates the magnitude of the rest. |
| JsNumbers.NoDigitIsNaN | app.js:151 | Text with no decimal digit is NaN, since a base-16 prefix starts with the digit `0`. |
| JsNumbers.NatDigits | app.js:298 | An integer has at least one decimal digit, each below 10, with no leading zero for a positive integer. |
| JsNumbers.DigitChar | app.js:298 | The character of a digit is a decimal digit whose value is that digit. |
| JsNumbers.NatText | app.js:298 | The decimal text of an integer has one digit character per decimal digit, in order. |
| JsNumbers.NatDigitsValue | app.js:298 | The decimal digits of an integer denote it. |
| JsNumbers.MagnitudeOfNatText | app.js:298 | The decimal text of an integer followed by a non-digit has that integer as its magnitude, unless an `x` follows a lone `0`. |
| JsNumbers.ParseIntDecimal | app.js:151 | `parseInt` reads back the decimal text of every integer, whatever follows it, unless what follows is a digit or an `x` immediately after a lone `0`. |
| JsNumbers.ParseIntSkipsSpaceAndSign | app.js:151 | " +7" reads as 7. |
| JsNumbers.ParseIntHex | app.js:151 | "0x1A" reads as 26. |
| JsNumbers.ParseIntOne | app.js:298 | "1", the text of the fallback `1`, reads as 1. |
| JsNumbers.ParseIntStopsAtExponent | app.js:151 | "1e3" reads as 1. |
| JsNumbers.ParseIntUndefined | app.js:151 | "undefined" is NaN. |
| JsNumbers.ParseIntBarePrefix | app.js:151 | "0x" with no digit after it is NaN. |
| Text.Split | app.js:767 | A split has at least one piece, and no piece holds the separator. |
| Text.ReplaceAll | app.js:770-771 | No separator is left when the replacement has none, and every other character is kept. |
| Text.JoinSplit | app.js:770-771 | Joining the pieces of a split with a string replaces each separator by it. |
| Text.SplitThenJoin | app.js:770-771 | Joining with the separator itself gives the text back. |
| Text.JoinThenSplit | app.js:766-767 | Splitting a join of separator-free pieces gives the pieces back. |
| ZoomChat.NonEmpty | app.js:768 | `filter(Boolean)` keeps exactly the non-empty lines. |
| ZoomChat.NonEmptyAppend | app.js:768 | The filter keeps order: filtering a concatenation concatenates the filtered parts. |
| ZoomChat.ParseLine | app.js:769-772 | Neither the time nor the name of a parsed line holds a tab. |
| ZoomChat.ParseLines | app.js:769-772 | One record per line, each the parse of its line. |
| ZoomChat.ParseChat | app.js:766-772 | The k-th record is the parse of the k-th non-empty line of the text. |
| ZoomChat.TabsInMessageBecomeSpaces | app.js:770-771 | A line splits into time, name and message, with the message's own tabs turned into spaces. |
| ZoomChat.LineWithoutTab | app.js:770-771 | A line without a tab is all time, with no name and an empty message. |
| ZoomChat.ParseFormatLine | app.js:770-771 | Parsing a tab-separated line of separator-free fields gives the record back. |
| ZoomChat.ParseFormatChat | app.js:766-772 | Parsing a transcript of such records gives exactly those records back. |
| ZoomRecordings.ToLowerAscii | app.js:745 | Same length; each ASCII capital is lowered and every other character is kept. |
| ZoomRecordings.Extension | app.js:745 | The extension has the file type's length and no ASCII capital. |
| ZoomRecordings.StoredMentions | app.js:750-753 | No contract: some stored download URL contains the file id as a substring. |
| ZoomRecordings.Step | app.js:743-796 | A file is handled exactly when it has a download URL, its key is not cached, and no stored URL mentions it. Otherwise nothing changes. A handled file's key is cached, and at most its own uploaded URL is added. A handled chat file's parsed transcript becomes the chat, and otherwise the chat is kept. |
| ZoomRecordings.ScanAll | app.js:743-796 | No more files are handled than given, and no more URLs uploaded than files handled. |
| ZoomRecordings.Updated | app.js:773-776 | A missing record stays missing. Otherwise the meeting is kept, the old downloads stay as a prefix followed by the uploaded URLs, and the chat is replaced only when one was parsed. |
| ZoomRecordings.KeyInjective | app.js:747 | Within one meeting, the key `meetingId-fileId` determines the file id. |
| ZoomRecordings.HandledOnce | app.js:743-759 | Every handled file has a download URL and is not mentioned by a stored URL. No two handled files share a key. The cache holds exactly their keys. |
| ZoomRecordings.EligibleFilesCovered | app.js:743-759 | Every eligible file's key ends up in the cache, so no eligible file is skipped unhandled. |
| ZoomRecordings.UploadsOfHandledVideos | app.js:780-795 | The uploaded URLs are exactly those of handled video files whose upload succeeded. |
| ZoomRecordings.ChatFromHandledFile | app.js:761-777 | The chat written, if any, is the parse of a handled chat file's transcript. |
| ZoomRecordings.ChatIsLastHandledChat | app.js:761-777 | The chat the loop writes is the parse of the last handled chat file's transcript, and none when no chat file was handled. |
| ZoomRecordings.LastChatSomeIffChat | app.js:761-777 | The last chat file's parse exists exactly when some chat file is among the handled files. |
| ZoomRecordings.ChatWrittenIffChatHandled | app.js:761-777 | The loop writes a chat exactly when it handles some chat file. |
| ZoomRecordings.RedeliveryUploadsNothing | app.js:743-802 | With distinct file ids and uploaded URLs that name their file, a second delivery against the updated record uploads nothing. |
| ZoomRecordings.RecordingCompleted | app.js:716-804 | The loop leaves the record as `Updated` of the scan: a missing record stays missing, the chat is replaced when the scan wrote one, and the uploaded URLs are appended after the stored ones. |

## Left out

- Express routing, middleware, authentication, HTTP status plumbing and the `catchAsync` wrapper are not modelled. Answers are datatypes.
- Luxon time-zone conversion (`DateTime.fromISO(...).toUTC()`) is not modelled. All times arrive as UTC instants, so an unparsable date is not modelled either.
- JavaScript truthiness of the teacher controller's request fields is modelled as `Option`. There, `None` stands for an absent or empty field. An amount of 0 is kept as `Some(0.0)`, and `SpecialSlots.Complete` refuses it explicitly, as `!amount` does. Stripe metadata values follow the encoding given above, not this one.
- Money is exact. Floating-point rounding in `pi.amount / 100` and in `(amount - fee) * 0.9` is not modelled.
- The `last7`/`last30` earnings filters depend on the current date, and the year filter depends on parsing. The model takes the resulting date range as an input (`Earnings.Window`).
- The regex search of EarningsGet (controller/teacherController.js:465-479), the booking list it returns, and its sorting and `populate` calls are not modelled. Only the earnings summary is modelled.
- Stripe signature verification (app.js:78) is an input flag, and `paymentIntents.retrieve` (app.js:128) is an input record.
- Sending e-mail is not modelled. This covers the templates, `sendEmail` and the e-mails after each webhook branch. The bulk branch's e-mail code throws (app.js:225), which is modelled only as its outcome: a 500 after the records are saved.
- The JWT link of SpecialSlotCreate and the check of `slot.save()` returning nothing are not modelled.
- `User.findById(student)` is an input flag (`studentExists`).
- Zoom URL validation (HMAC), OAuth token refresh, downloads and uploads to storage are not modelled. The transcript download and the upload are function inputs, and an upload that returns nothing is `None`.
- The Zoom webhook's other events, the empty-meeting timer map (app.js:700) and cron jobs are not modelled.
- Concurrency is not modelled. Concurrent deliveries of one Stripe event can both pass the `payment_id` lookup. Only sequential redelivery is proved to write once.
- ODM strict mode is not modelled. Paths a schema does not declare are not stripped. The booking's `specialSlotId` link (app.js:341-343) is stored as the handler intends, although model/booking.js declares no such path. Likewise `srNo`, `currency` and `notes` on a booking, and `isWallet` on a payment, are ignored rather than stripped.
- JsNumbers.ParseInt: the magnitude is an exact integer, where JavaScript's Number rounds it past 2^53. The ToString of a non-string argument is modelled only for `undefined` and the number 1, the two arguments this code passes besides text.
- Automatic `created_at` and `timestamps` fields are not modelled.
- StripeWebhook.RechargeWallet, StripeWebhook.RecordBulkPurchase, StripeWebhook.RecordBonus: every write after the StripePayment is taken to succeed. This covers `Wallet.create`, `wallet.save`, `WalletTransaction.create`, `bulkLesson.save`, `Bonus.create` and `Bookings.findOneAndUpdate`. In the code, any of them can throw to the catch-all 500 (app.js:630-633) with the payment already saved. The Wallet, WalletTransaction, BulkLesson and Bonus schemas are not part of this model, so their validation is not modelled.
- StripeWebhook.Checkout: the bulk, bonus and booking branches store `pi.id` as `payment_id` (app.js:196, 249, 300), and the model stores `session.payment_intent`. `paymentIntents.retrieve(id)` (app.js:128) is taken to return the intent with the requested id, so the two agree.
- StripeWebhook.RecordBonus: a bonus whose metadata has no booking id updates no booking. The ODM's handling of an undefined filter value is not modelled.
- ZoomRecordings.Extension: a file without `file_type` (where `toLowerCase` throws) is not modelled. `toLowerCase` is modelled on ASCII letters only.
- Exceptions thrown inside the Zoom loop (a failed download) are not modelled. The catch-all only logs.
- Commented-out code, `updateProfile` and the other controllers are not modelled.
- Availability.AvailabilityStore: the store holds every teacher's blocks, and `findById` ignores the teacher, as the handler does. Ownership checks are not modelled because the handlers make none.

## Findings

| source | as written | input that shows it | evidently intended | confidence | as-written member | corrected member |
|---|---|---|---|---|---|---|
| controller/teacherController.js:184-192 | Each `bookedSlots` entry reads `b.student` and `b.lesson`. A Booking has no such paths (they are `UserId` and `LessonId`), so both are always undefined. | Any teacher with one active booking that meets a block: its entry has neither student nor lesson. | The entry names the booking's student and lesson. | not executed; high (the paths are absent from model/booking.js) | SlotDerivation.ViewAsWrittenLosesStudents | SlotDerivation.BookedSlotsNameStudents |
| controller/teacherController.js:529-533 | When no booking is counted, the fallback `earningsSummary` has `totalEarnings`, `pendingEarnings` and `approvedEarnings`, but no `requestedEarnings`. | A teacher with no completed booking: `requestedEarnings` is missing, where any counted booking yields it. | All four buckets are present, and 0. | not executed; medium (the same object is repeated at lines 692-696) | Earnings.FallbackLacksRequested | Earnings.SummaryIsGroupedOrZero |
