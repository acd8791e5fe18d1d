/**
 * The bookkeeping of the Stripe webhook (app.js:69-636) for
 * `checkout.session.completed`: a paid session whose payment intent has no
 * StripePayment yet is recorded by exactly one of four branches (a wallet
 * recharge, a bulk lesson purchase, a bonus, or a lesson booking), chosen by
 * the session's metadata.
 */
module StripeWebhook {
  import opened Wrappers
  import opened Values
  import opened BookingSchema
  import opened StripePaymentSchema
  import opened SpecialSlots
  import opened JsNumbers

  // ---------------------------------------------------------------------------
  // Inputs

  /**
   * `session.metadata`. Stripe metadata values are strings. The four flags keep
   * their text (JavaScript truthiness is `Truthy`), and so does `srNo`, which
   * the handler reads with `parseInt`. Ids and the other numbers are given as
   * the value the handler's conversion yields, with `None` where that
   * conversion gives `undefined` or NaN: an absent value or text that is not a
   * number. Empty text is the number 0, as `Number("")` and `x - ""` read it.
   */
  datatype Metadata = Metadata(
    isWallet: MetaString,
    isBulk: MetaString,
    isBonus: MetaString,
    isSpecial: MetaString,
    userId: Option<ObjectId>,
    teacherId: Option<ObjectId>,
    lessonId: Option<ObjectId>,
    bookingId: Option<ObjectId>,
    srNo: MetaString,
    amount: Option<Money>,
    processingFee: Option<Money>,
    adminCommission: Option<Money>,
    multipleLessons: Option<int>,
    startDateTime: Option<Instant>,
    endDateTime: Option<Instant>)

  /** The checkout session; `paymentIntent` is the id of its payment intent. */
  datatype Session = Session(paymentStatus: string, paymentIntent: string, metadata: Metadata)

  /** What `stripe.paymentIntents.retrieve(session.payment_intent)` returns; `amount` is in minor units. */
  datatype PaymentIntent = PaymentIntent(amount: int, currency: string, status: string)

  /** A verified event; any type other than `checkout.session.completed` only logs. */
  datatype StripeEvent =
    | CheckoutSessionCompleted(session: Session, intent: PaymentIntent)
    | OtherEvent(kind: string)

  // ---------------------------------------------------------------------------
  // Records the webhook writes

  datatype Wallet = Wallet(id: ObjectId, userId: Option<ObjectId>, balance: Money)

  datatype WalletTransaction = WalletTransaction(
    id: ObjectId, userId: Option<ObjectId>, kind: string, amount: Money, reason: string,
    stripePaymentId: ObjectId, balance: Money)

  datatype BulkLesson = BulkLesson(
    id: ObjectId, teacherId: Option<ObjectId>, userId: Option<ObjectId>, lessonId: Option<ObjectId>,
    stripePaymentId: ObjectId, totalAmount: Option<Money>, teacherEarning: Money,
    adminCommission: Option<Money>, processingFee: Money, totalLessons: int, lessonsRemaining: int)

  datatype Bonus = Bonus(
    id: ObjectId, userId: Option<ObjectId>, teacherId: Option<ObjectId>, lessonId: Option<ObjectId>,
    bookingId: Option<ObjectId>, amount: Option<Money>, currency: string, stripePaymentId: ObjectId)

  /** The collections the webhook reads and writes; `nextId` is the next fresh `_id`. */
  datatype Db = Db(
    payments: seq<StripePayment>,
    bookings: seq<Booking>,
    wallets: seq<Wallet>,
    transactions: seq<WalletTransaction>,
    bulkLessons: seq<BulkLesson>,
    bonuses: seq<Bonus>,
    specialSlots: seq<SpecialSlot>,
    nextId: ObjectId)

  /**
   * The HTTP answer: `{ received: true }`, 400 for a bad signature, 500 from
   * the catch-all, or none at all (the bonus branch returns without answering).
   */
  datatype Response = Received | BadSignature | ServerError | NoResponse

  datatype Outcome = Outcome(response: Response, db: Db)

  // ---------------------------------------------------------------------------
  // Lookups

  /** `Wallet.findOne({ userId })`; an unset user id matches a wallet stored without one. */
  function WalletOf(wallets: seq<Wallet>, user: Option<ObjectId>): (r: Option<nat>)
    ensures r.Some? ==> r.value < |wallets| && wallets[r.value].userId == user
    ensures r.Some? ==> forall k :: 0 <= k < r.value ==> wallets[k].userId != user
    ensures r.None? <==> forall w :: w in wallets ==> w.userId != user
  {
    if |wallets| == 0 then None
    else if wallets[0].userId == user then Some(0)
    else
      var r := WalletOf(wallets[1..], user);
      assert forall w :: w in wallets ==> w == wallets[0] || w in wallets[1..];
      if r.Some? then Some(r.value + 1) else None
  }

  /** `SpecialSlot.findOneAndUpdate({ student, lesson, startDateTime }, ...)`: the first such slot. */
  function SlotFor(slots: seq<SpecialSlot>, student: ObjectId, lesson: ObjectId, start: Instant): (r: Option<nat>)
    ensures r.Some? ==> r.value < |slots| && SlotMatches(slots[r.value], student, lesson, start)
    ensures r.Some? ==> forall k :: 0 <= k < r.value ==> !SlotMatches(slots[k], student, lesson, start)
    ensures r.None? <==> forall k :: 0 <= k < |slots| ==> !SlotMatches(slots[k], student, lesson, start)
  {
    if |slots| == 0 then None
    else if SlotMatches(slots[0], student, lesson, start) then Some(0)
    else
      var r := SlotFor(slots[1..], student, lesson, start);
      if r.Some? then Some(r.value + 1) else None
  }

  predicate SlotMatches(s: SpecialSlot, student: ObjectId, lesson: ObjectId, start: Instant)
  {
    s.student == student && s.lesson == lesson && s.startDateTime == start
  }

  // ---------------------------------------------------------------------------
  // The branches

  /** The four branches, in the order app.js:145, 192, 245 and 279 try them. */
  datatype BranchKind = WalletRecharge | BulkPurchase | BonusPayment | LessonBooking

  function BranchOf(md: Metadata): (k: BranchKind)
    ensures k == WalletRecharge <==> Truthy(md.isWallet)
    ensures k == BulkPurchase <==> !Truthy(md.isWallet) && md.isBulk == Some("true")
    ensures k == BonusPayment <==> !Truthy(md.isWallet) && md.isBulk != Some("true") && Truthy(md.isBonus)
    ensures k == LessonBooking <==> !Truthy(md.isWallet) && md.isBulk != Some("true") && !Truthy(md.isBonus)
  {
    if Truthy(md.isWallet) then WalletRecharge
    else if md.isBulk == Some("true") then BulkPurchase
    else if Truthy(md.isBonus) then BonusPayment
    else LessonBooking
  }

  /** `pi.amount / 100`. */
  function MajorUnits(pi: PaymentIntent): Money
  {
    pi.amount as real / 100.0
  }

  /** `parseInt(metadata.srNo)`: an absent value converts to the text "undefined". */
  function Serial(md: Metadata): Option<int>
  {
    ParseInt(md.srNo.GetOr("undefined"))
  }

  /** `parseInt(metadata.srNo || 1)` (app.js:298): a falsy value is replaced by the number 1, whose text is "1". */
  function BookingSerial(md: Metadata): Option<int>
  {
    ParseInt(if Truthy(md.srNo) then md.srNo.value else "1")
  }

  /** The StripePayment paths every branch supplies the same way. */
  function PaymentFieldsFor(s: Session, pi: PaymentIntent, srNo: Option<int>, lessonId: Option<ObjectId>,
                            amount: Option<Money>, isBonus: Option<bool>): PaymentFields
  {
    PaymentFields(srNo := srNo, paymentStatus := Some(pi.status), paymentType := Some("card"),
                  lessonId := lessonId, userId := s.metadata.userId, paymentId := Some(s.paymentIntent),
                  amount := amount, currency := Some(pi.currency), isBonus := isBonus)
  }

  /**
   * app.js:145-190. The recharge amount is `Number(metadata.amount)`; the
   * user's wallet, created with balance 0 when missing, is credited with it,
   * and one credit transaction records the new balance.
   */
  function RechargeWallet(db: Db, s: Session, pi: PaymentIntent): (r: Outcome)
    ensures r.response == Received || (r.response == ServerError && r.db == db)
    ensures r.response == Received ==>
      |r.db.payments| == |db.payments| + 1 && |r.db.transactions| == |db.transactions| + 1
      && |db.wallets| <= |r.db.wallets| <= |db.wallets| + 1
  {
    var md := s.metadata;
    var created := NewStripePayment(db.nextId, PaymentFieldsFor(s, pi, Serial(md), None, md.amount, None));
    if created.Err? then Outcome(ServerError, db)
    else
      var payment := created.value;
      var found := WalletOf(db.wallets, md.userId);
      var wallets := if found.None? then db.wallets + [OpenedWallet(db, s)] else db.wallets;
      var k := if found.None? then |db.wallets| else found.value;
      var newBalance := wallets[k].balance + payment.amount;
      var txId := if found.None? then db.nextId + 2 else db.nextId + 1;
      var tx := WalletTransaction(txId, md.userId, "credit", payment.amount, "Wallet Recharge", payment.id, newBalance);
      Outcome(Received, db.(payments := db.payments + [payment],
                            wallets := wallets[k := wallets[k].(balance := newBalance)],
                            transactions := db.transactions + [tx],
                            nextId := txId + 1))
  }

  /**
   * app.js:192-217: the payment and the bulk record are saved; the e-mail code
   * that follows names variables that do not exist, so the request ends in the
   * catch-all 500 (app.js:225, 630-633).
   */
  function RecordBulkPurchase(db: Db, s: Session, pi: PaymentIntent): (r: Outcome)
    ensures r.response == ServerError
    ensures r.db == db || (|r.db.payments| == |db.payments| + 1 && |r.db.bulkLessons| == |db.bulkLessons| + 1)
  {
    var md := s.metadata;
    var amt := MajorUnits(pi);
    var created := NewStripePayment(db.nextId, PaymentFieldsFor(s, pi, Serial(md), md.lessonId, Some(amt), None));
    if created.Err? then Outcome(ServerError, db)
    else
      var lessons := md.multipleLessons.GetOr(0);
      var bulk := BulkLesson(
        id := db.nextId + 1, teacherId := md.teacherId, userId := md.userId, lessonId := md.lessonId,
        stripePaymentId := created.value.id,
        totalAmount := if amt != 0.0 then Some(amt) else md.amount,
        teacherEarning := if md.processingFee.Some? then (amt - md.processingFee.value) * 0.9 else 0.0,
        adminCommission := md.adminCommission, processingFee := md.processingFee.GetOr(0.0),
        totalLessons := lessons, lessonsRemaining := lessons);
      Outcome(ServerError, db.(payments := db.payments + [created.value],
                               bulkLessons := db.bulkLessons + [bulk],
                               nextId := db.nextId + 2))
  }

  /**
   * app.js:245-276: a bonus payment, its Bonus record, and the booking it
   * rewards marked with it; the handler then returns without answering.
   */
  function RecordBonus(db: Db, s: Session, pi: PaymentIntent): (r: Outcome)
    ensures r.response == NoResponse || (r.response == ServerError && r.db == db)
    ensures |r.db.bookings| == |db.bookings|
    ensures r.response == NoResponse ==> |r.db.payments| == |db.payments| + 1 && |r.db.bonuses| == |db.bonuses| + 1
  {
    var md := s.metadata;
    var created := NewStripePayment(db.nextId, PaymentFieldsFor(s, pi, Serial(md), md.lessonId, Some(MajorUnits(pi)), Some(true)));
    if created.Err? then Outcome(ServerError, db)
    else
      var bonus := Bonus(db.nextId + 1, md.userId, md.teacherId, md.lessonId, md.bookingId, md.amount,
                         pi.currency, created.value.id);
      var target := if md.bookingId.Some? then IndexOf(db.bookings, md.bookingId.value) else None;
      var bookings := if target.Some?
        then db.bookings[target.value := db.bookings[target.value].(isBonus := true, bonusId := Some(bonus.id))]
        else db.bookings;
      Outcome(NoResponse, db.(payments := db.payments + [created.value], bonuses := db.bonuses + [bonus],
                              bookings := bookings, nextId := db.nextId + 2))
  }

  /** The paths `new Bookings({...})` supplies at app.js:310-324. */
  function BookingFieldsFor(md: Metadata, pi: PaymentIntent, paymentId: ObjectId): (f: BookingFields)
    ensures f.stripePaymentId == Some(paymentId) && f.totalAmount.Some? && f.processingFee.Some?
    ensures f.teacherEarning.None? <==> md.processingFee.None?
  {
    var amt := MajorUnits(pi);
    BookingFields(
      teacherId := md.teacherId, userId := md.userId, lessonId := md.lessonId,
      stripePaymentId := Some(paymentId),
      startDateTime := md.startDateTime, endDateTime := md.endDateTime,
      totalAmount := Some(amt),
      // `(pi.amount / 100 - metadata.processingFee) * 0.9` is NaN without a fee
      teacherEarning := if md.processingFee.Some? then Some((amt - md.processingFee.value) * 0.9) else None,
      adminCommission := md.adminCommission,
      processingFee := Some(md.processingFee.GetOr(0.0)))
  }

  /**
   * app.js:279-396: the payment is saved (a blank `srNo` reads as 1, and text
   * that is not a number fails the save), then the booking; a special slot
   * matching the student, lesson and start is marked paid, and the booking is
   * linked to it only when one was found.
   */
  function RecordBooking(db: Db, s: Session, pi: PaymentIntent): (r: Outcome)
    ensures BookingSerial(s.metadata).None? ==> r == Outcome(ServerError, db)
    ensures BookingSerial(s.metadata).Some? ==> |r.db.payments| == |db.payments| + 1
    ensures r.response == Received || r.response == ServerError
    ensures r.response == Received <==> |r.db.bookings| == |db.bookings| + 1
    ensures r.response == ServerError ==> r.db.bookings == db.bookings
  {
    FileBooking(db, s, pi, BookingSerial(s.metadata))
  }

  /** RecordBooking once the serial number is read. */
  function FileBooking(db: Db, s: Session, pi: PaymentIntent, srNo: Option<int>): Outcome
  {
    var md := s.metadata;
    var saving := NewStripePayment(db.nextId, PaymentFieldsFor(s, pi, srNo, md.lessonId, Some(MajorUnits(pi)), None));
    if saving.Err? then Outcome(ServerError, db)
    else
      var payment := saving.value;
      var created := NewBooking(db.nextId + 1, BookingFieldsFor(md, pi, payment.id));
      var saved := db.(payments := db.payments + [payment], nextId := db.nextId + 2);
      if created.Err? then Outcome(ServerError, saved)
      else
        var booking := created.value;
        var slot := if Truthy(md.isSpecial)
          then SlotFor(db.specialSlots, booking.userId, booking.lessonId, booking.startDateTime)
          else None;
        if slot.None? then Outcome(Received, saved.(bookings := db.bookings + [booking]))
        else
          var k := slot.value;
          Outcome(Received, saved.(
            bookings := db.bookings + [booking.(specialSlotId := Some(db.specialSlots[k].id))],
            specialSlots := db.specialSlots[k := db.specialSlots[k].(paymentStatus := Some("paid"))]))
  }

  /** `checkout.session.completed` (app.js:113-396). */
  function Checkout(db: Db, s: Session, pi: PaymentIntent): (r: Outcome)
    ensures r.response != BadSignature
    ensures r.response == NoResponse ==> BranchOf(s.metadata) == BonusPayment
  {
    if s.paymentStatus != "paid" then Outcome(Received, db)
    else if FindByPaymentId(db.payments, s.paymentIntent).Some? then Outcome(Received, db)
    else
      match BranchOf(s.metadata)
      case WalletRecharge => RechargeWallet(db, s, pi)
      case BulkPurchase => RecordBulkPurchase(db, s, pi)
      case BonusPayment => RecordBonus(db, s, pi)
      case LessonBooking => RecordBooking(db, s, pi)
  }

  /** The whole webhook: `signatureValid` is whether `constructEvent` accepted the request. */
  function Webhook(db: Db, signatureValid: bool, e: StripeEvent): (r: Outcome)
    ensures r.response == BadSignature <==> !signatureValid
    ensures r.db != db ==> signatureValid && e.CheckoutSessionCompleted?
  {
    if !signatureValid then Outcome(BadSignature, db)
    else
      match e
      case CheckoutSessionCompleted(s, pi) => Checkout(db, s, pi)
      case OtherEvent(_) => Outcome(Received, db)
  }

  // ---------------------------------------------------------------------------
  // Properties: what is written, and when

  /** A session that is not paid is acknowledged and nothing is written. */
  lemma UnpaidSessionWritesNothing(db: Db, s: Session, pi: PaymentIntent)
    requires s.paymentStatus != "paid"
    ensures Webhook(db, true, CheckoutSessionCompleted(s, pi)) == Outcome(Received, db)
  {
  }

  /** A payment intent that already has a StripePayment is acknowledged and nothing is written. */
  lemma KnownPaymentWritesNothing(db: Db, s: Session, pi: PaymentIntent, k: nat)
    requires k < |db.payments| && db.payments[k].paymentId == Some(s.paymentIntent)
    ensures Checkout(db, s, pi) == Outcome(Received, db)
  {
  }

  /** Nothing is written for a request whose signature fails, nor for an event that is not a checkout. */
  lemma OnlyCheckoutWrites(db: Db, signatureValid: bool, e: StripeEvent)
    requires !signatureValid || e.OtherEvent?
    ensures Webhook(db, signatureValid, e).db == db
    ensures Webhook(db, signatureValid, e).response == (if signatureValid then Received else BadSignature)
  {
  }

  /** The payment id occurs among the payments. */
  predicate HasPayment(payments: seq<StripePayment>, pid: string)
  {
    exists k | 0 <= k < |payments| :: payments[k].paymentId == Some(pid)
  }

  /**
   * Every checkout either writes nothing or records a StripePayment for the
   * session's payment intent, in which case it appends exactly that one.
   */
  lemma CheckoutRecordsItsPayment(db: Db, s: Session, pi: PaymentIntent)
    ensures var after := Checkout(db, s, pi).db;
      || after == db
      || (&& !HasPayment(db.payments, s.paymentIntent)
          && |after.payments| == |db.payments| + 1 && after.payments[..|db.payments|] == db.payments
          && after.payments[|db.payments|].paymentId == Some(s.paymentIntent))
  {
    var after := Checkout(db, s, pi).db;
    if after != db {
      assert s.paymentStatus == "paid" && FindByPaymentId(db.payments, s.paymentIntent).None?;
      assert (db.payments + [after.payments[|db.payments|]])[..|db.payments|] == db.payments;
    }
  }

  /** A second delivery of the same event finds the payment the first one recorded and writes nothing. */
  lemma RedeliveryWritesNothing(db: Db, s: Session, pi: PaymentIntent)
    ensures var once := Checkout(db, s, pi).db;
      Checkout(once, s, pi).db == once
  {
    var once := Checkout(db, s, pi).db;
    CheckoutRecordsItsPayment(db, s, pi);
    if once != db {
      var k := |db.payments|;
      assert once.payments[k].paymentId == Some(s.paymentIntent);
      KnownPaymentWritesNothing(once, s, pi, k);
    }
  }

  /** The store after `n` sequential deliveries of the same checkout event. */
  function Deliver(db: Db, s: Session, pi: PaymentIntent, n: nat): Db
    decreases n
  {
    if n == 0 then db else Deliver(Checkout(db, s, pi).db, s, pi, n - 1)
  }

  /** Any number of sequential deliveries leaves the store as one delivery does. */
  lemma {:induction false} RepeatedDeliveryIsOneDelivery(db: Db, s: Session, pi: PaymentIntent, n: nat)
    requires n >= 1
    ensures Deliver(db, s, pi, n) == Checkout(db, s, pi).db
  {
    if n > 1 {
      var once := Checkout(db, s, pi).db;
      RedeliveryWritesNothing(db, s, pi);
      RepeatedOnFixedPoint(once, s, pi, n - 1);
    }
  }

  lemma {:induction false} RepeatedOnFixedPoint(db: Db, s: Session, pi: PaymentIntent, n: nat)
    requires Checkout(db, s, pi).db == db
    ensures Deliver(db, s, pi, n) == db
  {
    if n > 0 {
      RepeatedOnFixedPoint(db, s, pi, n - 1);
    }
  }

  /** Payment ids stay unique: a payment is only ever added for an intent that had none. */
  lemma CheckoutKeepsPaymentIdsUnique(db: Db, s: Session, pi: PaymentIntent)
    requires UniquePaymentIds(db.payments)
    ensures UniquePaymentIds(Checkout(db, s, pi).db.payments)
  {
    var after := Checkout(db, s, pi).db;
    CheckoutRecordsItsPayment(db, s, pi);
    if after != db {
      var n := |db.payments|;
      forall i, j | 0 <= i < j < |after.payments| && after.payments[i].paymentId.Some?
        ensures after.payments[i].paymentId != after.payments[j].paymentId
      {
        assert after.payments[i] == db.payments[i];
        if j < n {
          assert after.payments[j] == db.payments[j];
        } else {
          assert after.payments[i].paymentId != Some(s.paymentIntent);
        }
      }
    }
  }

  // ---------------------------------------------------------------------------
  // Properties: the branches

  /** The collections each branch may write; all others come back unchanged. */
  predicate WritesOnly(before: Db, after: Db, k: BranchKind)
  {
    && (k != WalletRecharge ==> after.wallets == before.wallets && after.transactions == before.transactions)
    && (k != BulkPurchase ==> after.bulkLessons == before.bulkLessons)
    && (k != BonusPayment ==> after.bonuses == before.bonuses)
    && (k != LessonBooking ==> after.specialSlots == before.specialSlots)
    && (k == WalletRecharge || k == BulkPurchase ==> after.bookings == before.bookings)
  }

  /** One branch runs, and it writes only its own records besides the payment. */
  lemma OneBranchRuns(db: Db, s: Session, pi: PaymentIntent)
    ensures WritesOnly(db, Checkout(db, s, pi).db, BranchOf(s.metadata))
  {
  }

  /** `isWallet` is checked for truthiness, so even the text "false" selects the wallet branch. */
  lemma WalletFlagFalseStillRecharges(md: Metadata)
    requires md.isWallet == Some("false")
    ensures BranchOf(md) == WalletRecharge
  {
  }

  /** `isBulk` must be exactly "true"; any other text falls through to the later branches. */
  lemma BulkFlagMustBeTrueText(md: Metadata)
    requires !Truthy(md.isWallet) && md.isBulk == Some("yes") && !Truthy(md.isBonus)
    ensures BranchOf(md) == LessonBooking
  {
  }

  /**
   * The wallet credit (app.js:162-186): the user's wallet, new with balance 0
   * if there was none, ends with its old balance plus the recharge, every
   * other wallet is unchanged, and one credit transaction records the amount
   * and the new balance.
   */
  lemma WalletCredit(db: Db, s: Session, pi: PaymentIntent)
    requires s.paymentStatus == "paid" && !HasPayment(db.payments, s.paymentIntent)
    requires Truthy(s.metadata.isWallet) && Serial(s.metadata).Some? && s.metadata.amount.Some?
    ensures var md := s.metadata;
      var r := Checkout(db, s, pi);
      var amount := md.amount.value;
      && r.response == Received
      && |r.db.transactions| == |db.transactions| + 1
      && r.db.transactions[..|db.transactions|] == db.transactions
      && var tx := r.db.transactions[|db.transactions|];
      && tx.kind == "credit" && tx.amount == amount && tx.userId == md.userId
      && tx.stripePaymentId == r.db.payments[|db.payments|].id
      && match WalletOf(db.wallets, md.userId)
        case None =>
          && r.db.wallets == db.wallets + [Wallet(db.nextId + 1, md.userId, amount)]
          && tx.balance == amount
        case Some(k) =>
          && r.db.wallets == db.wallets[k := db.wallets[k].(balance := db.wallets[k].balance + amount)]
          && tx.balance == db.wallets[k].balance + amount
  {
    assert FindByPaymentId(db.payments, s.paymentIntent).None?;
  }

  /** A bulk purchase record starts with every lesson remaining (app.js:205-216). */
  lemma BulkStartsWithAllLessonsRemaining(db: Db, s: Session, pi: PaymentIntent)
    requires s.paymentStatus == "paid" && !HasPayment(db.payments, s.paymentIntent)
    requires BranchOf(s.metadata) == BulkPurchase && Serial(s.metadata).Some?
    ensures var r := Checkout(db, s, pi);
      && r.response == ServerError
      && |r.db.bulkLessons| == |db.bulkLessons| + 1 && r.db.bulkLessons[..|db.bulkLessons|] == db.bulkLessons
      && var b := r.db.bulkLessons[|db.bulkLessons|];
      && b.totalLessons == s.metadata.multipleLessons.GetOr(0)
      && b.lessonsRemaining == b.totalLessons
      && b.stripePaymentId == r.db.payments[|db.payments|].id
  {
    assert FindByPaymentId(db.payments, s.paymentIntent).None?;
  }

  /** A bulk purchase without a numeric `srNo` fails to save its payment, so nothing is written. */
  lemma BulkWithoutSerialWritesNothing(db: Db, s: Session, pi: PaymentIntent)
    requires BranchOf(s.metadata) == BulkPurchase && Serial(s.metadata).None?
    ensures Checkout(db, s, pi).db == db
  {
  }

  /** The booking the lesson branch would save, given the payment it saved first. */
  function IntendedBooking(db: Db, s: Session, pi: PaymentIntent): Result<Booking, seq<RequiredPath>>
  {
    NewBooking(db.nextId + 1, BookingFieldsFor(s.metadata, pi, db.nextId))
  }

  /**
   * The lesson branch saves one booking tied to the new payment. For a special
   * session the matching slot is marked paid and the booking is linked to it;
   * without a matching slot, or for a regular session, no slot changes and the
   * booking stays unlinked (app.js:328-344).
   */
  lemma BookingLinkedToSpecialSlotOnlyWhenFound(db: Db, s: Session, pi: PaymentIntent)
    requires s.paymentStatus == "paid" && !HasPayment(db.payments, s.paymentIntent)
    requires BranchOf(s.metadata) == LessonBooking && BookingSerial(s.metadata).Some? && IntendedBooking(db, s, pi).Ok?
    ensures var r := Checkout(db, s, pi);
      var intended := IntendedBooking(db, s, pi).value;
      var slot := SlotFor(db.specialSlots, intended.userId, intended.lessonId, intended.startDateTime);
      && r.response == Received
      && |r.db.bookings| == |db.bookings| + 1 && r.db.bookings[..|db.bookings|] == db.bookings
      && var saved := r.db.bookings[|db.bookings|];
      && saved.stripePaymentId == Some(r.db.payments[|db.payments|].id)
      && (if Truthy(s.metadata.isSpecial) && slot.Some? then
            && saved == intended.(specialSlotId := Some(db.specialSlots[slot.value].id))
            && r.db.specialSlots == db.specialSlots[slot.value := db.specialSlots[slot.value].(paymentStatus := Some("paid"))]
          else
            && saved == intended
            && r.db.specialSlots == db.specialSlots)
  {
    assert FindByPaymentId(db.payments, s.paymentIntent).None?;
  }

  /**
   * A booking that fails validation leaves its payment saved and answers 500;
   * Stripe's retry then finds the payment and acknowledges, so the booking is
   * never created.
   */
  lemma FailedBookingStrandsPayment(db: Db, s: Session, pi: PaymentIntent)
    requires s.paymentStatus == "paid" && !HasPayment(db.payments, s.paymentIntent)
    requires BranchOf(s.metadata) == LessonBooking && BookingSerial(s.metadata).Some? && IntendedBooking(db, s, pi).Err?
    ensures var r := Checkout(db, s, pi);
      && r.response == ServerError
      && r.db.bookings == db.bookings
      && HasPayment(r.db.payments, s.paymentIntent)
      && Checkout(r.db, s, pi) == Outcome(Received, r.db)
  {
    assert FindByPaymentId(db.payments, s.paymentIntent).None?;
    var r := Checkout(db, s, pi);
    assert r.db.payments[|db.payments|].paymentId == Some(s.paymentIntent);
  }

  /**
   * The lesson branch reads `parseInt(metadata.srNo || 1)` (app.js:298): a
   * blank `srNo` saves the payment with serial 1, ...
   */
  lemma BlankSerialBookingSavesSerialOne(db: Db, s: Session, pi: PaymentIntent)
    requires s.paymentStatus == "paid" && !HasPayment(db.payments, s.paymentIntent)
    requires BranchOf(s.metadata) == LessonBooking && !Truthy(s.metadata.srNo)
    ensures var r := Checkout(db, s, pi);
      && |r.db.payments| == |db.payments| + 1
      && r.db.payments[|db.payments|].srNo == 1
      && r.db.payments[|db.payments|].paymentId == Some(s.paymentIntent)
  {
    ParseIntOne();
    assert FindByPaymentId(db.payments, s.paymentIntent).None?;
  }

  /** ... the decimal text of any integer saves that integer, ... */
  lemma DecimalSerialBookingSavesIt(db: Db, s: Session, pi: PaymentIntent, n: int)
    requires s.paymentStatus == "paid" && !HasPayment(db.payments, s.paymentIntent)
    requires BranchOf(s.metadata) == LessonBooking && s.metadata.srNo == Some(DecimalText(n))
    ensures var r := Checkout(db, s, pi);
      && |r.db.payments| == |db.payments| + 1
      && r.db.payments[|db.payments|].srNo == n
  {
    ParseIntDecimal(n, []);
    assert DecimalText(n) + [] == DecimalText(n);
    NatTextStartsWithDigit(if n < 0 then -n else n, []);
    assert Truthy(s.metadata.srNo);
    assert FindByPaymentId(db.payments, s.paymentIntent).None?;
  }

  /**
   * ... while text with no decimal digit makes it NaN: the payment fails its
   * Number cast, and the catch-all answers 500 with nothing written, so a
   * retry runs the same branch again.
   */
  lemma NonNumericSerialBookingWritesNothing(db: Db, s: Session, pi: PaymentIntent)
    requires s.paymentStatus == "paid" && !HasPayment(db.payments, s.paymentIntent)
    requires BranchOf(s.metadata) == LessonBooking && Truthy(s.metadata.srNo)
    requires forall k :: 0 <= k < |s.metadata.srNo.value| ==> !IsDecimalDigit(s.metadata.srNo.value[k])
    ensures Checkout(db, s, pi) == Outcome(ServerError, db)
  {
    NoDigitIsNaN(s.metadata.srNo.value);
    assert FindByPaymentId(db.payments, s.paymentIntent).None?;
  }

  /** The other branches read `parseInt(metadata.srNo)`, which is NaN for an absent `srNo`. */
  lemma AbsentSerialIsNaN(md: Metadata)
    requires md.srNo.None?
    ensures Serial(md).None?
  {
    ParseIntUndefined();
  }

  /**
   * The teacher's earning is computed from `metadata.processingFee` without the
   * `|| 0` applied to the stored fee, so a session without a fee computes NaN
   * and its booking fails validation.
   */
  lemma BookingWithoutFeeFails(db: Db, s: Session, pi: PaymentIntent)
    requires s.metadata.processingFee.None?
    ensures IntendedBooking(db, s, pi).Err?
    ensures TeacherEarningPath in IntendedBooking(db, s, pi).error
  {
  }

  /** The bonus branch marks the rewarded booking and answers nothing (app.js:245-276). */
  lemma BonusMarksBooking(db: Db, s: Session, pi: PaymentIntent, k: nat)
    requires s.paymentStatus == "paid" && !HasPayment(db.payments, s.paymentIntent)
    requires BranchOf(s.metadata) == BonusPayment && Serial(s.metadata).Some?
    requires s.metadata.bookingId.Some? && IndexOf(db.bookings, s.metadata.bookingId.value) == Some(k)
    ensures var r := Checkout(db, s, pi);
      && r.response == NoResponse
      && |r.db.bonuses| == |db.bonuses| + 1
      && r.db.bookings == db.bookings[k := db.bookings[k].(isBonus := true, bonusId := Some(r.db.bonuses[|db.bonuses|].id))]
      && r.db.payments[|db.payments|].isBonus
  {
    assert FindByPaymentId(db.payments, s.paymentIntent).None?;
  }

  // ---------------------------------------------------------------------------
  // The wallet ledger

  /** The credits recorded for `user`. */
  function CreditedTo(txs: seq<WalletTransaction>, user: Option<ObjectId>): Money
  {
    if txs == [] then 0.0
    else (if txs[0].kind == "credit" && txs[0].userId == user then txs[0].amount else 0.0) + CreditedTo(txs[1..], user)
  }

  /**
   * One wallet per user, each holding exactly the credits recorded for its
   * user, and no credit for a user without a wallet. (Debits, written outside
   * this webhook, are not part of this model.)
   */
  ghost predicate Balanced(wallets: seq<Wallet>, txs: seq<WalletTransaction>)
  {
    && (forall i, j :: 0 <= i < j < |wallets| ==> wallets[i].userId != wallets[j].userId)
    && (forall w :: w in wallets ==> w.balance == CreditedTo(txs, w.userId))
    && (forall t :: t in txs && t.kind == "credit" ==> WalletOf(wallets, t.userId).Some?)
  }

  ghost predicate LedgerBalanced(db: Db)
  {
    Balanced(db.wallets, db.transactions)
  }

  lemma {:induction false} CreditedToAppend(txs: seq<WalletTransaction>, tx: WalletTransaction, user: Option<ObjectId>)
    ensures CreditedTo(txs + [tx], user)
         == CreditedTo(txs, user) + (if tx.kind == "credit" && tx.userId == user then tx.amount else 0.0)
  {
    if txs == [] {
      assert [] + [tx] == [tx] && [tx][1..] == [];
    } else {
      CreditedToAppend(txs[1..], tx, user);
      assert (txs + [tx])[1..] == txs[1..] + [tx];
    }
  }

  lemma {:induction false} NoCreditsNoSum(txs: seq<WalletTransaction>, user: Option<ObjectId>)
    requires forall t :: t in txs && t.kind == "credit" ==> t.userId != user
    ensures CreditedTo(txs, user) == 0.0
  {
    if txs != [] {
      assert txs[0] in txs;
      assert forall t :: t in txs[1..] ==> t in txs;
      NoCreditsNoSum(txs[1..], user);
    }
  }

  /** Opening an empty wallet for a user who has none keeps the ledger balanced. */
  lemma OpenWalletBalanced(wallets: seq<Wallet>, txs: seq<WalletTransaction>, w: Wallet)
    requires Balanced(wallets, txs)
    requires WalletOf(wallets, w.userId).None? && w.balance == 0.0
    ensures Balanced(wallets + [w], txs)
  {
    var all := wallets + [w];
    NoCreditsNoSum(txs, w.userId);
    forall i, j | 0 <= i < j < |all| ensures all[i].userId != all[j].userId {
      assert all[i] == wallets[i] && wallets[i] in wallets;
    }
    forall x | x in all ensures x.balance == CreditedTo(txs, x.userId) {
      if x != w {
        assert x in wallets;
      }
    }
    forall t | t in txs && t.kind == "credit" ensures WalletOf(all, t.userId).Some? {
      var x :| x in wallets && x.userId == t.userId;
      assert x in all;
    }
  }

  /** Adding a credit to wallet `k` and recording it as a transaction keeps the ledger balanced. */
  lemma CreditBalanced(wallets: seq<Wallet>, txs: seq<WalletTransaction>, k: nat, tx: WalletTransaction,
                       after: seq<Wallet>, txs': seq<WalletTransaction>)
    requires Balanced(wallets, txs) && k < |wallets|
    requires tx.kind == "credit" && tx.userId == wallets[k].userId
    requires after == wallets[k := wallets[k].(balance := wallets[k].balance + tx.amount)] && txs' == txs + [tx]
    ensures Balanced(after, txs')
  {
    assert wallets[k] in wallets;
    forall v ensures CreditedTo(txs', v) == CreditedTo(txs, v) + (if v == tx.userId then tx.amount else 0.0) {
      CreditedToAppend(txs, tx, v);
    }
    forall x | x in after ensures x.balance == CreditedTo(txs', x.userId) {
      var i :| 0 <= i < |after| && after[i] == x;
      if i != k {
        assert wallets[i] == x && wallets[i].userId != wallets[k].userId;
      }
    }
    forall t | t in txs' && t.kind == "credit" ensures WalletOf(after, t.userId).Some? {
      var i: nat := if t == tx then k else
        var x :| x in wallets && x.userId == t.userId;
        var i :| 0 <= i < |wallets| && wallets[i] == x;
        i;
      assert after[i].userId == t.userId && after[i] in after;
    }
  }

  /** The wallet a recharge opens for a user who has none. */
  function OpenedWallet(db: Db, s: Session): Wallet
  {
    Wallet(db.nextId + 1, s.metadata.userId, 0.0)
  }

  /** What a recharge writes to the ledger: a wallet opened when missing, then one credit to it. */
  lemma RechargeLedgerWrites(db: Db, s: Session, pi: PaymentIntent)
    requires RechargeWallet(db, s, pi).db != db
    ensures var r := RechargeWallet(db, s, pi).db;
      && |r.transactions| == |db.transactions| + 1
      && r.transactions == db.transactions + [r.transactions[|db.transactions|]]
      && r.transactions[|db.transactions|].kind == "credit"
      && r.transactions[|db.transactions|].userId == s.metadata.userId
    ensures var r := RechargeWallet(db, s, pi).db;
      var tx := r.transactions[|db.transactions|];
      var w := OpenedWallet(db, s);
      WalletOf(db.wallets, s.metadata.userId).None? ==>
        r.wallets == (db.wallets + [w])[|db.wallets| := w.(balance := w.balance + tx.amount)]
    ensures var r := RechargeWallet(db, s, pi).db;
      var tx := r.transactions[|db.transactions|];
      var found := WalletOf(db.wallets, s.metadata.userId);
      found.Some? ==>
        r.wallets == db.wallets[found.value := db.wallets[found.value].(balance := db.wallets[found.value].balance + tx.amount)]
  {
  }

  /** A recharge keeps every wallet equal to its credits. */
  lemma RechargeKeepsLedgerBalanced(db: Db, s: Session, pi: PaymentIntent)
    requires LedgerBalanced(db)
    ensures LedgerBalanced(RechargeWallet(db, s, pi).db)
  {
    var r := RechargeWallet(db, s, pi).db;
    if r != db {
      RechargeLedgerWrites(db, s, pi);
      var tx := r.transactions[|db.transactions|];
      match WalletOf(db.wallets, s.metadata.userId)
      case None =>
        var w := OpenedWallet(db, s);
        OpenWalletBalanced(db.wallets, db.transactions, w);
        CreditBalanced(db.wallets + [w], db.transactions, |db.wallets|, tx, r.wallets, r.transactions);
      case Some(k) =>
        CreditBalanced(db.wallets, db.transactions, k, tx, r.wallets, r.transactions);
    }
  }

  /** Every checkout keeps the ledger balanced; only the wallet branch touches it. */
  lemma CheckoutKeepsLedgerBalanced(db: Db, s: Session, pi: PaymentIntent)
    requires LedgerBalanced(db)
    ensures LedgerBalanced(Checkout(db, s, pi).db)
  {
    OneBranchRuns(db, s, pi);
    if s.paymentStatus == "paid" && FindByPaymentId(db.payments, s.paymentIntent).None?
       && BranchOf(s.metadata) == WalletRecharge {
      RechargeKeepsLedgerBalanced(db, s, pi);
    }
  }

  // ---------------------------------------------------------------------------
  // The handler

  /** The collections as mutable state; the webhook's writes happen one after another. */
  class WebhookStore {
    var payments: seq<StripePayment>
    var bookings: seq<Booking>
    var wallets: seq<Wallet>
    var transactions: seq<WalletTransaction>
    var bulkLessons: seq<BulkLesson>
    var bonuses: seq<Bonus>
    var specialSlots: seq<SpecialSlot>
    var nextId: ObjectId

    function State(): Db
      reads this
    {
      Db(payments, bookings, wallets, transactions, bulkLessons, bonuses, specialSlots, nextId)
    }

    constructor(db: Db)
      ensures State() == db
    {
      payments, bookings, wallets, transactions := db.payments, db.bookings, db.wallets, db.transactions;
      bulkLessons, bonuses, specialSlots, nextId := db.bulkLessons, db.bonuses, db.specialSlots, db.nextId;
    }

    /** The Stripe webhook route (app.js:69-636). */
    method StripeWebhook(signatureValid: bool, e: StripeEvent) returns (response: Response)
      modifies this
      ensures Outcome(response, State()) == Webhook(old(State()), signatureValid, e)
      ensures old(LedgerBalanced(State())) ==> LedgerBalanced(State())
      ensures old(UniquePaymentIds(payments)) ==> UniquePaymentIds(payments)
    {
      if !signatureValid {
        return BadSignature;
      }
      match e
      case OtherEvent(_) =>
        response := Received;
      case CheckoutSessionCompleted(s, pi) =>
        ghost var before := State();
        response := HandleCheckout(s, pi);
        if LedgerBalanced(before) {
          CheckoutKeepsLedgerBalanced(before, s, pi);
        }
        if UniquePaymentIds(before.payments) {
          CheckoutKeepsPaymentIdsUnique(before, s, pi);
        }
    }

    method HandleCheckout(s: Session, pi: PaymentIntent) returns (response: Response)
      modifies this
      ensures Outcome(response, State()) == Checkout(old(State()), s, pi)
    {
      if s.paymentStatus != "paid" {
        return Received;
      }
      var alreadyExists := FindByPaymentId(payments, s.paymentIntent);
      if alreadyExists.Some? {
        return Received;
      }
      match BranchOf(s.metadata)
      case WalletRecharge => response := CreditWallet(s, pi);
      case BulkPurchase => response := SaveBulkPurchase(s, pi);
      case BonusPayment => response := SaveBonus(s, pi);
      case LessonBooking => response := SaveBooking(s, pi);
    }

    /** app.js:145-190. */
    method CreditWallet(s: Session, pi: PaymentIntent) returns (response: Response)
      modifies this
      ensures Outcome(response, State()) == RechargeWallet(old(State()), s, pi)
    {
      var md := s.metadata;
      var created := NewStripePayment(nextId, PaymentFieldsFor(s, pi, Serial(md), None, md.amount, None));
      if created.Err? {
        return ServerError;
      }
      var stripePayment := created.value;
      payments := payments + [stripePayment];
      nextId := nextId + 1;
      var found := WalletOf(wallets, md.userId);
      var k: nat;
      if found.None? {
        wallets := wallets + [Wallet(nextId, md.userId, 0.0)];
        nextId := nextId + 1;
        k := |wallets| - 1;
      } else {
        k := found.value;
      }
      var wallet := wallets[k];
      var newBalance := wallet.balance + stripePayment.amount;
      wallets := wallets[k := wallet.(balance := newBalance)];
      transactions := transactions + [WalletTransaction(nextId, md.userId, "credit", stripePayment.amount,
                                                          "Wallet Recharge", stripePayment.id, newBalance)];
      nextId := nextId + 1;
      response := Received;
    }

    /** app.js:192-243. */
    method SaveBulkPurchase(s: Session, pi: PaymentIntent) returns (response: Response)
      modifies this
      ensures Outcome(response, State()) == RecordBulkPurchase(old(State()), s, pi)
    {
      var md := s.metadata;
      var amt := MajorUnits(pi);
      var created := NewStripePayment(nextId, PaymentFieldsFor(s, pi, Serial(md), md.lessonId, Some(amt), None));
      if created.Err? {
        return ServerError;
      }
      payments := payments + [created.value];
      var lessons := md.multipleLessons.GetOr(0);
      var teacherEarning := if md.processingFee.Some? then (amt - md.processingFee.value) * 0.9 else 0.0;
      bulkLessons := bulkLessons + [BulkLesson(
        id := nextId + 1, teacherId := md.teacherId, userId := md.userId, lessonId := md.lessonId,
        stripePaymentId := created.value.id,
        totalAmount := if amt != 0.0 then Some(amt) else md.amount,
        teacherEarning := teacherEarning,
        adminCommission := md.adminCommission, processingFee := md.processingFee.GetOr(0.0),
        totalLessons := lessons, lessonsRemaining := lessons)];
      nextId := nextId + 2;
      // the e-mail code after the save throws, and the catch-all answers 500
      response := ServerError;
    }

    /** app.js:245-276. */
    method SaveBonus(s: Session, pi: PaymentIntent) returns (response: Response)
      modifies this
      ensures Outcome(response, State()) == RecordBonus(old(State()), s, pi)
    {
      var md := s.metadata;
      var created := NewStripePayment(nextId, PaymentFieldsFor(s, pi, Serial(md), md.lessonId, Some(MajorUnits(pi)), Some(true)));
      if created.Err? {
        return ServerError;
      }
      payments := payments + [created.value];
      var record := Bonus(nextId + 1, md.userId, md.teacherId, md.lessonId, md.bookingId, md.amount,
                          pi.currency, created.value.id);
      bonuses := bonuses + [record];
      nextId := nextId + 2;
      if md.bookingId.Some? {
        var target := IndexOf(bookings, md.bookingId.value);
        if target.Some? {
          bookings := bookings[target.value := bookings[target.value].(isBonus := true, bonusId := Some(record.id))];
        }
      }
      response := NoResponse;
    }

    /** app.js:279-396. */
    method SaveBooking(s: Session, pi: PaymentIntent) returns (response: Response)
      modifies this
      ensures Outcome(response, State()) == RecordBooking(old(State()), s, pi)
    {
      response := FileBookingWith(s, pi, BookingSerial(s.metadata));
    }

    method FileBookingWith(s: Session, pi: PaymentIntent, srNo: Option<int>) returns (response: Response)
      modifies this
      ensures Outcome(response, State()) == FileBooking(old(State()), s, pi, srNo)
    {
      var md := s.metadata;
      var saving := NewStripePayment(nextId, PaymentFieldsFor(s, pi, srNo, md.lessonId, Some(MajorUnits(pi)), None));
      if saving.Err? {
        return ServerError;
      }
      var payment := saving.value;
      payments := payments + [payment];
      var created := NewBooking(nextId + 1, BookingFieldsFor(md, pi, payment.id));
      nextId := nextId + 2;
      if created.Err? {
        return ServerError;
      }
      var record := created.value;
      if Truthy(md.isSpecial) {
        var updatedSlot := SlotFor(specialSlots, record.userId, record.lessonId, record.startDateTime);
        if updatedSlot.Some? {
          var k := updatedSlot.value;
          specialSlots := specialSlots[k := specialSlots[k].(paymentStatus := Some("paid"))];
          record := record.(specialSlotId := Some(specialSlots[k].id));
        }
      }
      bookings := bookings + [record];
      response := Received;
    }
  }
}
