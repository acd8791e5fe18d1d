/**
 * The earnings summary of EarningsGet (controller/teacherController.js:418-543)
 * and DashboardApi (651-696): conditional sums of `teacherEarning` over the
 * teacher's bookings that both parties have marked completed, bucketed by
 * which payout dates are still null.
 */
module Earnings {
  import opened Wrappers
  import opened Values
  import opened BookingSchema

  /** The `startDateTime` range the `date` query adds to the filter (both ends inclusive). */
  datatype Window = Window(from: Instant, to: Instant)

  /** The `$match` stage: `{ teacherId, lessonCompletedStudent: true, lessonCompletedTeacher: true }` and the range. */
  predicate Counted(b: Booking, teacher: ObjectId, window: Option<Window>)
  {
    && b.teacherId == teacher && b.lessonCompletedStudent && b.lessonCompletedTeacher
    && (window.None? || window.value.from <= b.startDateTime <= window.value.to)
  }

  /** The four `$sum` accumulators of the `$group` stage. */
  datatype Bucket = Total | Pending | Requested | Approved

  /**
   * The `$cond` of each accumulator. `$eq: [path, null]` holds for a null date;
   * model/booking.js:74-81 defaults both payout dates to `null`, so an unset
   * date is always stored as `null`, which `None` stands for.
   */
  predicate InBucket(b: Booking, k: Bucket)
  {
    match k
    case Total => true
    case Pending => b.payoutCreationDate.None?
    case Requested => b.payoutCreationDate.Some? && b.payoutDoneAt.None?
    case Approved => b.payoutDoneAt.Some?
  }

  /** The sum of `teacherEarning` over the counted bookings in bucket `k`. */
  function Sum(bookings: seq<Booking>, teacher: ObjectId, window: Option<Window>, k: Bucket): Money
  {
    if bookings == [] then 0.0
    else
      (if Counted(bookings[0], teacher, window) && InBucket(bookings[0], k) then bookings[0].teacherEarning else 0.0)
      + Sum(bookings[1..], teacher, window, k)
  }

  /** `earningsSummary`; `requestedEarnings` is `None` where the response has no such key. */
  datatype Summary = Summary(totalEarnings: Money, pendingEarnings: Money,
                             requestedEarnings: Option<Money>, approvedEarnings: Money)

  /** Some booking passes the `$match` stage, so the aggregate returns one group. */
  predicate AnyCounted(bookings: seq<Booking>, teacher: ObjectId, window: Option<Window>)
  {
    exists b :: b in bookings && Counted(b, teacher, window)
  }

  /** `earnings[0]` as the aggregate computes it. */
  function Grouped(bookings: seq<Booking>, teacher: ObjectId, window: Option<Window>): (s: Summary)
    ensures s.requestedEarnings.Some?
    ensures (forall b :: b in bookings ==> b.teacherEarning >= 0.0) ==>
      0.0 <= s.pendingEarnings <= s.totalEarnings && 0.0 <= s.approvedEarnings <= s.totalEarnings
      && 0.0 <= s.requestedEarnings.value <= s.totalEarnings
  {
    var s := Summary(Sum(bookings, teacher, window, Total), Sum(bookings, teacher, window, Pending),
                     Some(Sum(bookings, teacher, window, Requested)), Sum(bookings, teacher, window, Approved));
    if forall b :: b in bookings ==> b.teacherEarning >= 0.0 then
      BucketBoundedByTotal(bookings, teacher, window, Pending);
      BucketBoundedByTotal(bookings, teacher, window, Requested);
      BucketBoundedByTotal(bookings, teacher, window, Approved);
      s
    else s
  }

  /**
   * `earnings[0] || { ... }` as teacherController.js:529-533 and 692-696 write
   * it: the fallback object has no `requestedEarnings` key.
   */
  function SummaryAsWritten(bookings: seq<Booking>, teacher: ObjectId, window: Option<Window>): (s: Summary)
    ensures s.requestedEarnings.None? <==> !AnyCounted(bookings, teacher, window)
    ensures !AnyCounted(bookings, teacher, window) ==> s.totalEarnings == 0.0 && s.pendingEarnings == 0.0 && s.approvedEarnings == 0.0
  {
    if AnyCounted(bookings, teacher, window) then Grouped(bookings, teacher, window)
    else Summary(0.0, 0.0, None, 0.0)
  }

  /** The summary with every bucket present, zero when no booking is counted. */
  function EarningsSummary(bookings: seq<Booking>, teacher: ObjectId, window: Option<Window>): (s: Summary)
    ensures s.requestedEarnings.Some?
    ensures !AnyCounted(bookings, teacher, window) ==> s == Summary(0.0, 0.0, Some(0.0), 0.0)
  {
    if AnyCounted(bookings, teacher, window) then Grouped(bookings, teacher, window)
    else
      NothingCountedSumsZero(bookings, teacher, window);
      Summary(0.0, 0.0, Some(0.0), 0.0)
  }

  // ---------------------------------------------------------------------------
  // Properties

  /** With nothing counted every bucket sums to zero, so the fallback agrees with the aggregate. */
  lemma {:induction false} NothingCountedSumsZero(bookings: seq<Booking>, teacher: ObjectId, window: Option<Window>)
    requires !AnyCounted(bookings, teacher, window)
    ensures forall k :: Sum(bookings, teacher, window, k) == 0.0
  {
    if bookings != [] {
      assert bookings[0] in bookings;
      assert forall b :: b in bookings[1..] ==> b in bookings;
      NothingCountedSumsZero(bookings[1..], teacher, window);
    }
  }

  /** The corrected summary is the aggregate's group exactly when one exists, and zeros otherwise. */
  lemma SummaryIsGroupedOrZero(bookings: seq<Booking>, teacher: ObjectId, window: Option<Window>)
    ensures EarningsSummary(bookings, teacher, window) == Grouped(bookings, teacher, window)
  {
    if !AnyCounted(bookings, teacher, window) {
      NothingCountedSumsZero(bookings, teacher, window);
    }
  }

  /** The booking was marked paid out without a payout having been requested. */
  predicate PaidWithoutRequest(b: Booking)
  {
    b.payoutDoneAt.Some? && b.payoutCreationDate.None?
  }

  /**
   * When no counted booking was paid out without a request, every counted
   * booking lies in exactly one of pending, requested and approved, so those
   * three add up to the total.
   */
  lemma {:induction false} BucketsPartitionTotal(bookings: seq<Booking>, teacher: ObjectId, window: Option<Window>)
    requires forall b :: b in bookings && Counted(b, teacher, window) ==> !PaidWithoutRequest(b)
    ensures Sum(bookings, teacher, window, Pending) + Sum(bookings, teacher, window, Requested)
          + Sum(bookings, teacher, window, Approved) == Sum(bookings, teacher, window, Total)
  {
    if bookings != [] {
      assert bookings[0] in bookings;
      assert forall b :: b in bookings[1..] ==> b in bookings;
      BucketsPartitionTotal(bookings[1..], teacher, window);
    }
  }

  /** A booking paid out without a request is counted both as pending and as approved. */
  lemma PaidWithoutRequestCountedTwice(b: Booking)
    requires Counted(b, b.teacherId, None) && PaidWithoutRequest(b) && b.teacherEarning > 0.0
    ensures Sum([b], b.teacherId, None, Pending) + Sum([b], b.teacherId, None, Requested)
          + Sum([b], b.teacherId, None, Approved) > Sum([b], b.teacherId, None, Total)
  {
    assert [b][1..] == [];
  }

  /** With non-negative earnings no bucket exceeds the total. */
  lemma {:induction false} BucketBoundedByTotal(bookings: seq<Booking>, teacher: ObjectId, window: Option<Window>, k: Bucket)
    requires forall b :: b in bookings ==> b.teacherEarning >= 0.0
    ensures 0.0 <= Sum(bookings, teacher, window, k) <= Sum(bookings, teacher, window, Total)
  {
    if bookings != [] {
      assert bookings[0] in bookings;
      assert forall b :: b in bookings[1..] ==> b in bookings;
      BucketBoundedByTotal(bookings[1..], teacher, window, k);
    }
  }

  lemma {:induction false} SumAppend(bookings: seq<Booking>, b: Booking, teacher: ObjectId, window: Option<Window>, k: Bucket)
    ensures Sum(bookings + [b], teacher, window, k)
         == Sum(bookings, teacher, window, k) + (if Counted(b, teacher, window) && InBucket(b, k) then b.teacherEarning else 0.0)
  {
    if bookings == [] {
      assert [] + [b] == [b] && [b][1..] == [];
    } else {
      SumAppend(bookings[1..], b, teacher, window, k);
      assert (bookings + [b])[1..] == bookings[1..] + [b];
    }
  }

  /** A newly saved booking is not counted until its teacher marks it completed. */
  lemma NewBookingNotCounted(bookings: seq<Booking>, id: ObjectId, f: BookingFields, teacher: ObjectId,
                             window: Option<Window>, k: Bucket)
    requires NewBooking(id, f).Ok?
    ensures Sum(bookings + [NewBooking(id, f).value], teacher, window, k) == Sum(bookings, teacher, window, k)
  {
    SumAppend(bookings, NewBooking(id, f).value, teacher, window, k);
  }

  /**
   * Once its teacher marks it completed, a new booking adds its earning to the
   * total and the pending bucket, and to neither of the others.
   */
  lemma CompletedNewBookingIsPending(bookings: seq<Booking>, id: ObjectId, f: BookingFields)
    requires NewBooking(id, f).Ok?
    ensures var b := NewBooking(id, f).value.(lessonCompletedTeacher := true);
      && Sum(bookings + [b], b.teacherId, None, Total) == Sum(bookings, b.teacherId, None, Total) + b.teacherEarning
      && Sum(bookings + [b], b.teacherId, None, Pending) == Sum(bookings, b.teacherId, None, Pending) + b.teacherEarning
      && Sum(bookings + [b], b.teacherId, None, Requested) == Sum(bookings, b.teacherId, None, Requested)
      && Sum(bookings + [b], b.teacherId, None, Approved) == Sum(bookings, b.teacherId, None, Approved)
  {
    var b := NewBooking(id, f).value.(lessonCompletedTeacher := true);
    SumAppend(bookings, b, b.teacherId, None, Total);
    SumAppend(bookings, b, b.teacherId, None, Pending);
    SumAppend(bookings, b, b.teacherId, None, Requested);
    SumAppend(bookings, b, b.teacherId, None, Approved);
  }

  /** As written, a teacher with no counted booking gets a summary without `requestedEarnings`. */
  lemma FallbackLacksRequested(bookings: seq<Booking>, teacher: ObjectId, window: Option<Window>)
    requires !AnyCounted(bookings, teacher, window)
    ensures SummaryAsWritten(bookings, teacher, window).requestedEarnings.None?
    ensures EarningsSummary(bookings, teacher, window).requestedEarnings == Some(0.0)
  {
  }

  /** Wherever the aggregate returns a group, the as-written and corrected summaries agree. */
  lemma AsWrittenAgreesWhenCounted(bookings: seq<Booking>, teacher: ObjectId, window: Option<Window>)
    requires AnyCounted(bookings, teacher, window)
    ensures SummaryAsWritten(bookings, teacher, window) == EarningsSummary(bookings, teacher, window)
  {
  }
}
