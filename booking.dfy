/**
 * The Booking record of model/booking.js: which paths a new booking must have,
 * and the defaults the schema fills in for the paths it may leave out.
 */
module BookingSchema {
  import opened Wrappers
  import opened Values

  datatype Booking = Booking(
    id: ObjectId,
    teacherId: ObjectId,
    userId: ObjectId,
    lessonId: ObjectId,
    paypalPaymentId: Option<ObjectId>,
    stripePaymentId: Option<ObjectId>,
    reviewId: Option<ObjectId>,
    startDateTime: Instant,
    endDateTime: Instant,
    lessonCompletedStudent: bool,
    lessonCompletedTeacher: bool,
    cancelled: bool,
    rescheduled: bool,
    totalAmount: Money,
    teacherEarning: Money,
    adminCommission: Money,
    processingFee: Money,
    payoutCreationDate: Option<Instant>,
    payoutDoneAt: Option<Instant>,
    zoom: Option<ObjectId>,
    isBonus: bool,
    bonusId: Option<ObjectId>,
    specialSlotId: Option<ObjectId>)

  /** The paths a `new Bookings({...})` call supplies; `None` is a path left undefined. */
  datatype BookingFields = BookingFields(
    teacherId: Option<ObjectId>,
    userId: Option<ObjectId>,
    lessonId: Option<ObjectId>,
    stripePaymentId: Option<ObjectId>,
    startDateTime: Option<Instant>,
    endDateTime: Option<Instant>,
    totalAmount: Option<Money>,
    teacherEarning: Option<Money>,
    adminCommission: Option<Money>,
    processingFee: Option<Money>)

  /** The paths booking.js declares `required`. */
  datatype RequiredPath =
    | TeacherIdPath | UserIdPath | LessonIdPath | StartDateTimePath | EndDateTimePath
    | TotalAmountPath | TeacherEarningPath | AdminCommissionPath | ProcessingFeePath

  /** The required paths in the order the schema declares them. */
  const RequiredPaths: seq<RequiredPath> := [
    TeacherIdPath, UserIdPath, LessonIdPath, StartDateTimePath, EndDateTimePath,
    TotalAmountPath, TeacherEarningPath, AdminCommissionPath, ProcessingFeePath]

  /** Every required path is in the list. */
  lemma AllPathsListed()
    ensures forall p :: p in RequiredPaths
  {
    forall p ensures p in RequiredPaths {
      var k := match p
        case TeacherIdPath => 0 case UserIdPath => 1 case LessonIdPath => 2
        case StartDateTimePath => 3 case EndDateTimePath => 4 case TotalAmountPath => 5
        case TeacherEarningPath => 6 case AdminCommissionPath => 7 case ProcessingFeePath => 8;
      assert RequiredPaths[k] == p;
    }
  }

  /** The fields leave the required path `p` undefined. */
  predicate Missing(f: BookingFields, p: RequiredPath)
  {
    match p
    case TeacherIdPath => f.teacherId.None?
    case UserIdPath => f.userId.None?
    case LessonIdPath => f.lessonId.None?
    case StartDateTimePath => f.startDateTime.None?
    case EndDateTimePath => f.endDateTime.None?
    case TotalAmountPath => f.totalAmount.None?
    case TeacherEarningPath => f.teacherEarning.None?
    case AdminCommissionPath => f.adminCommission.None?
    case ProcessingFeePath => f.processingFee.None?
  }

  /** The paths of `ps` that the fields leave undefined, in the order of `ps`. */
  function MissingAmong(f: BookingFields, ps: seq<RequiredPath>): (r: seq<RequiredPath>)
    ensures forall p :: p in r <==> p in ps && Missing(f, p)
  {
    if ps == [] then []
    else (if Missing(f, ps[0]) then [ps[0]] else []) + MissingAmong(f, ps[1..])
  }

  /** All nine required paths are present. */
  predicate HasRequired(f: BookingFields)
  {
    && f.teacherId.Some? && f.userId.Some? && f.lessonId.Some?
    && f.startDateTime.Some? && f.endDateTime.Some?
    && f.totalAmount.Some? && f.teacherEarning.Some?
    && f.adminCommission.Some? && f.processingFee.Some?
  }

  lemma MissingIsNotRequired(f: BookingFields, p: RequiredPath)
    requires Missing(f, p)
    ensures !HasRequired(f)
  {
    match p
    case TeacherIdPath =>
    case UserIdPath =>
    case LessonIdPath =>
    case StartDateTimePath =>
    case EndDateTimePath =>
    case TotalAmountPath =>
    case TeacherEarningPath =>
    case AdminCommissionPath =>
    case ProcessingFeePath =>
  }

  /**
   * Saving a new booking: validation fails, naming every missing required path,
   * or the record is stored with the supplied paths and the schema's defaults.
   */
  function NewBooking(id: ObjectId, f: BookingFields): (r: Result<Booking, seq<RequiredPath>>)
    ensures r.Ok? <==> HasRequired(f)
    ensures r.Err? ==> forall p :: p in r.error <==> Missing(f, p)
    ensures r.Ok? ==> (
      && r.value.id == id
      && Some(r.value.teacherId) == f.teacherId && Some(r.value.userId) == f.userId
      && Some(r.value.lessonId) == f.lessonId && r.value.stripePaymentId == f.stripePaymentId
      && Some(r.value.startDateTime) == f.startDateTime && Some(r.value.endDateTime) == f.endDateTime
      && Some(r.value.totalAmount) == f.totalAmount && Some(r.value.teacherEarning) == f.teacherEarning
      && Some(r.value.adminCommission) == f.adminCommission && Some(r.value.processingFee) == f.processingFee)
    ensures r.Ok? ==> FreshDefaults(r.value)
  {
    var missing := MissingAmong(f, RequiredPaths);
    AllPathsListed();
    if missing != [] then
      assert missing[0] in missing;
      MissingIsNotRequired(f, missing[0]);
      Err(missing)
    else
      assert forall p :: !Missing(f, p);
      assert !Missing(f, TeacherIdPath) && !Missing(f, UserIdPath) && !Missing(f, LessonIdPath);
      assert !Missing(f, StartDateTimePath) && !Missing(f, EndDateTimePath) && !Missing(f, TotalAmountPath);
      assert !Missing(f, TeacherEarningPath) && !Missing(f, AdminCommissionPath) && !Missing(f, ProcessingFeePath);
      Ok(Booking(
        id := id,
        teacherId := f.teacherId.value,
        userId := f.userId.value,
        lessonId := f.lessonId.value,
        paypalPaymentId := None,
        stripePaymentId := f.stripePaymentId,
        reviewId := None,
        startDateTime := f.startDateTime.value,
        endDateTime := f.endDateTime.value,
        lessonCompletedStudent := true,
        lessonCompletedTeacher := false,
        cancelled := false,
        rescheduled := false,
        totalAmount := f.totalAmount.value,
        teacherEarning := f.teacherEarning.value,
        adminCommission := f.adminCommission.value,
        processingFee := f.processingFee.value,
        payoutCreationDate := None,
        payoutDoneAt := None,
        zoom := None,
        isBonus := false,
        bonusId := None,
        specialSlotId := None))
  }

  /**
   * The state every new booking starts in: completed on the student's side only,
   * neither cancelled nor rescheduled, no payout, no review, no meeting, no bonus.
   */
  predicate FreshDefaults(b: Booking)
  {
    && b.lessonCompletedStudent && !b.lessonCompletedTeacher
    && !b.cancelled && !b.rescheduled
    && b.payoutCreationDate.None? && b.payoutDoneAt.None?
    && b.reviewId.None? && b.zoom.None? && !b.isBonus && b.bonusId.None?
    && b.paypalPaymentId.None? && b.specialSlotId.None?
  }

  /** `Bookings.findOneAndUpdate({ _id: id }, ...)`: the position of the booking with that id, if any. */
  function IndexOf(bookings: seq<Booking>, id: ObjectId): (r: Option<nat>)
    ensures r.Some? ==> r.value < |bookings| && bookings[r.value].id == id
    ensures r.Some? ==> forall k :: 0 <= k < r.value ==> bookings[k].id != id
    ensures r.None? ==> forall k :: 0 <= k < |bookings| ==> bookings[k].id != id
  {
    if |bookings| == 0 then None
    else if bookings[0].id == id then Some(0)
    else
      var r := IndexOf(bookings[1..], id);
      if r.Some? then Some(r.value + 1) else None
  }
}
