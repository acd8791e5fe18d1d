/**
 * SpecialSlotCreate (controller/teacherController.js:754-830): a teacher offers
 * one student a slot outside the regular availability. The request is refused
 * when a field is missing, when it overlaps one of the teacher's availability
 * blocks (the same strict test AddAvailability uses), or when the student does
 * not exist.
 */
module SpecialSlots {
  import opened Wrappers
  import opened Values
  import opened Availability

  /** A stored special slot; `paymentStatus` is set once the checkout webhook sees it paid. */
  datatype SpecialSlot = SpecialSlot(
    id: ObjectId,
    teacher: ObjectId,
    student: ObjectId,
    lesson: ObjectId,
    amount: Money,
    startDateTime: Instant,
    endDateTime: Instant,
    paymentStatus: Option<string>)

  /** The request body; `None` is a value JavaScript treats as false (absent, empty, or an amount of 0). */
  datatype SlotRequest = SlotRequest(
    student: Option<ObjectId>,
    lesson: Option<ObjectId>,
    amount: Option<Money>,
    startDateTime: Option<Instant>,
    endDateTime: Option<Instant>)

  datatype SlotError =
    | AllFieldsRequired      // 400 "All fields are required"
    | OverlapsAvailability   // 400 "You already have an availability in the given time..."
    | InvalidStudent         // 400 "Invalid student id"

  /** The guard of teacherController.js:762: every field present, and the amount not 0. */
  predicate Complete(req: SlotRequest)
  {
    && req.student.Some? && req.lesson.Some? && req.startDateTime.Some? && req.endDateTime.Some?
    && req.amount.Some? && req.amount.value != 0.0
  }

  /**
   * The outcome of SpecialSlotCreate for `teacher`, with `freshId` the id the
   * saved slot gets and `studentExists` the answer of `User.findById(student)`.
   */
  function CreateSpecialSlot(blocks: seq<Block>, teacher: ObjectId, freshId: ObjectId,
                             req: SlotRequest, studentExists: bool): (r: Result<SpecialSlot, SlotError>)
    ensures !Complete(req) ==> r == Err(AllFieldsRequired)
    ensures Complete(req) ==>
      (r == Err(OverlapsAvailability) <==>
         exists b :: b in blocks && b.teacher == teacher && Overlaps(req.startDateTime.value, req.endDateTime.value, b))
    ensures r.Ok? <==> (
      && Complete(req) && studentExists
      && forall b :: b in blocks && b.teacher == teacher ==> !Overlaps(req.startDateTime.value, req.endDateTime.value, b))
    ensures r.Ok? ==> (
      && r.value.id == freshId && r.value.teacher == teacher
      && Some(r.value.student) == req.student && Some(r.value.lesson) == req.lesson
      && Some(r.value.amount) == req.amount
      && Some(r.value.startDateTime) == req.startDateTime && Some(r.value.endDateTime) == req.endDateTime
      && r.value.paymentStatus.None?)
  {
    if !Complete(req) then Err(AllFieldsRequired)
    else if AnyOverlap(OfTeacher(blocks, teacher), req.startDateTime.value, req.endDateTime.value) then
      Err(OverlapsAvailability)
    else if !studentExists then Err(InvalidStudent)
    else
      Ok(SpecialSlot(freshId, teacher, req.student.value, req.lesson.value, req.amount.value,
                     req.startDateTime.value, req.endDateTime.value, None))
  }

  /**
   * The guard is the one AddAvailability applies: for a proper interval, a
   * special slot is refused for overlap exactly when the same interval would
   * be refused as availability for overlap.
   */
  lemma SameOverlapTestAsAvailability(blocks: seq<Block>, teacher: ObjectId, slotId: ObjectId, blockId: ObjectId,
                                      req: SlotRequest, studentExists: bool)
    requires Complete(req) && req.startDateTime.value < req.endDateTime.value
    ensures CreateSpecialSlot(blocks, teacher, slotId, req, studentExists) == Err(OverlapsAvailability)
        <==> Add(blocks, teacher, blockId, req.startDateTime, req.endDateTime).result == Err(OverlapsExisting)
  {
    var add := Add(blocks, teacher, blockId, req.startDateTime, req.endDateTime);
    if add.result == Err(OverlapsExisting) {
      assert !add.result.Ok?;
      var b :| b in blocks && b.teacher == teacher && Overlaps(req.startDateTime.value, req.endDateTime.value, b);
    }
  }

  /** An accepted slot overlaps none of the teacher's blocks, whatever the other teachers have. */
  lemma AcceptedSlotClearOfAvailability(blocks: seq<Block>, teacher: ObjectId, freshId: ObjectId,
                                        req: SlotRequest, b: Block)
    requires CreateSpecialSlot(blocks, teacher, freshId, req, true).Ok?
    requires b in blocks && b.teacher == teacher
    ensures var s := CreateSpecialSlot(blocks, teacher, freshId, req, true).value;
      s.endDateTime <= b.startDateTime || s.startDateTime >= b.endDateTime
  {
  }

  /** An amount of 0 is refused as a missing field, because 0 is false in JavaScript. */
  lemma ZeroAmountRefused(blocks: seq<Block>, teacher: ObjectId, freshId: ObjectId,
                          req: SlotRequest, studentExists: bool)
    requires req.amount == Some(0.0)
    ensures CreateSpecialSlot(blocks, teacher, freshId, req, studentExists) == Err(AllFieldsRequired)
  {
  }

  /** Unlike AddAvailability, nothing checks that the end comes after the start. */
  lemma InvertedSlotAccepted()
    ensures CreateSpecialSlot([], 7, 1, SlotRequest(Some(2), Some(3), Some(1500.0), Some(1200), Some(600)), true).Ok?
  {
  }
}
