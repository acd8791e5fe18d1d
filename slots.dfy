/**
 * GetAvailability (controller/teacherController.js:114-202): the free slots a
 * student may book, derived by subtracting the teacher's bookings that are not
 * cancelled from each availability block. A cursor walks each block from its
 * start; before every booking it emits the gap, then jumps to five minutes
 * after the booking's end, and it never moves backward.
 */
module SlotDerivation {
  import opened Wrappers
  import opened Values
  import opened BookingSchema
  import opened Availability

  /** The pause kept free after every booking: five minutes. */
  const BufferMs: int := 5 * 60000

  /** A free slot; only a block emitted whole keeps its `_id`. */
  datatype Slot = Slot(id: Option<ObjectId>, teacher: ObjectId, startDateTime: Instant, endDateTime: Instant)

  /** An entry of `bookedSlots`. */
  datatype BookedSlot = BookedSlot(teacher: ObjectId, startDateTime: Instant, endDateTime: Instant,
                                   student: Option<ObjectId>, lesson: Option<ObjectId>)

  /** The response: "No Data found" when the teacher has no block, else the two lists. */
  datatype AvailabilityView =
    | NoData
    | Processed(availabilityBlocks: seq<Slot>, bookedSlots: seq<BookedSlot>)

  /** The two lists the loop over blocks accumulates. */
  datatype Derived = Derived(free: seq<Slot>, booked: seq<BookedSlot>)

  /** `Bookings.find({ teacherId, cancelled: false })`, in store order. */
  function ActiveBookings(bookings: seq<Booking>, teacher: ObjectId): (r: seq<Booking>)
    ensures forall b :: b in r <==> b in bookings && b.teacherId == teacher && !b.cancelled
  {
    if bookings == [] then []
    else
      (if bookings[0].teacherId == teacher && !bookings[0].cancelled then [bookings[0]] else [])
      + ActiveBookings(bookings[1..], teacher)
  }

  /** The filter of teacherController.js:138-140: the booking meets the block. */
  predicate Intersects(b: Booking, block: Block)
  {
    b.endDateTime > block.startDateTime && b.startDateTime < block.endDateTime
  }

  function Matching(active: seq<Booking>, block: Block): (r: seq<Booking>)
    ensures forall b :: b in r <==> b in active && Intersects(b, block)
  {
    if active == [] then []
    else (if Intersects(active[0], block) then [active[0]] else []) + Matching(active[1..], block)
  }

  // ---------------------------------------------------------------------------
  // Sorting by start time (`Array.prototype.sort`, which is stable)

  ghost predicate SortedByStart(bs: seq<Booking>)
  {
    forall i, j :: 0 <= i < j < |bs| ==> bs[i].startDateTime <= bs[j].startDateTime
  }

  /** Put `x` before the first booking that does not start earlier than it. */
  function InsertByStart(x: Booking, bs: seq<Booking>): (r: seq<Booking>)
    ensures multiset(r) == multiset(bs) + multiset{x}
    ensures |r| == |bs| + 1
  {
    if bs == [] || x.startDateTime <= bs[0].startDateTime then [x] + bs
    else
      assert bs == [bs[0]] + bs[1..];
      [bs[0]] + InsertByStart(x, bs[1..])
  }

  /** Inserting into a sorted sequence keeps it sorted. */
  lemma {:induction false} InsertKeepsSorted(x: Booking, bs: seq<Booking>)
    requires SortedByStart(bs)
    ensures SortedByStart(InsertByStart(x, bs))
  {
    if bs != [] && x.startDateTime > bs[0].startDateTime {
      var tail := bs[1..];
      assert SortedByStart(tail) by {
        forall i, j | 0 <= i < j < |tail| ensures tail[i].startDateTime <= tail[j].startDateTime {
          assert tail[i] == bs[i + 1] && tail[j] == bs[j + 1];
        }
      }
      InsertKeepsSorted(x, tail);
      var rest := InsertByStart(x, tail);
      assert rest[0] == x || (tail != [] && rest[0] == tail[0]);
      var r := [bs[0]] + rest;
      assert r == InsertByStart(x, bs);
      forall i, j | 0 <= i < j < |r| ensures r[i].startDateTime <= r[j].startDateTime {
        if i == 0 {
          if j > 1 {
            assert rest[0].startDateTime <= rest[j - 1].startDateTime;
          }
        } else {
          assert r[i] == rest[i - 1] && r[j] == rest[j - 1];
        }
      }
    }
  }

  /** Insertion sort: stable, like `Array.prototype.sort`. */
  function SortByStart(bs: seq<Booking>): (r: seq<Booking>)
    ensures SortedByStart(r)
    ensures multiset(r) == multiset(bs)
    ensures |r| == |bs|
  {
    if bs == [] then []
    else
      assert bs == [bs[0]] + bs[1..];
      InsertKeepsSorted(bs[0], SortByStart(bs[1..]));
      InsertByStart(bs[0], SortByStart(bs[1..]))
  }

  lemma SortKeepsMembers(bs: seq<Booking>)
    ensures forall b :: b in SortByStart(bs) <==> b in bs
  {
    var r := SortByStart(bs);
    forall b ensures b in r <==> b in bs {
      assert b in r <==> b in multiset(r);
      assert b in bs <==> b in multiset(bs);
    }
  }

  // ---------------------------------------------------------------------------
  // The cursor walk (teacherController.js:155-182)

  /** Where the cursor goes after a booking: five minutes past its end, never backward. */
  function Advance(cursor: Instant, b: Booking): (next: Instant)
    ensures next >= cursor && next >= b.endDateTime + BufferMs
    ensures next == cursor || next == b.endDateTime + BufferMs
  {
    var nextStart := b.endDateTime + BufferMs;
    if nextStart > cursor then nextStart else cursor
  }

  /** The free slots the walk emits from `cursor` over the remaining sorted bookings. */
  function Walk(teacher: ObjectId, cursor: Instant, bs: seq<Booking>, aEnd: Instant): (slots: seq<Slot>)
    ensures |slots| <= |bs| + 1
    ensures forall s :: s in slots ==> s.id.None? && s.teacher == teacher
    decreases |bs|
  {
    if bs == [] then
      if cursor < aEnd then [Slot(None, teacher, cursor, aEnd)] else []
    else
      (if cursor < bs[0].startDateTime then [Slot(None, teacher, cursor, bs[0].startDateTime)] else [])
      + Walk(teacher, Advance(cursor, bs[0]), bs[1..], aEnd)
  }

  /** The free slots of one block, given its sorted matching bookings. */
  function FreeSlots(teacher: ObjectId, block: Block, matches: seq<Booking>): (slots: seq<Slot>)
    ensures |slots| <= |matches| + 1
    ensures matches == [] ==> |slots| == 1 && slots[0].id == Some(block.id)
    ensures matches != [] ==> forall s :: s in slots ==> s.id.None?
  {
    if matches == [] then [Slot(Some(block.id), teacher, block.startDateTime, block.endDateTime)]
    else Walk(teacher, block.startDateTime, matches, block.endDateTime)
  }

  /** The intended `bookedSlots` entry for a matching booking: its time, student and lesson. */
  function BookedSlotOf(teacher: ObjectId, b: Booking): BookedSlot
  {
    BookedSlot(teacher, b.startDateTime, b.endDateTime, Some(b.userId), Some(b.lessonId))
  }

  /**
   * The entry as teacherController.js:185-191 writes it: it reads `b.student`
   * and `b.lesson`, paths a Booking does not have (they are `UserId` and
   * `LessonId`), so both are undefined.
   */
  function BookedSlotAsWritten(teacher: ObjectId, b: Booking): BookedSlot
  {
    BookedSlot(teacher, b.startDateTime, b.endDateTime, None, None)
  }

  /**
   * How a `bookedSlots` entry reads the booking: `AsWritten` is the code of
   * teacherController.js:184-192, `Intended` reads the paths the schema has.
   */
  datatype Reading = AsWritten | Intended

  function EntryOf(reading: Reading, teacher: ObjectId, b: Booking): BookedSlot
  {
    if reading == AsWritten then BookedSlotAsWritten(teacher, b) else BookedSlotOf(teacher, b)
  }

  /** `matchingBookings.map(...)`: one entry per matching booking, in order. */
  function BookedSlots(reading: Reading, teacher: ObjectId, matches: seq<Booking>): (r: seq<BookedSlot>)
    ensures |r| == |matches|
    ensures forall k :: 0 <= k < |matches| ==> r[k] == EntryOf(reading, teacher, matches[k])
  {
    if matches == [] then [] else [EntryOf(reading, teacher, matches[0])] + BookedSlots(reading, teacher, matches[1..])
  }

  /** The contribution of one block. */
  function DeriveBlock(reading: Reading, teacher: ObjectId, block: Block, active: seq<Booking>): (d: Derived)
    ensures |d.booked| == |Matching(active, block)|
    ensures |d.free| <= |d.booked| + 1
  {
    var matches := SortByStart(Matching(active, block));
    Derived(FreeSlots(teacher, block, matches), BookedSlots(reading, teacher, matches))
  }

  /** The loop over blocks (teacherController.js:134-193), block by block in store order. */
  function DeriveAll(reading: Reading, teacher: ObjectId, blocks: seq<Block>, active: seq<Booking>): (d: Derived)
    ensures |d.free| <= |d.booked| + |blocks|
  {
    if blocks == [] then Derived([], [])
    else
      var d := DeriveAll(reading, teacher, blocks[..|blocks| - 1], active);
      var e := DeriveBlock(reading, teacher, blocks[|blocks| - 1], active);
      Derived(d.free + e.free, d.booked + e.booked)
  }

  /** A stored block as the response shows it when there is nothing to subtract. */
  function AsSlot(b: Block): Slot
  {
    Slot(Some(b.id), b.teacher, b.startDateTime, b.endDateTime)
  }

  function AsSlots(blocks: seq<Block>): (r: seq<Slot>)
    ensures |r| == |blocks| && forall k :: 0 <= k < |blocks| ==> r[k] == AsSlot(blocks[k])
  {
    if blocks == [] then [] else [AsSlot(blocks[0])] + AsSlots(blocks[1..])
  }

  /** The whole response of GetAvailability for `teacher`, whose blocks are `blocks`. */
  function View(reading: Reading, teacher: ObjectId, blocks: seq<Block>, bookings: seq<Booking>): (v: AvailabilityView)
    ensures v.NoData? <==> blocks == []
    ensures v.Processed? ==> |v.availabilityBlocks| <= |v.bookedSlots| + |blocks|
    ensures v.Processed? && ActiveBookings(bookings, teacher) == [] ==> v.bookedSlots == []
  {
    if blocks == [] then NoData
    else
      var active := ActiveBookings(bookings, teacher);
      if active == [] then Processed(AsSlots(blocks), [])
      else
        var d := DeriveAll(reading, teacher, blocks, active);
        Processed(d.free, d.booked)
  }

  // ---------------------------------------------------------------------------
  // Properties of the walk

  /** The slot lies inside the interval from `lo` to `hi` and is not empty. */
  predicate Inside(s: Slot, lo: Instant, hi: Instant)
  {
    lo <= s.startDateTime < s.endDateTime <= hi
  }

  /** The slot does not meet the booking extended by the five-minute buffer. */
  predicate ClearOf(s: Slot, b: Booking)
  {
    s.endDateTime <= b.startDateTime || s.startDateTime >= b.endDateTime + BufferMs
  }

  ghost predicate Ascending(slots: seq<Slot>)
  {
    forall i, j :: 0 <= i < j < |slots| ==> slots[i].endDateTime <= slots[j].startDateTime
  }

  /** Every slot of a walk is non-empty and lies between the cursor and the block's end. */
  lemma {:induction false} WalkInside(teacher: ObjectId, cursor: Instant, bs: seq<Booking>, aEnd: Instant)
    requires forall b :: b in bs ==> b.startDateTime < aEnd
    ensures forall s :: s in Walk(teacher, cursor, bs, aEnd) ==> Inside(s, cursor, aEnd)
    decreases |bs|
  {
    if bs != [] {
      WalkInside(teacher, Advance(cursor, bs[0]), bs[1..], aEnd);
    }
  }

  /** Every slot of a walk over sorted bookings is clear of each of them. */
  lemma {:induction false} WalkClear(teacher: ObjectId, cursor: Instant, bs: seq<Booking>, aEnd: Instant)
    requires SortedByStart(bs)
    requires forall b :: b in bs ==> b.startDateTime < aEnd
    ensures forall s, b :: s in Walk(teacher, cursor, bs, aEnd) && b in bs ==> ClearOf(s, b)
    decreases |bs|
  {
    if bs != [] {
      var next := Advance(cursor, bs[0]);
      var rest := Walk(teacher, next, bs[1..], aEnd);
      WalkClear(teacher, next, bs[1..], aEnd);
      WalkInside(teacher, next, bs[1..], aEnd);
      assert forall b :: b in bs ==> b == bs[0] || b in bs[1..];
      forall b | b in bs ensures bs[0].startDateTime <= b.startDateTime {
        var k :| 0 <= k < |bs| && bs[k] == b;
        if k > 0 { assert bs[0].startDateTime <= bs[k].startDateTime; }
      }
      forall s | s in rest ensures ClearOf(s, bs[0]) {
        assert s.startDateTime >= next;
      }
    }
  }

  /** Over well-formed sorted bookings the slots of a walk come out in ascending order. */
  lemma {:induction false} WalkAscending(teacher: ObjectId, cursor: Instant, bs: seq<Booking>, aEnd: Instant)
    requires forall b :: b in bs ==> b.startDateTime < aEnd && b.startDateTime <= b.endDateTime
    ensures Ascending(Walk(teacher, cursor, bs, aEnd))
    decreases |bs|
  {
    if bs != [] {
      var next := Advance(cursor, bs[0]);
      var rest := Walk(teacher, next, bs[1..], aEnd);
      WalkAscending(teacher, next, bs[1..], aEnd);
      WalkInside(teacher, next, bs[1..], aEnd);
      if cursor < bs[0].startDateTime {
        var all := [Slot(None, teacher, cursor, bs[0].startDateTime)] + rest;
        forall i, j | 0 <= i < j < |all| ensures all[i].endDateTime <= all[j].startDateTime {
          if i == 0 {
            assert all[j] in rest;
          } else {
            assert all[i] == rest[i - 1] && all[j] == rest[j - 1];
          }
        }
      }
    }
  }

  /**
   * The properties of teacherController.js:155-182 for one block: every free
   * slot lies inside the block, is clear of every booking that meets the block
   * together with its buffer, and, when the block is a proper interval, is not
   * empty; when the bookings are well formed the slots come out ascending.
   */
  lemma BlockSlotsSound(reading: Reading, teacher: ObjectId, block: Block, active: seq<Booking>)
    ensures var free := DeriveBlock(reading, teacher, block, active).free;
      && (forall s :: s in free ==> block.startDateTime <= s.startDateTime && s.endDateTime <= block.endDateTime)
      && (block.startDateTime < block.endDateTime ==> forall s :: s in free ==> s.startDateTime < s.endDateTime)
      && (forall s, b :: s in free && b in active && Intersects(b, block) ==> ClearOf(s, b))
      && ((forall b :: b in active ==> b.startDateTime <= b.endDateTime) ==> Ascending(free))
  {
    var matching := Matching(active, block);
    var matches := SortByStart(matching);
    SortKeepsMembers(matching);
    if matches != [] {
      WalkInside(teacher, block.startDateTime, matches, block.endDateTime);
      WalkClear(teacher, block.startDateTime, matches, block.endDateTime);
      if forall b :: b in active ==> b.startDateTime <= b.endDateTime {
        WalkAscending(teacher, block.startDateTime, matches, block.endDateTime);
      }
    } else {
      assert |matching| == 0;
    }
  }

  /** A block one booking covers entirely (with its buffer) has no free slot. */
  lemma CoveredBlockHasNoSlot(reading: Reading, teacher: ObjectId, block: Block, active: seq<Booking>, b: Booking)
    requires block.startDateTime < block.endDateTime
    requires b in active && b.startDateTime <= block.startDateTime && block.endDateTime <= b.endDateTime + BufferMs
    requires b.endDateTime > block.startDateTime
    ensures DeriveBlock(reading, teacher, block, active).free == []
  {
    BlockSlotsSound(reading, teacher, block, active);
    var free := DeriveBlock(reading, teacher, block, active).free;
    if free != [] {
      var s := free[0];
      assert s in free;
      assert Intersects(b, block);
      assert false;
    }
  }

  /** A worked example: the block 10:00-11:00 with a booking 10:15-10:30 leaves 10:00-10:15 and 10:35-11:00. */
  lemma {:induction false} ExampleBlock(reading: Reading, booking: Booking, teacher: ObjectId)
    requires booking.startDateTime == 36_900_000 && booking.endDateTime == 37_800_000
    requires booking.teacherId == teacher && !booking.cancelled
    ensures DeriveBlock(reading, teacher, Block(1, teacher, 36_000_000, 39_600_000), [booking]).free
         == [Slot(None, teacher, 36_000_000, 36_900_000), Slot(None, teacher, 38_100_000, 39_600_000)]
  {
    var block := Block(1, teacher, 36_000_000, 39_600_000);
    assert Matching([booking], block) == [booking];
    assert SortByStart([booking]) == [booking];
    var next := Advance(36_000_000, booking);
    assert next == 38_100_000;
    assert Walk(teacher, next, [], 39_600_000) == [Slot(None, teacher, 38_100_000, 39_600_000)];
    assert [booking][1..] == [];
  }

  /** The slot lies inside `block` and is clear of every active booking that meets it. */
  predicate SoundIn(s: Slot, block: Block, active: seq<Booking>)
  {
    && block.startDateTime <= s.startDateTime && s.endDateTime <= block.endDateTime
    && forall b :: b in active && Intersects(b, block) ==> ClearOf(s, b)
  }

  /** Every free slot of the whole response lies in one block and is clear of that block's bookings. */
  lemma {:induction false} AllSlotsSound(reading: Reading, teacher: ObjectId, blocks: seq<Block>, active: seq<Booking>)
    ensures forall s :: s in DeriveAll(reading, teacher, blocks, active).free ==>
      exists k :: 0 <= k < |blocks| && SoundIn(s, blocks[k], active)
  {
    if blocks != [] {
      var init := blocks[..|blocks| - 1];
      var last := blocks[|blocks| - 1];
      AllSlotsSound(reading, teacher, init, active);
      BlockSlotsSound(reading, teacher, last, active);
      forall s | s in DeriveAll(reading, teacher, blocks, active).free
        ensures exists k :: 0 <= k < |blocks| && SoundIn(s, blocks[k], active)
      {
        if s in DeriveAll(reading, teacher, init, active).free {
          var k :| 0 <= k < |init| && SoundIn(s, init[k], active);
          assert blocks[k] == init[k];
        } else {
          assert SoundIn(s, blocks[|blocks| - 1], active);
        }
      }
    }
  }

  /** A block that no active booking meets appears in the response whole, with its `_id`. */
  lemma {:induction false} UntouchedBlockKept(reading: Reading, teacher: ObjectId, blocks: seq<Block>, active: seq<Booking>, k: nat)
    requires k < |blocks|
    requires forall b :: b in active ==> !Intersects(b, blocks[k])
    ensures Slot(Some(blocks[k].id), teacher, blocks[k].startDateTime, blocks[k].endDateTime)
         in DeriveAll(reading, teacher, blocks, active).free
  {
    var last := blocks[|blocks| - 1];
    if k == |blocks| - 1 {
      if Matching(active, last) != [] {
        assert Matching(active, last)[0] in Matching(active, last);
      }
      assert SortByStart([]) == [];
    } else {
      UntouchedBlockKept(reading, teacher, blocks[..|blocks| - 1], active, k);
    }
  }

  /** Every `bookedSlots` entry names the student and lesson of a booking that meets one of the blocks. */
  lemma {:induction false} BookedSlotsNameStudents(teacher: ObjectId, blocks: seq<Block>, active: seq<Booking>)
    ensures forall e :: e in DeriveAll(Intended, teacher, blocks, active).booked ==>
      exists b, k :: b in active && 0 <= k < |blocks| && Intersects(b, blocks[k]) && e == BookedSlotOf(teacher, b)
  {
    if blocks != [] {
      var init := blocks[..|blocks| - 1];
      var last := blocks[|blocks| - 1];
      BookedSlotsNameStudents(teacher, init, active);
      var matching := Matching(active, last);
      SortKeepsMembers(matching);
      var here := BookedSlots(Intended, teacher, SortByStart(matching));
      forall e | e in DeriveAll(Intended, teacher, blocks, active).booked
        ensures exists b, k :: b in active && 0 <= k < |blocks| && Intersects(b, blocks[k]) && e == BookedSlotOf(teacher, b)
      {
        if e in DeriveAll(Intended, teacher, init, active).booked {
          var b, k :| b in active && 0 <= k < |init| && Intersects(b, init[k]) && e == BookedSlotOf(teacher, b);
          assert blocks[k] == init[k];
        } else {
          assert e in here;
          var j :| 0 <= j < |here| && here[j] == e;
          var b := SortByStart(matching)[j];
          assert e == BookedSlotOf(teacher, b);
          assert b in SortByStart(matching);
          assert b in active && Intersects(b, blocks[|blocks| - 1]);
        }
      }
    }
  }

  /** As written, no `bookedSlots` entry can tell whose lesson it is. */
  lemma BookedSlotAsWrittenLosesStudent(teacher: ObjectId, b: Booking)
    ensures BookedSlotAsWritten(teacher, b).student.None? && BookedSlotAsWritten(teacher, b).lesson.None?
    ensures BookedSlotAsWritten(teacher, b) != BookedSlotOf(teacher, b)
  {
  }

  /** The as-written entry is the intended one with student and lesson dropped. */
  predicate Erased(w: seq<BookedSlot>, i: seq<BookedSlot>)
  {
    |w| == |i| && forall k :: 0 <= k < |w| ==> w[k] == i[k].(student := None, lesson := None)
  }

  lemma ErasedAppend(w1: seq<BookedSlot>, i1: seq<BookedSlot>, w2: seq<BookedSlot>, i2: seq<BookedSlot>)
    requires Erased(w1, i1) && Erased(w2, i2)
    ensures Erased(w1 + w2, i1 + i2)
  {
    forall k | 0 <= k < |w1 + w2| ensures (w1 + w2)[k] == (i1 + i2)[k].(student := None, lesson := None) {
      if k >= |w1| {
        assert (w1 + w2)[k] == w2[k - |w1|] && (i1 + i2)[k] == i2[k - |i1|];
      }
    }
  }

  /** The two readings give the same free slots; the as-written entries are the intended ones without names. */
  lemma {:induction false} ReadingOnlyChangesNames(teacher: ObjectId, blocks: seq<Block>, active: seq<Booking>)
    ensures DeriveAll(AsWritten, teacher, blocks, active).free == DeriveAll(Intended, teacher, blocks, active).free
    ensures Erased(DeriveAll(AsWritten, teacher, blocks, active).booked, DeriveAll(Intended, teacher, blocks, active).booked)
  {
    if blocks != [] {
      var init := blocks[..|blocks| - 1];
      var matches := SortByStart(Matching(active, blocks[|blocks| - 1]));
      ReadingOnlyChangesNames(teacher, init, active);
      ErasedAppend(DeriveAll(AsWritten, teacher, init, active).booked, DeriveAll(Intended, teacher, init, active).booked,
                   BookedSlots(AsWritten, teacher, matches), BookedSlots(Intended, teacher, matches));
    }
  }

  /**
   * The response as teacherController.js:184-192 builds it: the same free slots
   * as the intended one, and every `bookedSlots` entry with neither student nor
   * lesson.
   */
  lemma ViewAsWrittenLosesStudents(teacher: ObjectId, blocks: seq<Block>, bookings: seq<Booking>)
    ensures var w := View(AsWritten, teacher, blocks, bookings);
      var i := View(Intended, teacher, blocks, bookings);
      && (w.Processed? <==> i.Processed?)
      && (w.Processed? ==> w.availabilityBlocks == i.availabilityBlocks && Erased(w.bookedSlots, i.bookedSlots))
      && (w.Processed? ==> forall e :: e in w.bookedSlots ==> e.student.None? && e.lesson.None?)
  {
    var active := ActiveBookings(bookings, teacher);
    if blocks != [] && active != [] {
      ReadingOnlyChangesNames(teacher, blocks, active);
    }
  }

  /** A cancelled booking never changes the response. */
  lemma {:induction false} CancelledBookingIgnored(reading: Reading, teacher: ObjectId, blocks: seq<Block>, bookings: seq<Booking>, x: Booking)
    requires x.cancelled
    ensures View(reading, teacher, blocks, bookings + [x]) == View(reading, teacher, blocks, bookings)
  {
    ActiveIgnoresCancelled(bookings, teacher, x);
  }

  lemma {:induction false} ActiveIgnoresCancelled(bookings: seq<Booking>, teacher: ObjectId, x: Booking)
    requires x.cancelled
    ensures ActiveBookings(bookings + [x], teacher) == ActiveBookings(bookings, teacher)
  {
    if bookings == [] {
      assert ([] + [x])[1..] == [];
    } else {
      ActiveIgnoresCancelled(bookings[1..], teacher, x);
      assert (bookings + [x])[1..] == bookings[1..] + [x];
    }
  }

  /** A newly saved booking starts not cancelled, so it is subtracted from its teacher's blocks. */
  lemma NewBookingIsActive(bookings: seq<Booking>, id: ObjectId, f: BookingFields)
    requires NewBooking(id, f).Ok?
    ensures NewBooking(id, f).value in ActiveBookings(bookings + [NewBooking(id, f).value], f.teacherId.value)
  {
  }

  // ---------------------------------------------------------------------------
  // The handler

  /** One step of the walk: the gap before the next booking, then the walk from past it. */
  lemma WalkStep(teacher: ObjectId, cursor: Instant, bs: seq<Booking>, j: nat, aEnd: Instant)
    requires j < |bs|
    ensures Walk(teacher, cursor, bs[j..], aEnd)
         == (if cursor < bs[j].startDateTime then [Slot(None, teacher, cursor, bs[j].startDateTime)] else [])
            + Walk(teacher, Advance(cursor, bs[j]), bs[j + 1..], aEnd)
  {
    assert bs[j..][1..] == bs[j + 1..];
  }

  /** The cursor walk over one block's sorted matching bookings (teacherController.js:155-182). */
  method WalkBlock(teacher: ObjectId, aStart: Instant, aEnd: Instant, matchingBookings: seq<Booking>)
    returns (slots: seq<Slot>)
    ensures slots == Walk(teacher, aStart, matchingBookings, aEnd)
  {
    slots := [];
    var cursor := aStart;
    for j := 0 to |matchingBookings|
      invariant slots + Walk(teacher, cursor, matchingBookings[j..], aEnd)
             == Walk(teacher, aStart, matchingBookings, aEnd)
    {
      var booking := matchingBookings[j];
      WalkStep(teacher, cursor, matchingBookings, j, aEnd);
      ghost var rest := Walk(teacher, Advance(cursor, booking), matchingBookings[j + 1..], aEnd);
      if cursor < booking.startDateTime {
        var gap := [Slot(None, teacher, cursor, booking.startDateTime)];
        assert slots + (gap + rest) == (slots + gap) + rest;
        slots := slots + gap;
      } else {
        assert [] + rest == rest;
      }
      cursor := Advance(cursor, booking);
    }
    assert matchingBookings[|matchingBookings|..] == [];
    if cursor < aEnd {
      slots := slots + [Slot(None, teacher, cursor, aEnd)];
    }
  }

  /** The loop over blocks after `i + 1` blocks is the loop after `i` blocks and the contribution of block `i`. */
  lemma DeriveAllStep(reading: Reading, teacher: ObjectId, blocks: seq<Block>, i: nat, active: seq<Booking>)
    requires i < |blocks|
    ensures DeriveAll(reading, teacher, blocks[..i + 1], active)
         == Derived(DeriveAll(reading, teacher, blocks[..i], active).free + DeriveBlock(reading, teacher, blocks[i], active).free,
                    DeriveAll(reading, teacher, blocks[..i], active).booked + DeriveBlock(reading, teacher, blocks[i], active).booked)
  {
    assert blocks[..i + 1][..i] == blocks[..i];
  }

  /**
   * GetAvailability for `teacher`, given its blocks (`TeacherAvailability.find`)
   * and all bookings; the loop over blocks is that of teacherController.js:134-193.
   */
  method GetAvailability(teacher: ObjectId, blocks: seq<Block>, bookings: seq<Booking>)
    returns (view: AvailabilityView)
    ensures view == View(AsWritten, teacher, blocks, bookings)
    ensures blocks == [] <==> view == NoData
    ensures ActiveBookings(bookings, teacher) == [] && blocks != [] ==> view == Processed(AsSlots(blocks), [])
  {
    if blocks == [] {
      return NoData;
    }
    var active := ActiveBookings(bookings, teacher);
    if active == [] {
      return Processed(AsSlots(blocks), []);
    }
    var availableSlots: seq<Slot> := [];
    var bookedSlots: seq<BookedSlot> := [];
    for i := 0 to |blocks|
      invariant availableSlots == DeriveAll(AsWritten, teacher, blocks[..i], active).free
      invariant bookedSlots == DeriveAll(AsWritten, teacher, blocks[..i], active).booked
    {
      var availability := blocks[i];
      var matchingBookings := SortByStart(Matching(active, availability));
      DeriveAllStep(AsWritten, teacher, blocks, i, active);
      if |matchingBookings| == 0 {
        assert bookedSlots + BookedSlots(AsWritten, teacher, matchingBookings) == bookedSlots;
        availableSlots := availableSlots
          + [Slot(Some(availability.id), teacher, availability.startDateTime, availability.endDateTime)];
        continue;
      }
      var slots := WalkBlock(teacher, availability.startDateTime, availability.endDateTime, matchingBookings);
      availableSlots := availableSlots + slots;
      bookedSlots := bookedSlots + BookedSlots(AsWritten, teacher, matchingBookings);
    }
    assert blocks[..|blocks|] == blocks;
    view := Processed(availableSlots, bookedSlots);
  }
}
