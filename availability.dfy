/**
 * A teacher's availability: the TeacherAvailability collection as a sequence of
 * blocks, and the three handlers of controller/teacherController.js that change
 * it (AddAvailability, UpdateAvailability, RemoveAvailability).
 *
 * A block stands for the interval from its start to its end. Two intervals
 * overlap when each starts before the other ends; intervals that only touch
 * do not overlap, and AddAvailability merges them instead.
 */
module Availability {
  import opened Wrappers
  import opened Values

  datatype Block = Block(id: ObjectId, teacher: ObjectId, startDateTime: Instant, endDateTime: Instant)

  /** The strict overlap test of AddAvailability and SpecialSlotCreate. */
  predicate Overlaps(start: Instant, end: Instant, b: Block)
  {
    start < b.endDateTime && end > b.startDateTime
  }

  /** The block touches the interval at one of its ends. */
  predicate Adjacent(start: Instant, end: Instant, b: Block)
  {
    b.endDateTime == start || b.startDateTime == end
  }

  /** `TeacherAvailability.find({ teacher })`, in store order. */
  function OfTeacher(blocks: seq<Block>, teacher: ObjectId): (r: seq<Block>)
    ensures forall b :: b in r <==> b in blocks && b.teacher == teacher
  {
    if blocks == [] then []
    else (if blocks[0].teacher == teacher then [blocks[0]] else []) + OfTeacher(blocks[1..], teacher)
  }

  /** `blocks.some(...)` with the overlap test. */
  predicate AnyOverlap(blocks: seq<Block>, start: Instant, end: Instant)
  {
    exists b :: b in blocks && Overlaps(start, end, b)
  }

  /** `blocks.filter(...)` with the adjacency test. */
  function Adjacents(blocks: seq<Block>, start: Instant, end: Instant): (r: seq<Block>)
    ensures forall b :: b in r <==> b in blocks && Adjacent(start, end, b)
  {
    if blocks == [] then []
    else (if Adjacent(start, end, blocks[0]) then [blocks[0]] else []) + Adjacents(blocks[1..], start, end)
  }

  function IdsOf(blocks: seq<Block>): (ids: set<ObjectId>)
    ensures forall b :: b in blocks ==> b.id in ids
    ensures forall id :: id in ids ==> exists b :: b in blocks && b.id == id
  {
    set b | b in blocks :: b.id
  }

  /** `deleteMany({ _id: { $in: ids } })`. */
  function RemoveIds(blocks: seq<Block>, ids: set<ObjectId>): (r: seq<Block>)
    ensures forall b :: b in r <==> b in blocks && b.id !in ids
    ensures |r| <= |blocks|
  {
    if blocks == [] then []
    else (if blocks[0].id in ids then [] else [blocks[0]]) + RemoveIds(blocks[1..], ids)
  }

  /**
   * The start of the merged block: the loop at teacherController.js:46-49 takes
   * the minimum of the new start and every adjacent block's start.
   */
  function SpanStart(adj: seq<Block>, start: Instant): (r: Instant)
    ensures r <= start
    ensures forall a :: a in adj ==> r <= a.startDateTime
    ensures r == start || exists a :: a in adj && r == a.startDateTime
  {
    if adj == [] then start
    else
      var init := adj[..|adj| - 1];
      var last := adj[|adj| - 1];
      assert forall a :: a in adj ==> a in init || a == last;
      var r := SpanStart(init, start);
      if last.startDateTime < r then last.startDateTime else r
  }

  /** The end of the merged block: the maximum of the new end and every adjacent block's end. */
  function SpanEnd(adj: seq<Block>, end: Instant): (r: Instant)
    ensures r >= end
    ensures forall a :: a in adj ==> r >= a.endDateTime
    ensures r == end || exists a :: a in adj && r == a.endDateTime
  {
    if adj == [] then end
    else
      var init := adj[..|adj| - 1];
      var last := adj[|adj| - 1];
      assert forall a :: a in adj ==> a in init || a == last;
      var r := SpanEnd(init, end);
      if last.endDateTime > r then last.endDateTime else r
  }

  datatype AvailabilityError =
    | TimesRequired      // 400 "Start time and End time are required"
    | EndNotAfterStart   // 400 "End time must be after start time"
    | OverlapsExisting   // 400 "Availability overlaps with existing schedule"
    | IdRequired         // 400 "ID is required"
    | NotFound           // 404 "Invalid Id. No data found"

  /** What a handler answers, and the collection it leaves behind. */
  datatype Change = Change(result: Result<Block, AvailabilityError>, blocks: seq<Block>)

  /**
   * AddAvailability for `teacher`, with `freshId` the id the new record gets.
   * A valid interval that overlaps none of the teacher's blocks is merged with
   * the blocks it touches: they are deleted and one block spanning all of them
   * is appended.
   */
  function Add(blocks: seq<Block>, teacher: ObjectId, freshId: ObjectId,
               start: Option<Instant>, end: Option<Instant>): (c: Change)
    ensures c.result.Err? ==> c.blocks == blocks
    ensures (start.None? || end.None?) ==> c.result == Err(TimesRequired)
    ensures start.Some? && end.Some? && start.value >= end.value ==> c.result == Err(EndNotAfterStart)
    ensures start.Some? && end.Some? && start.value < end.value
            && (exists b :: b in blocks && b.teacher == teacher && Overlaps(start.value, end.value, b))
            ==> c.result == Err(OverlapsExisting)
    ensures c.result.Ok? <==>
      (start.Some? && end.Some? && start.value < end.value
       && forall b :: b in blocks && b.teacher == teacher ==> !Overlaps(start.value, end.value, b))
    ensures c.result.Ok? ==> (
      && c.result.value.id == freshId && c.result.value.teacher == teacher
      && c.result.value.startDateTime <= start.value && c.result.value.endDateTime >= end.value
      && |c.blocks| > 0 && c.blocks[|c.blocks| - 1] == c.result.value)
    ensures c.result.Ok? ==> var m := c.result.value;
      && (forall b :: b in blocks && AbsorbedBy(teacher, start.value, end.value, b) ==>
            m.startDateTime <= b.startDateTime && m.endDateTime >= b.endDateTime)
      && (m.startDateTime == start.value
          || exists b :: b in blocks && AbsorbedBy(teacher, start.value, end.value, b) && m.startDateTime == b.startDateTime)
      && (m.endDateTime == end.value
          || exists b :: b in blocks && AbsorbedBy(teacher, start.value, end.value, b) && m.endDateTime == b.endDateTime)
  {
    if start.None? || end.None? then Change(Err(TimesRequired), blocks)
    else if start.value >= end.value then Change(Err(EndNotAfterStart), blocks)
    else
      var mine := OfTeacher(blocks, teacher);
      if AnyOverlap(mine, start.value, end.value) then Change(Err(OverlapsExisting), blocks)
      else
        var adj := Adjacents(mine, start.value, end.value);
        var merged := Block(freshId, teacher, SpanStart(adj, start.value), SpanEnd(adj, end.value));
        Change(Ok(merged), RemoveIds(blocks, IdsOf(adj)) + [merged])
  }

  /** The blocks a successful Add deletes: the teacher's blocks touching the interval. */
  predicate AbsorbedBy(teacher: ObjectId, start: Instant, end: Instant, b: Block)
  {
    b.teacher == teacher && Adjacent(start, end, b)
  }

  /** `findById` / `findOneAndDelete({ _id })`: the position of the block with that id. */
  function IndexOfId(blocks: seq<Block>, id: ObjectId): (r: Option<nat>)
    ensures r.Some? ==> r.value < |blocks| && blocks[r.value].id == id
    ensures r.Some? ==> forall k :: 0 <= k < r.value ==> blocks[k].id != id
    ensures r.None? ==> forall b :: b in blocks ==> b.id != id
  {
    if blocks == [] then None
    else if blocks[0].id == id then Some(0)
    else
      var r := IndexOfId(blocks[1..], id);
      if r.Some? then Some(r.value + 1) else None
  }

  /**
   * UpdateAvailability: overwrite the endpoints that are supplied, and nothing
   * else; there is no ordering, overlap or ownership check.
   */
  function Update(blocks: seq<Block>, id: Option<ObjectId>,
                  start: Option<Instant>, end: Option<Instant>): (c: Change)
    ensures c.result.Err? ==> c.blocks == blocks
    ensures id.None? ==> c.result == Err(IdRequired)
    ensures id.Some? ==> (c.result == Err(NotFound) <==> forall b :: b in blocks ==> b.id != id.value)
    ensures c.result.Ok? ==> (
      && id.Some? && IndexOfId(blocks, id.value).Some?
      && var k := IndexOfId(blocks, id.value).value;
      && |c.blocks| == |blocks|
      && (forall i :: 0 <= i < |blocks| && i != k ==> c.blocks[i] == blocks[i])
      && c.blocks[k] == c.result.value
      && c.result.value.id == blocks[k].id && c.result.value.teacher == blocks[k].teacher
      && c.result.value.startDateTime == (if start.Some? then start.value else blocks[k].startDateTime)
      && c.result.value.endDateTime == (if end.Some? then end.value else blocks[k].endDateTime))
  {
    if id.None? then Change(Err(IdRequired), blocks)
    else
      var k := IndexOfId(blocks, id.value);
      if k.None? then Change(Err(NotFound), blocks)
      else
        var old_ := blocks[k.value];
        var b := old_.(startDateTime := start.GetOr(old_.startDateTime),
                       endDateTime := end.GetOr(old_.endDateTime));
        Change(Ok(b), blocks[k.value := b])
  }

  /** RemoveAvailability: delete the block with that id, or answer 404. */
  function Remove(blocks: seq<Block>, id: Option<ObjectId>): (c: Change)
    ensures c.result.Err? ==> c.blocks == blocks
    ensures id.None? ==> c.result == Err(IdRequired)
    ensures id.Some? ==> (c.result == Err(NotFound) <==> forall b :: b in blocks ==> b.id != id.value)
    ensures c.result.Ok? ==> (
      && id.Some? && c.result.value in blocks && c.result.value.id == id.value
      && |c.blocks| == |blocks| - 1
      && forall b :: b in blocks && b != c.result.value ==> b in c.blocks)
    ensures c.result.Ok? ==> forall b :: b in c.blocks ==> b in blocks
  {
    if id.None? then Change(Err(IdRequired), blocks)
    else
      var k := IndexOfId(blocks, id.value);
      if k.None? then Change(Err(NotFound), blocks)
      else
        var i := k.value;
        assert blocks == blocks[..i] + [blocks[i]] + blocks[i + 1..];
        Change(Ok(blocks[i]), blocks[..i] + blocks[i + 1..])
  }

  // ---------------------------------------------------------------------------
  // The store invariant

  /** Every block is a proper interval and no two blocks of one teacher overlap. */
  ghost predicate NonOverlapping(blocks: seq<Block>)
  {
    && (forall b :: b in blocks ==> b.startDateTime < b.endDateTime)
    && (forall a, b :: a in blocks && b in blocks && a != b && a.teacher == b.teacher ==>
          !Overlaps(a.startDateTime, a.endDateTime, b))
  }

  /** No two records share an `_id`. */
  ghost predicate UniqueIds(blocks: seq<Block>)
  {
    forall i, j :: 0 <= i < j < |blocks| ==> blocks[i].id != blocks[j].id
  }

  /** A touching block is never an overlap: it is a candidate for merging instead. */
  lemma TouchingIsNotOverlap(start: Instant, end: Instant, b: Block)
    requires start < end && b.startDateTime < b.endDateTime
    requires Adjacent(start, end, b)
    ensures !Overlaps(start, end, b)
  {
  }

  /**
   * A successful Add deletes exactly the teacher's blocks that touch the new
   * interval; every other block is kept, and the only new block is the merged one.
   */
  lemma {:induction false} AddKeepsOthers(blocks: seq<Block>, teacher: ObjectId, freshId: ObjectId,
                                          start: Option<Instant>, end: Option<Instant>)
    requires UniqueIds(blocks)
    requires Add(blocks, teacher, freshId, start, end).result.Ok?
    ensures var c := Add(blocks, teacher, freshId, start, end);
      && (forall b :: b in blocks && !AbsorbedBy(teacher, start.value, end.value, b) ==> b in c.blocks)
      && (forall b :: b in blocks && AbsorbedBy(teacher, start.value, end.value, b) ==> b !in c.blocks[..|c.blocks| - 1])
      && (forall b :: b in c.blocks ==> b == c.result.value || (b in blocks && !AbsorbedBy(teacher, start.value, end.value, b)))
  {
    var s, e := start.value, end.value;
    var mine := OfTeacher(blocks, teacher);
    var adj := Adjacents(mine, s, e);
    var c := Add(blocks, teacher, freshId, start, end);
    var rest := RemoveIds(blocks, IdsOf(adj));
    assert c.blocks == rest + [c.result.value];
    assert c.blocks[..|c.blocks| - 1] == rest;
    forall b | b in blocks && !AbsorbedBy(teacher, s, e, b)
      ensures b in c.blocks
    {
      if b.id in IdsOf(adj) {
        var a :| a in adj && a.id == b.id;
        UniqueIdsSameBlock(blocks, a, b);
        assert false;
      }
    }
  }

  lemma UniqueIdsSameBlock(blocks: seq<Block>, a: Block, b: Block)
    requires UniqueIds(blocks) && a in blocks && b in blocks && a.id == b.id
    ensures a == b
  {
    var i :| 0 <= i < |blocks| && blocks[i] == a;
    var j :| 0 <= j < |blocks| && blocks[j] == b;
    assert blocks[i].id == blocks[j].id;
  }

  /** The merged block overlaps none of the teacher's blocks that Add keeps. */
  lemma MergedClearOfKept(blocks: seq<Block>, teacher: ObjectId, freshId: ObjectId,
                          start: Option<Instant>, end: Option<Instant>, b: Block)
    requires NonOverlapping(blocks)
    requires Add(blocks, teacher, freshId, start, end).result.Ok?
    requires b in blocks && b.teacher == teacher && !Adjacent(start.value, end.value, b)
    ensures var m := Add(blocks, teacher, freshId, start, end).result.value;
      !Overlaps(m.startDateTime, m.endDateTime, b) && !Overlaps(b.startDateTime, b.endDateTime, m)
  {
    var s, e := start.value, end.value;
    var adj := Adjacents(OfTeacher(blocks, teacher), s, e);
    assert !Overlaps(s, e, b);
    if b.endDateTime <= s {
      forall a | a in adj ensures a.startDateTime >= b.endDateTime {
        assert a != b && a in blocks && a.teacher == b.teacher;
        assert !Overlaps(a.startDateTime, a.endDateTime, b);
      }
    } else {
      forall a | a in adj ensures a.endDateTime <= b.startDateTime {
        assert a != b && a in blocks && a.teacher == b.teacher;
        assert !Overlaps(a.startDateTime, a.endDateTime, b);
      }
    }
  }

  /** Merging on insert keeps the store invariant. */
  lemma AddPreservesNonOverlapping(blocks: seq<Block>, teacher: ObjectId, freshId: ObjectId,
                                   start: Option<Instant>, end: Option<Instant>)
    requires NonOverlapping(blocks)
    ensures NonOverlapping(Add(blocks, teacher, freshId, start, end).blocks)
  {
    var c := Add(blocks, teacher, freshId, start, end);
    if c.result.Ok? {
      var s, e := start.value, end.value;
      var adj := Adjacents(OfTeacher(blocks, teacher), s, e);
      var rest := RemoveIds(blocks, IdsOf(adj));
      var m := c.result.value;
      assert c.blocks == rest + [m];
      assert forall b :: b in c.blocks ==> b in rest || b == m;
      forall b | b in rest && b.teacher == teacher
        ensures !Overlaps(m.startDateTime, m.endDateTime, b) && !Overlaps(b.startDateTime, b.endDateTime, m)
      {
        assert b !in adj;
        MergedClearOfKept(blocks, teacher, freshId, start, end, b);
      }
      AppendClearKeepsNonOverlapping(rest, m);
    }
  }

  /** Appending a proper block that overlaps none of its teacher's blocks keeps the invariant. */
  lemma AppendClearKeepsNonOverlapping(rest: seq<Block>, m: Block)
    requires NonOverlapping(rest) && m.startDateTime < m.endDateTime
    requires forall b :: b in rest && b.teacher == m.teacher ==>
      !Overlaps(m.startDateTime, m.endDateTime, b) && !Overlaps(b.startDateTime, b.endDateTime, m)
    ensures NonOverlapping(rest + [m])
  {
    assert forall b :: b in rest + [m] ==> b in rest || b == m;
  }

  /** UpdateAvailability can break the store invariant: it may invert a block. */
  lemma UpdateMayInvertBlock()
    ensures var blocks := [Block(1, 7, 600, 1200)];
      && NonOverlapping(blocks)
      && Update(blocks, Some(1), None, Some(300)).result.Ok?
      && !NonOverlapping(Update(blocks, Some(1), None, Some(300)).blocks)
  {
    var blocks := [Block(1, 7, 600, 1200)];
    var after := Update(blocks, Some(1), None, Some(300)).blocks;
    assert after[0] == Block(1, 7, 600, 300);
  }

  /** UpdateAvailability can break the store invariant: it may move a block onto another. */
  lemma UpdateMayCreateOverlap()
    ensures var blocks := [Block(1, 7, 600, 1200), Block(2, 7, 1800, 2400)];
      && NonOverlapping(blocks)
      && Update(blocks, Some(2), Some(900), None).result.Ok?
      && !NonOverlapping(Update(blocks, Some(2), Some(900), None).blocks)
  {
    var blocks := [Block(1, 7, 600, 1200), Block(2, 7, 1800, 2400)];
    var after := Update(blocks, Some(2), Some(900), None).blocks;
    assert after[0] == Block(1, 7, 600, 1200) && after[1] == Block(2, 7, 900, 2400);
    assert Overlaps(after[0].startDateTime, after[0].endDateTime, after[1]);
  }

  /**
   * The invariant survives an update that the handler does not check but a
   * caller might: the new block is proper and overlaps none of its teacher's others.
   */
  lemma {:induction false} CheckedUpdatePreservesNonOverlapping(blocks: seq<Block>, id: ObjectId,
                                                                start: Option<Instant>, end: Option<Instant>)
    requires NonOverlapping(blocks) && UniqueIds(blocks)
    requires var c := Update(blocks, Some(id), start, end);
      c.result.Ok? ==> (
        && c.result.value.startDateTime < c.result.value.endDateTime
        && forall b :: b in blocks && b.id != id && b.teacher == c.result.value.teacher ==>
             !Overlaps(c.result.value.startDateTime, c.result.value.endDateTime, b))
    ensures NonOverlapping(Update(blocks, Some(id), start, end).blocks)
  {
    var c := Update(blocks, Some(id), start, end);
    if c.result.Ok? {
      var k := IndexOfId(blocks, id).value;
      var u := c.result.value;
      forall b | b in c.blocks ensures b == u || (b in blocks && b.id != id) {
        var i :| 0 <= i < |c.blocks| && c.blocks[i] == b;
        if i != k {
          assert b == blocks[i];
          if i < k { assert blocks[i].id != blocks[k].id; } else { assert blocks[k].id != blocks[i].id; }
        }
      }
    }
  }

  /** Removing a block keeps the store invariant. */
  lemma RemovePreservesNonOverlapping(blocks: seq<Block>, id: Option<ObjectId>)
    requires NonOverlapping(blocks)
    ensures NonOverlapping(Remove(blocks, id).blocks)
  {
  }

  /** With unique ids, no block with the removed id is left. */
  lemma RemoveDeletesTheId(blocks: seq<Block>, id: ObjectId)
    requires UniqueIds(blocks)
    requires Remove(blocks, Some(id)).result.Ok?
    ensures forall b :: b in Remove(blocks, Some(id)).blocks ==> b.id != id
  {
    var k := IndexOfId(blocks, id).value;
    assert Remove(blocks, Some(id)).blocks == blocks[..k] + blocks[k + 1..];
    DropAtLosesId(blocks, k);
  }

  /** With unique ids, deleting the record at `k` leaves no record with its id. */
  lemma DropAtLosesId(blocks: seq<Block>, k: nat)
    requires UniqueIds(blocks) && k < |blocks|
    ensures forall b :: b in blocks[..k] + blocks[k + 1..] ==> b.id != blocks[k].id
  {
    forall b | b in blocks[..k] + blocks[k + 1..] ensures b.id != blocks[k].id {
      if b in blocks[..k] {
        var i :| 0 <= i < k && blocks[..k][i] == b;
        assert blocks[i] == b;
      } else {
        var i :| 0 <= i < |blocks[k + 1..]| && blocks[k + 1..][i] == b;
        assert blocks[k + 1 + i] == b;
      }
    }
  }


  // ---------------------------------------------------------------------------
  // The collection as the handlers change it

  /**
   * The loop of AddAvailability that widens the new interval over the blocks it
   * touches: the result starts no later and ends no earlier than any of them.
   */
  method WidenToAdjacents(adjacents: seq<Block>, start: Instant, end: Instant)
    returns (startUTC: Instant, endUTC: Instant)
    ensures startUTC == SpanStart(adjacents, start) && endUTC == SpanEnd(adjacents, end)
  {
    startUTC, endUTC := start, end;
    for k := 0 to |adjacents|
      invariant startUTC == SpanStart(adjacents[..k], start)
      invariant endUTC == SpanEnd(adjacents[..k], end)
    {
      assert adjacents[..k + 1][..k] == adjacents[..k];
      var avail := adjacents[k];
      startUTC := if startUTC < avail.startDateTime then startUTC else avail.startDateTime;
      endUTC := if endUTC > avail.endDateTime then endUTC else avail.endDateTime;
    }
    assert adjacents[..|adjacents|] == adjacents;
  }

  class AvailabilityStore {
    var blocks: seq<Block>
    /** The id the next created record gets; every stored id is below it. */
    var nextId: ObjectId

    ghost predicate Valid()
      reads this
    {
      UniqueIds(blocks) && forall b :: b in blocks ==> b.id < nextId
    }

    constructor ()
      ensures Valid() && blocks == []
    {
      blocks := [];
      nextId := 0;
    }

    method AddAvailability(teacher: ObjectId, start: Option<Instant>, end: Option<Instant>)
      returns (r: Result<Block, AvailabilityError>)
      requires Valid()
      modifies this
      ensures Valid()
      ensures var c := Add(old(blocks), teacher, old(nextId), start, end);
        r == c.result && blocks == c.blocks
      ensures nextId == (if r.Ok? then old(nextId) + 1 else old(nextId))
      ensures old(NonOverlapping(blocks)) ==> NonOverlapping(blocks)
    {
      if NonOverlapping(blocks) {
        AddPreservesNonOverlapping(blocks, teacher, nextId, start, end);
      }
      if start.None? || end.None? {
        return Err(TimesRequired);
      }
      var startUTC, endUTC := start.value, end.value;
      if startUTC >= endUTC {
        return Err(EndNotAfterStart);
      }
      var existing := OfTeacher(blocks, teacher);
      if AnyOverlap(existing, startUTC, endUTC) {
        return Err(OverlapsExisting);
      }
      var adjacents := Adjacents(existing, startUTC, endUTC);
      startUTC, endUTC := WidenToAdjacents(adjacents, startUTC, endUTC);
      if |adjacents| > 0 {
        RemoveIdsKeepsUniqueIds(blocks, IdsOf(adjacents));
        blocks := RemoveIds(blocks, IdsOf(adjacents));
      } else {
        assert RemoveIds(blocks, IdsOf(adjacents)) == blocks by {
          RemoveNothing(blocks);
        }
      }
      var created := Block(nextId, teacher, startUTC, endUTC);
      AppendFreshKeepsUniqueIds(blocks, created, nextId);
      blocks := blocks + [created];
      nextId := nextId + 1;
      r := Ok(created);
    }

    method UpdateAvailability(id: Option<ObjectId>, start: Option<Instant>, end: Option<Instant>)
      returns (r: Result<Block, AvailabilityError>)
      requires Valid()
      modifies this
      ensures Valid() && nextId == old(nextId)
      ensures var c := Update(old(blocks), id, start, end);
        r == c.result && blocks == c.blocks
    {
      if id.None? {
        return Err(IdRequired);
      }
      var k := IndexOfId(blocks, id.value);
      if k.None? {
        return Err(NotFound);
      }
      var data := blocks[k.value];
      if start.Some? {
        data := data.(startDateTime := start.value);
      }
      if end.Some? {
        data := data.(endDateTime := end.value);
      }
      blocks := blocks[k.value := data];
      r := Ok(data);
      assert forall i :: 0 <= i < |blocks| ==> blocks[i].id == old(blocks)[i].id;
    }

    method RemoveAvailability(id: Option<ObjectId>) returns (r: Result<Block, AvailabilityError>)
      requires Valid()
      modifies this
      ensures Valid() && nextId == old(nextId)
      ensures var c := Remove(old(blocks), id);
        r == c.result && blocks == c.blocks
    {
      if id.None? {
        return Err(IdRequired);
      }
      var k := IndexOfId(blocks, id.value);
      if k.None? {
        return Err(NotFound);
      }
      var i := k.value;
      r := Ok(blocks[i]);
      RemoveAtKeepsUniqueIds(blocks, i);
      blocks := blocks[..i] + blocks[i + 1..];
    }
  }

  lemma RemoveAtKeepsUniqueIds(blocks: seq<Block>, i: nat)
    requires UniqueIds(blocks) && i < |blocks|
    ensures UniqueIds(blocks[..i] + blocks[i + 1..])
    ensures forall b :: b in blocks[..i] + blocks[i + 1..] ==> b in blocks
  {
    var r := blocks[..i] + blocks[i + 1..];
    forall a | 0 <= a < |r| ensures r[a] == blocks[if a < i then a else a + 1] {
    }
    forall a, b | 0 <= a < b < |r| ensures r[a].id != r[b].id {
      assert r[a] == blocks[if a < i then a else a + 1];
      assert r[b] == blocks[if b < i then b else b + 1];
    }
  }

  lemma {:induction false} RemoveNothing(blocks: seq<Block>)
    ensures RemoveIds(blocks, IdsOf([])) == blocks
  {
    if blocks != [] {
      RemoveNothing(blocks[1..]);
      assert [blocks[0]] + blocks[1..] == blocks;
    }
  }

  /** A record whose id is above every stored id keeps the ids unique. */
  lemma AppendFreshKeepsUniqueIds(blocks: seq<Block>, b: Block, n: ObjectId)
    requires UniqueIds(blocks) && (forall x :: x in blocks ==> x.id < n) && b.id == n
    ensures UniqueIds(blocks + [b]) && forall x :: x in blocks + [b] ==> x.id < n + 1
  {
    var all := blocks + [b];
    forall i, j | 0 <= i < j < |all| ensures all[i].id != all[j].id {
      assert all[i] == blocks[i] && all[i] in blocks;
    }
  }

  /** Deleting records by id cannot create a duplicate id. */
  lemma {:induction false} RemoveIdsKeepsUniqueIds(blocks: seq<Block>, ids: set<ObjectId>)
    requires UniqueIds(blocks)
    ensures UniqueIds(RemoveIds(blocks, ids))
  {
    if blocks != [] {
      var tail := blocks[1..];
      UniqueIdsTail(blocks);
      RemoveIdsKeepsUniqueIds(tail, ids);
      var r := RemoveIds(tail, ids);
      if blocks[0].id !in ids {
        forall k | 0 <= k < |r| ensures r[k].id != blocks[0].id {
          assert r[k] in tail;
          var j :| 0 <= j < |tail| && tail[j] == r[k];
          assert blocks[j + 1] == r[k];
        }
        UniqueIdsCons(blocks[0], r);
      }
    }
  }

  lemma UniqueIdsTail(blocks: seq<Block>)
    requires UniqueIds(blocks) && blocks != []
    ensures UniqueIds(blocks[1..])
  {
    var tail := blocks[1..];
    forall i, j | 0 <= i < j < |tail| ensures tail[i].id != tail[j].id {
      assert tail[i] == blocks[i + 1] && tail[j] == blocks[j + 1];
    }
  }

  lemma UniqueIdsCons(b: Block, r: seq<Block>)
    requires UniqueIds(r) && forall k :: 0 <= k < |r| ==> r[k].id != b.id
    ensures UniqueIds([b] + r)
  {
    var full := [b] + r;
    forall i, j | 0 <= i < j < |full| ensures full[i].id != full[j].id {
      if i == 0 {
        assert full[j] == r[j - 1];
      } else {
        assert full[i] == r[i - 1] && full[j] == r[j - 1];
      }
    }
  }
}
