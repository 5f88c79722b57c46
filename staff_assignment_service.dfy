/** Staff assignments: the double-booking check and the check-in, check-out, create and delete
    operations, over the stored assignments in the order the store holds them. */
module StaffAssignments {
  import opened Wrappers
  import opened Entities

  // ---------------------------------------------------------------------------------------
  // Availability

  /** Assignment `a` keeps staff member `staffId` from taking `[startTime, endTime)`: it is theirs,
      not cancelled, not the excluded one, and its shift overlaps the window. Intervals that only
      touch do not overlap. */
  function Blocks(a: StaffAssignment, staffId: int, startTime: int, endTime: int, excludeAssignmentId: Option<int>): (blocks: bool)
    // only the staff member's own assignments that are not cancelled and not excluded block
    ensures blocks ==> a.staffId == staffId && a.status != AssignmentStatus.Cancelled
    ensures excludeAssignmentId == Some(a.id) ==> !blocks
    // a shift that ends before the window starts, or starts after it ends, never blocks;
    // in particular one that only touches the window
    ensures a.shiftEnd <= startTime || endTime <= a.shiftStart ==> !blocks
    // for such an assignment and non-empty intervals: it blocks exactly when the two share an
    // instant, i.e. the later start comes before the earlier end
    ensures a.staffId == staffId && a.status != AssignmentStatus.Cancelled && excludeAssignmentId != Some(a.id)
            && a.shiftStart < a.shiftEnd && startTime < endTime ==>
              (blocks <==> (if a.shiftStart < startTime then startTime else a.shiftStart)
                           < (if a.shiftEnd < endTime then a.shiftEnd else endTime))
  {
    && a.staffId == staffId
    && a.status != AssignmentStatus.Cancelled
    && a.shiftStart < endTime
    && a.shiftEnd > startTime
    && (excludeAssignmentId.None? || a.id != excludeAssignmentId.value)
  }

  /** `IsStaffAvailableAsync`: true when no stored assignment blocks the window. */
  function IsStaffAvailable(assignments: seq<StaffAssignment>, staffId: int, startTime: int, endTime: int,
                            excludeAssignmentId: Option<int>): (available: bool)
    ensures available <==>
            forall i :: 0 <= i < |assignments| ==> !Blocks(assignments[i], staffId, startTime, endTime, excludeAssignmentId)
  {
    if assignments == [] then true
    else
      !Blocks(assignments[0], staffId, startTime, endTime, excludeAssignmentId)
      && IsStaffAvailable(assignments[1..], staffId, startTime, endTime, excludeAssignmentId)
  }

  /** Cancelled assignments, other staff members' assignments and the excluded assignment can be
      added anywhere without changing the answer. */
  lemma {:induction false} IrrelevantAssignmentsDoNotMatter(
    before: seq<StaffAssignment>, a: StaffAssignment, after: seq<StaffAssignment>,
    staffId: int, startTime: int, endTime: int, excludeAssignmentId: Option<int>)
    requires || a.status == AssignmentStatus.Cancelled
             || a.staffId != staffId
             || excludeAssignmentId == Some(a.id)
    ensures IsStaffAvailable(before + [a] + after, staffId, startTime, endTime, excludeAssignmentId)
         == IsStaffAvailable(before + after, staffId, startTime, endTime, excludeAssignmentId)
  {
    var with, without := before + [a] + after, before + after;
    if IsStaffAvailable(without, staffId, startTime, endTime, excludeAssignmentId) {
      forall i | 0 <= i < |with|
        ensures !Blocks(with[i], staffId, startTime, endTime, excludeAssignmentId)
      {
        if i < |before| {
          assert with[i] == without[i];
        } else if i > |before| {
          assert with[i] == without[i - 1];
        }
      }
    } else {
      var k :| 0 <= k < |without| && Blocks(without[k], staffId, startTime, endTime, excludeAssignmentId);
      if k < |before| {
        assert with[k] == without[k];
      } else {
        assert with[k + 1] == without[k];
      }
    }
  }

  /** Removing an assignment can only make a staff member available, never unavailable. */
  lemma {:induction false} RemovingOnlyFrees(assignments: seq<StaffAssignment>, k: nat,
                                             staffId: int, startTime: int, endTime: int, excludeAssignmentId: Option<int>)
    requires k < |assignments|
    requires IsStaffAvailable(assignments, staffId, startTime, endTime, excludeAssignmentId)
    ensures IsStaffAvailable(assignments[..k] + assignments[k + 1..], staffId, startTime, endTime, excludeAssignmentId)
  {
    var rest := assignments[..k] + assignments[k + 1..];
    forall i | 0 <= i < |rest|
      ensures !Blocks(rest[i], staffId, startTime, endTime, excludeAssignmentId)
    {
      if i < k {
        assert rest[i] == assignments[i];
      } else {
        assert rest[i] == assignments[i + 1];
      }
    }
  }

  // ---------------------------------------------------------------------------------------
  // Lookup and the changes an operation makes to one assignment

  /** `FirstOrDefault(sa => sa.Id == id)`: the position of the first assignment with that id. */
  function IndexOfAssignment(assignments: seq<StaffAssignment>, id: int): (k: Option<nat>)
    ensures k.Some? ==> k.value < |assignments| && assignments[k.value].id == id
                        && forall j :: 0 <= j < k.value ==> assignments[j].id != id
    ensures k.None? ==> forall j :: 0 <= j < |assignments| ==> assignments[j].id != id
  {
    if assignments == [] then None
    else if assignments[0].id == id then Some(0)
    else
      match IndexOfAssignment(assignments[1..], id)
      case None => None
      case Some(k) => Some(k + 1)
  }

  /** The assignment after a check-in at `now`, written back with `UpdatedAt = now`. */
  function AfterCheckIn(a: StaffAssignment, now: int): (r: StaffAssignment)
    ensures r.status == AssignmentStatus.CheckedIn && r.checkInTime == Some(now) && r.updatedAt == Some(now)
    // nothing else changes: in particular the check-out time is kept
    ensures r.(status := a.status, checkInTime := a.checkInTime, updatedAt := a.updatedAt) == a
  {
    a.(checkInTime := Some(now), status := AssignmentStatus.CheckedIn, updatedAt := Some(now))
  }

  /** The assignment after a check-out at `now`, written back with `UpdatedAt = now`. */
  function AfterCheckOut(a: StaffAssignment, now: int): (r: StaffAssignment)
    ensures r.status == AssignmentStatus.CheckedOut && r.checkOutTime == Some(now) && r.updatedAt == Some(now)
    // nothing else changes: in particular the check-in time is kept
    ensures r.(status := a.status, checkOutTime := a.checkOutTime, updatedAt := a.updatedAt) == a
  {
    a.(checkOutTime := Some(now), status := AssignmentStatus.CheckedOut, updatedAt := Some(now))
  }

  /** Checking in and then out, from any status, leaves the assignment checked out with both
      times recorded; checking out first and then in leaves it checked in with both times. */
  lemma CheckInThenOut(a: StaffAssignment, checkIn: int, checkOut: int)
    ensures var r := AfterCheckOut(AfterCheckIn(a, checkIn), checkOut);
            r.status == AssignmentStatus.CheckedOut && r.checkInTime == Some(checkIn) && r.checkOutTime == Some(checkOut)
    ensures var r := AfterCheckIn(AfterCheckOut(a, checkOut), checkIn);
            r.status == AssignmentStatus.CheckedIn && r.checkInTime == Some(checkIn) && r.checkOutTime == Some(checkOut)
  {
  }

  /** Checking in a cancelled assignment makes it count against its staff member again. */
  lemma CheckInRevivesCancelled(a: StaffAssignment, now: int, startTime: int, endTime: int)
    requires a.status == AssignmentStatus.Cancelled
    requires a.shiftStart < endTime && a.shiftEnd > startTime
    ensures !Blocks(a, a.staffId, startTime, endTime, None)
    ensures Blocks(AfterCheckIn(a, now), a.staffId, startTime, endTime, None)
  {
  }

  // ---------------------------------------------------------------------------------------
  // The service over the stored assignments

  class StaffAssignmentService {
    var assignments: seq<StaffAssignment>

    constructor (assignments: seq<StaffAssignment>)
      ensures this.assignments == assignments
    {
      this.assignments := assignments;
    }

    /** `CreateAssignmentAsync`: stamps `AssignedAt` and stores the assignment, without asking
        whether the staff member is available. */
    method CreateAssignment(assignment: StaffAssignment, now: int) returns (created: StaffAssignment)
      modifies this
      ensures created == assignment.(assignedAt := now)
      ensures assignments == old(assignments) + [created]
    {
      created := assignment.(assignedAt := now);
      assignments := assignments + [created];
    }

    /** `DeleteAssignmentAsync`: removes the assignment with that id, if there is one. */
    method DeleteAssignment(id: int)
      modifies this
      ensures IndexOfAssignment(old(assignments), id).None? ==> assignments == old(assignments)
      ensures IndexOfAssignment(old(assignments), id).Some? ==>
                var k := IndexOfAssignment(old(assignments), id).value;
                assignments == old(assignments)[..k] + old(assignments)[k + 1..]
    {
      var found := IndexOfAssignment(assignments, id);
      if found.Some? {
        var k := found.value;
        assignments := assignments[..k] + assignments[k + 1..];
      }
    }

    /** `CheckInStaffAsync`: sets the check-in time and status of the assignment with that id,
        whatever its status, and stores it; null when there is none. */
    method CheckInStaff(assignmentId: int, now: int) returns (r: Option<StaffAssignment>)
      modifies this
      ensures IndexOfAssignment(old(assignments), assignmentId).None? ==>
                r == None && assignments == old(assignments)
      ensures IndexOfAssignment(old(assignments), assignmentId).Some? ==>
                var k := IndexOfAssignment(old(assignments), assignmentId).value;
                r == Some(AfterCheckIn(old(assignments)[k], now)) && assignments == old(assignments)[k := r.value]
    {
      var found := IndexOfAssignment(assignments, assignmentId);
      if found.None? {
        return None;
      }
      var k := found.value;
      var assignment := assignments[k];
      assignment := assignment.(checkInTime := Some(now), status := AssignmentStatus.CheckedIn);
      // UpdateAssignmentAsync
      assignment := assignment.(updatedAt := Some(now));
      assignments := assignments[k := assignment];
      r := Some(assignment);
    }

    /** `CheckOutStaffAsync`: sets the check-out time and status of the assignment with that id,
        whatever its status (also without a check-in), and stores it; null when there is none. */
    method CheckOutStaff(assignmentId: int, now: int) returns (r: Option<StaffAssignment>)
      modifies this
      ensures IndexOfAssignment(old(assignments), assignmentId).None? ==>
                r == None && assignments == old(assignments)
      ensures IndexOfAssignment(old(assignments), assignmentId).Some? ==>
                var k := IndexOfAssignment(old(assignments), assignmentId).value;
                r == Some(AfterCheckOut(old(assignments)[k], now)) && assignments == old(assignments)[k := r.value]
    {
      var found := IndexOfAssignment(assignments, assignmentId);
      if found.None? {
        return None;
      }
      var k := found.value;
      var assignment := assignments[k];
      assignment := assignment.(checkOutTime := Some(now), status := AssignmentStatus.CheckedOut);
      // UpdateAssignmentAsync
      assignment := assignment.(updatedAt := Some(now));
      assignments := assignments[k := assignment];
      r := Some(assignment);
    }
  }

  /** Creation does not check availability, so it double-books: when an earlier active assignment
      of the same staff member overlaps the new one, the staff member is not available for the new
      shift, and yet after `CreateAssignment` both are stored and each blocks the other's shift. */
  lemma CreateCanDoubleBook(assignments: seq<StaffAssignment>, i: nat, a: StaffAssignment, now: int)
    requires i < |assignments|
    requires assignments[i].staffId == a.staffId && assignments[i].status != AssignmentStatus.Cancelled
    requires a.status != AssignmentStatus.Cancelled
    requires assignments[i].shiftStart < a.shiftEnd && a.shiftStart < assignments[i].shiftEnd
    ensures !IsStaffAvailable(assignments, a.staffId, a.shiftStart, a.shiftEnd, None)
    ensures var after := assignments + [a.(assignedAt := now)];
            && after[i] == assignments[i]
            && Blocks(after[i], a.staffId, a.shiftStart, a.shiftEnd, None)
            && Blocks(after[|assignments|], a.staffId, assignments[i].shiftStart, assignments[i].shiftEnd, None)
  {
    assert Blocks(assignments[i], a.staffId, a.shiftStart, a.shiftEnd, None);
  }

  /** Deleting never makes a staff member unavailable. */
  lemma DeletingOnlyFrees(assignments: seq<StaffAssignment>, id: int,
                          staffId: int, startTime: int, endTime: int, excludeAssignmentId: Option<int>)
    requires IndexOfAssignment(assignments, id).Some?
    requires IsStaffAvailable(assignments, staffId, startTime, endTime, excludeAssignmentId)
    ensures var k := IndexOfAssignment(assignments, id).value;
            IsStaffAvailable(assignments[..k] + assignments[k + 1..], staffId, startTime, endTime, excludeAssignmentId)
  {
    RemovingOnlyFrees(assignments, IndexOfAssignment(assignments, id).value, staffId, startTime, endTime, excludeAssignmentId);
  }
}
