/** The event service of the DomainService layer: creation with date validation and a default
    full-duration shift, and update with date validation before the shared tail. Its errors are
    `DomainException`s, except the missing event and mismatched ids (`InvalidOperationException`). */
module DomainServiceEventService {
  import opened Wrappers
  import opened Entities
  import opened Persistence
  import opened UpdateFlow

  /** The shift appended to every event this service creates. */
  function FullDurationShift(startDate: int, endDate: int, now: int): (s: Shift)
    ensures s.startTime == startDate && s.endTime == endDate && ShiftWithin(s, startDate, endDate)
    ensures s.requiredStaff == 1 && s.status == Open && s.staffAssignments == []
    ensures ShiftValid(s)
  {
    var s := NewShift(now).(name := "Full Event duration", startTime := startDate, endTime := endDate,
                            createdAt := now, updatedAt := Some(now),
                            description := Some("Auto-generated shift covering the entire event duration"),
                            requiredStaff := 1);
    assert !IsWhiteSpace(s.name[0]);
    s
  }

  /** The event as `CreateEventAsync` hands it to the repository, or the exception it throws.
      A start equal to `now` is accepted. */
  function CreateOutcome(e: EventData, now: int): (r: Result<EventData, Error>)
    ensures r.Success? <==> e.startDate < e.endDate && now <= e.startDate
    ensures e.startDate >= e.endDate ==> r == Failure(DomainException(EndNotAfterStart))
    ensures e.startDate < e.endDate && e.startDate < now ==> r == Failure(DomainException(StartInPast))
    ensures r.Success? ==>
              && r.value.status == Requested && !r.value.notificationSent
              && r.value.createdAt == now && r.value.updatedAt == Some(now)
              // the earlier shifts are kept and exactly one full-duration shift is added
              && |r.value.shifts| == |e.shifts| + 1 && r.value.shifts[..|e.shifts|] == e.shifts
              && r.value.shifts[|e.shifts|] == FullDurationShift(e.startDate, e.endDate, now)
              // nothing else changes
              && r.value.(status := e.status, notificationSent := e.notificationSent, createdAt := e.createdAt,
                          updatedAt := e.updatedAt, shifts := e.shifts) == e
  {
    if e.startDate >= e.endDate then Failure(DomainException(EndNotAfterStart))
    else if e.startDate < now then Failure(DomainException(StartInPast))
    else
      var full := FullDurationShift(e.startDate, e.endDate, now);
      assert (e.shifts + [full])[..|e.shifts|] == e.shifts;
      Success(e.(status := Requested, notificationSent := false, createdAt := now, updatedAt := Some(now),
                 shifts := e.shifts + [full]))
  }

  /** `CreateEventAsync`: validates `newEvent`'s dates against each other and against `now`, then
      sets its initial state, appends the full-duration shift and stores it. A rejected event is
      left untouched and nothing is stored. */
  method CreateEvent(repository: EventRepository, newEvent: Event, now: int) returns (r: Result<Event, Error>)
    modifies repository, newEvent
    ensures old(repository.Valid()) ==> repository.Valid()
    ensures r.Failure? ==>
              && CreateOutcome(old(newEvent.Snapshot()), now) == Failure(r.error)
              && unchanged(newEvent) && repository.events == old(repository.events)
    ensures r.Success? ==>
              && r.value == newEvent
              && CreateOutcome(old(newEvent.Snapshot()), now) == Success(newEvent.Snapshot())
              && repository.events == old(repository.events)[newEvent.id := newEvent.Snapshot()]
  {
    if newEvent.startDate >= newEvent.endDate {
      return Failure(DomainException(EndNotAfterStart));
    }
    if newEvent.startDate < now {
      return Failure(DomainException(StartInPast));
    }

    ghost var proposed := newEvent.Snapshot();
    newEvent.status := Requested;
    newEvent.notificationSent := false;
    newEvent.createdAt := now;
    newEvent.updatedAt := Some(now);

    var full := FullDurationShift(newEvent.startDate, newEvent.endDate, now);
    newEvent.shifts := newEvent.shifts + [full];

    ghost var created := proposed.(status := Requested, notificationSent := false, createdAt := now,
                                   updatedAt := Some(now), shifts := proposed.shifts + [full]);
    assert newEvent.Snapshot() == created;
    assert CreateOutcome(proposed, now) == Success(created);
    repository.Save(newEvent);
    r := Success(newEvent);
  }

  /** What `UpdateEventAsync` persists and returns, or the exception it throws. */
  function UpdateOutcome(events: map<int, EventData>, updated: EventData, now: int, sends: SendOutcomes): (r: Result<EventData, Error>)
    // the dates are checked before anything is loaded
    ensures updated.startDate >= updated.endDate ==> r == Failure(DomainException(EndNotAfterStart))
    // the shift guard never throws: valid dates go straight to the shared tail
    ensures updated.startDate < updated.endDate ==> r == LoadApplyNotify(events, updated, now, sends)
  {
    if updated.startDate >= updated.endDate then Failure(DomainException(EndNotAfterStart))
    else
      match DateChangeGuard(updated)
      case Some(conflicts) => Failure(DomainException(ShiftsOutsideTimeframe(conflicts)))
      case None => LoadApplyNotify(events, updated, now, sends)
  }

  /** On a store that keeps every event under its own id, an update fails exactly when its dates
      are inverted or its event is missing. */
  lemma UpdateFailsOnlyOnDatesOrMissing(events: map<int, EventData>, updated: EventData, now: int, sends: SendOutcomes)
    requires KeyedById(events)
    ensures UpdateOutcome(events, updated, now, sends).Failure? <==>
            updated.startDate >= updated.endDate || updated.id !in events
  {
    if updated.startDate < updated.endDate {
      LoadFailsOnlyWhenMissing(events, updated, now, sends);
    }
  }

  /** `UpdateEventAsync`: date validation, the shift guard, then load, apply, send and persist. */
  method UpdateEvent(repository: EventRepository, updated: Event, now: int, sends: SendOutcomes)
    returns (r: Result<Event, Error>)
    modifies repository
    ensures old(repository.Valid()) ==> repository.Valid()
    ensures r.Failure? ==>
              && UpdateOutcome(old(repository.events), updated.Snapshot(), now, sends) == Failure(r.error)
              && repository.events == old(repository.events)
    ensures r.Success? ==>
              && fresh(r.value)
              && UpdateOutcome(old(repository.events), updated.Snapshot(), now, sends) == Success(r.value.Snapshot())
              && repository.events == old(repository.events)[updated.id := r.value.Snapshot()]
  {
    if updated.startDate >= updated.endDate {
      return Failure(DomainException(EndNotAfterStart));
    }

    // the guard compares each of the proposal's dates with itself
    var shifts, startDate, endDate := updated.shifts, updated.startDate, updated.endDate;
    if |shifts| > 0 && (startDate != startDate || endDate != endDate) {
      var conflicts := ConflictingShiftCount(shifts, startDate, endDate);
      if conflicts > 0 {
        return Failure(DomainException(ShiftsOutsideTimeframe(conflicts)));
      }
    }

    r := LoadApplyNotifyPersist(repository, updated, now, sends);
  }
}
