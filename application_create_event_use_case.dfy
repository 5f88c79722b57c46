/** The application layer's creation use case: the start must lie strictly after `now`; the new
    event is Requested and gets one default Open shift. */
module ApplicationCreateEventUseCase {
  import opened Wrappers
  import opened Entities
  import opened Persistence

  /** The shift appended to every event this use case creates. */
  function DefaultShift(startDate: int, endDate: int, now: int): (s: Shift)
    ensures s.startTime == startDate && s.endTime == endDate && ShiftWithin(s, startDate, endDate)
    ensures s.requiredStaff == 1 && s.status == Open && s.staffAssignments == []
    ensures ShiftValid(s)
  {
    var s := NewShift(now).(name := "Default Shift", startTime := startDate, endTime := endDate,
                            requiredStaff := 1,
                            description := Some("Default shift covering the entire event duration"),
                            status := Open, createdAt := now, updatedAt := Some(now));
    assert !IsWhiteSpace(s.name[0]);
    s
  }

  /** The event `Execute` stores and returns, or the exception it throws. A start equal to
      `now` is rejected. */
  function ExecuteOutcome(newEvent: EventData, now: int): (r: Result<EventData, Error>)
    ensures r.Success? <==> newEvent.startDate < newEvent.endDate && now < newEvent.startDate
    ensures newEvent.startDate >= newEvent.endDate ==> r == Failure(ApplicationException(EndNotAfterStart))
    ensures newEvent.startDate < newEvent.endDate && newEvent.startDate <= now ==>
              r == Failure(ApplicationException(StartNotInFuture))
    ensures r.Success? ==>
              && r.value.status == Requested
              && r.value.createdAt == now && r.value.updatedAt == Some(now)
              // the earlier shifts are kept and exactly one default shift is added
              && |r.value.shifts| == |newEvent.shifts| + 1 && r.value.shifts[..|newEvent.shifts|] == newEvent.shifts
              && r.value.shifts[|newEvent.shifts|] == DefaultShift(newEvent.startDate, newEvent.endDate, now)
              // nothing else changes: in particular `Execute` never assigns NotificationSent, so it
              // keeps the value the entity got from the transfer object (`EventMapper` is not part
              // of this model, which takes the entity's values as given)
              && r.value.(status := newEvent.status, createdAt := newEvent.createdAt,
                          updatedAt := newEvent.updatedAt, shifts := newEvent.shifts) == newEvent
  {
    if newEvent.startDate >= newEvent.endDate then Failure(ApplicationException(EndNotAfterStart))
    else if newEvent.startDate <= now then Failure(ApplicationException(StartNotInFuture))
    else
      var shift := DefaultShift(newEvent.startDate, newEvent.endDate, now);
      assert (newEvent.shifts + [shift])[..|newEvent.shifts|] == newEvent.shifts;
      Success(newEvent.(status := Requested, createdAt := now, updatedAt := Some(now),
                        shifts := newEvent.shifts + [shift]))
  }

  /** `Execute`: validates the dates, builds the entity, sets its initial state, appends the
      default shift, stores the entity and returns its values. On a validation failure nothing
      is stored. */
  method Execute(repository: EventRepository, newEvent: EventData, now: int) returns (r: Result<EventData, Error>)
    modifies repository
    ensures old(repository.Valid()) ==> repository.Valid()
    ensures r == ExecuteOutcome(newEvent, now)
    ensures r.Failure? ==> repository.events == old(repository.events)
    ensures r.Success? ==> repository.events == old(repository.events)[newEvent.id := r.value]
  {
    if newEvent.startDate >= newEvent.endDate {
      return Failure(ApplicationException(EndNotAfterStart));
    }
    if newEvent.startDate <= now {
      return Failure(ApplicationException(StartNotInFuture));
    }

    var entity := new Event.FromData(newEvent);
    entity.status := Requested;
    entity.createdAt := now;
    entity.updatedAt := Some(now);

    var shift := DefaultShift(newEvent.startDate, newEvent.endDate, now);
    entity.shifts := entity.shifts + [shift];

    ghost var created := newEvent.(status := Requested, createdAt := now, updatedAt := Some(now),
                                   shifts := newEvent.shifts + [shift]);
    assert entity.Snapshot() == created;
    repository.Save(entity);
    r := Success(entity.Snapshot());
    assert ExecuteOutcome(newEvent, now) == Success(created);
  }
}
