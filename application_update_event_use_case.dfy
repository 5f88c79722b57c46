/** The application layer's update use case: the same flow as the DomainService layer's update,
    with its validation errors raised as the application layer's exception. */
module ApplicationUpdateEventUseCase {
  import opened Wrappers
  import opened Entities
  import opened Persistence
  import opened UpdateFlow

  /** What `UpdateEventAsync` persists and returns, or the exception it throws. */
  function UpdateOutcome(events: map<int, EventData>, updated: EventData, now: int, sends: SendOutcomes): (r: Result<EventData, Error>)
    // the dates are checked before anything is loaded
    ensures updated.startDate >= updated.endDate ==> r == Failure(ApplicationException(EndNotAfterStart))
    // the shift guard never throws; a missing event is reported only for valid dates
    ensures updated.startDate < updated.endDate && updated.id !in events ==>
              r == Failure(InvalidOperation(EventNotFound(updated.id)))
    ensures updated.startDate < updated.endDate ==> r == LoadApplyNotify(events, updated, now, sends)
  {
    if updated.startDate >= updated.endDate then Failure(ApplicationException(EndNotAfterStart))
    else
      match DateChangeGuard(updated)
      case Some(conflicts) => Failure(ApplicationException(ShiftsOutsideTimeframe(conflicts)))
      case None => LoadApplyNotify(events, updated, now, sends)
  }

  /** On a store that keeps every event under its own id, an update fails exactly when its dates
      are inverted or its event is missing. */
  lemma UpdateFailsOnlyOnDatesOrMissing(events: map<int, EventData>, updated: EventData, now: int, sends: SendOutcomes)
    requires KeyedById(events)
    ensures UpdateOutcome(events, updated, now, sends).Failure? <==>
            updated.startDate >= updated.endDate || updated.id !in events
  {
    if updated.startDate < updated.endDate {
      LoadFailsOnlyWhenMissing(events, updated, now, sends);
    }
  }

  /** `UpdateEventAsync`: date validation, the shift guard, then load, apply, send and persist. */
  method UpdateEvent(repository: EventRepository, updated: Event, now: int, sends: SendOutcomes)
    returns (r: Result<Event, Error>)
    modifies repository
    ensures old(repository.Valid()) ==> repository.Valid()
    ensures r.Failure? ==>
              && UpdateOutcome(old(repository.events), updated.Snapshot(), now, sends) == Failure(r.error)
              && repository.events == old(repository.events)
    ensures r.Success? ==>
              && fresh(r.value)
              && UpdateOutcome(old(repository.events), updated.Snapshot(), now, sends) == Success(r.value.Snapshot())
              && repository.events == old(repository.events)[updated.id := r.value.Snapshot()]
  {
    if updated.startDate >= updated.endDate {
      return Failure(ApplicationException(EndNotAfterStart));
    }

    // the guard compares each of the proposal's dates with itself
    var shifts, startDate, endDate := updated.shifts, updated.startDate, updated.endDate;
    if |shifts| > 0 && (startDate != startDate || endDate != endDate) {
      var conflicts := ConflictingShiftCount(shifts, startDate, endDate);
      if conflicts > 0 {
        return Failure(ApplicationException(ShiftsOutsideTimeframe(conflicts)));
      }
    }

    r := LoadApplyNotifyPersist(repository, updated, now, sends);
  }
}
