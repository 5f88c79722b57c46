/** The Domain layer's event service: update without any date validation, straight into the
    shared load, apply, send and persist tail. */
module DomainEventService {
  import opened Wrappers
  import opened Entities
  import opened Persistence
  import opened UpdateFlow

  /** `UpdateEventAsync`: load, apply, send, persist. */
  method UpdateEvent(repository: EventRepository, updated: Event, now: int, sends: SendOutcomes)
    returns (r: Result<Event, Error>)
    modifies repository
    ensures old(repository.Valid()) ==> repository.Valid()
    ensures r.Failure? ==>
              && LoadApplyNotify(old(repository.events), updated.Snapshot(), now, sends) == Failure(r.error)
              && repository.events == old(repository.events)
    ensures r.Success? ==>
              && fresh(r.value)
              && LoadApplyNotify(old(repository.events), updated.Snapshot(), now, sends) == Success(r.value.Snapshot())
              && repository.events == old(repository.events)[updated.id := r.value.Snapshot()]
  {
    r := LoadApplyNotifyPersist(repository, updated, now, sends);
  }

  /** Without date validation, any dates reach `ApplyChanges`: a proposal whose end is not after
      its start is stored as proposed. */
  lemma InvertedDatesAreStored(events: map<int, EventData>, updated: EventData, now: int, sends: SendOutcomes)
    requires KeyedById(events) && updated.id in events
    requires updated.startDate >= updated.endDate
    ensures var r := LoadApplyNotify(events, updated, now, sends);
            r.Success? && r.value.startDate == updated.startDate && r.value.endDate == updated.endDate
  {
  }
}
