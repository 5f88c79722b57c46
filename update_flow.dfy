/** What the three event-update services have in common: the shift guard they run before loading,
    and the tail that loads the stored event, applies the proposal, attempts the owed e-mails,
    promotes the event after a successful send and persists it. An e-mail send is modelled only by
    whether it returned normally. */
module UpdateFlow {
  import opened Wrappers
  import opened Entities
  import opened EventDomainService
  import opened Persistence

  /** Whether each e-mail send returned normally (true) or threw (false). */
  datatype SendOutcomes = SendOutcomes(plannedSendSucceeds: bool, invoiceSendSucceeds: bool)

  // ---------------------------------------------------------------------------------------
  // The shift guard

  /** The number of shifts that start before `startDate` or end after `endDate`. */
  function ConflictingShiftCount(shifts: seq<Shift>, startDate: int, endDate: int): (n: nat)
    ensures n <= |shifts|
    ensures n == 0 <==> forall i :: 0 <= i < |shifts| ==> ShiftWithin(shifts[i], startDate, endDate)
  {
    if shifts == [] then 0
    else
      (if shifts[0].startTime < startDate || shifts[0].endTime > endDate then 1 else 0)
      + ConflictingShiftCount(shifts[1..], startDate, endDate)
  }

  /** The guard as the update services write it: the count of conflicting shifts when it would
      throw. It compares the proposal's dates with themselves, so it never throws. */
  function DateChangeGuard(updated: EventData): (r: Option<nat>)
    ensures r == None
  {
    if |updated.shifts| > 0 && (updated.startDate != updated.startDate || updated.endDate != updated.endDate) then
      var conflicts := ConflictingShiftCount(updated.shifts, updated.startDate, updated.endDate);
      if conflicts > 0 then Some(conflicts) else None
    else
      None
  }

  /** The guard lets through a proposal whose own shifts lie outside its new dates. */
  lemma GuardIgnoresShiftsOutsideTheDates(updated: EventData, k: nat)
    requires k < |updated.shifts| && !ShiftWithin(updated.shifts[k], updated.startDate, updated.endDate)
    ensures ConflictingShiftCount(updated.shifts, updated.startDate, updated.endDate) > 0
    ensures DateChangeGuard(updated) == None
  {
  }

  // ---------------------------------------------------------------------------------------
  // The tail shared by the update services

  /** The event after the e-mail sends: a successful planned send with promotion confirms the
      event and marks it notified; a successful invoice send marks it notified. */
  function AfterSends(applied: EventData, d: EventStatusChangeDecision, sends: SendOutcomes): (r: EventData)
    // only Status and NotificationSent can change
    ensures r == applied.(status := r.status, notificationSent := r.notificationSent)
    ensures r.status == (if d.shouldSendPlannedNotification && sends.plannedSendSucceeds && d.promoteToConfirmedAfterPlanned
                         then Confirmed else applied.status)
    ensures r.notificationSent <==>
            || applied.notificationSent
            || (d.shouldSendPlannedNotification && sends.plannedSendSucceeds && d.promoteToConfirmedAfterPlanned)
            || (d.shouldSendInvoiceNotification && sends.invoiceSendSucceeds)
  {
    var afterPlanned :=
      if d.shouldSendPlannedNotification && sends.plannedSendSucceeds && d.promoteToConfirmedAfterPlanned
      then applied.(status := Confirmed, notificationSent := true)
      else applied;
    if d.shouldSendInvoiceNotification && sends.invoiceSendSucceeds
    then afterPlanned.(notificationSent := true)
    else afterPlanned
  }

  /** The stored event after `ApplyChanges` and the sends: the value that gets persisted. */
  function ApplyAndNotify(stored: EventData, updated: EventData, now: int, sends: SendOutcomes): (r: Result<EventData, Error>)
    ensures r.Failure? <==> stored.id != updated.id
    ensures r.Failure? ==> r.error == InvalidOperation(MismatchedIds)
  {
    if stored.id != updated.id then Failure(InvalidOperation(MismatchedIds))
    else
      var applied := Copied(stored, updated, now);
      Success(AfterSends(applied, DecisionFor(stored, applied), sends))
  }

  /** The outcome of loading event `updated.id` from `events` and applying `updated` to it. */
  function LoadApplyNotify(events: map<int, EventData>, updated: EventData, now: int, sends: SendOutcomes): (r: Result<EventData, Error>)
    ensures updated.id !in events ==> r == Failure(InvalidOperation(EventNotFound(updated.id)))
    ensures updated.id in events ==> r == ApplyAndNotify(events[updated.id], updated, now, sends)
  {
    if updated.id !in events then Failure(InvalidOperation(EventNotFound(updated.id)))
    else ApplyAndNotify(events[updated.id], updated, now, sends)
  }

  /** Load, `ApplyChanges`, the two guarded sends, persist. A missing event throws before
      anything is changed; otherwise the loaded object is changed, persisted and returned. */
  method LoadApplyNotifyPersist(repository: EventRepository, updated: Event, now: int, sends: SendOutcomes)
    returns (r: Result<Event, Error>)
    modifies repository
    ensures old(repository.Valid()) ==> repository.Valid()
    ensures r.Failure? ==>
              && LoadApplyNotify(old(repository.events), updated.Snapshot(), now, sends) == Failure(r.error)
              && repository.events == old(repository.events)
    ensures r.Success? ==>
              && fresh(r.value)
              && LoadApplyNotify(old(repository.events), updated.Snapshot(), now, sends) == Success(r.value.Snapshot())
              && repository.events == old(repository.events)[updated.id := r.value.Snapshot()]
  {
    var loaded := repository.GetEventById(updated.id);
    if loaded.None? {
      return Failure(InvalidOperation(EventNotFound(updated.id)));
    }
    var existing := loaded.value;

    var applied := ApplyChanges(existing, updated, now);
    if applied.Failure? {
      return Failure(applied.error);
    }
    var decision := applied.value;
    ghost var afterApply := existing.Snapshot();

    if decision.shouldSendPlannedNotification {
      if sends.plannedSendSucceeds {
        if decision.promoteToConfirmedAfterPlanned {
          existing.status := Confirmed;
          existing.notificationSent := true;
        }
      }
    }

    if decision.shouldSendInvoiceNotification {
      if sends.invoiceSendSucceeds {
        existing.notificationSent := true;
      }
    }

    assert existing.Snapshot() == AfterSends(afterApply, decision, sends);
    repository.Save(existing);
    r := Success(existing);
  }

  // ---------------------------------------------------------------------------------------
  // What the tail promises

  /** On a store that keeps every event under its own id, the loaded event always has the
      proposal's id, so the tail fails exactly when the event is missing. */
  lemma LoadFailsOnlyWhenMissing(events: map<int, EventData>, updated: EventData, now: int, sends: SendOutcomes)
    requires KeyedById(events)
    ensures LoadApplyNotify(events, updated, now, sends).Failure? <==> updated.id !in events
  {
  }

  /** Entering Planned with a usable address and no earlier notification: a send that returns
      confirms the event and marks it notified; a send that throws leaves it Planned and
      not notified. */
  lemma PlannedSendOutcome(stored: EventData, updated: EventData, now: int, sends: SendOutcomes)
    requires stored.id == updated.id
    requires stored.status != Planned && updated.status == Planned && !stored.notificationSent
    requires !IsNullOrWhiteSpace(updated.contactEmail)
    ensures var r := ApplyAndNotify(stored, updated, now, sends);
            && r.Success?
            && (sends.plannedSendSucceeds ==> r.value.status == Confirmed && r.value.notificationSent)
            && (!sends.plannedSendSucceeds ==> r.value.status == Planned && !r.value.notificationSent)
  {
  }

  /** Entering SendInvoice with a usable address: the event stays SendInvoice, and is marked
      notified when the send returns (a flag already set stays set). */
  lemma InvoiceSendOutcome(stored: EventData, updated: EventData, now: int, sends: SendOutcomes)
    requires stored.id == updated.id
    requires stored.status != SendInvoice && updated.status == SendInvoice
    requires !IsNullOrWhiteSpace(updated.contactEmail)
    ensures var r := ApplyAndNotify(stored, updated, now, sends);
            && r.Success? && r.value.status == SendInvoice
            && r.value.notificationSent == (stored.notificationSent || sends.invoiceSendSucceeds)
  {
  }

  /** Whatever the sends do, the persisted event has the proposed values, except that a proposal
      to Planned may end up Confirmed; its identity is kept and the notified flag is never
      cleared. */
  lemma PersistedState(stored: EventData, updated: EventData, now: int, sends: SendOutcomes)
    requires stored.id == updated.id
    ensures var r := ApplyAndNotify(stored, updated, now, sends);
            && r.Success?
            && r.value.id == stored.id && r.value.createdAt == stored.createdAt && r.value.shifts == stored.shifts
            && SameMutableFields(r.value, updated.(status := r.value.status))
            && (r.value.status == updated.status || (r.value.status == Confirmed && updated.status == Planned))
            && (stored.notificationSent ==> r.value.notificationSent)
  {
  }

  /** Submitting the same proposal again owes no e-mail, whatever the first sends did. In
      particular a planned e-mail whose send threw is not attempted again by resubmitting. */
  lemma {:induction false} ResubmittingIsQuiet(stored: EventData, updated: EventData, now1: int, now2: int, sends: SendOutcomes)
    requires stored.id == updated.id
    ensures var first := ApplyAndNotify(stored, updated, now1, sends).value;
            DecisionFor(first, Copied(first, updated, now2)) == NoSideEffects
  {
    var applied := Copied(stored, updated, now1);
    var d := DecisionFor(stored, applied);
    var first := AfterSends(applied, d, sends);
    if first.status != updated.status {
      // only a confirmed planned send changes the status, and it also sets the flag
      assert first.status == Confirmed && first.notificationSent && updated.status == Planned;
    }
  }

  /** Once an invoice e-mail has gone out, no later change ever owes a planned e-mail. */
  lemma InvoiceSentSuppressesPlanned(stored: EventData, updated: EventData, now1: int, sends: SendOutcomes,
                                     later: EventData, now2: int)
    requires stored.id == updated.id
    requires stored.status != SendInvoice && updated.status == SendInvoice
    requires !IsNullOrWhiteSpace(updated.contactEmail) && sends.invoiceSendSucceeds
    ensures var first := ApplyAndNotify(stored, updated, now1, sends).value;
            !DecisionFor(first, Copied(first, later, now2)).shouldSendPlannedNotification
  {
  }
}
