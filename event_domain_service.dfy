/** The event change decision: copy a proposed event's mutable fields onto the loaded one and
    decide which notification e-mails the caller owes. */
module EventDomainService {
  import opened Wrappers
  import opened Entities

  /** Which side effects the caller should attempt after the changes were applied. */
  datatype EventStatusChangeDecision = EventStatusChangeDecision(
    shouldSendPlannedNotification: bool,
    promoteToConfirmedAfterPlanned: bool,
    shouldSendInvoiceNotification: bool)

  const NoSideEffects := EventStatusChangeDecision(false, false, false)

  /** The decision, from the status and flag the event had before the change, the status it was
      given and the contact e-mail it now carries. */
  function Decide(originalStatus: EventStatus, originalNotificationSent: bool,
                  newStatus: EventStatus, contactEmail: Option<string>): (d: EventStatusChangeDecision)
    // a successful planned e-mail always promotes the event
    ensures d.promoteToConfirmedAfterPlanned == d.shouldSendPlannedNotification
    // the two e-mails need different target statuses
    ensures !(d.shouldSendPlannedNotification && d.shouldSendInvoiceNotification)
    // nothing is owed without a usable address, or when the status did not change
    ensures IsNullOrWhiteSpace(contactEmail) ==> d == NoSideEffects
    ensures originalStatus == newStatus ==> d == NoSideEffects
    // the planned e-mail: only on entering Planned, and only if none was sent before ...
    ensures d.shouldSendPlannedNotification ==> newStatus == Planned && !originalNotificationSent
    // ... and then always
    ensures (originalStatus != Planned && newStatus == Planned && !originalNotificationSent
             && !IsNullOrWhiteSpace(contactEmail)) ==> d.shouldSendPlannedNotification
    // the invoice e-mail: exactly on entering SendInvoice with a usable address
    ensures d.shouldSendInvoiceNotification <==>
            originalStatus != SendInvoice && newStatus == SendInvoice && !IsNullOrWhiteSpace(contactEmail)
  {
    var canContact := !IsNullOrWhiteSpace(contactEmail);
    var shouldSendPlanned := originalStatus != Planned && newStatus == Planned && !originalNotificationSent && canContact;
    var shouldSendInvoice := originalStatus != SendInvoice && newStatus == SendInvoice && canContact;
    EventStatusChangeDecision(shouldSendPlanned, shouldSendPlanned, shouldSendInvoice)
  }

  /** The decision for an event whose state was `original` and is now `applied`. */
  function DecisionFor(original: EventData, applied: EventData): EventStatusChangeDecision
  {
    Decide(original.status, original.notificationSent, applied.status, applied.contactEmail)
  }

  /** The fields a caller may change, equal in `a` and `b`. */
  predicate SameMutableFields(a: EventData, b: EventData)
  {
    && a.name == b.name && a.startDate == b.startDate && a.endDate == b.endDate
    && a.location == b.location && a.description == b.description && a.status == b.status
    && a.contactPerson == b.contactPerson && a.contactPhone == b.contactPhone
    && a.contactEmail == b.contactEmail
  }

  /** `existing` after the proposed values were copied onto it at time `now`. */
  function Copied(existing: EventData, updated: EventData, now: int): (r: EventData)
    // identity, audit and navigation data are kept
    ensures r.id == existing.id && r.createdAt == existing.createdAt
    ensures r.notificationSent == existing.notificationSent && r.shifts == existing.shifts
    // everything a caller may change comes from the proposal
    ensures SameMutableFields(r, updated)
    ensures r.updatedAt == Some(now)
  {
    existing.(name := updated.name, startDate := updated.startDate, endDate := updated.endDate,
              location := updated.location, description := updated.description,
              status := updated.status, contactPerson := updated.contactPerson,
              contactPhone := updated.contactPhone, contactEmail := updated.contactEmail,
              updatedAt := Some(now))
  }

  /** `EventDomainService.ApplyChanges`: refuses events with different ids and leaves `existing`
      untouched; otherwise copies the mutable fields of `updated` onto `existing` and returns the
      decision for the change. */
  method ApplyChanges(existing: Event, updated: Event, now: int) returns (r: Result<EventStatusChangeDecision, Error>)
    modifies existing
    ensures old(existing.id) != old(updated.id) ==>
              r == Failure(InvalidOperation(MismatchedIds)) && unchanged(existing)
    ensures old(existing.id) == old(updated.id) ==>
              && existing.Snapshot() == Copied(old(existing.Snapshot()), old(updated.Snapshot()), now)
              && r == Success(DecisionFor(old(existing.Snapshot()), existing.Snapshot()))
  {
    if existing.id != updated.id {
      return Failure(InvalidOperation(MismatchedIds));
    }

    ghost var original := existing.Snapshot();
    var proposal := updated.Snapshot();
    var originalStatus := existing.status;
    var originalNotificationSent := existing.notificationSent;

    existing.name, existing.startDate, existing.endDate := proposal.name, proposal.startDate, proposal.endDate;
    existing.location, existing.description := proposal.location, proposal.description;
    existing.status := proposal.status;  // may be changed further once a notification succeeds
    existing.contactPerson, existing.contactPhone := proposal.contactPerson, proposal.contactPhone;
    existing.contactEmail := proposal.contactEmail;
    existing.updatedAt := Some(now);
    assert existing.Snapshot() == Copied(original, proposal, now);

    var canContact := !IsNullOrWhiteSpace(existing.contactEmail);
    var shouldSendPlanned := originalStatus != Planned && proposal.status == Planned
                             && !originalNotificationSent && canContact;
    var shouldSendInvoice := originalStatus != SendInvoice && proposal.status == SendInvoice && canContact;
    r := Success(EventStatusChangeDecision(shouldSendPlanned, shouldSendPlanned, shouldSendInvoice));
  }

  /** The invoice decision does not look at whether a notification was already sent. */
  lemma InvoiceIgnoresNotificationSent(originalStatus: EventStatus, newStatus: EventStatus, contactEmail: Option<string>)
    ensures Decide(originalStatus, true, newStatus, contactEmail).shouldSendInvoiceNotification
         == Decide(originalStatus, false, newStatus, contactEmail).shouldSendInvoiceNotification
  {
  }

  /** Applying the same proposal a second time changes nothing but the update time, and owes no
      e-mail, because the event already has the proposed status. */
  lemma ReapplyingIsQuiet(existing: EventData, updated: EventData, now1: int, now2: int)
    ensures var once := Copied(existing, updated, now1);
            var twice := Copied(once, updated, now2);
            twice == once.(updatedAt := Some(now2)) && DecisionFor(once, twice) == NoSideEffects
  {
  }
}
