# Event planning core of CleanArchitectureBlazor, in Dafny

This project models the event-management core of the CleanArchitectureBlazor sample application
and proves properties of the model:

- **the event status-change decision** (`EventDomainService.ApplyChanges`). It copies a proposed
  event's mutable fields onto the stored event. It then decides whether a "planned" e-mail is owed
  (with promotion to Confirmed once it went out) and whether an "invoice" e-mail is owed;
- **the three update flows**, in the DomainService layer, the Domain layer and the application
  layer. Each loads the stored event, applies the proposal, attempts the owed e-mails and persists
  the result. Two of them validate the dates first and run a shift guard that, as written, never
  fires;
- **the two creation flows**, in the DomainService layer and the application layer. Each validates
  the dates against each other and against the clock, sets the initial state and appends a shift
  covering the whole event;
- **staff assignments**: the double-booking check `IsStaffAvailableAsync`, check-in, check-out,
  creation and deletion;
- **`ShiftMapper`**, the conversion between shift entities and shift transfer objects;
- **the `Event` and `Shift` entities**, with their defaults and validation attributes.

Event, shift and assignment values are datatypes. `Event` is a class, because the services change
a loaded event in place; `Event.Snapshot()` gives its field values as an `EventData`. The event
repository is a class holding a map from id to stored values. The staff-assignment service is a
class holding the stored assignments in order. Times are integers (ticks); the clock is a
parameter `now`. Whether each e-mail send returned normally or threw is a parameter
`SendOutcomes`. Each thrown exception is a `Failure` carrying its kind (`DomainException`,
`ApplicationException`, `InvalidOperation`) and its reason.

Files: `wrappers.dfy` (Option, Result), `entities.dfy`, `event_domain_service.dfy`,
`event_repository.dfy`, `update_flow.dfy` (the guard and the load-apply-send-persist tail shared by
the three updates), `domain_service_event_service.dfy`, `domain_event_service.dfy`,
`application_update_event_use_case.dfy`, `application_create_event_use_case.dfy`,
`shift_mapper.dfy`, `staff_assignment_service.dfy`.

### Behaviour of the code worth knowing

- `ApplyChanges` checks neither the dates nor whether the shifts still fit. It only copies fields
  and decides. The Domain-layer update therefore stores inverted dates
  (`DomainEventService.InvertedDatesAreStored`).
- The shift guard in both validating updates compares each of the proposal's dates with itself.
  It can never fire, even when the proposal's own shifts lie outside its dates
  (`UpdateFlow.DateChangeGuard`, `UpdateFlow.GuardIgnoresShiftsOutsideTheDates`).
- "Can contact" means the address is not null, empty or white space only (.NET
  `string.IsNullOrWhiteSpace`).
- No status transition is guarded. Any status may be set to any other, and only entering
  Planned or SendInvoice has consequences.
- Both creation flows always append the full-duration shift, even when the event already has
  shifts.
- The DomainService creation accepts a start equal to the current time. The application use case
  rejects it.
- A planned e-mail whose send threw is not retried by submitting the same update again. The status
  is already Planned, so nothing is owed (`UpdateFlow.ResubmittingIsQuiet`).
- The mismatched-id error of `ApplyChanges` cannot arise in the updates: a load by id yields an
  event with that id (`UpdateFlow.LoadFailsOnlyWhenMissing`).
- Check-in and check-out succeed from every assignment status, including Cancelled, and a
  check-out needs no earlier check-in.
- Creating an assignment does not check availability, so it double-books an overlapping shift of
  the same staff member (`StaffAssignments.CreateCanDoubleBook`).
- The application use cases throw a class spelled `ÀpplicationException` (with a leading
  A-grave). No class of that name is declared in the files modelled; the application layer
  declares `ApplicationLayerException`. The model calls this kind `ApplicationException`; it is not
  `System.ApplicationException`.

## Model

| member | source | states |
|---|---|---|
| Entities.NewEventData | Entities/Event.cs:10-49 | a new event is Requested, not notified, has no shifts and no update time |
| Entities.NewShift | Entities/Shift.cs:10-40 | a new shift is Open, needs exactly 1 staff member, has no assignments and no update time |
| Entities.Event.constructor | Entities/Event.cs:10-49 | `new Event()` holds exactly the default values of `NewEventData` |
| Entities.IsNullOrWhiteSpace | Application/EventDomainService.cs:44 | null is blank, and a string is blank exactly when every character in it is white space |
| Entities.EventValid | Entities/Event.cs:12-39 | a valid event has a non-empty name of at most 100 characters and a non-empty location of at most 200; its description is at most 500, contact person 100, contact phone 20 and contact e-mail 255 |
| Entities.ShiftValid | Entities/Shift.cs:15-29 | a valid shift has a non-empty name of at most 100 characters, 1 to 50 required staff and a description of at most 300 |
| Entities.DefaultsFailRequired | Entities/Event.cs:12-24 | a new event's name and location and a new shift's name fail Required, so neither default is valid; a new shift becomes valid once given a proper name, while a new event given only a name stays invalid because of its location |
| EventDomainService.Decide | Application/EventDomainService.cs:44-61 | promotion goes with the planned e-mail; the planned e-mail is owed only on entering Planned with no earlier notification, and then always when an address is usable; the invoice e-mail is owed exactly on entering SendInvoice with a usable address; nothing is owed without an address or without a status change; the two e-mails never go together |
| EventDomainService.Copied | Application/EventDomainService.cs:32-42 | the mutable fields come from the proposal; id, creation time, notified flag and shifts are kept; the update time is now |
| EventDomainService.ApplyChanges | Application/EventDomainService.cs:23-62 | different ids: InvalidOperationException and the event is untouched; otherwise the event becomes `Copied` of its old values and the decision is `Decide` on its original status and flag |
| EventDomainService.InvoiceIgnoresNotificationSent | Application/EventDomainService.cs:52-55 | the invoice decision does not depend on whether a notification was sent before |
| EventDomainService.ReapplyingIsQuiet | Application/EventDomainService.cs:29-55 | applying the same proposal twice changes only the update time and owes no e-mail the second time |
| Persistence.EventRepository.GetEventById | Infrastructure/EventRepository.cs:27-34 | a fresh event with the stored values when the id is stored, null otherwise; on a store that keeps events under their ids, the loaded event has the requested id |
| Persistence.EventRepository.Save | Infrastructure/EventRepository.cs:36-67 | the event's current values are stored under its id and nothing else changes; the store keeps every event under its own id |
| UpdateFlow.ConflictingShiftCount | DomainService/EventService.cs:70-71 | the count is at most the number of shifts, and zero exactly when every shift lies within the dates |
| UpdateFlow.DateChangeGuard | DomainService/EventService.cs:66-77 | the guard never reports a conflict |
| UpdateFlow.GuardIgnoresShiftsOutsideTheDates | DomainService/EventService.cs:66-77 | a proposal with a shift outside its own dates has a non-zero conflict count and still passes the guard |
| UpdateFlow.AfterSends | DomainService/EventService.cs:86-117 | only status and notified flag change; the event becomes Confirmed exactly after a successful promoting planned send; it is notified exactly when it was, or a planned send with promotion succeeded, or an owed invoice send succeeded |
| UpdateFlow.ApplyAndNotify | DomainService/EventService.cs:83-117 | fails exactly when the ids differ, with InvalidOperationException |
| UpdateFlow.LoadApplyNotify | Domain/EventService.cs:24-62 | a missing event gives "not found"; a stored one gives the applied and notified values |
| UpdateFlow.LoadApplyNotifyPersist | Domain/EventService.cs:22-67 | on failure the store is unchanged; on success the returned event holds `LoadApplyNotify`'s values and the store holds them under its id |
| UpdateFlow.LoadFailsOnlyWhenMissing | Domain/EventService.cs:24-29 | on a store that keeps events under their ids, the tail fails exactly when the event is missing: the mismatched-id error never arises |
| UpdateFlow.PlannedSendOutcome | Domain/EventService.cs:32-48 | entering Planned with a usable address and no earlier notification: a send that returns confirms and marks notified; a send that throws leaves the event Planned and not notified |
| UpdateFlow.InvoiceSendOutcome | Domain/EventService.cs:50-62 | entering SendInvoice with a usable address: the status stays SendInvoice and the flag is set exactly when it was set before or the send returned |
| UpdateFlow.PersistedState | DomainService/EventService.cs:83-121 | whatever the sends do, the persisted event has the proposed values except that Planned may become Confirmed; id, creation time and shifts are kept and the notified flag is never cleared |
| UpdateFlow.ResubmittingIsQuiet | DomainService/EventService.cs:84-103 | resubmitting the same proposal owes no e-mail, even after a failed planned send |
| UpdateFlow.InvoiceSentSuppressesPlanned | DomainService/EventService.cs:105-117 | once an invoice e-mail has gone out, no later change owes a planned e-mail |
| DomainServiceEventService.FullDurationShift | DomainService/EventService.cs:42-51 | the added shift spans exactly the event's dates, needs one staff member, is Open and valid |
| DomainServiceEventService.CreateOutcome | DomainService/EventService.cs:23-56 | succeeds exactly when start < end and start >= now; inverted dates and a past start give their DomainExceptions; on success the event is Requested, not notified, created and updated now, and gets exactly one full-duration shift after its own; nothing else changes |
| DomainServiceEventService.CreateEvent | DomainService/EventService.cs:23-56 | a rejected event is untouched and nothing is stored; otherwise the event becomes `CreateOutcome`'s value and is stored under its id |
| DomainServiceEventService.UpdateOutcome | DomainService/EventService.cs:58-122 | inverted dates give a DomainException before anything is loaded; valid dates give the shared load-apply-send outcome |
| DomainServiceEventService.UpdateFailsOnlyOnDatesOrMissing | DomainService/EventService.cs:58-84 | on a store that keeps events under their ids, the update fails exactly when the dates are inverted or the event is missing |
| DomainServiceEventService.UpdateEvent | DomainService/EventService.cs:58-122 | the result and the new store are those of `UpdateOutcome`; on failure nothing is stored |
| DomainEventService.UpdateEvent | Domain/EventService.cs:22-67 | the result and the new store are those of the shared tail, without any date check |
| DomainEventService.InvertedDatesAreStored | Domain/EventService.cs:22-29 | a proposal whose end is not after its start is accepted and stored with those dates |
| ApplicationUpdateEventUseCase.UpdateOutcome | Application/UpdateEventUseCase.cs:27-92 | inverted dates give the application-layer exception; with valid dates a missing event gives "not found", and otherwise the shared outcome |
| ApplicationUpdateEventUseCase.UpdateFailsOnlyOnDatesOrMissing | Application/UpdateEventUseCase.cs:27-53 | on a store that keeps events under their ids, the update fails exactly when the dates are inverted or the event is missing |
| ApplicationUpdateEventUseCase.UpdateEvent | Application/UpdateEventUseCase.cs:27-92 | the result and the new store are those of `UpdateOutcome`; on failure nothing is stored |
| ApplicationCreateEventUseCase.DefaultShift | Application/CreateEventUseCase.cs:42-52 | the default shift spans exactly the event's dates, needs one staff member, is Open and valid |
| ApplicationCreateEventUseCase.ExecuteOutcome | Application/CreateEventUseCase.cs:23-59 | succeeds exactly when start < end and start > now; a start at or before now is rejected; on success the event is Requested, created and updated now, and gets exactly one default shift after its own; the notified flag is never assigned, so it keeps the value taken from the transfer object (`EventMapper` is not part of this model) |
| ApplicationCreateEventUseCase.Execute | Application/CreateEventUseCase.cs:23-59 | returns `ExecuteOutcome`; stores the created event under its id on success and nothing on failure |
| ShiftMapper.StatusToDTO | Application/DataAdapters/ShiftMapper.cs:20 | the status cast keeps the underlying value |
| ShiftMapper.StatusToEntity | Application/DataAdapters/ShiftMapper.cs:37 | the status cast keeps the underlying value |
| ShiftMapper.ToDTO | Application/DataAdapters/ShiftMapper.cs:9-24 | the transfer object carries every field of the entity, the status with the same underlying value |
| ShiftMapper.ToEntity | Application/DataAdapters/ShiftMapper.cs:26-41 | the entity carries every field of the transfer object, the status with the same underlying value, and no staff assignments |
| ShiftMapper.EntityRoundTrip | Application/DataAdapters/ShiftMapper.cs:9-41 | entity to transfer object and back gives the entity without its staff assignments, so the trip keeps a shift valid or invalid |
| ShiftMapper.DTORoundTrip | Application/DataAdapters/ShiftMapper.cs:9-41 | transfer object to entity and back gives the same transfer object |
| ShiftMapper.ToDTOList | Application/DataAdapters/ShiftMapper.cs:43-51 | one transfer object per entity, in the same order |
| ShiftMapper.ToEntityList | Application/DataAdapters/ShiftMapper.cs:53-61 | one entity per transfer object, in the same order |
| StaffAssignments.IsStaffAvailable | CleanArchitectureBlazor/CleanArchitectureBlazor/Services/StaffAssignmentService.cs:122-137 | available exactly when no assignment of that staff member, not cancelled and not the excluded one, has a shift overlapping the window |
| StaffAssignments.Blocks | CleanArchitectureBlazor/CleanArchitectureBlazor/Services/StaffAssignmentService.cs:126-133 | only the staff member's own assignments, not cancelled and not excluded, block; a shift disjoint from the window or only touching it never blocks; for non-empty intervals an assignment blocks exactly when its shift and the window share an instant |
| StaffAssignments.IrrelevantAssignmentsDoNotMatter | CleanArchitectureBlazor/CleanArchitectureBlazor/Services/StaffAssignmentService.cs:126-134 | cancelled assignments, other staff members' assignments and the excluded one never change the answer |
| StaffAssignments.RemovingOnlyFrees | CleanArchitectureBlazor/CleanArchitectureBlazor/Services/StaffAssignmentService.cs:122-137 | removing any assignment keeps an available staff member available |
| StaffAssignments.IndexOfAssignment | CleanArchitectureBlazor/CleanArchitectureBlazor/Services/StaffAssignmentService.cs:43-50 | the first assignment with that id, or none exactly when no assignment has it |
| StaffAssignments.AfterCheckIn | CleanArchitectureBlazor/CleanArchitectureBlazor/Services/StaffAssignmentService.cs:103-105 | from any status the assignment becomes CheckedIn with check-in time and update time now, and nothing else changes (the update time is set at line 82) |
| StaffAssignments.AfterCheckOut | CleanArchitectureBlazor/CleanArchitectureBlazor/Services/StaffAssignmentService.cs:115-117 | from any status the assignment becomes CheckedOut with check-out time and update time now, and nothing else changes (the update time is set at line 82) |
| StaffAssignments.CheckInThenOut | CleanArchitectureBlazor/CleanArchitectureBlazor/Services/StaffAssignmentService.cs:98-120 | checking in then out, or out then in, from any status, records both times and ends in the status of the later operation |
| StaffAssignments.CheckInRevivesCancelled | CleanArchitectureBlazor/CleanArchitectureBlazor/Services/StaffAssignmentService.cs:98-108 | checking in a cancelled assignment makes it block its staff member again |
| StaffAssignments.StaffAssignmentService.CreateAssignment | CleanArchitectureBlazor/CleanArchitectureBlazor/Services/StaffAssignmentService.cs:72-78 | stamps the assignment time and appends the assignment to the store |
| StaffAssignments.StaffAssignmentService.DeleteAssignment | CleanArchitectureBlazor/CleanArchitectureBlazor/Services/StaffAssignmentService.cs:88-96 | removes the assignment with that id, or changes nothing when there is none |
| StaffAssignments.StaffAssignmentService.CheckInStaff | CleanArchitectureBlazor/CleanArchitectureBlazor/Services/StaffAssignmentService.cs:98-108 | returns null and changes nothing for an unknown id; otherwise stores and returns the assignment checked in at now, with update time now |
| StaffAssignments.StaffAssignmentService.CheckOutStaff | CleanArchitectureBlazor/CleanArchitectureBlazor/Services/StaffAssignmentService.cs:110-120 | returns null and changes nothing for an unknown id; otherwise stores and returns the assignment checked out at now, with update time now |
| StaffAssignments.CreateCanDoubleBook | CleanArchitectureBlazor/CleanArchitectureBlazor/Services/StaffAssignmentService.cs:72-78 | when an earlier active assignment of the same staff member overlaps the new one, the staff member is unavailable for the new shift, yet after the append both are stored and each blocks the other's shift |
| StaffAssignments.DeletingOnlyFrees | CleanArchitectureBlazor/CleanArchitectureBlazor/Services/StaffAssignmentService.cs:88-96 | deleting an assignment never makes a staff member unavailable |

## Left out

- E-mail delivery, logging and the message texts of exceptions: each send is reduced to whether it returned normally, and an exception to its kind and reason.
- The clock: every `DateTime.UtcNow` read within one operation is the single parameter `now`, so the creation and update times set in one call are equal.
- Database identity: the store does not assign ids to new events or assignments; an event is stored under the id it carries.
- Entity Framework loading (`Include`, `ThenInclude`), ordering of query results, and change tracking across objects: a loaded event is a fresh object, and the repository's field-by-field copy in `UpdateEventAsync` is modelled as storing all of the event's values. For an event the services just loaded, the two give the same result.
- Staff, event and shift navigation properties: an assignment carries its shift's start and end times instead of a reference to the shift.
- The read-only queries of the services (all events, upcoming events, by date range, assignments by shift or by staff member): they change nothing and are not part of this model.
- `UpdateAssignmentAsync` on its own: it is modelled only as the last step of check-in and check-out, where it sets the update time.
- The event id of an auto-added shift stays 0 in the model; the database fills it in on save.
- The enum casts in `ShiftMapper` of values outside the declared members: the model's statuses have only the declared members.
- The Event, Shift and StaffAssignment transfer objects and `EventMapper` are not part of this model, apart from `ShiftDTO`; the application creation flow takes and returns the event's values directly.
- Validation attributes (`Required`, `StringLength`, `Range`) are stated as `EventValid` and `ShiftValid`. No operation enforces them, as in the code.
- The `[EmailAddress]` attribute on `ContactEmail` is not part of `EventValid`: the address format is not modelled.
- String lengths count Unicode scalar values, while `StringLength` counts UTF-16 code units: a string with characters outside the Basic Multilingual Plane is longer in the code than in the model.
- `ShiftStatusDTO` and `ShiftDTO` are not declared in the files modelled. The model assumes that `ShiftStatusDTO` has the entity enum's five members with the same underlying values, and that `ShiftDTO` has exactly the fields the mapper copies. `StatusToDTO`, `StatusToEntity` and both round trips rest on that assumption.
- `StaffAssignment` and `AssignmentStatus` are not declared in the files modelled either. The model assumes the fields and members the service uses: Id, StaffId, Status, CheckInTime, CheckOutTime, AssignedAt, UpdatedAt, the shift's StartTime and EndTime, and the statuses Scheduled, CheckedIn, CheckedOut and Cancelled.
- The services do not require the store to keep every event under its own id; the repository states it as `Valid()`, each operation preserves it, and the lemmas that depend on it require it.
- StaffAssignments.StaffAssignmentService.DeleteAssignment: finds the first assignment with the id, while `FindAsync` looks up the primary key; the two agree because ids are unique in the database.
