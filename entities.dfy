/** The persisted entities of the event-coverage system: events, their shifts, and the staff
    assignments that hang off a shift. `DateTime` values are ticks (`int`); a nullable value is
    an `Option`. */
module Entities {
  import opened Wrappers

  /** The lifecycle status of an event; exactly seven values, in declaration order. */
  datatype EventStatus = Requested | Planned | Confirmed | Active | Completed | SendInvoice | Cancelled

  /** The status of a shift; exactly five values, in declaration order. */
  datatype ShiftStatus = Open | Full | InProgress | Completed | Cancelled
  {
    /** The enum's underlying integer value (its position in the declaration). */
    function Ordinal(): nat
    {
      match this
      case Open => 0
      case Full => 1
      case InProgress => 2
      case Completed => 3
      case Cancelled => 4
    }
  }

  /** The status of a staff assignment. */
  datatype AssignmentStatus = Scheduled | CheckedIn | CheckedOut | Cancelled

  /** One staff member booked on one shift, carrying the interval of that shift. */
  datatype StaffAssignment = StaffAssignment(
    id: int,
    shiftId: int,
    staffId: int,
    shiftStart: int,
    shiftEnd: int,
    status: AssignmentStatus,
    checkInTime: Option<int>,
    checkOutTime: Option<int>,
    assignedAt: int,
    updatedAt: Option<int>)

  datatype Shift = Shift(
    id: int,
    eventId: int,
    name: string,
    startTime: int,
    endTime: int,
    requiredStaff: int,
    description: Option<string>,
    status: ShiftStatus,
    createdAt: int,
    updatedAt: Option<int>,
    staffAssignments: seq<StaffAssignment>)

  /** The value of every field of an `Event` at one moment. */
  datatype EventData = EventData(
    id: int,
    name: string,
    startDate: int,
    endDate: int,
    location: string,
    description: Option<string>,
    status: EventStatus,
    contactPerson: Option<string>,
    contactPhone: Option<string>,
    contactEmail: Option<string>,
    notificationSent: bool,
    createdAt: int,
    updatedAt: Option<int>,
    shifts: seq<Shift>)

  /** The exceptions the services throw, by class, with the condition that raised them.
      `ApplicationException` stands for the class the application-layer use cases throw, spelled
      with a leading A-grave (`\u00C0pplicationException`) in the code. No class of that name is
      declared in the files modelled (the application layer declares `ApplicationLayerException`),
      and it is not `System.ApplicationException`. */
  datatype Error =
    | DomainException(reason: Reason)
    | ApplicationException(reason: Reason)
    | InvalidOperation(reason: Reason)

  datatype Reason =
    | EndNotAfterStart
    | StartInPast
    | StartNotInFuture
    | ShiftsOutsideTimeframe(count: nat)
    | EventNotFound(id: int)
    | MismatchedIds

  /** `char.IsWhiteSpace`: the Unicode white-space characters. */
  predicate IsWhiteSpace(c: char)
  {
    || ('\U{0009}' <= c <= '\U{000D}') || c == '\U{0020}' || c == '\U{0085}' || c == '\U{00A0}'
    || c == '\U{1680}' || ('\U{2000}' <= c <= '\U{200A}') || c == '\U{2028}' || c == '\U{2029}'
    || c == '\U{202F}' || c == '\U{205F}' || c == '\U{3000}'
  }

  /** `string.IsNullOrWhiteSpace`. */
  function IsNullOrWhiteSpace(s: Option<string>): (blank: bool)
    ensures s.None? ==> blank
    // a string is blank exactly when it holds no character that is not white space
    ensures s.Some? ==> (blank <==> forall c :: c in s.value ==> IsWhiteSpace(c))
  {
    s.None? || forall i :: 0 <= i < |s.value| ==> IsWhiteSpace(s.value[i])
  }

  /** `[Required]` on a string: not null, and not empty or white space only. */
  predicate Present(s: string)
  {
    !IsNullOrWhiteSpace(Some(s))
  }

  /** `[StringLength(n)]`: null, or at most `n` characters. */
  predicate AtMost(s: Option<string>, n: nat)
  {
    s.None? || |s.value| <= n
  }

  /** The data-annotation constraints declared on `Event`. */
  function EventValid(e: EventData): (valid: bool)
    // the required strings are non-empty, and no string is longer than its limit
    ensures valid ==> 0 < |e.name| <= 100 && 0 < |e.location| <= 200
    ensures valid ==> e.description.None? || |e.description.value| <= 500
    ensures valid ==> e.contactPerson.None? || |e.contactPerson.value| <= 100
    ensures valid ==> e.contactPhone.None? || |e.contactPhone.value| <= 20
    ensures valid ==> e.contactEmail.None? || |e.contactEmail.value| <= 255
  {
    && Present(e.name) && |e.name| <= 100
    && Present(e.location) && |e.location| <= 200
    && AtMost(e.description, 500)
    && AtMost(e.contactPerson, 100)
    && AtMost(e.contactPhone, 20)
    && AtMost(e.contactEmail, 255)
  }

  /** The data-annotation constraints declared on `Shift`. */
  function ShiftValid(s: Shift): (valid: bool)
    ensures valid ==> 0 < |s.name| <= 100 && 1 <= s.requiredStaff <= 50
    ensures valid ==> s.description.None? || |s.description.value| <= 300
  {
    && Present(s.name) && |s.name| <= 100
    && 1 <= s.requiredStaff <= 50
    && AtMost(s.description, 300)
  }

  /** A shift's interval lies within `[startDate, endDate]`. */
  predicate ShiftWithin(s: Shift, startDate: int, endDate: int)
  {
    startDate <= s.startTime && s.endTime <= endDate
  }

  /** `new Event()`: the property initialisers, with `DateTime.UtcNow` read as `now`. */
  function NewEventData(now: int): (e: EventData)
    ensures e.status == Requested && !e.notificationSent
    ensures e.shifts == [] && e.updatedAt == None && e.createdAt == now
  {
    EventData(0, "", 0, 0, "", None, Requested, None, None, None, false, now, None, [])
  }

  /** `new Shift()`: the property initialisers, with `DateTime.UtcNow` read as `now`. */
  function NewShift(now: int): (s: Shift)
    ensures s.requiredStaff == 1 && s.status == Open
    ensures s.staffAssignments == [] && s.updatedAt == None && s.createdAt == now
  {
    Shift(0, 0, "", 0, 0, 1, None, Open, now, None, [])
  }

  /** The defaults leave the Required strings empty: a new shift is valid once it is given a
      proper name, while a new event also needs a location, so a name alone never makes it valid. */
  lemma DefaultsFailRequired(now: int, name: string)
    ensures !Present(NewEventData(now).name) && !Present(NewEventData(now).location)
    ensures !Present(NewShift(now).name)
    ensures !EventValid(NewEventData(now)) && !ShiftValid(NewShift(now))
    ensures !EventValid(NewEventData(now).(name := name))
    ensures Present(name) && |name| <= 100 ==> ShiftValid(NewShift(now).(name := name))
  {
  }

  /** An event whose fields the services update in place. */
  class Event {
    var id: int
    var name: string
    var startDate: int
    var endDate: int
    var location: string
    var description: Option<string>
    var status: EventStatus
    var contactPerson: Option<string>
    var contactPhone: Option<string>
    var contactEmail: Option<string>
    var notificationSent: bool
    var createdAt: int
    var updatedAt: Option<int>
    var shifts: seq<Shift>

    /** The current value of every field. */
    function Snapshot(): EventData
      reads this
    {
      EventData(id, name, startDate, endDate, location, description, status, contactPerson,
                contactPhone, contactEmail, notificationSent, createdAt, updatedAt, shifts)
    }

    /** `new Event()`. */
    constructor (now: int)
      ensures Snapshot() == NewEventData(now)
    {
      id, name, startDate, endDate, location, description := 0, "", 0, 0, "", None;
      status, contactPerson, contactPhone, contactEmail := Requested, None, None, None;
      notificationSent, createdAt, updatedAt, shifts := false, now, None, [];
    }

    /** An event object holding the given field values (what a load from the store yields). */
    constructor FromData(d: EventData)
      ensures Snapshot() == d
    {
      id, name, startDate, endDate, location, description := d.id, d.name, d.startDate, d.endDate, d.location, d.description;
      status, contactPerson, contactPhone, contactEmail := d.status, d.contactPerson, d.contactPhone, d.contactEmail;
      notificationSent, createdAt, updatedAt, shifts := d.notificationSent, d.createdAt, d.updatedAt, d.shifts;
    }
  }
}
