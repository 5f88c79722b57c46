/** Mapping between the `Shift` entity and its transfer object. */
module ShiftMapper {
  import opened Wrappers
  import E = Entities

  /** The transfer object's status enum. Its declaration is not part of this model; it is taken
      to have the entity's five members with the same underlying values. */
  datatype ShiftStatusDTO = Open | Full | InProgress | Completed | Cancelled
  {
    /** The enum's underlying integer value. */
    function Ordinal(): nat
    {
      match this
      case Open => 0
      case Full => 1
      case InProgress => 2
      case Completed => 3
      case Cancelled => 4
    }
  }

  datatype ShiftDTO = ShiftDTO(
    id: int,
    eventId: int,
    name: string,
    startTime: int,
    endTime: int,
    requiredStaff: int,
    description: Option<string>,
    status: ShiftStatusDTO,
    createdAt: int,
    updatedAt: Option<int>)

  /** `(ShiftStatusDTO)status`: the cast keeps the underlying value. */
  function StatusToDTO(status: E.ShiftStatus): (r: ShiftStatusDTO)
    ensures r.Ordinal() == status.Ordinal()
  {
    match status
    case Open => Open
    case Full => Full
    case InProgress => InProgress
    case Completed => Completed
    case Cancelled => Cancelled
  }

  /** `(Entities.ShiftStatus)status`: the cast keeps the underlying value. */
  function StatusToEntity(status: ShiftStatusDTO): (r: E.ShiftStatus)
    ensures r.Ordinal() == status.Ordinal()
  {
    match status
    case Open => E.ShiftStatus.Open
    case Full => E.ShiftStatus.Full
    case InProgress => E.ShiftStatus.InProgress
    case Completed => E.ShiftStatus.Completed
    case Cancelled => E.ShiftStatus.Cancelled
  }

  /** `ToDTO`: every scalar field, without the staff assignments. */
  function ToDTO(entityShift: E.Shift): (dtoShift: ShiftDTO)
    ensures dtoShift.status.Ordinal() == entityShift.status.Ordinal()
    // every other field carries the entity's value
    ensures && dtoShift.id == entityShift.id && dtoShift.eventId == entityShift.eventId
            && dtoShift.name == entityShift.name && dtoShift.description == entityShift.description
            && dtoShift.startTime == entityShift.startTime && dtoShift.endTime == entityShift.endTime
            && dtoShift.requiredStaff == entityShift.requiredStaff
            && dtoShift.createdAt == entityShift.createdAt && dtoShift.updatedAt == entityShift.updatedAt
  {
    ShiftDTO(entityShift.id, entityShift.eventId, entityShift.name, entityShift.startTime,
             entityShift.endTime, entityShift.requiredStaff, entityShift.description,
             StatusToDTO(entityShift.status), entityShift.createdAt, entityShift.updatedAt)
  }

  /** `ToEntity`: every scalar field, with no staff assignments. */
  function ToEntity(dtoShift: ShiftDTO): (entityShift: E.Shift)
    ensures entityShift.status.Ordinal() == dtoShift.status.Ordinal()
    ensures entityShift.staffAssignments == []
    // every other field carries the transfer object's value
    ensures && entityShift.id == dtoShift.id && entityShift.eventId == dtoShift.eventId
            && entityShift.name == dtoShift.name && entityShift.description == dtoShift.description
            && entityShift.startTime == dtoShift.startTime && entityShift.endTime == dtoShift.endTime
            && entityShift.requiredStaff == dtoShift.requiredStaff
            && entityShift.createdAt == dtoShift.createdAt && entityShift.updatedAt == dtoShift.updatedAt
  {
    E.Shift(dtoShift.id, dtoShift.eventId, dtoShift.name, dtoShift.startTime, dtoShift.endTime,
            dtoShift.requiredStaff, dtoShift.description, StatusToEntity(dtoShift.status),
            dtoShift.createdAt, dtoShift.updatedAt, [])
  }

  /** An entity survives the trip through its transfer object, except for its staff
      assignments, which the transfer object does not carry; so the trip keeps a shift valid or
      invalid. */
  lemma {:induction false} EntityRoundTrip(entityShift: E.Shift)
    ensures ToEntity(ToDTO(entityShift)) == entityShift.(staffAssignments := [])
    ensures E.ShiftValid(ToEntity(ToDTO(entityShift))) == E.ShiftValid(entityShift)
  {
    match entityShift.status
    case Open =>
    case Full =>
    case InProgress =>
    case Completed =>
    case Cancelled =>
  }

  /** A transfer object survives the trip through an entity unchanged. */
  lemma {:induction false} DTORoundTrip(dtoShift: ShiftDTO)
    ensures ToDTO(ToEntity(dtoShift)) == dtoShift
  {
  }

  /** `ToDTOList`: one transfer object per entity, in order. */
  method ToDTOList(entityShifts: seq<E.Shift>) returns (dtoShifts: seq<ShiftDTO>)
    ensures |dtoShifts| == |entityShifts|
    ensures forall i :: 0 <= i < |entityShifts| ==> dtoShifts[i] == ToDTO(entityShifts[i])
  {
    dtoShifts := [];
    for i := 0 to |entityShifts|
      invariant |dtoShifts| == i
      invariant forall j :: 0 <= j < i ==> dtoShifts[j] == ToDTO(entityShifts[j])
    {
      dtoShifts := dtoShifts + [ToDTO(entityShifts[i])];
    }
  }

  /** `ToEntityList`: one entity per transfer object, in order. */
  method ToEntityList(dtoShifts: seq<ShiftDTO>) returns (entityShifts: seq<E.Shift>)
    ensures |entityShifts| == |dtoShifts|
    ensures forall i :: 0 <= i < |dtoShifts| ==> entityShifts[i] == ToEntity(dtoShifts[i])
  {
    entityShifts := [];
    for i := 0 to |dtoShifts|
      invariant |entityShifts| == i
      invariant forall j :: 0 <= j < i ==> entityShifts[j] == ToEntity(dtoShifts[j])
    {
      entityShifts := entityShifts + [ToEntity(dtoShifts[i])];
    }
  }
}
