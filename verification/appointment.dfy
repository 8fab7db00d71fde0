/** The Appointment record: the fields the constructor fills in, the setters
    the screens use, and the zone id that is written but never read. */
module Appointments {

  import opened Wrappers
  import opened BusinessTime

  datatype Appointment = Appointment(
    id: int,
    title: string,
    description: string,
    location: string,
    contactId: int,
    kind: string,
    start: Instant,
    end: Instant,
    customerId: int,
    userId: int,
    zone: Option<string>)

  /** The ten-argument constructor, in the Java parameter order; it leaves the
      zone id unset. */
  function NewAppointment(id: int, title: string, description: string, location: string,
                          contactId: int, kind: string, start: Instant, end: Instant,
                          customerId: int, userId: int): (a: Appointment)
    ensures a.id == id && a.title == title && a.description == description
    ensures a.location == location && a.contactId == contactId && a.kind == kind
    ensures a.start == start && a.end == end
    ensures a.customerId == customerId && a.userId == userId
    ensures a.zone.None?
  {
    Appointment(id, title, description, location, contactId, kind, start, end,
                customerId, userId, None)
  }

  /** The fields a setter can change. */
  datatype SettableField = Title | Description | Location | Contact | Kind | Customer | User

  /** `a` and `b` agree on every field, except possibly the one of `f`. The
      id, start and end have no setter, and the zone has its own. */
  predicate AgreeExcept(a: Appointment, b: Appointment, f: SettableField)
  {
    && a.id == b.id && a.start == b.start && a.end == b.end
    && (f == Title || a.title == b.title)
    && (f == Description || a.description == b.description)
    && (f == Location || a.location == b.location)
    && (f == Contact || a.contactId == b.contactId)
    && (f == Kind || a.kind == b.kind)
    && (f == Customer || a.customerId == b.customerId)
    && (f == User || a.userId == b.userId)
    && a.zone == b.zone
  }

  /** Every getter of `a` and `b` returns the same value. */
  predicate SameGetters(a: Appointment, b: Appointment)
  {
    && a.id == b.id && a.start == b.start && a.end == b.end
    && a.title == b.title && a.description == b.description && a.location == b.location
    && a.contactId == b.contactId && a.kind == b.kind
    && a.customerId == b.customerId && a.userId == b.userId
  }

  function SetTitle(a: Appointment, title: string): (r: Appointment)
    ensures r.title == title && AgreeExcept(a, r, Title)
  {
    a.(title := title)
  }

  function SetDescription(a: Appointment, description: string): (r: Appointment)
    ensures r.description == description && AgreeExcept(a, r, Description)
  {
    a.(description := description)
  }

  function SetLocation(a: Appointment, location: string): (r: Appointment)
    ensures r.location == location && AgreeExcept(a, r, Location)
  {
    a.(location := location)
  }

  function SetContactId(a: Appointment, contactId: int): (r: Appointment)
    ensures r.contactId == contactId && AgreeExcept(a, r, Contact)
  {
    a.(contactId := contactId)
  }

  function SetKind(a: Appointment, kind: string): (r: Appointment)
    ensures r.kind == kind && AgreeExcept(a, r, Kind)
  {
    a.(kind := kind)
  }

  function SetCustomerId(a: Appointment, customerId: int): (r: Appointment)
    ensures r.customerId == customerId && AgreeExcept(a, r, Customer)
  {
    a.(customerId := customerId)
  }

  function SetUserId(a: Appointment, userId: int): (r: Appointment)
    ensures r.userId == userId && AgreeExcept(a, r, User)
  {
    a.(userId := userId)
  }

  /** `setAppointmentZoneId`: stores the zone, which no getter reads. */
  function SetZoneId(a: Appointment, zone: string): (r: Appointment)
    ensures r.zone == Some(zone)
    ensures SameGetters(a, r)
  {
    a.(zone := Some(zone))
  }
}
