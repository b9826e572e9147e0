/**
 * The field translation between rows of the `appointments` table and the
 * in-app `Appointment` record: the listing and creation read-backs with
 * their `||` defaults, and the column mapping of an insert.
 */
module Appointments {
  import opened Wrappers
  import opened Js

  /** A row of the `appointments` table as the backend hands it back; nullable columns are options. */
  datatype AppointmentRow = AppointmentRow(
    id: string,
    bookingNumber: Option<int>,
    barberName: string,
    customerName: string,
    customerPhone: string,
    customerEmail: Option<string>,
    service: string,
    date: string,
    time: string,
    status: string,
    price: Option<string>,
    duration: Option<int>,
    notes: Option<string>,
    createdAt: Option<string>,
    updatedAt: Option<string>)

  /** The in-app appointment record; `None` is a field left undefined. */
  datatype Appointment = Appointment(
    id: string,
    bookingNumber: Option<int>,
    barberName: string,
    customerName: string,
    customerPhone: string,
    customerEmail: string,
    service: string,
    date: string,
    time: string,
    status: string,
    price: string,
    duration: Option<int>,
    notes: Option<string>,
    createdAt: Option<string>,
    updatedAt: Option<string>)

  /** What a caller hands to the creation path: an appointment without its id. */
  datatype AppointmentDraft = AppointmentDraft(
    bookingNumber: Option<int>,
    barberName: string,
    customerName: string,
    customerPhone: string,
    customerEmail: string,
    service: string,
    date: string,
    time: string,
    status: string,
    price: string,
    duration: Option<int>,
    notes: Option<string>,
    createdAt: Option<string>,
    updatedAt: Option<string>)

  /** The columns the creation path inserts; `duration: None` is an undefined `duration` property. */
  datatype InsertRow = InsertRow(
    barberName: string,
    customerName: string,
    customerPhone: string,
    customerEmail: string,
    service: string,
    date: string,
    time: string,
    status: string,
    price: string,
    duration: Option<int>)

  /** Identity, people, service, schedule and status are carried over from the row unchanged. */
  predicate CopiesRow(a: Appointment, row: AppointmentRow) {
    && a.id == row.id
    && a.bookingNumber == row.bookingNumber
    && a.barberName == row.barberName
    && a.customerName == row.customerName
    && a.customerPhone == row.customerPhone
    && a.service == row.service
    && a.date == row.date
    && a.time == row.time
    && a.status == row.status
    && a.createdAt == row.createdAt
    && a.updatedAt == row.updatedAt
  }

  /**
   * One row of the full listing, read back as an appointment: a missing or
   * empty email, price or notes becomes '', a missing or zero duration 60.
   */
  function ListedAppointment(row: AppointmentRow): (a: Appointment)
    ensures CopiesRow(a, row)
    ensures a.customerEmail == row.customerEmail.GetOr("")
    ensures a.price == row.price.GetOr("")
    ensures a.notes == Some(row.notes.GetOr(""))
    ensures a.duration.Some? && a.duration.value != 0
    ensures TruthyNumber(row.duration) ==> a.duration == row.duration
    ensures !TruthyNumber(row.duration) ==> a.duration == Some(DefaultDuration)
  {
    Appointment(
      id := row.id,
      bookingNumber := row.bookingNumber,
      barberName := row.barberName,
      customerName := row.customerName,
      customerPhone := row.customerPhone,
      customerEmail := StringOr(row.customerEmail, ""),
      service := row.service,
      date := row.date,
      time := row.time,
      status := row.status,
      price := StringOr(row.price, ""),
      duration := Some(NumberOr(row.duration, DefaultDuration)),
      notes := Some(StringOr(row.notes, "")),
      createdAt := row.createdAt,
      updatedAt := row.updatedAt)
  }

  /**
   * The row the creation path gets back from its insert, read as an
   * appointment: the same defaults as the listing, but no notes at all.
   */
  function CreatedAppointment(row: AppointmentRow): (a: Appointment)
    ensures CopiesRow(a, row)
    ensures a.customerEmail == row.customerEmail.GetOr("")
    ensures a.price == row.price.GetOr("")
    ensures a.notes == None
    ensures a.duration.Some? && a.duration.value != 0
    ensures TruthyNumber(row.duration) ==> a.duration == row.duration
    ensures !TruthyNumber(row.duration) ==> a.duration == Some(DefaultDuration)
  {
    Appointment(
      id := row.id,
      bookingNumber := row.bookingNumber,
      barberName := row.barberName,
      customerName := row.customerName,
      customerPhone := row.customerPhone,
      customerEmail := StringOr(row.customerEmail, ""),
      service := row.service,
      date := row.date,
      time := row.time,
      status := row.status,
      price := StringOr(row.price, ""),
      duration := Some(NumberOr(row.duration, DefaultDuration)),
      notes := None,
      createdAt := row.createdAt,
      updatedAt := row.updatedAt)
  }

  /** The insert's columns: ten fields of the draft, renamed; booking number, notes and timestamps are not sent. */
  function ToInsert(draft: AppointmentDraft): InsertRow {
    InsertRow(
      barberName := draft.barberName,
      customerName := draft.customerName,
      customerPhone := draft.customerPhone,
      customerEmail := draft.customerEmail,
      service := draft.service,
      date := draft.date,
      time := draft.time,
      status := draft.status,
      price := draft.price,
      duration := draft.duration)
  }

  /** The backend echoes an insert when every column sent comes back unchanged. */
  predicate Echoes(row: AppointmentRow, ins: InsertRow) {
    && row.barberName == ins.barberName
    && row.customerName == ins.customerName
    && row.customerPhone == ins.customerPhone
    && row.customerEmail == Some(ins.customerEmail)
    && row.service == ins.service
    && row.date == ins.date
    && row.time == ins.time
    && row.status == ins.status
    && row.price == Some(ins.price)
    && (ins.duration.Some? ==> row.duration == ins.duration)
  }

  /** The two read-backs differ only in the notes field. */
  lemma ReadBacksAgree(row: AppointmentRow)
    ensures ListedAppointment(row) == CreatedAppointment(row).(notes := Some(row.notes.GetOr("")))
  {
  }

  /**
   * Creating an appointment returns the draft's fields: when the backend
   * echoes the inserted columns, the appointment read back carries the
   * draft's barber, customer, service, schedule, status, email and price,
   * its nonzero duration, 60 for a zero duration, and never the draft's notes.
   */
  lemma CreateRoundTrip(draft: AppointmentDraft, row: AppointmentRow)
    requires Echoes(row, ToInsert(draft))
    ensures var a := CreatedAppointment(row);
      && a.barberName == draft.barberName
      && a.customerName == draft.customerName
      && a.customerPhone == draft.customerPhone
      && a.customerEmail == draft.customerEmail
      && a.service == draft.service
      && a.date == draft.date
      && a.time == draft.time
      && a.status == draft.status
      && a.price == draft.price
      && (TruthyNumber(draft.duration) ==> a.duration == draft.duration)
      && (draft.duration == Some(0) ==> a.duration == Some(DefaultDuration))
      && a.notes == None
  {
  }

  /** Reading back is stable: a listed appointment, stored again as a row, lists as itself. */
  lemma ListingIdempotent(row: AppointmentRow)
    ensures var a := ListedAppointment(row);
      var again := AppointmentRow(a.id, a.bookingNumber, a.barberName, a.customerName,
        a.customerPhone, Some(a.customerEmail), a.service, a.date, a.time, a.status,
        Some(a.price), a.duration, a.notes, a.createdAt, a.updatedAt);
      ListedAppointment(again) == a
  {
  }
}
