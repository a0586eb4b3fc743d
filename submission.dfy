/**
 * The add/edit participant form's two ends: the form opened from a row of the roster, and
 * the arguments `handleSubmit` sends to `update_person` (editing) or `add_person` (adding).
 */
module Submission {
  import opened Wrappers
  import opened JsText
  import opened People
  import opened FormValidation
  import opened Roster

  /** The arguments of the `add_person` remote procedure (its `p_` parameters). */
  datatype AddPayload = AddPayload(
    age: int,
    email: string,
    emergency_contact: string,
    emergency_contact_phone_number: string,
    gender: string,
    last_name_1: string,
    last_name_2: string,
    names: string,
    national_id: string,
    phone_number: string
  )

  /** The form filled in when a roster row is clicked: the age printed with `String`, the
      other fields copied as stored. */
  function EditFormOf(u: User): (form: FormData)
    ensures ParseNumber(form.age) == Some(u.age)
    ensures form.email == u.email && form.emergency_contact == u.emergency_contact
    ensures form.emergency_contact_phone_number == u.emergency_contact_phone_number
    ensures form.gender == u.gender
    ensures form.last_name_1 == u.last_name_1 && form.last_name_2 == u.last_name_2
    ensures form.names == u.names && form.national_id == u.national_id
    ensures form.phone_number == u.phone_number
  {
    ParseFormatRoundTrip(u.age);
    FormData(FormatInt(u.age), u.email, u.emergency_contact, u.emergency_contact_phone_number,
             u.gender, u.last_name_1, u.last_name_2, u.names, u.national_id, u.phone_number)
  }

  /** The `update_person` arguments for an edit: text fields trimmed, the age read with
      `Number`, and the id and the three status flags taken from the record being edited. */
  function EditPayload(form: FormData, editing: User): (p: UpdatePayload)
    requires AgeAcceptable(form.age)
    ensures p.id == editing.id
    ensures p.checked_in == editing.checked_in && p.checked_out == editing.checked_out
    ensures p.has_signed == editing.has_signed
    ensures Some(p.age) == ParseNumber(form.age) && p.age > 0
    ensures p.email == Trim(form.email) && p.emergency_contact == Trim(form.emergency_contact)
    ensures p.emergency_contact_phone_number == Trim(form.emergency_contact_phone_number)
    ensures p.last_name_1 == Trim(form.last_name_1) && p.last_name_2 == Trim(form.last_name_2)
    ensures p.names == Trim(form.names) && p.national_id == Trim(form.national_id)
    ensures p.phone_number == Trim(form.phone_number)
  {
    UpdatePayload(
      ParseNumber(form.age).value, editing.checked_in, editing.checked_out,
      Trim(form.email), Trim(form.emergency_contact), Trim(form.emergency_contact_phone_number),
      editing.has_signed, editing.id, Trim(form.last_name_1), Trim(form.last_name_2),
      Trim(form.names), Trim(form.national_id), Trim(form.phone_number))
  }

  /** The `add_person` arguments: text fields trimmed except gender, which is sent as
      chosen, and the age read with `Number`. */
  function AddPayloadOf(form: FormData): (p: AddPayload)
    requires AgeAcceptable(form.age)
    ensures Some(p.age) == ParseNumber(form.age) && p.age > 0
    ensures p.gender == form.gender
    ensures p.email == Trim(form.email) && p.emergency_contact == Trim(form.emergency_contact)
    ensures p.emergency_contact_phone_number == Trim(form.emergency_contact_phone_number)
    ensures p.last_name_1 == Trim(form.last_name_1) && p.last_name_2 == Trim(form.last_name_2)
    ensures p.names == Trim(form.names) && p.national_id == Trim(form.national_id)
    ensures p.phone_number == Trim(form.phone_number)
  {
    AddPayload(
      ParseNumber(form.age).value, Trim(form.email), Trim(form.emergency_contact),
      Trim(form.emergency_contact_phone_number), form.gender, Trim(form.last_name_1),
      Trim(form.last_name_2), Trim(form.names), Trim(form.national_id), Trim(form.phone_number))
  }

  /** The record's text fields are stored without surrounding whitespace. */
  predicate CleanText(u: User) {
    && Trimmed(u.email) && Trimmed(u.emergency_contact)
    && Trimmed(u.emergency_contact_phone_number) && Trimmed(u.last_name_1)
    && Trimmed(u.last_name_2) && Trimmed(u.names) && Trimmed(u.national_id)
    && Trimmed(u.phone_number)
  }

  /** Every text argument of an edit is trimmed, so the stored record is clean. */
  lemma EditPayloadTrimmed(form: FormData, editing: User)
    requires AgeAcceptable(form.age)
    ensures var p := EditPayload(form, editing);
      && Trimmed(p.email) && Trimmed(p.emergency_contact)
      && Trimmed(p.emergency_contact_phone_number) && Trimmed(p.last_name_1)
      && Trimmed(p.last_name_2) && Trimmed(p.names) && Trimmed(p.national_id)
      && Trimmed(p.phone_number)
  {
    TrimShape(form.email);
    TrimShape(form.emergency_contact);
    TrimShape(form.emergency_contact_phone_number);
    TrimShape(form.last_name_1);
    TrimShape(form.last_name_2);
    TrimShape(form.names);
    TrimShape(form.national_id);
    TrimShape(form.phone_number);
  }

  /** Opening a clean record with a positive age and submitting the form untouched sends
      back exactly the record's stored values. */
  lemma UntouchedEditRoundTrip(u: User)
    requires CleanText(u) && u.age > 0
    ensures AgeAcceptable(EditFormOf(u).age)
    ensures EditPayload(EditFormOf(u), u) == StoredPayload(u)
  {
    var form := EditFormOf(u);
    assert form.age != "" by {
      assert FormatInt(u.age) != [];
    }
    TrimOfSolidEnds(u.email);
    TrimOfSolidEnds(u.emergency_contact);
    TrimOfSolidEnds(u.emergency_contact_phone_number);
    TrimOfSolidEnds(u.last_name_1);
    TrimOfSolidEnds(u.last_name_2);
    TrimOfSolidEnds(u.names);
    TrimOfSolidEnds(u.national_id);
    TrimOfSolidEnds(u.phone_number);
  }
}
