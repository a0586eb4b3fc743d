/**
 * The participant record held by the remote directory and listed on the dashboard
 * (the `User` interface of src/lib/supabase.ts, plus the `manager_id` and `document_url`
 * columns the dashboard reads without the interface declaring them).
 */
module People {
  import opened Wrappers

  /** `created_at` is the record's creation instant as a number (milliseconds since the
      epoch), the value `new Date(created_at).getTime()` yields. */
  datatype User = User(
    id: string,
    age: int,
    email: string,
    names: string,
    gender: string,
    camp_total: int,
    checked_in: bool,
    created_at: int,
    has_signed: bool,
    checked_out: bool,
    last_name_1: string,
    last_name_2: string,
    national_id: string,
    phone_number: string,
    emergency_contact: string,
    emergency_contact_phone_number: string,
    manager_id: Option<string>,
    document_url: Option<string>
  )

  /** Age 18 separates minors from adults throughout the system. */
  const AdultAge: int := 18
}
