/**
 * The add/edit participant form and its validator (`validateForm` of the dashboard):
 * ten text fields, two regular languages (email and phone), required and optional fields,
 * and a field-name to message error map.
 */
module FormValidation {
  import opened Wrappers
  import opened JsText

  /** The names of the form's inputs. */
  datatype Field =
    | Age | Email | EmergencyContact | EmergencyContactPhoneNumber | Gender
    | LastName1 | LastName2 | Names | NationalId | PhoneNumber
  {
    /** The input's `name`, which is also its key in the error map. */
    function Key(): string {
      match this
      case Age => "age"
      case Email => "email"
      case EmergencyContact => "emergency_contact"
      case EmergencyContactPhoneNumber => "emergency_contact_phone_number"
      case Gender => "gender"
      case LastName1 => "last_name_1"
      case LastName2 => "last_name_2"
      case Names => "names"
      case NationalId => "national_id"
      case PhoneNumber => "phone_number"
    }
  }

  /** Distinct inputs have distinct keys. */
  lemma KeyInjective(f: Field, g: Field)
    ensures f.Key() == g.Key() <==> f == g
  {
  }

  datatype FormData = FormData(
    age: string,
    email: string,
    emergency_contact: string,
    emergency_contact_phone_number: string,
    gender: string,
    last_name_1: string,
    last_name_2: string,
    names: string,
    national_id: string,
    phone_number: string
  )
  {
    function Get(f: Field): string {
      match f
      case Age => age
      case Email => email
      case EmergencyContact => emergency_contact
      case EmergencyContactPhoneNumber => emergency_contact_phone_number
      case Gender => gender
      case LastName1 => last_name_1
      case LastName2 => last_name_2
      case Names => names
      case NationalId => national_id
      case PhoneNumber => phone_number
    }

    /** `{ ...form, [f]: v }`: the one field replaced. */
    function With(f: Field, v: string): (r: FormData)
      ensures r.Get(f) == v
      ensures forall g :: g != f ==> r.Get(g) == Get(g)
    {
      match f
      case Age => this.(age := v)
      case Email => this.(email := v)
      case EmergencyContact => this.(emergency_contact := v)
      case EmergencyContactPhoneNumber => this.(emergency_contact_phone_number := v)
      case Gender => this.(gender := v)
      case LastName1 => this.(last_name_1 := v)
      case LastName2 => this.(last_name_2 := v)
      case Names => this.(names := v)
      case NationalId => this.(national_id := v)
      case PhoneNumber => this.(phone_number := v)
    }
  }

  /** `initialFormState`: every field empty. */
  const InitialForm: FormData := FormData("", "", "", "", "", "", "", "", "", "")

  const NamesRequired := "Names are required"
  const LastName1Required := "First last name is required"
  const LastName2Required := "Second last name is required"
  const AgeRequired := "Age is required"
  const AgePositive := "Age must be a positive number"
  const EmailRequired := "Email is required"
  const EmailInvalid := "Enter a valid email address"
  const PhoneRequired := "Phone number is required"
  const PhoneInvalid := "Enter a valid phone number"
  const GenderRequired := "Gender is required"
  const NationalIdRequired := "National ID is required"
  const EmergencyContactFormat := "Use the format \"Name - Relationship\""

  /** A character of the class `[^\s@]`. */
  predicate EmailChar(c: char) {
    !IsWhitespace(c) && c != '@'
  }

  /** `s` splits as `[^\s@]+` `@` `[^\s@]+` `\.` `[^\s@]+`, with the `@` at `i` and the `.`
      at `j`: every other character is in `[^\s@]`, and the bounds keep the three runs
      non-empty. */
  predicate EmailSplit(s: string, i: int, j: int) {
    && 0 < i && i + 1 < j && j + 1 < |s|
    && s[i] == '@' && s[j] == '.'
    && forall k | 0 <= k < |s| && k != i && k != j :: EmailChar(s[k])
  }

  /** `/^[^\s@]+@[^\s@]+\.[^\s@]+$/.test(s)`. */
  predicate EmailRegex(s: string) {
    exists i, j | 0 < i < j < |s| :: EmailSplit(s, i, j)
  }

  /** An email address as the validator means it: no whitespace, exactly one `@` with
      something before it, and a `.` after the `@` that is neither the first nor the last
      character of the part after the `@`. */
  predicate WellFormedEmail(s: string) {
    && NoWhitespace(s)
    && exists i | 0 < i < |s| :: OnlyAtSign(s, i) && InteriorDot(s, i)
  }

  predicate OnlyAtSign(s: string, i: int)
    requires 0 <= i < |s|
  {
    s[i] == '@' && forall k | 0 <= k < |s| && k != i :: s[k] != '@'
  }

  predicate InteriorDot(s: string, i: int) {
    exists j | 0 <= i && i + 1 < j < |s| - 1 :: s[j] == '.'
  }

  /** The regular expression accepts exactly the well-formed addresses. */
  lemma EmailRegexIff(s: string)
    ensures EmailRegex(s) <==> WellFormedEmail(s)
  {
    if EmailRegex(s) {
      var i, j :| 0 < i < j < |s| && EmailSplit(s, i, j);
      assert OnlyAtSign(s, i);
      assert InteriorDot(s, i);
    }
    if WellFormedEmail(s) {
      var i :| 0 < i < |s| && OnlyAtSign(s, i) && InteriorDot(s, i);
      var j :| i + 1 < j < |s| - 1 && s[j] == '.';
      assert EmailSplit(s, i, j);
    }
  }

  /** `/^\+?\d{7,15}$/.test(s)`. */
  predicate PhoneRegex(s: string) {
    || (|s| > 0 && s[0] == '+' && 8 <= |s| <= 16 && forall k | 1 <= k < |s| :: IsDigit(s[k]))
    || (7 <= |s| <= 15 && AllDigits(s))
  }

  /** An accepted phone number is at most 16 characters, none of them whitespace, so
      trimming it again changes nothing. */
  lemma PhoneRegexShape(s: string)
    requires PhoneRegex(s)
    ensures 7 <= |s| <= 16 && NoWhitespace(s) && Trim(s) == s
  {
    TrimOfSolidEnds(s);
  }

  /** A required text field: blank after trimming gives `msg`. */
  function RequiredText(value: string, msg: string): Option<string> {
    if Trim(value) == "" then Some(msg) else None
  }

  /** Empty or not a number: "required"; a number no greater than zero: "positive". */
  function AgeError(age: string): Option<string> {
    if age == "" || ParseNumber(age).None? then Some(AgeRequired)
    else if ParseNumber(age).value <= 0 then Some(AgePositive)
    else None
  }

  function EmailError(email: string): Option<string> {
    if Trim(email) == "" then Some(EmailRequired)
    else if !EmailRegex(Trim(email)) then Some(EmailInvalid)
    else None
  }

  function PhoneError(phone: string): Option<string> {
    if Trim(phone) == "" then Some(PhoneRequired)
    else if !PhoneRegex(Trim(phone)) then Some(PhoneInvalid)
    else None
  }

  /** Gender is checked untrimmed: only the empty string is missing. */
  function GenderError(gender: string): Option<string> {
    if gender == "" then Some(GenderRequired) else None
  }

  /** Optional; when present it must contain " - " (searched in the untrimmed text). */
  function EmergencyContactError(contact: string): Option<string> {
    if Trim(contact) != "" && !Contains(contact, " - ") then Some(EmergencyContactFormat) else None
  }

  /** Optional; when present it must be a phone number. */
  function EmergencyPhoneError(phone: string): Option<string> {
    if Trim(phone) != "" && !PhoneRegex(Trim(phone)) then Some(PhoneInvalid) else None
  }

  /** Records message `e` for field `f`, if there is one. */
  function Put(m: map<Field, string>, f: Field, e: Option<string>): map<Field, string> {
    if e.Some? then m[f := e.value] else m
  }

  /** `Put` adds `f` when there is a message and leaves every other key as it was. */
  lemma PutAt(m: map<Field, string>, f: Field, e: Option<string>, g: Field)
    ensures g in Put(m, f, e) <==> (g == f && e.Some?) || g in m
    ensures g in Put(m, f, e) ==> Put(m, f, e)[g] == if g == f && e.Some? then e.value else m[g]
  {
  }

  /** The messages of all ten fields, one per field. */
  datatype Messages = Messages(
    names: Option<string>, lastName1: Option<string>, lastName2: Option<string>,
    age: Option<string>, email: Option<string>, phone: Option<string>,
    gender: Option<string>, nationalId: Option<string>,
    contact: Option<string>, contactPhone: Option<string>)
  {
    function Get(f: Field): Option<string> {
      match f
      case Names => names
      case LastName1 => lastName1
      case LastName2 => lastName2
      case Age => age
      case Email => email
      case PhoneNumber => phone
      case Gender => gender
      case NationalId => nationalId
      case EmergencyContact => contact
      case EmergencyContactPhoneNumber => contactPhone
    }
  }

  /** Each field's rule applied to its own input. */
  function MessagesOf(form: FormData): Messages {
    Messages(
      RequiredText(form.names, NamesRequired),
      RequiredText(form.last_name_1, LastName1Required),
      RequiredText(form.last_name_2, LastName2Required),
      AgeError(form.age), EmailError(form.email), PhoneError(form.phone_number),
      GenderError(form.gender), RequiredText(form.national_id, NationalIdRequired),
      EmergencyContactError(form.emergency_contact),
      EmergencyPhoneError(form.emergency_contact_phone_number))
  }

  /** The message `validateForm` records for one field, if any. */
  function FieldError(form: FormData, f: Field): Option<string> {
    MessagesOf(form).Get(f)
  }

  /** The error record filled in the source's order: names, both last names, age, email,
      phone, gender, national id, emergency contact, emergency phone. */
  function ErrorMap(ms: Messages): map<Field, string> {
    var m := Put(map[], Names, ms.names);
    var m := Put(m, LastName1, ms.lastName1);
    var m := Put(m, LastName2, ms.lastName2);
    var m := Put(m, Age, ms.age);
    var m := Put(m, Email, ms.email);
    var m := Put(m, PhoneNumber, ms.phone);
    var m := Put(m, Gender, ms.gender);
    var m := Put(m, NationalId, ms.nationalId);
    var m := Put(m, EmergencyContact, ms.contact);
    Put(m, EmergencyContactPhoneNumber, ms.contactPhone)
  }

  /** Every field is written once, so each field's entry is its own message and nothing
      else is in the map. */
  lemma ErrorMapAt(ms: Messages, f: Field)
    ensures f in ErrorMap(ms) <==> ms.Get(f).Some?
    ensures f in ErrorMap(ms) ==> ErrorMap(ms)[f] == ms.Get(f).value
  {
    var m0 := Put(map[], Names, ms.names);
    PutAt(map[], Names, ms.names, f);
    var m1 := Put(m0, LastName1, ms.lastName1);
    PutAt(m0, LastName1, ms.lastName1, f);
    var m2 := Put(m1, LastName2, ms.lastName2);
    PutAt(m1, LastName2, ms.lastName2, f);
    var m3 := Put(m2, Age, ms.age);
    PutAt(m2, Age, ms.age, f);
    var m4 := Put(m3, Email, ms.email);
    PutAt(m3, Email, ms.email, f);
    var m5 := Put(m4, PhoneNumber, ms.phone);
    PutAt(m4, PhoneNumber, ms.phone, f);
    var m6 := Put(m5, Gender, ms.gender);
    PutAt(m5, Gender, ms.gender, f);
    var m7 := Put(m6, NationalId, ms.nationalId);
    PutAt(m6, NationalId, ms.nationalId, f);
    var m8 := Put(m7, EmergencyContact, ms.contact);
    PutAt(m7, EmergencyContact, ms.contact, f);
    PutAt(m8, EmergencyContactPhoneNumber, ms.contactPhone, f);
  }

  /** The error map `validateForm` returns and stores. */
  function FormErrors(form: FormData): map<Field, string> {
    ErrorMap(MessagesOf(form))
  }

  /** Each field's entry in the error map is exactly its own message: no field's check
      overwrites or removes another's. */
  lemma FormErrorsAt(form: FormData, f: Field)
    ensures f in FormErrors(form) <==> FieldError(form, f).Some?
    ensures f in FormErrors(form) ==> FormErrors(form)[f] == FieldError(form, f).value
  {
    ErrorMapAt(MessagesOf(form), f);
  }

  /** The error map is empty exactly when no field has a message. */
  lemma NoErrorsByField(form: FormData)
    ensures FormErrors(form) == map[] <==> forall f :: FieldError(form, f).None?
  {
    forall f ensures f in FormErrors(form) <==> FieldError(form, f).Some? {
      FormErrorsAt(form, f);
    }
  }

  /** One required text check of `validateForm`. */
  method CheckRequired(errors: map<Field, string>, f: Field, value: string, msg: string)
    returns (r: map<Field, string>)
    ensures r == Put(errors, f, RequiredText(value, msg))
  {
    r := errors;
    if Trim(value) == "" {
      r := r[f := msg];
    }
  }

  method CheckAge(errors: map<Field, string>, age: string) returns (r: map<Field, string>)
    ensures r == Put(errors, Age, AgeError(age))
  {
    r := errors;
    var n := ParseNumber(age);
    if age == "" || n.None? {
      r := r[Age := AgeRequired];
    } else if n.value <= 0 {
      r := r[Age := AgePositive];
    }
  }

  method CheckEmail(errors: map<Field, string>, email: string) returns (r: map<Field, string>)
    ensures r == Put(errors, Email, EmailError(email))
  {
    r := errors;
    var t := Trim(email);
    if t == "" {
      r := r[Email := EmailRequired];
    } else if !EmailRegex(t) {
      r := r[Email := EmailInvalid];
    }
  }

  method CheckPhone(errors: map<Field, string>, phone: string) returns (r: map<Field, string>)
    ensures r == Put(errors, PhoneNumber, PhoneError(phone))
  {
    r := errors;
    var t := Trim(phone);
    if t == "" {
      r := r[PhoneNumber := PhoneRequired];
    } else if !PhoneRegex(t) {
      r := r[PhoneNumber := PhoneInvalid];
    }
  }

  method CheckGender(errors: map<Field, string>, gender: string) returns (r: map<Field, string>)
    ensures r == Put(errors, Gender, GenderError(gender))
  {
    r := errors;
    if gender == "" {
      r := r[Gender := GenderRequired];
    }
  }

  method CheckEmergencyContact(errors: map<Field, string>, contact: string)
    returns (r: map<Field, string>)
    ensures r == Put(errors, EmergencyContact, EmergencyContactError(contact))
  {
    r := errors;
    if Trim(contact) != "" && !Contains(contact, " - ") {
      r := r[EmergencyContact := EmergencyContactFormat];
    }
  }

  method CheckEmergencyPhone(errors: map<Field, string>, phone: string)
    returns (r: map<Field, string>)
    ensures r == Put(errors, EmergencyContactPhoneNumber, EmergencyPhoneError(phone))
  {
    r := errors;
    var t := Trim(phone);
    if t != "" && !PhoneRegex(t) {
      r := r[EmergencyContactPhoneNumber := PhoneInvalid];
    }
  }

  /** The body of `validateForm`: fills the error record field by field, in source order. */
  method CollectErrors(form: FormData) returns (errors: map<Field, string>)
    ensures errors == FormErrors(form)
  {
    errors := map[];
    errors := CheckRequired(errors, Names, form.names, NamesRequired);
    errors := CheckRequired(errors, LastName1, form.last_name_1, LastName1Required);
    errors := CheckRequired(errors, LastName2, form.last_name_2, LastName2Required);
    errors := CheckAge(errors, form.age);
    errors := CheckEmail(errors, form.email);
    errors := CheckPhone(errors, form.phone_number);
    errors := CheckGender(errors, form.gender);
    errors := CheckRequired(errors, NationalId, form.national_id, NationalIdRequired);
    errors := CheckEmergencyContact(errors, form.emergency_contact);
    errors := CheckEmergencyPhone(errors, form.emergency_contact_phone_number);
  }

  /** What the form must satisfy to be submitted. */
  predicate Acceptable(form: FormData) {
    && !IsBlank(form.names) && !IsBlank(form.last_name_1) && !IsBlank(form.last_name_2)
    && !IsBlank(form.national_id)
    && form.gender != ""
    && AgeAcceptable(form.age)
    && WellFormedEmail(Trim(form.email))
    && PhoneRegex(Trim(form.phone_number))
    && (IsBlank(form.emergency_contact) || Contains(form.emergency_contact, " - "))
    && (IsBlank(form.emergency_contact_phone_number) || PhoneRegex(Trim(form.emergency_contact_phone_number)))
  }

  /** Present, numeric and greater than zero. */
  predicate AgeAcceptable(age: string) {
    age != "" && ParseNumber(age).Some? && ParseNumber(age).value > 0
  }

  /** `validateForm` reports no error exactly when the form is acceptable. */
  lemma NoErrorsIff(form: FormData)
    ensures FormErrors(form) == map[] <==> Acceptable(form)
  {
    NoErrorsByField(form);
    var ms := MessagesOf(form);
    EveryField(ms);
    assert (forall f :: FieldError(form, f).None?) <==> (forall f :: ms.Get(f).None?) by {
      assert forall f :: FieldError(form, f) == ms.Get(f);
    }
    FieldsAccepted(form);
  }

  /** None of the ten checks fires exactly when the form is acceptable. */
  lemma FieldsAccepted(form: FormData)
    ensures var ms := MessagesOf(form);
      (&& ms.names.None? && ms.lastName1.None? && ms.lastName2.None? && ms.age.None?
       && ms.email.None? && ms.phone.None? && ms.gender.None? && ms.nationalId.None?
       && ms.contact.None? && ms.contactPhone.None?)
      <==> Acceptable(form)
  {
    EmailAccepted(form);
    PhoneAccepted(form);
    TextAccepted(form);
  }

  /** No field has a message exactly when none of the ten has one. */
  lemma EveryField(ms: Messages)
    ensures (forall f :: ms.Get(f).None?) <==>
      && ms.names.None? && ms.lastName1.None? && ms.lastName2.None? && ms.age.None?
      && ms.email.None? && ms.phone.None? && ms.gender.None? && ms.nationalId.None?
      && ms.contact.None? && ms.contactPhone.None?
  {
    if ms.names.None? && ms.lastName1.None? && ms.lastName2.None? && ms.age.None?
      && ms.email.None? && ms.phone.None? && ms.gender.None? && ms.nationalId.None?
      && ms.contact.None? && ms.contactPhone.None?
    {
      forall f ensures ms.Get(f).None? {
      }
    }
    if forall f :: ms.Get(f).None? {
      assert ms.Get(Names).None? && ms.Get(LastName1).None? && ms.Get(LastName2).None?;
      assert ms.Get(Age).None? && ms.Get(Email).None? && ms.Get(PhoneNumber).None?;
      assert ms.Get(Gender).None? && ms.Get(NationalId).None?;
      assert ms.Get(EmergencyContact).None? && ms.Get(EmergencyContactPhoneNumber).None?;
    }
  }

  /** The text fields: the required ones must not be blank, gender must not be empty, the age
      must be a positive number, and a non-blank emergency contact must contain " - ". */
  lemma TextAccepted(form: FormData)
    ensures FieldError(form, Names).None? <==> !IsBlank(form.names)
    ensures FieldError(form, LastName1).None? <==> !IsBlank(form.last_name_1)
    ensures FieldError(form, LastName2).None? <==> !IsBlank(form.last_name_2)
    ensures FieldError(form, NationalId).None? <==> !IsBlank(form.national_id)
    ensures FieldError(form, Gender).None? <==> form.gender != ""
    ensures FieldError(form, Age).None? <==> AgeAcceptable(form.age)
    ensures FieldError(form, EmergencyContact).None? <==>
              (IsBlank(form.emergency_contact) || Contains(form.emergency_contact, " - "))
  {
    TrimShape(form.names);
    TrimShape(form.last_name_1);
    TrimShape(form.last_name_2);
    TrimShape(form.national_id);
    TrimShape(form.emergency_contact);
  }

  /** The age field gets at most one message: "required" when it is empty or not a number,
      "positive" when it is a number no greater than zero. */
  lemma AgeMessage(form: FormData)
    ensures Age in FormErrors(form) <==> !AgeAcceptable(form.age)
    ensures Age in FormErrors(form) ==>
              (FormErrors(form)[Age] == AgeRequired <==> form.age == "" || ParseNumber(form.age).None?)
    ensures Age in FormErrors(form) ==>
              (FormErrors(form)[Age] == AgePositive <==> form.age != "" && ParseNumber(form.age).Some?)
  {
    FormErrorsAt(form, Age);
  }

  /** Both phone fields accept, after trimming, an optional `+` and 7 to 15 digits; the
      main one is required, the emergency one may be left blank. */
  lemma PhoneAccepted(form: FormData)
    ensures FieldError(form, PhoneNumber).None? <==> PhoneRegex(Trim(form.phone_number))
    ensures FieldError(form, EmergencyContactPhoneNumber).None? <==>
              (IsBlank(form.emergency_contact_phone_number) || PhoneRegex(Trim(form.emergency_contact_phone_number)))
  {
    TrimShape(form.emergency_contact_phone_number);
    assert !PhoneRegex("");
  }

  /** The email field accepts, after trimming, exactly the well-formed addresses. */
  lemma EmailAccepted(form: FormData)
    ensures FieldError(form, Email).None? <==> WellFormedEmail(Trim(form.email))
  {
    EmailRegexIff(Trim(form.email));
    EmailRegexIff("");
  }
}
