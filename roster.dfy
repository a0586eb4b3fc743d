/**
 * Check-in and check-out on the dashboard's roster: the arguments of the `update_person`
 * call, the guard that refuses to check out someone who never checked in, and the local
 * rewrite of the roster once the call succeeded.
 */
module Roster {
  import opened People

  /** The arguments of the `update_person` remote procedure (its `p_` parameters). */
  datatype UpdatePayload = UpdatePayload(
    age: int,
    checked_in: bool,
    checked_out: bool,
    email: string,
    emergency_contact: string,
    emergency_contact_phone_number: string,
    has_signed: bool,
    id: string,
    last_name_1: string,
    last_name_2: string,
    names: string,
    national_id: string,
    phone_number: string
  )

  /** The record's stored values as `update_person` arguments. */
  function StoredPayload(u: User): (p: UpdatePayload)
    ensures p.id == u.id && p.age == u.age
    ensures p.checked_in == u.checked_in && p.checked_out == u.checked_out
    ensures p.has_signed == u.has_signed
    ensures p.email == u.email && p.emergency_contact == u.emergency_contact
    ensures p.emergency_contact_phone_number == u.emergency_contact_phone_number
    ensures p.last_name_1 == u.last_name_1 && p.last_name_2 == u.last_name_2
    ensures p.names == u.names && p.national_id == u.national_id
    ensures p.phone_number == u.phone_number
  {
    UpdatePayload(u.age, u.checked_in, u.checked_out, u.email, u.emergency_contact,
                  u.emergency_contact_phone_number, u.has_signed, u.id, u.last_name_1,
                  u.last_name_2, u.names, u.national_id, u.phone_number)
  }

  /** What `handleCheckInUpdate` sends: the stored record with a new check-in flag. */
  function CheckInPayload(u: User, checkedIn: bool): (p: UpdatePayload)
    ensures p.checked_in == checkedIn
    ensures p == StoredPayload(u.(checked_in := checkedIn))
  {
    StoredPayload(u).(checked_in := checkedIn)
  }

  /** What `handleCheckOutUpdate` sends: the stored record with a new check-out flag. */
  function CheckOutPayload(u: User, checkedOut: bool): (p: UpdatePayload)
    ensures p.checked_out == checkedOut
    ensures p == StoredPayload(u.(checked_out := checkedOut))
  {
    StoredPayload(u).(checked_out := checkedOut)
  }

  /** The check-out guard: checking out is refused for someone who is not checked in;
      clearing the check-out flag is always allowed. */
  predicate CheckOutRefused(u: User, checkedOut: bool) {
    checkedOut && !u.checked_in
  }

  /** The message shown when the guard refuses. */
  function CheckOutRefusal(u: User): string {
    "Cannot check out " + u.names + " " + u.last_name_1 + " - they are not checked in yet."
  }

  /** `prev.map(u => u.id === id ? { ...u, checked_in: v } : u)`. */
  function SetCheckedIn(users: seq<User>, id: string, v: bool): (r: seq<User>)
    ensures |r| == |users|
    ensures forall i | 0 <= i < |r| ::
              r[i] == if users[i].id == id then users[i].(checked_in := v) else users[i]
  {
    if users == [] then []
    else [if users[0].id == id then users[0].(checked_in := v) else users[0]]
         + SetCheckedIn(users[1..], id, v)
  }

  /** `prev.map(u => u.id === id ? { ...u, checked_out: v } : u)`. */
  function SetCheckedOut(users: seq<User>, id: string, v: bool): (r: seq<User>)
    ensures |r| == |users|
    ensures forall i | 0 <= i < |r| ::
              r[i] == if users[i].id == id then users[i].(checked_out := v) else users[i]
  {
    if users == [] then []
    else [if users[0].id == id then users[0].(checked_out := v) else users[0]]
         + SetCheckedOut(users[1..], id, v)
  }

  /** Nobody is checked out without having been checked in. */
  predicate Consistent(users: seq<User>) {
    forall i | 0 <= i < |users| :: users[i].checked_out ==> users[i].checked_in
  }

  /** Ids identify records. */
  predicate UniqueIds(users: seq<User>) {
    forall i, j | 0 <= i < j < |users| :: users[i].id != users[j].id
  }

  /** Only the record with the given id changes, and in that record only the check-out flag:
      the ids, the order and every other field stay as they were. */
  lemma SetCheckedOutFrame(users: seq<User>, id: string, v: bool, i: int)
    requires 0 <= i < |users|
    ensures SetCheckedOut(users, id, v)[i].id == users[i].id
    ensures SetCheckedOut(users, id, v)[i].checked_out == (if users[i].id == id then v else users[i].checked_out)
    ensures SetCheckedOut(users, id, v)[i].(checked_out := users[i].checked_out) == users[i]
  {
  }

  /** A check-out the guard lets through, applied to the record it was asked for, keeps a
      consistent roster consistent. */
  lemma GuardedCheckOutConsistent(users: seq<User>, k: int, v: bool)
    requires 0 <= k < |users| && UniqueIds(users) && Consistent(users)
    requires !CheckOutRefused(users[k], v)
    ensures Consistent(SetCheckedOut(users, users[k].id, v))
  {
    var r := SetCheckedOut(users, users[k].id, v);
    forall i | 0 <= i < |r| ensures r[i].checked_out ==> r[i].checked_in {
      if users[i].id == users[k].id {
        assert i == k;
      }
    }
  }

  /** Without the guard the invariant breaks: checking out someone who is not checked in
      leaves a record checked out but not in. */
  lemma UnguardedCheckOutBreaks(u: User)
    requires !u.checked_in && !u.checked_out
    ensures Consistent([u])
    ensures !Consistent(SetCheckedOut([u], u.id, true))
  {
    assert SetCheckedOut([u], u.id, true)[0].checked_out;
  }

  /** `handleCheckInUpdate` has no guard: clearing the check-in of someone already checked
      out leaves the same inconsistency. */
  lemma CheckInClearBreaks(u: User)
    requires u.checked_in && u.checked_out
    ensures Consistent([u])
    ensures !Consistent(SetCheckedIn([u], u.id, false))
  {
    assert SetCheckedIn([u], u.id, false)[0].checked_out;
  }
}
