/**
 * The participant list query of the dashboard (`getActiveFilters` and the body of
 * `fetchUsers`): which filters reach the server, the client-side age-group filter, the
 * newest-first ordering, the distinct manager ids of the listed participants and the
 * id-to-name table built from the managers' rows.
 */
module ParticipantQuery {
  import opened Wrappers
  import opened People
  import opened JsText

  /** Filter name to filter value, as the filter bar holds them. */
  type Filters = map<string, string>

  const AgeGroupKey: string := "p_age_group"
  const MinorsGroup: string := "minors"
  const AdultsGroup: string := "adults"

  /** The filter bar's initial state: all six filters empty. */
  const InitialFilters: Filters :=
    map["p_email" := "", "p_gender" := "", "p_name" := "", "p_national_id" := "",
        "p_checked_in" := "", AgeGroupKey := ""]

  /** `getActiveFilters`: the entries whose value is not the empty string, values unchanged. */
  function ActiveFilters(filters: Filters): (active: Filters)
    ensures forall k :: k in active <==> k in filters && filters[k] != ""
    ensures forall k | k in active :: active[k] == filters[k]
  {
    map k | k in filters && filters[k] != "" :: filters[k]
  }

  /** Dropping empty filters a second time drops nothing more, and a filter map without
      empty values is already active. */
  lemma ActiveFiltersIdempotent(filters: Filters)
    ensures ActiveFilters(ActiveFilters(filters)) == ActiveFilters(filters)
    ensures (forall k | k in filters :: filters[k] != "") ==> ActiveFilters(filters) == filters
  {
    assert ActiveFilters(ActiveFilters(filters)).Keys == ActiveFilters(filters).Keys;
    if forall k | k in filters :: filters[k] != "" {
      assert ActiveFilters(filters).Keys == filters.Keys;
    }
  }

  /** All of the dashboard's filters start empty, so none is active at first. */
  lemma NoInitialFilter()
    ensures ActiveFilters(InitialFilters) == map[]
  {
    assert forall k | k in InitialFilters :: InitialFilters[k] == "";
  }

  /** The filters sent to the server: everything except the age group. */
  function RpcFilters(params: Filters): (rpc: Filters)
    ensures AgeGroupKey !in rpc
    ensures forall k | k != AgeGroupKey :: (k in rpc <==> k in params)
    ensures forall k | k in rpc :: rpc[k] == params[k]
  {
    params - {AgeGroupKey}
  }

  /** The age group the list is narrowed to on the client; "" when none was given. */
  function AgeGroup(params: Filters): (group: string)
    ensures AgeGroupKey in params ==> group == params[AgeGroupKey]
    ensures AgeGroupKey !in params ==> group == ""
  {
    if AgeGroupKey in params then params[AgeGroupKey] else ""
  }

  /** The filter callback: minors are under 18, adults 18 or over, and an empty or unknown
      group keeps everyone. */
  predicate InAgeGroup(group: string, u: User) {
    if group == "" then true
    else if group == MinorsGroup then u.age < AdultAge
    else if group == AdultsGroup then u.age >= AdultAge
    else true
  }

  /** `data.filter(...)` with the age-group callback. */
  function FilterByAge(users: seq<User>, group: string): (kept: seq<User>)
    ensures |kept| <= |users|
  {
    if users == [] then []
    else if InAgeGroup(group, users[0]) then [users[0]] + FilterByAge(users[1..], group)
    else FilterByAge(users[1..], group)
  }

  /** The filter keeps every copy of a user in the group and no copy of one outside it. */
  lemma {:induction false} FilterByAgeCounts(users: seq<User>, group: string, u: User)
    ensures multiset(FilterByAge(users, group))[u] ==
              if InAgeGroup(group, u) then multiset(users)[u] else 0
  {
    if users != [] {
      FilterByAgeCounts(users[1..], group, u);
      assert users == [users[0]] + users[1..];
    }
  }

  /** The filter keeps exactly the users in the group. */
  lemma FilterByAgeMembers(users: seq<User>, group: string)
    ensures forall u :: u in FilterByAge(users, group) <==> u in users && InAgeGroup(group, u)
  {
    forall u ensures u in FilterByAge(users, group) <==> u in users && InAgeGroup(group, u) {
      FilterByAgeCounts(users, group, u);
    }
  }

  /** The filter applied to a list with one more entry in front. */
  lemma FilterByAgeCons(x: User, s: seq<User>, group: string)
    ensures FilterByAge([x] + s, group) ==
              (if InAgeGroup(group, x) then [x] else []) + FilterByAge(s, group)
  {
    assert ([x] + s)[0] == x && ([x] + s)[1..] == s;
  }

  /** The filter keeps the server's order: picking the entries created at instant `t`
      before or after filtering gives the same list. */
  lemma {:induction false} FilterByAgeCreatedAt(s: seq<User>, group: string, t: int)
    ensures CreatedAt(FilterByAge(s, group), t) == FilterByAge(CreatedAt(s, t), group)
  {
    if s != [] {
      var x, r := s[0], s[1..];
      FilterByAgeCreatedAt(r, group, t);
      assert CreatedAt(s, t) == (if x.created_at == t then [x] else []) + CreatedAt(r, t);
      if InAgeGroup(group, x) {
        CreatedAtCons(x, FilterByAge(r, group), t);
      }
      if x.created_at == t {
        FilterByAgeCons(x, CreatedAt(r, t), group);
      } else {
        assert CreatedAt(s, t) == CreatedAt(r, t);
      }
    }
  }

  /** The three age groups: exactly the minors, exactly the adults, or the whole list. */
  lemma {:induction false} AgeGroupExact(users: seq<User>, group: string)
    ensures group == MinorsGroup ==>
              forall u :: u in FilterByAge(users, group) <==> u in users && u.age < 18
    ensures group == AdultsGroup ==>
              forall u :: u in FilterByAge(users, group) <==> u in users && u.age >= 18
    ensures group != MinorsGroup && group != AdultsGroup ==> FilterByAge(users, group) == users
  {
    FilterByAgeMembers(users, group);
    if users != [] {
      AgeGroupExact(users[1..], group);
      assert users == [users[0]] + users[1..];
    }
  }

  /** Newest first: creation times never increase along the list. */
  predicate NewestFirst(s: seq<User>) {
    forall i, j | 0 <= i < j < |s| :: s[i].created_at >= s[j].created_at
  }

  /** Places `u` before the first entry that is not newer than it. */
  function Insert(u: User, s: seq<User>): (r: seq<User>)
    ensures multiset(r) == multiset(s) + multiset{u}
  {
    if s == [] || s[0].created_at <= u.created_at then
      [u] + s
    else
      assert s == [s[0]] + s[1..];
      [s[0]] + Insert(u, s[1..])
  }

  /** Inserting into a newest-first list keeps it newest first. */
  lemma {:induction false} InsertNewestFirst(u: User, s: seq<User>)
    requires NewestFirst(s)
    ensures NewestFirst(Insert(u, s))
  {
    if s == [] || s[0].created_at <= u.created_at {
      ConsNewestFirst(u, s);
    } else {
      InsertNewestFirst(u, s[1..]);
      forall x | x in Insert(u, s[1..]) ensures x.created_at <= s[0].created_at {
        assert x in multiset(Insert(u, s[1..]));
        if x != u {
          assert x in s[1..];
        }
      }
      ConsNewestFirst(s[0], Insert(u, s[1..]));
    }
  }

  /** A newest-first list stays newest first behind an entry no older than any of it. */
  lemma ConsNewestFirst(h: User, rest: seq<User>)
    requires NewestFirst(rest)
    requires forall x | x in rest :: x.created_at <= h.created_at
    ensures NewestFirst([h] + rest)
  {
    var r := [h] + rest;
    forall i, j | 0 <= i < j < |r| ensures r[i].created_at >= r[j].created_at {
      if i > 0 {
        assert r[i] == rest[i - 1] && r[j] == rest[j - 1];
      } else {
        assert r[j] in rest;
      }
    }
  }

  /** The `sort` call with the comparator `b.created_at - a.created_at`. */
  function SortNewestFirst(users: seq<User>): seq<User> {
    if users == [] then [] else Insert(users[0], SortNewestFirst(users[1..]))
  }

  /** The sort returns the same users, newest first. */
  lemma SortNewestFirstSpec(users: seq<User>)
    ensures NewestFirst(SortNewestFirst(users))
    ensures multiset(SortNewestFirst(users)) == multiset(users)
  {
    SortNewestFirstSorted(users);
    SortNewestFirstPermutes(users);
  }

  /** The sort puts the newest first. */
  lemma {:induction false} SortNewestFirstSorted(users: seq<User>)
    ensures NewestFirst(SortNewestFirst(users))
  {
    if users != [] {
      SortNewestFirstSorted(users[1..]);
      InsertNewestFirst(users[0], SortNewestFirst(users[1..]));
    }
  }

  /** The sort neither adds nor drops anyone. */
  lemma {:induction false} SortNewestFirstPermutes(users: seq<User>)
    ensures multiset(SortNewestFirst(users)) == multiset(users)
  {
    if users != [] {
      SortNewestFirstPermutes(users[1..]);
      assert users == [users[0]] + users[1..];
    }
  }

  /** The entries of `s` created at instant `t`, in their order in `s`. */
  function CreatedAt(s: seq<User>, t: int): seq<User> {
    if s == [] then []
    else (if s[0].created_at == t then [s[0]] else []) + CreatedAt(s[1..], t)
  }

  /** Inserting `u` puts it in front of everything created at the same instant. */
  lemma {:induction false} InsertStable(u: User, s: seq<User>, t: int)
    ensures CreatedAt(Insert(u, s), t) == (if u.created_at == t then [u] else []) + CreatedAt(s, t)
  {
    if s == [] || s[0].created_at <= u.created_at {
      CreatedAtCons(u, s, t);
    } else {
      var rest := Insert(u, s[1..]);
      InsertStable(u, s[1..], t);
      CreatedAtCons(s[0], rest, t);
      assert s == [s[0]] + s[1..];
      CreatedAtCons(s[0], s[1..], t);
      if u.created_at == t {
        assert s[0].created_at != t;
      }
    }
  }

  /** `CreatedAt` of a list with one more entry in front. */
  lemma CreatedAtCons(x: User, s: seq<User>, t: int)
    ensures CreatedAt([x] + s, t) == (if x.created_at == t then [x] else []) + CreatedAt(s, t)
  {
    assert ([x] + s)[1..] == s;
  }

  /** The sort is stable: entries with the same creation time keep their relative order. */
  lemma {:induction false} SortStable(users: seq<User>, t: int)
    ensures CreatedAt(SortNewestFirst(users), t) == CreatedAt(users, t)
  {
    if users != [] {
      SortStable(users[1..], t);
      InsertStable(users[0], SortNewestFirst(users[1..]), t);
    }
  }

  /** A list that is already newest first comes back unchanged. */
  lemma {:induction false} SortSorted(users: seq<User>)
    requires NewestFirst(users)
    ensures SortNewestFirst(users) == users
  {
    if users != [] {
      SortSorted(users[1..]);
      var rest := users[1..];
      assert rest == [] || rest[0].created_at <= users[0].created_at;
      assert [users[0]] + rest == users;
    }
  }

  /** Some user of `users` names `id` as their manager. */
  predicate Manages(users: seq<User>, id: string) {
    exists i | 0 <= i < |users| :: users[i].manager_id == Some(id)
  }

  /** The `manager_id`s of `users` that are non-empty strings, in order, repeats kept. */
  function ManagerIdList(users: seq<User>): seq<string> {
    if users == [] then []
    else
      match users[0].manager_id
      case Some(id) => if |id| > 0 then [id] + ManagerIdList(users[1..]) else ManagerIdList(users[1..])
      case None => ManagerIdList(users[1..])
  }

  /** The list holds exactly the non-empty manager ids. */
  lemma {:induction false} ManagerIdListMembers(users: seq<User>)
    ensures forall id :: id in ManagerIdList(users) <==> id != "" && Manages(users, id)
  {
    if users != [] {
      ManagerIdListMembers(users[1..]);
      forall id ensures Manages(users, id) <==> users[0].manager_id == Some(id) || Manages(users[1..], id) {
        if Manages(users, id) {
          var i :| 0 <= i < |users| && users[i].manager_id == Some(id);
          if i > 0 {
            assert users[1..][i - 1].manager_id == Some(id);
          }
        }
        if Manages(users[1..], id) {
          var i :| 0 <= i < |users[1..]| && users[1..][i].manager_id == Some(id);
          assert users[i + 1].manager_id == Some(id);
        }
      }
    }
  }

  predicate NoDuplicates(s: seq<string>) {
    forall i, j | 0 <= i < j < |s| :: s[i] != s[j]
  }

  /** `[...new Set(ids)]`: each id once, at the place of its first occurrence. */
  function Distinct(ids: seq<string>): seq<string> {
    if ids == [] then []
    else
      var d := Distinct(ids[..|ids| - 1]);
      if ids[|ids| - 1] in d then d else d + [ids[|ids| - 1]]
  }

  /** The set keeps every id and repeats none. */
  lemma {:induction false} DistinctSpec(ids: seq<string>)
    ensures forall x :: x in Distinct(ids) <==> x in ids
    ensures NoDuplicates(Distinct(ids))
  {
    if ids != [] {
      var front := ids[..|ids| - 1];
      DistinctSpec(front);
      assert ids == front + [ids[|ids| - 1]];
    }
  }

  /** A list without repeats passes through the set unchanged, order included. */
  lemma {:induction false} DistinctOfDistinct(ids: seq<string>)
    requires NoDuplicates(ids)
    ensures Distinct(ids) == ids
  {
    if ids != [] {
      var front := ids[..|ids| - 1];
      assert NoDuplicates(front);
      DistinctOfDistinct(front);
      assert ids[|ids| - 1] !in front;
      assert front + [ids[|ids| - 1]] == ids;
    }
  }

  /** The manager ids looked up for a listed page of participants. */
  function ManagerIds(users: seq<User>): seq<string> {
    Distinct(ManagerIdList(users))
  }

  /** The ids are distinct, each is a non-empty manager id of some listed user, and every
      such id is there. */
  lemma ManagerIdsSpec(users: seq<User>)
    ensures NoDuplicates(ManagerIds(users))
    ensures forall id :: id in ManagerIds(users) <==> id != "" && Manages(users, id)
  {
    DistinctSpec(ManagerIdList(users));
    ManagerIdListMembers(users);
  }

  /** A manager's row as the name lookup returns it; any of the names may be null. */
  datatype ManagerRow = ManagerRow(
    id: string, names: Option<string>, last_name_1: Option<string>, last_name_2: Option<string>)

  /** `x ?? ''`. */
  function OrEmpty(x: Option<string>): string {
    if x.Some? then x.value else ""
  }

  /** The three names joined by single spaces, then trimmed. */
  function FullName(m: ManagerRow): (name: string)
    ensures Trimmed(name)
  {
    TrimShape(OrEmpty(m.names) + " " + OrEmpty(m.last_name_1) + " " + OrEmpty(m.last_name_2));
    Trim(OrEmpty(m.names) + " " + OrEmpty(m.last_name_1) + " " + OrEmpty(m.last_name_2))
  }

  /** Names that are present and neither start nor end with whitespace are shown as written,
      joined by single spaces. */
  lemma FullNameOfClean(m: ManagerRow, n: string, l1: string, l2: string)
    requires m.names == Some(n) && m.last_name_1 == Some(l1) && m.last_name_2 == Some(l2)
    requires n != [] && !IsWhitespace(n[0])
    requires l2 != [] && !IsWhitespace(l2[|l2| - 1])
    ensures FullName(m) == n + " " + l1 + " " + l2
  {
    var s := n + " " + l1 + " " + l2;
    assert s[0] == n[0];
    assert s[|s| - 1] == l2[|l2| - 1];
    TrimOfSolidEnds(s);
  }

  /** Some row of `rows` carries `id`. */
  predicate Carries(rows: seq<ManagerRow>, id: string) {
    exists i | 0 <= i < |rows| :: rows[i].id == id
  }

  /** `managers.forEach(...)` filling the id-to-name table; a later row for the same id
      overwrites an earlier one. */
  function NameMapping(rows: seq<ManagerRow>): map<string, string> {
    if rows == [] then map[]
    else NameMapping(rows[..|rows| - 1])[rows[|rows| - 1].id := FullName(rows[|rows| - 1])]
  }

  /** The table has an entry for exactly the ids of the rows. */
  lemma {:induction false} NameMappingKeys(rows: seq<ManagerRow>)
    ensures forall id :: id in NameMapping(rows) <==> Carries(rows, id)
  {
    if rows != [] {
      var front := rows[..|rows| - 1];
      NameMappingKeys(front);
      forall id ensures Carries(rows, id) <==> rows[|rows| - 1].id == id || Carries(front, id) {
        if Carries(rows, id) {
          var i :| 0 <= i < |rows| && rows[i].id == id;
          if i < |front| {
            assert front[i].id == id;
          }
        }
        if Carries(front, id) {
          var i :| 0 <= i < |front| && front[i].id == id;
          assert rows[i].id == id;
        }
      }
    }
  }

  /** Each id maps to the name built from the last row that carries it. */
  lemma {:induction false} NameMappingLast(rows: seq<ManagerRow>, i: int)
    requires 0 <= i < |rows|
    requires forall j | i < j < |rows| :: rows[j].id != rows[i].id
    ensures rows[i].id in NameMapping(rows)
    ensures NameMapping(rows)[rows[i].id] == FullName(rows[i])
  {
    if i < |rows| - 1 {
      var front := rows[..|rows| - 1];
      assert front[i] == rows[i];
      NameMappingLast(front, i);
    }
  }

  /** What `getAllPeople` produced: rows, something that is not an array, or a thrown
      error (the procedure reported a failure or the call itself failed). */
  datatype PeopleOutcome = PeopleRows(rows: seq<User>) | NotAList | PeopleFailed

  /** What the managers' name lookup produced: rows, or an error (or something that is not
      an array). */
  datatype ManagersOutcome = ManagerRows(rows: seq<ManagerRow>) | ManagersFailed

  const FetchFailed: string := "Failed to fetch users"

  /** The age-filtered rows; nothing when the answer was not an array. */
  function Listed(people: PeopleOutcome, group: string): seq<User> {
    if people.PeopleRows? then FilterByAge(people.rows, group) else []
  }

  /** The roster after a fetch with `params`: unchanged when the fetch threw, otherwise the
      age-filtered rows, newest first. */
  function ListAfterFetch(current: seq<User>, params: Filters, people: PeopleOutcome): seq<User> {
    if people.PeopleFailed? then current else SortNewestFirst(Listed(people, AgeGroup(params)))
  }

  /** The manager ids looked up after a fetch; none when the fetch threw. */
  function LookedUp(params: Filters, people: PeopleOutcome): seq<string> {
    if people.PeopleFailed? then [] else ManagerIds(Listed(people, AgeGroup(params)))
  }

  /** The id-to-name table after a fetch: unchanged when the fetch threw, empty when no id
      was looked up or the lookup failed, and otherwise built from the returned rows. */
  function NamesAfterFetch(current: map<string, string>, params: Filters, people: PeopleOutcome,
                           managers: ManagersOutcome): map<string, string>
  {
    if people.PeopleFailed? then current
    else if LookedUp(params, people) != [] && managers.ManagerRows? then NameMapping(managers.rows)
    else map[]
  }

  /** A fetch that throws changes neither the roster nor the names, and looks nothing up;
      an answer that is not an array empties both. */
  lemma FetchFailures(current: seq<User>, names: map<string, string>, params: Filters,
                      managers: ManagersOutcome)
    ensures ListAfterFetch(current, params, PeopleFailed) == current
    ensures NamesAfterFetch(names, params, PeopleFailed, managers) == names
    ensures LookedUp(params, PeopleFailed) == []
    ensures ListAfterFetch(current, params, NotAList) == []
    ensures LookedUp(params, NotAList) == [] && NamesAfterFetch(names, params, NotAList, managers) == map[]
  {
  }

  /** For a successful fetch the roster holds exactly the rows in the age group, each as
      often as the answer held it, newest first, with equal creation times in the order
      the server sent them. */
  lemma FetchedRoster(current: seq<User>, params: Filters, rows: seq<User>, u: User, t: int)
    ensures NewestFirst(ListAfterFetch(current, params, PeopleRows(rows)))
    ensures multiset(ListAfterFetch(current, params, PeopleRows(rows)))[u] ==
              if InAgeGroup(AgeGroup(params), u) then multiset(rows)[u] else 0
    ensures CreatedAt(ListAfterFetch(current, params, PeopleRows(rows)), t) ==
              FilterByAge(CreatedAt(rows, t), AgeGroup(params))
  {
    FilterByAgeCounts(rows, AgeGroup(params), u);
    SortNewestFirstSpec(FilterByAge(rows, AgeGroup(params)));
    SortStable(FilterByAge(rows, AgeGroup(params)), t);
    FilterByAgeCreatedAt(rows, AgeGroup(params), t);
  }

  /** The ids looked up after a successful fetch are the distinct non-empty manager ids of
      the rows in the age group, and the names table then holds exactly the ids of the
      returned manager rows. */
  lemma FetchedManagers(names: map<string, string>, params: Filters, rows: seq<User>,
                        mrows: seq<ManagerRow>, id: string)
    ensures NoDuplicates(LookedUp(params, PeopleRows(rows)))
    ensures id in LookedUp(params, PeopleRows(rows)) <==>
              id != "" && exists u | u in rows :: InAgeGroup(AgeGroup(params), u) && u.manager_id == Some(id)
    ensures LookedUp(params, PeopleRows(rows)) != [] ==>
              (id in NamesAfterFetch(names, params, PeopleRows(rows), ManagerRows(mrows)) <==> Carries(mrows, id))
    ensures LookedUp(params, PeopleRows(rows)) == [] ==>
              NamesAfterFetch(names, params, PeopleRows(rows), ManagerRows(mrows)) == map[]
  {
    var kept := FilterByAge(rows, AgeGroup(params));
    ManagerIdsSpec(kept);
    FilterByAgeMembers(rows, AgeGroup(params));
    NameMappingKeys(mrows);
    if Manages(kept, id) {
      var i :| 0 <= i < |kept| && kept[i].manager_id == Some(id);
      assert kept[i] in kept;
    }
    if exists u | u in rows :: InAgeGroup(AgeGroup(params), u) && u.manager_id == Some(id) {
      var u :| u in rows && InAgeGroup(AgeGroup(params), u) && u.manager_id == Some(id);
      assert u in kept;
      var i :| 0 <= i < |kept| && kept[i] == u;
    }
  }
}
