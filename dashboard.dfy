/**
 * The administrator's dashboard page as a state machine: its state variables are the fields
 * of `DashboardPage`, and each handler is a method that updates them. The remote procedures
 * (`get_all_people`, `update_person`, `add_person`) and the managers' name lookup are not
 * called: their outcomes are parameters, and the arguments a handler would send are its
 * results.
 */
module Dashboard {
  import opened Wrappers
  import opened People
  import opened FormValidation
  import opened ParticipantQuery
  import opened Roster
  import opened Submission

  /** How an `update_person` or `add_person` call ended: success, an error result, or an
      exception. */
  datatype CallOutcome = Succeeded | ReturnedError | Threw

  /** The call `handleSubmit` makes once the form validates. */
  datatype SubmitRequest = UpdateRequest(update: UpdatePayload) | AddRequest(add: AddPayload)

  const UpdateFailed: string := "Failed to update participant. Please try again."
  const AddFailed: string := "Failed to add participant. Please try again."
  const Unexpected: string := "Unexpected error. Please try again."

  class DashboardPage {
    var users: seq<User>
    var loading: bool
    var error: string
    var filters: Filters
    var isModalOpen: bool
    var formData: FormData
    var formErrors: map<Field, string>
    var formSubmitError: string
    var isSubmitting: bool
    var checkoutError: Option<string>
    var isRefreshing: bool
    var isEditing: bool
    var editingUser: Option<User>
    var isDeleting: bool
    var managerNames: map<string, string>
    var isDeleteConfirmOpen: bool

    /** The page's initial state: an empty roster still loading, no filter, an empty form
        and the modal closed. */
    constructor ()
      ensures users == [] && loading && error == ""
      ensures filters == InitialFilters
      ensures !isModalOpen && formData == InitialForm && formErrors == map[]
      ensures formSubmitError == "" && !isSubmitting && checkoutError == None
      ensures !isRefreshing && !isEditing && editingUser == None && !isDeleting
      ensures managerNames == map[] && !isDeleteConfirmOpen
    {
      users := [];
      loading := true;
      error := "";
      filters := InitialFilters;
      isModalOpen := false;
      formData := InitialForm;
      formErrors := map[];
      formSubmitError := "";
      isSubmitting := false;
      checkoutError := None;
      isRefreshing := false;
      isEditing := false;
      editingUser := None;
      isDeleting := false;
      managerNames := map[];
      isDeleteConfirmOpen := false;
    }

    /** `fetchUsers(params, { silent })`. Returns the filters sent to `get_all_people` and the
        manager ids looked up (none when nothing was looked up). A thrown fetch records
        "Failed to fetch users" and leaves the roster and the names as they were; either way
        the spinner that was turned on is off again at the end. */
    method FetchUsers(params: Filters, silent: bool, people: PeopleOutcome, managers: ManagersOutcome)
      returns (sent: Filters, lookedUp: seq<string>)
      modifies this`users, this`managerNames, this`error, this`loading, this`isRefreshing
      ensures sent == RpcFilters(params)
      ensures lookedUp == LookedUp(params, people)
      ensures users == ListAfterFetch(old(users), params, people)
      ensures managerNames == NamesAfterFetch(old(managerNames), params, people, managers)
      ensures error == if people.PeopleFailed? then FetchFailed else old(error)
      ensures silent ==> !isRefreshing && loading == old(loading)
      ensures !silent ==> !loading && isRefreshing == old(isRefreshing)
    {
      if silent {
        isRefreshing := true;
      } else {
        loading := true;
      }
      sent := RpcFilters(params);
      lookedUp := [];
      if people.PeopleFailed? {
        error := FetchFailed;
      } else {
        lookedUp := ShowRows(Listed(people, AgeGroup(params)), managers);
      }
      if silent {
        isRefreshing := false;
      } else {
        loading := false;
      }
    }

    /** The successful part of `fetchUsers`: shows the rows newest first and, when any
        listed participant has a manager, looks the managers' names up. */
    method ShowRows(kept: seq<User>, managers: ManagersOutcome) returns (lookedUp: seq<string>)
      modifies this`users, this`managerNames
      ensures users == SortNewestFirst(kept)
      ensures lookedUp == ManagerIds(kept)
      ensures managerNames == if lookedUp != [] && managers.ManagerRows? then NameMapping(managers.rows) else map[]
    {
      users := SortNewestFirst(kept);
      lookedUp := ManagerIds(kept);
      if |lookedUp| > 0 {
        if managers.ManagerRows? {
          managerNames := NameMapping(managers.rows);
        } else {
          managerNames := map[];
        }
      } else {
        managerNames := map[];
      }
    }

    /** `handleFilterChange`: stores the new value and refetches quietly with the non-empty
        filters. */
    method HandleFilterChange(key: string, value: string, people: PeopleOutcome, managers: ManagersOutcome)
      returns (sent: Filters)
      modifies this`filters, this`users, this`managerNames, this`error, this`loading, this`isRefreshing
      ensures filters == old(filters)[key := value]
      ensures sent == RpcFilters(ActiveFilters(filters))
      ensures users == ListAfterFetch(old(users), ActiveFilters(filters), people)
      ensures managerNames == NamesAfterFetch(old(managerNames), ActiveFilters(filters), people, managers)
      ensures error == if people.PeopleFailed? then FetchFailed else old(error)
      ensures !isRefreshing && loading == old(loading)
    {
      filters := filters[key := value];
      var ids;
      sent, ids := FetchUsers(ActiveFilters(filters), true, people, managers);
    }

    /** `handleCheckInUpdate`: sends the record with the new check-in flag; on success only
        that record's flag changes, otherwise the roster is refetched quietly. */
    method CheckInUpdate(user: User, checkedIn: bool, outcome: CallOutcome,
                         people: PeopleOutcome, managers: ManagersOutcome)
      returns (sent: UpdatePayload)
      modifies this`users, this`managerNames, this`error, this`loading, this`isRefreshing
      ensures sent == CheckInPayload(user, checkedIn)
      ensures outcome.Succeeded? ==> users == SetCheckedIn(old(users), user.id, checkedIn)
      ensures outcome.Succeeded? ==> managerNames == old(managerNames) && error == old(error)
      ensures !outcome.Succeeded? ==> users == ListAfterFetch(old(users), ActiveFilters(filters), people)
      ensures !outcome.Succeeded? ==>
                managerNames == NamesAfterFetch(old(managerNames), ActiveFilters(filters), people, managers)
      ensures !outcome.Succeeded? ==> error == if people.PeopleFailed? then FetchFailed else old(error)
      ensures loading == old(loading)
      ensures outcome.Succeeded? ==> isRefreshing == old(isRefreshing)
      ensures !outcome.Succeeded? ==> !isRefreshing
    {
      sent := CheckInPayload(user, checkedIn);
      if outcome.Succeeded? {
        users := SetCheckedIn(users, user.id, checkedIn);
      } else {
        var _, _ := FetchUsers(ActiveFilters(filters), true, people, managers);
      }
    }

    /** `handleCheckOutUpdate`: clears the previous check-out error; refuses, with a message
        and without any call, to check out someone who is not checked in; otherwise sends the
        record with the new check-out flag and on success changes only that record's flag,
        and on failure refetches the roster with the spinner. */
    method CheckOutUpdate(user: User, checkedOut: bool, outcome: CallOutcome,
                          people: PeopleOutcome, managers: ManagersOutcome)
      returns (sent: Option<UpdatePayload>)
      modifies this`checkoutError, this`users, this`managerNames, this`error, this`loading,
               this`isRefreshing
      ensures CheckOutRefused(user, checkedOut) ==>
                && sent == None && checkoutError == Some(CheckOutRefusal(user))
                && users == old(users) && managerNames == old(managerNames) && error == old(error)
                && loading == old(loading)
      ensures !CheckOutRefused(user, checkedOut) ==>
                sent == Some(CheckOutPayload(user, checkedOut)) && checkoutError == None
      ensures !CheckOutRefused(user, checkedOut) && outcome.Succeeded? ==>
                && users == SetCheckedOut(old(users), user.id, checkedOut)
                && managerNames == old(managerNames) && error == old(error) && loading == old(loading)
      ensures !CheckOutRefused(user, checkedOut) && !outcome.Succeeded? ==>
                && users == ListAfterFetch(old(users), ActiveFilters(filters), people)
                && managerNames == NamesAfterFetch(old(managerNames), ActiveFilters(filters), people, managers)
                && error == (if people.PeopleFailed? then FetchFailed else old(error))
                && !loading
      ensures isRefreshing == old(isRefreshing)
    {
      checkoutError := None;
      if CheckOutRefused(user, checkedOut) {
        checkoutError := Some(CheckOutRefusal(user));
        sent := None;
        return;
      }
      sent := Some(CheckOutPayload(user, checkedOut));
      if outcome.Succeeded? {
        users := SetCheckedOut(users, user.id, checkedOut);
      } else {
        var _, _ := FetchUsers(ActiveFilters(filters), false, people, managers);
      }
    }

    /** `handleInputChange`: sets one field of the form and drops that field's error if it
        has a non-empty one; every other field and error stays. */
    method HandleInputChange(f: Field, value: string)
      modifies this`formData, this`formErrors
      ensures formData == old(formData).With(f, value)
      ensures formErrors == if f in old(formErrors) && old(formErrors)[f] != "" then old(formErrors) - {f}
                            else old(formErrors)
    {
      formData := formData.With(f, value);
      if f in formErrors && formErrors[f] != "" {
        formErrors := formErrors - {f};
      }
    }

    /** `validateForm`: computes and stores the error map of the current form. */
    method ValidateForm() returns (errors: map<Field, string>)
      modifies this`formErrors
      ensures errors == FormErrors(formData) && formErrors == errors
    {
      errors := CollectErrors(formData);
      formErrors := errors;
    }

    /** `resetForm`. */
    method ResetForm()
      modifies this`formData, this`formErrors, this`formSubmitError
      ensures formData == InitialForm && formErrors == map[] && formSubmitError == ""
    {
      formData := InitialForm;
      formErrors := map[];
      formSubmitError := "";
    }

    /** `closeModal`: closes the modal, empties the form and leaves editing mode. */
    method CloseModal()
      modifies this`isModalOpen, this`formData, this`formErrors, this`formSubmitError,
               this`isSubmitting, this`isDeleting, this`isDeleteConfirmOpen, this`isEditing,
               this`editingUser
      ensures !isModalOpen && formData == InitialForm && formErrors == map[] && formSubmitError == ""
      ensures !isSubmitting && !isDeleting && !isDeleteConfirmOpen && !isEditing && editingUser == None
    {
      isModalOpen := false;
      ResetForm();
      formSubmitError := "";
      isSubmitting := false;
      isDeleting := false;
      isDeleteConfirmOpen := false;
      isEditing := false;
      editingUser := None;
    }

    /** A click on a roster row: opens the form in editing mode, filled from the record. */
    method OpenEdit(u: User)
      modifies this`isEditing, this`editingUser, this`formData, this`isModalOpen
      ensures isEditing && editingUser == Some(u) && formData == EditFormOf(u) && isModalOpen
    {
      isEditing := true;
      editingUser := Some(u);
      formData := EditFormOf(u);
      isModalOpen := true;
    }

    /** The add button: opens the modal and nothing else. */
    method OpenAdd()
      modifies this`isModalOpen
      ensures isModalOpen
    {
      isModalOpen := true;
    }

    /** `handleSubmit` up to its remote call. A submission already in flight makes it do
        nothing. Otherwise the form is validated and the errors stored; with any error
        there is no call. With none, the submission starts and the returned request is an
        update of the record being edited or an addition. */
    method SubmitStart() returns (request: Option<SubmitRequest>)
      modifies this`formErrors, this`isSubmitting, this`formSubmitError
      ensures old(isSubmitting) ==>
                && request == None && isSubmitting
                && formErrors == old(formErrors) && formSubmitError == old(formSubmitError)
      ensures !old(isSubmitting) ==> formErrors == FormErrors(formData)
      ensures !old(isSubmitting) ==> (request.Some? <==> FormErrors(formData) == map[])
      ensures request.None? && !old(isSubmitting) ==>
                !isSubmitting && formSubmitError == old(formSubmitError)
      ensures request.Some? ==> Acceptable(formData) && isSubmitting && formSubmitError == ""
      ensures request.Some? && isEditing && editingUser.Some? ==>
                request.value == UpdateRequest(EditPayload(formData, editingUser.value))
      ensures request.Some? && !(isEditing && editingUser.Some?) ==>
                request.value == AddRequest(AddPayloadOf(formData))
    {
      if isSubmitting {
        return None;
      }
      var errors := ValidateForm();
      if |errors| > 0 {
        return None;
      }
      NoErrorsIff(formData);
      isSubmitting := true;
      formSubmitError := "";
      if isEditing && editingUser.Some? {
        request := Some(UpdateRequest(EditPayload(formData, editingUser.value)));
      } else {
        request := Some(AddRequest(AddPayloadOf(formData)));
      }
    }

    /** `handleSubmit` when its remote call returned an error or threw: a message matching
        the request, the modal left open with the form as it was, and the submission over. */
    method SubmitFailed(request: SubmitRequest, outcome: CallOutcome)
      requires !outcome.Succeeded?
      modifies this`formSubmitError, this`isSubmitting
      ensures !isSubmitting
      ensures outcome.ReturnedError? ==>
                formSubmitError == if request.UpdateRequest? then UpdateFailed else AddFailed
      ensures outcome.Threw? ==> formSubmitError == Unexpected
    {
      if outcome.ReturnedError? {
        formSubmitError := if request.UpdateRequest? then UpdateFailed else AddFailed;
      } else {
        formSubmitError := Unexpected;
      }
      isSubmitting := false;
    }

    /** `handleSubmit` when its remote call succeeded: refetches (quietly after an edit,
        with the spinner after an addition), closes the modal and ends the submission. */
    method SubmitSucceeded(request: SubmitRequest, people: PeopleOutcome, managers: ManagersOutcome)
      modifies this`formSubmitError, this`isSubmitting, this`users, this`managerNames,
               this`error, this`loading, this`isRefreshing, this`isModalOpen, this`formData,
               this`formErrors, this`isDeleting, this`isDeleteConfirmOpen, this`isEditing,
               this`editingUser
      ensures users == ListAfterFetch(old(users), ActiveFilters(filters), people)
      ensures managerNames == NamesAfterFetch(old(managerNames), ActiveFilters(filters), people, managers)
      ensures error == if people.PeopleFailed? then FetchFailed else old(error)
      ensures !isModalOpen && formData == InitialForm && formErrors == map[] && formSubmitError == ""
      ensures !isSubmitting && !isDeleting && !isDeleteConfirmOpen && !isEditing && editingUser == None
      ensures request.UpdateRequest? ==> !isRefreshing && loading == old(loading)
      ensures request.AddRequest? ==> !loading && isRefreshing == old(isRefreshing)
    {
      var _, _ := FetchUsers(ActiveFilters(filters), request.UpdateRequest?, people, managers);
      CloseModal();
    }
  }
}
