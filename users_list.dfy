/** The users view: its state fields and one method per UI event or settled API
    call. Each handler runs as one atomic step over the current state; the API
    outcome it awaited is a parameter. */
module UsersListView {
  import opened UserTypes
  import opened ListOps
  import opened Pagination

  const FetchFailedMessage := "Failed to fetch users"
  const DeleteFailedMessage := "Failed to delete user"
  const UpdateFailedMessage := "Failed to update user"
  const DeletedMessage := "User deleted successfully"
  const UpdatedMessage := "User updated successfully"

  class UsersList {
    var users: seq<User>
    var page: int
    var totalPages: int
    var loading: bool
    /** The single edit draft: at most one row is in edit mode. */
    var editing: Option<User>
    var error: string
    var success: string

    /** The page shown is always one of the known pages. */
    ghost predicate Valid()
      reads this
    {
      InRange(page, totalPages)
    }

    /** The view as first rendered: no rows, page 1 of 1, the spinner on. */
    constructor ()
      ensures Valid()
      ensures users == [] && page == 1 && totalPages == 1 && loading
      ensures editing == None && error == "" && success == ""
    {
      users := [];
      page := 1;
      totalPages := 1;
      loading := true;
      editing := None;
      error := "";
      success := "";
    }

    /** The list request for the current page settled. */
    method FetchCompleted(outcome: FetchOutcome)
      requires Valid()
      modifies this
      ensures Valid()
      ensures outcome.Fetched? ==>
        users == outcome.response.data &&
        totalPages == EstimateTotalPages(old(page), old(totalPages), outcome.response.total_pages) &&
        error == old(error)
      ensures outcome.FetchRejected? ==>
        users == old(users) && totalPages == old(totalPages) && error == FetchFailedMessage
      ensures !loading
      ensures page == old(page) && editing == old(editing) && success == old(success)
    {
      match outcome {
        case Fetched(response) =>
          users := response.data;
          totalPages := EstimateTotalPages(page, totalPages, response.total_pages);
        case FetchRejected =>
          error := FetchFailedMessage;
      }
      loading := false;
    }

    /** The delete button of the row with id `id`: ask for confirmation, then
        drop the user's rows once the request settles without rejection. */
    method Delete(id: int, confirmed: bool, outcome: Settled)
      requires Valid()
      modifies this
      ensures Valid()
      ensures !confirmed ==>
        users == old(users) && error == old(error) && success == old(success)
      ensures confirmed && outcome.Resolved? ==>
        users == RemoveById(old(users), id) && success == DeletedMessage && error == old(error)
      ensures confirmed && outcome.Rejected? ==>
        users == old(users) && error == DeleteFailedMessage && success == old(success)
      ensures page == old(page) && totalPages == old(totalPages)
      ensures loading == old(loading) && editing == old(editing)
    {
      if confirmed {
        match outcome
        case Resolved =>
          users := RemoveById(users, id);
          success := DeletedMessage;
        case Rejected =>
          error := DeleteFailedMessage;
      }
    }

    /** The edit button of the row at `row`: the draft becomes a copy of it. */
    method StartEdit(row: nat)
      requires Valid() && row < |users|
      modifies this
      ensures Valid()
      ensures editing == Some(old(users)[row])
      ensures users == old(users) && page == old(page) && totalPages == old(totalPages)
      ensures loading == old(loading) && error == old(error) && success == old(success)
    {
      editing := Some(users[row]);
    }

    /** Typing into one input of the row in edit mode. */
    method EditField(f: Field, text: string)
      requires Valid() && editing.Some?
      modifies this
      ensures Valid()
      ensures editing == Some(SetField(old(editing).value, f, text))
      ensures users == old(users) && page == old(page) && totalPages == old(totalPages)
      ensures loading == old(loading) && error == old(error) && success == old(success)
    {
      editing := Some(SetField(editing.value, f, text));
    }

    /** The cancel button: the draft is discarded, nothing is sent. */
    method Cancel()
      requires Valid()
      modifies this
      ensures Valid()
      ensures editing == None
      ensures users == old(users) && page == old(page) && totalPages == old(totalPages)
      ensures loading == old(loading) && error == old(error) && success == old(success)
    {
      editing := None;
    }

    /** The save button: the update request for the draft settled. The draft
        replaces its row and is cleared only when the request did not reject. */
    method Save(outcome: Settled)
      requires Valid() && editing.Some?
      modifies this
      ensures Valid()
      ensures outcome.Resolved? ==>
        users == ReplaceById(old(users), old(editing).value) && editing == None &&
        success == UpdatedMessage && error == old(error)
      ensures outcome.Rejected? ==>
        users == old(users) && editing == old(editing) &&
        error == UpdateFailedMessage && success == old(success)
      ensures page == old(page) && totalPages == old(totalPages) && loading == old(loading)
    {
      match outcome
      case Resolved =>
        users := ReplaceById(users, editing.value);
        editing := None;
        success := UpdatedMessage;
      case Rejected =>
        error := UpdateFailedMessage;
    }

    /** The Previous button. */
    method Previous()
      requires Valid()
      modifies this
      ensures Valid()
      ensures page == PreviousPage(old(page))
      ensures users == old(users) && totalPages == old(totalPages) && editing == old(editing)
      ensures loading == old(loading) && error == old(error) && success == old(success)
    {
      page := PreviousPage(page);
    }

    /** The Next button. */
    method Next()
      requires Valid()
      modifies this
      ensures Valid()
      ensures page == NextPage(old(page), old(totalPages))
      ensures users == old(users) && totalPages == old(totalPages) && editing == old(editing)
      ensures loading == old(loading) && error == old(error) && success == old(success)
    {
      page := NextPage(page, totalPages);
    }

    /** The 3-second timer that follows a delete or update success fired. */
    method ClearSuccess()
      requires Valid()
      modifies this
      ensures Valid()
      ensures success == ""
      ensures users == old(users) && page == old(page) && totalPages == old(totalPages)
      ensures loading == old(loading) && editing == old(editing) && error == old(error)
    {
      success := "";
    }

    /** The 3-second timer that follows a delete or update error fired. */
    method ClearError()
      requires Valid()
      modifies this
      ensures Valid()
      ensures error == ""
      ensures users == old(users) && page == old(page) && totalPages == old(totalPages)
      ensures loading == old(loading) && editing == old(editing) && success == old(success)
    {
      error := "";
    }
  }

  /** Starting to edit a row, typing into it and cancelling leaves the
      displayed rows exactly as they were and no draft behind. */
  method EditThenCancel(v: UsersList, row: nat, f: Field, text: string)
    requires v.Valid() && row < |v.users|
    modifies v
    ensures v.Valid()
    ensures v.users == old(v.users) && v.editing == None
    ensures v.page == old(v.page) && v.totalPages == old(v.totalPages) && v.loading == old(v.loading)
    ensures v.error == old(v.error) && v.success == old(v.success)
  {
    v.StartEdit(row);
    v.EditField(f, text);
    v.Cancel();
  }

  /** Starting to edit a row, typing into it and saving successfully shows the
      edited row in place of every row with its id, keeps every other row and
      the ids in order, clears edit mode and shows the success message. */
  method EditThenSave(v: UsersList, row: nat, f: Field, text: string)
    requires v.Valid() && row < |v.users|
    modifies v
    ensures v.Valid()
    ensures v.users == ReplaceById(old(v.users), SetField(old(v.users)[row], f, text))
    ensures |v.users| == |old(v.users)| && Ids(v.users) == Ids(old(v.users))
    ensures v.users[row] == SetField(old(v.users)[row], f, text)
    ensures forall i :: 0 <= i < |v.users| && old(v.users)[i].id == old(v.users)[row].id ==>
      v.users[i] == v.users[row]
    ensures forall i :: 0 <= i < |v.users| && old(v.users)[i].id != old(v.users)[row].id ==>
      v.users[i] == old(v.users)[i]
    ensures v.editing == None && v.success == UpdatedMessage && v.error == old(v.error)
    ensures v.page == old(v.page) && v.totalPages == old(v.totalPages) && v.loading == old(v.loading)
  {
    v.StartEdit(row);
    v.EditField(f, text);
    v.Save(Resolved);
  }

  /** A save that the API rejects keeps edit mode and the draft, so the user
      can retry or cancel, and leaves the displayed rows as they were. */
  method EditThenFailedSave(v: UsersList, row: nat, f: Field, text: string)
    requires v.Valid() && row < |v.users|
    modifies v
    ensures v.Valid()
    ensures v.users == old(v.users)
    ensures v.editing == Some(SetField(old(v.users)[row], f, text))
    ensures v.error == UpdateFailedMessage && v.success == old(v.success)
    ensures v.page == old(v.page) && v.totalPages == old(v.totalPages) && v.loading == old(v.loading)
  {
    v.StartEdit(row);
    v.EditField(f, text);
    v.Save(Rejected);
  }
}
