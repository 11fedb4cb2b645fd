/** The records the users view works with: a user row, the page response of the
    list endpoint, the settled outcome of an API promise, and the editable fields
    of a draft. */
module UserTypes {

  datatype Option<T> = None | Some(value: T)

  /** One row of the users table, as the remote API returns it. */
  datatype User = User(id: int, email: string, first_name: string, last_name: string, avatar: string)

  /** The body of `GET /users?page=N`. Only `data` and `total_pages` are read by the view. */
  datatype UsersResponse = UsersResponse(page: int, per_page: int, total: int, total_pages: int, data: seq<User>)

  /** How a list request settled: the promise resolved with a response, or it rejected. */
  datatype FetchOutcome = Fetched(response: UsersResponse) | FetchRejected

  /** How an update or delete request settled. The value a resolved call
      carries is never read by the view, so only "rejected or not" is kept. */
  datatype Settled = Resolved | Rejected

  /** The three inputs of an edit draft: first name, last name and email. */
  datatype Field = FirstName | LastName | Email

  function FieldOf(u: User, f: Field): string
  {
    match f
    case FirstName => u.first_name
    case LastName => u.last_name
    case Email => u.email
  }

  /** `{ ...draft, <field>: text }`: the draft with one input replaced. */
  function SetField(u: User, f: Field, text: string): (r: User)
    ensures FieldOf(r, f) == text
    ensures forall g :: g != f ==> FieldOf(r, g) == FieldOf(u, g)
    ensures r.id == u.id && r.avatar == u.avatar
  {
    match f
    case FirstName => u.(first_name := text)
    case LastName => u.(last_name := text)
    case Email => u.(email := text)
  }
}
