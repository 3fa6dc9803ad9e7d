/** The update rule of `PUT /users/:id` and `PUT /categories/:id`: each field
    takes the request's value when it is truthy and keeps the stored value
    otherwise (`req.body.x || row.get('x')`). */
module Updates {
  import opened Wrappers

  datatype UserRow = UserRow(id: nat, name: string, email: string)

  datatype CategoryRow = CategoryRow(id: nat, name: string)

  /** The fields a PUT request may carry; `None` is a field the body leaves out. */
  datatype UserBody = UserBody(name: Option<string>, email: Option<string>)

  datatype CategoryBody = CategoryBody(name: Option<string>)

  /** A request field is truthy when it is present and not the empty string. */
  predicate Truthy(v: Option<string>) {
    v.Some? && v.value != ""
  }

  /** `requested || stored` */
  function Fallback(requested: Option<string>, stored: string): (r: string)
    ensures Truthy(requested) ==> r == requested.value
    ensures !Truthy(requested) ==> r == stored
  {
    if requested.Some? && requested.value != "" then requested.value else stored
  }

  /** The row `user.save({name: ..., email: ...})` writes. */
  function UpdateUser(user: UserRow, body: UserBody): (r: UserRow)
    ensures r.id == user.id
    ensures r.name == Fallback(body.name, user.name) && r.email == Fallback(body.email, user.email)
  {
    user.(name := Fallback(body.name, user.name), email := Fallback(body.email, user.email))
  }

  /** The row `category.save({name: ...})` writes. */
  function UpdateCategory(category: CategoryRow, body: CategoryBody): (r: CategoryRow)
    ensures r.id == category.id && r.name == Fallback(body.name, category.name)
  {
    category.(name := Fallback(body.name, category.name))
  }

  /** A request without truthy fields leaves the row as it is. */
  lemma UpdateWithoutFieldsKeepsRow(user: UserRow, category: CategoryRow, body: UserBody, cbody: CategoryBody)
    requires !Truthy(body.name) && !Truthy(body.email) && !Truthy(cbody.name)
    ensures UpdateUser(user, body) == user
    ensures UpdateCategory(category, cbody) == category
  {
  }

  /** A truthy field wins, the other field is kept, and no field is ever emptied
      unless it was empty already. */
  lemma UpdateUserFields(user: UserRow, body: UserBody)
    ensures Truthy(body.name) ==> UpdateUser(user, body).name == body.name.value
    ensures !Truthy(body.name) ==> UpdateUser(user, body).name == user.name
    ensures Truthy(body.email) ==> UpdateUser(user, body).email == body.email.value
    ensures !Truthy(body.email) ==> UpdateUser(user, body).email == user.email
    ensures user.name != "" ==> UpdateUser(user, body).name != ""
    ensures user.email != "" ==> UpdateUser(user, body).email != ""
  {
  }

  /** Sending the same request twice has the effect of sending it once. */
  lemma UpdateIdempotent(user: UserRow, body: UserBody)
    ensures UpdateUser(UpdateUser(user, body), body) == UpdateUser(user, body)
  {
  }

  /** The later request's truthy fields on top of the earlier one's. */
  function Merge(later: UserBody, earlier: UserBody): UserBody {
    UserBody(if Truthy(later.name) then later.name else earlier.name,
             if Truthy(later.email) then later.email else earlier.email)
  }

  /** Two requests in a row act as one request holding, per field, the last truthy value sent. */
  lemma UpdatesCompose(user: UserRow, first: UserBody, second: UserBody)
    ensures UpdateUser(UpdateUser(user, first), second) == UpdateUser(user, Merge(second, first))
  {
  }
}
