/**
 * The records kept by the in-memory store (app.js:8-11, 282, 310), the
 * errors its handlers answer with, JavaScript truthiness of request fields,
 * and the `users.find(u => u.id === id)` lookup that both the creation rules
 * and the read views use.
 */
module Entities {
  import opened Wrappers

  /** `{ id, name, email }` as built at app.js:282. */
  datatype User = User(id: int, name: string, email: string)

  /** `{ id, title, content, authorId }` as built at app.js:310. */
  datatype Post = Post(id: int, title: string, content: string, authorId: int)

  /** The error answers of the handlers, one constructor per HTTP status. */
  datatype StoreError =
    | MissingField                      // 400
    | DuplicateEmail                    // 409
    | AuthorNotFound                    // 404
    | ExternalFetchError(detail: string) // 500, `error: error.message`

  /** The HTTP status each error is answered with. */
  function Status(e: StoreError): (r: int)
    ensures 400 <= r < 600
    ensures r >= 500 <==> e.ExternalFetchError?
    ensures e.ExternalFetchError? ==> r == 500
  {
    match e
    case MissingField => 400
    case DuplicateEmail => 409
    case AuthorNotFound => 404
    case ExternalFetchError(_) => 500
  }

  /** A text field of a request body is truthy when present and not "". */
  predicate Present(f: Option<string>)
  {
    f.Some? && f.value != ""
  }

  /** A numeric field is truthy when present and not 0. */
  predicate PresentId(f: Option<int>)
  {
    f.Some? && f.value != 0
  }

  /**
   * `users.some(u => u.email === email)`, scanning from the front: true
   * exactly when some user's email equals `email` (exact, case-sensitive).
   */
  predicate EmailTaken(users: seq<User>, email: string)
    ensures EmailTaken(users, email) <==> exists i :: 0 <= i < |users| && users[i].email == email
    decreases |users|
  {
    |users| > 0 && (users[0].email == email || EmailTaken(users[1..], email))
  }

  /**
   * `users.find(u => u.id === id)`: the first user, in sequence order,
   * whose id is `id`, or None when there is none.
   */
  function FindUser(users: seq<User>, id: int): (r: Option<User>)
    ensures r.None? <==> forall i :: 0 <= i < |users| ==> users[i].id != id
    ensures r.Some? ==> r.value in users && r.value.id == id
    ensures forall i :: 0 <= i < |users| && users[i].id == id
                        && (forall k :: 0 <= k < i ==> users[k].id != id)
                        ==> r == Some(users[i])
    decreases |users|
  {
    if |users| == 0 then None
    else if users[0].id == id then Some(users[0])
    else FindUser(users[1..], id)
  }
}
