# In-memory entity store of a small posts/users HTTP service

This project models the core of an Express service (`app.js`) that keeps
users and posts in two in-memory arrays with two id counters, validates and
appends new records on `POST /users` and `POST /posts`, answers `GET /users`
with the users as they are, joins posts to their authors' names on
`GET /posts`, and on `GET /posts-with-external-data` performs the same join
and attaches one title fetched from a third-party service to every entry,
failing as a whole when the fetch fails. A `resetData` helper clears the
store for test isolation.

Modules:

- `Wrappers` (wrappers.dfy): `Option` and `Result`.
- `Entities` (entities.dfy): the `User` and `Post` records, the error
  kinds (`MissingField` 400, `DuplicateEmail` 409, `AuthorNotFound` 404,
  `ExternalFetchError` 500), JavaScript truthiness of request fields
  (`Present`: absent or `""` is falsy; `PresentId`: absent or `0` is falsy),
  `EmailTaken` (`users.some`) and `FindUser` (`users.find`, first match).
- `Transitions` (transitions.dfy): the store as a value `State`, the
  creation rules and reset as functions on it, the store invariant
  `Consistent`, and a `Run` over sequences of commands with the lemmas that
  every state reached from the initial one is consistent and that each
  counter is one more than the last id handed out.
- `Views` (views.dfy): the author join and the external merge as pure
  functions; the outcome of the outbound request is a `FetchOutcome`
  parameter, and `TitleText` prints the fetched title as the template
  literal of app.js:337 does, "undefined" when the body has none.
- `App` (app.dfy): class `Store` whose four fields are the module-level
  variables of app.js:8-11; each handler is a method that updates the
  fields in place and whose answer and new state are, by its postcondition,
  those of the matching `Transitions` function.
- `Properties` (properties.dfy): the join in a consistent store shows each
  post's real author; a dangling author shows as "Unknown"; the scenario of
  test.js:60-77, its two records reached through CreateUser and CreatePost
  instead of being pushed into the arrays.

Points of app.js worth knowing: it has no raw post listing (`GET /posts`
is the join); `authorId` is rejected as missing for any falsy value,
including `0`; names, emails, titles and contents are checked only for
truthiness, so a one-space name is accepted; a successful external response
whose JSON body is `null` makes the merge throw only when there is a post to
merge, so with no posts the answer is an empty list.

## Model

| member | source | states |
|---|---|---|
| Entities.Status | app.js:274-342 | the three validation errors get 4xx statuses, the external failure 500 |
| Entities.EmailTaken | app.js:278 | `users.some` on emails: true exactly when some user's email equals the given one, case-sensitively |
| Entities.FindUser | app.js:290 | None exactly when no user has the id; otherwise the user at the first index whose id matches, as `Array.prototype.find` returns |
| Transitions.CreateUser | app.js:271-285 | succeeds iff name and email are both present and no user has that email; MissingField iff name or email is absent or empty; DuplicateEmail iff both are present and some user has exactly that email; either error leaves the state unchanged; on success the user `{id: old counter, name, email}` is appended last, the user counter grows by one, posts and the post counter are untouched |
| Transitions.CreatePost | app.js:299-313 | succeeds iff title, content and authorId are truthy and some user has that id; MissingField iff title, content or authorId is falsy; AuthorNotFound iff they are all truthy and no user has that id; either error leaves the state unchanged; on success `{id: old post counter, title, content, authorId}` is appended last, the post counter grows by one, users untouched |
| Transitions.CreateUserKeepsConsistent | app.js:277-283 | creating a user keeps emails pairwise distinct, user ids strictly increasing and below the counter, and every post's author existing |
| Transitions.CreatePostKeepsConsistent | app.js:301-311 | creating a post keeps post ids strictly increasing and below the counter and every post's author an existing user |
| Transitions.StepKeepsConsistent | app.js:271-362 | any single create or reset keeps the store invariant |
| Transitions.RunKeepsConsistent | app.js:271-362 | any sequence of creates and resets from a consistent state ends in a consistent state |
| Transitions.ReachableIsConsistent | app.js:8-11 | every state reached from the initial store through the operations is consistent |
| Transitions.RunKeepsCountersFollowLast | app.js:282-362 | operations keep each counter equal to the last id handed out plus one, or 1 when its sequence is empty |
| Transitions.NextIdsFollowPrevious | app.js:282-311 | in a reached state a created user's (post's) id is one greater than the last user's (post's) id, or 1 when there is none |
| Transitions.ResetRestartsIds | app.js:357-362 | after reset both sequences are empty and the next user gets id 1, and a post by that user gets id 1 |
| Transitions.SameEmailTwice | app.js:278-280 | a second user with an email just registered is DuplicateEmail and the state is the one after the first creation |
| Views.AuthorName | app.js:290-293 | "Unknown" when no user has the id; otherwise the first matching user's name, or "Unknown" when that name is empty |
| Views.PopulatePosts | app.js:288-297 | one entry per post, same order, each keeping the post and carrying its author's name as AuthorName gives it |
| Views.AttachExternalInfo | app.js:335-338 | same length and order, every entry keeps its post and author and gets the same externalInfo |
| Views.CombineWithExternal | app.js:319-344 | succeeds iff the fetch responded with a readable body, or with a `null` body while there are no posts (then the answer is empty); a rejected fetch, a non-success status, or a `null` body with posts is ExternalFetchError with the thrown message and no posts at all; on success every post, in order, with its author and `External task: "<title>"` |
| App.Store.constructor | app.js:8-11 | a new store is empty with both counters at 1, and is consistent |
| App.Store.ListUsers | app.js:266-268 | returns the users as stored; in a consistent store their ids increase along the sequence |
| App.Store.CreateUser | app.js:271-285 | the answer and the fields afterwards are those of Transitions.CreateUser on the fields before; the invariant is kept |
| App.Store.CreatePost | app.js:299-313 | the answer and the fields afterwards are those of Transitions.CreatePost on the fields before; the invariant is kept |
| App.Store.ListPosts | app.js:288-297 | returns the author join of the current posts and users |
| App.Store.ListPostsWithExternalData | app.js:319-344 | returns the external merge of the current posts and users for the given fetch outcome |
| App.Store.Reset | app.js:357-362 | both sequences empty and both counters 1 afterwards |
| Properties.JoinShowsRealAuthors | app.js:289-295 | in a consistent store every post's author exists and the join shows exactly that user's name rather than the fallback |
| Properties.DanglingAuthorIsUnknown | app.js:293 | a post whose authorId no user has is shown with author "Unknown" |
| Properties.ExternalDataScenario | test.js:60-77 | Jane Doe's single post, combined with the external title "delectus aut autem", gives one entry titled "My First Post" with `External task: "delectus aut autem"` |

## Left out

- Entities.Status: its contract separates the validation errors (4xx) from the external failure (500) only; the individual codes 400, 409 and 404 (app.js:274, 279, 307) are the body's table, not part of the contract.
- The HTML dashboard served at `/`: browser UI, no store logic.
- Express routing, JSON body parsing, the response message texts and the catch-all 404 route; errors are mapped to their status codes by `Entities.Status` only.
- The real outbound `fetch` and its `await`: foreign I/O, replaced by the `FetchOutcome` parameter.
- Request fields of JSON types other than strings (for name, email, title, content) and integers (for authorId): e.g. a string `authorId` never matches a numeric id under `===` and would be AuthorNotFound; the model does not represent such values. Likewise an external `title` that is `null` or a number.
- JavaScript numbers are doubles: ids beyond 2^53 lose precision; the model's counters are unbounded integers.
- `resetData` empties the exported arrays in place (`length = 0`) so that code holding them sees the change; the model reassigns empty sequences and does not model that aliasing, nor tests pushing records straight into the arrays.
- `server.js` (port binding, environment switch, an unused database connection).
- Concurrency: the create handlers and `GET /posts` run to completion without suspending. `GET /posts-with-external-data` suspends at its two `await`s (app.js:329, 333), so other requests may run meanwhile; but its join is computed before the first `await` (app.js:321-327) and what follows reads only that value and the fetched data, so its answer is that of the store as it was when the request arrived, which is what `App.Store.ListPostsWithExternalData` reads.
