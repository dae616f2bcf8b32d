/**
 * The read views over the store: `GET /posts`, which joins every post to
 * its author's name (app.js:288-297), and `GET /posts-with-external-data`,
 * which performs the same join and then attaches one fact fetched from a
 * third-party service to every entry (app.js:319-344). The outbound request
 * is not performed here: its outcome is a parameter.
 */
module Views {
  import opened Wrappers
  import opened Entities

  /** The `author: { name }` object attached to each post. */
  datatype Author = Author(name: string)

  /** `{ ...post, author: { name } }`. */
  datatype PopulatedPost = PopulatedPost(post: Post, author: Author)

  /** `{ ...populatedPost, externalInfo }`. */
  datatype CombinedPost = CombinedPost(post: Post, author: Author, externalInfo: string)

  /**
   * `author?.name || 'Unknown'` for the first user with id `authorId`:
   * that user's name when it is not empty, otherwise "Unknown"; "Unknown"
   * too when no user has the id.
   */
  function AuthorName(users: seq<User>, authorId: int): (r: string)
    ensures (forall i :: 0 <= i < |users| ==> users[i].id != authorId) ==> r == "Unknown"
    ensures forall i :: 0 <= i < |users| && users[i].id == authorId
                        && (forall k :: 0 <= k < i ==> users[k].id != authorId)
                        ==> r == (if users[i].name != "" then users[i].name else "Unknown")
  {
    match FindUser(users, authorId)
    case Some(u) => if u.name != "" then u.name else "Unknown"
    case None => "Unknown"
  }

  /**
   * `posts.map(...)` of `GET /posts`: one entry per post, in the same
   * order, keeping the post's fields and naming its author.
   */
  function PopulatePosts(users: seq<User>, posts: seq<Post>): (r: seq<PopulatedPost>)
    ensures |r| == |posts|
    ensures forall i :: 0 <= i < |posts| ==>
              r[i].post == posts[i] && r[i].author == Author(AuthorName(users, posts[i].authorId))
    decreases |posts|
  {
    if |posts| == 0 then []
    else [PopulatedPost(posts[0], Author(AuthorName(users, posts[0].authorId)))] + PopulatePosts(users, posts[1..])
  }

  /**
   * What the outbound request to the external service can come to:
   * `Rejected` when `fetch` or `json()` throws (its message is forwarded),
   * `NotOk` for a response whose status is not a success, `Responded` for a
   * successful response whose JSON body was read, with `title` None when the
   * body has no title, and `RespondedNull` for a successful response whose
   * JSON body is `null`: reading `title` from it throws a TypeError with the
   * given message, but only once the merge touches a post.
   */
  datatype FetchOutcome =
    | Rejected(message: string)
    | NotOk
    | Responded(title: Option<string>)
    | RespondedNull(typeErrorMessage: string)

  /** The message of the error thrown for a non-success response (app.js:331). */
  const NOT_OK_MESSAGE: string := "Failed to fetch external data"

  /** A template literal prints an absent property as "undefined". */
  function TitleText(title: Option<string>): string
  {
    match title
    case Some(t) => t
    case None => "undefined"
  }

  /** Gives every entry the same `externalInfo`. */
  function AttachExternalInfo(ps: seq<PopulatedPost>, info: string): (r: seq<CombinedPost>)
    ensures |r| == |ps|
    ensures forall i :: 0 <= i < |ps| ==> r[i] == CombinedPost(ps[i].post, ps[i].author, info)
    decreases |ps|
  {
    if |ps| == 0 then []
    else [CombinedPost(ps[0].post, ps[0].author, info)] + AttachExternalInfo(ps[1..], info)
  }

  /**
   * `GET /posts-with-external-data`: all or nothing. When the external call
   * fails the whole answer is ExternalFetchError with the failure's message
   * and no posts; when it succeeds the answer is the author join, in post
   * order, with `External task: "<title>"` attached to every entry. A `null`
   * body fails only when there is a post to attach it to.
   */
  function CombineWithExternal(users: seq<User>, posts: seq<Post>, fetched: FetchOutcome): (r: Result<seq<CombinedPost>, StoreError>)
    ensures r.Success? <==> fetched.Responded? || (fetched.RespondedNull? && |posts| == 0)
    ensures fetched.Rejected? ==> r == Failure(ExternalFetchError(fetched.message))
    ensures fetched.NotOk? ==> r == Failure(ExternalFetchError(NOT_OK_MESSAGE))
    ensures fetched.RespondedNull? ==>
              r == if |posts| == 0 then Success([]) else Failure(ExternalFetchError(fetched.typeErrorMessage))
    ensures r.Success? && fetched.Responded? ==>
              && |r.value| == |posts|
              && forall i :: 0 <= i < |posts| ==>
                   && r.value[i].post == posts[i]
                   && r.value[i].author == Author(AuthorName(users, posts[i].authorId))
                   && r.value[i].externalInfo == "External task: \"" + TitleText(fetched.title) + "\""
  {
    var populated := PopulatePosts(users, posts);
    match fetched
    case Rejected(message) => Failure(ExternalFetchError(message))
    case NotOk => Failure(ExternalFetchError(NOT_OK_MESSAGE))
    case Responded(title) =>
      Success(AttachExternalInfo(populated, "External task: \"" + TitleText(title) + "\""))
    case RespondedNull(typeErrorMessage) =>
      if |populated| == 0 then Success([]) else Failure(ExternalFetchError(typeErrorMessage))
  }
}
