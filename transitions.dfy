/**
 * The entity store as a value: the two arrays and the two id counters of
 * app.js:8-11, the creation rules of `POST /users` (app.js:271-285) and
 * `POST /posts` (app.js:299-313), `resetData` (app.js:357-362), and the
 * invariants every state reached through these operations keeps.
 */
module Transitions {
  import opened Wrappers
  import opened Entities

  datatype State = State(users: seq<User>, posts: seq<Post>, userIdCounter: int, postIdCounter: int)

  /** The state the module starts in, and the one `resetData` restores. */
  const Initial: State := State([], [], 1, 1)

  /** Some user has id `id`. */
  predicate HasUser(users: seq<User>, id: int)
  {
    exists j :: 0 <= j < |users| && users[j].id == id
  }

  /**
   * Users have non-empty names and emails, pairwise distinct emails, ids
   * that are positive, below the counter and strictly increasing in
   * insertion order.
   */
  predicate UsersConsistent(users: seq<User>, counter: int)
  {
    && (forall i :: 0 <= i < |users| ==> 1 <= users[i].id < counter)
    && (forall i :: 0 <= i < |users| ==> users[i].name != "" && users[i].email != "")
    && (forall i, j :: 0 <= i < j < |users| ==> users[i].id < users[j].id)
    && (forall i, j :: 0 <= i < j < |users| ==> users[i].email != users[j].email)
  }

  /**
   * Posts have non-empty title and content, a non-zero author id, and ids
   * that are positive, below the counter and strictly increasing.
   */
  predicate PostsConsistent(posts: seq<Post>, counter: int)
  {
    && (forall i :: 0 <= i < |posts| ==> 1 <= posts[i].id < counter)
    && (forall i :: 0 <= i < |posts| ==> posts[i].title != "" && posts[i].content != "" && posts[i].authorId != 0)
    && (forall i, j :: 0 <= i < j < |posts| ==> posts[i].id < posts[j].id)
  }

  /** Every post names an existing user as its author. */
  predicate AuthorsExist(users: seq<User>, posts: seq<Post>)
  {
    forall i :: 0 <= i < |posts| ==> HasUser(users, posts[i].authorId)
  }

  /** The store invariant. */
  predicate Consistent(s: State)
  {
    && 1 <= s.userIdCounter
    && 1 <= s.postIdCounter
    && UsersConsistent(s.users, s.userIdCounter)
    && PostsConsistent(s.posts, s.postIdCounter)
    && AuthorsExist(s.users, s.posts)
  }

  /**
   * `POST /users`. A missing or empty name or email is MissingField, an
   * email some user already has is DuplicateEmail; both leave the state as
   * it was. Otherwise the new user takes the current counter as id and is
   * appended; the counter goes up by one and the posts are untouched.
   */
  function CreateUser(s: State, name: Option<string>, email: Option<string>): (out: (Result<User, StoreError>, State))
    ensures out.0.Success? <==> Present(name) && Present(email) && !EmailTaken(s.users, email.value)
    ensures out.0.Failure? ==> out.1 == s
    ensures out.0 == Failure(MissingField) <==> !Present(name) || !Present(email)
    ensures out.0 == Failure(DuplicateEmail) <==>
              Present(name) && Present(email) && exists i :: 0 <= i < |s.users| && s.users[i].email == email.value
    ensures out.0.Success? ==>
              && out.0.value == User(s.userIdCounter, name.value, email.value)
              && out.1.users == s.users + [out.0.value]
              && out.1.userIdCounter == s.userIdCounter + 1
              && out.1.posts == s.posts && out.1.postIdCounter == s.postIdCounter
  {
    if !Present(name) || !Present(email) then (Failure(MissingField), s)
    else if EmailTaken(s.users, email.value) then (Failure(DuplicateEmail), s)
    else
      var u := User(s.userIdCounter, name.value, email.value);
      (Success(u), s.(users := s.users + [u], userIdCounter := s.userIdCounter + 1))
  }

  /**
   * `POST /posts`. A missing or falsy title, content or author id is
   * MissingField; an author id no user has is AuthorNotFound; both leave the
   * state as it was. Otherwise the new post takes the current post counter
   * as id and is appended; the counter goes up by one and the users are
   * untouched.
   */
  function CreatePost(s: State, title: Option<string>, content: Option<string>, authorId: Option<int>): (out: (Result<Post, StoreError>, State))
    ensures out.0.Success? <==> Present(title) && Present(content) && PresentId(authorId) && HasUser(s.users, authorId.value)
    ensures out.0.Failure? ==> out.1 == s
    ensures out.0 == Failure(MissingField) <==> !Present(title) || !Present(content) || !PresentId(authorId)
    ensures out.0 == Failure(AuthorNotFound) <==>
              Present(title) && Present(content) && PresentId(authorId)
              && forall i :: 0 <= i < |s.users| ==> s.users[i].id != authorId.value
    ensures out.0.Success? ==>
              && out.0.value == Post(s.postIdCounter, title.value, content.value, authorId.value)
              && out.1.posts == s.posts + [out.0.value]
              && out.1.postIdCounter == s.postIdCounter + 1
              && out.1.users == s.users && out.1.userIdCounter == s.userIdCounter
  {
    if !Present(title) || !Present(content) || !PresentId(authorId) then (Failure(MissingField), s)
    else if FindUser(s.users, authorId.value).None? then (Failure(AuthorNotFound), s)
    else
      var p := Post(s.postIdCounter, title.value, content.value, authorId.value);
      (Success(p), s.(posts := s.posts + [p], postIdCounter := s.postIdCounter + 1))
  }

  /** One request that changes the store. */
  datatype Command =
    | NewUser(name: Option<string>, email: Option<string>)
    | NewPost(title: Option<string>, content: Option<string>, authorId: Option<int>)
    | ResetData

  function Step(s: State, c: Command): (t: State)
  {
    match c
    case NewUser(name, email) => CreateUser(s, name, email).1
    case NewPost(title, content, authorId) => CreatePost(s, title, content, authorId).1
    case ResetData => Initial
  }

  /** The state after running `cmds` in order from `s`. */
  function Run(s: State, cmds: seq<Command>): (r: State)
    decreases |cmds|
  {
    if |cmds| == 0 then s else Run(Step(s, cmds[0]), cmds[1..])
  }

  lemma CreateUserKeepsConsistent(s: State, name: Option<string>, email: Option<string>)
    requires Consistent(s)
    ensures Consistent(CreateUser(s, name, email).1)
  {
    var (r, t) := CreateUser(s, name, email);
    if r.Success? {
      forall i | 0 <= i < |t.posts|
        ensures HasUser(t.users, t.posts[i].authorId)
      {
        var j :| 0 <= j < |s.users| && s.users[j].id == s.posts[i].authorId;
        assert t.users[j] == s.users[j];
      }
    }
  }

  lemma CreatePostKeepsConsistent(s: State, title: Option<string>, content: Option<string>, authorId: Option<int>)
    requires Consistent(s)
    ensures Consistent(CreatePost(s, title, content, authorId).1)
  {
  }

  lemma StepKeepsConsistent(s: State, c: Command)
    requires Consistent(s)
    ensures Consistent(Step(s, c))
  {
    match c
    case NewUser(name, email) => CreateUserKeepsConsistent(s, name, email);
    case NewPost(title, content, authorId) => CreatePostKeepsConsistent(s, title, content, authorId);
    case ResetData =>
  }

  /** Every state reached from the initial one through the operations is consistent. */
  lemma {:induction false} RunKeepsConsistent(s: State, cmds: seq<Command>)
    requires Consistent(s)
    ensures Consistent(Run(s, cmds))
    decreases |cmds|
  {
    if |cmds| > 0 {
      StepKeepsConsistent(s, cmds[0]);
      RunKeepsConsistent(Step(s, cmds[0]), cmds[1..]);
    }
  }

  lemma ReachableIsConsistent(cmds: seq<Command>)
    ensures Consistent(Run(Initial, cmds))
  {
    RunKeepsConsistent(Initial, cmds);
  }

  /** Each counter is one more than the last id handed out, or 1 when its sequence is empty. */
  predicate CountersFollowLast(s: State)
  {
    && s.userIdCounter == (if |s.users| == 0 then 1 else s.users[|s.users| - 1].id + 1)
    && s.postIdCounter == (if |s.posts| == 0 then 1 else s.posts[|s.posts| - 1].id + 1)
  }

  lemma {:induction false} RunKeepsCountersFollowLast(s: State, cmds: seq<Command>)
    requires CountersFollowLast(s)
    ensures CountersFollowLast(Run(s, cmds))
    decreases |cmds|
  {
    if |cmds| > 0 {
      RunKeepsCountersFollowLast(Step(s, cmds[0]), cmds[1..]);
    }
  }

  /**
   * In a reached state a new user's id is one greater than the previous
   * largest id, or 1 when there are no users; likewise for posts.
   */
  lemma NextIdsFollowPrevious(cmds: seq<Command>, name: Option<string>, email: Option<string>,
                              title: Option<string>, content: Option<string>, authorId: Option<int>)
    ensures var s := Run(Initial, cmds);
            var u := CreateUser(s, name, email).0;
            u.Success? ==> u.value.id == (if |s.users| == 0 then 1 else s.users[|s.users| - 1].id + 1)
    ensures var s := Run(Initial, cmds);
            var p := CreatePost(s, title, content, authorId).0;
            p.Success? ==> p.value.id == (if |s.posts| == 0 then 1 else s.posts[|s.posts| - 1].id + 1)
  {
    RunKeepsCountersFollowLast(Initial, cmds);
  }

  /** Reset empties both sequences, so the next user and the next post each get id 1. */
  lemma ResetRestartsIds(s: State, name: Option<string>, email: Option<string>,
                         title: Option<string>, content: Option<string>)
    requires Present(name) && Present(email) && Present(title) && Present(content)
    ensures var t := Step(s, ResetData);
            t.users == [] && t.posts == []
            && CreateUser(t, name, email).0 == Success(User(1, name.value, email.value))
    ensures var t := Step(Step(s, ResetData), NewUser(name, email));
            CreatePost(t, title, content, Some(1)).0 == Success(Post(1, title.value, content.value, 1))
  {
  }

  /** Creating two users with the same email: the second is DuplicateEmail and changes nothing. */
  lemma SameEmailTwice(s: State, name1: Option<string>, name2: Option<string>, email: Option<string>)
    requires Present(name1) && Present(name2) && Present(email)
    requires !EmailTaken(s.users, email.value)
    ensures var t := CreateUser(s, name1, email).1;
            CreateUser(t, name2, email) == (Failure(DuplicateEmail), t)
  {
    var t := CreateUser(s, name1, email).1;
    assert t.users[|s.users|].email == email.value;
  }
}
