/**
 * The store as app.js keeps it: four module-level variables (app.js:8-11)
 * that the handlers update in place. Each handler is a method whose new
 * state and answer are those of the matching transition of module
 * Transitions, and which keeps the store invariant.
 */
module App {
  import opened Wrappers
  import opened Entities
  import opened Transitions
  import opened Views

  class Store {
    var users: seq<User>
    var posts: seq<Post>
    var userIdCounter: int
    var postIdCounter: int

    /** The store's fields as a value. */
    function Snapshot(): (s: State)
      reads this
    {
      State(users, posts, userIdCounter, postIdCounter)
    }

    ghost predicate Valid()
      reads this
    {
      Consistent(Snapshot())
    }

    /** `let users = []; let posts = []; let userIdCounter = 1; let postIdCounter = 1;` */
    constructor ()
      ensures Snapshot() == Initial
      ensures Valid()
    {
      users, posts := [], [];
      userIdCounter, postIdCounter := 1, 1;
    }

    /** `GET /users`: the users as they are, in insertion order. */
    method ListUsers() returns (r: seq<User>)
      ensures r == users
      ensures Valid() ==> forall i, j :: 0 <= i < j < |r| ==> r[i].id < r[j].id
    {
      r := users;
    }

    /** `POST /users`. */
    method CreateUser(name: Option<string>, email: Option<string>) returns (r: Result<User, StoreError>)
      modifies this
      ensures (r, Snapshot()) == Transitions.CreateUser(old(Snapshot()), name, email)
      ensures old(Valid()) ==> Valid()
    {
      ghost var before := Snapshot();
      if Consistent(before) {
        CreateUserKeepsConsistent(before, name, email);
      }
      if !Present(name) || !Present(email) {
        return Failure(MissingField);
      }
      if EmailTaken(users, email.value) {
        return Failure(DuplicateEmail);
      }
      var newUser := User(userIdCounter, name.value, email.value);
      userIdCounter := userIdCounter + 1;
      users := users + [newUser];
      r := Success(newUser);
    }

    /** `POST /posts`. */
    method CreatePost(title: Option<string>, content: Option<string>, authorId: Option<int>) returns (r: Result<Post, StoreError>)
      modifies this
      ensures (r, Snapshot()) == Transitions.CreatePost(old(Snapshot()), title, content, authorId)
      ensures old(Valid()) ==> Valid()
    {
      ghost var before := Snapshot();
      if Consistent(before) {
        CreatePostKeepsConsistent(before, title, content, authorId);
      }
      if !Present(title) || !Present(content) || !PresentId(authorId) {
        return Failure(MissingField);
      }
      var userExists := FindUser(users, authorId.value);
      if userExists.None? {
        return Failure(AuthorNotFound);
      }
      var newPost := Post(postIdCounter, title.value, content.value, authorId.value);
      postIdCounter := postIdCounter + 1;
      posts := posts + [newPost];
      r := Success(newPost);
    }

    /** `GET /posts`. */
    method ListPosts() returns (r: seq<PopulatedPost>)
      ensures r == PopulatePosts(users, posts)
    {
      r := PopulatePosts(users, posts);
    }

    /** `GET /posts-with-external-data`, given what the outbound request came to. */
    method ListPostsWithExternalData(fetched: FetchOutcome) returns (r: Result<seq<CombinedPost>, StoreError>)
      ensures r == CombineWithExternal(users, posts, fetched)
    {
      r := CombineWithExternal(users, posts, fetched);
    }

    /** `resetData`: empties both sequences and sets both counters back to 1. */
    method Reset()
      modifies this
      ensures Snapshot() == Initial
      ensures Valid()
    {
      users, posts := [], [];
      userIdCounter, postIdCounter := 1, 1;
    }
  }
}
