/**
 * Properties that connect the store's invariant with its read views, and
 * the external-data scenario of test.js:60-77, whose two records, pushed
 * straight into the arrays there, are here reached through CreateUser and
 * CreatePost.
 */
module Properties {
  import opened Wrappers
  import opened Entities
  import opened Transitions
  import opened Views

  /**
   * In a consistent store the `GET /posts` join never falls back to the
   * placeholder: every post shows the name of the user its `authorId` names.
   */
  lemma JoinShowsRealAuthors(s: State)
    requires Consistent(s)
    ensures forall i :: 0 <= i < |s.posts| ==> HasUser(s.users, s.posts[i].authorId)
    ensures forall i, j :: 0 <= i < |s.posts| && 0 <= j < |s.users| && s.users[j].id == s.posts[i].authorId
              ==> PopulatePosts(s.users, s.posts)[i].author.name == s.users[j].name
  {
  }

  /** A post whose author was never created is shown with author "Unknown". */
  lemma DanglingAuthorIsUnknown(users: seq<User>, posts: seq<Post>, i: int)
    requires 0 <= i < |posts|
    requires !HasUser(users, posts[i].authorId)
    ensures PopulatePosts(users, posts)[i].author == Author("Unknown")
  {
  }

  /**
   * Create Jane Doe, then her first post; with the external title
   * "delectus aut autem" the combined listing holds exactly that post,
   * carrying `External task: "delectus aut autem"`.
   */
  lemma ExternalDataScenario()
    ensures var s := Run(Initial, [NewUser(Some("Jane Doe"), Some("jane@example.com")),
                                   NewPost(Some("My First Post"), Some("Hello World"), Some(1))]);
            var r := CombineWithExternal(s.users, s.posts, Responded(Some("delectus aut autem")));
            && r.Success? && |r.value| == 1
            && r.value[0].post.title == "My First Post"
            && r.value[0].author == Author("Jane Doe")
            && r.value[0].externalInfo == "External task: \"delectus aut autem\""
  {
  }
}
