/** The blog application's request handlers, as operations on the database and the session. */
module BlogApp {

  import opened Options
  import opened Calendar
  import opened Passwords
  import opened Schema
  import opened Feed

  /** `admin_only`: the wrapped handler runs unless the current user is anonymous or has an id
      other than 1; otherwise the request ends in 403. */
  function AdminAllowed(session: Option<nat>): (allowed: bool)
    ensures allowed <==> session == Some(1)
  {
    !(session.None? || session.value != 1)
  }

  datatype RegisterOutcome = Registered(id: nat) | DuplicateEmail
  datatype LoginOutcome = LoggedIn(id: nat) | UnknownEmail | BadPassword
  datatype LogoutOutcome = LoggedOut | Unauthorized
  datatype CommentOutcome = Commented(id: nat) | LoginRequired
  /** The end of an admin-only request: done, refused by `admin_only` (403), or an exception
      (500) that leaves the database as it was. */
  datatype AdminOutcome = Done | Forbidden | ServerError

  /** The database's three tables and the logged-in user of the session. */
  class Blog {
    var users: map<nat, User>
    var posts: map<nat, Post>
    var comments: map<nat, Comment>
    /** `current_user`: the id of the logged-in user, None when anonymous. */
    var session: Option<nat>
    /** The key-derivation function behind werkzeug's password hashes. */
    const kdf: Kdf
    /** werkzeug's default PBKDF2 iteration count, which it stores in every hash. */
    const iterations: nat

    ghost predicate Valid()
      reads this
    {
      && UsersKeyed(users) && UniqueEmails(users)
      && PostTable(posts)
      && CommentsKeyed(comments)
      && (forall id :: id in comments ==> comments[id].authorId in users)
      && (session.Some? ==> session.value in users)
    }

    /** An empty database and an anonymous session. */
    constructor (kdf: Kdf, iterations: nat)
      ensures Valid() && this.kdf == kdf && this.iterations == iterations
      ensures users == map[] && posts == map[] && comments == map[] && session == None
    {
      this.kdf := kdf;
      this.iterations := iterations;
      users, posts, comments, session := map[], map[], map[], None;
    }

    /** `register`: a known email adds nobody; otherwise one user is added, storing the hash of
        the password under the next row id, and becomes the session's user. */
    method Register(email: string, password: string, name: string, salt: string) returns (outcome: RegisterOutcome)
      requires Valid() && IsSalt(salt)
      modifies this`users, this`session
      ensures Valid()
      ensures outcome == DuplicateEmail <==> EmailTaken(old(users), email)
      ensures outcome == DuplicateEmail ==> users == old(users) && session == old(session)
      ensures outcome.Registered? ==>
                && outcome.id == RowIdAfter(old(users).Keys)
                && users == old(users)[outcome.id := User(outcome.id, email, GeneratePasswordHash(kdf, iterations, password, salt), name)]
                && session == Some(outcome.id)
    {
      if EmailTaken(users, email) {
        return DuplicateEmail;
      }
      var id := RowIdAfter(users.Keys);
      users := users[id := User(id, email, GeneratePasswordHash(kdf, iterations, password, salt), name)];
      session := Some(id);
      outcome := Registered(id);
    }

    /** `login`: an unknown email and a wrong password are distinct failures that leave the
        session alone; otherwise the user with that email becomes the session's user. */
    method Login(email: string, password: string) returns (outcome: LoginOutcome)
      requires Valid()
      modifies this`session
      ensures Valid()
      ensures outcome == UnknownEmail <==> !EmailTaken(users, email)
      ensures outcome == BadPassword <==>
                exists id :: id in users && users[id].email == email && !CheckPasswordHash(kdf, users[id].passwordHash, password)
      ensures outcome.LoggedIn? ==>
                outcome.id in users && users[outcome.id].email == email
                && CheckPasswordHash(kdf, users[outcome.id].passwordHash, password)
      ensures session == if outcome.LoggedIn? then Some(outcome.id) else old(session)
    {
      var matches := set id | id in users && users[id].email == email;
      assert forall id :: id in users && users[id].email == email ==> id in matches;
      if matches == {} {
        return UnknownEmail;
      }
      var id :| id in matches;
      if CheckPasswordHash(kdf, users[id].passwordHash, password) {
        session := Some(id);
        outcome := LoggedIn(id);
      } else {
        outcome := BadPassword;
      }
    }

    /** `logout`: `login_required` refuses an anonymous request (401); otherwise the session ends. */
    method Logout() returns (outcome: LogoutOutcome)
      requires Valid()
      modifies this`session
      ensures Valid()
      ensures outcome == Unauthorized <==> old(session).None?
      ensures session == None
    {
      if session.None? {
        return Unauthorized;
      }
      session := None;
      outcome := LoggedOut;
    }

    /** The comment form of `show_post`: an anonymous user is sent to log in and nothing is
        stored; otherwise exactly one comment is added, by the session's user. It is linked to
        `postId` when that post exists; otherwise `parent_post=None` makes the flush write a
        null `post_id`. */
    method AddComment(postId: nat, text: string) returns (outcome: CommentOutcome)
      requires Valid()
      modifies this`comments
      ensures Valid()
      ensures outcome == LoginRequired <==> session.None?
      ensures outcome == LoginRequired ==> comments == old(comments)
      ensures outcome.Commented? ==>
                && outcome.id == RowIdAfter(old(comments).Keys)
                && var parent := if postId in posts then Some(postId) else None;
                   comments == old(comments)[outcome.id := Comment(outcome.id, session.value, parent, text)]
    {
      if session.None? {
        return LoginRequired;
      }
      var id := RowIdAfter(comments.Keys);
      var parent := if postId in posts then Some(postId) else None;
      comments := comments[id := Comment(id, session.value, parent, text)];
      outcome := Commented(id);
    }

    /** `add_new_post`, with today's date passed in: admin only; a title already present fails
        the unique constraint; otherwise one post is added, dated today and written by the first
        user bearing the admin's name, which is the admin. */
    method AddNewPost(title: string, subtitle: string, body: string, imgUrl: string, today: Date)
      returns (outcome: AdminOutcome)
      requires Valid() && ValidDate(today)
      modifies this`posts
      ensures Valid()
      ensures outcome == Forbidden <==> !AdminAllowed(session)
      ensures outcome == ServerError <==> AdminAllowed(session) && title in Titles(old(posts))
      ensures outcome != Done ==> posts == old(posts)
      ensures outcome == Done ==>
                var id := RowIdAfter(old(posts).Keys);
                posts == old(posts)[id := Post(id, Some(1), None, title, subtitle, FormatLong(today), body, imgUrl)]
    {
      if !AdminAllowed(session) {
        return Forbidden;
      }
      var author := FirstUserNamed(users, users[session.value].name);
      if title in Titles(posts) {
        return ServerError;
      }
      var post := Post(RowIdAfter(posts.Keys), author, None, title, subtitle, FormatLong(today), body, imgUrl);
      InsertPostKeepsTable(posts, post);
      posts := posts[post.id := post];
      outcome := Done;
    }

    /** `edit_post`: admin only; a missing post raises, and so does a title that another post
        already has; otherwise the title, subtitle, image and body change and nothing else does. */
    method EditPost(postId: nat, title: string, subtitle: string, imgUrl: string, body: string)
      returns (outcome: AdminOutcome)
      requires Valid()
      modifies this`posts
      ensures Valid()
      ensures outcome == Forbidden <==> !AdminAllowed(session)
      ensures outcome == ServerError <==>
                AdminAllowed(session) && (postId !in old(posts) || title in Titles(old(posts) - {postId}))
      ensures outcome != Done ==> posts == old(posts)
      ensures outcome == Done ==>
                && postId in old(posts) && posts.Keys == old(posts).Keys
                && (forall id :: id in posts && id != postId ==> posts[id] == old(posts)[id])
                && posts[postId].title == title && posts[postId].subtitle == subtitle
                && posts[postId].imgUrl == imgUrl && posts[postId].body == body
                && posts[postId].id == old(posts)[postId].id
                && posts[postId].authorId == old(posts)[postId].authorId
                && posts[postId].authorApi == old(posts)[postId].authorApi
                && posts[postId].date == old(posts)[postId].date
    {
      if !AdminAllowed(session) {
        return Forbidden;
      }
      if postId !in posts || title in Titles(posts - {postId}) {
        return ServerError;
      }
      var post := posts[postId];
      var after := posts[postId := post.(title := title, subtitle := subtitle, imgUrl := imgUrl, body := body)];
      forall id | id in posts && id != postId ensures posts[id].title != title {
        assert id in posts - {postId} && (posts - {postId})[id] == posts[id];
      }
      assert UniqueTitles(after);
      posts := after;
      outcome := Done;
    }

    /** `delete_post`: admin only; a missing post raises; otherwise exactly that post is removed.
        Its comments stay in their table. */
    method DeletePost(postId: nat) returns (outcome: AdminOutcome)
      requires Valid()
      modifies this`posts
      ensures Valid()
      ensures outcome == Forbidden <==> !AdminAllowed(session)
      ensures outcome == ServerError <==> AdminAllowed(session) && postId !in old(posts)
      ensures outcome != Done ==> posts == old(posts)
      ensures outcome == Done ==> posts == old(posts) - {postId} && postId in old(posts)
    {
      if !AdminAllowed(session) {
        return Forbidden;
      }
      if postId !in posts {
        return ServerError;
      }
      posts := posts - {postId};
      outcome := Done;
    }

    /** `data_from_api`: the import loop of the home page, run against its specification `Import`.
        A date that does not parse ends the loop with the rows already committed kept. A failed
        commit leaves the session unusable, so the request fails at its next query whether or not
        items remain: the loop is left at once, with the same rows kept. */
    method ImportFeed(feed: seq<FeedItem>) returns (outcome: ImportOutcome)
      requires Valid()
      modifies this`posts
      ensures Valid()
      ensures Import(old(posts), feed) == ImportResult(posts, outcome)
    {
      var i := 0;
      while i < |feed|
        invariant i <= |feed|
        invariant Valid()
        invariant ImportWith(DraftOf, posts, feed, i) == Import(old(posts), feed)
      {
        var step := ImportItem(feed[i]);
        if step.Raised? {
          return Aborted(i, step.error);
        }
        i := i + 1;
      }
      outcome := Completed;
    }

    /** One pass of the import loop over `item`: the title check, then the row that
        `NewsData.Prepare` builds is committed under the next row id. */
    method ImportItem(item: FeedItem) returns (step: ItemStep)
      requires Valid()
      modifies this`posts
      ensures Valid()
      ensures step == StepWith(DraftOf, old(posts), item)
      ensures posts == AfterStep(old(posts), step)
    {
      var n := new NewsData(item);
      if n.title.Some? && n.title.value in Titles(posts) {
        return Duplicate;
      }
      var draft := n.Prepare(item);
      step := StepOfDraft(posts, n.title, draft);
      if step.Inserted? {
        InsertPostKeepsTable(posts, step.post);
        posts := posts[step.post.id := step.post];
      }
    }
  }
}
