/** The three tables of the blog's database (`users`, `blog_post`, `comments`), each a map from
    row id to record, and the rule SQLite uses to pick the id of a new row. */
module Schema {

  import opened Options

  /** A row of `users`; `passwordHash` holds the output of `generate_password_hash`. */
  datatype User = User(id: nat, email: string, passwordHash: string, name: string)

  /** A row of `blog_post`. `authorId` is null for imported posts; `authorApi` is set only by the importer. */
  datatype Post = Post(
    id: nat,
    authorId: Option<nat>,
    authorApi: Option<string>,
    title: string,
    subtitle: string,
    date: string,
    body: string,
    imgUrl: string)

  /** A row of `comments`; `postId` is null when the comment was written on a missing post. */
  datatype Comment = Comment(id: nat, authorId: nat, postId: Option<nat>, text: string)

  /** A non-empty set of ids has a largest element. */
  lemma {:induction false} LargestExists(keys: set<nat>)
    requires keys != {}
    ensures exists m :: m in keys && forall k :: k in keys ==> k <= m
  {
    var x :| x in keys;
    if keys != {x} {
      LargestExists(keys - {x});
      var m :| m in keys - {x} && forall k :: k in keys - {x} ==> k <= m;
      var top := if x > m then x else m;
      forall k | k in keys ensures k <= top {
        if k != x {
          assert k in keys - {x};
        }
      }
      assert top in keys;
    } else {
      assert forall k :: k in keys ==> k <= x;
    }
  }

  /** The id SQLite gives a row inserted without one into an `INTEGER PRIMARY KEY` table:
      1 when the table is empty, otherwise one more than the largest id present. */
  function RowIdAfter(keys: set<nat>): (id: nat)
    ensures id >= 1 && id !in keys
    ensures forall k :: k in keys ==> k < id
    ensures id == 1 || id - 1 in keys
  {
    if keys == {} then 1
    else
      LargestExists(keys);
      var m :| m in keys && forall k :: k in keys ==> k <= m;
      m + 1
  }

  /** Every user row is stored under its own, positive id. */
  ghost predicate UsersKeyed(users: map<nat, User>)
  {
    forall id :: id in users ==> id >= 1 && users[id].id == id
  }

  ghost predicate PostsKeyed(posts: map<nat, Post>)
  {
    forall id :: id in posts ==> id >= 1 && posts[id].id == id
  }

  ghost predicate CommentsKeyed(comments: map<nat, Comment>)
  {
    forall id :: id in comments ==> id >= 1 && comments[id].id == id
  }

  /** The `unique=True` constraint on `users.email`. */
  ghost predicate UniqueEmails(users: map<nat, User>)
  {
    forall a, b :: a in users && b in users && users[a].email == users[b].email ==> a == b
  }

  /** The `unique=True` constraint on `blog_post.title`. */
  ghost predicate UniqueTitles(posts: map<nat, Post>)
  {
    forall a, b :: a in posts && b in posts && posts[a].title == posts[b].title ==> a == b
  }

  /** The titles present in the post table (what `filter_by(title=...).first()` can find). */
  function Titles(posts: map<nat, Post>): (ts: set<string>)
    ensures forall id :: id in posts ==> posts[id].title in ts
    ensures forall t :: t in ts ==> exists id :: id in posts && posts[id].title == t
  {
    set id | id in posts :: posts[id].title
  }

  /** The emails present in the user table. */
  function Emails(users: map<nat, User>): set<string>
  {
    set id | id in users :: users[id].email
  }

  /** Whether `filter_by(email=...).first()` finds a user: exactly when some row has that email. */
  predicate EmailTaken(users: map<nat, User>, email: string): (taken: bool)
    ensures taken <==> exists id :: id in users && users[id].email == email
  {
    email in Emails(users)
  }

  /** A non-empty set of ids has a smallest element. */
  lemma {:induction false} SmallestExists(ids: set<nat>)
    requires ids != {}
    ensures exists m :: m in ids && forall k :: k in ids ==> m <= k
  {
    var x :| x in ids;
    if ids != {x} {
      SmallestExists(ids - {x});
      var m :| m in ids - {x} && forall k :: k in ids - {x} ==> m <= k;
      var low := if x < m then x else m;
      forall k | k in ids ensures low <= k {
        if k != x {
          assert k in ids - {x};
        }
      }
      assert low in ids;
    } else {
      assert forall k :: k in ids ==> x <= k;
    }
  }

  /** `filter_by(name=name).first()` on `users`: SQLite scans the table in row id order, so the
      first match is the user with the smallest id among those with that name. */
  function FirstUserNamed(users: map<nat, User>, name: string): (r: Option<nat>)
    ensures r.None? <==> forall id :: id in users ==> users[id].name != name
    ensures r.Some? ==> r.value in users && users[r.value].name == name
    ensures r.Some? ==> forall id :: id in users && users[id].name == name ==> r.value <= id
  {
    var ids := set id | id in users && users[id].name == name;
    assert forall id :: id in users && users[id].name == name ==> id in ids;
    if ids == {} then None
    else
      SmallestExists(ids);
      var m :| m in ids && forall k :: k in ids ==> m <= k;
      Some(m)
  }

  /** A well-formed post table. */
  ghost predicate PostTable(posts: map<nat, Post>)
  {
    PostsKeyed(posts) && UniqueTitles(posts)
  }

  /** Adding a row under the next row id, with a title not yet present, keeps the post table well formed. */
  lemma InsertPostKeepsTable(posts: map<nat, Post>, post: Post)
    requires PostTable(posts)
    requires post.id == RowIdAfter(posts.Keys) && post.title !in Titles(posts)
    ensures PostTable(posts[post.id := post])
    ensures Titles(posts[post.id := post]) == Titles(posts) + {post.title}
  {
    var after := posts[post.id := post];
    forall t | t in Titles(after) ensures t in Titles(posts) + {post.title} {
      var id :| id in after && after[id].title == t;
    }
    forall t | t in Titles(posts) ensures t in Titles(after) {
      var id :| id in posts && posts[id].title == t;
      assert after[id] == posts[id];
    }
    assert after[post.id].title == post.title;
  }
}
