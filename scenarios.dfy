/** Whole requests run against a fresh database: who becomes the administrator, what a wrong
    password or an anonymous comment gets, and what the feed importer stores for one item. */
module Scenarios {

  import opened Options
  import opened Text
  import opened Calendar
  import opened Passwords
  import opened Schema
  import opened Feed
  import opened BlogApp

  /** The first user to register gets row id 1, which is the id `admin_only` lets through, and
      logging back in with the same password succeeds. */
  method FirstUserIsAdmin(kdf: Kdf, iterations: nat) returns (registered: RegisterOutcome, admin: bool, login: LoginOutcome)
    ensures registered == Registered(1) && admin
    ensures login == LoggedIn(1)
  {
    var blog := new Blog(kdf, iterations);
    registered := blog.Register("ada@example.com", "secret", "Ada", "abcdefgh");
    admin := AdminAllowed(blog.session);
    CheckGeneratedHash(kdf, iterations, "secret", "abcdefgh", "secret");
    login := blog.Login("ada@example.com", "secret");
  }

  /** A second user gets id 2 and no admin rights; registering the same email again is refused
      and leaves that user logged in. */
  method SecondUserIsNotAdmin(kdf: Kdf, iterations: nat) returns (second: RegisterOutcome, admin: bool, again: RegisterOutcome)
    ensures second == Registered(2) && !admin
    ensures again == DuplicateEmail
  {
    var blog := new Blog(kdf, iterations);
    var first := blog.Register("ada@example.com", "secret", "Ada", "abcdefgh");
    second := blog.Register("bob@example.com", "hunter2", "Bob", "ijklmnop");
    admin := AdminAllowed(blog.session);
    assert blog.users[2].email == "bob@example.com";
    again := blog.Register("bob@example.com", "other", "Robert", "qrstuvwx");
  }

  /** A password whose derived key differs from the stored one is refused, and the session
      stays anonymous. */
  method WrongPasswordRefused(kdf: Kdf, iterations: nat) returns (login: LoginOutcome, session: Option<nat>)
    requires kdf(StoredMethod(iterations), "abcdefgh", "guess") != kdf(StoredMethod(iterations), "abcdefgh", "secret")
    ensures login == BadPassword && session == None
  {
    var blog := new Blog(kdf, iterations);
    var registered := blog.Register("ada@example.com", "secret", "Ada", "abcdefgh");
    var out := blog.Logout();
    CheckGeneratedHash(kdf, iterations, "secret", "abcdefgh", "guess");
    login := blog.Login("ada@example.com", "guess");
    session := blog.session;
  }

  /** An anonymous visitor's comment is not stored; a logged-in user's comment gets id 1. On an
      empty database post 1 does not exist, so the stored comment is linked to no post. */
  method CommentNeedsLogin(kdf: Kdf, iterations: nat) returns (anonymous: CommentOutcome, signedIn: CommentOutcome,
                                                                 comments: map<nat, Comment>)
    ensures anonymous == LoginRequired
    ensures signedIn == Commented(1) && comments == map[1 := Comment(1, 1, None, "First!")]
  {
    var blog := new Blog(kdf, iterations);
    anonymous := blog.AddComment(1, "First!");
    var registered := blog.Register("ada@example.com", "secret", "Ada", "abcdefgh");
    signedIn := blog.AddComment(1, "First!");
    comments := blog.comments;
  }

  /** A feed item with no content and no image. */
  function Item(creator: Option<Creator>, title: string, description: Option<string>, pubDate: string, link: string): FeedItem
  {
    FeedItem(creator, Some(title), description, Some(pubDate), None, None, Some(link))
  }

  /** On an empty table, a pass over an item that gives a ready row inserts that row as post 1. */
  lemma ReadyStep(prepare: FeedItem -> Draft, item: FeedItem, post: Post)
    requires BuiltFrom(prepare, item, post) && post.id == 1
    ensures StepWith(prepare, map[], item) == Inserted(post)
  {
    assert Titles(map[]) == {};
    assert RowIdAfter({}) == 1;
  }

  /** The row built from a dated item without creator, content or image has the author "u" (the
      first character of the default "unknown"), the link as body and the placeholder image. */
  lemma DatedDraft(pubDate: string, date: string, title: string, description: string, link: string)
    requires DisplayDate(pubDate) == Some(date)
    ensures DraftOf(Item(None, title, Some(description), pubDate, link)) == Ready(Some("u"), description, date, link, PlaceholderImage)
  {
    DefaultedCreatorIsU();
  }

  /** Imported into an empty table, such an item becomes post 1, stored with the long form of its date. */
  lemma DatedItemImported(pubDate: string, date: string, title: string, description: string, link: string)
    requires DisplayDate(pubDate) == Some(date)
    ensures Import(map[], [Item(None, title, Some(description), pubDate, link)]) ==
            ImportResult(map[1 := Post(1, None, Some("u"), title, description, date, link, PlaceholderImage)], Completed)
  {
    var item := Item(None, title, Some(description), pubDate, link);
    var post := Post(1, None, Some("u"), title, description, date, link, PlaceholderImage);
    DatedDraft(pubDate, date, title, description, link);
    ReadyStep(DraftOf, item, post);
    assert AfterStep(map[], Inserted(post)) == map[1 := post];
    assert ImportWith(DraftOf, map[1 := post], [item], 1) == ImportResult(map[1 := post], Completed);
  }

  /** An item whose date does not parse stops the import at once, with nothing stored. */
  lemma UndatedItemAborts(pubDate: string, title: string, description: string, link: string)
    requires DisplayDate(pubDate).None?
    ensures Import(map[], [Item(None, title, Some(description), pubDate, link)]) == ImportResult(map[], Aborted(0, DateError))
  {
  }

  /** The pass over a dated item without a description raises at the commit. */
  lemma NullSubtitleStep(pubDate: string, date: string, title: string, link: string)
    requires DisplayDate(pubDate) == Some(date)
    ensures StepWith(DraftOf, map[], Item(None, title, None, pubDate, link)) == Raised(CommitError)
  {
    DefaultedCreatorIsU();
    assert DraftOf(Item(None, title, None, pubDate, link)) == Unstorable;
  }

  /** An item without a description fails the NOT NULL constraint at its commit; the session is
      left unusable, so nothing after it is imported, whatever follows. */
  lemma NullSubtitleStopsImport(pubDate: string, date: string, title: string, link: string, rest: seq<FeedItem>)
    requires DisplayDate(pubDate) == Some(date)
    ensures Import(map[], [Item(None, title, None, pubDate, link)] + rest) == ImportResult(map[], Aborted(0, CommitError))
  {
    var item := Item(None, title, None, pubDate, link);
    NullSubtitleStep(pubDate, date, title, link);
    assert ([item] + rest)[0] == item;
  }

  /** The pass over a dated item whose creator list is empty is skipped by the `except`. */
  lemma EmptyCreatorStep(pubDate: string, date: string, title: string, description: string, link: string)
    requires DisplayDate(pubDate) == Some(date)
    ensures StepWith(DraftOf, map[], Item(Some(CreatorNames([])), title, Some(description), pubDate, link)) == Rejected
  {
    assert DraftOf(Item(Some(CreatorNames([])), title, Some(description), pubDate, link)) == NoAuthor;
  }

  /** An item whose creator list is empty raises `IndexError` before its row is added: it is
      skipped and the import goes on. */
  lemma EmptyCreatorSkipped(pubDate: string, date: string, title: string, description: string, link: string)
    requires DisplayDate(pubDate) == Some(date)
    ensures Import(map[], [Item(Some(CreatorNames([])), title, Some(description), pubDate, link)]) == ImportResult(map[], Completed)
  {
    var item := Item(Some(CreatorNames([])), title, Some(description), pubDate, link);
    EmptyCreatorStep(pubDate, date, title, description, link);
    assert AfterStep(map[], Rejected) == map[];
    assert ImportWith(DraftOf, map[], [item], 1) == ImportResult(map[], Completed);
  }

  /** March 1st, 2024, written as "%Y-%m-%d". */
  lemma MarchFirstIso()
    ensures IsoText(Date(2024, 3, 1)) == "2024-03-01"
  {
    assert Padded(2024, 4) == "2024";
  }

  /** March 1st, 2024, written as "%B %d, %Y". */
  lemma MarchFirstLong()
    ensures FormatLong(Date(2024, 3, 1)) == "March 01, 2024"
  {
    assert Padded(2024, 4) == "2024";
  }

  /** The part of the spaced timestamp before its first space. */
  lemma SpacedTimestampDay()
    ensures BeforeFirst("2024-03-01 10:00:00", ' ') == "2024-03-01"
  {
    assert "2024-03-01 10:00:00" == "2024-03-01" + [' '] + "10:00:00";
    SplitJoined("2024-03-01", ' ', "10:00:00");
  }

  /** A feed timestamp with a space is stored as the long form of its date. */
  lemma SpacedTimestampDate(pubDate: string)
    requires pubDate == "2024-03-01 10:00:00"
    ensures DisplayDate(pubDate) == Some("March 01, 2024")
  {
    MarchFirstIso();
    MarchFirstLong();
    SpacedTimestampDay();
    ParseIsoText(Date(2024, 3, 1));
  }

  /** The "T" timestamp has no space: splitting at the first space leaves it whole. */
  lemma IsoTimestampWhole()
    ensures BeforeFirst("2024-03-01T10:00:00Z", ' ') == "2024-03-01T10:00:00Z"
  {
    assert ' ' !in "2024-03-01T10:00:00Z";
  }

  /** A feed timestamp in the "T" form is handed whole to "%Y-%m-%d", which refuses the text
      after the day. */
  lemma IsoTimestampDate(pubDate: string)
    requires pubDate == "2024-03-01T10:00:00Z"
    ensures DisplayDate(pubDate) == None
  {
    IsoTimestampWhole();
    ParseYmdTrailingTime();
  }

  /** An item titled "Storm hits coast", without creator, content or image, imported by the
      application into an empty database. Dated "2024-03-01 10:00:00", it is stored as post 1,
      dated "March 01, 2024", with the author "u". Dated "2024-03-01T10:00:00Z", it has no space,
      so the whole text goes to "%Y-%m-%d"; that parse fails outside the `try` and the import
      raises with nothing stored. */
  method ImportStormExample(kdf: Kdf, iterations: nat) returns (spaced: ImportOutcome, spacedPosts: map<nat, Post>,
                                               iso: ImportOutcome, isoPosts: map<nat, Post>)
    ensures spaced == Completed
    ensures spacedPosts == map[1 := Post(1, None, Some("u"), "Storm hits coast", "Heavy rain", "March 01, 2024",
                                         "http://x/1", PlaceholderImage)]
    ensures iso == Aborted(0, DateError) && isoPosts == map[]
  {
    var title, description, link := "Storm hits coast", "Heavy rain", "http://x/1";
    var pubDate := "2024-03-01 10:00:00";
    SpacedTimestampDate(pubDate);
    DatedItemImported(pubDate, "March 01, 2024", title, description, link);
    var blog := new Blog(kdf, iterations);
    spaced := blog.ImportFeed([Item(None, title, Some(description), pubDate, link)]);
    spacedPosts := blog.posts;

    var isoDate := "2024-03-01T10:00:00Z";
    IsoTimestampDate(isoDate);
    UndatedItemAborts(isoDate, title, description, link);
    var other := new Blog(kdf, iterations);
    iso := other.ImportFeed([Item(None, title, Some(description), isoDate, link)]);
    isoPosts := other.posts;
  }
}
