/** The news-feed importer's specification: what one feed item does to the post table, and what
    importing a whole feed does. `BlogApp.Blog.ImportFeed` runs the loop against this specification. */
module Feed {

  import opened Options
  import opened Text
  import opened Calendar
  import opened Schema

  /** The `creator` of a feed item. The news API sends a list of names; a bare string is also
      accepted, and Python's `[0]` then takes its first character. */
  datatype Creator = CreatorText(text: string) | CreatorNames(names: seq<string>)

  /** One element of the feed's `results`, every key present, each value possibly JSON null. */
  datatype FeedItem = FeedItem(
    creator: Option<Creator>,
    title: Option<string>,
    description: Option<string>,
    pubDate: Option<string>,
    content: Option<string>,
    imageUrl: Option<string>,
    link: Option<string>)

  /** The image used for an item without one (the trailing space is part of the stored text). */
  const PlaceholderImage: string :=
    "https://images.unsplash.com/photo-1498671546682-94a232c26d17?ixlib=rb-4.0.3&ixid"
    + "=MnwxMjA3fDB8MHxwaG90by1wYWdlfHx8fGVufDB8fHx8&auto=format&fit=crop&w=898&q=80 "

  /** The creator used for an item without one. */
  const UnknownCreator: Creator := CreatorText("unknown")

  /** `NewsData`: the fields of one feed item, copied so that the importer can overwrite the
      missing ones with defaults. */
  class NewsData {
    var author: Option<Creator>
    var title: Option<string>
    var subtitle: Option<string>
    var date: Option<string>
    var body: Option<string>
    var imgUrl: Option<string>
    var link: Option<string>

    constructor (data: FeedItem)
      ensures author == data.creator && title == data.title && subtitle == data.description
      ensures date == data.pubDate && body == data.content && imgUrl == data.imageUrl && link == data.link
    {
      author := data.creator;
      title := data.title;
      subtitle := data.description;
      date := data.pubDate;
      body := data.content;
      imgUrl := data.imageUrl;
      link := data.link;
    }

    /** The body of the import loop after the title check: the missing image, body and creator
        are overwritten in place with their defaults, then the date and the `try` block decide
        what row, if any, the item gives. */
    method Prepare(ghost data: FeedItem) returns (draft: Draft)
      requires author == data.creator && title == data.title && subtitle == data.description
      requires date == data.pubDate && body == data.content && imgUrl == data.imageUrl && link == data.link
      modifies this
      ensures draft == DraftOf(data)
      ensures imgUrl == Some(data.imageUrl.GetOr(PlaceholderImage))
      ensures body == (if data.content.Some? then data.content else data.link)
      ensures author == Some(data.creator.GetOr(UnknownCreator))
      ensures title == data.title && subtitle == data.description && date == data.pubDate && link == data.link
    {
      if imgUrl.None? {
        imgUrl := Some(PlaceholderImage);
      }
      if body.None? {
        body := link;
      }
      if author.None? {
        author := Some(UnknownCreator);
      }
      draft := BuildDraft(author.value, subtitle, date, body, imgUrl.value);
    }
  }

  /** `creator[0]`: the first character of a string, the first name of a list; None where
      Python raises IndexError (an empty string or list). */
  function FirstElement(c: Creator): (r: Option<string>)
    ensures r.None? <==> (c.CreatorText? && c.text == []) || (c.CreatorNames? && c.names == [])
    ensures c.CreatorText? && r.Some? ==> r.value == c.text[..1]
    ensures c.CreatorNames? && r.Some? ==> r.value == c.names[0]
  {
    match c
    case CreatorText(t) => if t == [] then None else Some([t[0]])
    case CreatorNames(ns) => if ns == [] then None else Some(ns[0])
  }

  /** The stored date of a `pubDate` text: the part before the first space, parsed as
      "%Y-%m-%d" and written as "%B %d, %Y". None where the parse raises. */
  function DisplayDate(pubDate: string): (r: Option<string>)
    ensures r.None? <==> ParseYmd(BeforeFirst(pubDate, ' ')).None?
  {
    match ParseYmd(BeforeFirst(pubDate, ' '))
    case None => None
    case Some(d) => Some(FormatLong(d))
  }

  /** The stored date reads back as the very date that the part of `pubDate` before the first space names. */
  lemma DisplayDateReadsBack(pubDate: string)
    requires DisplayDate(pubDate).Some?
    ensures ParseLong(DisplayDate(pubDate).value) == ParseYmd(BeforeFirst(pubDate, ' '))
  {
    ParseFormatLong(ParseYmd(BeforeFirst(pubDate, ' ')).value);
  }

  /** A timestamp "YYYY-MM-DD hh:mm:ss" is stored as the long form of its date. */
  lemma DisplayDateOfTimestamp(d: Date, time: string)
    requires ValidDate(d)
    ensures DisplayDate(IsoText(d) + " " + time) == Some(FormatLong(d))
  {
    assert ' ' !in IsoText(d) by {
      var s := IsoText(d);
      forall i | 0 <= i < |s| ensures s[i] != ' ' {
        assert s[i] == '-' || IsDigit(s[i]);
      }
    }
    SplitJoined(IsoText(d), ' ', time);
    ParseIsoText(d);
  }

  /** The part of one pass that does not look at the post table: the three defaults, the date
      (parsed outside the `try`), and the `try` block's `creator[0]` and NOT NULL columns
      (subtitle, body). The title is checked by the pass itself. */
  datatype Draft =
    | NoDate           // `pubDate` is null or does not parse: raised outside the `try`
    | NoAuthor         // `creator[0]` raises before the row is added: the `except` skips the item
    | Unstorable       // the row is added but its commit fails a NOT NULL constraint
    | Ready(authorApi: Option<string>, subtitle: string, date: string, body: string, imgUrl: string)

  /** The date, parsed outside the `try`, and the `try` block, on an item whose image, body and
      creator have been defaulted: `creator[0]` may raise, and the subtitle and body columns are
      NOT NULL. */
  function BuildDraft(creator: Creator, subtitle: Option<string>, pubDate: Option<string>,
                      body: Option<string>, imgUrl: string): (r: Draft)
    ensures r.NoDate? <==> pubDate.None? || DisplayDate(pubDate.value).None?
    ensures r.NoAuthor? <==> !r.NoDate? && FirstElement(creator).None?
    ensures r.Unstorable? <==> !r.NoDate? && !r.NoAuthor? && (subtitle.None? || body.None?)
    ensures r.Ready? ==>
              && pubDate.Some? && Some(r.date) == DisplayDate(pubDate.value)
              && r.authorApi == FirstElement(creator)
              && Some(r.subtitle) == subtitle && Some(r.body) == body && r.imgUrl == imgUrl
  {
    if pubDate.None? then NoDate
    else match DisplayDate(pubDate.value)
      case None => NoDate
      case Some(date) =>
        var authorApi := FirstElement(creator);
        if authorApi.None? then NoAuthor
        else if subtitle.None? || body.None? then Unstorable
        else Ready(authorApi, subtitle.value, date, body.value, imgUrl)
  }

  /** The draft row the importer builds from one feed item: a missing image becomes the
      placeholder, a missing body the item's link, a missing creator "unknown". */
  function DraftOf(item: FeedItem): (r: Draft)
    ensures r.NoDate? <==> item.pubDate.None? || DisplayDate(item.pubDate.value).None?
    ensures r.Ready? ==>
              && item.pubDate.Some? && Some(r.date) == DisplayDate(item.pubDate.value)
              && r.authorApi == FirstElement(item.creator.GetOr(UnknownCreator))
              && Some(r.subtitle) == item.description
              && Some(r.body) == (if item.content.Some? then item.content else item.link)
              && r.imgUrl == item.imageUrl.GetOr(PlaceholderImage)
  {
    BuildDraft(item.creator.GetOr(UnknownCreator), item.description, item.pubDate,
               if item.content.Some? then item.content else item.link, item.imageUrl.GetOr(PlaceholderImage))
  }

  /** Why an import stops. A date that does not parse raises outside the `try`. A commit that
      fails inside it is swallowed by the `except`, but the session is not rolled back, so the
      next use of the database (the next title query, or the listing after the loop) raises. */
  datatype ImportError = DateError | CommitError

  /** What one pass of the import loop does with one item, given the current post table. */
  datatype ItemStep =
    | Duplicate        // a post with this title exists: `continue`
    | Rejected         // `creator[0]` raised before the row was added: the item is skipped
    | Inserted(post: Post)
    | Raised(error: ImportError)

  /** What a prepared item gives once its title is known not to be a duplicate: a null title
      fails the NOT NULL constraint at the commit; the new row gets the next row id and no local
      author. */
  function StepOfDraft(posts: map<nat, Post>, title: Option<string>, draft: Draft): (step: ItemStep)
    ensures step.Inserted? ==>
              && step.post.id == RowIdAfter(posts.Keys) && Some(step.post.title) == title && step.post.authorId == None
              && draft == Ready(step.post.authorApi, step.post.subtitle, step.post.date, step.post.body, step.post.imgUrl)
    ensures !step.Duplicate?
  {
    match draft
    case NoDate => Raised(DateError)
    case NoAuthor => Rejected
    case Unstorable => Raised(CommitError)
    case Ready(authorApi, subtitle, date, body, imgUrl) =>
      if title.None? then Raised(CommitError)
      else Inserted(Post(RowIdAfter(posts.Keys), None, authorApi, title.value, subtitle, date, body, imgUrl))
  }

  /** One pass of the import loop, for any way `prepare` of building draft rows: the title check
      comes first. */
  function StepWith(prepare: FeedItem -> Draft, posts: map<nat, Post>, item: FeedItem): (step: ItemStep)
    ensures step.Duplicate? <==> item.title.Some? && item.title.value in Titles(posts)
    ensures step.Inserted? ==> BuiltFrom(prepare, item, step.post) && step.post.id == RowIdAfter(posts.Keys)
    ensures item.title.Some? && item.title.value !in Titles(posts) && prepare(item).Ready? ==> step.Inserted?
  {
    if item.title.Some? && item.title.value in Titles(posts) then Duplicate
    else StepOfDraft(posts, item.title, prepare(item))
  }

  /** How `data_from_api` ends: after the last item, or with an exception caused by item `at`. */
  datatype ImportOutcome = Completed | Aborted(at: nat, error: ImportError)

  datatype ImportResult = ImportResult(posts: map<nat, Post>, outcome: ImportOutcome)

  /** The post table after a pass that did not raise: an inserted row is committed under its id. */
  function AfterStep(posts: map<nat, Post>, step: ItemStep): map<nat, Post>
  {
    if step.Inserted? then posts[step.post.id := step.post] else posts
  }

  /** The import loop from item `i` on, starting from the post table `posts`. */
  function ImportWith(prepare: FeedItem -> Draft, posts: map<nat, Post>, feed: seq<FeedItem>, i: nat): (r: ImportResult)
    requires i <= |feed|
    ensures r.outcome.Aborted? ==> i <= r.outcome.at < |feed| && StepWith(prepare, r.posts, feed[r.outcome.at]).Raised?
    decreases |feed| - i
  {
    if i == |feed| then ImportResult(posts, Completed)
    else
      var step := StepWith(prepare, posts, feed[i]);
      if step.Raised? then ImportResult(posts, Aborted(i, step.error))
      else ImportWith(prepare, AfterStep(posts, step), feed, i + 1)
  }

  /** `data_from_api(feed)` on the post table `posts`. */
  function Import(posts: map<nat, Post>, feed: seq<FeedItem>): (r: ImportResult)
    ensures r.outcome.Aborted? ==> r.outcome.at < |feed| && StepWith(DraftOf, r.posts, feed[r.outcome.at]).Raised?
    ensures feed == [] ==> r == ImportResult(posts, Completed)
  {
    ImportWith(DraftOf, posts, feed, 0)
  }

  /** `big` holds every row of `small`, unchanged. */
  ghost predicate Extends(big: map<nat, Post>, small: map<nat, Post>)
  {
    forall id :: id in small ==> id in big && big[id] == small[id]
  }

  /** `post` is the row built from `item` through `prepare`. */
  ghost predicate BuiltFrom(prepare: FeedItem -> Draft, item: FeedItem, post: Post)
  {
    && item.title == Some(post.title)
    && post.authorId == None
    && prepare(item) == Ready(post.authorApi, post.subtitle, post.date, post.body, post.imgUrl)
  }

  /** The import only adds rows: existing posts are untouched, every new post was built from some
      item of the feed, and an abort names an item of the feed. */
  lemma {:induction false} ImportOnlyAdds(prepare: FeedItem -> Draft, posts: map<nat, Post>, feed: seq<FeedItem>, i: nat)
    requires i <= |feed|
    ensures Extends(ImportWith(prepare, posts, feed, i).posts, posts)
    ensures forall id :: id in ImportWith(prepare, posts, feed, i).posts && id !in posts ==>
              exists j :: i <= j < |feed| && BuiltFrom(prepare, feed[j], ImportWith(prepare, posts, feed, i).posts[id])
    ensures ImportWith(prepare, posts, feed, i).outcome.Aborted? ==> i <= ImportWith(prepare, posts, feed, i).outcome.at < |feed|
    decreases |feed| - i
  {
    var step := if i < |feed| then StepWith(prepare, posts, feed[i]) else Duplicate;
    if i < |feed| && !step.Raised? {
      ImportOnlyAdds(prepare, AfterStep(posts, step), feed, i + 1);
      if step.Inserted? {
        assert BuiltFrom(prepare, feed[i], step.post);
      }
    }
  }

  /** Titles stay unique, and every row stays under its own id. */
  lemma {:induction false} ImportKeepsTable(prepare: FeedItem -> Draft, posts: map<nat, Post>, feed: seq<FeedItem>, i: nat)
    requires i <= |feed| && PostTable(posts)
    ensures PostTable(ImportWith(prepare, posts, feed, i).posts)
    decreases |feed| - i
  {
    var step := if i < |feed| then StepWith(prepare, posts, feed[i]) else Duplicate;
    if i < |feed| && !step.Raised? {
      if step.Inserted? {
        InsertPostKeepsTable(posts, step.post);
      }
      ImportKeepsTable(prepare, AfterStep(posts, step), feed, i + 1);
    }
  }

  lemma ExtendsTitles(big: map<nat, Post>, small: map<nat, Post>)
    requires Extends(big, small)
    ensures Titles(small) <= Titles(big)
  {
    forall t | t in Titles(small) ensures t in Titles(big) {
      var id :| id in small && small[id].title == t;
      assert big[id].title == t;
    }
  }

  /** An item "settles" in a table when a pass over it changes nothing and does not raise. */
  ghost predicate Settled(prepare: FeedItem -> Draft, posts: map<nat, Post>, item: FeedItem)
  {
    StepWith(prepare, posts, item).Duplicate? || StepWith(prepare, posts, item).Rejected?
  }

  /** Where an import stopped: at the aborting item, or at the end of the feed. */
  function StopIndex(r: ImportResult, feed: seq<FeedItem>): nat
  {
    if r.outcome.Aborted? then r.outcome.at else |feed|
  }

  /** After an import, every item it went through settles in the resulting table, and the item
      it aborted on (if any) still aborts there. */
  lemma {:induction false} ImportSettles(prepare: FeedItem -> Draft, posts: map<nat, Post>, feed: seq<FeedItem>, i: nat)
    requires i <= |feed|
    ensures var r := ImportWith(prepare, posts, feed, i);
            && i <= StopIndex(r, feed) <= |feed|
            && (forall j :: i <= j < StopIndex(r, feed) ==> Settled(prepare, r.posts, feed[j]))
            && (r.outcome.Aborted? ==> r.outcome.at < |feed| && StepWith(prepare, r.posts, feed[r.outcome.at]) == Raised(r.outcome.error))
    decreases |feed| - i
  {
    if i < |feed| {
      var r := ImportWith(prepare, posts, feed, i);
      var step := StepWith(prepare, posts, feed[i]);
      if !step.Raised? {
        var next := AfterStep(posts, step);
        ImportSettles(prepare, next, feed, i + 1);
        ImportOnlyAdds(prepare, next, feed, i + 1);
        ExtendsTitles(r.posts, next);
        if step.Inserted? {
          assert next[step.post.id].title == feed[i].title.value;
        }
        assert Settled(prepare, r.posts, feed[i]);
      }
    }
  }

  /** An import over items that all settle changes nothing. */
  lemma {:induction false} ImportSettledFeed(prepare: FeedItem -> Draft, posts: map<nat, Post>, feed: seq<FeedItem>, i: nat, stop: nat)
    requires i <= stop <= |feed|
    requires forall j :: i <= j < stop ==> Settled(prepare, posts, feed[j])
    requires stop < |feed| ==> StepWith(prepare, posts, feed[stop]).Raised?
    ensures ImportWith(prepare, posts, feed, i) ==
            ImportResult(posts, if stop < |feed| then Aborted(stop, StepWith(prepare, posts, feed[stop]).error) else Completed)
    decreases stop - i
  {
    if i < stop {
      ImportSettledFeed(prepare, posts, feed, i + 1, stop);
    }
  }

  /** Importing is idempotent: a second import of the same feed adds no post and ends the same way. */
  lemma ImportIdempotent(posts: map<nat, Post>, feed: seq<FeedItem>)
    ensures Import(Import(posts, feed).posts, feed) == Import(posts, feed)
  {
    var r := ImportWith(DraftOf, posts, feed, 0);
    ImportSettles(DraftOf, posts, feed, 0);
    ImportSettledFeed(DraftOf, r.posts, feed, 0, StopIndex(r, feed));
  }

  /** Titles stay unique: however often an item is listed or imported, at most one post has its title. */
  lemma ImportKeepsTitlesUnique(posts: map<nat, Post>, feed: seq<FeedItem>)
    requires PostTable(posts)
    ensures PostTable(Import(posts, feed).posts)
    ensures Extends(Import(posts, feed).posts, posts)
  {
    ImportKeepsTable(DraftOf, posts, feed, 0);
    ImportOnlyAdds(DraftOf, posts, feed, 0);
  }

  /** What the importer promises about a post it created from `item`: no local author, and the
      defaults for a missing image, body and creator. */
  ghost predicate ImportedFrom(item: FeedItem, post: Post)
  {
    && item.title == Some(post.title)
    && item.description == Some(post.subtitle)
    && post.authorId == None
    && post.imgUrl == (if item.imageUrl.None? then PlaceholderImage else item.imageUrl.value)
    && Some(post.body) == (if item.content.None? then item.link else item.content)
    && post.authorApi == FirstElement(if item.creator.None? then UnknownCreator else item.creator.value)
    && item.pubDate.Some? && Some(post.date) == DisplayDate(item.pubDate.value)
  }

  /** Every post the import creates comes from an item of the feed, with the defaults applied. */
  lemma ImportedPostsFollowDefaults(posts: map<nat, Post>, feed: seq<FeedItem>, id: nat)
    requires id in Import(posts, feed).posts && id !in posts
    ensures exists j :: 0 <= j < |feed| && ImportedFrom(feed[j], Import(posts, feed).posts[id])
  {
    ImportOnlyAdds(DraftOf, posts, feed, 0);
    var post := Import(posts, feed).posts[id];
    var j :| 0 <= j < |feed| && BuiltFrom(DraftOf, feed[j], post);
    ReadyDraftFollowsDefaults(feed[j], post);
  }

  /** A row built from a ready draft has the importer's defaults. */
  lemma ReadyDraftFollowsDefaults(item: FeedItem, post: Post)
    requires BuiltFrom(DraftOf, item, post)
    ensures ImportedFrom(item, post)
  {
  }

  /** An item that raises stops the whole import: the table is what importing only the items
      before it gives. */
  lemma {:induction false} ImportAbortIsPrefix(prepare: FeedItem -> Draft, posts: map<nat, Post>, feed: seq<FeedItem>, i: nat)
    requires i <= |feed|
    requires ImportWith(prepare, posts, feed, i).outcome.Aborted?
    ensures var k := ImportWith(prepare, posts, feed, i).outcome.at;
            && i <= k < |feed|
            && ImportWith(prepare, posts, feed[..k], i) == ImportResult(ImportWith(prepare, posts, feed, i).posts, Completed)
    decreases |feed| - i
  {
    ImportOnlyAdds(prepare, posts, feed, i);
    var k := ImportWith(prepare, posts, feed, i).outcome.at;
    var step := StepWith(prepare, posts, feed[i]);
    if !step.Raised? {
      var next := AfterStep(posts, step);
      ImportAbortIsPrefix(prepare, next, feed, i + 1);
      assert feed[..k][i] == feed[i];
    }
  }

  /** An item without a creator is stored with the author "u": `creator[0]` of the default "unknown". */
  lemma DefaultedCreatorIsU()
    ensures FirstElement(UnknownCreator) == Some("u")
  {
  }
}
