# Norman-Blog in Dafny

A model of the core of a small Flask blog (`main.py`). The blog keeps three database tables (SQLite by default): users, blog posts and comments. It has these parts:

- the home page imports news items from a feed into the post table (`NewsData`, `data_from_api`);
- the `admin_only` guard lets only the user with id 1 manage posts;
- the request handlers register and log in users, add comments, and add, edit and delete posts.

The modules follow the program's structure:

- `Options` holds the option type.
- `Text` covers splitting on a separator, counting a character, and decimal fields with zero padding.
- `Calendar` covers `datetime.strptime(text, "%Y-%m-%d")` and `strftime("%B %d, %Y")`, with the Gregorian calendar rules behind `datetime`.
- `Passwords` covers the "method:iterations$salt$digest" texts that werkzeug's `generate_password_hash` stores and `check_password_hash` checks. The key-derivation function (PBKDF2-SHA256) is a parameter, so every property holds whatever that function is.
- `Schema` has the three rows and the SQLite row-id rule: a new row gets the largest id plus one, or 1 in an empty table. It also has the unique-title invariant of the post table.
- `Feed` has the feed item and the `NewsData` class, whose `Prepare` method overwrites missing fields in place. It also has the pure specification of one import pass (`StepWith`) and of the whole import loop (`Import`), with the lemmas about them.
- `BlogApp` has the class `Blog`: the three tables as maps plus the logged-in user, with one method per request handler. `ImportFeed` runs the import loop and is proved equal to `Import`.
- `Scenarios` runs whole requests on a fresh database: the first user becomes the administrator, a wrong password or an anonymous comment is refused, and it shows what one feed item becomes.

How the import treats each kind of item:

- An item whose title already exists is skipped.
- The date is the `pubDate` text before the first space, parsed as `%Y-%m-%d` outside the `try`. If it does not parse, the whole import raises.
- Inside the `try`, `creator[0]` raising `IndexError` skips the item before any row is added.
- A NULL title, subtitle or body fails its NOT NULL constraint at the commit. The bare `except` swallows that error but does not roll the session back, so the next use of the database raises. The model therefore ends the import at that item with `Aborted(at, CommitError)`.

Two consequences of the code that are easy to miss:

- A feed item dated `"2024-03-01T10:00:00Z"` has no space, so the whole text goes to `%Y-%m-%d`. That parse fails outside the `try` and the import raises (`Scenarios.ImportStormExample`); the item is never stored as "March 01, 2024".
- An item without a creator is stored with the author `"u"`, because `creator[0]` of the default `"unknown"` is its first character (`Feed.DefaultedCreatorIsU`).

## Model

| member | source | states |
|---|---|---|
| Text.BeforeFirst | main.py:124 | `split(" ")[0]`: the result has no separator, is a prefix of the text, and is followed by the separator unless it is the whole text |
| Text.AfterFirst | main.py:124 | what follows the first separator: the text is the head, the separator and this rest; without a separator the rest is empty |
| Text.SplitJoined | main.py:124 | splitting `a + sep + b` at the first separator gives back `a` and `b` when `a` has no separator |
| Text.Count | main.py:191 | the number of occurrences is at most the length, and zero exactly when the character is absent |
| Text.CountJoined | main.py:191 | a separator joined after a head without it adds exactly one occurrence |
| Text.DecimalValue | main.py:124 | a field has a value exactly when it is non-empty and all ASCII digits, and the value is below 10^length |
| Text.DecimalText | main.py:166 | the iteration count werkzeug writes into the hash: a non-empty run of digits |
| Text.DecimalValueText | main.py:166-191 | reading a number's decimal text back gives the number |
| Text.Padded | main.py:132 | `%d`/`%Y` output: exactly `width` digits |
| Text.PaddedDecimalValue | main.py:124 | a run of digits is the zero-padded text of its own value |
| Text.DecimalValuePadded | main.py:124-132 | reading a zero-padded number back gives the number |
| Calendar.DaysInMonth | main.py:124 | 28 to 31 days; February has 29 exactly in leap years |
| Calendar.DateOfFields | main.py:124 | only valid calendar dates (year 1..9999, day within its month) come out of three digit fields |
| Calendar.ParseYmd | main.py:124 | `strptime(..., "%Y-%m-%d")` accepts only valid dates |
| Calendar.ParseYmdFields | main.py:124 | a 4-digit year, `-`, a 1–2 digit month, `-`, a 1–2 digit day parses to that date exactly when the date is valid |
| Calendar.ParseYmdShape | main.py:124 | every accepted text is the date's 4-digit year, `-`, a 1–2 digit month and `-`, a 1–2 digit day, the fields reading as the date's month and day |
| Calendar.ParseIsoText | main.py:124 | the zero-padded "YYYY-MM-DD" text of a valid date parses back to it |
| Calendar.LeapDayAccepted | main.py:124 | February 29th is accepted exactly in leap years |
| Calendar.SingleDigitFields | main.py:124 | months and days written with one digit are accepted like their padded forms |
| Calendar.ParseYmdMonthThirteen | main.py:124 | "2024-13-01" is refused |
| Calendar.ParseYmdTrailingTime | main.py:124 | "2024-03-01T10:00:00Z" is refused: text after the day is not allowed |
| Calendar.IsoText | main.py:124 | the "YYYY-MM-DD" text of a date is 10 characters |
| Calendar.MonthName | main.py:132 | `%B`: a month's English name, at least 3 letters and no space |
| Calendar.FormatLong | main.py:132 | `"%B %d, %Y"` is the month name plus 9 characters |
| Calendar.MonthNumber | main.py:132 | a recognised name is the name of the month it returns |
| Calendar.MonthNumberOfName | main.py:132 | each month's name reads back as that month |
| Calendar.ParseLong | main.py:132 | reading a long date yields only valid dates |
| Calendar.ParseFormatLong | main.py:132 | a stored long date reads back as the very date formatted |
| Passwords.StoredMethod | main.py:166 | the stored method text is "pbkdf2:sha256:" followed by the iteration count, and holds no `$` |
| Passwords.IterationsReadBack | main.py:166-191 | the check reads the iteration count back from the stored method text |
| Passwords.GeneratePasswordHash | main.py:166 | the stored text starts with "pbkdf2:sha256:<iterations>" and `$` |
| Passwords.CheckPasswordHash | main.py:191 | a stored text with fewer than two `$` never matches; its meaning on generated hashes is `CheckGeneratedHash` |
| Passwords.CheckGeneratedHash | main.py:166-191 | checking an attempt against a generated hash succeeds exactly when the attempt derives the same digest with that salt and method; the original password always succeeds |
| Schema.RowIdAfter | main.py:46 | a new row id is at least 1, unused, above every existing id, and either 1 or the successor of an existing id |
| Schema.EmailTaken | main.py:162 | the email lookup finds a user exactly when some row has that email (the same lookup opens `login` at main.py:189) |
| Schema.Titles | main.py:113 | a title is present exactly when some post has it |
| Schema.FirstUserNamed | main.py:245 | `filter_by(name=...).first()`: none exactly when nobody has the name, otherwise the smallest id with that name |
| Schema.InsertPostKeepsTable | main.py:79 | inserting a post with a new title under the next row id keeps titles unique and adds exactly its title |
| Feed.NewsData.constructor | main.py:101-108 | the object holds the item's seven fields |
| Feed.NewsData.Prepare | main.py:116-133 | the object's image becomes the placeholder when missing, its body the link when missing, its author "unknown" when missing; title, subtitle, date and link stay; the row built is `DraftOf` the item |
| Feed.FirstElement | main.py:131 | `creator[0]`: fails exactly on an empty string or list; otherwise the first character or the first name |
| Feed.DisplayDate | main.py:124-132 | no date exactly when the text before the first space does not parse |
| Feed.DisplayDateReadsBack | main.py:124-132 | the stored date reads back as the date the feed's text names |
| Feed.DisplayDateOfTimestamp | main.py:124-132 | "YYYY-MM-DD hh:mm:ss" is stored as the long form of its date |
| Feed.BuildDraft | main.py:124-135 | the date raises exactly when `pubDate` is null or does not parse; `creator[0]` raising skips the item; a null subtitle or body fails the commit; otherwise the row holds the long date, `creator[0]`, the subtitle, body and image |
| Feed.DraftOf | main.py:116-135 | a ready row carries the item's description, the placeholder for a missing image, the link for a missing body, `creator[0]` of "unknown" for a missing creator, and the long form of its date |
| Feed.StepOfDraft | main.py:125-137 | an inserted row gets the next row id, the item's title and no local author, and is the prepared row |
| Feed.StepWith | main.py:113-137 | a pass is a duplicate (the `continue` at main.py:114) exactly when its title is already present; a new title with a ready row is inserted; an inserted row is built from the item under the next row id |
| Feed.ImportWith | main.py:110-137 | the loop stops only at an item of the feed that raises on the table it leaves behind |
| Feed.Import | main.py:110-137 | `data_from_api`: an abort names an item that raises on the resulting table; an empty feed changes nothing |
| Feed.ImportOnlyAdds | main.py:110-137 | the import never changes or removes an existing post, every new post is built from some item, and an abort names an item of the feed |
| Feed.ImportKeepsTable | main.py:110-137 | every post stays under its own id and titles stay unique through the loop |
| Feed.ImportSettles | main.py:110-137 | after an import, every item before the stop is a duplicate or skipped in the resulting table, and the stopping item raises the same error again |
| Feed.ImportSettledFeed | main.py:110-137 | an import over items that all settle changes nothing and ends the same way |
| Feed.ImportIdempotent | main.py:113-114 | importing the same feed twice gives the same table and outcome as once |
| Feed.ImportKeepsTitlesUnique | main.py:79 | the import keeps the post table keyed with unique titles and keeps every existing post |
| Feed.ImportedPostsFollowDefaults | main.py:116-132 | every imported post comes from a feed item, with the placeholder image, the link as body and `creator[0]` of "unknown" for missing fields, and the long form of its date |
| Feed.ReadyDraftFollowsDefaults | main.py:116-132 | a row built from an item carries the importer's defaults |
| Feed.ImportAbortIsPrefix | main.py:124-137 | an aborted import leaves the table that importing only the items before the failing one gives |
| Feed.DefaultedCreatorIsU | main.py:122-131 | a missing creator is stored as "u" |
| BlogApp.AdminAllowed | main.py:140-147 | the handler runs exactly when the session's user has id 1 |
| BlogApp.Blog.constructor | main.py:88 | empty tables and an anonymous session |
| BlogApp.Blog.Register | main.py:158-176 | a known email adds nobody; otherwise exactly one user with the hashed password is added under the next id and logged in |
| BlogApp.Blog.Login | main.py:185-200 | unknown email and wrong password are refused apart and leave the session alone; success logs in the user with that email whose hash checks |
| BlogApp.Blog.Logout | main.py:203-207 | anonymous requests are refused; afterwards nobody is logged in |
| BlogApp.Blog.AddComment | main.py:210-227 | anonymous comments are not stored; otherwise exactly one comment by the session's user is added under the next id, linked to the post when it exists and to none otherwise |
| BlogApp.Blog.AddNewPost | main.py:240-258 | non-admins get 403, a duplicate title fails, otherwise exactly one post by user 1, dated today in long form, is added under the next id |
| BlogApp.Blog.EditPost | main.py:261-282 | non-admins get 403; a missing post or a title clash fails; otherwise only the title, subtitle, image and body of that post change |
| BlogApp.Blog.DeletePost | main.py:285-291 | non-admins get 403; a missing post fails; otherwise exactly that post is removed |
| BlogApp.Blog.ImportFeed | main.py:110-137 | the loop's final table and outcome are those of `Import` on the table it started from |
| BlogApp.Blog.ImportItem | main.py:111-137 | one pass does what `StepWith` specifies and commits only an inserted row |
| Scenarios.FirstUserIsAdmin | main.py:140-193 | the first user registered gets id 1, passes `admin_only`, and logs back in with the same password |
| Scenarios.SecondUserIsNotAdmin | main.py:158-173 | a second user gets id 2 and no admin rights; a repeated email is refused |
| Scenarios.WrongPasswordRefused | main.py:185-196 | a password deriving another digest is refused and the session stays anonymous |
| Scenarios.CommentNeedsLogin | main.py:210-226 | an anonymous comment is refused; a logged-in user's comment on a missing post gets id 1 and no post |
| Scenarios.ReadyStep | main.py:113-135 | on an empty table, an item that yields a ready row is inserted as post 1 |
| Scenarios.DatedDraft | main.py:116-132 | a dated item without creator, content or image yields the author "u", its link as body and the placeholder image |
| Scenarios.DatedItemImported | main.py:110-137 | such an item imported into an empty table becomes post 1, stored with the long form of its date |
| Scenarios.UndatedItemAborts | main.py:124 | an item whose date does not parse stops the import with nothing stored |
| Scenarios.NullSubtitleStep | main.py:126-135 | an item without description fails its commit |
| Scenarios.NullSubtitleStopsImport | main.py:125-137 | after such a failed commit nothing else is imported, whatever follows |
| Scenarios.EmptyCreatorStep | main.py:131 | an empty creator list raises `IndexError` inside the `try` |
| Scenarios.EmptyCreatorSkipped | main.py:125-137 | such an item is skipped and the import completes |
| Scenarios.MarchFirstIso | main.py:124 | March 1st, 2024 in "%Y-%m-%d" is "2024-03-01" |
| Scenarios.MarchFirstLong | main.py:132 | March 1st, 2024 in "%B %d, %Y" is "March 01, 2024" |
| Scenarios.SpacedTimestampDay | main.py:124 | `split(" ")[0]` of "2024-03-01 10:00:00" is "2024-03-01" |
| Scenarios.SpacedTimestampDate | main.py:124-132 | "2024-03-01 10:00:00" is stored as "March 01, 2024" |
| Scenarios.IsoTimestampWhole | main.py:124 | "2024-03-01T10:00:00Z" has no space and is kept whole by the split |
| Scenarios.IsoTimestampDate | main.py:124 | "2024-03-01T10:00:00Z" does not parse, so the date raises |
| Scenarios.ImportStormExample | main.py:110-137 | an item titled "Storm hits coast" dated "2024-03-01 10:00:00" is stored as post 1, dated "March 01, 2024", author "u"; dated "2024-03-01T10:00:00Z" it stops the import with nothing stored |

## Left out

- The HTTP request to the feed (`news_data`, `requests.get` and `.json()["results"]`) and the environment configuration are not modelled. The feed is a parameter: a sequence of items with every key present, each value possibly null. A missing key (`KeyError`) is not modelled.
- Rendering, redirects, flashed messages, Gravatar, CKEditor and WTForms validation are not modelled. Each handler is modelled for a submitted, valid form, and its outcome stands for the HTTP answer.
- `get_all_posts` lists the posts ordered by their date text. Only its import call is modelled; the listing query is not.
- The random salt of `generate_password_hash` and today's date in `add_new_post` are parameters.
- The PBKDF2-SHA256 function and werkzeug's default iteration count are parameters. werkzeug's own source is not part of this model. The key-derivation function receives the stored method text, so that the iteration count it uses is the one written into the hash.
- `strptime`'s `%d` also accepts a space before a single digit; the importer never passes a text with a space, so `Calendar.ParseYmd` refuses it.
- `strptime` also accepts non-ASCII Unicode digits and is locale-dependent for `%B`. The model reads ASCII digits and writes English month names. Some C libraries write years below 1000 without padding; the model always writes four digits.
- `pubDate` values that are not strings, and creator values other than a string or a list of strings, are not modelled.
- The String(250) length limits are not modelled: SQLite does not enforce them.
- BlogApp.Blog.DeletePost: the comments on a deleted post stay in their table. The ORM relationship without a cascade would instead set their `post_id` to NULL at the flush.
- The page `show_post` renders after storing a comment on a missing post fails on `requested_post.body`; that rendering is not modelled, and the comment stays stored with a null `post_id`.
- BlogApp.Blog.ImportFeed: after a failed commit, the source raises at the next database call, which is the next item's title query or, after the last item, the listing query. The model leaves the loop at the failing item. The stored rows and the failed request are the same either way.
- The model assumes the default SQLite database (`sqlite:///blog.db`). When `DATABASE_URL1` names another database, new ids come from that database's rules (for example a PostgreSQL sequence never reuses an id), so `Schema.RowIdAfter` and the row order behind `Schema.FirstUserNamed` no longer describe it.
- `first()` without an ORDER BY is assumed to return rows in row-id order, as SQLite does for a table scan. This is why `add_new_post` finds user 1 when another user has the administrator's name.
- The session (`current_user`) is one field of the application state: concurrent requests and several browsers are not modelled.
