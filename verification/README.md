# RSS Studio: a verified model of the subscription store, the feed fetcher and the dashboard script

RSS Studio is a small feed reader for RSS and podcast feeds. It has a
FastAPI back end and a browser dashboard. The back end stores
subscriptions (`feeds`) and their items (`episodes`) in a SQL database.
It fetches a feed with conditional requests, turns every parsed entry into
an episode record, and adds the episodes whose `(feed_id, guid)` is not
stored yet. It answers list queries sorted newest first. The dashboard
lists the feeds and the latest 20 episodes, filters episodes by feed,
collapses long descriptions, and switches tabs and the light/dark theme.

This project models that core in Dafny and proves properties of it:

- `base.dfy`: optional values, results, and the truthiness of Python's
  `or` and JavaScript's `||`.
- `strings.dfy`: substring search, trimming with Python's and with
  JavaScript's whitespace sets, and JavaScript's UTF-16 length.
- `collections.dfy`: filter, order-preserving map, first match, key
  uniqueness, and a descending sort that puts missing keys last
  (SQL `ORDER BY … DESC NULLS LAST`).
- `models.dfy`: the `feeds` and `episodes` tables, their unique
  constraints, the foreign key with its delete cascade, and the order of
  a feed's episodes.
- `rss.dfy`: the conditional-request headers (sections 13.1.2 and 13.1.3
  of RFC 9110). It also covers the classification of the response status
  (304 Not Modified, section 15.4.5 of RFC 9110) and the normalisation of
  entries: guid fallback, and the audio enclosure (section 4.2.7.2 of
  RFC 4287). Summaries go through HTML-to-Markdown.
- `schemas.dfy`: the episode query's `limit` check and the request
  defaults.
- `crud.dfy`: the class `Store`, a database with one session.
  - It holds the committed rows, the episodes pending in the session, and
    the id counters.
  - It implements create, delete, upsert, refresh and the queries.
  - Commits re-check the unique constraints and roll back on a violation.
- `frontend.dfy`: the dashboard's feed lookups, count badges, filter
  options and episode path, the collapse toggle, the cards, and `request`.
  The class `Dashboard` holds the state the script writes.
- `theme.dfy`: the theme toggle. The class `ThemeControls` keeps local
  storage as a map.
- `tabs.dfy`: the dashboard tabs. The class `DashboardTabs` updates its
  tab and panel arrays in place.

Foreign code appears as function parameters:

- `parse`: the feed parser.
- `convert`: the HTML-to-Markdown converter.
- `render`: the text content of the HTML that Markdown rendering and
  sanitising produce.
- `locale`: date formatting.

The clock is the parameter `now`, the operating system's colour preference
is `osDark`/`matches`, and the outcome of an HTTP request is the parameter
`reply` or `response`.

The collapse rule compares the trimmed text's `length`, which counts
UTF-16 code units; the model does the same.

## Model

| member | source | states |
|---|---|---|
| Strings.ContainsIffOccurs | app/rss.py:50 | Python's `p in s` holds exactly when `p` occurs in `s` at some index |
| Strings.Trim | app/rss.py:34 | the stripped string is empty exactly when the input is all whitespace; otherwise it neither starts nor ends with whitespace |
| Strings.TrimIsInfix | app/rss.py:34 | the stripped string is a slice of the input with only whitespace before and after it |
| Strings.TrimIdempotent | app/static/app.js:60 | trimming twice gives the same string as trimming once |
| Strings.Utf16Length | app/static/app.js:61 | a JavaScript string's `length` is between its number of characters and twice that; it equals the number of characters when all of them are in the Basic Multilingual Plane |
| Collections.Filter | app/crud.py:120-121 | the kept elements are exactly the input elements that satisfy the predicate, and no element occurs more often than in the input |
| Collections.FilterCounts | app/crud.py:120-121 | an element that satisfies the predicate is kept exactly as often as the input holds it, and any other element not at all |
| Collections.Map | app/static/app.js:139-144 | one result per input element, position by position |
| Collections.AppendEach | app/static/app.js:153-199 | the `forEach` loop that appends one item per element builds exactly the mapped list |
| Collections.FindFirst | app/static/app.js:46 | `find` returns the first index whose element satisfies the predicate, or nothing when none does |
| Collections.InsertKeepsSorted | app/crud.py:119 | inserting into a descending, missing-last order keeps that order |
| Collections.SortDesc | app/crud.py:119 | `ORDER BY … DESC NULLS LAST` returns a permutation of its input, in descending order with missing keys last |
| Collections.SortDescKeepsDistinctKeys | app/crud.py:30 | sorting keeps keys that were distinct distinct |
| Collections.Take | app/crud.py:122 | `LIMIT n` returns a prefix of length `min(n, count)`, so no element more often than in the input |
| Models.FeedsExcept | app/crud.py:48-50 | after the delete, no feed has the id, every other feed remains, and nothing is added or duplicated |
| Models.EpisodesExcept | app/models.py:45-47 | the delete cascade removes exactly the episodes that reference the deleted feed, and duplicates none |
| Models.CascadeDeleteKeepsWellFormed | app/models.py:45-47 | deleting a feed together with its episodes keeps every constraint: URL and `(feed_id, guid)` uniqueness, the primary keys, the foreign key and non-null guids |
| Models.DeleteWithoutCascadeOrphans | app/models.py:27-33 | deleting only the feed row, when the feed still has an episode, breaks the foreign key: that episode references no feed |
| Models.FeedEpisodes | app/models.py:32 | a feed's `episodes` relationship holds exactly that feed's episodes, none more often than stored, newest first with undated ones last |
| Rss.HtmlToMarkdown | app/rss.py:30-35 | a falsy input comes back unchanged; otherwise the result is missing exactly when the converter's output is all whitespace, and is otherwise the non-empty stripped output: a slice of it with only whitespace around, that neither starts nor ends with whitespace |
| Rss.FirstTruthy | app/rss.py:93 | the guid is the first truthy value among `id`, `guid` and `link`, else the last of them |
| Rss.ExtractAudio | app/rss.py:46-56 | the href of the first enclosure whose type contains "audio" or whose `rel` is "enclosure"; only when there is none, the href of the first link whose type starts with "audio"; else nothing |
| Rss.EntryPayloadOf | app/rss.py:90-101 | an entry's guid is its first truthy `id`, `guid` or `link`; its summary is converted to Markdown; its audio URL is the chosen enclosure; title, link, date and duration are copied |
| Rss.FeedMetaOf | app/rss.py:103-116 | the channel description is the subtitle, else the description, converted to Markdown; title, link, language and date are copied |
| Rss.RequestHeaders | app/rss.py:67-74 | fixed `User-Agent` and `Accept` headers; `If-None-Match` is present exactly when the etag is truthy and `If-Modified-Since` exactly when the last-modified value is; no other header |
| Rss.MapEntries | app/rss.py:88-101 | one normalised record per parsed entry, in the same order |
| Rss.InterpretResponse | app/rss.py:79-118 | 304 gives "not modified" without parsing; any status from 400 up is an HTTP error; a malformed document with no entries is a parse error; otherwise the response's validators, the channel metadata and one record per entry |
| Schemas.ValidateLimit | app/schemas.py:67-72 | the limit is accepted unchanged exactly when it lies in 1..200, and rejected otherwise |
| Schemas.MakeEpisodeQuery | app/schemas.py:63-72 | an omitted limit becomes 50; a given one is validated; every query built has a limit in 1..200 |
| Schemas.MakeFeedCreate | app/schemas.py:13-14 | `auto_refresh` is true unless given |
| Crud.FindEpisode | app/crud.py:62-65 | the lookup finds an episode exactly when one with this feed and guid is stored, and returns a stored episode with that feed and guid |
| Crud.NewEpisode | app/crud.py:69-78 | a new episode row carries the feed's id, the entry's non-empty guid and the entry's fields |
| Crud.BatchEpisodes | app/crud.py:104-111 | a refresh batch adds at most one episode per entry, with consecutive ids, the feed's id, non-empty guids not yet stored |
| Crud.BatchOrigin | app/crud.py:69-78 | every episode of a batch carries the guid of one of the entries |
| Crud.BatchCoversGuids | app/crud.py:106-111 | after the batch, every truthy guid of the entries is stored for the feed |
| Crud.StaleBatchIsEmpty | app/crud.py:62-67 | a batch whose entries are all already stored, or have no guid, adds nothing |
| Crud.RefreshAgainAddsNothing | app/crud.py:104-113 | refreshing again with the same entries adds no episode |
| Crud.DistinctGuidsBatchIsUnique | app/crud.py:104-113 | when the entries' guids are pairwise distinct, the batch never repeats a `(feed_id, guid)` |
| Crud.RepeatedFreshGuidBreaksBatch | app/crud.py:104-113 | a new guid that occurs twice among the entries makes the batch repeat a `(feed_id, guid)`, so the commit fails |
| Crud.ApplyFeedMetadata | app/crud.py:83-88 | each of title, description, link, language and last-published takes the payload's value when it is truthy and keeps the old one otherwise; the other columns are unchanged |
| Crud.ApplyFeedMetadataIdempotent | app/crud.py:83-88 | applying the same metadata twice is the same as applying it once |
| Crud.RefreshedFeed | app/crud.py:99-102 | etag and last-modified change only to truthy fetched values; the check time is now; id and URL are kept; the rest is the merged metadata |
| Crud.SameKeysKeepFeedConstraints | app/models.py:17 | updating feed rows in place without changing ids or URLs keeps the feed constraints |
| Crud.BatchCommitSucceedsIff | app/crud.py:113 | the refresh commit passes the unique constraints exactly when the batch itself repeats no `(feed_id, guid)` |
| Crud.CommitKeepsInvariant | app/crud.py:17-20 | a commit that passes the constraints keeps the store invariant, and so does a rollback |
| Crud.AddFeedKeepsInvariant | app/crud.py:14-18 | adding a feed with a new URL under the next id keeps the store invariant |
| Crud.NewUrlIff | app/models.py:17 | a new feed passes the unique constraints exactly when no stored feed has its URL |
| Crud.DeleteFeedKeepsInvariant | app/crud.py:48-50 | the delete cascade keeps the store invariant |
| Crud.AddPendingKeepsInvariant | app/crud.py:69-79 | adding a fresh episode of a stored feed to the session keeps the store invariant |
| Crud.Store.constructor | app/models.py:11-56 | an empty database satisfies the store invariant |
| Crud.Store.Commit | app/crud.py:113 | the flushed state becomes the committed one exactly when it passes the unique constraints; otherwise the transaction is rolled back; either way the session is emptied |
| Crud.Store.CreateFeed | app/crud.py:14-23 | a URL already stored gives `FeedAlreadyExists` and leaves the store unchanged; otherwise exactly one feed is added, with a new id, the URL, and nothing fetched yet (no title, description, link, language, validators or dates) |
| Crud.Store.DeleteFeed | app/crud.py:48-50 | the feed and every episode of it are deleted, nothing else, and the store invariant holds |
| Crud.Store.UpsertEpisode | app/crud.py:57-80 | a falsy guid adds nothing and returns no episode; a stored `(feed_id, guid)` returns the stored episode and adds nothing; otherwise exactly one episode built from the payload joins the session and is returned |
| Crud.Store.StampChecked | app/crud.py:94-97 | "not modified" sets only the feed's check time and reports 0 new and 0 skipped |
| Crud.Store.UpsertAll | app/crud.py:104-111 | the entries loop puts exactly the batch in the session; new counts its episodes and new + skipped is the number of entries |
| Crud.Store.RefreshFeed | app/crud.py:91-115 | "not modified" only stamps the check time. Otherwise the commit succeeds exactly when the batch repeats no `(feed_id, guid)`. Success stores the batch and the merged feed row and reports new = batch size, skipped = the rest. Failure is `IntegrityError` with nothing changed |
| Crud.GetFeed | app/crud.py:35-36 | finds a feed exactly when one has the id, and returns that feed |
| Crud.ListFeeds | app/crud.py:26-32 | every stored feed exactly once, by id descending |
| Crud.ListFeedsStrictlyDescending | app/crud.py:30 | with distinct ids the order is strictly descending |
| Crud.Matching | app/crud.py:120-121 | with a truthy feed id, exactly the episodes of that feed; with 0 or none, every episode; none more often than stored |
| Crud.ListEpisodes | app/crud.py:118-123 | at most `limit` matching stored episodes (fewer only when fewer match), none more often than stored, newest first with undated ones last |
| Crud.ListEpisodesKeepsNewest | app/crud.py:118-123 | a matching episode cut off by the limit is no newer than any episode returned |
| Frontend.DigitChar | app/static/app.js:133 | a decimal digit character stands for its value |
| Frontend.NatToString | app/static/app.js:133 | `toString()` of a count is a decimal string without a leading zero that reads back as the count |
| Frontend.PadStart | app/static/app.js:133 | `padStart(2, "0")` leaves a long enough string alone and otherwise prefixes fill characters up to the width |
| Frontend.ZerosKeepValue | app/static/app.js:133 | leading zeros do not change the number a decimal string denotes |
| Frontend.CountBadge | app/static/app.js:133 | the badge is at least two decimal digits, with a leading "0" below ten, and reads back as the count, so different counts show different badges |
| Frontend.IntToString | app/static/app.js:141 | an option's value is the canonical decimal text of the feed's id (no leading zero, no "-0") and reads back as that id |
| Frontend.FindFeed | app/static/app.js:46 | `find` returns the first feed with the id, or nothing when no feed has it |
| Frontend.FeedDisplayName | app/static/app.js:50-54 | "未知来源" for the id 0 or an unknown feed; otherwise the first matching feed's title, else its URL, else "未知来源"; never empty |
| Frontend.FeedHomepage | app/static/app.js:44-48 | null for the id 0 or an unknown feed; otherwise the first matching feed's link, else its URL, else null; never an empty string |
| Frontend.OptionFor | app/static/app.js:140-143 | a feed's option is valued by text that reads back as its id and labelled with its title, else its URL |
| Frontend.FilterOptionsFor | app/static/app.js:137-144 | the filter has the "全部订阅" option with value "" first, then one option per feed, in feed order, valued by its id and labelled with its title, else its URL |
| Frontend.EpisodesPath | app/static/app.js:252-253 | an empty filter value requests `/episodes`; any other value requests `/episodes?feed_id=` followed by exactly that value |
| Frontend.FilterOptionPath | app/static/app.js:252-253 | the first option requests every episode; a feed's option requests `/episodes?feed_id=` followed by text that reads back as that feed's id |
| Frontend.AttachToggle | app/static/app.js:56-75 | a toggle is attached exactly when the trimmed text is longer than 180, and it starts collapsed, labelled "展开" with `aria-expanded` "false" |
| Frontend.ToggleNeedsLongText | app/static/app.js:60-61 | only a text longer than 90 characters can get a toggle, and any text with more than 180 characters left after trimming gets one |
| Frontend.ToggleLabel | app/static/app.js:71 | the toggle reads "收起" exactly when expanded and "展开" exactly when collapsed |
| Frontend.Flip | app/static/app.js:69-73 | a click on the toggle flips its expanded state, its text and its `aria-expanded` |
| Frontend.RenderedText | app/static/app.js:10-22 | a falsy Markdown text shows the fallback; otherwise the rendered text when both libraries are loaded, else the Markdown itself |
| Frontend.FeedCardFor | app/static/app.js:153-168 | a feed card shows the title, else "未命名订阅"; the description as rendered (the Markdown itself when the libraries are missing), else the URL; the check time, else "未抓取"; and the toggle of its description |
| Frontend.EpisodeCardFor | app/static/app.js:213-237 | an episode card shows the title, else "未命名节目"; "来源：" and the feed's name; the summary as rendered (the Markdown itself when the libraries are missing), else "暂无简介"; the date, else now; the link, labelled "打开原文" with the title "在新标签打开原网页"; and the toggle of its description |
| Frontend.EpisodeHref | app/static/app.js:234 | an episode's link is its own link when truthy, else its feed's homepage when there is one, else "#"; never empty |
| Frontend.FeedCards | app/static/app.js:152-199 | one feed card per feed, in order |
| Frontend.EpisodeCards | app/static/app.js:212-238 | one episode card per episode, in order |
| Frontend.RequestOutcome | app/static/app.js:119-129 | a 2xx status succeeds, with no body for 204; any other status fails with the body's `detail` when truthy, else "请求失败" |
| Frontend.Dashboard.constructor | app/static/app.js:23 | the page starts with no current feeds and a filter on "all" |
| Frontend.Dashboard.RenderFeeds | app/static/app.js:131-200 | the current feeds become the given ones; the badges show their count; the filter is rebuilt and reset to "all"; the list shows one card per feed or the empty message |
| Frontend.Dashboard.RenderEpisodes | app/static/app.js:202-239 | the episode badge shows the count, and the list shows one card per episode, resolved against the current feeds, or the empty message |
| Frontend.Dashboard.LoadFeeds | app/static/app.js:241-248 | a successful reply is rendered as `renderFeeds` does (feeds, filter, badges, cards, empty message); an error becomes a "danger" toast and changes nothing else |
| Frontend.Dashboard.LoadEpisodes | app/static/app.js:250-259 | the path is `/episodes?feed_id=…` exactly when the filter value is non-empty; a successful reply renders its first 20 episodes at most, with the badge showing how many are shown; an error becomes a "danger" toast and changes nothing else |
| Frontend.Dashboard.ChooseFilter | app/static/app.js:317 | choosing an option sets the filter value to that option's value, keeps the filter consistent and changes nothing else |
| Frontend.Dashboard.ClickFeedToggle | app/static/app.js:69-73 | a click on a feed card's toggle flips only that toggle and changes nothing else on the page |
| Frontend.Dashboard.ClickEpisodeToggle | app/static/app.js:69-73 | a click on an episode card's toggle flips only that toggle and changes nothing else on the page |
| Theme.Saved | app/static/app.js:93 | `getItem` returns the stored string exactly when the key is present |
| Theme.InitialTheme | app/static/app.js:94-95 | a truthy saved theme wins; otherwise dark exactly when the operating system prefers dark |
| Theme.NextTheme | app/static/app.js:99-101 | a click switches to the other theme |
| Theme.ThemeControls.ApplyTheme | app/static/app.js:77-88 | the theme is dark exactly for "dark"; the button's text, label and `aria-pressed` describe it when there is a button |
| Theme.ThemeControls.Init | app/static/app.js:90-96 | without a button nothing happens; otherwise the initial theme is applied, and a truthy saved theme is the one shown |
| Theme.ThemeControls.Click | app/static/app.js:98-104 | a click flips the theme and saves the new one, which the page then follows |
| Theme.ThemeControls.OsChange | app/static/app.js:106-109 | a change of the system preference is ignored once a theme is saved, leaving the theme and every attribute of the button as they were, and applied otherwise; the saved theme stays the one shown |
| Tabs.TabFor | app/static/app.js:339-343 | a tab is active exactly when its target is the activated one, and `aria-selected` says so |
| Tabs.PanelFor | app/static/app.js:330-338 | a panel is active exactly when its name is the activated one, and hidden exactly when not active |
| Tabs.ActivateSelectsOne | app/static/app.js:329-344 | with distinct tab targets, activating a tab's target leaves that tab the only active and selected one, and hides exactly the panels of other names |
| Tabs.ActivateIdempotent | app/static/app.js:329-344 | activating the same name twice is the same as activating it once |
| Tabs.DashboardTabs.Activate | app/static/app.js:329-344 | every panel, then every tab, is updated in place for the target |
| Tabs.DashboardTabs.ClickTab | app/static/app.js:349-352 | a click on an active tab changes nothing; any other click activates the tab's target; either way the tab ends active |
| Tabs.DashboardTabs.Init | app/static/app.js:346-355 | with no tabs nothing happens; otherwise the "feeds" tab is activated |

## Left out

- Network I/O is not modelled. This covers the `httpx` request of `fetch_feed`, all of `fetch_full_content` with `readability`, and the browser's `fetch`. Responses and replies are parameters.
- `feedparser`, `html2text`, `marked` and `DOMPurify` are foreign libraries. They are the parameters `parse`, `convert` and `render`.
- `_to_datetime` and every `toLocaleString` call depend on time zones and locales. Instants are integers and formatting is the parameter `locale`.
- `get_feed_with_episodes` is not modelled, because no route in the core calls it. The eager loading of `episodes` in `list_feeds` is not modelled either: feeds are returned as rows.
- `app/main.py`, `app/database.py` and `app/config.py` are not part of this model. They only route requests, build the engine and session, and read settings. Each request has its own session, and every operation that writes commits before it returns (app/crud.py:18, app/crud.py:50, app/crud.py:96, app/crud.py:113). So `CreateFeed`, `DeleteFeed`, `StampChecked`, `UpsertAll` and `RefreshFeed` start with an empty session, also when one request creates a feed and then refreshes it.
- The model follows the default SQLite database (app/config.py:13-15). SQLite does not enforce the `String(n)` lengths of app/models.py:17-23 and app/models.py:48-53, so in Crud.BatchCommitSucceedsIff, Crud.Store.Commit, Crud.Store.CreateFeed and Crud.Store.RefreshFeed a commit fails only on the unique constraints; a database that enforces `VARCHAR(n)` would also reject over-long values. Models.FeedEpisodes puts undated episodes last because SQLite orders NULL last under `DESC` and app/models.py:32 asks for no NULL placement; other databases may put them first. Crud.ListEpisodes does not depend on this: app/crud.py:119 asks for `nullslast()`.
- Crud.Store.CreateFeed: ids come from a counter. A database may hand out other values, so the contract promises only that the new id is unused.
- Crud.ListEpisodes: the order among episodes with the same date is not stated, because SQL leaves it open.
- The `url` field of the subscription request is not validated as an `HttpUrl`. The model takes the URL as a string.
- Frontend.Dashboard.LoadFeeds: a 204 reply to a list request, and a non-string `detail`, are not modelled. The reply is a list or a message.
- The toast's timer, the `confirm` prompts and the `disabled` flags of buttons are left out. So are the add panel, the sidebar navigation, `scrollIntoView`, template cloning and event-listener registration.
- `handleRefreshAll`, the subscription form's submit handler and the `Promise.all` fan-out are left out. They only combine modelled requests and reloads.
- Frontend.Dashboard.RenderFeeds: the DOM is modelled as records. An empty-list message is a flag, a card is a record of its texts, and the `hidden` attribute is a boolean.
- Theme.ThemeControls.Click: failures of `localStorage` are not modelled. Storage is a map that always accepts writes.

## Findings

| source | as written | input that shows it | evidently intended | confidence | as-written member | corrected member |
|---|---|---|---|---|---|---|
| app/crud.py:48-50 | `delete_feed` deletes the row of a feed that was loaded with `db.get`, so its `episodes` collection is not loaded. With `passive_deletes=True` (app/models.py:31) the ORM leaves the episodes to the database's `ON DELETE CASCADE`. SQLite is the default database and does not enforce foreign keys unless `PRAGMA foreign_keys` is turned on, which nothing does. | a feed with id 1 and one episode with `feed_id` 1; `DELETE /feeds/1` | the episodes of the feed are deleted with it (app/models.py:45-47), so every episode references a stored feed | medium, not executed | Models.DeleteWithoutCascadeOrphans | Crud.Store.DeleteFeed |
