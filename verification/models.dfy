/** The two tables of the subscription database, `feeds` and `episodes`,
    and the constraints declared on them: primary keys, `feeds.url` unique
    and not null, `episodes.guid` not null, the `(feed_id, guid)` unique
    constraint, the `feed_id` foreign key with its delete cascade, and the
    order of a feed's `episodes` relationship. */
module Models {
  import opened Base
  import opened Collections

  /** A timezone-aware `datetime` column, as an abstract instant. */
  type Time = int

  /** A row of `feeds` (an RSS or podcast source). */
  datatype Feed = Feed(
    id: int,
    url: string,
    title: Option<string>,
    description: Option<string>,
    link: Option<string>,
    language: Option<string>,
    etag: Option<string>,
    modified: Option<string>,
    lastChecked: Option<Time>,
    lastPublished: Option<Time>)

  /** A row of `episodes` (one podcast episode or article of a feed). */
  datatype Episode = Episode(
    id: int,
    feedId: int,
    guid: string,
    title: Option<string>,
    link: Option<string>,
    summary: Option<string>,
    audioUrl: Option<string>,
    duration: Option<string>,
    published: Option<Time>)

  function FeedId(f: Feed): int { f.id }
  function FeedUrl(f: Feed): string { f.url }
  function EpisodeId(e: Episode): int { e.id }
  /** The columns of the `uq_episode_feed_guid` constraint. */
  function EpisodeKey(e: Episode): (int, string) { (e.feedId, e.guid) }
  function Published(e: Episode): Option<Time> { e.published }

  /** The unique constraints the database checks when a transaction
      commits: `feeds.url` and `(episodes.feed_id, episodes.guid)`. */
  predicate UniqueConstraintsHold(feeds: seq<Feed>, episodes: seq<Episode>) {
    DistinctKeys(feeds, FeedUrl) && DistinctKeys(episodes, EpisodeKey)
  }

  predicate HasFeed(feeds: seq<Feed>, id: int) {
    exists i :: 0 <= i < |feeds| && feeds[i].id == id
  }

  /** The `feed_id` foreign key: every episode belongs to a stored feed. */
  predicate EpisodesReferenceFeeds(feeds: seq<Feed>, episodes: seq<Episode>) {
    forall j :: 0 <= j < |episodes| ==> HasFeed(feeds, episodes[j].feedId)
  }

  /** Every stored guid is a non-empty string: the column is NOT NULL and
      the only writer skips falsy guids. */
  predicate GuidsNonEmpty(episodes: seq<Episode>) {
    forall j :: 0 <= j < |episodes| ==> episodes[j].guid != ""
  }

  /** Everything the schema and its writers guarantee of a committed state. */
  predicate WellFormed(feeds: seq<Feed>, episodes: seq<Episode>) {
    UniqueConstraintsHold(feeds, episodes) &&
    DistinctKeys(feeds, FeedId) && DistinctKeys(episodes, EpisodeId) &&
    EpisodesReferenceFeeds(feeds, episodes) && GuidsNonEmpty(episodes)
  }

  /** The feeds that remain after deleting the feed with id `id`. */
  function FeedsExcept(feeds: seq<Feed>, id: int): (r: seq<Feed>)
    ensures !HasFeed(r, id)
    ensures forall i :: 0 <= i < |feeds| && feeds[i].id != id ==> feeds[i] in r
    ensures forall i :: 0 <= i < |r| ==> r[i] in feeds
    ensures multiset(r) <= multiset(feeds)
  {
    Filter(feeds, (f: Feed) => f.id != id)
  }

  /** The episodes that remain after the delete cascade of feed `id`. */
  function EpisodesExcept(episodes: seq<Episode>, id: int): (r: seq<Episode>)
    ensures forall j :: 0 <= j < |r| ==> r[j].feedId != id && r[j] in episodes
    ensures forall j :: 0 <= j < |episodes| && episodes[j].feedId != id ==> episodes[j] in r
    ensures multiset(r) <= multiset(episodes)
  {
    Filter(episodes, (e: Episode) => e.feedId != id)
  }

  /** Deleting a feed together with its episodes keeps every constraint,
      the foreign key included. */
  lemma {:induction false} CascadeDeleteKeepsWellFormed(feeds: seq<Feed>, episodes: seq<Episode>, id: int)
    requires WellFormed(feeds, episodes)
    ensures WellFormed(FeedsExcept(feeds, id), EpisodesExcept(episodes, id))
  {
    var fs, es := FeedsExcept(feeds, id), EpisodesExcept(episodes, id);
    var pf := (f: Feed) => f.id != id;
    var pe := (e: Episode) => e.feedId != id;
    FilterKeepsDistinctKeys(feeds, pf, FeedUrl);
    FilterKeepsDistinctKeys(feeds, pf, FeedId);
    FilterKeepsDistinctKeys(episodes, pe, EpisodeKey);
    FilterKeepsDistinctKeys(episodes, pe, EpisodeId);
    forall j | 0 <= j < |es| ensures HasFeed(fs, es[j].feedId) && es[j].guid != "" {
      var e := es[j];
      var j0 :| 0 <= j0 < |episodes| && episodes[j0] == e;
      var i :| 0 <= i < |feeds| && feeds[i].id == e.feedId;
      assert feeds[i] in fs;
      var i' :| 0 <= i' < |fs| && fs[i'] == feeds[i];
    }
  }

  /** Deleting only the feed row, as happens when the ORM leaves the
      cascade to the database (`passive_deletes`) and the database does not
      enforce foreign keys (SQLite without `PRAGMA foreign_keys`): an
      episode of the deleted feed stays behind and references no feed. */
  lemma DeleteWithoutCascadeOrphans(feeds: seq<Feed>, episodes: seq<Episode>, id: int, j: nat)
    requires WellFormed(feeds, episodes) && j < |episodes| && episodes[j].feedId == id
    ensures !EpisodesReferenceFeeds(FeedsExcept(feeds, id), episodes)
    ensures !HasFeed(FeedsExcept(feeds, id), episodes[j].feedId)
  {
  }

  /** A feed's `episodes` relationship: its episodes, newest first, those
      without a date last (SQLite sorts NULL lowest). */
  function FeedEpisodes(episodes: seq<Episode>, feedId: int): (r: seq<Episode>)
    ensures forall j :: 0 <= j < |r| ==> r[j].feedId == feedId && r[j] in episodes
    ensures forall j :: 0 <= j < |episodes| && episodes[j].feedId == feedId ==> episodes[j] in r
    ensures SortedDesc(r, Published)
    ensures multiset(r) <= multiset(episodes)
  {
    var mine := Filter(episodes, (e: Episode) => e.feedId == feedId);
    SortDesc(mine, Published)
  }
}
