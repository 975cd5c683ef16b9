/** The subscription store and its operations: subscribe, unsubscribe
    (with the cascade to episodes), episode upsert deduplicated on
    `(feed_id, guid)`, metadata merge, refresh, and the list queries.

    The database session is modelled by the class `Store`: `feeds` and
    `episodes` are the committed rows, `pending` the episodes added to the
    session and not yet written. Sessions do not flush before queries, so
    the duplicate check of an upsert sees committed rows only; the unique
    constraints are checked when the session commits, and a violation rolls
    the whole transaction back. */
module Crud {
  import opened Base
  import opened Collections
  import opened Models
  import opened Rss

  datatype CrudError =
    | FeedAlreadyExists   // the `ValueError` raised for a URL already stored
    | IntegrityError      // a unique constraint failed at commit

  datatype RefreshStats = RefreshStats(newItems: nat, skippedItems: nat, lastChecked: Time)

  /** Some stored episode has this feed and guid. */
  predicate Stored(episodes: seq<Episode>, feedId: int, guid: string) {
    exists j :: 0 <= j < |episodes| && EpisodeKey(episodes[j]) == (feedId, guid)
  }

  /** The duplicate lookup of `upsert_episode`: the stored episode of feed
      `feedId` with guid `guid`, if any. */
  function FindEpisode(episodes: seq<Episode>, feedId: int, guid: string): (r: Option<Episode>)
    ensures r.Some? <==> Stored(episodes, feedId, guid)
    ensures r.Some? ==> r.value in episodes && r.value.feedId == feedId && r.value.guid == guid
  {
    match FindFirst(episodes, (e: Episode) => e.feedId == feedId && e.guid == guid)
    case Some(k) => Some(episodes[k])
    case None => None
  }

  /** An entry the upsert adds: its guid is truthy and not yet stored for
      the feed. */
  predicate IsFresh(episodes: seq<Episode>, feedId: int, entry: EntryPayload) {
    Truthy(entry.guid) && !Stored(episodes, feedId, entry.guid.value)
  }

  /** The episode row built from an entry: the feed's id, the entry's
      non-empty guid and the entry's fields. */
  function NewEpisode(id: int, feedId: int, entry: EntryPayload): (r: Episode)
    requires Truthy(entry.guid)
    ensures r.id == id && EpisodeKey(r) == (feedId, entry.guid.value) && r.guid != ""
    ensures r.title == entry.title && r.link == entry.link && r.summary == entry.summary
    ensures r.audioUrl == entry.audioUrl && r.duration == entry.duration && r.published == entry.published
  {
    Episode(id, feedId, entry.guid.value, entry.title, entry.link, entry.summary,
            entry.audioUrl, entry.duration, entry.published)
  }

  /** The episodes one refresh batch adds to the session, in entry order:
      one for each fresh entry, with ids from `firstId` on. Freshness is
      judged against the committed `episodes` only, so an entry whose guid
      repeats an earlier fresh entry of the same batch is added again. */
  function BatchEpisodes(episodes: seq<Episode>, feedId: int, entries: seq<EntryPayload>, firstId: int)
    : (r: seq<Episode>)
    ensures |r| <= |entries|
    ensures forall k :: 0 <= k < |r| ==>
              r[k].id == firstId + k && r[k].feedId == feedId && r[k].guid != "" &&
              !Stored(episodes, feedId, r[k].guid)
  {
    if entries == [] then []
    else
      var prev := BatchEpisodes(episodes, feedId, entries[..|entries| - 1], firstId);
      var last := entries[|entries| - 1];
      if IsFresh(episodes, feedId, last) then prev + [NewEpisode(firstId + |prev|, feedId, last)]
      else prev
  }

  /** Every episode of a batch comes from an entry with the same guid. */
  lemma {:induction false} BatchOrigin(episodes: seq<Episode>, feedId: int, entries: seq<EntryPayload>,
                                       firstId: int, k: nat)
    returns (i: nat)
    requires k < |BatchEpisodes(episodes, feedId, entries, firstId)|
    ensures i < |entries| && entries[i].guid == Some(BatchEpisodes(episodes, feedId, entries, firstId)[k].guid)
    decreases |entries|
  {
    var init := entries[..|entries| - 1];
    var prev := BatchEpisodes(episodes, feedId, init, firstId);
    if k < |prev| {
      i := BatchOrigin(episodes, feedId, init, firstId, k);
    } else {
      i := |entries| - 1;
    }
  }

  /** After a batch is committed, every truthy guid of the batch is stored
      for the feed. */
  lemma {:induction false} BatchCoversGuids(episodes: seq<Episode>, feedId: int, entries: seq<EntryPayload>,
                                            firstId: int)
    ensures forall i :: 0 <= i < |entries| && Truthy(entries[i].guid) ==>
              Stored(episodes + BatchEpisodes(episodes, feedId, entries, firstId), feedId, entries[i].guid.value)
    decreases |entries|
  {
    if entries != [] {
      var init := entries[..|entries| - 1];
      var last := entries[|entries| - 1];
      var prev := BatchEpisodes(episodes, feedId, init, firstId);
      var all := episodes + BatchEpisodes(episodes, feedId, entries, firstId);
      BatchCoversGuids(episodes, feedId, init, firstId);
      assert episodes + prev <= all;
      forall i | 0 <= i < |entries| && Truthy(entries[i].guid)
        ensures Stored(all, feedId, entries[i].guid.value)
      {
        if i < |entries| - 1 {
          assert init[i] == entries[i];
          var j :| 0 <= j < |episodes + prev| && EpisodeKey((episodes + prev)[j]) == (feedId, entries[i].guid.value);
          assert all[j] == (episodes + prev)[j];
        } else if IsFresh(episodes, feedId, last) {
          assert all[|all| - 1] == NewEpisode(firstId + |prev|, feedId, last);
        } else {
          var j :| 0 <= j < |episodes| && EpisodeKey(episodes[j]) == (feedId, last.guid.value);
          assert all[j] == episodes[j];
        }
      }
    }
  }

  /** A batch in which no entry is fresh adds nothing. */
  lemma {:induction false} StaleBatchIsEmpty(episodes: seq<Episode>, feedId: int, entries: seq<EntryPayload>,
                                             firstId: int)
    requires forall i :: 0 <= i < |entries| ==> !IsFresh(episodes, feedId, entries[i])
    ensures BatchEpisodes(episodes, feedId, entries, firstId) == []
    decreases |entries|
  {
    if entries != [] {
      StaleBatchIsEmpty(episodes, feedId, entries[..|entries| - 1], firstId);
    }
  }

  /** Refreshing again with the same entries adds nothing: once a batch is
      committed, none of its entries is fresh any more. */
  lemma RefreshAgainAddsNothing(episodes: seq<Episode>, feedId: int, entries: seq<EntryPayload>,
                                firstId: int, nextId: int)
    ensures var after := episodes + BatchEpisodes(episodes, feedId, entries, firstId);
            BatchEpisodes(after, feedId, entries, nextId) == []
  {
    var after := episodes + BatchEpisodes(episodes, feedId, entries, firstId);
    BatchCoversGuids(episodes, feedId, entries, firstId);
    StaleBatchIsEmpty(after, feedId, entries, nextId);
  }

  /** The truthy guids of a batch are pairwise distinct. */
  predicate DistinctTruthyGuids(entries: seq<EntryPayload>) {
    forall i, j :: 0 <= i < j < |entries| && Truthy(entries[i].guid) ==> entries[i].guid != entries[j].guid
  }

  /** With pairwise distinct guids, the batch never breaks the
      `(feed_id, guid)` constraint. */
  lemma {:induction false} DistinctGuidsBatchIsUnique(episodes: seq<Episode>, feedId: int,
                                                      entries: seq<EntryPayload>, firstId: int)
    requires DistinctTruthyGuids(entries)
    ensures DistinctKeys(BatchEpisodes(episodes, feedId, entries, firstId), EpisodeKey)
    decreases |entries|
  {
    if entries != [] {
      var init := entries[..|entries| - 1];
      var last := entries[|entries| - 1];
      var prev := BatchEpisodes(episodes, feedId, init, firstId);
      assert DistinctTruthyGuids(init) by {
        forall i, j | 0 <= i < j < |init| && Truthy(init[i].guid) ensures init[i].guid != init[j].guid {
          assert init[i] == entries[i] && init[j] == entries[j];
        }
      }
      DistinctGuidsBatchIsUnique(episodes, feedId, init, firstId);
      if IsFresh(episodes, feedId, last) {
        var e := NewEpisode(firstId + |prev|, feedId, last);
        forall k | 0 <= k < |prev| ensures EpisodeKey(prev[k]) != EpisodeKey(e) {
          var i := BatchOrigin(episodes, feedId, init, firstId, k);
          assert init[i] == entries[i];
        }
        DistinctKeysAppend(prev, [e], EpisodeKey);
      }
    }
  }

  /** A batch in which a fresh guid occurs twice breaks the `(feed_id, guid)`
      constraint, so its commit fails. */
  lemma {:induction false} RepeatedFreshGuidBreaksBatch(episodes: seq<Episode>, feedId: int,
                                                        entries: seq<EntryPayload>, firstId: int, i: nat, j: nat)
    requires i < j < |entries| && IsFresh(episodes, feedId, entries[i]) && entries[j].guid == entries[i].guid
    ensures !DistinctKeys(BatchEpisodes(episodes, feedId, entries, firstId), EpisodeKey)
    decreases |entries|
  {
    var init := entries[..|entries| - 1];
    var prev := BatchEpisodes(episodes, feedId, init, firstId);
    var batch := BatchEpisodes(episodes, feedId, entries, firstId);
    assert init[i] == entries[i];
    if j < |entries| - 1 {
      assert init[j] == entries[j];
      RepeatedFreshGuidBreaksBatch(episodes, feedId, init, firstId, i, j);
      DistinctKeysAppend(prev, batch[|prev|..], EpisodeKey);
      assert prev + batch[|prev|..] == batch;
    } else {
      var g := entries[i].guid.value;
      BatchCoversGuids(episodes, feedId, init, firstId);
      var p :| 0 <= p < |episodes + prev| && EpisodeKey((episodes + prev)[p]) == (feedId, g);
      assert p >= |episodes|;
      var e := NewEpisode(firstId + |prev|, feedId, entries[j]);
      assert batch == prev + [e];
      assert batch[p - |episodes|] == prev[p - |episodes|];
      assert EpisodeKey(batch[p - |episodes|]) == EpisodeKey(batch[|prev|]);
    }
  }

  /** `apply_feed_metadata`: each of title, description, link, language and
      last-published takes the payload's value when it is truthy and keeps
      the stored one otherwise; nothing else changes. */
  function ApplyFeedMetadata(feed: Feed, meta: FeedMeta): (r: Feed)
    ensures r.title == (if Truthy(meta.title) then meta.title else feed.title)
    ensures r.description == (if Truthy(meta.description) then meta.description else feed.description)
    ensures r.link == (if Truthy(meta.link) then meta.link else feed.link)
    ensures r.language == (if Truthy(meta.language) then meta.language else feed.language)
    ensures r.lastPublished == (if meta.published.Some? then meta.published else feed.lastPublished)
    ensures r.id == feed.id && r.url == feed.url && r.etag == feed.etag &&
            r.modified == feed.modified && r.lastChecked == feed.lastChecked
  {
    feed.(title := Or(meta.title, feed.title),
          description := Or(meta.description, feed.description),
          link := Or(meta.link, feed.link),
          language := Or(meta.language, feed.language),
          lastPublished := OrElse(meta.published, feed.lastPublished))
  }

  /** Applying the same metadata twice is the same as applying it once. */
  lemma ApplyFeedMetadataIdempotent(feed: Feed, meta: FeedMeta)
    ensures ApplyFeedMetadata(ApplyFeedMetadata(feed, meta), meta) == ApplyFeedMetadata(feed, meta)
  {
  }

  /** The feed row after a refresh that fetched a document: merged
      metadata, validators replaced only by truthy ones, and the check
      time. */
  function RefreshedFeed(feed: Feed, meta: FeedMeta, etag: Option<string>, modified: Option<string>, now: Time)
    : (r: Feed)
    ensures r.id == feed.id && r.url == feed.url
    ensures r.etag == (if Truthy(etag) then etag else feed.etag)
    ensures r.modified == (if Truthy(modified) then modified else feed.modified)
    ensures r.lastChecked == Some(now)
    ensures r.(etag := feed.etag, modified := feed.modified, lastChecked := feed.lastChecked) ==
            ApplyFeedMetadata(feed, meta)
  {
    ApplyFeedMetadata(feed, meta).(etag := Or(etag, feed.etag), modified := Or(modified, feed.modified),
                                   lastChecked := Some(now))
  }

  /** Two feed lists with the same ids and URLs, position by position. */
  predicate SameKeys(a: seq<Feed>, b: seq<Feed>) {
    |a| == |b| && forall i :: 0 <= i < |a| ==> a[i].id == b[i].id && a[i].url == b[i].url
  }

  lemma SameKeysKeepFeedConstraints(a: seq<Feed>, b: seq<Feed>)
    requires SameKeys(a, b)
    ensures DistinctKeys(a, FeedUrl) <==> DistinctKeys(b, FeedUrl)
    ensures DistinctKeys(a, FeedId) <==> DistinctKeys(b, FeedId)
    ensures forall id :: HasFeed(a, id) <==> HasFeed(b, id)
  {
    forall id ensures HasFeed(a, id) <==> HasFeed(b, id) {
      if HasFeed(a, id) { var i :| 0 <= i < |a| && a[i].id == id; assert b[i].id == id; }
      if HasFeed(b, id) { var i :| 0 <= i < |b| && b[i].id == id; assert a[i].id == id; }
    }
  }

  /** Committing a refresh batch succeeds exactly when the batch itself
      repeats no `(feed_id, guid)`: its episodes are never stored yet, and
      the feed rows keep their URLs. */
  lemma BatchCommitSucceedsIff(feeds: seq<Feed>, feeds': seq<Feed>, episodes: seq<Episode>,
                               batch: seq<Episode>, feedId: int)
    requires WellFormed(feeds, episodes) && SameKeys(feeds, feeds')
    requires forall k :: 0 <= k < |batch| ==> batch[k].feedId == feedId && !Stored(episodes, feedId, batch[k].guid)
    ensures UniqueConstraintsHold(feeds', episodes + batch) <==> DistinctKeys(batch, EpisodeKey)
  {
    SameKeysKeepFeedConstraints(feeds, feeds');
    DistinctKeysAppend(episodes, batch, EpisodeKey);
    forall i, k | 0 <= i < |episodes| && 0 <= k < |batch| ensures EpisodeKey(episodes[i]) != EpisodeKey(batch[k]) {
      assert !Stored(episodes, feedId, batch[k].guid);
    }
  }

  /** The session's pending episodes are fit to commit: consecutive fresh
      ids from `base` on, stored feeds, truthy guids not yet stored. */
  predicate PendingFit(feeds: seq<Feed>, episodes: seq<Episode>, pending: seq<Episode>, base: int) {
    forall k :: 0 <= k < |pending| ==>
      pending[k].id == base + k && HasFeed(feeds, pending[k].feedId) && pending[k].guid != "" &&
      !Stored(episodes, pending[k].feedId, pending[k].guid)
  }

  predicate FeedIdsIn(feeds: seq<Feed>, bound: int) {
    forall i :: 0 <= i < |feeds| ==> 0 < feeds[i].id < bound
  }

  predicate EpisodeIdsIn(episodes: seq<Episode>, bound: int) {
    forall j :: 0 <= j < |episodes| ==> 0 < episodes[j].id < bound
  }

  /** What holds of the database and its session between operations: the
      committed rows are well formed, every id lies below the next one to be
      handed out, and the pending episodes can be committed as they are
      unless they repeat a key among themselves. */
  predicate StoreInvariant(feeds: seq<Feed>, episodes: seq<Episode>, pending: seq<Episode>,
                           nextFeedId: int, nextEpisodeId: int) {
    WellFormed(feeds, episodes) && 0 < nextFeedId && FeedIdsIn(feeds, nextFeedId) && 0 < nextEpisodeId - |pending| &&
    EpisodeIdsIn(episodes, nextEpisodeId - |pending|) &&
    PendingFit(feeds, episodes, pending, nextEpisodeId - |pending|)
  }

  /** A commit that passes the unique constraints keeps the invariant, and
      so does a rolled-back one. */
  lemma CommitKeepsInvariant(feeds: seq<Feed>, feeds': seq<Feed>, episodes: seq<Episode>,
                             pending: seq<Episode>, nextFeedId: int, nextEpisodeId: int)
    requires StoreInvariant(feeds, episodes, pending, nextFeedId, nextEpisodeId) && SameKeys(feeds, feeds')
    ensures StoreInvariant(feeds, episodes, [], nextFeedId, nextEpisodeId)
    ensures UniqueConstraintsHold(feeds', episodes + pending) ==>
              StoreInvariant(feeds', episodes + pending, [], nextFeedId, nextEpisodeId)
  {
    SameKeysKeepFeedConstraints(feeds, feeds');
    var base := nextEpisodeId - |pending|;
    var all := episodes + pending;
    if UniqueConstraintsHold(feeds', all) {
      DistinctKeysAppend(episodes, pending, EpisodeId);
      forall j | 0 <= j < |all| ensures HasFeed(feeds', all[j].feedId) && all[j].guid != "" && 0 < all[j].id < nextEpisodeId {
        if j >= |episodes| { assert all[j] == pending[j - |episodes|]; }
      }
    }
  }

  /** Adding a feed under the next free id and a URL not yet stored keeps the
      invariant. */
  lemma AddFeedKeepsInvariant(feeds: seq<Feed>, episodes: seq<Episode>, feed: Feed,
                              nextFeedId: int, nextEpisodeId: int)
    requires StoreInvariant(feeds, episodes, [], nextFeedId, nextEpisodeId) && feed.id == nextFeedId
    requires UniqueConstraintsHold(feeds + [feed], episodes)
    ensures StoreInvariant(feeds + [feed], episodes, [], nextFeedId + 1, nextEpisodeId)
  {
    var fs := feeds + [feed];
    DistinctKeysAppend(feeds, [feed], FeedId);
    forall j | 0 <= j < |episodes| ensures HasFeed(fs, episodes[j].feedId) {
      var i :| 0 <= i < |feeds| && feeds[i].id == episodes[j].feedId;
      assert fs[i] == feeds[i];
    }
  }

  /** The URL check of a new feed: it passes the unique constraint exactly
      when no stored feed has its URL. */
  lemma NewUrlIff(feeds: seq<Feed>, episodes: seq<Episode>, feed: Feed)
    requires UniqueConstraintsHold(feeds, episodes)
    ensures UniqueConstraintsHold(feeds + [feed], episodes) <==>
            !exists i :: 0 <= i < |feeds| && feeds[i].url == feed.url
  {
    DistinctKeysAppend(feeds, [feed], FeedUrl);
    if exists i :: 0 <= i < |feeds| && feeds[i].url == feed.url {
      var i :| 0 <= i < |feeds| && feeds[i].url == feed.url;
      assert FeedUrl(feeds[i]) == FeedUrl([feed][0]);
    }
  }

  /** The delete cascade keeps the invariant. */
  lemma DeleteFeedKeepsInvariant(feeds: seq<Feed>, episodes: seq<Episode>, id: int,
                                 nextFeedId: int, nextEpisodeId: int)
    requires StoreInvariant(feeds, episodes, [], nextFeedId, nextEpisodeId)
    ensures StoreInvariant(FeedsExcept(feeds, id), EpisodesExcept(episodes, id), [], nextFeedId, nextEpisodeId)
  {
    CascadeDeleteKeepsWellFormed(feeds, episodes, id);
    var fs, es := FeedsExcept(feeds, id), EpisodesExcept(episodes, id);
    forall i | 0 <= i < |fs| ensures 0 < fs[i].id < nextFeedId {
      var k :| 0 <= k < |feeds| && feeds[k] == fs[i];
    }
    forall j | 0 <= j < |es| ensures 0 < es[j].id < nextEpisodeId {
      var k :| 0 <= k < |episodes| && episodes[k] == es[j];
    }
  }

  /** Adding a fresh episode of a stored feed to the session keeps the
      invariant. */
  lemma AddPendingKeepsInvariant(feeds: seq<Feed>, episodes: seq<Episode>, pending: seq<Episode>,
                                 e: Episode, nextFeedId: int, nextEpisodeId: int)
    requires StoreInvariant(feeds, episodes, pending, nextFeedId, nextEpisodeId)
    requires e.id == nextEpisodeId && HasFeed(feeds, e.feedId) && e.guid != "" && !Stored(episodes, e.feedId, e.guid)
    ensures StoreInvariant(feeds, episodes, pending + [e], nextFeedId, nextEpisodeId + 1)
  {
    var p := pending + [e];
    assert forall k :: 0 <= k < |pending| ==> p[k] == pending[k];
  }

  /** The state of the database, with the session that works on it. */
  class Store {
    var feeds: seq<Feed>
    var episodes: seq<Episode>
    var pending: seq<Episode>
    var nextFeedId: int
    var nextEpisodeId: int

    ghost predicate Valid()
      reads this
    {
      StoreInvariant(feeds, episodes, pending, nextFeedId, nextEpisodeId)
    }

    constructor ()
      ensures Valid()
      ensures feeds == [] && episodes == [] && pending == []
    {
      feeds, episodes, pending := [], [], [];
      nextFeedId, nextEpisodeId := 1, 1;
    }

    /** `db.commit()` with the session's feed rows `newFeeds`: the flushed
        state is checked against the unique constraints and becomes the
        committed state, or the transaction is rolled back. */
    method Commit(newFeeds: seq<Feed>) returns (ok: bool)
      modifies this
      ensures ok == UniqueConstraintsHold(newFeeds, old(episodes) + old(pending))
      ensures ok ==> feeds == newFeeds && episodes == old(episodes) + old(pending)
      ensures !ok ==> feeds == old(feeds) && episodes == old(episodes)
      ensures pending == [] && nextFeedId == old(nextFeedId) && nextEpisodeId == old(nextEpisodeId)
    {
      ok := UniqueConstraintsHold(newFeeds, episodes + pending);
      if ok {
        feeds, episodes := newFeeds, episodes + pending;
      }
      pending := [];
    }

    /** `create_feed`: a new feed with the given URL and nothing fetched
        yet; when the URL is already subscribed the commit fails, the store
        is unchanged and the error is `FeedAlreadyExists`. */
    method CreateFeed(url: string) returns (r: Result<Feed, CrudError>)
      requires Valid() && pending == []
      modifies this
      ensures Valid() && pending == []
      ensures r.Err? <==> exists i :: 0 <= i < |old(feeds)| && old(feeds)[i].url == url
      ensures r.Err? ==> r.error == FeedAlreadyExists && feeds == old(feeds) && episodes == old(episodes)
      ensures r.Ok? ==> feeds == old(feeds) + [r.value] && episodes == old(episodes)
      ensures r.Ok? ==> r.value.url == url && !HasFeed(old(feeds), r.value.id) &&
                        r.value.lastChecked.None? && r.value.lastPublished.None? &&
                        r.value.title.None? && r.value.etag.None? && r.value.modified.None? &&
                        r.value.description.None? && r.value.link.None? && r.value.language.None?
    {
      var feed := Feed(nextFeedId, url, None, None, None, None, None, None, None, None);
      NewUrlIff(feeds, episodes, feed);
      assert episodes + pending == episodes;
      var ok := Commit(feeds + [feed]);
      if ok {
        AddFeedKeepsInvariant(old(feeds), episodes, feed, nextFeedId, nextEpisodeId);
        nextFeedId := nextFeedId + 1;
        r := Ok(feed);
      } else {
        r := Err(FeedAlreadyExists);
      }
    }

    /** `delete_feed`: the feed goes, and with it (delete cascade) every
        episode that references it. */
    method DeleteFeed(feedId: int)
      requires Valid() && pending == []
      modifies this
      ensures Valid() && pending == []
      ensures feeds == FeedsExcept(old(feeds), feedId)
      ensures episodes == EpisodesExcept(old(episodes), feedId)
    {
      var fs, es := FeedsExcept(feeds, feedId), EpisodesExcept(episodes, feedId);
      DeleteFeedKeepsInvariant(feeds, episodes, feedId, nextFeedId, nextEpisodeId);
      feeds, episodes := fs, es;
    }

    /** `upsert_episode`: skip a falsy guid; report the committed episode
        with the same feed and guid; otherwise add a new episode to the
        session. */
    method UpsertEpisode(feedId: int, payload: EntryPayload) returns (created: bool, episode: Option<Episode>)
      requires Valid() && HasFeed(feeds, feedId)
      modifies this
      ensures Valid()
      ensures feeds == old(feeds) && episodes == old(episodes) && nextFeedId == old(nextFeedId)
      ensures created <==> IsFresh(old(episodes), feedId, payload)
      ensures !Truthy(payload.guid) ==> episode.None?
      ensures Truthy(payload.guid) && !created ==>
                episode == FindEpisode(old(episodes), feedId, payload.guid.value) && episode.Some?
      ensures !created ==> pending == old(pending) && nextEpisodeId == old(nextEpisodeId)
      ensures created ==>
                episode == Some(NewEpisode(old(nextEpisodeId), feedId, payload)) &&
                pending == old(pending) + [episode.value] && nextEpisodeId == old(nextEpisodeId) + 1
    {
      if !Truthy(payload.guid) {
        return false, None;
      }
      var existing := FindEpisode(episodes, feedId, payload.guid.value);
      if existing.Some? {
        return false, existing;
      }
      var e := NewEpisode(nextEpisodeId, feedId, payload);
      AddPendingKeepsInvariant(feeds, episodes, pending, e, nextFeedId, nextEpisodeId);
      pending := pending + [e];
      nextEpisodeId := nextEpisodeId + 1;
      created, episode := true, Some(e);
    }

    /** "Not modified": only the check time of the feed is stamped. */
    method StampChecked(feedId: int, now: Time) returns (r: Result<RefreshStats, CrudError>)
      requires Valid() && pending == [] && HasFeed(feeds, feedId)
      modifies this
      ensures Valid() && pending == []
      ensures var k := FeedIndex(old(feeds), feedId);
              r == Ok(RefreshStats(0, 0, now)) && episodes == old(episodes) &&
              feeds == old(feeds)[k := old(feeds)[k].(lastChecked := Some(now))]
    {
      var k := FeedIndex(feeds, feedId);
      var stamped := feeds[k := feeds[k].(lastChecked := Some(now))];
      assert SameKeys(feeds, stamped);
      CommitKeepsInvariant(feeds, stamped, episodes, [], nextFeedId, nextEpisodeId);
      SameKeysKeepFeedConstraints(feeds, stamped);
      assert episodes + [] == episodes;
      var ok := Commit(stamped);
      r := Ok(RefreshStats(0, 0, now));
    }

    /** The entries loop of `refresh_feed`: each entry is upserted and
        counted as new or skipped; the session then holds the batch. */
    method UpsertAll(feedId: int, entries: seq<EntryPayload>) returns (newItems: nat, skippedItems: nat)
      requires Valid() && pending == [] && HasFeed(feeds, feedId)
      modifies this
      ensures Valid()
      ensures feeds == old(feeds) && episodes == old(episodes) && nextFeedId == old(nextFeedId)
      ensures pending == BatchEpisodes(old(episodes), feedId, entries, old(nextEpisodeId))
      ensures newItems == |pending| && newItems + skippedItems == |entries|
    {
      newItems, skippedItems := 0, 0;
      for i := 0 to |entries|
        invariant Valid() && HasFeed(feeds, feedId)
        invariant feeds == old(feeds) && episodes == old(episodes) && nextFeedId == old(nextFeedId)
        invariant pending == BatchEpisodes(old(episodes), feedId, entries[..i], old(nextEpisodeId))
        invariant nextEpisodeId == old(nextEpisodeId) + |pending|
        invariant newItems == |pending| && newItems + skippedItems == i
      {
        assert entries[..i + 1][..i] == entries[..i];
        var created, _ := UpsertEpisode(feedId, entries[i]);
        if created {
          newItems := newItems + 1;
        } else {
          skippedItems := skippedItems + 1;
        }
      }
      assert entries[..|entries|] == entries;
    }

    /** `refresh_feed` with the result of a fetch taken at time `now`.
        "Not modified" only stamps the check time. Otherwise the metadata
        and validators are merged, every entry is upserted and counted as
        new or skipped, and the session commits: the batch's episodes are
        stored, or, when the batch repeats a fresh guid, the commit fails
        with `IntegrityError` and nothing changes. */
    method RefreshFeed(feedId: int, fetch: FetchResult, now: Time) returns (r: Result<RefreshStats, CrudError>)
      requires Valid() && pending == [] && HasFeed(feeds, feedId)
      modifies this
      ensures Valid() && pending == []
      ensures fetch.NotModified? ==>
                var k := FeedIndex(old(feeds), feedId);
                r == Ok(RefreshStats(0, 0, now)) && episodes == old(episodes) &&
                feeds == old(feeds)[k := old(feeds)[k].(lastChecked := Some(now))]
      ensures fetch.Fetched? ==>
                var k := FeedIndex(old(feeds), feedId);
                var batch := BatchEpisodes(old(episodes), feedId, fetch.entries, old(nextEpisodeId));
                && (r.Ok? <==> DistinctKeys(batch, EpisodeKey))
                && (r.Ok? ==>
                      r.value == RefreshStats(|batch|, |fetch.entries| - |batch|, now) &&
                      episodes == old(episodes) + batch &&
                      feeds == old(feeds)[k := RefreshedFeed(old(feeds)[k], fetch.feed, fetch.etag, fetch.modified, now)])
                && (r.Err? ==> r.error == IntegrityError && feeds == old(feeds) && episodes == old(episodes))
    {
      if fetch.NotModified? {
        r := StampChecked(feedId, now);
        return;
      }
      var k := FeedIndex(feeds, feedId);
      var stamped := feeds[k := RefreshedFeed(feeds[k], fetch.feed, fetch.etag, fetch.modified, now)];
      assert SameKeys(feeds, stamped);
      var newItems, skippedItems := UpsertAll(feedId, fetch.entries);
      BatchCommitSucceedsIff(feeds, stamped, episodes, pending, feedId);
      CommitKeepsInvariant(feeds, stamped, episodes, pending, nextFeedId, nextEpisodeId);
      var ok := Commit(stamped);
      if ok {
        r := Ok(RefreshStats(newItems, skippedItems, now));
      } else {
        r := Err(IntegrityError);
      }
    }
  }
  /** The position of the feed with id `id`. */
  function FeedIndex(feeds: seq<Feed>, id: int): (k: nat)
    requires HasFeed(feeds, id)
    ensures k < |feeds| && feeds[k].id == id
  {
    var found := FindFirst(feeds, (f: Feed) => f.id == id);
    assert found.Some? by {
      var i :| 0 <= i < |feeds| && feeds[i].id == id;
    }
    found.value
  }

  /** `get_feed`: the stored feed with this id, if any. */
  function GetFeed(feeds: seq<Feed>, id: int): (r: Option<Feed>)
    ensures r.Some? <==> HasFeed(feeds, id)
    ensures r.Some? ==> r.value.id == id && r.value in feeds
  {
    if HasFeed(feeds, id) then Some(feeds[FeedIndex(feeds, id)]) else None
  }

  function IdRank(f: Feed): Option<int> { Some(f.id) }

  /** `list_feeds`: every stored feed, newest id first. */
  function ListFeeds(feeds: seq<Feed>): (r: seq<Feed>)
    ensures multiset(r) == multiset(feeds)
    ensures forall i, j :: 0 <= i < j < |r| ==> r[i].id >= r[j].id
  {
    var r := SortDesc(feeds, IdRank);
    assert forall i, j :: 0 <= i < j < |r| ==> RankGe(IdRank(r[i]), IdRank(r[j]));
    r
  }

  /** With distinct ids, `list_feeds` orders the feeds strictly. */
  lemma ListFeedsStrictlyDescending(feeds: seq<Feed>)
    requires DistinctKeys(feeds, FeedId)
    ensures forall i, j :: 0 <= i < j < |ListFeeds(feeds)| ==> ListFeeds(feeds)[i].id > ListFeeds(feeds)[j].id
  {
    SortDescKeepsDistinctKeys(feeds, IdRank, FeedId);
  }

  /** `list_episodes` filters on `feed_id` only when it is truthy. */
  predicate Selected(feedId: Option<int>, e: Episode) {
    !(feedId.Some? && feedId.value != 0) || e.feedId == feedId.value
  }

  function Matching(episodes: seq<Episode>, feedId: Option<int>): (r: seq<Episode>)
    ensures multiset(r) <= multiset(episodes)
    ensures forall i :: 0 <= i < |r| ==> r[i] in episodes && Selected(feedId, r[i])
    ensures forall j :: 0 <= j < |episodes| && Selected(feedId, episodes[j]) ==> episodes[j] in r
  {
    Filter(episodes, (e: Episode) => Selected(feedId, e))
  }

  /** `list_episodes`: at most `limit` stored episodes, of the given feed
      when one is given, newest first with undated ones last. */
  function ListEpisodes(episodes: seq<Episode>, feedId: Option<int>, limit: nat): (r: seq<Episode>)
    ensures |r| == Min(limit, |Matching(episodes, feedId)|)
    ensures forall i :: 0 <= i < |r| ==> r[i] in episodes && Selected(feedId, r[i])
    ensures SortedDesc(r, Published)
    ensures multiset(r) <= multiset(episodes)
  {
    var sorted := SortDesc(Matching(episodes, feedId), Published);
    assert forall i :: 0 <= i < |Take(sorted, limit)| ==> Take(sorted, limit)[i] == sorted[i];
    Take(sorted, limit)
  }

  /** An episode that matches the query but is cut off by the limit is no
      newer than any episode returned. */
  lemma ListEpisodesKeepsNewest(episodes: seq<Episode>, feedId: Option<int>, limit: nat, e: Episode)
    requires e in episodes && Selected(feedId, e) && e !in ListEpisodes(episodes, feedId, limit)
    ensures forall i :: 0 <= i < |ListEpisodes(episodes, feedId, limit)| ==>
              RankGe(ListEpisodes(episodes, feedId, limit)[i].published, e.published)
  {
    var m := Matching(episodes, feedId);
    var sorted := SortDesc(m, Published);
    var j :| 0 <= j < |episodes| && episodes[j] == e;
    assert e in m;
    var p :| 0 <= p < |m| && m[p] == e;
    assert e in sorted;
    PrefixOutranksRest(sorted, limit, Published, e);
  }
}
