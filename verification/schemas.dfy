/** Request schemas of the API: the episode query with its validated
    `limit`, and the subscription request with its `auto_refresh` flag. */
module Schemas {
  import opened Base

  const MinLimit: int := 1
  const MaxLimit: int := 200
  const DefaultLimit: int := 50

  datatype ValidationError = LimitOutOfRange

  /** `EpisodeQuery.validate_limit`: the value itself when it lies in
      1..200, an error otherwise. */
  function ValidateLimit(value: int): (r: Result<int, ValidationError>)
    ensures r.Ok? <==> MinLimit <= value <= MaxLimit
    ensures r.Ok? ==> r.value == value
    ensures r.Err? ==> r.error == LimitOutOfRange
  {
    if !(MinLimit <= value <= MaxLimit) then Err(LimitOutOfRange) else Ok(value)
  }

  datatype EpisodeQuery = EpisodeQuery(feedId: Option<int>, limit: int)

  /** Building an `EpisodeQuery`: an omitted limit takes the default, which
      the validator does not see (validators run on given values only); a
      given limit goes through `ValidateLimit`. Every query that is built
      has a limit within the bounds the endpoint declares. */
  function MakeEpisodeQuery(feedId: Option<int>, limit: Option<int>): (r: Result<EpisodeQuery, ValidationError>)
    ensures r.Ok? ==> r.value.feedId == feedId && MinLimit <= r.value.limit <= MaxLimit
    ensures limit.None? ==> r.Ok? && r.value.limit == DefaultLimit
    ensures limit.Some? ==> (r.Ok? <==> MinLimit <= limit.value <= MaxLimit)
    ensures limit.Some? && r.Ok? ==> r.value.limit == limit.value
  {
    match limit
    case None => Ok(EpisodeQuery(feedId, DefaultLimit))
    case Some(v) =>
      match ValidateLimit(v)
      case Ok(l) => Ok(EpisodeQuery(feedId, l))
      case Err(e) => Err(e)
  }

  datatype FeedCreate = FeedCreate(url: string, autoRefresh: bool)

  /** Building a `FeedCreate`: `auto_refresh` is on unless given. */
  function MakeFeedCreate(url: string, autoRefresh: Option<bool>): (r: FeedCreate)
    ensures r.url == url
    ensures autoRefresh.None? ==> r.autoRefresh
    ensures autoRefresh.Some? ==> r.autoRefresh == autoRefresh.value
  {
    FeedCreate(url, if autoRefresh.Some? then autoRefresh.value else true)
  }
}
