/** Feed fetching and entry normalisation: the conditional-request headers
    (sections 13.1.2 and 13.1.3 of RFC 9110), the classification of the
    response status (304 Not Modified, section 15.4.5 of RFC 9110; 4xx and
    5xx as errors), and the mapping of each parsed entry to the record the
    store ingests: guid fallback, audio enclosure choice (RSS 2.0
    `<enclosure>`, or an Atom `link rel="enclosure"`, section 4.2.7.2 of
    RFC 4287) and HTML-to-Markdown summaries.

    The feed parser and the HTML-to-Markdown converter are foreign
    libraries: they appear as function parameters `parse` and `convert`. */
module Rss {
  import opened Base
  import opened Strings
  import opened Collections
  import opened Models

  /** An enclosure or link of a parsed entry; a missing `type` reads as "". */
  datatype RawLink = RawLink(mediaType: string, rel: Option<string>, href: Option<string>)

  /** A parsed entry, as far as the mapping reads it. The parser's
      `published_parsed` is given already converted to an instant. */
  datatype RawEntry = RawEntry(
    id: Option<string>,
    guid: Option<string>,
    link: Option<string>,
    title: Option<string>,
    summary: Option<string>,
    publishedParsed: Option<Time>,
    enclosures: seq<RawLink>,
    links: seq<RawLink>,
    itunesDuration: Option<string>)

  /** The parsed channel metadata (an absent channel reads as all-missing). */
  datatype RawFeedMeta = RawFeedMeta(
    title: Option<string>,
    subtitle: Option<string>,
    description: Option<string>,
    link: Option<string>,
    language: Option<string>,
    publishedParsed: Option<Time>)

  /** What the feed parser returns for a document. */
  datatype ParsedFeed = ParsedFeed(bozo: bool, entries: seq<RawEntry>, feed: RawFeedMeta)

  /** The HTTP response to the feed request. */
  datatype Response = Response(
    status: int,
    etag: Option<string>,
    lastModified: Option<string>,
    content: string)

  /** One normalised entry: the payload `upsert_episode` consumes. */
  datatype EntryPayload = EntryPayload(
    guid: Option<string>,
    title: Option<string>,
    link: Option<string>,
    summary: Option<string>,
    published: Option<Time>,
    audioUrl: Option<string>,
    duration: Option<string>)

  /** The channel metadata `apply_feed_metadata` consumes. */
  datatype FeedMeta = FeedMeta(
    title: Option<string>,
    description: Option<string>,
    link: Option<string>,
    language: Option<string>,
    published: Option<Time>)

  datatype FetchResult =
    | NotModified
    | Fetched(etag: Option<string>, modified: Option<string>, feed: FeedMeta, entries: seq<EntryPayload>)

  /** `FeedFetchError`: an HTTP error status, or a document the parser
      flagged as malformed and took no entry from. */
  datatype FetchError = HttpStatusError(status: int) | ParseError

  const AcceptValue: string :=
    "application/rss+xml, application/atom+xml, application/xml;q=0.9, */*;q=0.8"

  /** `_html_to_markdown`: a falsy input comes back unchanged; otherwise the
      converter's output, stripped, with an all-whitespace output read as
      missing. */
  function HtmlToMarkdown(value: Option<string>, convert: string -> string): (r: Option<string>)
    ensures !Truthy(value) ==> r == value
    ensures Truthy(value) ==> (r.None? <==> AllWhitespace(convert(value.value), PyWhitespace))
    ensures Truthy(value) && r.Some? ==>
              r.value != "" && exists a: nat :: TrimmedAt(convert(value.value), r.value, a, PyWhitespace)
    ensures Truthy(value) && r.Some? ==>
              !PyWhitespace(r.value[0]) && !PyWhitespace(r.value[|r.value| - 1])
  {
    if !Truthy(value) then value
    else
      TrimIsInfix(convert(value.value), PyWhitespace);
      var cleaned := Trim(convert(value.value), PyWhitespace);
      if cleaned == "" then None else Some(cleaned)
  }

  /** `a or b or c`: the first truthy of the three, else the last. */
  function FirstTruthy(a: Option<string>, b: Option<string>, c: Option<string>): (r: Option<string>)
    ensures Truthy(r) <==> Truthy(a) || Truthy(b) || Truthy(c)
    ensures Truthy(a) ==> r == a
    ensures !Truthy(a) && Truthy(b) ==> r == b
    ensures !Truthy(a) && !Truthy(b) ==> r == c
  {
    Or(Or(a, b), c)
  }

  /** An enclosure the audio choice accepts: its type mentions "audio", or
      it is an Atom link with `rel="enclosure"`. */
  predicate AudioEnclosure(e: RawLink) {
    Contains(e.mediaType, "audio") || e.rel == Some("enclosure")
  }

  /** A plain link whose type starts with "audio". */
  predicate AudioLink(l: RawLink) {
    "audio" <= l.mediaType
  }

  /** `_extract_audio`: the href of the first accepted enclosure; only when
      none is accepted, the href of the first audio-typed link; else none.
      The href of the chosen element is returned even when it is missing. */
  function ExtractAudio(entry: RawEntry): (r: Option<string>)
    ensures forall k :: 0 <= k < |entry.enclosures| && AudioEnclosure(entry.enclosures[k]) &&
                        (forall j :: 0 <= j < k ==> !AudioEnclosure(entry.enclosures[j])) ==>
                          r == entry.enclosures[k].href
    ensures (forall k :: 0 <= k < |entry.enclosures| ==> !AudioEnclosure(entry.enclosures[k])) ==>
              (forall k :: 0 <= k < |entry.links| && AudioLink(entry.links[k]) &&
                           (forall j :: 0 <= j < k ==> !AudioLink(entry.links[j])) ==>
                             r == entry.links[k].href) &&
              ((forall k :: 0 <= k < |entry.links| ==> !AudioLink(entry.links[k])) ==> r == None)
  {
    match FindFirst(entry.enclosures, AudioEnclosure)
    case Some(k) => entry.enclosures[k].href
    case None =>
      match FindFirst(entry.links, AudioLink)
      case Some(k) => entry.links[k].href
      case None => None
  }

  /** The record built for one parsed entry: the guid falls back from `id`
      to `guid` to `link`; the summary is converted to Markdown; the audio
      URL is chosen among the enclosures and links; the rest is copied. */
  function EntryPayloadOf(e: RawEntry, convert: string -> string): (r: EntryPayload)
    ensures Truthy(r.guid) <==> Truthy(e.id) || Truthy(e.guid) || Truthy(e.link)
    ensures Truthy(e.id) ==> r.guid == e.id
    ensures !Truthy(e.id) && Truthy(e.guid) ==> r.guid == e.guid
    ensures !Truthy(e.id) && !Truthy(e.guid) ==> r.guid == e.link
    ensures r.summary == HtmlToMarkdown(e.summary, convert) && r.audioUrl == ExtractAudio(e)
    ensures r.title == e.title && r.link == e.link && r.published == e.publishedParsed &&
            r.duration == e.itunesDuration
  {
    EntryPayload(
      FirstTruthy(e.id, e.guid, e.link),
      e.title,
      e.link,
      HtmlToMarkdown(e.summary, convert),
      e.publishedParsed,
      ExtractAudio(e),
      e.itunesDuration)
  }

  /** The channel metadata built from the parsed channel; the description
      is the subtitle, else the description, converted to Markdown. */
  function FeedMetaOf(m: RawFeedMeta, convert: string -> string): (r: FeedMeta)
    ensures r.description == HtmlToMarkdown(Or(m.subtitle, m.description), convert)
    ensures r.title == m.title && r.link == m.link && r.language == m.language
    ensures r.published == m.publishedParsed
  {
    FeedMeta(m.title, HtmlToMarkdown(Or(m.subtitle, m.description), convert),
             m.link, m.language, m.publishedParsed)
  }

  /** The request headers of `fetch_feed`: the fixed user agent and accept
      headers, plus a validator header for each truthy cached validator. */
  method RequestHeaders(userAgent: string, etag: Option<string>, modified: Option<string>)
    returns (headers: map<string, string>)
    ensures "User-Agent" in headers && headers["User-Agent"] == userAgent
    ensures "Accept" in headers && headers["Accept"] == AcceptValue
    ensures "If-None-Match" in headers <==> Truthy(etag)
    ensures "If-None-Match" in headers ==> headers["If-None-Match"] == etag.value
    ensures "If-Modified-Since" in headers <==> Truthy(modified)
    ensures "If-Modified-Since" in headers ==> headers["If-Modified-Since"] == modified.value
    ensures headers.Keys <= {"User-Agent", "Accept", "If-None-Match", "If-Modified-Since"}
  {
    headers := map["User-Agent" := userAgent, "Accept" := AcceptValue];
    if Truthy(etag) {
      headers := headers["If-None-Match" := etag.value];
    }
    if Truthy(modified) {
      headers := headers["If-Modified-Since" := modified.value];
    }
  }

  /** The entries loop of `fetch_feed`: one record per parsed entry, in
      order. */
  method MapEntries(raw: seq<RawEntry>, convert: string -> string) returns (entries: seq<EntryPayload>)
    ensures |entries| == |raw|
    ensures forall i :: 0 <= i < |raw| ==> entries[i] == EntryPayloadOf(raw[i], convert)
  {
    entries := [];
    for i := 0 to |raw|
      invariant |entries| == i
      invariant forall k :: 0 <= k < i ==> entries[k] == EntryPayloadOf(raw[k], convert)
    {
      entries := entries + [EntryPayloadOf(raw[i], convert)];
    }
  }

  /** What `fetch_feed` makes of the response to its request: 304 is "not
      modified" (the body is not parsed), any status from 400 up is an
      error, and otherwise the parsed document becomes a fetch result
      unless the parser flagged it malformed and found no entry. */
  method InterpretResponse(response: Response, parse: string -> ParsedFeed, convert: string -> string)
    returns (r: Result<FetchResult, FetchError>)
    ensures response.status == 304 ==> r == Ok(NotModified)
    ensures response.status != 304 && response.status >= 400 ==>
              r == Err(HttpStatusError(response.status))
    ensures response.status != 304 && response.status < 400 ==>
              var parsed := parse(response.content);
              if parsed.bozo && parsed.entries == [] then r == Err(ParseError)
              else
                && r.Ok? && r.value.Fetched?
                && r.value.etag == response.etag
                && r.value.modified == response.lastModified
                && r.value.feed == FeedMetaOf(parsed.feed, convert)
                && |r.value.entries| == |parsed.entries|
                && forall i :: 0 <= i < |parsed.entries| ==>
                     r.value.entries[i] == EntryPayloadOf(parsed.entries[i], convert)
  {
    if response.status == 304 {
      return Ok(NotModified);
    }
    if response.status >= 400 {
      return Err(HttpStatusError(response.status));
    }
    var parsed := parse(response.content);
    if parsed.bozo && parsed.entries == [] {
      return Err(ParseError);
    }
    var entries := MapEntries(parsed.entries, convert);
    r := Ok(Fetched(response.etag, response.lastModified, FeedMetaOf(parsed.feed, convert), entries));
  }
}
