/** The dashboard script of the web front end: feed lookups for episode
    cards, the decimal count badges, the episode filter and the request it
    leads to, the collapse toggle of long descriptions, and the rendering of
    the feed and episode lists. The DOM is modelled by the fields of
    `Dashboard`; Markdown rendering and date formatting are foreign and
    come in as parameters (`render`, `locale`). */
module Frontend {
  import opened Base
  import opened Strings
  import opened Collections
  import opened Models

  const UnknownSource: string := "未知来源"
  const CollapseCharThreshold: nat := 180
  const EpisodePageSize: nat := 20
  const RequestFailed: string := "请求失败"

  // Decimal text of numbers (`Number.prototype.toString`, `padStart`).

  predicate IsDigit(c: char) { '0' <= c <= '9' }

  predicate AllDigits(s: string) { forall i :: 0 <= i < |s| ==> IsDigit(s[i]) }

  function DigitChar(d: nat): (c: char)
    requires d < 10
    ensures IsDigit(c) && c as int - '0' as int == d
  {
    ('0' as int + d) as char
  }

  /** The number a string of decimal digits denotes. */
  function DecimalValue(s: string): nat
    requires AllDigits(s)
  {
    if s == [] then 0 else DecimalValue(s[..|s| - 1]) * 10 + (s[|s| - 1] as int - '0' as int)
  }

  /** `n.toString()`: the decimal digits of `n`, with no leading zero. */
  function NatToString(n: nat): (r: string)
    ensures |r| >= 1 && AllDigits(r) && DecimalValue(r) == n
    ensures |r| == 1 <==> n < 10
    ensures r[0] == '0' <==> n == 0
  {
    if n < 10 then [DigitChar(n)]
    else
      var p := NatToString(n / 10);
      var r := p + [DigitChar(n % 10)];
      assert r[..|r| - 1] == p;
      r
  }

  /** A string of `k` copies of `c`. */
  function Repeat(c: char, k: nat): (r: string)
    ensures |r| == k && forall i :: 0 <= i < k ==> r[i] == c
  {
    if k == 0 then [] else [c] + Repeat(c, k - 1)
  }

  /** `s.padStart(width, fill)` with a one-character fill. */
  function PadStart(s: string, width: nat, fill: char): (r: string)
    ensures |r| == if |s| >= width then |s| else width
    ensures |s| >= width ==> r == s
    ensures |s| < width ==> r == Repeat(fill, width - |s|) + s
  {
    if |s| >= width then s else Repeat(fill, width - |s|) + s
  }

  /** Leading zeros do not change the value of a decimal string. */
  lemma {:induction false} ZerosKeepValue(k: nat, s: string)
    requires AllDigits(s)
    ensures AllDigits(Repeat('0', k) + s) && DecimalValue(Repeat('0', k) + s) == DecimalValue(s)
    decreases |s|
  {
    var z := Repeat('0', k);
    if s == [] {
      assert z + s == z;
      ZerosValueZero(k);
    } else {
      var init := s[..|s| - 1];
      ZerosKeepValue(k, init);
      assert (z + s)[..|z + s| - 1] == z + init;
    }
  }

  lemma {:induction false} ZerosValueZero(k: nat)
    ensures AllDigits(Repeat('0', k)) && DecimalValue(Repeat('0', k)) == 0
  {
    if k > 0 {
      var z := Repeat('0', k);
      ZerosValueZero(k - 1);
      assert z[..k - 1] == Repeat('0', k - 1);
    }
  }

  /** The text of a count badge: the count in decimal, left-padded with "0"
      to two characters. It reads back as the count, so different counts
      show different badges. */
  function CountBadge(n: nat): (r: string)
    ensures |r| == if n < 10 then 2 else |NatToString(n)|
    ensures AllDigits(r) && DecimalValue(r) == n
    ensures n < 10 ==> r[0] == '0'
  {
    var d := NatToString(n);
    ZerosKeepValue(if |d| < 2 then 2 - |d| else 0, d);
    PadStart(d, 2, '0')
  }

  /** Decimal digits without a leading zero (the only text `String(n)`
      gives for a natural number `n`). */
  predicate DecimalText(s: string) {
    |s| >= 1 && AllDigits(s) && (s[0] == '0' ==> |s| == 1)
  }

  /** A string `String(i)` can produce: a decimal text, or "-" followed by
      one that does not denote zero. */
  predicate IntText(s: string) {
    DecimalText(s) || (|s| >= 2 && s[0] == '-' && s[1] != '0' && DecimalText(s[1..]))
  }

  function IntValue(s: string): int
    requires IntText(s)
  {
    if |s| > 0 && s[0] == '-' then -(DecimalValue(s[1..]) as int) else DecimalValue(s)
  }

  /** `String(i)` for an integer, as assigned to an option's `value`. */
  function IntToString(i: int): (r: string)
    ensures r != "" && IntText(r) && IntValue(r) == i
  {
    if i < 0 then
      var r := "-" + NatToString(-i);
      assert r[1..] == NatToString(-i);
      r
    else NatToString(i)
  }

  // Feed lookups.

  /** `k` is the position of the first feed with id `id`. */
  predicate FirstWithId(feeds: seq<Feed>, id: int, k: int) {
    0 <= k < |feeds| && feeds[k].id == id && forall j :: 0 <= j < k ==> feeds[j].id != id
  }

  /** `currentFeeds.find(item => item.id === feedId)`. */
  function FindFeed(feeds: seq<Feed>, id: int): (r: Option<Feed>)
    ensures r.None? <==> forall i :: 0 <= i < |feeds| ==> feeds[i].id != id
    ensures r.Some? ==> exists k :: FirstWithId(feeds, id, k) && r.value == feeds[k]
  {
    match FindFirst(feeds, (f: Feed) => f.id == id)
    case Some(k) => assert FirstWithId(feeds, id, k); Some(feeds[k])
    case None => None
  }

  /** `getFeedDisplayName`: "未知来源" for the id 0 or an unknown feed;
      otherwise the first matching feed's title, else its URL, else
      "未知来源". */
  function FeedDisplayName(feeds: seq<Feed>, feedId: int): (r: string)
    ensures r != ""
    ensures feedId == 0 ==> r == UnknownSource
    ensures (forall i :: 0 <= i < |feeds| ==> feeds[i].id != feedId) ==> r == UnknownSource
    ensures forall k :: feedId != 0 && FirstWithId(feeds, feedId, k) ==>
              r == (if Truthy(feeds[k].title) then feeds[k].title.value
                    else if feeds[k].url != "" then feeds[k].url else UnknownSource)
  {
    if feedId == 0 then UnknownSource
    else
      match FindFeed(feeds, feedId)
      case None => UnknownSource
      case Some(f) =>
        if Truthy(f.title) then f.title.value else if f.url != "" then f.url else UnknownSource
  }

  /** `getFeedHomepage`: null for the id 0 or an unknown feed; otherwise the
      first matching feed's link, else its URL, else null. A homepage that is
      given is never empty. */
  function FeedHomepage(feeds: seq<Feed>, feedId: int): (r: Option<string>)
    ensures r.Some? ==> r.value != ""
    ensures feedId == 0 ==> r.None?
    ensures (forall i :: 0 <= i < |feeds| ==> feeds[i].id != feedId) ==> r.None?
    ensures forall k :: feedId != 0 && FirstWithId(feeds, feedId, k) ==>
              r == (if Truthy(feeds[k].link) then feeds[k].link
                    else if feeds[k].url != "" then Some(feeds[k].url) else None)
  {
    if feedId == 0 then None
    else
      match FindFeed(feeds, feedId)
      case None => None
      case Some(f) =>
        if Truthy(f.link) then f.link else if f.url != "" then Some(f.url) else None
  }

  // The episode filter.

  datatype SelectOption = SelectOption(value: string, text: string)

  const AllFeedsOption: SelectOption := SelectOption("", "全部订阅")

  /** The filter option of one feed: its id, labelled with its title, else
      its URL. */
  function OptionFor(f: Feed): (r: SelectOption)
    ensures r.value != "" && IntText(r.value) && IntValue(r.value) == f.id
    ensures Truthy(f.title) ==> r.text == f.title.value
    ensures !Truthy(f.title) ==> r.text == f.url
  {
    SelectOption(IntToString(f.id), if Truthy(f.title) then f.title.value else f.url)
  }

  /** The options `renderFeeds` puts in the filter: "全部订阅" first, then
      one per feed. */
  function FilterOptionsFor(feeds: seq<Feed>): (r: seq<SelectOption>)
    ensures |r| == |feeds| + 1 && r[0] == AllFeedsOption
    ensures forall k :: 0 <= k < |feeds| ==> r[k + 1] == OptionFor(feeds[k])
  {
    [AllFeedsOption] + Map(feeds, OptionFor)
  }

  const EpisodesQueryPrefix: string := "/episodes?feed_id="

  /** The path `loadEpisodes` requests for a filter value. */
  function EpisodesPath(value: string): (r: string)
    ensures value == "" ==> r == "/episodes"
    ensures value != "" ==> EpisodesQueryPrefix <= r && r[|EpisodesQueryPrefix|..] == value
  {
    if value != "" then EpisodesQueryPrefix + value else "/episodes"
  }

  /** Choosing the first option requests every episode; choosing the option
      of a feed requests that feed's episodes by its id, which the query
      string carries in decimal and reads back exactly. */
  lemma FilterOptionPath(feeds: seq<Feed>, k: nat)
    requires k < |FilterOptionsFor(feeds)|
    ensures k == 0 ==> EpisodesPath(FilterOptionsFor(feeds)[k].value) == "/episodes"
    ensures k > 0 ==>
              var path := EpisodesPath(FilterOptionsFor(feeds)[k].value);
              EpisodesQueryPrefix <= path && |path| > |EpisodesQueryPrefix| &&
              IntText(path[|EpisodesQueryPrefix|..]) && IntValue(path[|EpisodesQueryPrefix|..]) == feeds[k - 1].id
  {
    if k > 0 {
      var v := IntToString(feeds[k - 1].id);
      assert (EpisodesQueryPrefix + v)[|EpisodesQueryPrefix|..] == v;
    }
  }

  // The collapse toggle of long descriptions.

  datatype DescToggle = NoToggle | Toggle(expanded: bool)

  /** `attachDescriptionToggle`: a toggle, collapsed, exactly when the
      trimmed text is longer than 180 UTF-16 code units. */
  function AttachToggle(text: string): (t: DescToggle)
    ensures t.Toggle? <==> Utf16Length(Trim(text, JsWhitespace)) > CollapseCharThreshold
    ensures t.Toggle? ==> !t.expanded && ToggleLabel(t) == "展开" && BoolText(t.expanded) == "false"
  {
    if Utf16Length(Trim(text, JsWhitespace)) <= CollapseCharThreshold then NoToggle else Toggle(false)
  }

  /** A text that gets a toggle has more than 90 characters, and any text
      with more than 180 characters left after trimming gets one. */
  lemma ToggleNeedsLongText(text: string)
    ensures AttachToggle(text).Toggle? ==> |text| > CollapseCharThreshold / 2
    ensures |Trim(text, JsWhitespace)| > CollapseCharThreshold ==> AttachToggle(text).Toggle?
  {
  }

  /** The toggle button's text: "收起" when expanded, "展开" when
      collapsed. Its `aria-expanded` attribute is `BoolText(t.expanded)`. */
  function ToggleLabel(t: DescToggle): (r: string)
    requires t.Toggle?
    ensures r == "收起" <==> t.expanded
    ensures r == "展开" <==> !t.expanded
  {
    if t.expanded then "收起" else "展开"
  }

  /** A click on the toggle flips its state, and with it the button's text
      and `aria-expanded`. */
  function Flip(t: DescToggle): (r: DescToggle)
    requires t.Toggle?
    ensures r.Toggle? && r.expanded != t.expanded
    ensures ToggleLabel(r) != ToggleLabel(t) && BoolText(r.expanded) != BoolText(t.expanded)
  {
    Toggle(!t.expanded)
  }

  // Cards.

  /** The text content `renderMarkdown` leaves in an element: the fallback
      for a falsy Markdown text; otherwise the text of the rendered,
      sanitised HTML when both libraries are loaded (`render`), else the
      Markdown itself. */
  function RenderedText(markdown: Option<string>, fallback: string, render: Option<string -> string>): (r: string)
    ensures !Truthy(markdown) ==> r == fallback
    ensures Truthy(markdown) && render.None? ==> r == markdown.value
    ensures Truthy(markdown) && render.Some? ==> r == render.value(markdown.value)
  {
    if !Truthy(markdown) then fallback
    else match render
      case None => markdown.value
      case Some(f) => f(markdown.value)
  }

  datatype FeedCard = FeedCard(feedId: int, title: string, description: string, meta: string, toggle: DescToggle)

  /** The card of one feed: its title, else "未命名订阅"; its description
      rendered, else its URL; when it was last checked, else "未抓取"; and
      the collapse toggle of the description. */
  function FeedCardFor(f: Feed, render: Option<string -> string>, locale: Time -> string): (r: FeedCard)
    ensures r.feedId == f.id && r.title != ""
    ensures Truthy(f.title) ==> r.title == f.title.value
    ensures !Truthy(f.title) ==> r.title == "未命名订阅"
    ensures !Truthy(f.description) ==> r.description == f.url
    ensures Truthy(f.description) && render.None? ==> r.description == f.description.value
    ensures Truthy(f.description) && render.Some? ==> r.description == render.value(f.description.value)
    ensures f.lastChecked.None? ==> r.meta == "最新更新：未抓取"
    ensures f.lastChecked.Some? ==> r.meta == "最新更新：" + locale(f.lastChecked.value)
    ensures r.toggle == AttachToggle(r.description)
  {
    var desc := RenderedText(f.description, f.url, render);
    FeedCard(f.id, if Truthy(f.title) then f.title.value else "未命名订阅", desc,
             "最新更新：" + (if f.lastChecked.Some? then locale(f.lastChecked.value) else "未抓取"),
             AttachToggle(desc))
  }

  datatype EpisodeCard = EpisodeCard(
    title: string,
    source: string,
    description: string,
    meta: string,
    href: string,
    linkText: string,
    linkTitle: string,
    toggle: DescToggle)

  /** The target of an episode card's link: the episode's link, else its
      feed's homepage, else "#"; never empty. */
  function EpisodeHref(e: Episode, feeds: seq<Feed>): (r: string)
    ensures r != ""
    ensures Truthy(e.link) ==> r == e.link.value
    ensures !Truthy(e.link) && FeedHomepage(feeds, e.feedId).Some? ==> r == FeedHomepage(feeds, e.feedId).value
    ensures !Truthy(e.link) && FeedHomepage(feeds, e.feedId).None? ==> r == "#"
    ensures !Truthy(e.link) && (forall i :: 0 <= i < |feeds| ==> feeds[i].id != e.feedId) ==> r == "#"
  {
    if Truthy(e.link) then e.link.value
    else match FeedHomepage(feeds, e.feedId)
      case Some(h) => h
      case None => "#"
  }

  /** An episode card: its title, else "未命名节目"; its feed's name; its
      summary rendered, else "暂无简介"; its date, else the current time;
      and its link. The summary stands for `summary || description`: an
      episode record has no `description`. */
  function EpisodeCardFor(e: Episode, feeds: seq<Feed>, render: Option<string -> string>,
                          locale: Time -> string, now: Time): (r: EpisodeCard)
    ensures r.title != ""
    ensures Truthy(e.title) ==> r.title == e.title.value
    ensures !Truthy(e.title) ==> r.title == "未命名节目"
    ensures r.source == "来源：" + FeedDisplayName(feeds, e.feedId)
    ensures !Truthy(e.summary) ==> r.description == "暂无简介"
    ensures Truthy(e.summary) && render.None? ==> r.description == e.summary.value
    ensures Truthy(e.summary) && render.Some? ==> r.description == render.value(e.summary.value)
    ensures r.meta == locale(if e.published.Some? then e.published.value else now)
    ensures r.href == EpisodeHref(e, feeds) && r.href != ""
    ensures r.linkText == "打开原文" && r.linkTitle == "在新标签打开原网页"
    ensures r.toggle == AttachToggle(r.description)
  {
    var desc := RenderedText(e.summary, "暂无简介", render);
    EpisodeCard(
      if Truthy(e.title) then e.title.value else "未命名节目",
      "来源：" + FeedDisplayName(feeds, e.feedId),
      desc,
      locale(if e.published.Some? then e.published.value else now),
      EpisodeHref(e, feeds),
      "打开原文",
      "在新标签打开原网页",
      AttachToggle(desc))
  }

  /** The cards of a feed list, in order. */
  function FeedCards(feeds: seq<Feed>, render: Option<string -> string>, locale: Time -> string): (r: seq<FeedCard>)
    ensures |r| == |feeds|
    ensures forall i :: 0 <= i < |feeds| ==> r[i] == FeedCardFor(feeds[i], render, locale)
  {
    Map(feeds, f => FeedCardFor(f, render, locale))
  }

  /** The cards of an episode list, in order. */
  function EpisodeCards(episodes: seq<Episode>, feeds: seq<Feed>, render: Option<string -> string>,
                        locale: Time -> string, now: Time): (r: seq<EpisodeCard>)
    ensures |r| == |episodes|
    ensures forall i :: 0 <= i < |episodes| ==> r[i] == EpisodeCardFor(episodes[i], feeds, render, locale, now)
  {
    Map(episodes, e => EpisodeCardFor(e, feeds, render, locale, now))
  }

  // Requests.

  /** How `request` ends for a response: a success status (200 to 299)
      yields the parsed body, or nothing for 204; any other status throws an
      error whose message is the body's `detail`, else "请求失败". */
  function RequestOutcome<T>(status: int, body: T, detail: Option<string>): (r: Result<Option<T>, string>)
    ensures r.Ok? <==> 200 <= status <= 299
    ensures r.Ok? ==> (r.value.None? <==> status == 204) && (r.value.Some? ==> r.value.value == body)
    ensures r.Err? ==> r.error != ""
    ensures r.Err? && Truthy(detail) ==> r.error == detail.value
    ensures r.Err? && !Truthy(detail) ==> r.error == RequestFailed
  {
    if !(200 <= status <= 299) then Err(if Truthy(detail) then detail.value else RequestFailed)
    else if status == 204 then Ok(None)
    else Ok(Some(body))
  }

  datatype Toast = Toast(message: string, variant: string)

  /** The parts of the page the dashboard script writes. */
  class Dashboard {
    const hasTopbarFeedCount: bool
    const hasTopbarEpisodeCount: bool
    var currentFeeds: seq<Feed>
    var filterOptions: seq<SelectOption>
    var filterValue: string
    var heroCount: string
    var topbarFeedCount: string
    var topbarEpisodeCount: string
    var feedCards: seq<FeedCard>
    var feedListEmpty: bool
    var episodeCards: seq<EpisodeCard>
    var episodeListEmpty: bool
    var toast: Option<Toast>

    /** The filter lists the current feeds, and its value is one of its
        options. */
    ghost predicate Valid()
      reads this
    {
      filterOptions == FilterOptionsFor(currentFeeds) &&
      exists k :: 0 <= k < |filterOptions| && filterOptions[k].value == filterValue
    }

    constructor (hasTopbarFeedCount: bool, hasTopbarEpisodeCount: bool)
      ensures Valid()
      ensures this.hasTopbarFeedCount == hasTopbarFeedCount && this.hasTopbarEpisodeCount == hasTopbarEpisodeCount
      ensures currentFeeds == [] && filterValue == "" && feedCards == [] && episodeCards == [] && toast.None?
    {
      this.hasTopbarFeedCount := hasTopbarFeedCount;
      this.hasTopbarEpisodeCount := hasTopbarEpisodeCount;
      currentFeeds, filterOptions, filterValue := [], [AllFeedsOption], "";
      heroCount, topbarFeedCount, topbarEpisodeCount := "", "", "";
      feedCards, feedListEmpty, episodeCards, episodeListEmpty := [], false, [], false;
      toast := None;
      new;
      assert filterOptions[0].value == filterValue;
    }

    /** `renderFeeds`: the badges show the number of feeds, the filter is
        rebuilt (and so falls back to its first option), the feeds become the
        current ones, and the list shows one card per feed or the empty
        message. */
    method RenderFeeds(feeds: seq<Feed>, render: Option<string -> string>, locale: Time -> string)
      modifies this`heroCount, this`topbarFeedCount, this`filterOptions, this`filterValue, this`currentFeeds
      modifies this`feedCards, this`feedListEmpty
      ensures Valid()
      ensures currentFeeds == feeds && filterOptions == FilterOptionsFor(feeds) && filterValue == ""
      ensures heroCount == CountBadge(|feeds|)
      ensures topbarFeedCount == if hasTopbarFeedCount then CountBadge(|feeds|) else old(topbarFeedCount)
      ensures feedListEmpty <==> feeds == []
      ensures feedCards == FeedCards(feeds, render, locale)
    {
      currentFeeds := feeds;
      var options := AppendEach(feeds, OptionFor);
      filterOptions := [AllFeedsOption] + options;
      filterValue := "";
      assert filterOptions[0].value == filterValue;
      heroCount := CountBadge(|feeds|);
      if hasTopbarFeedCount {
        topbarFeedCount := heroCount;
      }
      feedCards := AppendEach(feeds, f => FeedCardFor(f, render, locale));
      feedListEmpty := feeds == [];
    }

    /** `renderEpisodes`: the episode badge shows the number of episodes and
        the list shows one card per episode, named after its feed among the
        current feeds, or the empty message. */
    method RenderEpisodes(episodes: seq<Episode>, render: Option<string -> string>, locale: Time -> string, now: Time)
      modifies this`topbarEpisodeCount, this`episodeCards, this`episodeListEmpty
      ensures topbarEpisodeCount == if hasTopbarEpisodeCount then CountBadge(|episodes|) else old(topbarEpisodeCount)
      ensures episodeListEmpty <==> episodes == []
      ensures episodeCards == EpisodeCards(episodes, currentFeeds, render, locale, now)
    {
      if hasTopbarEpisodeCount {
        topbarEpisodeCount := CountBadge(|episodes|);
      }
      var feeds := currentFeeds;
      episodeCards := AppendEach(episodes, e => EpisodeCardFor(e, feeds, render, locale, now));
      episodeListEmpty := episodes == [];
    }

    /** `loadFeeds` with the outcome of `request("/feeds")`: the feeds are
        rendered, or the error message is shown as a "danger" toast and
        nothing else changes. */
    method LoadFeeds(reply: Result<seq<Feed>, string>, render: Option<string -> string>, locale: Time -> string)
      requires Valid()
      modifies this`heroCount, this`topbarFeedCount, this`filterOptions, this`filterValue, this`currentFeeds
      modifies this`feedCards, this`feedListEmpty, this`toast
      ensures Valid()
      ensures reply.Ok? ==>
                currentFeeds == reply.value && filterOptions == FilterOptionsFor(reply.value) && filterValue == "" &&
                heroCount == CountBadge(|reply.value|) &&
                topbarFeedCount == (if hasTopbarFeedCount then CountBadge(|reply.value|) else old(topbarFeedCount)) &&
                feedCards == FeedCards(reply.value, render, locale) && (feedListEmpty <==> reply.value == []) &&
                toast == old(toast)
      ensures reply.Err? ==>
                toast == Some(Toast(reply.error, "danger")) &&
                currentFeeds == old(currentFeeds) && filterOptions == old(filterOptions) && filterValue == old(filterValue) &&
                heroCount == old(heroCount) && topbarFeedCount == old(topbarFeedCount) &&
                feedCards == old(feedCards) && feedListEmpty == old(feedListEmpty)
    {
      match reply
      case Ok(feeds) =>
        RenderFeeds(feeds, render, locale);
      case Err(message) =>
        toast := Some(Toast(message, "danger"));
    }

    /** `loadEpisodes`: the returned path is the one requested for the
        current filter value; with the outcome of that request, the first
        20 episodes are rendered, or the error is shown as a "danger"
        toast and nothing else changes. */
    method LoadEpisodes(reply: Result<seq<Episode>, string>, render: Option<string -> string>,
                        locale: Time -> string, now: Time) returns (path: string)
      modifies this`topbarEpisodeCount, this`episodeCards, this`episodeListEmpty, this`toast
      ensures path == EpisodesPath(filterValue)
      ensures reply.Ok? ==>
                var shown := Take(reply.value, EpisodePageSize);
                |shown| == Min(EpisodePageSize, |reply.value|) &&
                episodeCards == EpisodeCards(shown, currentFeeds, render, locale, now) &&
                topbarEpisodeCount == (if hasTopbarEpisodeCount then CountBadge(|shown|) else old(topbarEpisodeCount)) &&
                (episodeListEmpty <==> reply.value == []) && toast == old(toast)
      ensures reply.Err? ==>
                toast == Some(Toast(reply.error, "danger")) && episodeCards == old(episodeCards) &&
                topbarEpisodeCount == old(topbarEpisodeCount) && episodeListEmpty == old(episodeListEmpty)
    {
      path := EpisodesPath(filterValue);
      match reply
      case Ok(episodes) =>
        RenderEpisodes(Take(episodes, EpisodePageSize), render, locale, now);
      case Err(message) =>
        toast := Some(Toast(message, "danger"));
    }

    /** Choosing option `k` of the filter (its `change` event then runs
        `loadEpisodes`). */
    method ChooseFilter(k: nat)
      requires Valid() && k < |filterOptions|
      modifies this`filterValue
      ensures Valid()
      ensures filterValue == filterOptions[k].value
    {
      filterValue := filterOptions[k].value;
    }

    /** A click on the toggle of feed card `i`. */
    method ClickFeedToggle(i: nat)
      requires i < |feedCards| && feedCards[i].toggle.Toggle?
      modifies this`feedCards
      ensures feedCards == old(feedCards)[i := old(feedCards)[i].(toggle := Flip(old(feedCards)[i].toggle))]
    {
      feedCards := feedCards[i := feedCards[i].(toggle := Flip(feedCards[i].toggle))];
    }

    /** A click on the toggle of episode card `i`. */
    method ClickEpisodeToggle(i: nat)
      requires i < |episodeCards| && episodeCards[i].toggle.Toggle?
      modifies this`episodeCards
      ensures episodeCards == old(episodeCards)[i := old(episodeCards)[i].(toggle := Flip(old(episodeCards)[i].toggle))]
    {
      episodeCards := episodeCards[i := episodeCards[i].(toggle := Flip(episodeCards[i].toggle))];
    }
  }
}
