/**
 * News items for one symbol (`fetch_stock_news` without its HTTP request)
 * and how one item is shown in a digest.
 */
module News {
  import opened Wrappers

  /** The most items a digest shows per symbol, the `[:3]` slice. */
  const MaxItems: nat := 3

  /** One element of the provider's "feed" array; a field is `None` when its key is absent. */
  datatype FeedItem = FeedItem(title: Option<string>, summary: Option<string>, url: Option<string>)

  /** What a digest shows for one item. */
  datatype Headline = Headline(title: string, summary: string, link: string)

  /**
   * The items kept for a symbol: `data.get("feed", [])[:3]`.  `feed` is
   * `None` when the response has no "feed" key or the request failed.
   */
  function LatestNews(feed: Option<seq<FeedItem>>): (r: seq<FeedItem>)
    ensures |r| <= MaxItems
    ensures feed.None? ==> r == []
    ensures feed.Some? ==> r <= feed.value && (|r| < MaxItems ==> r == feed.value)
  {
    match feed
    case None => []
    case Some(items) => if |items| <= MaxItems then items else items[..MaxItems]
  }

  /** `item.get("title", "No title")` and likewise for the summary and the link. */
  function HeadlineOf(item: FeedItem): (h: Headline)
    ensures item.title.Some? ==> h.title == item.title.value
    ensures item.title.None? ==> h.title == "No title"
    ensures item.summary.Some? ==> h.summary == item.summary.value
    ensures item.summary.None? ==> h.summary == "No summary"
    ensures item.url.Some? ==> h.link == item.url.value
    ensures item.url.None? ==> h.link == "#"
  {
    Headline(
      match item.title case Some(t) => t case None => "No title",
      match item.summary case Some(s) => s case None => "No summary",
      match item.url case Some(u) => u case None => "#")
  }

  /** A feed of five items keeps its first three, in order. */
  lemma FiveItemFeedKeepsFirstThree(a: FeedItem, b: FeedItem, c: FeedItem, d: FeedItem, e: FeedItem)
    ensures LatestNews(Some([a, b, c, d, e])) == [a, b, c]
  {
    assert [a, b, c, d, e][..3] == [a, b, c];
  }
}
