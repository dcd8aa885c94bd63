/**
 * The digest for one account (`create_newsletter`), as a structured
 * document: one section per symbol, in the order given, each with an
 * optional performance block and a news block.  The HTML text, the
 * two-decimal formatting and the CSS classes are presentation and are not
 * modelled; the colour chosen for the change is.
 */
module Newsletter {
  import opened Wrappers
  import opened Performance
  import opened News

  /** "text-green-600" or "text-red-600". */
  datatype Colour = Green | Red

  datatype PerformanceBlock =
    PerformanceBlock(latestClose: real, changePercent: real, colour: Colour, weeklyHigh: real, weeklyLow: real)

  /** The "Recent News:" list, or the "No recent news available." placeholder. */
  datatype NewsBlock = Headlines(items: seq<Headline>) | NoRecentNews

  datatype Section = Section(symbol: string, performance: Option<PerformanceBlock>, news: NewsBlock)

  /** Header (recipient and date), the sections, and the footer link to the dashboard. */
  datatype Digest = Digest(recipient: string, date: string, sections: seq<Section>, dashboardUrl: string)

  /** A rendered value, or the ZeroDivisionError raised while rendering `symbol`. */
  datatype Rendering<T> = Rendered(value: T) | RaisedZeroDivision(symbol: string)

  /** The block shown for a computed summary: green exactly when the change is not negative. */
  function PerformanceBlockOf(s: Summary): (b: PerformanceBlock)
    ensures b.colour == Green <==> 0.0 <= s.changePercent
    ensures b.latestClose == s.latestClose && b.changePercent == s.changePercent
    ensures b.weeklyHigh == s.weeklyHigh && b.weeklyLow == s.weeklyLow
  {
    PerformanceBlock(s.latestClose, s.changePercent,
                     if 0.0 <= s.changePercent then Green else Red,
                     s.weeklyHigh, s.weeklyLow)
  }

  /** Every kept item, in order, or the placeholder when none was kept. */
  function NewsBlockOf(items: seq<FeedItem>): (b: NewsBlock)
    ensures b.NoRecentNews? <==> items == []
    ensures b.Headlines? ==> |b.items| == |items|
    ensures b.Headlines? ==> forall i :: 0 <= i < |items| ==> b.items[i] == HeadlineOf(items[i])
  {
    if items == [] then NoRecentNews
    else Headlines(seq(|items|, i requires 0 <= i < |items| => HeadlineOf(items[i])))
  }

  /** Rendering `symbol` raises: its performance computation divides by a zero past close. */
  predicate RaisesFor(symbol: string, seriesOf: string -> Series, today: Day) {
    WeeklyPerformance(seriesOf(symbol), today) == ZeroPastClose
  }

  /**
   * The section for one symbol.  Its performance block and its news block
   * depend on the two responses independently: missing performance still
   * shows the news, and missing news still shows the performance.
   */
  function SectionOf(symbol: string, feed: Option<seq<FeedItem>>, series: Series, today: Day): (s: Section)
    requires WeeklyPerformance(series, today) != ZeroPastClose
    ensures s.symbol == symbol
    ensures s.performance.Some? <==> WeeklyPerformance(series, today).Computed?
    ensures s.performance.Some? ==> s.performance.value == PerformanceBlockOf(WeeklyPerformance(series, today).summary)
    ensures s.news.NoRecentNews? <==> LatestNews(feed) == []
    ensures s.news.Headlines? ==> |s.news.items| <= MaxItems
    ensures s.news == NewsBlockOf(LatestNews(feed))
  {
    var performance := WeeklyPerformance(series, today);
    Section(symbol,
            if performance.Computed? then Some(PerformanceBlockOf(performance.summary)) else None,
            NewsBlockOf(LatestNews(feed)))
  }

  /** No symbol of the list makes rendering raise. */
  predicate RendersAll(stocks: seq<string>, seriesOf: string -> Series, today: Day) {
    stocks == [] ||
    (RendersAll(stocks[..|stocks| - 1], seriesOf, today) && !RaisesFor(stocks[|stocks| - 1], seriesOf, today))
  }

  lemma {:induction false} RendersAllIff(stocks: seq<string>, seriesOf: string -> Series, today: Day)
    ensures RendersAll(stocks, seriesOf, today) <==> forall i :: 0 <= i < |stocks| ==> !RaisesFor(stocks[i], seriesOf, today)
  {
    if stocks != [] {
      var init := stocks[..|stocks| - 1];
      RendersAllIff(init, seriesOf, today);
      assert forall i :: 0 <= i < |init| ==> init[i] == stocks[i];
    }
  }

  /** The sections of the symbols, in order. */
  function SectionsOf(stocks: seq<string>, feedOf: string -> Option<seq<FeedItem>>,
                      seriesOf: string -> Series, today: Day): (r: seq<Section>)
    requires RendersAll(stocks, seriesOf, today)
    ensures |r| == |stocks|
  {
    if stocks == [] then []
    else
      var symbol := stocks[|stocks| - 1];
      SectionsOf(stocks[..|stocks| - 1], feedOf, seriesOf, today)
      + [SectionOf(symbol, feedOf(symbol), seriesOf(symbol), today)]
  }

  /** Section i is the section of symbol i. */
  lemma {:induction false} SectionsOfAt(stocks: seq<string>, feedOf: string -> Option<seq<FeedItem>>,
                                        seriesOf: string -> Series, today: Day, i: nat)
    requires RendersAll(stocks, seriesOf, today)
    requires i < |stocks|
    ensures !RaisesFor(stocks[i], seriesOf, today)
    ensures SectionsOf(stocks, feedOf, seriesOf, today)[i] ==
            SectionOf(stocks[i], feedOf(stocks[i]), seriesOf(stocks[i]), today)
  {
    var init := stocks[..|stocks| - 1];
    if i < |init| {
      SectionsOfAt(init, feedOf, seriesOf, today, i);
      assert init[i] == stocks[i];
    }
  }

  /** The digest when no symbol raises: one section per symbol, in input order. */
  function DigestOf(email: string, stocks: seq<string>, feedOf: string -> Option<seq<FeedItem>>,
                    seriesOf: string -> Series, today: Day, date: string, dashboardUrl: string): (d: Digest)
    requires RendersAll(stocks, seriesOf, today)
    ensures d.recipient == email && d.date == date && d.dashboardUrl == dashboardUrl
    ensures |d.sections| == |stocks|
  {
    Digest(email, date, SectionsOf(stocks, feedOf, seriesOf, today), dashboardUrl)
  }

  /** The nested `for item in news_items` loop, or the placeholder when no item was kept. */
  method ComposeNews(newsItems: seq<FeedItem>) returns (news: NewsBlock)
    ensures news == NewsBlockOf(newsItems)
  {
    if |newsItems| > 0 {
      var headlines: seq<Headline> := [];
      for i := 0 to |newsItems|
        invariant |headlines| == i
        invariant forall j :: 0 <= j < i ==> headlines[j] == HeadlineOf(newsItems[j])
      {
        headlines := headlines + [HeadlineOf(newsItems[i])];
      }
      news := Headlines(headlines);
    } else {
      news := NoRecentNews;
    }
  }

  /**
   * The body of `create_newsletter`'s loop for one symbol: the performance
   * block when a summary exists, then the news block.
   */
  method ComposeSection(symbol: string, feed: Option<seq<FeedItem>>, series: Series, today: Day)
    returns (r: Rendering<Section>)
    ensures r.RaisedZeroDivision? <==> WeeklyPerformance(series, today) == ZeroPastClose
    ensures r.RaisedZeroDivision? ==> r.symbol == symbol
    ensures r.Rendered? ==> r.value == SectionOf(symbol, feed, series, today)
  {
    var newsItems := LatestNews(feed);
    var performance := WeeklyPerformance(series, today);
    if performance == ZeroPastClose {
      return RaisedZeroDivision(symbol);
    }
    var block: Option<PerformanceBlock> := None;
    if performance.Computed? {
      var colour := if 0.0 <= performance.summary.changePercent then Green else Red;
      block := Some(PerformanceBlock(performance.summary.latestClose, performance.summary.changePercent,
                                     colour, performance.summary.weeklyHigh, performance.summary.weeklyLow));
    }
    var news := ComposeNews(newsItems);
    r := Rendered(Section(symbol, block, news));
  }

  /**
   * `create_newsletter`: renders each symbol in turn and appends its
   * section.  A ZeroDivisionError from the first symbol whose past close is
   * zero escapes, and no digest results.
   */
  method ComposeDigest(email: string, stocks: seq<string>, feedOf: string -> Option<seq<FeedItem>>,
                       seriesOf: string -> Series, today: Day, date: string, dashboardUrl: string)
    returns (r: Rendering<Digest>)
    ensures r.Rendered? <==> RendersAll(stocks, seriesOf, today)
    ensures r.Rendered? ==> r.value == DigestOf(email, stocks, feedOf, seriesOf, today, date, dashboardUrl)
    ensures r.RaisedZeroDivision? ==>
              exists k :: 0 <= k < |stocks| && r.symbol == stocks[k] && RaisesFor(stocks[k], seriesOf, today)
                          && RendersAll(stocks[..k], seriesOf, today)
  {
    var sections: seq<Section> := [];
    var k := 0;
    while k < |stocks|
      invariant 0 <= k <= |stocks|
      invariant RendersAll(stocks[..k], seriesOf, today)
      invariant sections == SectionsOf(stocks[..k], feedOf, seriesOf, today)
    {
      assert stocks[..k + 1][..k] == stocks[..k];
      var section := ComposeSection(stocks[k], feedOf(stocks[k]), seriesOf(stocks[k]), today);
      if section.RaisedZeroDivision? {
        RendersAllIff(stocks, seriesOf, today);
        return RaisedZeroDivision(stocks[k]);
      }
      sections := sections + [section.value];
      k := k + 1;
    }
    assert stocks[..k] == stocks;
    r := Rendered(Digest(email, date, sections, dashboardUrl));
  }
}
