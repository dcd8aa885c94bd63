# Stock newsletter: a verified model of the digest pipeline

The system lets users keep two lists of stock symbols, holdings and a
watchlist, and emails each of them a weekly digest. The digest has one
section per tracked symbol: the symbol's weekly price performance and its
latest news. This project models the logic of that pipeline in Dafny and
proves what it does:

- `performance.dfy` (module `Performance`): the weekly summary computed
  from a daily price series. The latest date is the greatest key up to
  today. The past date is the least key from a week ago on, falling back to
  the latest date. The summary holds the percent change between their two
  closes, and the high and low of the trailing seven-day window. The result
  is a summary, `None`, or a division by zero that the code does not catch.
- `extrema.dfy` (module `Extrema`): `max` and `min` over finite sets, for
  dates and for prices.
- `news.dfy` (module `News`): the first three items of a news feed, and the
  default title, summary and link of an item.
- `newsletter.dfy` (module `Newsletter`): the digest as a structured
  document. It has one section per symbol in input order. A section has a
  performance block (coloured green or red by the sign of the change) and a
  news list or a "no news" placeholder.
- `tracking.dfy` (module `Tracking`): the Holding and Watchlist tables, with
  the dashboard's add and remove actions as methods of a class.
- `batch.dfy` (module `Batch`): the batch run that sends one digest to every
  account whose symbol list is not empty.
- `wrappers.dfy` (module `Wrappers`): `Option`.

Dates are day numbers. The code compares "YYYY-MM-DD" strings, and for
dates in that format string order and day order agree. Prices are exact
reals. A field of a day record is `None` when the key is missing or when
`float()` raises ValueError on it. Network answers, the clock and the dashboard URL are
parameters: `feedOf` and `seriesOf` give the provider's decoded answer for
each symbol, `today` is the current day, and `date` is the header's date
text.

In these places the code behaves in ways a reader might not expect; the
model follows the code:

- A zero past close raises ZeroDivisionError. The `except` at
  stock_newsletter.py:282 does not catch it, and neither `create_newsletter`
  nor `send_newsletters` has a `try`. So one such symbol stops the whole
  batch run, after the mails already sent (`Batch.SendNewsletters`,
  `aborted`).
- When the only day in the window is the latest date, the weekly high and
  low are that day's high and low, not its close
  (`Performance.SingleDayWindow`). Only an empty window gives the latest
  close for both.
- Keys after today are not the latest date, but one of them can be the past
  date (`Performance.FutureKeyCanBePastDate`).
- The provider requests follow each other with no delay between them.

## Model

| member | source | states |
|---|---|---|
| `Extrema.Greatest` | stock_newsletter.py:266 | the result is in the set and no element exceeds it |
| `Extrema.Least` | stock_newsletter.py:267 | the result is in the set and no element is below it |
| `Extrema.Maximum` | stock_newsletter.py:274 | the maximum of a non-empty set of prices, attained by an element |
| `Extrema.Minimum` | stock_newsletter.py:275 | the minimum of a non-empty set of prices, attained by an element |
| `Extrema.TopExists` | stock_newsletter.py:266-267 | every finite non-empty set has a top element under any total order, so `max(...)` and `min(...)` over the keys and over the window prices are defined |
| `Performance.Window` | stock_newsletter.py:273-275 | the keys d with today−7 ≤ d ≤ today, the days whose highs and lows are read |
| `Performance.Highs` | stock_newsletter.py:274 | the parsed highs of the window's days, the values `max(...)` ranges over |
| `Performance.Lows` | stock_newsletter.py:275 | the parsed lows of the window's days, the values `min(...)` ranges over |
| `Performance.LatestDate` | stock_newsletter.py:264-266 | `None` iff every key is after today; otherwise a key, not after today, and at least every key not after today |
| `Performance.PastDate` | stock_newsletter.py:265-267 | a key of the series; the least key not before today−7 when one exists (future keys included), else the latest date |
| `Performance.ChangePercent` | stock_newsletter.py:272 | `((latest − past) / past) × 100`, defined only for a non-zero past close; its meaning is `ChangePercentMeaning` |
| `Performance.ChangePercentMeaning` | stock_newsletter.py:272 | change × past close = (latest − past) × 100; with a positive past close the change is ≥ 0 iff the latest close is not below the past close, and 0 iff they are equal |
| `Performance.WeeklyPerformance` | stock_newsletter.py:261-284 | no summary when no key is up to today (an empty series included); a computed summary's latest close is the close of the latest date |
| `Performance.PastNotAfterLatest` | stock_newsletter.py:266-267 | if no key lies after today, the past date is not after the latest date |
| `Performance.FutureKeyCanBePastDate` | stock_newsletter.py:266-267 | with keys a month ago and tomorrow, the latest date is the old key and the past date is the future key, so the change is −50% |
| `Performance.WeeklyRangeIsWindowExtremes` | stock_newsletter.py:273-275 | the weekly high and low are the max of the highs and the min of the lows over exactly the days in [today−7, today], both attained; both are the latest close when the window is empty |
| `Performance.WeeklyLowNotAboveHigh` | stock_newsletter.py:273-275 | the weekly low is at most the weekly high whenever every window day has low ≤ high |
| `Performance.ChangeFollowsCloses` | stock_newsletter.py:270-272 | a computed change relates the parsed, non-zero past close to the latest close by the percent-change equation, and its sign follows the price move for a positive past close |
| `Performance.UnusableFieldGivesNoSummary` | stock_newsletter.py:270-284 | an unusable latest close or past close gives `None`; so does an unusable high or low in the window when the past close is non-zero |
| `Performance.ComputedIff` | stock_newsletter.py:262-284 | a summary is computed exactly when a key up to today exists, the latest and past closes parse, the past close is non-zero, and every high and low in the window parses |
| `Performance.ZeroPastCloseIff` | stock_newsletter.py:270-272 | the division raises exactly when a latest date exists, its close parses, and the past close parses to zero |
| `Performance.SingleDayWindow` | stock_newsletter.py:273-275 | when the window holds only the latest date, the weekly high and low are that day's own high and low |
| `Performance.TwoDayExample` | stock_newsletter.py:261-281 | closes 100 and 110 four days apart give a change of 10%, a high of 112 and a low of 99 |
| `News.LatestNews` | stock_newsletter.py:248-249 | at most three items, a prefix of the feed, the whole feed when it has fewer than three; empty when there is no feed |
| `News.HeadlineOf` | stock_newsletter.py:329-331 | present fields are shown as given; absent ones become "No title", "No summary" and "#" |
| `News.FiveItemFeedKeepsFirstThree` | stock_newsletter.py:249 | a five-item feed keeps its first three items in order |
| `Newsletter.PerformanceBlockOf` | stock_newsletter.py:315-324 | green iff the change is ≥ 0; close, change, high and low as in the summary |
| `Newsletter.NewsBlockOf` | stock_newsletter.py:326-340 | the placeholder iff no item was kept; otherwise one headline per item, in order |
| `Newsletter.SectionOf` | stock_newsletter.py:306-342 | a section for the symbol; a performance block iff a summary was computed; a placeholder iff no news was kept; the two blocks are independent |
| `Newsletter.RendersAllIff` | stock_newsletter.py:306-308 | a list of symbols renders exactly when none of its symbols has a zero past close |
| `Newsletter.SectionsOf` | stock_newsletter.py:306-342 | one section per symbol |
| `Newsletter.SectionsOfAt` | stock_newsletter.py:306-342 | section i is the section of symbol i, so the sections follow the input order |
| `Newsletter.DigestOf` | stock_newsletter.py:286-353 | a digest for the account, with the header date and the dashboard link, and as many sections as symbols |
| `Newsletter.ComposeNews` | stock_newsletter.py:326-340 | the loop over the kept items builds exactly `NewsBlockOf` of them |
| `Newsletter.ComposeSection` | stock_newsletter.py:306-342 | the loop body raises iff the symbol's past close is zero; otherwise it renders exactly `SectionOf` |
| `Newsletter.ComposeDigest` | stock_newsletter.py:286-353 | renders iff no symbol raises, and then the result is `DigestOf`; otherwise it raises at the first symbol that raises |
| `Tracking.ListFor` | stock_newsletter.py:214 | the Holding table iff the list type is exactly "holdings", otherwise the Watchlist table |
| `Tracking.Upper` | stock_newsletter.py:212 | same length; no lower-case ASCII letter remains; lower-case letters are shifted to upper case and every other character is kept |
| `Tracking.UpperIdempotent` | stock_newsletter.py:212 | upper-casing twice equals upper-casing once |
| `Tracking.SymbolsOfAppend` | stock_newsletter.py:216-218 | appending a row extends its owner's symbol list by that symbol and leaves every other user's list unchanged |
| `Tracking.SymbolsOf` | stock_newsletter.py:378 | a user's symbols in one table, in row order, no more of them than rows |
| `Tracking.SymbolsOfMembers` | stock_newsletter.py:378 | a symbol is in a user's list exactly when the table holds a row of that user with that symbol |
| `Tracking.RemoveFirstRow` | stock_newsletter.py:228-231 | the table without its first row equal to the given row; the rows before and after it are characterised by `RemoveFirstRowAt` and `RemoveFirstRowAbsent` |
| `Tracking.RemoveFirstRowTakesOneCopy` | stock_newsletter.py:228-231 | the table loses one copy of the row when it holds one, and is otherwise unchanged (as a multiset) |
| `Tracking.RemoveFirstRowAt` | stock_newsletter.py:228-231 | the row deleted is the first matching row; the rows before and after it stay, in order |
| `Tracking.RemoveFirstRowAbsent` | stock_newsletter.py:229 | with no matching row the table is unchanged |
| `Tracking.RemoveFirstRowView` | stock_newsletter.py:228-231 | deleting the first (user, symbol) row deletes the first occurrence of the symbol from that user's list and changes no other user's list |
| `Tracking.RemoveFirstTakesOneCopy` | stock_newsletter.py:228-231 | removal takes out exactly one copy of a present symbol, and is the identity on an absent one |
| `Tracking.SymbolStore.AddStock` | stock_newsletter.py:208-221 | without a signed-in user nothing changes; otherwise the upper-cased symbol is appended to holdings iff the list type is "holdings", else to the watchlist, and the other table is unchanged |
| `Tracking.SymbolStore.RemoveStock` | stock_newsletter.py:223-232 | without a signed-in user nothing changes; otherwise the chosen table loses its first row matching (user, symbol), if any, and the other table is unchanged |
| `Batch.StocksOf` | stock_newsletter.py:378 | the account's holdings symbols followed by its watchlist symbols |
| `Batch.StocksOfMembers` | stock_newsletter.py:378 | a symbol is in an account's list exactly when one of its Holding or Watchlist rows names it |
| `Batch.Recipients` | stock_newsletter.py:377-379 | the accounts with a non-empty symbol list, no more of them than there are accounts |
| `Batch.RecipientsAppend` | stock_newsletter.py:377-379 | the recipients of two runs of accounts are the recipients of the first followed by those of the second, so recipients keep the account order |
| `Batch.MailFor` | stock_newsletter.py:380-381 | the mail goes to the account's address, and its digest is `DigestOf` the account's holdings-then-watchlist list, addressed to the same account |
| `Batch.RecipientsAreTheTrackingAccounts` | stock_newsletter.py:376-381 | an account with a non-empty holdings-plus-watchlist list gets one digest per occurrence in the account list; any other account gets none |
| `Batch.OnlyTrackingAccountReceives` | stock_newsletter.py:377-381 | of two accounts, one tracking nothing and one tracking a symbol, only the second is sent a digest |
| `Batch.Run` | stock_newsletter.py:377-381 | the run over the accounts in order: an account with no symbols is skipped, a raising digest ends the run, any other account is sent its mail |
| `Batch.AbortEndsRun` | stock_newsletter.py:377-381 | once an account's digest has raised, the later accounts add no mail |
| `Batch.RunSendsToRecipients` | stock_newsletter.py:376-381 | mail i goes to the i-th recipient and carries its digest over holdings followed by watchlist; without a raising digest every recipient gets exactly one mail; otherwise the run stops at the first recipient whose digest raises |
| `Batch.RunAbortsIff` | stock_newsletter.py:377-381 | the run ends early exactly when some recipient's symbol list has a symbol with a zero past close |
| `Batch.SendNewsletters` | stock_newsletter.py:374-381 | the loop over the accounts sends exactly the mails of `Run` and ends early exactly when `Run` does, so `RunSendsToRecipients` and `RunAbortsIff` hold of its result |

## Left out

- HTTP requests and JSON decoding in `fetch_stock_news` and `fetch_stock_performance`: network I/O. The decoded answers are the parameters `feedOf` and `seriesOf`. A failed request is an absent feed or an empty series. The provider is taken to answer the same for a symbol within one run, though the code fetches again each time a symbol repeats.
- `datetime.now()`: the clock. One `today` is used for the whole run, though the code reads the clock in every performance call and once for the header.
- `url_for(..., _external=True)`: the dashboard link is the parameter `dashboardUrl`. The model takes it that `url_for` returns, which needs a request context or a configured `SERVER_NAME`. The command-line run at stock_newsletter.py:387-391 has only an application context, and the file sets no `SERVER_NAME`. On that path `url_for` would raise RuntimeError inside the first digest, and nothing at stock_newsletter.py:286-381 catches it. That error is not modelled.
- The HTML text of the digest, its CSS classes and the `:.2f` formatting: presentation.
- `send_email` (MIME and SMTP): network I/O whose failures are only printed. Each call is recorded as one `Mail`.
- Flask routes, redirects, flash messages, templates, signup, login, logout, password hashing and the dashboard page: web plumbing and library calls. Only the signed-in check of `add_stock`/`remove_stock` is kept, as `session: Option<UserId>`.
- SQLAlchemy sessions, commits and rollbacks: database behaviour. The model appends every added symbol, even where a database enforcing the 10-character `symbol` column would reject it and roll back. Rows are taken in insertion order for `.first()` and for `user.holdings`/`user.watchlist`.
- Tracking.Upper: only ASCII letters are upper-cased; Python's full Unicode `str.upper()` is not modelled.
- Performance.WeeklyPerformance: dates are day numbers, so the empty-string key is not modelled (it is falsy at stock_newsletter.py:268 and would give `None`), and neither are keys outside the "YYYY-MM-DD" form.
- Performance.WeeklyPerformance: prices are exact reals, so float rounding, NaN and infinity are not modelled.
- Performance.WeeklyPerformance: the decoded series is taken to map dates to objects whose price fields are text. A JSON `null`, array or object in a price field, or a day record that is not an object, makes `float()` or the indexing raise TypeError, which the `except` at stock_newsletter.py:282 does not catch; that uncaught error is not modelled.
- News.LatestNews: the feed is taken to be a list or absent. With `"feed": null`, `data.get("feed", [])` gives `None`, and `None[:3]` raises TypeError, which the `except requests.RequestException` at stock_newsletter.py:250 does not catch and which would end the batch run. That error is not modelled.
- News.HeadlineOf: a field is present text or absent; a JSON `null` field, which the code would show as "None", is not modelled.
- `print` logging and the `__main__` dispatch: output and process entry.
