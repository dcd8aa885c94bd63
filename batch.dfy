/**
 * The batch run (`send_newsletters`): every account whose holdings and
 * watchlist together are non-empty gets one digest, in account order.  The
 * run reads the two tables and changes nothing in the store.
 */
module Batch {
  import opened Wrappers
  import opened Performance
  import opened News
  import opened Newsletter
  import opened Tracking

  datatype Account = Account(id: UserId, email: string)

  /** One call of `send_email`; its SMTP outcome is only printed, so every call counts as sent. */
  datatype Mail = Mail(recipient: string, digest: Digest)

  /** `[h.symbol for h in user.holdings] + [w.symbol for w in user.watchlist]`. */
  function StocksOf(user: UserId, holdings: seq<Row>, watchlist: seq<Row>): seq<string> {
    SymbolsOf(holdings, user) + SymbolsOf(watchlist, user)
  }

  /** A symbol is in an account's list exactly when one of its Holding or Watchlist rows names it. */
  lemma StocksOfMembers(user: UserId, holdings: seq<Row>, watchlist: seq<Row>)
    ensures forall symbol :: symbol in StocksOf(user, holdings, watchlist) <==>
                               Row(user, symbol) in holdings || Row(user, symbol) in watchlist
  {
    SymbolsOfMembers(holdings, user);
    SymbolsOfMembers(watchlist, user);
  }

  predicate Tracks(account: Account, holdings: seq<Row>, watchlist: seq<Row>) {
    StocksOf(account.id, holdings, watchlist) != []
  }

  /** The accounts that receive a digest, in account order. */
  function Recipients(users: seq<Account>, holdings: seq<Row>, watchlist: seq<Row>): (r: seq<Account>)
    ensures |r| <= |users|
  {
    if users == [] then []
    else
      var last := users[|users| - 1];
      Recipients(users[..|users| - 1], holdings, watchlist)
      + (if Tracks(last, holdings, watchlist) then [last] else [])
  }

  /** The mail an account receives when its digest renders. */
  function MailFor(account: Account, holdings: seq<Row>, watchlist: seq<Row>,
                   feedOf: string -> Option<seq<FeedItem>>, seriesOf: string -> Series,
                   today: Day, date: string, dashboardUrl: string): (m: Mail)
    requires RendersAll(StocksOf(account.id, holdings, watchlist), seriesOf, today)
    ensures m.recipient == account.email && m.digest.recipient == account.email
  {
    Mail(account.email,
         DigestOf(account.email, StocksOf(account.id, holdings, watchlist), feedOf, seriesOf, today, date, dashboardUrl))
  }

  /**
   * Every account receives exactly as many digests as it occurs in `users`
   * when it tracks a symbol, and none otherwise.
   */
  lemma {:induction false} RecipientsAreTheTrackingAccounts(users: seq<Account>, holdings: seq<Row>, watchlist: seq<Row>)
    ensures forall a :: multiset(Recipients(users, holdings, watchlist))[a] ==
                          if Tracks(a, holdings, watchlist) then multiset(users)[a] else 0
  {
    if users != [] {
      var init, last := users[..|users| - 1], users[|users| - 1];
      RecipientsAreTheTrackingAccounts(init, holdings, watchlist);
      assert users == init + [last];
    }
  }

  /** Selecting recipients commutes with splitting the accounts, so recipients keep the account order. */
  lemma {:induction false} RecipientsAppend(first: seq<Account>, second: seq<Account>,
                                            holdings: seq<Row>, watchlist: seq<Row>)
    ensures Recipients(first + second, holdings, watchlist) ==
            Recipients(first, holdings, watchlist) + Recipients(second, holdings, watchlist)
    decreases |second|
  {
    if second != [] {
      var init := second[..|second| - 1];
      RecipientsAppend(first, init, holdings, watchlist);
      assert (first + second)[..|first + second| - 1] == first + init;
    } else {
      assert first + second == first;
    }
  }

  /** Two accounts, the first tracking nothing and the second one symbol: only the second gets a digest. */
  lemma OnlyTrackingAccountReceives(first: Account, second: Account, symbol: string)
    requires first.id != second.id
    ensures Recipients([first, second], [Row(second.id, symbol)], []) == [second]
  {
    var holdings := [Row(second.id, symbol)];
    assert holdings[..0] == [];
    assert SymbolsOf(holdings, first.id) == [];
    assert SymbolsOf(holdings, second.id) == [symbol];
    assert [first, second][..1] == [first];
    assert [first][..0] == [];
  }

  /** What a batch run leaves behind: the mails sent, and whether an exception ended it. */
  datatype RunResult = RunResult(outbox: seq<Mail>, aborted: bool)

  /**
   * The batch run over `users`, one account at a time: an account with no
   * symbols is skipped, an account whose digest raises ends the run, any
   * other account is sent its digest.
   */
  function Run(users: seq<Account>, holdings: seq<Row>, watchlist: seq<Row>,
               feedOf: string -> Option<seq<FeedItem>>, seriesOf: string -> Series,
               today: Day, date: string, dashboardUrl: string): RunResult
  {
    if users == [] then RunResult([], false)
    else
      var before := Run(users[..|users| - 1], holdings, watchlist, feedOf, seriesOf, today, date, dashboardUrl);
      var user := users[|users| - 1];
      var stocks := StocksOf(user.id, holdings, watchlist);
      if before.aborted || stocks == [] then before
      else if !RendersAll(stocks, seriesOf, today) then RunResult(before.outbox, true)
      else RunResult(before.outbox + [MailFor(user, holdings, watchlist, feedOf, seriesOf, today, date, dashboardUrl)], false)
  }

  /** Once a prefix of the accounts has ended the run, the later accounts change nothing. */
  lemma {:induction false} AbortEndsRun(users: seq<Account>, k: nat, holdings: seq<Row>, watchlist: seq<Row>,
                                        feedOf: string -> Option<seq<FeedItem>>, seriesOf: string -> Series,
                                        today: Day, date: string, dashboardUrl: string)
    requires k <= |users|
    requires Run(users[..k], holdings, watchlist, feedOf, seriesOf, today, date, dashboardUrl).aborted
    ensures Run(users, holdings, watchlist, feedOf, seriesOf, today, date, dashboardUrl) ==
            Run(users[..k], holdings, watchlist, feedOf, seriesOf, today, date, dashboardUrl)
    decreases |users| - k
  {
    if k < |users| {
      assert users[..k + 1][..k] == users[..k];
      AbortEndsRun(users, k + 1, holdings, watchlist, feedOf, seriesOf, today, date, dashboardUrl);
    } else {
      assert users[..k] == users;
    }
  }

  /**
   * The run sends the i-th recipient's digest as its i-th mail.  Without a
   * raising digest every recipient gets exactly one mail; otherwise the run
   * stops at the first recipient whose digest raises.
   */
  lemma {:induction false} RunSendsToRecipients(users: seq<Account>, holdings: seq<Row>, watchlist: seq<Row>,
                                                feedOf: string -> Option<seq<FeedItem>>, seriesOf: string -> Series,
                                                today: Day, date: string, dashboardUrl: string)
    ensures var run := Run(users, holdings, watchlist, feedOf, seriesOf, today, date, dashboardUrl);
            var recipients := Recipients(users, holdings, watchlist);
            && |run.outbox| <= |recipients|
            && (forall i :: 0 <= i < |run.outbox| ==>
                  RendersAll(StocksOf(recipients[i].id, holdings, watchlist), seriesOf, today)
                  && run.outbox[i] == MailFor(recipients[i], holdings, watchlist, feedOf, seriesOf, today, date, dashboardUrl))
            && (!run.aborted ==> |run.outbox| == |recipients|)
            && (run.aborted ==> |run.outbox| < |recipients| &&
                                !RendersAll(StocksOf(recipients[|run.outbox|].id, holdings, watchlist), seriesOf, today))
  {
    if users != [] {
      var init, user := users[..|users| - 1], users[|users| - 1];
      RunSendsToRecipients(init, holdings, watchlist, feedOf, seriesOf, today, date, dashboardUrl);
      var before := Run(init, holdings, watchlist, feedOf, seriesOf, today, date, dashboardUrl);
      var earlier := Recipients(init, holdings, watchlist);
      var recipients := Recipients(users, holdings, watchlist);
      assert recipients == earlier + (if Tracks(user, holdings, watchlist) then [user] else []);
      assert forall i :: 0 <= i < |earlier| ==> recipients[i] == earlier[i];
      var run := Run(users, holdings, watchlist, feedOf, seriesOf, today, date, dashboardUrl);
      var stocks := StocksOf(user.id, holdings, watchlist);
      if before.aborted || stocks == [] {
        assert run == before;
      } else if !RendersAll(stocks, seriesOf, today) {
        assert run == RunResult(before.outbox, true);
        assert recipients[|before.outbox|] == user;
      } else {
        var mail := MailFor(user, holdings, watchlist, feedOf, seriesOf, today, date, dashboardUrl);
        assert run.outbox == before.outbox + [mail];
        assert recipients == earlier + [user];
      }
    }
  }

  /** The run ends early exactly when some recipient's digest raises. */
  lemma RunAbortsIff(users: seq<Account>, holdings: seq<Row>, watchlist: seq<Row>,
                     feedOf: string -> Option<seq<FeedItem>>, seriesOf: string -> Series,
                     today: Day, date: string, dashboardUrl: string)
    ensures var recipients := Recipients(users, holdings, watchlist);
            Run(users, holdings, watchlist, feedOf, seriesOf, today, date, dashboardUrl).aborted <==>
              exists i :: 0 <= i < |recipients| && !RendersAll(StocksOf(recipients[i].id, holdings, watchlist), seriesOf, today)
  {
    RunSendsToRecipients(users, holdings, watchlist, feedOf, seriesOf, today, date, dashboardUrl);
    var run := Run(users, holdings, watchlist, feedOf, seriesOf, today, date, dashboardUrl);
    var recipients := Recipients(users, holdings, watchlist);
    if run.aborted {
      var i := |run.outbox|;
      assert !RendersAll(StocksOf(recipients[i].id, holdings, watchlist), seriesOf, today);
    }
  }

  /**
   * `send_newsletters`: for each account in order, builds its symbol list
   * and, when it is non-empty, composes and sends one digest.  Nothing
   * catches the ZeroDivisionError of a digest, so the run stops there
   * (`aborted`) with the mails sent so far.
   */
  method SendNewsletters(users: seq<Account>, holdings: seq<Row>, watchlist: seq<Row>,
                         feedOf: string -> Option<seq<FeedItem>>, seriesOf: string -> Series,
                         today: Day, date: string, dashboardUrl: string)
    returns (outbox: seq<Mail>, aborted: bool)
    ensures RunResult(outbox, aborted) == Run(users, holdings, watchlist, feedOf, seriesOf, today, date, dashboardUrl)
  {
    outbox := [];
    var k := 0;
    while k < |users|
      invariant 0 <= k <= |users|
      invariant RunResult(outbox, false) == Run(users[..k], holdings, watchlist, feedOf, seriesOf, today, date, dashboardUrl)
    {
      var user := users[k];
      assert users[..k + 1][..k] == users[..k];
      var stocks := SymbolsOf(holdings, user.id) + SymbolsOf(watchlist, user.id);
      if stocks != [] {
        var rendering := ComposeDigest(user.email, stocks, feedOf, seriesOf, today, date, dashboardUrl);
        if rendering.RaisedZeroDivision? {
          AbortEndsRun(users, k + 1, holdings, watchlist, feedOf, seriesOf, today, date, dashboardUrl);
          return outbox, true;
        }
        outbox := outbox + [Mail(user.email, rendering.value)];
      }
      k := k + 1;
    }
    assert users[..k] == users;
    aborted := false;
  }
}
