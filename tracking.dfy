/**
 * The tracked-symbol store behind `add_stock` and `remove_stock`: the
 * Holding and Watchlist tables as sequences of rows in insertion order, and
 * each user's view of a table as the subsequence of their symbols.
 */
module Tracking {
  import opened Wrappers

  type UserId = nat

  /** A Holding or Watchlist row: `user_id` and `symbol`. */
  datatype Row = Row(userId: UserId, symbol: string)

  datatype ListKind = HoldingsList | WatchlistList

  /** `Holding if list_type == "holdings" else Watchlist`. */
  function ListFor(listType: string): (k: ListKind)
    ensures k == HoldingsList <==> listType == "holdings"
  {
    if listType == "holdings" then HoldingsList else WatchlistList
  }

  predicate IsLowerAscii(c: char) {
    'a' <= c <= 'z'
  }

  function UpperChar(c: char): char {
    if IsLowerAscii(c) then (c as int - 32) as char else c
  }

  /** `str.upper()` on the ASCII letters. */
  function Upper(s: string): (r: string)
    ensures |r| == |s|
    ensures forall i :: 0 <= i < |r| ==> !IsLowerAscii(r[i])
    ensures forall i :: 0 <= i < |s| && !IsLowerAscii(s[i]) ==> r[i] == s[i]
    ensures forall i :: 0 <= i < |s| && IsLowerAscii(s[i]) ==> r[i] as int == s[i] as int - 32
  {
    seq(|s|, i requires 0 <= i < |s| => UpperChar(s[i]))
  }

  /** Upper-casing twice is upper-casing once. */
  lemma UpperIdempotent(s: string)
    ensures Upper(Upper(s)) == Upper(s)
  {
  }

  /** A user's symbols in one table, `[h.symbol for h in user.holdings]`, in row order. */
  function SymbolsOf(table: seq<Row>, user: UserId): (r: seq<string>)
    ensures |r| <= |table|
  {
    if table == [] then []
    else SymbolsOf(table[..|table| - 1], user)
         + (if table[|table| - 1].userId == user then [table[|table| - 1].symbol] else [])
  }

  /** The table after deleting the first row equal to `row`; unchanged when there is none. */
  function RemoveFirstRow(table: seq<Row>, row: Row): seq<Row> {
    if table == [] then []
    else if table[0] == row then table[1..]
    else [table[0]] + RemoveFirstRow(table[1..], row)
  }

  /** Deleting the first matching row takes out one copy of the row when there is one, and nothing else. */
  lemma {:induction false} RemoveFirstRowTakesOneCopy(table: seq<Row>, row: Row)
    ensures multiset(RemoveFirstRow(table, row)) == multiset(table) - multiset{row}
  {
    if table != [] {
      assert table == [table[0]] + table[1..];
      if table[0] != row {
        RemoveFirstRowTakesOneCopy(table[1..], row);
      }
    }
  }

  /** A sequence of symbols without its first occurrence of `x`. */
  function RemoveFirst(xs: seq<string>, x: string): seq<string> {
    if xs == [] then []
    else if xs[0] == x then xs[1..]
    else [xs[0]] + RemoveFirst(xs[1..], x)
  }

  /** Removing the first occurrence takes out one copy of `x` and nothing else, or nothing at all. */
  lemma {:induction false} RemoveFirstTakesOneCopy(xs: seq<string>, x: string)
    ensures x in xs ==> multiset(RemoveFirst(xs, x)) == multiset(xs) - multiset{x}
    ensures x !in xs ==> RemoveFirst(xs, x) == xs
  {
    if xs != [] && xs[0] != x {
      RemoveFirstTakesOneCopy(xs[1..], x);
      assert xs == [xs[0]] + xs[1..];
    } else if xs != [] {
      assert xs == [xs[0]] + xs[1..];
    }
  }

  /** A symbol is in a user's view exactly when the table holds a row of that user with that symbol. */
  lemma {:induction false} SymbolsOfMembers(table: seq<Row>, user: UserId)
    ensures forall symbol :: symbol in SymbolsOf(table, user) <==> Row(user, symbol) in table
  {
    if table != [] {
      var init := table[..|table| - 1];
      SymbolsOfMembers(init, user);
      assert table == init + [table[|table| - 1]];
    }
  }

  /** Appending a row extends its owner's view by its symbol and leaves every other view alone. */
  lemma SymbolsOfAppend(table: seq<Row>, row: Row, user: UserId)
    ensures SymbolsOf(table + [row], user) ==
              SymbolsOf(table, user) + (if row.userId == user then [row.symbol] else [])
  {
    assert (table + [row])[..|table|] == table;
  }

  lemma {:induction false} SymbolsOfPrepend(row: Row, table: seq<Row>, user: UserId)
    ensures SymbolsOf([row] + table, user) ==
              (if row.userId == user then [row.symbol] else []) + SymbolsOf(table, user)
    decreases |table|
  {
    if table != [] {
      var init := table[..|table| - 1];
      SymbolsOfPrepend(row, init, user);
      assert ([row] + table)[..|table|] == [row] + init;
    }
  }

  /** The first row equal to `row` at index `i` is the one removed. */
  lemma {:induction false} RemoveFirstRowAt(table: seq<Row>, row: Row, i: nat)
    requires i < |table| && table[i] == row
    requires forall j :: 0 <= j < i ==> table[j] != row
    ensures RemoveFirstRow(table, row) == table[..i] + table[i + 1..]
  {
    if i > 0 {
      RemoveFirstRowAt(table[1..], row, i - 1);
      assert table[1..][..i - 1] == table[1..i];
      assert table[1..][i..] == table[i + 1..];
      assert table[..i] == [table[0]] + table[1..i];
    }
  }

  lemma {:induction false} RemoveFirstRowAbsent(table: seq<Row>, row: Row)
    requires row !in table
    ensures RemoveFirstRow(table, row) == table
  {
    if table != [] {
      RemoveFirstRowAbsent(table[1..], row);
      assert table == [table[0]] + table[1..];
    }
  }

  /**
   * Deleting the first row that matches (user, symbol) deletes the first
   * occurrence of the symbol from that user's view and leaves every other
   * user's view unchanged.
   */
  lemma {:induction false} RemoveFirstRowView(table: seq<Row>, user: UserId, symbol: string, viewer: UserId)
    ensures SymbolsOf(RemoveFirstRow(table, Row(user, symbol)), viewer) ==
              if viewer == user then RemoveFirst(SymbolsOf(table, viewer), symbol) else SymbolsOf(table, viewer)
  {
    if table != [] {
      var row := Row(user, symbol);
      var head, tail := table[0], table[1..];
      var headView := if head.userId == viewer then [head.symbol] else [];
      assert table == [head] + tail;
      SymbolsOfPrepend(head, tail, viewer);
      assert SymbolsOf(table, viewer) == headView + SymbolsOf(tail, viewer);
      if head != row {
        assert RemoveFirstRow(table, row) == [head] + RemoveFirstRow(tail, row);
        RemoveFirstRowView(tail, user, symbol, viewer);
        SymbolsOfPrepend(head, RemoveFirstRow(tail, row), viewer);
        if viewer == user && head.userId == user {
          var rest := SymbolsOf(tail, viewer);
          assert head.symbol != symbol;
          assert ([head.symbol] + rest)[0] == head.symbol;
          assert ([head.symbol] + rest)[1..] == rest;
          assert RemoveFirst([head.symbol] + rest, symbol) == [head.symbol] + RemoveFirst(rest, symbol);
        } else if viewer == user {
          assert headView == [];
          assert SymbolsOf(table, viewer) == SymbolsOf(tail, viewer);
        }
      } else {
        assert RemoveFirstRow(table, row) == tail;
        if viewer == user {
          var rest := SymbolsOf(tail, viewer);
          assert ([symbol] + rest)[1..] == rest;
        }
      }
    }
  }

  /** The two tables, updated by the dashboard's add and remove actions. */
  class SymbolStore {
    var holdings: seq<Row>
    var watchlist: seq<Row>

    constructor ()
      ensures holdings == [] && watchlist == []
    {
      holdings, watchlist := [], [];
    }

    function Table(kind: ListKind): seq<Row>
      reads this
    {
      if kind == HoldingsList then holdings else watchlist
    }

    /**
     * `add_stock`: without a signed-in user nothing changes; otherwise the
     * upper-cased symbol is appended as a new row of the chosen table.
     */
    method AddStock(session: Option<UserId>, symbol: string, listType: string)
      modifies this
      ensures session.None? ==> holdings == old(holdings) && watchlist == old(watchlist)
      ensures session.Some? && ListFor(listType) == HoldingsList ==>
                holdings == old(holdings) + [Row(session.value, Upper(symbol))] && watchlist == old(watchlist)
      ensures session.Some? && ListFor(listType) == WatchlistList ==>
                watchlist == old(watchlist) + [Row(session.value, Upper(symbol))] && holdings == old(holdings)
    {
      if session.None? {
        return;
      }
      var row := Row(session.value, Upper(symbol));
      if ListFor(listType) == HoldingsList {
        holdings := holdings + [row];
      } else {
        watchlist := watchlist + [row];
      }
    }

    /**
     * `remove_stock`: deletes the first row of the chosen table whose user
     * and symbol match, and does nothing when there is none or no user is
     * signed in.  The symbol is matched as given, without upper-casing.
     */
    method RemoveStock(session: Option<UserId>, listType: string, symbol: string)
      modifies this
      ensures session.None? ==> holdings == old(holdings) && watchlist == old(watchlist)
      ensures session.Some? ==>
                Table(ListFor(listType)) == RemoveFirstRow(old(Table(ListFor(listType))), Row(session.value, symbol))
      ensures session.Some? && ListFor(listType) == HoldingsList ==> watchlist == old(watchlist)
      ensures session.Some? && ListFor(listType) == WatchlistList ==> holdings == old(holdings)
    {
      if session.None? {
        return;
      }
      var kind := ListFor(listType);
      var target := Row(session.value, symbol);
      var table := Table(kind);
      var i := 0;
      while i < |table| && table[i] != target
        invariant 0 <= i <= |table|
        invariant forall j :: 0 <= j < i ==> table[j] != target
      {
        i := i + 1;
      }
      if i < |table| {
        RemoveFirstRowAt(table, target, i);
        table := table[..i] + table[i + 1..];
        if kind == HoldingsList {
          holdings := table;
        } else {
          watchlist := table;
        }
      } else {
        RemoveFirstRowAbsent(table, target);
      }
    }
  }
}
