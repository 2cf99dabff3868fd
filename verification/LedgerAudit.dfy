/** The daily audit: every balance against the sum of its movements, a page of rows at a time. */
module LedgerAudit {
  import opened Common
  import opened Stock
  import opened StockBooks
  import opened StockRuns

  const LEDGER_AUDIT_BATCH := 500

  /** Balance rows by their own id, which is not their variant's. */
  datatype BalanceRow = BalanceRow(variant: nat, onHand: int)

  type Table = map<nat, BalanceRow>

  ghost predicate Wrong(table: Table, ledger: seq<Movement>, id: nat) {
    id in table && table[id].onHand != LedgerSum(ledger, table[id].variant)
  }

  predicate Beyond(after: Option<nat>, id: nat) {
    after.None? || after.value < id
  }

  /** The rows that come after a cursor. */
  function Rest(table: Table, after: Option<nat>): set<nat> {
    set id | id in table && Beyond(after, id)
  }

  /** The wrong balances among them. */
  ghost function WrongAfter(table: Table, ledger: seq<Movement>, after: Option<nat>): set<nat> {
    set id | id in Rest(table, after) && Wrong(table, ledger, id)
  }

  // ---------------------------------------------------------------- pages

  lemma AscendingPrefix(rows: seq<nat>, n: nat, x: nat)
    requires Ascending(rows) && 0 < n <= |rows|
    ensures x in rows[..n] <==> x in rows && x <= rows[n - 1]
  {
    if x in rows && x <= rows[n - 1] {
      var k: nat :| k < |rows| && rows[k] == x;
      assert rows[..n][k] == x;
    }
  }

  lemma ThePage(table: Table, after: Option<nat>, rows: seq<nat>, n: nat)
    requires Ascending(rows) && (forall x :: x in rows <==> x in Rest(table, after)) && 0 < n <= |rows|
    ensures rows[n - 1] in Rest(table, after) && Ascending(rows[..n])
    ensures forall x :: x in rows[..n] <==> x in Rest(table, after) && x <= rows[n - 1]
    ensures |Rest(table, after) - Rest(table, Some(rows[n - 1]))| == n
  {
    assert rows[n - 1] in rows;
    forall x ensures x in rows[..n] <==> x in Rest(table, after) && x <= rows[n - 1] {
      AscendingPrefix(rows, n, x);
    }
    AscendingCount(rows[..n], Rest(table, after) - Rest(table, Some(rows[n - 1])));
  }

  method RowsAfter(table: Table, after: Option<nat>) returns (rows: seq<nat>)
    ensures Ascending(rows) && (forall x :: x in rows <==> x in Rest(table, after)) && |rows| == |Rest(table, after)|
  {
    rows := SortedIds(Rest(table, after));
    AscendingCount(rows, Rest(table, after));
  }

  /** One page: the wrong balances among the rows after the cursor, up to the next cursor. */
  method LedgerMismatches(table: Table, ledger: seq<Movement>, after: Option<nat>)
    returns (found: seq<nat>, cursor: Option<nat>)
    ensures cursor.None? ==> Rest(table, after) == {} && found == []
    ensures cursor.Some? ==> cursor.value in Rest(table, after)
    ensures cursor.Some? ==> |Rest(table, after) - Rest(table, cursor)| == Min(|Rest(table, after)|, LEDGER_AUDIT_BATCH)
    ensures Ascending(found)
    ensures forall id :: id in found <==>
      cursor.Some? && id in Rest(table, after) && id <= cursor.value && Wrong(table, ledger, id)
  {
    var rows := RowsAfter(table, after);
    var n := Min(|rows|, LEDGER_AUDIT_BATCH);
    if n == 0 {
      return [], None;
    }
    ThePage(table, after, rows, n);
    cursor := Some(rows[n - 1]);
    found := WrongAmong(table, ledger, rows[..n]);
  }

  method WrongAmong(table: Table, ledger: seq<Movement>, page: seq<nat>) returns (found: seq<nat>)
    requires Ascending(page) && forall id | id in page :: id in table
    ensures Ascending(found)
    ensures forall id :: id in found <==> id in page && Wrong(table, ledger, id)
  {
    found := [];
    var i := 0;
    while i < |page|
      invariant 0 <= i <= |page|
      invariant Ascending(found)
      invariant forall id :: id in found <==> id in page[..i] && Wrong(table, ledger, id)
    {
      assert page[i] in page && page[..i + 1] == page[..i] + [page[i]];
      var sum := Sum(ledger, table[page[i]].variant);
      if sum != table[page[i]].onHand {
        forall k: nat | k < |found| ensures found[k] < page[i] {
          assert found[k] in page[..i];
        }
        found := found + [page[i]];
      }
      i := i + 1;
    }
    assert page[..i] == page;
  }

  method Sum(ledger: seq<Movement>, v: nat) returns (sum: int)
    ensures sum == LedgerSum(ledger, v)
  {
    sum := 0;
    var i := 0;
    while i < |ledger|
      invariant 0 <= i <= |ledger|
      invariant sum == LedgerSum(ledger[..i], v)
    {
      assert ledger[..i + 1][..i] == ledger[..i];
      if ledger[i].variant == v {
        sum := sum + ledger[i].qty;
      }
      i := i + 1;
    }
    assert ledger[..i] == ledger;
  }

  // ---------------------------------------------------------------- the audit

  lemma APageIsCounted(table: Table, ledger: seq<Movement>, after: Option<nat>, found: seq<nat>, cursor: nat)
    requires cursor in Rest(table, after) && Ascending(found)
    requires forall id :: id in found <==> id in Rest(table, after) && id <= cursor && Wrong(table, ledger, id)
    ensures |WrongAfter(table, ledger, after)| == |found| + |WrongAfter(table, ledger, Some(cursor))|
    ensures Rest(table, Some(cursor)) < Rest(table, after)
  {
    var page := WrongAfter(table, ledger, after) - WrongAfter(table, ledger, Some(cursor));
    assert WrongAfter(table, ledger, after) == page + WrongAfter(table, ledger, Some(cursor));
    AscendingCount(found, page);
    assert cursor !in Rest(table, Some(cursor));
  }

  /** The audit counts every wrong balance once, however the rows fall into pages. */
  method AuditLedger(table: Table, ledger: seq<Movement>) returns (mismatches: nat)
    ensures mismatches == |set id | id in table && Wrong(table, ledger, id)|
  {
    mismatches := 0;
    var cursor: Option<nat> := None;
    assert WrongAfter(table, ledger, None) == set id | id in table && Wrong(table, ledger, id);
    while true
      invariant mismatches + |WrongAfter(table, ledger, cursor)| == |set id | id in table && Wrong(table, ledger, id)|
      decreases Rest(table, cursor)
    {
      var found, next := LedgerMismatches(table, ledger, cursor);
      mismatches := mismatches + |found|;
      if next.None? {
        assert WrongAfter(table, ledger, cursor) == {};
        return;
      }
      APageIsCounted(table, ledger, cursor, found, next.value);
      cursor := next;
    }
  }

  // ---------------------------------------------------------------- and never finds anything

  /** The rows of a stock's balances. */
  ghost predicate RowsOf(table: Table, s: Stock) {
    forall id | id in table :: table[id].variant in s.balances && table[id].onHand == s.balances[table[id].variant].onHand
  }

  /** Whatever the operations did, the audits of the shelf and of the holds find nothing. */
  lemma TheAuditsFindNothing(ops: seq<StockOp>, table: Table)
    requires Feasible(EMPTY, ops) && RowsOf(table, Exec(EMPTY, ops))
    ensures forall id | id in table :: !Wrong(table, Exec(EMPTY, ops).movements, id)
    ensures forall v | v in Exec(EMPTY, ops).balances :: Exec(EMPTY, ops).balances[v].reserved == HeldSum(Exec(EMPTY, ops), v)
  {
    var s := Exec(EMPTY, ops);
    forall v | v in s.balances
      ensures s.balances[v].onHand == LedgerSum(s.movements, v) && s.balances[v].reserved == HeldSum(s, v)
    {
      StockIsConserved(ops, v);
    }
  }
}
