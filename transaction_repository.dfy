/** The query side of the transaction repository, over the Transactions table
    as a sequence of rows. */
module TransactionRepository {
  import opened Wrappers
  import opened Primitives
  import opened TransactionStatusValue
  import opened MoneyValue
  import opened TransactionIdValue
  import opened AccountIdValue
  import opened TransactionEntity

  /** LINQ `Where`: the rows satisfying `keep`, in table order. */
  function Where(rows: seq<TransactionRecord>, keep: TransactionRecord -> bool): (r: seq<TransactionRecord>)
    ensures forall x :: x in r <==> x in rows && keep(x)
    ensures multiset(r) <= multiset(rows)
  {
    if rows == [] then []
    else
      var rest := Where(rows[1..], keep);
      assert rows == [rows[0]] + rows[1..];
      if keep(rows[0]) then [rows[0]] + rest else rest
  }

  /** Every kept row occurs in the filtered rows as often as in the table, and
      no other row occurs. */
  lemma {:induction false} WhereCounts(rows: seq<TransactionRecord>, keep: TransactionRecord -> bool)
    ensures forall x :: multiset(Where(rows, keep))[x] == if keep(x) then multiset(rows)[x] else 0
  {
    if rows != [] {
      WhereCounts(rows[1..], keep);
      assert rows == [rows[0]] + rows[1..];
    }
  }

  /** Filtering a concatenation filters each part. */
  lemma {:induction false} WhereAppend(a: seq<TransactionRecord>, b: seq<TransactionRecord>, keep: TransactionRecord -> bool)
    ensures Where(a + b, keep) == Where(a, keep) + Where(b, keep)
  {
    if a != [] {
      var ab := a + b;
      assert ab[0] == a[0] && ab[1..] == a[1..] + b;
      WhereAppend(a[1..], b, keep);
      if keep(a[0]) {
        calc {
          Where(ab, keep);
          [a[0]] + Where(a[1..] + b, keep);
          [a[0]] + (Where(a[1..], keep) + Where(b, keep));
          ([a[0]] + Where(a[1..], keep)) + Where(b, keep);
        }
      }
    } else {
      assert a + b == b;
    }
  }

  /** Newest first: creation times never increase along the sequence. */
  predicate NewestFirst(rows: seq<TransactionRecord>) {
    forall i, j :: 0 <= i < j < |rows| ==> rows[i].createdAt >= rows[j].createdAt
  }

  /** Places `row` in a newest-first sequence. */
  function Insert(row: TransactionRecord, sorted: seq<TransactionRecord>): (r: seq<TransactionRecord>)
    requires NewestFirst(sorted)
    ensures |r| == |sorted| + 1 && (r[0] == row || (sorted != [] && r[0] == sorted[0]))
    ensures forall x :: x in r <==> x == row || x in sorted
    ensures NewestFirst(r)
  {
    if sorted == [] then [row]
    else if row.createdAt >= sorted[0].createdAt then [row] + sorted
    else
      var rest := Insert(row, sorted[1..]);
      assert forall x :: x in sorted[1..] ==> x.createdAt <= sorted[0].createdAt;
      assert forall x :: x in sorted <==> x == sorted[0] || x in sorted[1..] by {
        assert sorted == [sorted[0]] + sorted[1..];
      }
      [sorted[0]] + rest
  }

  /** Inserting adds exactly one occurrence of the row. */
  lemma {:induction false} InsertCounts(row: TransactionRecord, sorted: seq<TransactionRecord>)
    requires NewestFirst(sorted)
    ensures multiset(Insert(row, sorted)) == multiset(sorted) + multiset{row}
  {
    if sorted != [] && row.createdAt < sorted[0].createdAt {
      InsertCounts(row, sorted[1..]);
      assert sorted == [sorted[0]] + sorted[1..];
    }
  }

  /** `OrderByDescending(t => t.CreatedAt)`: the same rows, newest first. */
  function SortNewestFirst(rows: seq<TransactionRecord>): (r: seq<TransactionRecord>)
    ensures NewestFirst(r)
    ensures forall x :: x in r <==> x in rows
  {
    if rows == [] then []
    else
      assert forall x :: x in rows <==> x == rows[0] || x in rows[1..] by {
        assert rows == [rows[0]] + rows[1..];
      }
      Insert(rows[0], SortNewestFirst(rows[1..]))
  }

  /** Sorting is a permutation: every row keeps its number of occurrences. */
  lemma {:induction false} SortIsPermutation(rows: seq<TransactionRecord>)
    ensures multiset(SortNewestFirst(rows)) == multiset(rows)
  {
    if rows != [] {
      SortIsPermutation(rows[1..]);
      InsertCounts(rows[0], SortNewestFirst(rows[1..]));
      assert rows == [rows[0]] + rows[1..];
    }
  }

  /** The filter of `GetByAccountIdAsync`: the account is one of the parties. */
  predicate Involves(accountId: AccountId, t: TransactionRecord) {
    t.sourceAccountId == accountId || t.targetAccountId == accountId
  }

  /** The window both day queries use: sent by the account, created in
      `[date.Date, date.Date.AddDays(1))`. */
  predicate SentOnDay(accountId: AccountId, date: Timestamp, t: TransactionRecord) {
    t.sourceAccountId == accountId && StartOfDay(date) <= t.createdAt < NextDay(StartOfDay(date))
  }

  /** The window is the calendar date of `date`. */
  lemma SentOnDayIsSameDate(accountId: AccountId, date: Timestamp)
    ensures forall t :: SentOnDay(accountId, date, t) <==> t.sourceAccountId == accountId && SameDate(t.createdAt, date)
  {
    forall t: TransactionRecord ensures SentOnDay(accountId, date, t) <==> t.sourceAccountId == accountId && SameDate(t.createdAt, date) {
      DayWindow(t.createdAt, date);
    }
  }

  /** Pending and approved transactions count towards the daily total. */
  predicate Counts(t: TransactionRecord) {
    t.status == Pending || t.status == Approved
  }

  /** `GetByAccountIdAsync`: every row the account takes part in, newest first. */
  function GetByAccountId(rows: seq<TransactionRecord>, accountId: AccountId): (r: seq<TransactionRecord>)
    ensures NewestFirst(r)
    ensures forall x :: x in r <==> x in rows && (x.sourceAccountId == accountId || x.targetAccountId == accountId)
    ensures forall x :: multiset(r)[x] == if Involves(accountId, x) then multiset(rows)[x] else 0
  {
    WhereCounts(rows, t => Involves(accountId, t));
    SortIsPermutation(Where(rows, t => Involves(accountId, t)));
    SortNewestFirst(Where(rows, t => Involves(accountId, t)))
  }

  /** `GetByAccountIdAndDateAsync`: every row the account sent on that date,
      newest first, whatever its status. */
  function GetByAccountIdAndDate(rows: seq<TransactionRecord>, accountId: AccountId, date: Timestamp): (r: seq<TransactionRecord>)
    ensures NewestFirst(r)
    ensures forall x :: x in r <==> x in rows && x.sourceAccountId == accountId && SameDate(x.createdAt, date)
    ensures forall x :: multiset(r)[x] == if x.sourceAccountId == accountId && SameDate(x.createdAt, date) then multiset(rows)[x] else 0
  {
    SentOnDayIsSameDate(accountId, date);
    WhereCounts(rows, t => SentOnDay(accountId, date, t));
    SortIsPermutation(Where(rows, t => SentOnDay(accountId, date, t)));
    SortNewestFirst(Where(rows, t => SentOnDay(accountId, date, t)))
  }

  /** The rows `GetDailyAccumulatedAmountAsync` adds up. */
  function DailyRows(rows: seq<TransactionRecord>, accountId: AccountId, date: Timestamp): seq<TransactionRecord> {
    Where(rows, t => SentOnDay(accountId, date, t) && Counts(t))
  }

  /** Filters that agree on every row select the same rows. */
  lemma {:induction false} WhereCongruent(rows: seq<TransactionRecord>, keep: TransactionRecord -> bool, keep2: TransactionRecord -> bool)
    requires forall x :: keep(x) == keep2(x)
    ensures Where(rows, keep) == Where(rows, keep2)
  {
    if rows != [] {
      WhereCongruent(rows[1..], keep, keep2);
    }
  }

  /** The daily query asked with an instant or with its date counts the same rows. */
  lemma {:induction false} DailyRowsOfDate(rows: seq<TransactionRecord>, accountId: AccountId, date: Timestamp)
    ensures DailyRows(rows, accountId, StartOfDay(date)) == DailyRows(rows, accountId, date)
  {
    StartOfDayIdempotent(date);
    WhereCongruent(rows, t => SentOnDay(accountId, StartOfDay(date), t) && Counts(t), t => SentOnDay(accountId, date, t) && Counts(t));
  }

  /** The transaction values, in order. */
  function Values(rows: seq<TransactionRecord>): (r: seq<Money>)
    ensures |r| == |rows|
    ensures forall i :: 0 <= i < |rows| ==> r[i] == rows[i].value
  {
    seq(|rows|, i requires 0 <= i < |rows| => rows[i].value)
  }

  /** The `Aggregate((acc, current) => acc.Add(current))` fold, from `acc`. */
  function AddAll(acc: Money, values: seq<Money>): Outcome<Money>
    decreases |values|
  {
    if values == [] then Ok(acc)
    else
      var next := acc.Add(values[0]);
      if next.Throws? then Throws(next.exception) else AddAll(next.value, values[1..])
  }

  /** The plain sum of the amounts, the reference for the fold. */
  function SumAmounts(values: seq<Money>): real {
    if values == [] then 0.0 else values[0].amount + SumAmounts(values[1..])
  }

  predicate AllIn(values: seq<Money>, currency: string) {
    forall i :: 0 <= i < |values| ==> values[i].currency == currency
  }

  /** The fold succeeds exactly when every value is in the starting currency, and
      then yields the exact sum in that currency; otherwise it throws the
      currency-mismatch error of `Add`. */
  lemma {:induction false} AddAllIsSum(acc: Money, values: seq<Money>)
    ensures AddAll(acc, values).Ok? <==> AllIn(values, acc.currency)
    ensures AddAll(acc, values).Ok? ==> AddAll(acc, values).value == Money(acc.amount + SumAmounts(values), acc.currency)
    ensures AddAll(acc, values).Throws? ==> AddAll(acc, values).exception.InvalidOperationException?
    decreases |values|
  {
    if values != [] {
      var next := acc.Add(values[0]);
      if next.Ok? {
        AddAllIsSum(next.value, values[1..]);
        if AllIn(values[1..], acc.currency) {
          assert AllIn(values, acc.currency) by {
            forall i | 1 <= i < |values| ensures values[i].currency == acc.currency {
              assert values[i] == values[1..][i - 1];
            }
          }
        }
      }
    }
  }

  /** `GetDailyAccumulatedAmountAsync`: zero dollars when nothing counts,
      otherwise the fold over the counted values. */
  function GetDailyAccumulatedAmount(rows: seq<TransactionRecord>, accountId: AccountId, date: Timestamp): (r: Outcome<Money>)
    ensures DailyRows(rows, accountId, date) == [] ==> r == Ok(Zero())
    ensures r.Ok? ==> r.value.amount == DailySum(rows, accountId, date)
    ensures r.Throws? ==> r.exception.InvalidOperationException?
  {
    var counted := Values(DailyRows(rows, accountId, date));
    if |counted| == 0 then Ok(Zero())
    else
      AddAllIsSum(counted[0], counted[1..]);
      assert counted == [counted[0]] + counted[1..];
      AddAll(counted[0], counted[1..])
  }

  /** The sum of the counted rows' amounts. */
  function DailySum(rows: seq<TransactionRecord>, accountId: AccountId, date: Timestamp): real {
    SumAmounts(Values(DailyRows(rows, accountId, date)))
  }

  /** When every counted row is in US dollars, the accumulated amount is their
      exact sum in US dollars; rows of another currency make it throw. */
  lemma {:induction false} DailyAccumulatedIsSum(rows: seq<TransactionRecord>, accountId: AccountId, date: Timestamp)
    ensures AllIn(Values(DailyRows(rows, accountId, date)), DefaultCurrency) ==>
              GetDailyAccumulatedAmount(rows, accountId, date) == Ok(Money(DailySum(rows, accountId, date), DefaultCurrency))
    ensures GetDailyAccumulatedAmount(rows, accountId, date).Throws? ==>
              exists i :: 0 <= i < |DailyRows(rows, accountId, date)| && DailyRows(rows, accountId, date)[i].value.currency != DailyRows(rows, accountId, date)[0].value.currency
  {
    var counted := Values(DailyRows(rows, accountId, date));
    if |counted| > 0 {
      AddAllIsSum(counted[0], counted[1..]);
      assert counted == [counted[0]] + counted[1..];
      if !AllIn(counted[1..], counted[0].currency) {
        var i :| 0 <= i < |counted[1..]| && counted[1..][i].currency != counted[0].currency;
        assert DailyRows(rows, accountId, date)[i + 1].value == counted[i + 1];
      }
    }
  }

  /** A row counts towards the daily total of its own sender and day exactly
      when it is pending or approved: appending a rejected row leaves every daily
      total as it was, and appending a counted one adds its value to its own day. */
  lemma {:induction false} AppendedRowContribution(rows: seq<TransactionRecord>, row: TransactionRecord, accountId: AccountId, date: Timestamp)
    ensures row.status == Rejected ==> DailyRows(rows + [row], accountId, date) == DailyRows(rows, accountId, date)
    ensures Counts(row) && SentOnDay(accountId, date, row) ==>
              DailySum(rows + [row], accountId, date) == DailySum(rows, accountId, date) + row.value.amount
    ensures !SentOnDay(accountId, date, row) ==> DailyRows(rows + [row], accountId, date) == DailyRows(rows, accountId, date)
  {
    var keep := t => SentOnDay(accountId, date, t) && Counts(t);
    WhereAppend(rows, [row], keep);
    assert Where([row], keep) == (if keep(row) then [row] else []) by {
      assert [row][1..] == [];
    }
    if keep(row) {
      SumAppend(Values(Where(rows, keep)), row.value);
      assert Values(Where(rows, keep) + [row]) == Values(Where(rows, keep)) + [row.value];
    }
  }

  /** Appending one value adds its amount to the sum. */
  lemma {:induction false} SumAppend(values: seq<Money>, m: Money)
    ensures SumAmounts(values + [m]) == SumAmounts(values) + m.amount
  {
    if values != [] {
      assert (values + [m])[1..] == values[1..] + [m];
      SumAppend(values[1..], m);
    }
  }

  /** The position of the first row with the given id, as `FirstOrDefault` finds it. */
  function IndexOf(rows: seq<TransactionRecord>, id: TransactionId): (r: Option<nat>)
    ensures r.Some? ==> r.value < |rows| && rows[r.value].id == id && forall j :: 0 <= j < r.value ==> rows[j].id != id
    ensures r.None? ==> forall j :: 0 <= j < |rows| ==> rows[j].id != id
  {
    if rows == [] then None
    else if rows[0].id == id then Some(0)
    else
      var rest := IndexOf(rows[1..], id);
      if rest.None? then None else Some(rest.value + 1)
  }

  /** `GetByExternalIdAsync`: the empty Guid throws (through `TransactionId.From`);
      otherwise the first row with that id, or none. */
  function GetByExternalId(rows: seq<TransactionRecord>, externalId: Guid): (r: Outcome<Option<TransactionRecord>>)
    ensures r.Throws? <==> externalId == EmptyGuid
    ensures r.Throws? ==> r.exception == EmptyId
    ensures r.Ok? && r.value.Some? ==> r.value.value in rows && r.value.value.id.value == externalId
    ensures r.Ok? && r.value.None? ==> forall x :: x in rows ==> x.id.value != externalId
    ensures r.Ok? ==> (r.value.Some? <==> IndexOf(rows, TransactionId(externalId)).Some?)
    ensures r.Ok? && r.value.Some? ==> r.value.value == rows[IndexOf(rows, TransactionId(externalId)).value]
  {
    var id := TransactionIdValue.From(externalId);
    if id.Throws? then Throws(id.exception)
    else
      var i := IndexOf(rows, id.value);
      if i.None? then Ok(None) else Ok(Some(rows[i.value]))
  }

  /** `UpdateAsync` then `SaveChangesAsync` on a row that was read at index `i`:
      that row is written back, every other row is left alone. */
  function UpdateRow(rows: seq<TransactionRecord>, i: nat, row: TransactionRecord): (r: seq<TransactionRecord>)
    requires i < |rows|
    ensures |r| == |rows| && r[i] == row
    ensures forall j :: 0 <= j < |rows| && j != i ==> r[j] == rows[j]
  {
    rows[i := row]
  }
}
