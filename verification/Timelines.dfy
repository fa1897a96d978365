/**
 The timeline query: the history rows of one order `ORDER BY created_at ASC LIMIT n`. A row's `created_at` is
 the start time of the transaction that wrote it, so this order can differ from the order of the commits.
 */
module Timelines {
  import opened Store
  import opened Concurrency
  import opened Guarantees

  const MAX_TIMELINE_LIMIT := 200

  predicate SortedByTime(rows: seq<HistoryRow>) {
    forall i, j :: 0 <= i < j < |rows| ==> rows[i].createdAt <= rows[j].createdAt
  }

  predicate StrictlyByTime(rows: seq<HistoryRow>) {
    forall i, j :: 0 <= i < j < |rows| ==> rows[i].createdAt < rows[j].createdAt
  }

  /** Any answer the SQL text allows; rows with equal times may come in either order. */
  predicate IsAnswer(items: seq<HistoryRow>, rows: seq<HistoryRow>) {
    multiset(items) == multiset(rows) && SortedByTime(items)
  }

  function Insert(row: HistoryRow, rows: seq<HistoryRow>): seq<HistoryRow> {
    if rows == [] then [row]
    else if row.createdAt < rows[|rows| - 1].createdAt then Insert(row, rows[..|rows| - 1]) + [rows[|rows| - 1]]
    else rows + [row]
  }

  /** The answer that keeps ties in commit order. */
  function SortByTime(rows: seq<HistoryRow>): seq<HistoryRow> {
    if rows == [] then [] else Insert(rows[|rows| - 1], SortByTime(rows[..|rows| - 1]))
  }

  function Timeline(db: Db, id: OrderId): seq<HistoryRow> {
    SortByTime(Rows(db.history, id))
  }

  function Take<T>(xs: seq<T>, n: nat): seq<T> {
    if |xs| <= n then xs else xs[..n]
  }

  lemma {:induction false} InsertAdds(row: HistoryRow, rows: seq<HistoryRow>)
    ensures multiset(Insert(row, rows)) == multiset(rows) + multiset{row}
  {
    if rows != [] && row.createdAt < rows[|rows| - 1].createdAt {
      InsertAdds(row, rows[..|rows| - 1]);
      WithoutLast(rows, rows[|rows| - 1]);
    }
  }

  lemma {:induction false} InsertIntoSorted(row: HistoryRow, rows: seq<HistoryRow>)
    requires SortedByTime(rows)
    ensures SortedByTime(Insert(row, rows))
  {
    if rows != [] && row.createdAt < rows[|rows| - 1].createdAt {
      var front, last := rows[..|rows| - 1], rows[|rows| - 1];
      InsertIntoSorted(row, front);
      InsertAdds(row, front);
      forall i | 0 <= i < |Insert(row, front)| ensures Insert(row, front)[i].createdAt <= last.createdAt {
        assert Insert(row, front)[i] in multiset(Insert(row, front));
        assert Insert(row, front)[i] in front || Insert(row, front)[i] == row;
      }
      AppendLatest(Insert(row, front), last);
    }
  }

  lemma AppendLatest(rows: seq<HistoryRow>, last: HistoryRow)
    requires SortedByTime(rows) && forall i :: 0 <= i < |rows| ==> rows[i].createdAt <= last.createdAt
    ensures SortedByTime(rows + [last])
  {
  }

  lemma {:induction false} SortIsAnswer(rows: seq<HistoryRow>)
    ensures IsAnswer(SortByTime(rows), rows) && |SortByTime(rows)| == |rows|
  {
    if rows != [] {
      var front, last := rows[..|rows| - 1], rows[|rows| - 1];
      assert rows == front + [last];
      SortIsAnswer(front);
      InsertAdds(last, SortByTime(front));
      InsertIntoSorted(last, SortByTime(front));
    }
    assert |multiset(SortByTime(rows))| == |multiset(rows)|;
  }

  /** The timeline of an order: all its history rows, earliest first. */
  lemma TimelineIsAnswer(db: Db, id: OrderId)
    ensures multiset(Timeline(db, id)) == multiset(Rows(db.history, id))
    ensures forall i, j :: 0 <= i < j < |Timeline(db, id)| ==>
      Timeline(db, id)[i].createdAt <= Timeline(db, id)[j].createdAt
  {
    SortIsAnswer(Rows(db.history, id));
  }

  lemma {:induction false} SortOfSorted(rows: seq<HistoryRow>)
    requires SortedByTime(rows)
    ensures SortByTime(rows) == rows
  {
    if rows != [] {
      SortOfSorted(rows[..|rows| - 1]);
    }
  }

  lemma {:induction false} AnswerUnique(items: seq<HistoryRow>, rows: seq<HistoryRow>)
    requires IsAnswer(items, rows) && StrictlyByTime(rows)
    ensures items == rows
  {
    assert |multiset(items)| == |multiset(rows)|;
    if rows != [] {
      var r, n := rows[|rows| - 1], |rows| - 1;
      LastIsLatest(items, rows);
      WithoutLast(items, r);
      WithoutLast(rows, r);
      AnswerUnique(items[..n], rows[..n]);
    }
  }

  lemma WithoutLast(xs: seq<HistoryRow>, last: HistoryRow)
    requires |xs| > 0 && xs[|xs| - 1] == last
    ensures xs == xs[..|xs| - 1] + [last] && multiset(xs[..|xs| - 1]) == multiset(xs) - multiset{last}
  {
    assert xs == xs[..|xs| - 1] + [last];
  }

  lemma LastIsLatest(items: seq<HistoryRow>, rows: seq<HistoryRow>)
    requires IsAnswer(items, rows) && StrictlyByTime(rows) && |items| == |rows| > 0
    ensures items[|items| - 1] == rows[|rows| - 1]
  {
    var r, x := rows[|rows| - 1], items[|items| - 1];
    assert r in multiset(rows) && r in items;
    assert x in multiset(items) && x in rows;
    var i :| 0 <= i < |items| && items[i] == r;
    var j :| 0 <= j < |rows| && rows[j] == x;
    assert items[i].createdAt <= x.createdAt;
  }

  lemma SwapIsAnswer(rows: seq<HistoryRow>, i: nat) returns (swapped: seq<HistoryRow>)
    requires SortedByTime(rows) && i + 1 < |rows| && rows[i].createdAt == rows[i + 1].createdAt
    ensures IsAnswer(swapped, rows) && |swapped| == |rows| && swapped[i] == rows[i + 1]
  {
    swapped := rows[i := rows[i + 1]][i + 1 := rows[i]];
    forall k | 0 <= k < |rows| ensures swapped[k].createdAt == rows[k].createdAt {
    }
  }

  /**
   The query is sure to answer in commit order exactly when the transactions that wrote the order's history
   started in the order in which they committed.
   */
  lemma TimelineIsCommitOrderIff(events: seq<Event>, id: OrderId)
    requires id in Run(START, events).db.orders
    ensures
      var rows := Rows(Run(START, events).db.history, id);
      (forall items :: IsAnswer(items, rows) ==> items == rows) <==> StrictlyByTime(rows)
  {
    var rows := Rows(Run(START, events).db.history, id);
    HistoryIsALifecycle(events, id);
    if StrictlyByTime(rows) {
      forall items | IsAnswer(items, rows) ensures items == rows {
        AnswerUnique(items, rows);
      }
    } else if SortedByTime(rows) {
      var i :| 0 <= i < |rows| - 1 && rows[i].createdAt >= rows[i + 1].createdAt by {
        AdjacentTie(rows);
      }
      var swapped := SwapIsAnswer(rows, i);
      assert swapped[i] != rows[i];
    } else {
      SortIsAnswer(rows);
    }
  }

  lemma AdjacentTie(rows: seq<HistoryRow>)
    requires !StrictlyByTime(rows)
    ensures exists i :: 0 <= i < |rows| - 1 && rows[i].createdAt >= rows[i + 1].createdAt
  {
    if forall i {:trigger rows[i]} :: 0 <= i < |rows| - 1 ==> rows[i].createdAt < rows[i + 1].createdAt {
      forall i, j | 0 <= i < j < |rows| ensures rows[i].createdAt < rows[j].createdAt {
        StepsClimb(rows, i, j);
      }
    }
  }

  lemma {:induction false} StepsClimb(rows: seq<HistoryRow>, i: nat, j: nat)
    requires forall k {:trigger rows[k]} :: 0 <= k < |rows| - 1 ==> rows[k].createdAt < rows[k + 1].createdAt
    requires i < j < |rows|
    ensures rows[i].createdAt < rows[j].createdAt
    decreases j
  {
    assert rows[j - 1].createdAt < rows[j - 1 + 1].createdAt;
    if i < j - 1 {
      StepsClimb(rows, i, j - 1);
    }
  }

  /** The rows of an order are the rows of the table with its id, in their order. */
  lemma {:induction false} RowsAreThoseOf(history: seq<HistoryRow>, id: OrderId)
    ensures forall r :: r in Rows(history, id) <==> r in history && r.order == id
  {
    if history != [] {
      RowsAreThoseOf(history[..|history| - 1], id);
      assert history == history[..|history| - 1] + [history[|history| - 1]];
    }
  }
}
