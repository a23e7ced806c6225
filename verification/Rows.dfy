/** What a tracker round does to each row of the table and to the statistics row, written out. */
module Rows {
  import opened Machine
  import opened Tracker
  import opened Accounting

  /** The rows inserted while the listed ones are handled. */
  function CreatedMeanwhile(listed: seq<Item>): seq<Row> {
    if listed == [] then [] else CreatedMeanwhile(listed[..|listed| - 1]) + listed[|listed| - 1].created
  }

  /** What becomes of a listed row in a round that gives its list up. */
  function GivenUp(row: Row, item: Item): Row {
    if item.written then row.(status := Missed) else row
  }

  /** What becomes of a listed row in a round that confirms. */
  function Settled(row: Row, item: Item): Row {
    if item.receipt.None? || !item.written then row
    else
      Row(row.kind, row.gasPrice, if item.receipt.value.succeeded then Success else Failed, item.receipt.value.gasUsed,
          (item.receipt.value.gasUsed * row.gasPrice) % 0x1_0000_0000_0000_0000, item.receipt.value.height)
  }

  /** The rows after a round: the listed ones as `change` says, the others as they were, the new ones behind. */
  ghost predicate Changed(rows: seq<Row>, after: seq<Row>, listed: seq<Item>, change: (Row, Item) -> Row) {
    && |rows| <= |after| && after[|rows|..] == CreatedMeanwhile(listed)
    && (forall i :: 0 <= i < |listed| ==>
          listed[i].id < |rows| && after[listed[i].id] == change(rows[listed[i].id], listed[i]))
    && (forall id :: 0 <= id < |rows| && (forall x :: x in listed ==> x.id != id) ==> after[id] == rows[id])
  }

  lemma Unfold(listed: seq<Item>)
    requires listed != []
    ensures CreatedMeanwhile(listed) == CreatedMeanwhile(listed[..|listed| - 1]) + listed[|listed| - 1].created
  {
  }

  /** One more listed row is handled. */
  lemma ChangedGrows(rows: seq<Row>, before: seq<Row>, after: seq<Row>, listed: seq<Item>, change: (Row, Item) -> Row)
    requires listed != [] && Possible(rows, listed) && Changed(rows, before, listed[..|listed| - 1], change)
    requires var item := listed[|listed| - 1];
             after == (before + item.created)[item.id := change(rows[item.id], item)]
    ensures Changed(rows, after, listed, change)
  {
    hide CreatedMeanwhile;
    var n := |listed| - 1;
    var item := listed[n];
    assert CreatedMeanwhile(listed) == CreatedMeanwhile(listed[..n]) + item.created by {
      Unfold(listed);
    }
    assert after[|rows|..] == before[|rows|..] + item.created;
    forall i | 0 <= i < |listed|
      ensures after[listed[i].id] == change(rows[listed[i].id], listed[i])
    {
      if i < n {
        assert listed[..n][i] == listed[i] && listed[i].id != item.id;
        assert (before + item.created)[listed[i].id] == before[listed[i].id];
      }
    }
    forall id | 0 <= id < |rows| && (forall x :: x in listed ==> x.id != id)
      ensures after[id] == rows[id]
    {
      assert item in listed && forall x :: x in listed[..n] ==> x in listed;
    }
  }

  lemma NothingChanged(rows: seq<Row>, change: (Row, Item) -> Row)
    ensures Changed(rows, rows, [], change)
  {
  }

  /** The next listed row has not been touched yet. */
  lemma Untouched(rows: seq<Row>, before: seq<Row>, listed: seq<Item>, change: (Row, Item) -> Row)
    requires listed != [] && Possible(rows, listed) && Changed(rows, before, listed[..|listed| - 1], change)
    ensures var id := listed[|listed| - 1].id; id < |rows| <= |before| && before[id] == rows[id]
  {
    PossiblePrefix(rows, listed);
  }

  /** Every listed row whose write succeeds becomes Missed, and no other row changes. */
  lemma {:induction false} MissedExactly(rows: seq<Row>, listed: seq<Item>)
    requires Possible(rows, listed)
    ensures Changed(rows, MarkMissed(rows, rows, listed), listed, GivenUp)
  {
    hide Changed, Possible;
    if listed == [] {
      NothingChanged(rows, GivenUp);
    } else {
      var n := |listed| - 1;
      PossiblePrefix(rows, listed);
      MissedExactly(rows, listed[..n]);
      var before := MarkMissed(rows, rows, listed[..n]);
      Untouched(rows, before, listed, GivenUp);
      var all := before + listed[n].created;
      assert all[listed[n].id := rows[listed[n].id]] == all;
      ChangedGrows(rows, before, MarkMissed(rows, rows, listed), listed, GivenUp);
    }
  }

  lemma ConfirmedIs(row: Row, item: Item)
    requires item.receipt.Some? && item.written
    ensures Confirmed(row, item.receipt.value) == Settled(row, item)
  {
  }

  lemma SettledIs(row: Row, item: Item)
    ensures Settled(row, item) ==
            if item.receipt.Some? && item.written then Confirmed(row, item.receipt.value) else row
  {
    if item.receipt.Some? && item.written { ConfirmedIs(row, item); }
  }

  /** Every listed row with a receipt whose write succeeds is confirmed with that receipt, and no other row changes. */
  lemma {:induction false} ConfirmedExactly(rows: seq<Row>, s: Statistic, listed: seq<Item>)
    requires Possible(rows, listed)
    ensures Changed(rows, ConfirmAll(rows, rows, s, listed).0, listed, Settled)
  {
    hide Changed, Possible, Confirmed, CountIn, Settled;
    if listed == [] {
      NothingChanged(rows, Settled);
    } else {
      var n := |listed| - 1;
      var item := listed[n];
      PossiblePrefix(rows, listed);
      ConfirmedExactly(rows, s, listed[..n]);
      var before := ConfirmAll(rows, rows, s, listed[..n]).0;
      Untouched(rows, before, listed, Settled);
      var all := before + item.created;
      assert all[item.id := rows[item.id]] == all;
      SettledIs(rows[item.id], item);
      ChangedGrows(rows, before, ConfirmAll(rows, rows, s, listed).0, listed, Settled);
    }
  }

  /**
   A whole round, row by row. It gives its list up when more rows are listed than the threshold allows, or
   when none is listed and it gave up last time. Then the listed rows become Missed as far as the writes
   succeed, otherwise those with a receipt are confirmed. Rows inserted before and meanwhile stay, in order.
   */
  lemma RoundExactly(threshold: Uint64, db: Db, input: Input)
    requires PossibleRound(db, input)
    ensures var after := TrackRound(threshold, db, input);
            && (after.leaveAlone <==>
                  if input.listed == [] then db.leaveAlone else |input.listed| > ToInt64(threshold))
            && Changed(db.rows + input.created, after.rows, input.listed, if after.leaveAlone then GivenUp else Settled)
  {
    hide Changed, ConfirmAll, MarkMissed, ToInt64, Possible;
    var rows := db.rows + input.created;
    var found := ReadStatistic(db, input.statisticRead);
    MissedExactly(rows, input.listed);
    ConfirmedExactly(rows, if found.Some? then found.value else ZERO, input.listed);
  }

  /** What one receipt adds to the statistics row. */
  lemma CountedExactly(s: Statistic, row: Row, receipt: Receipt)
    ensures var t := CountIn(s, row, receipt);
            var fee := ToInt64((receipt.gasUsed * row.gasPrice) % 0x1_0000_0000_0000_0000);
            && t.totalTx == ToInt64(s.totalTx + 1)
            && t.successTx == (if receipt.succeeded then ToInt64(s.successTx + 1) else s.successTx)
            && t.failedTx == (if receipt.succeeded then s.failedTx else ToInt64(s.failedTx + 1))
            && t.syncHeaderTx == (if row.kind == SyncBlockHeader then ToInt64(s.syncHeaderTx + 1) else s.syncHeaderTx)
            && t.deliverPackageTx ==
               (if row.kind == DeliverPackage then ToInt64(s.deliverPackageTx + 1) else s.deliverPackageTx)
            && FeeOf(t.totalFee) == FeeOf(s.totalFee) + fee
            && FeeOf(t.successFee) == FeeOf(s.successFee) + (if receipt.succeeded then fee else 0)
            && FeeOf(t.failedFee) == FeeOf(s.failedFee) + (if receipt.succeeded then 0 else fee)
  {
    var fee := FeeFor(row, receipt);
    FeeAdds(s.totalFee, fee);
    FeeAdds(s.successFee, fee);
    FeeAdds(s.failedFee, fee);
    hide ToInt64, FeeOf, AddFee;
  }

  /**
   What a round leaves in the statistics table. A round that gives up, or whose write fails, changes nothing;
   otherwise the first row is replaced if it was read, and a row is added if none was.
   */
  lemma StatisticsExactly(threshold: Uint64, db: Db, input: Input)
    requires PossibleRound(db, input)
    ensures var after := TrackRound(threshold, db, input);
            var read := input.statisticRead && db.statistics != [];
            var rows := db.rows + input.created;
            var counted := ConfirmAll(rows, rows, if read then db.statistics[0] else ZERO, input.listed).1;
            after.statistics ==
            if after.leaveAlone || !input.statisticWritten then db.statistics
            else if read then [counted] + db.statistics[1..]
            else db.statistics + [counted]
  {
    hide ConfirmAll, MarkMissed, ToInt64, Possible;
  }
}
