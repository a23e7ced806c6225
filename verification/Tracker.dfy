/** The transaction tracker: rows leave the state Created, and a statistics row counts them. */
module Tracker {
  import opened Machine
  import opened Decimal

  datatype Kind = SyncBlockHeader | DeliverPackage

  datatype Status = Created | Success | Failed | Missed

  datatype Row = Row(kind: Kind, gasPrice: Uint64, status: Status, usedGas: Uint64, fee: Uint64, height: Int64)

  datatype Receipt = Receipt(gasUsed: Uint64, succeeded: bool, height: Int64)

  /** Fees are kept as decimal text. */
  datatype Statistic = Statistic(totalTx: Int64, successTx: Int64, failedTx: Int64, syncHeaderTx: Int64,
      deliverPackageTx: Int64, totalFee: string, successFee: string, failedFee: string)

  const ZERO := Statistic(0, 0, 0, 0, 0, "", "", "")

  /** The tables (a row's id is its index; the first statistics row is the one read) and the tracker's flag. */
  datatype Db = Db(rows: seq<Row>, statistics: seq<Statistic>, leaveAlone: bool)

  /** What happens to one listed transaction: rows created meanwhile, its receipt if any, and whether its update is written. */
  datatype Item = Item(id: nat, created: seq<Row>, receipt: Option<Receipt>, written: bool)

  /** One tracker round: the rows created since the previous one, whether the statistics row was read, which rows
      were listed, and whether the statistics row was written. */
  datatype Input = Input(created: seq<Row>, statisticRead: bool, listed: seq<Item>, statisticWritten: bool)

  /** A query lists distinct rows that are still Created, and rows inserted meanwhile start as Created. */
  ghost predicate Possible(rows: seq<Row>, listed: seq<Item>) {
    && (forall i :: 0 <= i < |listed| ==> listed[i].id < |rows| && rows[listed[i].id].status == Created)
    && (forall i, j :: 0 <= i < j < |listed| ==> listed[i].id != listed[j].id)
    && (forall i, j :: 0 <= i < |listed| && 0 <= j < |listed[i].created| ==> listed[i].created[j].status == Created)
  }

  /** Text that is not a number, the empty one included, reads as 0. */
  function FeeOf(text: string): int {
    match ReadInt(text) case None => 0 case Some(n) => n
  }

  function AddFee(text: string, fee: Uint64): string {
    Print(FeeOf(text) + ToInt64(fee))
  }

  function FeeFor(row: Row, receipt: Receipt): Uint64 {
    ToUint64(receipt.gasUsed * row.gasPrice)
  }

  function Confirmed(row: Row, receipt: Receipt): Row {
    row.(status := if receipt.succeeded then Success else Failed,
         usedGas := receipt.gasUsed, fee := FeeFor(row, receipt), height := receipt.height)
  }

  function Next(count: Int64): Int64 {
    ToInt64(count + 1)
  }

  function CountIn(s: Statistic, row: Row, receipt: Receipt): Statistic {
    var fee := FeeFor(row, receipt);
    Statistic(
      Next(s.totalTx),
      if receipt.succeeded then Next(s.successTx) else s.successTx,
      if receipt.succeeded then s.failedTx else Next(s.failedTx),
      if row.kind.SyncBlockHeader? then Next(s.syncHeaderTx) else s.syncHeaderTx,
      if row.kind.SyncBlockHeader? then s.deliverPackageTx else Next(s.deliverPackageTx),
      AddFee(s.totalFee, fee),
      if receipt.succeeded then AddFee(s.successFee, fee) else s.successFee,
      if receipt.succeeded then s.failedFee else AddFee(s.failedFee, fee))
  }

  function SetRow(rows: seq<Row>, id: nat, row: Row): seq<Row> {
    if id < |rows| then rows[id := row] else rows
  }

  /** Every listed row is marked Missed, as far as the writes succeed. */
  function MarkMissed(snapshot: seq<Row>, rows: seq<Row>, listed: seq<Item>): seq<Row> {
    if listed == [] then rows
    else
      var n := |listed| - 1;
      var before := MarkMissed(snapshot, rows, listed[..n]) + listed[n].created;
      if listed[n].written && listed[n].id < |snapshot|
      then SetRow(before, listed[n].id, snapshot[listed[n].id].(status := Missed)) else before
  }

  /** Every listed row with a receipt is counted, and confirmed as far as the writes succeed. */
  function ConfirmAll(snapshot: seq<Row>, rows: seq<Row>, s: Statistic, listed: seq<Item>): (seq<Row>, Statistic) {
    if listed == [] then (rows, s)
    else
      var n := |listed| - 1;
      var (before, t) := ConfirmAll(snapshot, rows, s, listed[..n]);
      var item := listed[n];
      if item.receipt.None? || item.id >= |snapshot| then (before + item.created, t)
      else
        var row := snapshot[item.id];
        (if item.written then SetRow(before + item.created, item.id, Confirmed(row, item.receipt.value)) else before + item.created,
         CountIn(t, row, item.receipt.value))
  }

  function ReadStatistic(db: Db, ok: bool): Option<Statistic> {
    if ok && db.statistics != [] then Some(db.statistics[0]) else None
  }

  /** A statistics row that was not found is created, otherwise it is updated. */
  function SaveStatistic(statistics: seq<Statistic>, found: bool, s: Statistic, written: bool): seq<Statistic> {
    if !written then statistics
    else if !found || statistics == [] then statistics + [s]
    else statistics[0 := s]
  }

  /** Does the tracker give the listed transactions up? */
  predicate LeavesAlone(threshold: Uint64, db: Db, listed: seq<Item>) {
    if listed == [] then db.leaveAlone else |listed| > ToInt64(threshold)
  }

  /** One turn of the tracker's loop, from its query on. */
  function TrackListed(threshold: Uint64, db: Db, input: Input): Db {
    if LeavesAlone(threshold, db, input.listed) then
      Db(MarkMissed(db.rows, db.rows, input.listed), db.statistics, true)
    else
      var found := ReadStatistic(db, input.statisticRead);
      var (rows, s) := ConfirmAll(db.rows, db.rows, if found.Some? then found.value else ZERO, input.listed);
      Db(rows, SaveStatistic(db.statistics, found.Some?, s, input.statisticWritten), false)
  }

  function Insert(db: Db, created: seq<Row>): Db {
    db.(rows := db.rows + created)
  }

  /** The executor inserts rows at any time; then the tracker takes its turn. */
  function TrackRound(threshold: Uint64, db: Db, input: Input): Db {
    TrackListed(threshold, Insert(db, input.created), input)
  }

  function TrackRounds(threshold: Uint64, db: Db, inputs: seq<Input>): Db {
    if inputs == [] then db
    else TrackRound(threshold, TrackRounds(threshold, db, inputs[..|inputs| - 1]), inputs[|inputs| - 1])
  }

  predicate AllCreated(rows: seq<Row>) {
    forall i :: 0 <= i < |rows| ==> rows[i].status == Created
  }

  /** The rows inserted start as Created, and the round lists rows of the table it then finds. */
  ghost predicate PossibleRound(db: Db, input: Input) {
    AllCreated(input.created) && Possible(Insert(db, input.created).rows, input.listed)
  }

  ghost predicate PossibleRun(threshold: Uint64, db: Db, inputs: seq<Input>) {
    forall i :: 0 <= i < |inputs| ==> PossibleRound(TrackRounds(threshold, db, inputs[..i]), inputs[i])
  }

  /** The rounds up to number i, and that round. */
  lemma PossiblePrefixes(threshold: Uint64, db: Db, inputs: seq<Input>, i: nat)
    requires PossibleRun(threshold, db, inputs) && i < |inputs|
    ensures var before := TrackRounds(threshold, db, inputs[..i]);
            && PossibleRun(threshold, db, inputs[..i])
            && AllCreated(inputs[i].created)
            && Possible(Insert(before, inputs[i].created).rows, inputs[i].listed)
            && TrackRounds(threshold, db, inputs[..i + 1]) ==
               TrackListed(threshold, Insert(before, inputs[i].created), inputs[i])
  {
    hide Possible, TrackListed, AllCreated, Insert;
    assert forall j :: 0 <= j <= i ==> inputs[..i][..j] == inputs[..j];
    assert inputs[..i + 1][..i] == inputs[..i] && inputs[..i + 1][i] == inputs[i];
  }

  class TxTracker {
    const unconfirmedTxThreshold: Uint64
    var rows: seq<Row>
    var statistics: seq<Statistic>
    var leaveAloneHistoryTx: bool

    ghost function State(): Db
      reads this
    {
      Db(rows, statistics, leaveAloneHistoryTx)
    }

    constructor (threshold: Uint64)
      ensures unconfirmedTxThreshold == threshold && State() == Db([], [], false)
    {
      unconfirmedTxThreshold := threshold;
      rows, statistics, leaveAloneHistoryTx := [], [], false;
    }

    /** The executor saves the row of a transaction it submitted. */
    method SaveRelayTx(tx: Row, written: bool) returns (ok: bool)
      requires tx.status == Created
      modifies this`rows
      ensures ok == written && State() == if ok then Insert(old(State()), [tx]) else old(State())
    {
      if !written { return false; }
      rows := rows + [tx];
      ok := true;
    }

    /** The tracker's loop, stopped after any number of turns, with the executor saving rows in between. */
    method Track(inputs: seq<Input>)
      requires PossibleRun(unconfirmedTxThreshold, State(), inputs)
      modifies this
      ensures State() == TrackRounds(unconfirmedTxThreshold, old(State()), inputs)
    {
      for i := 0 to |inputs|
        invariant State() == TrackRounds(unconfirmedTxThreshold, old(State()), inputs[..i])
      {
        hide *;
        PossiblePrefixes(unconfirmedTxThreshold, old(State()), inputs, i);
        SaveAll(inputs[i].created);
        Round(inputs[i]);
      }
      assert inputs[..|inputs|] == inputs;
    }

    method SaveAll(created: seq<Row>)
      requires AllCreated(created)
      modifies this`rows
      ensures State() == Insert(old(State()), created)
    {
      for i := 0 to |created|
        invariant State() == Insert(old(State()), created[..i])
      {
        assert created[..i + 1] == created[..i] + [created[i]];
        var _ := SaveRelayTx(created[i], true);
      }
      assert created[..|created|] == created;
    }

    /** One turn of the tracker's loop. */
    method Round(input: Input)
      requires Possible(rows, input.listed)
      modifies this
      ensures State() == TrackListed(unconfirmedTxThreshold, old(State()), input)
    {
      hide Confirmed, CountIn, AddFee, ToInt64;
      var statistic := ZERO;
      var found := false;
      if input.statisticRead && statistics != [] {
        statistic, found := statistics[0], true;
      }
      var relayTxs := rows;
      if |input.listed| != 0 {
        leaveAloneHistoryTx := |input.listed| > ToInt64(unconfirmedTxThreshold);
      }
      if leaveAloneHistoryTx {
        MarkAllMissed(relayTxs, input.listed);
        return;
      }
      ghost var s0 := statistic;
      for i := 0 to |input.listed|
        invariant (rows, statistic) == ConfirmAll(relayTxs, old(rows), s0, input.listed[..i])
        invariant statistics == old(statistics) && !leaveAloneHistoryTx
      {
        assert input.listed[..i + 1][..i] == input.listed[..i];
        hide ReadStatistic, SaveStatistic;
        var item := input.listed[i];
        rows := rows + item.created;
        if item.receipt.None? { continue; }
        statistic := Count(statistic, relayTxs[item.id], item.receipt.value);
        if item.written {
          rows := SetRow(rows, item.id, Confirmed(relayTxs[item.id], item.receipt.value));
        }
      }
      assert input.listed[..|input.listed|] == input.listed;
      if input.statisticWritten {
        if !found { statistics := statistics + [statistic]; } else { statistics := statistics[0 := statistic]; }
      }
    }

    method MarkAllMissed(relayTxs: seq<Row>, listed: seq<Item>)
      requires relayTxs == rows && Possible(rows, listed)
      modifies this`rows
      ensures rows == MarkMissed(old(rows), old(rows), listed)
    {
      for i := 0 to |listed|
        invariant rows == MarkMissed(relayTxs, old(rows), listed[..i])
      {
        assert listed[..i + 1][..i] == listed[..i];
        rows := rows + listed[i].created;
        if listed[i].written {
          rows := SetRow(rows, listed[i].id, relayTxs[listed[i].id].(status := Missed));
        }
      }
      assert listed[..|listed|] == listed;
    }

    /** The statistics fields touched for one receipt. */
    method Count(s: Statistic, tx: Row, receipt: Receipt) returns (statistic: Statistic)
      ensures statistic == CountIn(s, tx, receipt)
    {
      statistic := s.(totalTx := Next(s.totalTx));
      if tx.kind == SyncBlockHeader {
        statistic := statistic.(syncHeaderTx := Next(statistic.syncHeaderTx));
      } else {
        statistic := statistic.(deliverPackageTx := Next(statistic.deliverPackageTx));
      }
      var txFee := ToUint64(receipt.gasUsed * tx.gasPrice);
      if receipt.succeeded {
        statistic := statistic.(successFee := AddFee(statistic.successFee, txFee),
            successTx := Next(statistic.successTx));
      } else {
        statistic := statistic.(failedFee := AddFee(statistic.failedFee, txFee), failedTx := Next(statistic.failedTx));
      }
      statistic := statistic.(totalFee := AddFee(statistic.totalFee, txFee));
    }
  }
}
