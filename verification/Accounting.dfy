/** The statistics row against the table, over any number of tracker rounds. */
module Accounting {
  import opened Machine
  import opened Decimal
  import opened Tracker

  // Conservation, whatever is written or lost.

  ghost predicate Conserved(s: Statistic) {
    && s.totalTx == ToInt64(s.successTx + s.failedTx)
    && s.totalTx == ToInt64(s.syncHeaderTx + s.deliverPackageTx)
    && FeeOf(s.totalFee) == FeeOf(s.successFee) + FeeOf(s.failedFee)
  }

  lemma WrapOnce(x: int, y: int)
    ensures ToInt64(ToInt64(x) + y) == ToInt64(x + y)
  {
  }

  lemma NextCounts(total: Int64, a: Int64, b: Int64)
    requires total == ToInt64(a + b)
    ensures Next(total) == ToInt64(Next(a) + b) == ToInt64(a + Next(b))
  {
    hide ToInt64;
    WrapOnce(a + b, 1);
    WrapOnce(a + 1, b);
    WrapOnce(b + 1, a);
  }

  lemma FeeAdds(text: string, fee: Uint64)
    ensures FeeOf(AddFee(text, fee)) == FeeOf(text) + ToInt64(fee)
  {
    ReadPrinted(FeeOf(text) + ToInt64(fee));
  }

  lemma CountInConserves(s: Statistic, row: Row, receipt: Receipt)
    requires Conserved(s)
    ensures Conserved(CountIn(s, row, receipt))
  {
    hide ToInt64, FeeOf, AddFee, Next, FeeFor;
    var fee := FeeFor(row, receipt);
    NextCounts(s.totalTx, s.successTx, s.failedTx);
    NextCounts(s.totalTx, s.syncHeaderTx, s.deliverPackageTx);
    FeeAdds(s.totalFee, fee);
    FeeAdds(s.successFee, fee);
    FeeAdds(s.failedFee, fee);
  }

  lemma {:induction false} ConfirmAllConserves(snapshot: seq<Row>, rows: seq<Row>, s: Statistic, listed: seq<Item>)
    requires Conserved(s)
    ensures Conserved(ConfirmAll(snapshot, rows, s, listed).1)
  {
    hide Conserved, CountIn, Confirmed, SetRow;
    if listed == [] {
    } else {
      var n := |listed| - 1;
      ConfirmAllConserves(snapshot, rows, s, listed[..n]);
      if listed[n].receipt.Some? && listed[n].id < |snapshot| {
        CountInConserves(ConfirmAll(snapshot, rows, s, listed[..n]).1, snapshot[listed[n].id], listed[n].receipt.value);
      }
    }
  }

  lemma ZeroConserved()
    ensures Conserved(ZERO)
  {
  }

  lemma SavedAre(statistics: seq<Statistic>, found: bool, s: Statistic, written: bool)
    ensures forall t :: t in SaveStatistic(statistics, found, s, written) ==> t in statistics || t == s
  {
  }

  lemma RoundConserves(threshold: Uint64, db: Db, input: Input)
    requires forall s :: s in db.statistics ==> Conserved(s)
    ensures forall s :: s in TrackRound(threshold, db, input).statistics ==> Conserved(s)
  {
    hide Conserved, ConfirmAll, MarkMissed, ToInt64;
    var rows := db.rows + input.created;
    var found := ReadStatistic(db, input.statisticRead);
    var start := if found.Some? then found.value else ZERO;
    ZeroConserved();
    ConfirmAllConserves(rows, rows, start, input.listed);
    SavedAre(db.statistics, found.Some?, ConfirmAll(rows, rows, start, input.listed).1, input.statisticWritten);
  }

  /**
   In every state the tracker reaches, with rows confirmed twice because a write failed, and with
   statistics rows lost or duplicated: total = success + failed = headers + packages, and the fees add up.
   */
  lemma {:induction false} AlwaysConserved(threshold: Uint64, db: Db, inputs: seq<Input>)
    requires forall s :: s in db.statistics ==> Conserved(s)
    ensures forall s :: s in TrackRounds(threshold, db, inputs).statistics ==> Conserved(s)
  {
    hide Conserved, TrackRound;
    if inputs == [] {
    } else {
      var n := |inputs| - 1;
      AlwaysConserved(threshold, db, inputs[..n]);
      RoundConserves(threshold, TrackRounds(threshold, db, inputs[..n]), inputs[n]);
    }
  }

  // Rows that are done are never touched again.

  /** No row is lost, and rows no longer Created are as they were. */
  ghost predicate Kept(rows: seq<Row>, after: seq<Row>) {
    && |rows| <= |after|
    && forall id :: 0 <= id < |rows| && rows[id].status != Created ==> after[id] == rows[id]
  }

  /** Rows from `rows` on, changed only at the ids of `listed`, which grew by rows still Created. */
  ghost predicate TouchedOnly(rows: seq<Row>, after: seq<Row>, listed: seq<Item>) {
    && |rows| <= |after|
    && (forall id :: 0 <= id < |rows| && (forall x :: x in listed ==> x.id != id) ==> after[id] == rows[id])
  }

  lemma TouchedGrows(rows: seq<Row>, before: seq<Row>, after: seq<Row>, listed: seq<Item>)
    requires listed != [] && TouchedOnly(rows, before, listed[..|listed| - 1])
    requires |before| <= |after| && forall id :: 0 <= id < |before| && id != listed[|listed| - 1].id ==>
      after[id] == before[id]
    ensures TouchedOnly(rows, after, listed)
  {
    var n := |listed| - 1;
    assert forall x :: x in listed[..n] ==> x in listed;
    assert listed[n] in listed;
  }

  lemma NothingTouched(rows: seq<Row>)
    ensures TouchedOnly(rows, rows, [])
  {
  }

  lemma {:induction false} ConfirmTouches(snapshot: seq<Row>, s: Statistic, listed: seq<Item>)
    ensures TouchedOnly(snapshot, ConfirmAll(snapshot, snapshot, s, listed).0, listed)
  {
    hide CountIn, Confirmed, TouchedOnly;
    if listed == [] {
      NothingTouched(snapshot);
    } else {
      var n := |listed| - 1;
      ConfirmTouches(snapshot, s, listed[..n]);
      TouchedGrows(snapshot, ConfirmAll(snapshot, snapshot, s, listed[..n]).0,
          ConfirmAll(snapshot, snapshot, s, listed).0, listed);
    }
  }

  lemma {:induction false} MissedTouches(snapshot: seq<Row>, listed: seq<Item>)
    ensures TouchedOnly(snapshot, MarkMissed(snapshot, snapshot, listed), listed)
  {
    hide TouchedOnly;
    if listed == [] {
      NothingTouched(snapshot);
    } else {
      var n := |listed| - 1;
      MissedTouches(snapshot, listed[..n]);
      TouchedGrows(snapshot, MarkMissed(snapshot, snapshot, listed[..n]), MarkMissed(snapshot, snapshot, listed),
          listed);
    }
  }

  lemma TerminalStaysInRound(threshold: Uint64, db: Db, input: Input)
    requires Possible(db.rows, input.listed)
    ensures Kept(db.rows, TrackListed(threshold, db, input).rows)
  {
    var found := ReadStatistic(db, input.statisticRead);
    ConfirmTouches(db.rows, if found.Some? then found.value else ZERO, input.listed);
    MissedTouches(db.rows, input.listed);
    hide ConfirmAll, MarkMissed, SaveStatistic, ToInt64;
    forall id | 0 <= id < |db.rows| && db.rows[id].status != Created
      ensures forall x :: x in input.listed ==> x.id != id
    {
    }
  }

  lemma InsertKeeps(db: Db, created: seq<Row>, after: seq<Row>)
    requires Kept(Insert(db, created).rows, after)
    ensures Kept(db.rows, after)
  {
    forall id | 0 <= id < |db.rows| && db.rows[id].status != Created
      ensures after[id] == db.rows[id]
    {
      assert Insert(db, created).rows[id] == db.rows[id];
    }
  }

  /** A row that is Success, Failed or Missed after some rounds keeps its status and its figures for ever. */
  lemma {:induction false} TerminalStays(threshold: Uint64, db: Db, inputs: seq<Input>, k: nat)
    requires PossibleRun(threshold, db, inputs) && k <= |inputs|
    ensures Kept(TrackRounds(threshold, db, inputs[..k]).rows, TrackRounds(threshold, db, inputs).rows)
  {
    hide TrackListed, Possible, Insert, AllCreated;
    var n := |inputs| - 1;
    if k == |inputs| {
      assert inputs[..k] == inputs;
    } else {
      PossiblePrefixes(threshold, db, inputs, n);
      assert inputs[..n + 1] == inputs;
      TerminalStays(threshold, db, inputs[..n], k);
      assert inputs[..n][..k] == inputs[..k];
      var before := TrackRounds(threshold, db, inputs[..n]);
      TerminalStaysInRound(threshold, Insert(before, inputs[n].created), inputs[n]);
      InsertKeeps(before, inputs[n].created, TrackRounds(threshold, db, inputs).rows);
    }
  }

  // The statistics row as a fold over the table.

  predicate IsSuccess(r: Row) { r.status == Success }

  predicate IsFailed(r: Row) { r.status == Failed }

  predicate IsDone(r: Row) { r.status == Success || r.status == Failed }

  predicate IsHeader(r: Row) { IsDone(r) && r.kind == SyncBlockHeader }

  predicate IsPackage(r: Row) { IsDone(r) && r.kind == DeliverPackage }

  function Tally(rows: seq<Row>, p: Row -> bool): nat {
    if rows == [] then 0 else Tally(rows[..|rows| - 1], p) + if p(rows[|rows| - 1]) then 1 else 0
  }

  function FeeSum(rows: seq<Row>, p: Row -> bool): int {
    if rows == [] then 0 else FeeSum(rows[..|rows| - 1], p) + if p(rows[|rows| - 1]) then ToInt64(rows[|rows| - 1].fee) else 0
  }

  /** One counter and one fee against the rows they stand for. */
  ghost predicate Folds(rows: seq<Row>, p: Row -> bool, count: Int64, fee: int) {
    count == ToInt64(Tally(rows, p)) && fee == FeeSum(rows, p)
  }

  ghost predicate Agrees(rows: seq<Row>, s: Statistic) {
    && Folds(rows, IsDone, s.totalTx, FeeOf(s.totalFee))
    && Folds(rows, IsSuccess, s.successTx, FeeOf(s.successFee))
    && Folds(rows, IsFailed, s.failedTx, FeeOf(s.failedFee))
    && s.syncHeaderTx == ToInt64(Tally(rows, IsHeader))
    && s.deliverPackageTx == ToInt64(Tally(rows, IsPackage))
  }

  lemma {:induction false} TallyAppend(rows: seq<Row>, more: seq<Row>, p: Row -> bool)
    requires forall r :: r in more ==> !p(r)
    ensures Tally(rows + more, p) == Tally(rows, p) && FeeSum(rows + more, p) == FeeSum(rows, p)
  {
    hide ToInt64;
    if more == [] {
      assert rows + more == rows;
    } else {
      var n := |more| - 1;
      assert more[n] in more;
      TallyAppend(rows, more[..n], p);
      assert (rows + more)[..|rows + more| - 1] == rows + more[..n] && (rows + more)[|rows + more| - 1] == more[n];
    }
  }

  /** Replacing a row that was not counted. */
  lemma {:induction false} TallySet(rows: seq<Row>, id: nat, row: Row, p: Row -> bool)
    requires id < |rows| && !p(rows[id])
    ensures Tally(rows[id := row], p) == Tally(rows, p) + if p(row) then 1 else 0
    ensures FeeSum(rows[id := row], p) == FeeSum(rows, p) + if p(row) then ToInt64(row.fee) else 0
  {
    hide ToInt64;
    var n := |rows| - 1;
    if id == n {
      assert rows[id := row][..n] == rows[..n];
    } else {
      TallySet(rows[..n], id, row, p);
      assert rows[id := row][..n] == rows[..n][id := row];
    }
  }

  lemma NextOfTally(count: Int64, n: int)
    requires count == ToInt64(n)
    ensures Next(count) == ToInt64(n + 1)
  {
  }

  lemma CreatedIsNotDone(rows: seq<Row>)
    requires forall r :: r in rows ==> r.status == Created
    ensures forall r :: r in rows ==> !IsDone(r) && !IsSuccess(r) && !IsFailed(r) && !IsHeader(r) && !IsPackage(r)
  {
  }

  lemma AgreesAppend(rows: seq<Row>, more: seq<Row>, s: Statistic)
    requires Agrees(rows, s) && forall r :: r in more ==> r.status == Created
    ensures Agrees(rows + more, s)
  {
    hide Tally, FeeSum, FeeOf, ToInt64;
    CreatedIsNotDone(more);
    TallyAppend(rows, more, IsDone);
    TallyAppend(rows, more, IsSuccess);
    TallyAppend(rows, more, IsFailed);
    TallyAppend(rows, more, IsHeader);
    TallyAppend(rows, more, IsPackage);
  }

  lemma AgreesMissed(rows: seq<Row>, id: nat, row: Row, s: Statistic)
    requires Agrees(rows, s) && id < |rows| && rows[id].status == Created && row.status == Missed
    ensures Agrees(rows[id := row], s)
  {
    hide Tally, FeeSum, FeeOf, ToInt64;
    TallySet(rows, id, row, IsDone);
    TallySet(rows, id, row, IsSuccess);
    TallySet(rows, id, row, IsFailed);
    TallySet(rows, id, row, IsHeader);
    TallySet(rows, id, row, IsPackage);
  }

  /** Counting a receipt and confirming its row go together. */
  lemma AgreesConfirmed(rows: seq<Row>, id: nat, receipt: Receipt, s: Statistic)
    requires Agrees(rows, s) && id < |rows| && rows[id].status == Created
    ensures Agrees(rows[id := Confirmed(rows[id], receipt)], CountIn(s, rows[id], receipt))
  {
    hide Tally, FeeSum, FeeOf, AddFee, ToInt64, Next, FeeFor;
    var row := Confirmed(rows[id], receipt);
    TallySet(rows, id, row, IsDone);
    TallySet(rows, id, row, IsSuccess);
    TallySet(rows, id, row, IsFailed);
    TallySet(rows, id, row, IsHeader);
    TallySet(rows, id, row, IsPackage);
    NextOfTally(s.totalTx, Tally(rows, IsDone));
    NextOfTally(s.successTx, Tally(rows, IsSuccess));
    NextOfTally(s.failedTx, Tally(rows, IsFailed));
    NextOfTally(s.syncHeaderTx, Tally(rows, IsHeader));
    NextOfTally(s.deliverPackageTx, Tally(rows, IsPackage));
    FeeAdds(s.totalFee, row.fee);
    FeeAdds(s.successFee, row.fee);
    FeeAdds(s.failedFee, row.fee);
  }

  lemma PossiblePrefix(rows: seq<Row>, listed: seq<Item>)
    requires listed != [] && Possible(rows, listed)
    ensures Possible(rows, listed[..|listed| - 1])
    ensures var item := listed[|listed| - 1];
            && item.id < |rows| && rows[item.id].status == Created
            && (forall r :: r in item.created ==> r.status == Created)
            && (forall x :: x in listed[..|listed| - 1] ==> x.id != item.id)
  {
  }

  lemma {:induction false} ConfirmAllAgrees(rows: seq<Row>, s: Statistic, listed: seq<Item>)
    requires Agrees(rows, s) && Possible(rows, listed) && forall i :: 0 <= i < |listed| ==> listed[i].written
    ensures var (after, t) := ConfirmAll(rows, rows, s, listed);
            Agrees(after, t)
  {
    hide Agrees, CountIn, Confirmed, Possible;
    if listed == [] {
    } else {
      var n := |listed| - 1;
      var item := listed[n];
      PossiblePrefix(rows, listed);
      ConfirmAllAgrees(rows, s, listed[..n]);
      ConfirmTouches(rows, s, listed[..n]);
      var (before, t) := ConfirmAll(rows, rows, s, listed[..n]);
      AgreesAppend(before, item.created, t);
      assert (before + item.created)[item.id] == rows[item.id];
      if item.receipt.Some? {
        AgreesConfirmed(before + item.created, item.id, item.receipt.value, t);
      }
    }
  }

  lemma {:induction false} MarkMissedAgrees(rows: seq<Row>, s: Statistic, listed: seq<Item>)
    requires Agrees(rows, s) && Possible(rows, listed)
    ensures Agrees(MarkMissed(rows, rows, listed), s)
  {
    hide Agrees, Possible;
    if listed == [] {
    } else {
      var n := |listed| - 1;
      var item := listed[n];
      PossiblePrefix(rows, listed);
      MarkMissedAgrees(rows, s, listed[..n]);
      MissedTouches(rows, listed[..n]);
      var before := MarkMissed(rows, rows, listed[..n]);
      AgreesAppend(before, item.created, s);
      assert (before + item.created)[item.id] == rows[item.id];
      AgreesMissed(before + item.created, item.id, rows[item.id].(status := Missed), s);
    }
  }

  /** Every round reads and writes what it should. */
  ghost predicate Reliable(input: Input) {
    input.statisticRead && input.statisticWritten && forall i :: 0 <= i < |input.listed| ==> input.listed[i].written
  }

  /** The statistics row a reader of the database sees. */
  function Shown(db: Db): Statistic {
    if db.statistics == [] then ZERO else db.statistics[0]
  }

  lemma RoundAgrees(threshold: Uint64, db: Db, input: Input)
    requires Agrees(db.rows, Shown(db)) && Possible(db.rows, input.listed) && Reliable(input)
    ensures var after := TrackListed(threshold, db, input); Agrees(after.rows, Shown(after))
  {
    ConfirmAllAgrees(db.rows, Shown(db), input.listed);
    MarkMissedAgrees(db.rows, Shown(db), input.listed);
    hide Agrees, ConfirmAll, MarkMissed, Possible, ToInt64;
  }

  lemma EmptyAgrees()
    ensures Agrees([], Shown(Db([], [], false)))
  {
  }

  /**
   From an empty database, with reads and writes succeeding and rows created concurrently: after
   every round each figure of the statistics row is the fold over the table it stands for - Missed
   and Created rows are counted nowhere, the fees are those recorded, cast to int64.
   */
  lemma {:induction false} StatisticsAreFolds(threshold: Uint64, inputs: seq<Input>)
    requires PossibleRun(threshold, Db([], [], false), inputs) && forall i :: 0 <= i < |inputs| ==> Reliable(inputs[i])
    ensures var db := TrackRounds(threshold, Db([], [], false), inputs); Agrees(db.rows, Shown(db))
  {
    hide Reliable, TrackListed, Possible, Agrees;
    if inputs == [] {
      EmptyAgrees();
    } else {
      var n := |inputs| - 1;
      var before := TrackRounds(threshold, Db([], [], false), inputs[..n]);
      PossiblePrefixes(threshold, Db([], [], false), inputs, n);
      assert inputs[..n + 1] == inputs;
      StatisticsAreFolds(threshold, inputs[..n]);
      AgreesAppend(before.rows, inputs[n].created, Shown(before));
      RoundAgrees(threshold, Insert(before, inputs[n].created), inputs[n]);
    }
  }

  /** One package transaction, created before the first round and confirmed in it. */
  function FirstInput(row: Row, receipt: Receipt): Input {
    Input([row], true, [Item(0, [], Some(receipt), true)], true)
  }

  lemma PlainNumbers()
    ensures ToUint64(10) == 10 && ToInt64(10) == 10 && ToInt64(1) == 1 && FeeOf("") == 0
  {
  }

  lemma FirstConfirmed(row: Row, receipt: Receipt)
    ensures ConfirmAll([row], [row], ZERO, FirstInput(row, receipt).listed) ==
            ([Confirmed(row, receipt)], CountIn(ZERO, row, receipt))
  {
    hide Confirmed, CountIn;
    var listed := FirstInput(row, receipt).listed;
    assert listed[..0] == [] && ConfirmAll([row], [row], ZERO, listed[..0]) == ([row], ZERO);
    assert [row] + [] == [row] && [row][0 := Confirmed(row, receipt)] == [Confirmed(row, receipt)];
  }

  lemma FirstCounted()
    ensures var s := CountIn(ZERO, Row(DeliverPackage, 2, Created, 0, 0, 0), Receipt(5, true, 9));
            && s.totalTx == s.successTx == s.deliverPackageTx == 1
            && FeeOf(s.totalFee) == FeeOf(s.successFee) == 10
  {
    hide AddFee, FeeOf, ToInt64;
    FeeAdds("", 10);
    PlainNumbers();
  }

  lemma FirstRun(threshold: Uint64, row: Row, receipt: Receipt)
    requires 1 <= ToInt64(threshold) && row.status == Created
    ensures var inputs := [FirstInput(row, receipt)];
            && PossibleRun(threshold, Db([], [], false), inputs) && Reliable(inputs[0])
            && TrackRounds(threshold, Db([], [], false), inputs) ==
               Db([Confirmed(row, receipt)], [CountIn(ZERO, row, receipt)], false)
  {
    hide ConfirmAll, CountIn, Confirmed, MarkMissed, ToInt64;
    var input := FirstInput(row, receipt);
    var inputs, empty := [input], Db([], [], false);
    assert inputs[..0] == [];
    assert TrackRounds(threshold, empty, inputs[..0]) == empty;
    assert Insert(empty, input.created) == Db([row], [], false);
    FirstConfirmed(row, receipt);
    assert TrackListed(threshold, Db([row], [], false), input) ==
           Db([Confirmed(row, receipt)], [CountIn(ZERO, row, receipt)], false);
    hide TrackListed;
    assert TrackRounds(threshold, empty, inputs) == TrackRound(threshold, empty, input);
  }

  /** A run with something to count: from the empty database one row is created, listed, confirmed and counted. */
  lemma FirstTransactionIsCounted(threshold: Uint64)
    requires 1 <= ToInt64(threshold)
    ensures var row := Row(DeliverPackage, 2, Created, 0, 0, 0);
            var inputs := [FirstInput(row, Receipt(5, true, 9))];
            var db := TrackRounds(threshold, Db([], [], false), inputs);
            && PossibleRun(threshold, Db([], [], false), inputs) && Reliable(inputs[0])
            && db.rows == [Row(DeliverPackage, 2, Success, 5, 10, 9)]
            && Shown(db).totalTx == Shown(db).successTx == Shown(db).deliverPackageTx == 1
            && FeeOf(Shown(db).totalFee) == FeeOf(Shown(db).successFee) == 10
  {
    var row := Row(DeliverPackage, 2, Created, 0, 0, 0);
    assert Confirmed(row, Receipt(5, true, 9)) == Row(DeliverPackage, 2, Success, 5, 10, 9) by { PlainNumbers(); }
    FirstCounted();
    FirstRun(threshold, row, Receipt(5, true, 9));
    hide TrackRounds, PossibleRun, Reliable, CountIn, Confirmed, FeeOf, ToInt64, FirstInput;
  }

  // When a write or a read of the database is lost.

  /** Listed rows that have a receipt and whose update is written, or is not. */
  function Receipts(listed: seq<Item>, written: bool): nat {
    if listed == [] then 0
    else
      var item := listed[|listed| - 1];
      Receipts(listed[..|listed| - 1], written) + if item.receipt.Some? && item.written == written then 1 else 0
  }

  lemma SameInt64(x: Int64)
    ensures ToInt64(x) == x
  {
  }

  lemma AddedAreNotDone(rows: seq<Row>, more: seq<Row>, row: Row)
    requires row.status == Created && forall r :: r in more ==> r.status == Created
    ensures Tally(rows + more, IsDone) == Tally(rows, IsDone) && !IsDone(row)
  {
    CreatedIsNotDone(more);
    TallyAppend(rows, more, IsDone);
  }

  lemma OneMore(s: Statistic, row: Row, receipt: Receipt)
    ensures CountIn(s, row, receipt).totalTx == ToInt64(s.totalTx + 1) && IsDone(Confirmed(row, receipt))
  {
  }

  /** Every receipt is counted, and every written one adds a row that is done. */
  lemma {:induction false} ReceiptsAreCounted(rows: seq<Row>, s: Statistic, listed: seq<Item>)
    requires Possible(rows, listed)
    ensures var (after, t) := ConfirmAll(rows, rows, s, listed);
            && t.totalTx == ToInt64(s.totalTx + Receipts(listed, true) + Receipts(listed, false))
            && Tally(after, IsDone) == Tally(rows, IsDone) + Receipts(listed, true)
    ensures Receipts(listed, true) + Receipts(listed, false) <= |listed|
  {
    hide Possible, ToInt64, Tally, CountIn, Confirmed, IsDone, FeeSum;
    if listed == [] {
      SameInt64(s.totalTx);
    } else {
      var n := |listed| - 1;
      var item := listed[n];
      PossiblePrefix(rows, listed);
      ReceiptsAreCounted(rows, s, listed[..n]);
      ConfirmTouches(rows, s, listed[..n]);
      var (before, t) := ConfirmAll(rows, rows, s, listed[..n]);
      AddedAreNotDone(before, item.created, rows[item.id]);
      assert (before + item.created)[item.id] == rows[item.id];
      if item.receipt.Some? {
        TallySet(before + item.created, item.id, Confirmed(rows[item.id], item.receipt.value), IsDone);
        WrapOnce(s.totalTx + Receipts(listed[..n], true) + Receipts(listed[..n], false), 1);
        OneMore(t, rows[item.id], item.receipt.value);
      }
    }
  }

  lemma {:induction false} MissedAreNotDone(rows: seq<Row>, listed: seq<Item>)
    requires Possible(rows, listed)
    ensures Tally(MarkMissed(rows, rows, listed), IsDone) == Tally(rows, IsDone)
  {
    hide Possible, Tally, FeeSum;
    if listed == [] {
    } else {
      var n := |listed| - 1;
      var item := listed[n];
      PossiblePrefix(rows, listed);
      MissedAreNotDone(rows, listed[..n]);
      MissedTouches(rows, listed[..n]);
      var before := MarkMissed(rows, rows, listed[..n]);
      AddedAreNotDone(before, item.created, rows[item.id]);
      assert (before + item.created)[item.id] == rows[item.id];
      TallySet(before + item.created, item.id, rows[item.id].(status := Missed), IsDone);
    }
  }

  /** Is the statistics row a reader sees after this round the one the round counted in? */
  predicate Saved(db: Db, input: Input) {
    input.statisticWritten && (input.statisticRead || db.statistics == [])
  }

  lemma {:induction false} ReceiptsExactly(listed: seq<Item>, written: bool)
    ensures Receipts(listed, written) == 0 <==> forall x :: x in listed && x.receipt.Some? ==> x.written == !written
  {
    if listed == [] {
    } else {
      var n := |listed| - 1;
      ReceiptsExactly(listed[..n], written);
      assert listed == listed[..n] + [listed[n]];
    }
  }

  lemma WrapsApart(n: int, k: nat)
    requires k <= MAX_UINT64
    ensures ToInt64(n + k) == ToInt64(n) <==> k == 0
  {
  }

  /**
   Whatever reads and writes fail, a round keeps the total right exactly when it gives its list up, or when
   the updates of all rows that have a receipt share the fate of the statistics row: all are written if
   it is saved, none if it is not. The limit on the list is that of a uint64 length.
   */
  lemma TotalRightExactly(threshold: Uint64, db: Db, input: Input)
    requires Shown(db).totalTx == ToInt64(Tally(db.rows, IsDone))
    requires AllCreated(input.created) && Possible(Insert(db, input.created).rows, input.listed)
    requires |input.listed| <= MAX_UINT64
    ensures var after := TrackRound(threshold, db, input);
            Shown(after).totalTx == ToInt64(Tally(after.rows, IsDone)) <==>
            || (if input.listed == [] then db.leaveAlone else |input.listed| > ToInt64(threshold))
            || forall x :: x in input.listed && x.receipt.Some? ==> x.written == Saved(db, input)
  {
    hide Possible, ToInt64, Tally, Receipts, ConfirmAll, MarkMissed;
    var rows := db.rows + input.created;
    CreatedIsNotDone(input.created);
    TallyAppend(db.rows, input.created, IsDone);
    if LeavesAlone(threshold, db, input.listed) {
      MissedAreNotDone(rows, input.listed);
    } else {
      var found := ReadStatistic(db, input.statisticRead);
      var start := if found.Some? then found.value else ZERO;
      ReceiptsAreCounted(rows, start, input.listed);
      ReceiptsExactly(input.listed, !Saved(db, input));
      var done, right, wrong := Tally(db.rows, IsDone), Receipts(input.listed, true), Receipts(input.listed, false);
      if Saved(db, input) {
        WrapOnce(done, right + wrong);
        WrapsApart(done + right, wrong);
      } else {
        WrapsApart(done, right);
      }
    }
  }

  // One transaction whose receipt has come, in a round that loses one read or write.

  const WAITING := Row(DeliverPackage, 1, Created, 0, 0, 0)

  const COUNTED_ONE := Statistic(1, 1, 0, 0, 1, "5", "5", "")

  function OneReceipt(statisticRead: bool, written: bool, statisticWritten: bool): Input {
    Input([], statisticRead, [Item(0, [], Some(Receipt(5, true, 9)), written)], statisticWritten)
  }

  lemma OneReceiptIs(statisticRead: bool, written: bool, statisticWritten: bool)
    ensures var item := OneReceipt(statisticRead, written, statisticWritten).listed[0];
            item in OneReceipt(statisticRead, written, statisticWritten).listed &&
            item.receipt.Some? && item.written == written
  {
  }

  lemma OneWaiting()
    ensures Tally([WAITING], IsDone) == 0
    ensures Tally([Confirmed(WAITING, Receipt(5, true, 9)), WAITING], IsDone) == 1
  {
    assert [WAITING][..0] == [];
    var row := Confirmed(WAITING, Receipt(5, true, 9));
    assert [row, WAITING][..1] == [row] && [row][..0] == [];
  }

  /** The row update is lost: one transaction is counted, none is done. */
  lemma LostRowMiscounts()
    ensures var db := Db([WAITING], [], false);
            var after := TrackRound(10, db, OneReceipt(true, false, true));
            Shown(db).totalTx == ToInt64(Tally(db.rows, IsDone)) &&
            Shown(after).totalTx != ToInt64(Tally(after.rows, IsDone))
  {
    OneWaiting();
    OneReceiptIs(true, false, true);
    assert [WAITING] + [] == [WAITING];
    hide ConfirmAll, Tally;
    TotalRightExactly(10, Db([WAITING], [], false), OneReceipt(true, false, true));
  }

  /** The statistics row is not written: no transaction is counted, one is done. */
  lemma LostStatisticMiscounts()
    ensures var db := Db([WAITING], [], false);
            var after := TrackRound(10, db, OneReceipt(true, true, false));
            Shown(db).totalTx == ToInt64(Tally(db.rows, IsDone)) &&
            Shown(after).totalTx != ToInt64(Tally(after.rows, IsDone))
  {
    OneWaiting();
    OneReceiptIs(true, true, false);
    assert [WAITING] + [] == [WAITING];
    hide ConfirmAll, Tally;
    TotalRightExactly(10, Db([WAITING], [], false), OneReceipt(true, true, false));
  }

  /** The statistics row is not read: a second one is created, and the count is lost to the first. */
  lemma UnreadStatisticMiscounts()
    ensures var db := Db([Confirmed(WAITING, Receipt(5, true, 9)), WAITING], [COUNTED_ONE], false);
            var input := Input([], false, [Item(1, [], Some(Receipt(5, true, 9)), true)], true);
            var after := TrackRound(10, db, input);
            && Shown(db).totalTx == ToInt64(Tally(db.rows, IsDone))
            && |after.statistics| == 2
            && Shown(after).totalTx != ToInt64(Tally(after.rows, IsDone))
  {
    OneWaiting();
    var db := Db([Confirmed(WAITING, Receipt(5, true, 9)), WAITING], [COUNTED_ONE], false);
    var input := Input([], false, [Item(1, [], Some(Receipt(5, true, 9)), true)], true);
    assert db.rows + [] == db.rows;
    assert input.listed[0] in input.listed && input.listed[0].receipt.Some?;
    hide ConfirmAll, Tally;
    TotalRightExactly(10, db, input);
  }
}
