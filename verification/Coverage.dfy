/** The promises of the daemons over whole runs: nothing unsafe, no height left out, no interval without a cleanup. */
module Coverage {
  import opened Machine
  import opened Events
  import opened Chains
  import opened Executors
  import opened Cleanup
  import opened Safety
  import opened Daemons
  import opened Runs

  // Safety of whole runs.

  lemma {:induction false} CompetitionRunFollows(env: Env, cfg: Config, d: Daemon, n: nat)
    requires cfg.Valid()
    ensures Follows(d.world, CompetitionRun(env, cfg, d, n).world)
  {
    hide Follows, CompetitionRound;
    if n == 0 {
      NothingBatched(d.world, 0, 0, 0, 0);
    } else {
      CompetitionRunFollows(env, cfg, d, n - 1);
      var e := CompetitionRun(env, cfg, d, n - 1);
      CompetitionRecorded(env, cfg, e);
      FollowsTransitive(d.world, e.world, CompetitionRound(env, cfg, e).world);
    }
  }

  lemma {:induction false} NormalRunFollows(env: Env, cfg: Config, d: Daemon, n: nat)
    requires cfg.Valid()
    ensures Follows(d.world, NormalRun(env, cfg, d, n).world)
  {
    hide Follows, NormalRound;
    if n == 0 {
      NothingBatched(d.world, 0, 0, 0, 0);
    } else {
      NormalRunFollows(env, cfg, d, n - 1);
      var e := NormalRun(env, cfg, d, n - 1);
      NormalRecorded(env, cfg, e);
      FollowsTransitive(d.world, e.world, NormalRound(env, cfg, e).world);
    }
  }

  /** Safety read out: every transaction ever sent carries a stored, non-empty package, and each
      channel accepted exactly 0..k-1 in order, with k at most the number of stored packages. */
  ghost predicate DeliveredInOrder(w: World) {
    && (forall tx :: tx in w.sent && tx.PackageTx? ==>
          && tx.payload != [] && tx.sequence < |Log(w.store, tx.channel)|
          && Log(w.store, tx.channel)[tx.sequence].payload == tx.payload
          && Log(w.store, tx.channel)[tx.sequence].height < tx.proofHeight)
    && (forall channel ::
          var done := Delivered(w.contract, channel);
          && |done| <= |Log(w.store, channel)|
          && forall i :: 0 <= i < |done| ==>
            done[i].sequence == i && done[i].payload == Log(w.store, channel)[i].payload)
  }

  lemma SafeDeliversInOrder(w: World)
    requires Safe(w)
    ensures DeliveredInOrder(w)
  {
    forall tx | tx in w.sent && tx.PackageTx?
      ensures Stored(w.store, tx.channel, tx.sequence, tx.payload, tx.proofHeight)
    {
      assert Honest(w.store, tx);
    }
    forall channel
      ensures NumberedPrefix(Delivered(w.contract, channel), Log(w.store, channel))
    {
    }
  }

  /** Before anything was sent or delivered. */
  lemma GenesisIsSafe(w: World)
    requires w.pool == [] && w.sent == [] && w.contract.delivered == map[]
    ensures Safe(w)
  {
  }

  /** Every run of either daemon from a safe world, its own transactions still pending or not, with any calls
      failing and any interference. */
  lemma EveryRunDeliversInOrder(env: Env, cfg: Config, w: World, start: Uint64, hash: Option<Bytes>, n: nat)
    requires cfg.Valid() && Safe(w)
    ensures DeliveredInOrder(CompetitionRun(env, cfg, CompetitionStart(env, cfg, w, start, hash), n).world)
    ensures DeliveredInOrder(NormalRun(env, cfg, NormalStart(env, w, hash), n).world)
  {
    hide DeliveredInOrder, CompetitionRun, NormalRun, Clean, Await, Stretch;
    CleanKeeps(env, cfg, w, start);
    var c := CompetitionStart(env, cfg, w, start, hash);
    CompetitionRunFollows(env, cfg, c, n);
    SafeDeliversInOrder(CompetitionRun(env, cfg, c, n).world);
    QueryKeeps(env, w);
    var d := NormalStart(env, w, hash);
    NormalRunFollows(env, cfg, d, n);
    SafeDeliversInOrder(NormalRun(env, cfg, d, n).world);
  }

  lemma NothingStoredNothingSent(w: World, channel: Byte)
    requires DeliveredInOrder(w)
    ensures Log(w.store, channel) == [] ==> forall tx :: tx in w.sent && tx.PackageTx? ==> tx.channel != channel
  {
  }

  /** The marker's channel is byte 255: with nothing stored there, it never becomes a transaction. */
  lemma MarkerIsNeverSent(env: Env, cfg: Config, w: World, start: Uint64, hash: Option<Bytes>, n: nat)
    requires cfg.Valid() && Safe(w)
    ensures var v := CompetitionRun(env, cfg, CompetitionStart(env, cfg, w, start, hash), n).world;
            Log(v.store, 255) == [] ==> forall tx :: tx in v.sent && tx.PackageTx? ==>
              tx.channel != ToByte(MARKER.channel)
  {
    hide DeliveredInOrder, CompetitionRun, NormalRun, CompetitionStart, NormalStart, Safe;
    EveryRunDeliversInOrder(env, cfg, w, start, hash, n);
    NothingStoredNothingSent(CompetitionRun(env, cfg, CompetitionStart(env, cfg, w, start, hash), n).world, 255);
  }

  // Coverage in competition mode.

  function NoMarkers(tasks: seq<Task>): seq<Task> {
    if tasks == [] then []
    else
      var n := |tasks| - 1;
      NoMarkers(tasks[..n]) + if tasks[n].channel == -1 then [] else [tasks[n]]
  }

  /** The latest height was really read, and the arithmetic of the round does not wrap. */
  predicate Regular(cfg: Config, r: Round) {
    r.latest >= 1 && r.height + cfg.behindBlockThreshold <= MAX_UINT64 && r.height < MAX_UINT64
  }

  /** `x` is below a cleanup, or its block was read and each of its packages attempted once, in order. */
  ghost predicate Covered(d: Daemon, x: Uint64) {
    || (exists c :: CleanupAt(c) in d.world.attempts && x <= c)
    || (exists r :: r in d.rounds && r.BlockRead? && r.height == x &&
                    NoMarkers(RelaysAt(d.world.attempts, x)) == NoMarkers(r.tasks))
  }

  ghost predicate CoveredFrom(d: Daemon, start: Uint64) {
    && start <= d.height
    && (forall x: Uint64 :: start <= x < d.height ==> Covered(d, x))
    && (forall x: Uint64 :: d.height <= x ==> RelaysAt(d.world.attempts, x) == [])
  }

  lemma ReadRoundHeight(env: Env, cfg: Config, d: Daemon, latest: Uint64)
    requires cfg.Valid()
    ensures var e := ReadRound(env, cfg, d, latest);
            && |e.rounds| == |d.rounds| + 1
            && var r := e.rounds[|d.rounds|];
            && e.rounds == d.rounds + [r] && r.height == d.height && r.latest == latest && !r.CaughtUp?
            && e.height == (if r.BlockFailed? || r.ending.HeaderFailed? then d.height else Add64(d.height, 1))
            && (r.BlockRead? && r.ending.Skipped? ==> NoMarkers(r.tasks) == [])
  {
    hide MonitorPackages, SyncHeader, Carry, StartsWithMarker, Add64, Clean, RelayAll;
  }

  /** How one competition round moves the height. */
  lemma CompetitionHeight(env: Env, cfg: Config, d: Daemon)
    requires cfg.Valid()
    ensures var e := CompetitionRound(env, cfg, d);
            var latest := LatestHeight(env, d.world).0;
            && |e.rounds| == |d.rounds| + 1
            && var r := e.rounds[|d.rounds|];
            && e.rounds == d.rounds + [r] && r.height == d.height && r.latest == latest
            && (r.CaughtUp? <==> Sub64(latest, 1) > Add64(d.height, cfg.behindBlockThreshold))
            && e.height == (if r.CaughtUp? then Add64(Sub64(latest, 1), 1)
                            else if r.BlockFailed? || r.ending.HeaderFailed? then d.height else Add64(d.height, 1))
            && (r.BlockRead? && r.ending.Skipped? ==> NoMarkers(r.tasks) == [])
  {
    hide LatestHeight, ReadRound, Clean, Add64, Sub64, NoMarkers;
    var (latest, w1) := LatestHeight(env, d.world);
    ReadRoundHeight(env, cfg, d.(world := w1), latest);
  }

  lemma SinceAll(w: World, v: World)
    requires w.attempts <= v.attempts
    ensures v.attempts == w.attempts + Since(w, v)
  {
  }

  lemma CoveredStays(d: Daemon, e: Daemon, x: Uint64)
    requires Covered(d, x) && d.rounds <= e.rounds && d.world.attempts <= e.world.attempts
    requires RelaysAt(e.world.attempts, x) == RelaysAt(d.world.attempts, x)
    ensures Covered(e, x)
  {
    hide RelaysAt, NoMarkers;
    if c :| CleanupAt(c) in d.world.attempts && x <= c {
      assert CleanupAt(c) in e.world.attempts;
    } else {
      var r :| r in d.rounds && r.BlockRead? && r.height == x
          && NoMarkers(RelaysAt(d.world.attempts, x)) == NoMarkers(r.tasks);
      assert r in e.rounds;
    }
  }

  lemma EmptyHasNoMarkers()
    ensures NoMarkers([]) == []
  {
  }

  /** One step of the coverage argument, on what the round recorded. */
  lemma CoverageStep(cfg: Config, d: Daemon, e: Daemon, r: Round, start: Uint64)
    requires cfg.Valid() && CoveredFrom(d, start) && Recorded(cfg, d, e, r) && r.height == d.height
    requires r.CaughtUp? ==> e.height == r.latest > d.height
    requires r.BlockFailed? ==> e.height == d.height
    requires r.BlockRead? ==> d.height < MAX_UINT64 && e.height == d.height + if r.ending.HeaderFailed? then 0 else 1
    requires r.BlockRead? && r.ending.Skipped? ==> NoMarkers(r.tasks) == []
    ensures CoveredFrom(e, start)
  {
    hide Follows, RelaysAt, Since, NoMarkers;
    var relayed := if r.BlockRead? && r.ending.Relayed? then r.tasks else [];
    SinceAll(d.world, e.world);
    forall x: Uint64
      ensures RelaysAt(e.world.attempts, x) == RelaysAt(d.world.attempts, x) + if x == d.height then relayed else []
    {
      RelaysAtAppend(d.world.attempts, Since(d.world, e.world), x);
    }
    forall x: Uint64 | start <= x < e.height
      ensures Covered(e, x)
    {
      if x < d.height {
        CoveredStays(d, e, x);
      } else if r.CaughtUp? {
        assert CleanupAt(Sub64(r.latest, 1)) in e.world.attempts;
      } else {
        assert r in e.rounds && [] + relayed == relayed;
        if r.ending.Cleaned? { assert CleanupAt(r.height) in e.world.attempts; }
        EmptyHasNoMarkers();
      }
    }
  }

  lemma StartCovers(env: Env, cfg: Config, w: World, start: Uint64, hash: Option<Bytes>)
    requires w.attempts == []
    ensures CoveredFrom(CompetitionStart(env, cfg, w, start, hash), start)
  {
    hide Clean, Follows, RelaysAt;
    CleanKeeps(env, cfg, w, start);
    var v := Clean(env, cfg, w, start).world;
    var w0 := Note(w, CleanupAt(start));
    forall x: Uint64
      ensures RelaysAt(v.attempts, x) == []
    {
      forall a | a in v.attempts
        ensures !a.RelayAt?
      {
        var i :| 0 <= i < |v.attempts| && v.attempts[i] == a;
        if i == 0 { assert v.attempts[0] == w0.attempts[0]; }
      }
      NoRelays(v.attempts, x);
    }
  }

  lemma HeightArithmetic(latest: Uint64, height: Uint64, behind: Uint64)
    requires height + behind <= MAX_UINT64 && height < MAX_UINT64
    ensures Add64(height, behind) == height + behind && Add64(height, 1) == height + 1
    ensures latest == 0 ==> Sub64(latest, 1) == MAX_UINT64
    ensures latest > 0 ==> Sub64(latest, 1) == latest - 1
    ensures Add64(Sub64(latest, 1), 1) == latest
  {
  }

  lemma RegularHeight(cfg: Config, d: Daemon, r: Round)
    requires Regular(cfg, r) && r.height == d.height
    ensures d.height < MAX_UINT64 && Add64(d.height, 1) == d.height + 1
    ensures Add64(Sub64(r.latest, 1), 1) == r.latest
    ensures Sub64(r.latest, 1) > Add64(d.height, cfg.behindBlockThreshold) ==> r.latest > d.height
  {
    HeightArithmetic(r.latest, d.height, cfg.behindBlockThreshold);
  }

  /**
   Competition-mode coverage: on runs whose height queries succeed and whose arithmetic does not
   wrap, the height never falls, and every height passed was attempted or lies below a cleanup.
   */
  lemma {:induction false} CompetitionCovers(env: Env, cfg: Config, w: World, start: Uint64, hash: Option<Bytes>,
      n: nat)
    requires cfg.Valid() && w.attempts == []
    requires forall r :: r in CompetitionRun(env, cfg, CompetitionStart(env, cfg, w, start, hash), n).rounds ==>
      Regular(cfg, r)
    ensures CoveredFrom(CompetitionRun(env, cfg, CompetitionStart(env, cfg, w, start, hash), n), start)
    ensures n > 0 ==> CompetitionRun(env, cfg, CompetitionStart(env, cfg, w, start, hash), n - 1).height <=
                      CompetitionRun(env, cfg, CompetitionStart(env, cfg, w, start, hash), n).height
  {
    hide CompetitionRound, Stretch, Regular, CoveredFrom, CompetitionStart, NoMarkers, Since, Sub64;
    var s := CompetitionStart(env, cfg, w, start, hash);
    if n == 0 {
      StartCovers(env, cfg, w, start, hash);
    } else {
      var d := CompetitionRun(env, cfg, s, n - 1);
      var e := CompetitionRound(env, cfg, d);
      CompetitionRecorded(env, cfg, d);
      var r := e.rounds[|d.rounds|];
      CompetitionHeight(env, cfg, d);
      assert r in e.rounds && forall q :: q in d.rounds ==> q in e.rounds;
      CompetitionCovers(env, cfg, w, start, hash, n - 1);
      RegularHeight(cfg, d, r);
      CoverageStep(cfg, d, e, r, start);
    }
  }

  lemma FailedReadsZero(env: Env, w: World)
    ensures VerdictOf(env, w).Failed? ==> LatestHeight(env, w).0 == 0
  {
  }

  /** A daemon starts at the latest block (0 when the query fails), not accelerating and with nothing recorded. */
  lemma NormalStartsAtTip(env: Env, w: World, hash: Option<Bytes>)
    ensures var d := NormalStart(env, w, hash);
            && (VerdictOf(env, w) == Fine ==> d.height == d.world.tip)
            && (VerdictOf(env, w) == Failed ==> d.height == 0)
            && d.carried == hash && !d.needAccelerate && d.rounds == [] && d.world.attempts == w.attempts
  {
    QueryKeeps(env, w);
    Conversions(Await(env, w).tip);
    hide Await, ToUint64, Follows;
  }

  /** Competition mode starts at its height, after attempting a cleanup there. */
  lemma CompetitionStartsCleaning(env: Env, cfg: Config, w: World, start: Uint64, hash: Option<Bytes>)
    ensures var d := CompetitionStart(env, cfg, w, start, hash);
            && d.height == start && d.carried == hash && d.rounds == []
            && Since(w, d.world) != [] && Since(w, d.world)[0] == CleanupAt(start)
  {
    hide Follows, Clean;
    CleanKeeps(env, cfg, w, start);
    var v := Clean(env, cfg, w, start).world;
    assert v.attempts[|w.attempts|] == Note(w, CleanupAt(start)).attempts[|w.attempts|];
  }

  /**
   Without the hypothesis on height queries the height can fall, and this is exactly when: in a round
   whose query failed (or reported 0), because 0 - 1 wraps to the largest height. The round then cleans
   up there and goes on from 0.
   */
  lemma HeightFallsExactly(env: Env, cfg: Config, d: Daemon)
    requires cfg.Valid() && d.height + cfg.behindBlockThreshold <= MAX_UINT64 && d.height < MAX_UINT64
    ensures var latest := LatestHeight(env, d.world).0;
            var e := CompetitionRound(env, cfg, d);
            && (VerdictOf(env, d.world).Failed? ==> latest == 0)
            && (e.height < d.height <==>
                  latest == 0 && d.height > 0 && d.height + cfg.behindBlockThreshold < MAX_UINT64)
            && (e.height < d.height ==> e.height == 0 && CleanupAt(MAX_UINT64) in Since(d.world, e.world))
  {
    var e := CompetitionRound(env, cfg, d);
    CompetitionHeight(env, cfg, d);
    CompetitionRecorded(env, cfg, d);
    HeightArithmetic(LatestHeight(env, d.world).0, d.height, cfg.behindBlockThreshold);
    FailedReadsZero(env, d.world);
    hide CompetitionRound, LatestHeight, Since, Stretch, NoMarkers, ToUint64;
  }

  // The cleanup window of normal mode.

  predicate Multiple(m: nat, interval: nat) {
    interval != 0 && m % interval == 0
  }

  /** Between two heights, both excluded, no cleanup falls due. */
  ghost predicate NoneDue(interval: Uint64, last: Uint64, stop: Uint64) {
    forall m: Uint64 :: last < m < stop ==> !Multiple(m, interval)
  }

  ghost predicate Windowed(cfg: Config, d: Daemon, start: Uint64)
    requires cfg.Valid()
  {
    var last := LastCleanup(d.world.attempts, start);
    last <= d.height && (d.needAccelerate || NoneDue(cfg.normalInterval, last, d.height))
  }

  lemma PlainSum(a: Uint64, b: Uint64)
    ensures a + b <= MAX_UINT64 ==> Add64(a, b) == a + b
  {
  }

  lemma NotDueKeepsQuiet(env: Env, cfg: Config)
    ensures forall w, height :: !NormalEnding(env, cfg, w, height, false).0
  {
  }

  /** How one normal round moves the height and the acceleration flag. */
  lemma NormalHeight(env: Env, cfg: Config, d: Daemon)
    requires cfg.Valid() && d.height + 10 <= MAX_UINT64
    ensures var e := NormalRound(env, cfg, d);
            |e.rounds| == |d.rounds| + 1 &&
            var r := e.rounds[|d.rounds|];
            var jumped := r.latest > d.height + 10;
            var due := jumped || d.needAccelerate || Multiple(r.height, cfg.normalInterval);
            && r.height == (if jumped then r.latest else d.height)
            && !r.CaughtUp?
            && (r.BlockFailed? ==> e.height == r.height && e.needAccelerate == (jumped || d.needAccelerate))
            && (r.BlockRead? ==>
                  && (r.ending.Cleaned? <==> due)
                  && (r.height < MAX_UINT64 ==> e.height == r.height + 1)
                  && (!due ==> !e.needAccelerate))
  {
    var latest := LatestHeight(env, d.world).0;
    var height := Accelerated(d, latest).0;
    PlainSum(d.height, HEIGHT_BEHIND_THRESHOLD);
    PlainSum(height, 1);
    NotDueKeepsQuiet(env, cfg);
    hide Clean, Await, SyncHeader, VerdictOf, Changed, Carry, LatestHeight, Add64, ToUint64, NormalEnding, QueryBlock;
  }

  lemma NextNotDue(interval: Uint64, last: Uint64, stop: Uint64)
    requires stop < MAX_UINT64 && NoneDue(interval, last, stop) && !Multiple(stop, interval)
    ensures NoneDue(interval, last, stop + 1)
  {
  }

  lemma WindowStep(cfg: Config, d: Daemon, e: Daemon, r: Round, start: Uint64)
    requires cfg.Valid() && Windowed(cfg, d, start) && NormallyRecorded(cfg, d, e, r) && !r.CaughtUp?
    requires d.height <= r.height < MAX_UINT64
    requires r.height > d.height ==> if r.BlockFailed? then e.needAccelerate else r.ending.Cleaned?
    requires r.BlockFailed? ==> e.height == r.height && (d.needAccelerate ==> e.needAccelerate)
    requires r.BlockRead? ==> e.height == r.height + 1
    requires r.BlockRead? && !r.ending.Cleaned? ==> !d.needAccelerate && !Multiple(r.height, cfg.normalInterval)
    ensures Windowed(cfg, e, start)
  {
    hide Follows, LastCleanup, Since;
    SinceAll(d.world, e.world);
    LastCleanupAppend(d.world.attempts, Since(d.world, e.world), start);
    var last := LastCleanup(d.world.attempts, start);
    if r.BlockRead? && !r.ending.Cleaned? {
      assert r.height == d.height;
      NextNotDue(cfg.normalInterval, last, d.height);
    }
  }

  lemma {:induction false} ProductsApart(a: nat, b: nat, n: nat)
    ensures a < b ==> b * n >= a * n + n
    decreases b
  {
    if a >= b {
    } else {
      ProductsApart(a, b - 1, n);
      assert b * n == (b - 1) * n + n;
    }
  }

  lemma RestIsUnique(x: nat, n: nat, q: nat, r: nat)
    requires x == q * n + r && r < n
    ensures x % n == r
  {
    var p := x / n;
    assert x == p * n + x % n;
    ProductsApart(q, p, n);
    ProductsApart(p, q, n);
  }

  lemma NextMultiple(last: nat, interval: nat) returns (m: nat)
    requires interval > 0
    ensures last < m <= last + interval && Multiple(m, interval)
  {
    var q := last / interval;
    m := (q + 1) * interval;
    assert last == q * interval + last % interval;
    assert m == q * interval + interval;
    RestIsUnique(m, interval, q + 1, 0);
  }

  /** A window without a multiple of the interval is no longer than the interval. */
  lemma ShortWindow(interval: Uint64, last: Uint64, stop: Uint64)
    requires interval != 0 && NoneDue(interval, last, stop)
    ensures stop <= last + interval
  {
    var m := NextMultiple(last, interval);
  }

  /** The rounds of a run stay away from the largest height. */
  predicate Low(d: Daemon) {
    forall r :: r in d.rounds ==> r.height + HEIGHT_BEHIND_THRESHOLD < MAX_UINT64
  }

  lemma StartWindow(cfg: Config, d: Daemon)
    requires cfg.Valid() && d.world.attempts == []
    ensures Windowed(cfg, d, d.height)
  {
  }

  /**
   The normal daemon, failed height queries included: the height never falls, and unless a
   cleanup is pending it is at most one interval above the latest cleanup (or the start).
   */
  lemma {:induction false} NormalWindow(env: Env, cfg: Config, w: World, hash: Option<Bytes>, n: nat)
    requires cfg.Valid() && w.attempts == []
    requires NormalStart(env, w, hash).height + HEIGHT_BEHIND_THRESHOLD < MAX_UINT64
    requires Low(NormalRun(env, cfg, NormalStart(env, w, hash), n))
    ensures var start := NormalStart(env, w, hash);
            var d := NormalRun(env, cfg, start, n);
            && Windowed(cfg, d, start.height)
            && (d.needAccelerate || d.height <= LastCleanup(d.world.attempts, start.height) + cfg.normalInterval)
            && d.height + HEIGHT_BEHIND_THRESHOLD <= MAX_UINT64
    ensures n > 0 ==> NormalRun(env, cfg, NormalStart(env, w, hash), n - 1).height <= NormalRun(env, cfg, NormalStart(env, w, hash), n).height
  {
    hide NormalRound, Kept, Await, Number, VerdictOf, LastCleanup, NoneDue;
    var s := NormalStart(env, w, hash);
    if n == 0 {
      QueryKeeps(env, w);
      StartWindow(cfg, s);
    } else {
      var d := NormalRun(env, cfg, s, n - 1);
      var e := NormalRound(env, cfg, d);
      NormalRecorded(env, cfg, d);
      var r := e.rounds[|d.rounds|];
      assert r in e.rounds && forall q :: q in d.rounds ==> q in e.rounds;
      NormalWindow(env, cfg, w, hash, n - 1);
      NormalHeight(env, cfg, d);
      WindowStep(cfg, d, e, r, s.height);
    }
    var d := NormalRun(env, cfg, s, n);
    if !d.needAccelerate {
      ShortWindow(cfg.normalInterval, LastCleanup(d.world.attempts, s.height), d.height);
    }
  }

  lemma LatestIsRecorded(env: Env, cfg: Config, d: Daemon)
    requires cfg.Valid()
    ensures var e := NormalRound(env, cfg, d);
            |e.rounds| == |d.rounds| + 1 && e.rounds[|d.rounds|].latest == LatestHeight(env, d.world).0
  {
    hide LatestHeight, Clean, Await, SyncHeader, VerdictOf, Changed, Carry, Add64, NormalEnding;
  }

  /** A round that jumped ahead attempts a cleanup at the new height, or leaves one pending there. */
  lemma JumpIsCleaned(env: Env, cfg: Config, d: Daemon)
    requires cfg.Valid() && d.height + 10 <= MAX_UINT64
    ensures var latest := LatestHeight(env, d.world).0;
            var e := NormalRound(env, cfg, d);
            latest > d.height + 10 ==>
              || LastCleanup(Since(d.world, e.world), d.height) == latest
              || (e.height == latest && e.needAccelerate)
  {
    NormalHeight(env, cfg, d);
    NormalRecorded(env, cfg, d);
    LatestIsRecorded(env, cfg, d);
    hide NormalRound, LatestHeight, LastCleanup, Since, Follows;
  }
}
