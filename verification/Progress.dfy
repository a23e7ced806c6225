/** The daemons converge: when nothing fails and nothing new is stored, enough rounds of either deliver everything. */
module Progress {
  import opened Machine
  import opened Events
  import opened Chains
  import opened Executors
  import opened Cleanup
  import opened Delivery
  import opened Convergence
  import opened Relays
  import opened Daemons
  import opened Runs
  import opened Coverage

  /** Every stored package of the channels is there after block `height`, and none is empty. */
  ghost predicate Visible(store: Store, channels: seq<Byte>, height: int) {
    forall c :: c in channels ==>
      && CountAt(Log(store, c), height) == |Log(store, c)|
      && forall i :: 0 <= i < |Log(store, c)| ==> Log(store, c)[i].payload != []
  }

  /** Counters are far from the end of uint64. */
  ghost predicate Roomy(w: World) {
    forall c :: |Log(w.store, c)| + MAX_BATCH_SIZE <= MAX_UINT64 && Counter(Pending(w), c) + MAX_BATCH_SIZE <= MAX_UINT64
  }

  /** What is left of a gap after a number of cleanups. */
  function Left(gap: nat, cleanups: nat): nat {
    if gap > 30 * cleanups then gap - 30 * cleanups else 0
  }

  /** Counters only grew, none beyond what is stored, and the listed gaps shrank as by that many cleanups. */
  ghost predicate Reduced(w: World, v: World, channels: seq<Byte>, cleanups: nat) {
    && v.store == w.store
    && (forall c :: Counter(Pending(w), c) <= Counter(Pending(v), c) <= Counter(Pending(w), c) + Gap(w, c))
    && (forall c :: c in channels ==> Gap(v, c) <= Left(Gap(w, c), cleanups))
  }

  lemma LeftTwice(gap: nat, rest: nat, j: nat, k: nat)
    requires rest <= Left(gap, j)
    ensures Left(rest, k) <= Left(gap, j + k)
  {
  }

  lemma ReducedTransitive(u: World, v: World, w: World, channels: seq<Byte>, j: nat, k: nat)
    requires Reduced(u, v, channels, j) && Reduced(v, w, channels, k)
    ensures Reduced(u, w, channels, j + k)
  {
    hide Pending, Left;
    forall c | c in channels
      ensures Gap(w, c) <= Left(Gap(u, c), j + k)
    {
      LeftTwice(Gap(u, c), Gap(v, c), j, k);
    }
  }

  lemma RoomyStays(w: World, v: World, channels: seq<Byte>, cleanups: nat)
    requires Roomy(w) && Reduced(w, v, channels, cleanups)
    ensures Roomy(v)
  {
    hide Pending, Left;
    forall c
      ensures Counter(Pending(v), c) + MAX_BATCH_SIZE <= MAX_UINT64
    {
      assert Counter(Pending(w), c) + MAX_BATCH_SIZE <= MAX_UINT64;
    }
  }

  lemma SameIsReduced(w: World, v: World, channels: seq<Byte>)
    requires v.store == w.store && forall c :: Counter(Pending(v), c) == Counter(Pending(w), c)
    ensures Reduced(w, v, channels, 0)
  {
    hide Pending;
  }

  lemma {:induction false} CountAtGrows(log: seq<StoredPackage>, low: int, high: int)
    requires low <= high && CountAt(log, low) == |log|
    ensures CountAt(log, high) == |log|
  {
    if log == [] {
    } else {
      CountAtGrows(log[1..], low, high);
    }
  }

  lemma VisibleLater(store: Store, channels: seq<Byte>, low: int, high: int)
    requires low <= high && Visible(store, channels, low)
    ensures Visible(store, channels, high)
  {
    hide CountAt;
    forall c | c in channels
      ensures CountAt(Log(store, c), high) == |Log(store, c)|
    {
      CountAtGrows(Log(store, c), low, high);
    }
  }

  lemma SmallHeight(height: Uint64)
    requires height < 0x8000_0000_0000_0000
    ensures ToInt64(height) == height
  {
  }

  // What the calls of a round do to the gaps.

  lemma QueryReduces(env: Env, w: World, channels: seq<Byte>)
    requires Perfect(env)
    ensures Reduced(w, Await(env, w), channels, 0)
  {
    Answered(env, w);
    AloneAwait(env, w);
    hide Await, Pending;
    SameIsReduced(w, Await(env, w), channels);
  }

  lemma SyncReduces(env: Env, w: World, height: Uint64, channels: seq<Byte>)
    requires Perfect(env)
    ensures SyncHeader(env, w, height).0 && Reduced(w, SyncHeader(env, w, height).1, channels, 0)
  {
    SyncSucceeds(env, w, height);
    SyncOrderly(env, w, height, 0);
    hide SyncHeader, Pending, Orderly, Shape;
    var v := SyncHeader(env, w, height).1;
    assert forall c :: Counter(Pending(v), c) == Counter(Pending(w), c);
    SameIsReduced(w, v, channels);
  }

  lemma RoomyFits(w: World)
    requires Roomy(w)
    ensures Fits(Pending(w))
  {
    hide Pending;
    forall c
      ensures Counter(Pending(w), c) <= MAX_UINT64
    {
      assert Counter(Pending(w), c) + MAX_BATCH_SIZE <= MAX_UINT64;
    }
  }

  lemma CleanReduces(env: Env, cfg: Config, w: World, height: Uint64, from: int)
    requires Perfect(env) && Distinct(cfg.channels) && Roomy(w)
    requires Visible(w.store, cfg.channels, from) && from <= height < 0x8000_0000_0000_0000
    ensures Reduced(w, Clean(env, cfg, w, height).world, cfg.channels, 1)
  {
    hide Perfect, Clean, Pending, CountAt, ToInt64, TotalGap;
    SmallHeight(height);
    VisibleLater(w.store, cfg.channels, from, height);
    forall c | c in cfg.channels
      ensures Ready(w, c, height)
    {
      assert |Log(w.store, c)| + MAX_BATCH_SIZE <= MAX_UINT64;
    }
    RoomyFits(w);
    CleanupShrinksGaps(env, cfg, w, height);
    hide Gap;
    assert forall gap: nat :: Shrunk(gap) == Left(gap, 1);
  }

  /** An accepted package is one that was missing. */
  lemma ExecuteReduces(c: Contract, store: Store, tx: Tx, channel: Byte)
    requires tx.PackageTx? && tx.sequence < |Log(store, tx.channel)|
    ensures var before, after := Counter(c, channel), Counter(Execute(c, tx), channel);
            before <= after <= if |Log(store, channel)| > before then |Log(store, channel)| else before
  {
  }

  lemma FoundIsStored(store: Store, channel: Byte, sequence: Uint64, height: int)
    requires Lookup(store, channel, sequence, height) != []
    ensures sequence < |Log(store, channel)|
  {
    CountAtBound(Log(store, channel), height);
  }

  lemma OnePackageReduces(w: World, v: World, tx: Tx, channels: seq<Byte>)
    requires v.store == w.store && Pending(v) == Execute(Pending(w), tx)
    requires tx.PackageTx? && tx.sequence < |Log(w.store, tx.channel)|
    ensures Reduced(w, v, channels, 0)
  {
    hide Pending, Execute;
    forall c
      ensures Counter(Pending(w), c) <= Counter(Pending(v), c) <= Counter(Pending(w), c) + Gap(w, c)
    {
      ExecuteReduces(Pending(w), w.store, tx, c);
    }
  }

  lemma RelayReduces(env: Env, w: World, task: Task, height: Uint64, channels: seq<Byte>)
    requires Perfect(env)
    ensures Reduced(w, Relay(env, w, task, height).1, channels, 0)
  {
    assert Answering(env) && Alone(env);
    hide Answering, Alone, Pending, Relay, Execute, ConsecutiveNonces, Appended, ToInt64, Lookup, Reduced, ToByte, Add64;
    RelayAppended(env, w, task, height);
    RelayedExactly(env, w, task, height);
    var v := Relay(env, w, task, height).1;
    if v.sent != w.sent {
      FoundIsStored(w.store, ToByte(task.channel), task.sequence, ToInt64(height));
      var payload :|
        var tx := PackageTx(NextNonce(w), ToByte(task.channel), task.sequence, payload, Add64(height, 1));
        New(w, v) == [tx] && Pending(v) == Execute(Pending(w), tx);
      OnePackageReduces(w, v, New(w, v)[0], channels);
    } else {
      SameIsReduced(w, v, channels);
    }
  }

  lemma {:induction false} RelayAllReduces(env: Env, w: World, tasks: seq<Task>, height: Uint64, channels: seq<Byte>)
    requires Perfect(env)
    ensures Reduced(w, RelayAll(env, w, tasks, height), channels, 0)
  {
    hide Perfect, Relay, Reduced, Pending;
    if tasks == [] {
      SameIsReduced(w, w, channels);
    } else {
      var n := |tasks| - 1;
      var u := RelayAll(env, w, tasks[..n], height);
      RelayAllReduces(env, w, tasks[..n], height, channels);
      RelayReduces(env, u, tasks[n], height, channels);
      ReducedTransitive(w, u, Relay(env, u, tasks[n], height).1, channels, 0, 0);
    }
  }

  // One round.

  predicate IsCleanup(r: Round) {
    r.CaughtUp? || (r.BlockRead? && r.ending.Cleaned?)
  }

  /** From `d` to `e` one round was made, in which nothing failed. */
  ghost predicate Advances(cfg: Config, d: Daemon, e: Daemon) {
    && |e.rounds| == |d.rounds| + 1
    && var r := e.rounds[|d.rounds|];
    && e.rounds == d.rounds + [r] && !r.BlockFailed? && (r.BlockRead? ==> !r.ending.HeaderFailed?)
    && Reduced(d.world, e.world, cfg.channels, if IsCleanup(r) then 1 else 0)
  }

  lemma NormalEndingReduces(env: Env, cfg: Config, w: World, height: Uint64, due: bool, from: int)
    requires Perfect(env) && Distinct(cfg.channels) && Roomy(w)
    requires Visible(w.store, cfg.channels, from) && from <= height < 0x8000_0000_0000_0000
    ensures Reduced(w, NormalEnding(env, cfg, w, height, due).1, cfg.channels, if due then 1 else 0)
  {
    hide Perfect, Visible, Roomy, Pending, Clean;
    CleanReduces(env, cfg, w, height, from);
    SameIsReduced(w, w, cfg.channels);
  }

  lemma TipReduces(env: Env, w: World, channels: seq<Byte>)
    requires Perfect(env)
    ensures Reduced(w, LatestHeight(env, w).1, channels, 0)
  {
    hide Perfect, Reduced, Await;
    QueryReduces(env, w, channels);
  }

  lemma BlockReduces(env: Env, w: World, height: Uint64, channels: seq<Byte>)
    requires Perfect(env)
    ensures var (block, v) := QueryBlock(env, w, height); block.Some? && Reduced(w, v, channels, 0)
  {
    Answered(env, w);
    hide Perfect, Reduced, Await, VerdictOf;
    QueryReduces(env, w, channels);
  }

  /** The world after some calls that took no part in a cleanup. */
  lemma PrefixReduced(u: World, v: World, w: World, channels: seq<Byte>)
    requires Reduced(u, v, channels, 0) && Reduced(v, w, channels, 0) && Roomy(u)
    ensures Reduced(u, w, channels, 0) && Roomy(w) && w.store == u.store
  {
    hide Roomy;
    ReducedTransitive(u, v, w, channels, 0, 0);
    RoomyStays(u, w, channels, 0);
  }

  lemma SyncOrNot(env: Env, w: World, height: Uint64, headerSync: bool, channels: seq<Byte>)
    requires Perfect(env)
    ensures Reduced(w, if headerSync then SyncHeader(env, w, height).1 else w, channels, 0)
  {
    hide Perfect, SyncHeader, Pending, Reduced;
    SyncReduces(env, w, height, channels);
    SameIsReduced(w, w, channels);
  }

  lemma NormalAdvances(env: Env, cfg: Config, d: Daemon, from: int)
    requires cfg.Valid() && Perfect(env) && Distinct(cfg.channels) && Roomy(d.world)
    requires Visible(d.world.store, cfg.channels, from)
    requires var height := Accelerated(d, LatestHeight(env, d.world).0).0; from <= height < 0x8000_0000_0000_0000
    ensures Advances(cfg, d, NormalRound(env, cfg, d))
  {
    hide Perfect, Visible, Roomy, Reduced, LatestHeight, QueryBlock, SyncHeader, NormalEnding,
        Changed, Carry, Add64, Distinct;
    var (latest, w1) := LatestHeight(env, d.world);
    var (height, accelerate) := Accelerated(d, latest);
    var (block, w2) := QueryBlock(env, w1, height);
    TipReduces(env, d.world, cfg.channels);
    BlockReduces(env, w1, height, cfg.channels);
    PrefixReduced(d.world, w1, w2, cfg.channels);
    var headerSync := Changed(d.carried, block.value);
    SyncOrNot(env, w2, height, headerSync, cfg.channels);
    var w3 := if headerSync then SyncHeader(env, w2, height).1 else w2;
    PrefixReduced(d.world, w2, w3, cfg.channels);
    var due := accelerate || height % cfg.normalInterval == 0;
    NormalEndingReduces(env, cfg, w3, height, due, from);
    ReducedTransitive(d.world, w3, NormalEnding(env, cfg, w3, height, due).1, cfg.channels, 0, if due then 1 else 0);
  }

  lemma SameStore(w: World, v: World, channels: seq<Byte>, cleanups: nat)
    requires Reduced(w, v, channels, cleanups)
    ensures v.store == w.store
  {
  }

  lemma CompetitionEndingReduces(env: Env, cfg: Config, w: World, height: Uint64, tasks: seq<Task>, from: int)
    requires cfg.Valid() && Perfect(env) && Distinct(cfg.channels) && Roomy(w)
    requires Visible(w.store, cfg.channels, from) && from <= height < 0x8000_0000_0000_0000
    ensures var (ending, v) := CompetitionEnding(env, cfg, w, height, tasks);
            !ending.HeaderFailed? && Reduced(w, v, cfg.channels, if ending.Cleaned? then 1 else 0)
  {
    hide Perfect, Visible, Roomy, Pending, Clean, SyncHeader, RelayAll, Reduced;
    CleanReduces(env, cfg, w, height, from);
    SameIsReduced(w, w, cfg.channels);
    SyncReduces(env, w, Add64(height, 1), cfg.channels);
    var w1 := SyncHeader(env, w, Add64(height, 1)).1;
    RelayAllReduces(env, w1, tasks, height, cfg.channels);
    ReducedTransitive(w, w1, RelayAll(env, w1, tasks, height), cfg.channels, 0, 0);
  }

  lemma MonitorReduces(env: Env, w: World, height: Uint64, carried: Option<Bytes>, dest: Uint16, channels: seq<Byte>)
    requires Perfect(env)
    ensures var (seen, v) := MonitorPackages(env, w, height, carried, dest);
            seen.Seen? && Reduced(w, v, channels, 0)
  {
    Answered(env, w);
    Answered(env, Await(env, w));
    hide Perfect, Reduced, Await, VerdictOf, TasksOf;
    QueryReduces(env, w, channels);
    QueryReduces(env, Await(env, w), channels);
    ReducedTransitive(w, Await(env, w), Await(env, Await(env, w)), channels, 0, 0);
  }

  lemma ReadAdvances(env: Env, cfg: Config, d: Daemon, latest: Uint64, from: int)
    requires cfg.Valid() && Perfect(env) && Distinct(cfg.channels) && Roomy(d.world)
    requires Visible(d.world.store, cfg.channels, from) && from <= d.height < 0x8000_0000_0000_0000
    ensures Advances(cfg, d, ReadRound(env, cfg, d, latest))
  {
    hide Perfect, Visible, Roomy, Reduced, MonitorPackages, SyncHeader, CompetitionEnding, StartsWithMarker, Carry, Add64,
        Distinct;
    var (seen, w2) := MonitorPackages(env, d.world, d.height, d.carried, cfg.destChainID);
    MonitorReduces(env, d.world, d.height, d.carried, cfg.destChainID, cfg.channels);
    var headerSync := StartsWithMarker(seen.tasks);
    SyncOrNot(env, w2, d.height, headerSync, cfg.channels);
    var w3 := if headerSync then SyncHeader(env, w2, d.height).1 else w2;
    PrefixReduced(d.world, w2, w3, cfg.channels);
    CompetitionEndingReduces(env, cfg, w3, d.height, seen.tasks, from);
    var (ending, w4) := CompetitionEnding(env, cfg, w3, d.height, seen.tasks);
    ReducedTransitive(d.world, w3, w4, cfg.channels, 0, if ending.Cleaned? then 1 else 0);
  }

  lemma CatchUpAdvances(env: Env, cfg: Config, d: Daemon, latest: Uint64, from: int)
    requires cfg.Valid() && Perfect(env) && Distinct(cfg.channels) && Roomy(d.world)
    requires Visible(d.world.store, cfg.channels, from) && from <= Sub64(latest, 1) < 0x8000_0000_0000_0000
    ensures Advances(cfg, d, CatchUp(env, cfg, d, latest))
  {
    hide Perfect, Visible, Roomy, Reduced, Clean, Add64, Sub64, Distinct;
    CleanReduces(env, cfg, d.world, Sub64(latest, 1), from);
  }

  lemma AdvancesAfter(cfg: Config, d: Daemon, w: World, e: Daemon)
    requires Reduced(d.world, w, cfg.channels, 0) && Advances(cfg, d.(world := w), e)
    ensures Advances(cfg, d, e)
  {
    hide Reduced;
    var k := if IsCleanup(e.rounds[|d.rounds|]) then 1 else 0;
    ReducedTransitive(d.world, w, e.world, cfg.channels, 0, k);
  }

  lemma CompetitionAdvances(env: Env, cfg: Config, d: Daemon, from: int)
    requires cfg.Valid() && Perfect(env) && Distinct(cfg.channels) && Roomy(d.world)
    requires Visible(d.world.store, cfg.channels, from) && from <= d.height < 0x8000_0000_0000_0000
    requires var latest := LatestHeight(env, d.world).0;
             && 1 <= latest <= 0x8000_0000_0000_0000 && d.height + cfg.behindBlockThreshold <= MAX_UINT64
    ensures Advances(cfg, d, CompetitionRound(env, cfg, d))
  {
    HeightArithmetic(LatestHeight(env, d.world).0, d.height, cfg.behindBlockThreshold);
    hide Perfect, Visible, Roomy, Reduced, LatestHeight, ReadRound, CatchUp, Advances, Add64, Sub64, Distinct;
    var (latest, w1) := LatestHeight(env, d.world);
    TipReduces(env, d.world, cfg.channels);
    RoomyStays(d.world, w1, cfg.channels, 0);
    SameStore(d.world, w1, cfg.channels, 0);
    if Sub64(latest, 1) > Add64(d.height, cfg.behindBlockThreshold) {
      CatchUpAdvances(env, cfg, d.(world := w1), latest, from);
    } else {
      ReadAdvances(env, cfg, d.(world := w1), latest, from);
    }
    AdvancesAfter(cfg, d, w1, CompetitionRound(env, cfg, d));
  }

  // How often a daemon cleans up.

  function CleanupCount(rounds: seq<Round>): nat {
    if rounds == [] then 0
    else
      var n := |rounds| - 1;
      CleanupCount(rounds[..n]) + if IsCleanup(rounds[n]) then 1 else 0
  }

  /** The rounds since the last cleanup. */
  function Idle(rounds: seq<Round>): nat {
    if rounds == [] then 0
    else
      var n := |rounds| - 1;
      if IsCleanup(rounds[n]) then 0 else Idle(rounds[..n]) + 1
  }

  /** No multiple of the interval among the `idle` heights before `height`. */
  ghost predicate Quiet(interval: nat, height: nat, idle: nat) {
    idle <= height && forall m: nat :: height - idle <= m < height ==> !Multiple(m, interval)
  }

  lemma QuietIsShort(interval: nat, height: nat, idle: nat)
    requires interval > 0 && Quiet(interval, height, idle)
    ensures idle < interval
  {
    if idle >= interval {
      if height == idle {
        assert Multiple(0, interval);
      } else {
        var m := NextMultiple(height - idle - 1, interval);
      }
    }
  }

  /** How far a run has come: at most `interval` rounds for each cleanup, and the gaps shrank accordingly. */
  ghost predicate Paced(cfg: Config, interval: nat, s: Daemon, d: Daemon) {
    && Reduced(s.world, d.world, cfg.channels, CleanupCount(d.rounds))
    && s.height <= d.height
    && Quiet(interval, d.height, Idle(d.rounds))
    && |d.rounds| <= CleanupCount(d.rounds) * interval + Idle(d.rounds)
  }

  lemma PacedStep(cfg: Config, interval: nat, s: Daemon, d: Daemon, e: Daemon)
    requires interval > 0 && Paced(cfg, interval, s, d) && Advances(cfg, d, e)
    requires d.height <= e.height
    requires !IsCleanup(e.rounds[|d.rounds|]) ==> e.height == d.height + 1 && !Multiple(d.height, interval)
    ensures Paced(cfg, interval, s, e)
  {
    hide Reduced, Multiple;
    var r := e.rounds[|d.rounds|];
    var k, idle := CleanupCount(d.rounds), Idle(d.rounds);
    assert e.rounds[..|d.rounds|] == d.rounds;
    QuietIsShort(interval, d.height, idle);
    ReducedTransitive(s.world, d.world, e.world, cfg.channels, k, if IsCleanup(r) then 1 else 0);
    if IsCleanup(r) {
      assert (k + 1) * interval == k * interval + interval;
    }
  }

  lemma NothingPaced(cfg: Config, interval: nat, s: Daemon)
    requires s.rounds == []
    ensures Paced(cfg, interval, s, s)
  {
    hide Pending, Reduced;
    SameIsReduced(s.world, s.world, cfg.channels);
  }

  /** Enough rounds at that pace close every listed gap. */
  lemma PacedCloses(cfg: Config, interval: nat, s: Daemon, d: Daemon, maxgap: nat)
    requires interval > 0 && Paced(cfg, interval, s, d) && |d.rounds| >= ((maxgap + 29) / 30) * interval
    requires forall c :: c in cfg.channels ==> Gap(s.world, c) <= maxgap
    ensures forall c :: c in cfg.channels ==> Gap(d.world, c) == 0
  {
    hide Gap;
    var k, enough := CleanupCount(d.rounds), (maxgap + 29) / 30;
    QuietIsShort(interval, d.height, Idle(d.rounds));
    ProductsApart(k, enough, interval);
    assert k >= enough;
  }

  /** A run that can start: the packages are visible, and counters have room. */
  ghost predicate Startable(cfg: Config, s: Daemon) {
    && s.rounds == [] && Roomy(s.world) && Visible(s.world.store, cfg.channels, s.height)
    && s.height + HEIGHT_BEHIND_THRESHOLD < 0x8000_0000_0000_0000
  }

  // Normal mode.

  /** The round worked at a height that is an int64, with room for the threshold. */
  predicate Modest(r: Round) {
    r.height + HEIGHT_BEHIND_THRESHOLD < 0x8000_0000_0000_0000
  }

  lemma NormalPaces(env: Env, cfg: Config, s: Daemon, d: Daemon)
    requires cfg.Valid() && Perfect(env) && Distinct(cfg.channels) && Startable(cfg, s)
    requires Paced(cfg, cfg.normalInterval, s, d) && d.height + HEIGHT_BEHIND_THRESHOLD <= MAX_UINT64
    requires var e := NormalRound(env, cfg, d); |e.rounds| == |d.rounds| + 1 ==> Modest(e.rounds[|d.rounds|])
    ensures var e := NormalRound(env, cfg, d);
            && Paced(cfg, cfg.normalInterval, s, e) && |e.rounds| == |d.rounds| + 1 && d.rounds <= e.rounds
            && e.height + HEIGHT_BEHIND_THRESHOLD <= MAX_UINT64
  {
    hide Perfect, Visible, Roomy, Reduced, Quiet, LatestHeight, NormalRound;
    var e := NormalRound(env, cfg, d);
    NormalHeight(env, cfg, d);
    LatestIsRecorded(env, cfg, d);
    PlainSum(d.height, HEIGHT_BEHIND_THRESHOLD);
    RoomyStays(s.world, d.world, cfg.channels, CleanupCount(d.rounds));
    SameStore(s.world, d.world, cfg.channels, CleanupCount(d.rounds));
    NormalAdvances(env, cfg, d, s.height);
    PacedStep(cfg, cfg.normalInterval, s, d, e);
  }

  lemma StartIs(cfg: Config, s: Daemon)
    requires Startable(cfg, s)
    ensures s.rounds == [] && s.height + HEIGHT_BEHIND_THRESHOLD < 0x8000_0000_0000_0000
  {
  }

  lemma NormalHistory(env: Env, cfg: Config, d: Daemon)
    requires cfg.Valid()
    ensures var e := NormalRound(env, cfg, d);
            |e.rounds| == |d.rounds| + 1 && e.rounds == d.rounds + [e.rounds[|d.rounds|]]
  {
    hide NormalRound, Runs.Kept;
    NormalRecorded(env, cfg, d);
  }

  lemma {:induction false} NormalRunPaces(env: Env, cfg: Config, s: Daemon, n: nat)
    requires cfg.Valid() && Perfect(env) && Distinct(cfg.channels) && Startable(cfg, s)
    requires forall r :: r in NormalRun(env, cfg, s, n).rounds ==> Modest(r)
    ensures var d := NormalRun(env, cfg, s, n);
            && Paced(cfg, cfg.normalInterval, s, d) && |d.rounds| == n
            && d.height + HEIGHT_BEHIND_THRESHOLD <= MAX_UINT64
  {
    hide Perfect, Startable, Paced, NormalRound, Modest;
    if n == 0 {
      StartIs(cfg, s);
      NothingPaced(cfg, cfg.normalInterval, s);
    } else {
      var d := NormalRun(env, cfg, s, n - 1);
      var e := NormalRound(env, cfg, d);
      NormalHistory(env, cfg, d);
      assert forall r :: r in d.rounds ==> r in e.rounds;
      NormalRunPaces(env, cfg, s, n - 1);
      assert e.rounds[|d.rounds|] in e.rounds;
      NormalPaces(env, cfg, s, d);
    }
  }

  /** Normal mode: with a listed gap of at most maxgap, ceil(maxgap / 30) intervals of rounds submit everything. */
  lemma NormalDelivers(env: Env, cfg: Config, s: Daemon, n: nat, maxgap: nat)
    requires cfg.Valid() && Perfect(env) && Distinct(cfg.channels) && Startable(cfg, s)
    requires forall r :: r in NormalRun(env, cfg, s, n).rounds ==> Modest(r)
    requires forall c :: c in cfg.channels ==> Gap(s.world, c) <= maxgap
    requires n >= ((maxgap + 29) / 30) * cfg.normalInterval
    ensures forall c :: c in cfg.channels ==> Gap(NormalRun(env, cfg, s, n).world, c) == 0
  {
    hide Perfect, Startable, Paced, NormalRun, Modest, Gap;
    NormalRunPaces(env, cfg, s, n);
    PacedCloses(cfg, cfg.normalInterval, s, NormalRun(env, cfg, s, n), maxgap);
  }

  // Competition mode.

  /** The latest height was not 0, and heights are int64 values with room for the threshold. */
  predicate Sound(cfg: Config, r: Round) {
    && 1 <= r.latest < 0x8000_0000_0000_0000
    && r.height < 0x8000_0000_0000_0000 && r.height + cfg.behindBlockThreshold <= MAX_UINT64
  }

  lemma CompetitionPaces(env: Env, cfg: Config, s: Daemon, d: Daemon)
    requires cfg.Valid() && Perfect(env) && Distinct(cfg.channels) && Startable(cfg, s)
    requires Paced(cfg, cfg.competitionInterval, s, d)
    requires 1 <= LatestHeight(env, d.world).0 < 0x8000_0000_0000_0000 && d.height < 0x8000_0000_0000_0000
    requires d.height + cfg.behindBlockThreshold <= MAX_UINT64
    ensures var e := CompetitionRound(env, cfg, d);
            Paced(cfg, cfg.competitionInterval, s, e) && |e.rounds| == |d.rounds| + 1 && d.rounds <= e.rounds
  {
    hide Perfect, Visible, Roomy, Reduced, Quiet, LatestHeight, CompetitionRound, Stretch, NoMarkers, Since, EventTasks,
        TasksOf, HeaderSent, Add64, Sub64;
    var e := CompetitionRound(env, cfg, d);
    CompetitionHeight(env, cfg, d);
    CompetitionRecorded(env, cfg, d);
    HeightArithmetic(LatestHeight(env, d.world).0, d.height, cfg.behindBlockThreshold);
    RoomyStays(s.world, d.world, cfg.channels, CleanupCount(d.rounds));
    SameStore(s.world, d.world, cfg.channels, CleanupCount(d.rounds));
    CompetitionAdvances(env, cfg, d, s.height);
    PacedStep(cfg, cfg.competitionInterval, s, d, e);
  }

  lemma CompetitionHistory(env: Env, cfg: Config, d: Daemon)
    requires cfg.Valid()
    ensures var e := CompetitionRound(env, cfg, d);
            && |e.rounds| == |d.rounds| + 1 && e.rounds == d.rounds + [e.rounds[|d.rounds|]]
            && e.rounds[|d.rounds|].height == d.height
            && e.rounds[|d.rounds|].latest == LatestHeight(env, d.world).0
  {
    hide CompetitionRound, NoMarkers, LatestHeight;
    CompetitionHeight(env, cfg, d);
  }

  lemma {:induction false} CompetitionRunPaces(env: Env, cfg: Config, s: Daemon, n: nat)
    requires cfg.Valid() && Perfect(env) && Distinct(cfg.channels) && Startable(cfg, s)
    requires forall r :: r in CompetitionRun(env, cfg, s, n).rounds ==> Sound(cfg, r)
    ensures var d := CompetitionRun(env, cfg, s, n); Paced(cfg, cfg.competitionInterval, s, d) && |d.rounds| == n
  {
    hide Perfect, Startable, Paced, CompetitionRound, LatestHeight;
    if n == 0 {
      StartIs(cfg, s);
      NothingPaced(cfg, cfg.competitionInterval, s);
    } else {
      var d := CompetitionRun(env, cfg, s, n - 1);
      var e := CompetitionRound(env, cfg, d);
      CompetitionHistory(env, cfg, d);
      assert forall r :: r in d.rounds ==> r in e.rounds;
      CompetitionRunPaces(env, cfg, s, n - 1);
      assert CompetitionRun(env, cfg, s, n) == e && e.rounds[|d.rounds|] in e.rounds;
      assert Sound(cfg, e.rounds[|d.rounds|]);
      CompetitionPaces(env, cfg, s, d);
    }
  }

  /** Competition mode: the same, with its own interval. */
  lemma CompetitionDelivers(env: Env, cfg: Config, s: Daemon, n: nat, maxgap: nat)
    requires cfg.Valid() && Perfect(env) && Distinct(cfg.channels) && Startable(cfg, s)
    requires forall r :: r in CompetitionRun(env, cfg, s, n).rounds ==> Sound(cfg, r)
    requires forall c :: c in cfg.channels ==> Gap(s.world, c) <= maxgap
    requires n >= ((maxgap + 29) / 30) * cfg.competitionInterval
    ensures forall c :: c in cfg.channels ==> Gap(CompetitionRun(env, cfg, s, n).world, c) == 0
  {
    hide Perfect, Startable, Paced, CompetitionRun, Sound, Gap;
    CompetitionRunPaces(env, cfg, s, n);
    PacedCloses(cfg, cfg.competitionInterval, s, CompetitionRun(env, cfg, s, n), maxgap);
  }
}
