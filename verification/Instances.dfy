/** Inputs on which the relayer does less than it seems to: one concrete case for each general condition. */
module Instances {
  import opened Machine
  import opened Events
  import opened Chains
  import opened Executors
  import opened Cleanup
  import opened Safety
  import opened Delivery
  import opened Convergence
  import opened Daemons
  import opened Coverage
  import opened Progress
  import Calls
  import opened ConsensusStates

  const CONFIG := Config([0], 0, 100, 10, 5, 5)

  /** Nothing moves, and every call ends the same way. */
  function Uniform(verdict: Verdict, block: Block): Env {
    Env(_ => Answer([], verdict), _ => block, _ => [])
  }

  /** Nothing was sent or delivered so far; the latest block is 1. */
  function Fresh(store: Store): World {
    World(1, store, Contract(map[], {}), [], 0, [], [], 0, 0)
  }

  // A cleanup does not deliver everything.

  function Backlog(n: nat): seq<StoredPackage> {
    seq(n, _ => StoredPackage([1], 1))
  }

  lemma {:induction false} BacklogIsVisible(n: nat)
    ensures CountAt(Backlog(n), 1) == n
  {
    if n == 0 {
    } else {
      assert Backlog(n)[1..] == Backlog(n - 1);
      BacklogIsVisible(n - 1);
    }
  }

  lemma BacklogIsReady(n: nat)
    requires n <= 100
    ensures var w := Fresh(map[0 := Backlog(n)]);
            Ready(w, 0, 1) && Gap(w, 0) == n && Pending(w) == w.contract && Fits(w.contract)
  {
    BacklogIsVisible(n);
    assert ToInt64(1) == 1;
    hide CountAt;
  }

  /** Of 31 packages one is left, though no call fails. */
  lemma ThirtyFirstIsLeft()
    ensures var w := Fresh(map[0 := Backlog(31)]);
            var out := Clean(Uniform(Fine, Block([], [], [])), CONFIG, w, 1);
            Gap(w, 0) == 31 && out.ok && Gap(out.world, 0) == 1
  {
    var w := Fresh(map[0 := Backlog(31)]);
    BacklogIsReady(31);
    hide Clean, Ready, Gap, TotalGap, Pending, Fits, Fresh, Backlog;
    assert 0 in CONFIG.channels;
    assert Perfect(Uniform(Fine, Block([], [], [])));
    CleanupShrinksGaps(Uniform(Fine, Block([], [], [])), CONFIG, w, 1);
  }

  lemma BacklogStarts(cfg: Config)
    requires cfg.channels == [0]
    ensures var s := Daemon(1, None, false, Fresh(map[0 := Backlog(30)]), []);
            Startable(cfg, s) && Gap(s.world, 0) == 30
  {
    var w := Fresh(map[0 := Backlog(30)]);
    BacklogIsReady(30);
    BacklogIsVisible(30);
    assert forall c :: c != 0 ==> Log(w.store, c) == [];
    assert forall c :: Counter(w.contract, c) == 0;
    hide CountAt, Pending, Backlog;
  }

  lemma TipIsOne(env: Env, w: World)
    requires env == Uniform(Fine, Block([], [], [])) && w.tip == 1
    ensures LatestHeight(env, w).0 == 1
  {
    assert ToUint64(1) == 1;
  }

  lemma OneRoundDelivers(env: Env, cfg: Config, s: Daemon)
    requires cfg.Valid() && Perfect(env) && Distinct(cfg.channels) && Startable(cfg, s)
    requires cfg.normalInterval == 1 && LatestHeight(env, s.world).0 <= s.height + HEIGHT_BEHIND_THRESHOLD
    requires forall c :: c in cfg.channels ==> Gap(s.world, c) <= 30
    ensures forall c :: c in cfg.channels ==> Gap(NormalRun(env, cfg, s, 1).world, c) == 0
  {
    hide NormalRound, Gap, LatestHeight, Multiple, Perfect, Progress.Visible, Roomy;
    assert NormalRun(env, cfg, s, 1) == NormalRound(env, cfg, NormalRun(env, cfg, s, 0));
    NormalHeight(env, cfg, s);
    LatestIsRecorded(env, cfg, s);
    NormalHistory(env, cfg, s);
    hide Startable;
    NormalDelivers(env, cfg, s, 1, 30);
  }

  /** With a cleanup at every height, one round of the normal daemon submits thirty packages. */
  lemma ThirtyInOneRound()
    ensures var env := Uniform(Fine, Block([], [], []));
            var s := Daemon(1, None, false, Fresh(map[0 := Backlog(30)]), []);
            Gap(s.world, 0) == 30 && Gap(NormalRun(env, CONFIG.(normalInterval := 1), s, 1).world, 0) == 0
  {
    var env := Uniform(Fine, Block([], [], []));
    var cfg := CONFIG.(normalInterval := 1);
    var s := Daemon(1, None, false, Fresh(map[0 := Backlog(30)]), []);
    assert Perfect(env);
    hide Startable, Gap, Backlog, LatestHeight, NormalRun, Perfect;
    BacklogStarts(cfg);
    TipIsOne(env, s.world);
    OneRoundDelivers(env, cfg, s);
    assert 0 in cfg.channels;
  }

  /** With a threshold of 100, a cleanup sets the flag from 50 undelivered packages on. */
  lemma FiftyBehindAccelerates(n: nat)
    requires n <= 100
    ensures var w := Fresh(map[0 := Backlog(n)]);
            NormalEnding(Uniform(Fine, Block([], [], [])), CONFIG, w, 1, true).0 <==> n >= 50
  {
    var env, w := Uniform(Fine, Block([], [], [])), Fresh(map[0 := Backlog(n)]);
    var w0 := Note(w, CleanupAt(1));
    BacklogIsReady(n);
    assert Perfect(env) && Pending(w0) == Pending(w);
    ReadBoth(env, w0, 0, 1);
    assert !Calls.Fails(env, w0, 0) && !Calls.Fails(env, w0, 1);
    hide CleanFrom, Backlog, Pending, CountAt, Perfect, QueryBbcCounter, QueryBscCounter, Visit, Await;
    Calls.CleanStopsAtFailure(env, CONFIG, w0, 1, [0], false);
    AccelerateExactly(env, CONFIG, w0, 1, [0], false);
  }

  // The height of the competition daemon falls.

  lemma FailedQueryDropsHeight()
    ensures var d := Daemon(5, None, false, Fresh(map[]), []);
            CompetitionRound(Uniform(Failed, Block([], [], [])), CONFIG, d).height == 0
  {
    hide CompetitionRound;
    HeightFallsExactly(Uniform(Failed, Block([], [], [])), CONFIG, Daemon(5, None, false, Fresh(map[]), []));
  }

  // The header-sync marker becomes a transaction.

  lemma {:induction false} RelayAllGoesOn(env: Env, w: World, tasks: seq<Task>, height: Uint64, k: nat)
    requires k <= |tasks|
    ensures Follows(RelayAll(env, w, tasks[..k], height), RelayAll(env, w, tasks, height))
  {
    hide Follows, Relay;
    var n := |tasks| - 1;
    var u := RelayAll(env, w, tasks[..k], height);
    if k == |tasks| {
      assert tasks[..k] == tasks;
      NothingBatched(u, 0, 0, 0, 0);
    } else {
      assert tasks[..n][..k] == tasks[..k];
      RelayAllGoesOn(env, w, tasks[..n], height, k);
      var v := RelayAll(env, w, tasks[..n], height);
      RelayKeeps(env, v, tasks[n], height);
      FollowsTransitive(u, v, RelayAll(env, w, tasks, height));
    }
  }

  ghost predicate MarkerSent(w: World) {
    exists tx :: tx in w.sent && tx.PackageTx? && tx.channel == ToByte(MARKER.channel)
  }

  /** Relaying a list that starts with the marker, when a package 0 is stored on channel byte 255. */
  lemma MarkerIsRelayed(env: Env, w: World, tasks: seq<Task>, height: Uint64)
    requires Answering(env) && tasks != [] && tasks[0] == MARKER
    requires Lookup(w.store, 255, 0, ToInt64(height)) != []
    ensures MarkerSent(RelayAll(env, w, tasks, height))
  {
    hide Answering, Relay, Lookup, Follows;
    var first := RelayAll(env, w, tasks[..1], height);
    assert tasks[..1][..0] == [] && ToByte(-1) == 255;
    assert first == Relay(env, RelayAll(env, w, [], height), MARKER, height).1;
    RelayedExactly(env, w, MARKER, height);
    assert first.sent[|first.sent| - 1] in first.sent;
    RelayAllGoesOn(env, w, tasks, height, 1);
    FollowsGrows(first, RelayAll(env, w, tasks, height));
  }

  /** A block with a new validator set and one package for chain 0. */
  const CHANGED_BLOCK :=
    Block([2], [2], [Event(PACKAGE_EVENT, [Attribute(PACKAGE_INFO, PrintInfo(0, 0, 0))])])

  lemma ChangedBlockTasks()
    ensures var tasks := TasksOf(Some([1]), CHANGED_BLOCK, 0); |tasks| > 1 && tasks[0] == MARKER
  {
    hide PrintInfo;
    var e := CHANGED_BLOCK.events[0];
    assert e in CHANGED_BLOCK.events && e.attributes[0] in e.attributes;
    PrintedPackageIsFound(CHANGED_BLOCK.events, e, 0, 0, 0);
  }

  lemma MarkerEnding(env: Env, w: World, tasks: seq<Task>)
    requires Answering(env) && |tasks| > 1 && tasks[0] == MARKER
    requires Lookup(w.store, 255, 0, 1) != []
    ensures MarkerSent(CompetitionEnding(env, CONFIG, w, 1, tasks).1)
  {
    hide SyncHeader, RelayAll, Answering, Lookup;
    assert Add64(1, 1) == 2 && ToInt64(1) == 1;
    SyncSucceeds(env, w, 2);
    MarkerIsRelayed(env, SyncHeader(env, w, 2).1, tasks, 1);
  }

  lemma SameTip(env: Env, w: World)
    requires env == Uniform(Fine, CHANGED_BLOCK) && w.tip == 1
    ensures LatestHeight(env, w) == (1, Await(env, w))
  {
    hide CHANGED_BLOCK;
    assert ToUint64(1) == 1;
  }

  /** One round of the competition daemon, with a package 0 stored on channel byte 255. */
  lemma MarkerRound()
    ensures var d := Daemon(1, Some([1]), false, Fresh(map[255 := [StoredPackage([7], 1)]]), []);
            MarkerSent(CompetitionRound(Uniform(Fine, CHANGED_BLOCK), CONFIG, d).world)
  {
    var env := Uniform(Fine, CHANGED_BLOCK);
    var w := Fresh(map[255 := [StoredPackage([7], 1)]]);
    assert Answering(env);
    ChangedBlockTasks();
    var tasks := TasksOf(Some([1]), CHANGED_BLOCK, 0);
    assert CountAt([StoredPackage([7], 1)], 1) == 1 + CountAt([], 1);
    assert Lookup(w.store, 255, 0, 1) == [7];
    hide TasksOf, CHANGED_BLOCK, SyncHeader, CompetitionEnding, Await, Lookup, MarkerSent;
    var w1 := Await(env, w);
    var w2 := Await(env, Await(env, w1));
    Answered(env, w);
    Answered(env, w1);
    Answered(env, Await(env, w1));
    assert LatestHeight(env, w) == (1, w1) by { SameTip(env, w); }
    assert Sub64(1, 1) == 0 && Add64(1, 10) == 11;
    assert MonitorPackages(env, w1, 1, Some([1]), 0) == (Seen(CHANGED_BLOCK, tasks), w2);
    SyncSucceeds(env, w2, 1);
    MarkerEnding(env, SyncHeader(env, w2, 1).1, tasks);
  }

  // After a failed relay the next one on its channel is rejected.

  /** Only the first call fails. */
  const STUMBLE := Env((t: nat) => Answer([], if t == 0 then Failed else Fine), _ => Block([], [], []), _ => [])

  lemma Stumbles(w: World)
    ensures Await(STUMBLE, w) == w.(tick := w.tick + 1)
    ensures VerdictOf(STUMBLE, w) == if w.tick == 0 then Failed else Fine
  {
  }

  lemma FirstRelayFails(w: World, task: Task)
    requires w.tick == 0
    ensures Relay(STUMBLE, w, task, 1).1 == Note(w, RelayAt(1, task)).(tick := 1)
  {
    hide Await, VerdictOf, STUMBLE, Lookup;
    Stumbles(Note(w, RelayAt(1, task)));
  }

  lemma SecondRelayIsSent(w: World)
    requires w.tick > 0 && w.pool == [] && w.mined == 0 && Lookup(w.store, 0, 1, 1) == [1]
    ensures var v := Relay(STUMBLE, w, Task(0, 1), 1).1;
            v.pool == [PackageTx(0, 0, 1, [1], 2)] && v.contract == w.contract
  {
    hide Await, VerdictOf, STUMBLE, Lookup;
    assert ToByte(0) == 0 && ToInt64(1) == 1 && Add64(1, 1) == 2 && ToUint64(0) == 0;
    var w0 := Note(w, RelayAt(1, Task(0, 1)));
    Stumbles(w0);
    Stumbles(w0.(tick := w.tick + 1));
    Stumbles(w0.(tick := w.tick + 2));
    assert FetchPackage(STUMBLE, w0, 0, 1, 1, MAX_TRY_TIMES) == (Some([1]), w0.(tick := w.tick + 1));
  }

  /** Two packages in sequence, of which only the second is submitted, and not accepted. */
  lemma SecondRelayIsRejected()
    ensures var w := Fresh(map[0 := Backlog(2)]).(contract := Contract(map[], {2}));
            var v := RelayAll(STUMBLE, w, [Task(0, 0), Task(0, 1)], 1);
            v.pool == [PackageTx(0, 0, 1, [1], 2)] && !Accepts(v.contract, v.pool[0])
  {
    var w := Fresh(map[0 := Backlog(2)]).(contract := Contract(map[], {2}));
    var tasks := [Task(0, 0), Task(0, 1)];
    BacklogIsVisible(2);
    assert Lookup(w.store, 0, 1, 1) == [1];
    assert tasks[..1] == [Task(0, 0)] && tasks[..1][..0] == [];
    hide Lookup, Relay, CountAt, STUMBLE;
    FirstRelayFails(w, tasks[0]);
    SecondRelayIsSent(Relay(STUMBLE, w, tasks[0], 1).1);
  }

  // A change of the validator set goes unnoticed.

  /** Only call number 1 fails; every block has validators [2] and announces [3]. */
  const HICCUP := Env((t: nat) => Answer([], if t == 1 then Failed else Fine), _ => Block([2], [3], []), _ => [])

  /** Round 0 fails to read block 1; round 1 reads it, with a hash that differs twice, and attempts nothing. */
  lemma ChangeGoesUnnoticed()
    ensures var d := Daemon(1, Some([1]), false, Fresh(map[]), []);
            var e := NormalRun(HICCUP, CONFIG, d, 2);
            && |e.rounds| == 2 && e.rounds[0].BlockFailed? && e.rounds[1].BlockRead? && e.rounds[1].height == 1
            && Changed(Some([1]), e.rounds[1].block) && e.world.attempts == []
  {
    hide Clean, SyncHeader;
    var d0 := Daemon(1, Some([1]), false, Fresh(map[]), []);
    var d1 := NormalRound(HICCUP, CONFIG, d0);
    assert Add64(1, HEIGHT_BEHIND_THRESHOLD) == 11;
    assert d1.world == d0.world.(tick := 2) && d1.height == 1 && d1.carried == None && !d1.needAccelerate;
    assert |d1.rounds| == 1 && d1.rounds[0].BlockFailed?;
    var d2 := NormalRound(HICCUP, CONFIG, d1);
    assert NormalRun(HICCUP, CONFIG, d0, 1) == d1;
    assert NormalRun(HICCUP, CONFIG, d0, 2) == d2;
  }

  // Two consensus states share an encoding.

  lemma TrailingZeroIsLost()
    ensures var cs := ConsensusState([], 7, [], [], []);
            var other := cs.(chainID := [0]);
            cs != other && Encode(cs).Encoded? && Encode(cs) == Encode(other)
  {
    var cs := ConsensusState([], 7, [], [], []);
    var other := cs.(chainID := [0]);
    SizeCheckExactly(0);
    hide EncodeHead, EncodeValidators;
    assert StripZeros([0]) == StripZeros([]) by {
      assert [0][..0] == [];
    }
    EncodingCollidesExactly(cs, other);
  }
}
