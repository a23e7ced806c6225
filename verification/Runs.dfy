/** What holds after any number of rounds of either daemon, whatever the environment does. */
module Runs {
  import opened Machine
  import opened Events
  import opened Chains
  import opened Executors
  import opened Cleanup
  import opened Safety
  import opened Daemons

  /** The tasks relayed one by one at a height, in order. */
  function RelaysAt(attempts: seq<Attempt>, height: Uint64): seq<Task> {
    if attempts == [] then []
    else
      var n := |attempts| - 1;
      RelaysAt(attempts[..n], height) +
      if attempts[n].RelayAt? && attempts[n].height == height then [attempts[n].task] else []
  }

  /** The attempts made since `w`. */
  function Since(w: World, v: World): seq<Attempt> {
    if w.attempts <= v.attempts then v.attempts[|w.attempts|..] else []
  }

  lemma {:induction false} RelaysAtAppend(a: seq<Attempt>, b: seq<Attempt>, height: Uint64)
    ensures RelaysAt(a + b, height) == RelaysAt(a, height) + RelaysAt(b, height)
  {
    if b == [] {
      assert a + b == a;
    } else {
      var n := |b| - 1;
      RelaysAtAppend(a, b[..n], height);
      assert (a + b)[..|a + b| - 1] == a + b[..n] && (a + b)[|a + b| - 1] == b[n];
    }
  }

  lemma {:induction false} NoRelays(a: seq<Attempt>, height: Uint64)
    requires forall x :: x in a ==> !x.RelayAt?
    ensures RelaysAt(a, height) == []
  {
    if a == [] {
    } else {
      assert a[|a| - 1] in a;
      NoRelays(a[..|a| - 1], height);
    }
  }

  lemma SinceJoin(u: World, v: World, w: World)
    requires u.attempts <= v.attempts && v.attempts <= w.attempts
    ensures u.attempts <= w.attempts && Since(u, w) == Since(u, v) + Since(v, w)
    ensures w.attempts == u.attempts + Since(u, w)
  {
  }

  // Competition mode, one round.

  lemma {:induction false} RelayAllKeeps(env: Env, w: World, tasks: seq<Task>, height: Uint64)
    ensures var v := RelayAll(env, w, tasks, height);
            && Follows(w, v)
            && Since(w, v) == seq(|tasks|, i requires 0 <= i < |tasks| => RelayAt(height, tasks[i]))
  {
    hide Follows, Relay;
    NothingBatched(w, 0, 0, 0, 0);
    if tasks == [] {
    } else {
      var n := |tasks| - 1;
      var u := RelayAll(env, w, tasks[..n], height);
      RelayAllKeeps(env, w, tasks[..n], height);
      RelayKeeps(env, u, tasks[n], height);
      FollowsGrows(w, u);
      FollowsTransitive(w, u, Relay(env, u, tasks[n], height).1);
    }
  }

  lemma {:induction false} RelaysOfTasks(tasks: seq<Task>, height: Uint64, x: Uint64)
    ensures RelaysAt(seq(|tasks|, i requires 0 <= i < |tasks| => RelayAt(height, tasks[i])), x) == if x == height then tasks else []
  {
    if tasks == [] {
    } else {
      var n := |tasks| - 1;
      var all := seq(|tasks|, i requires 0 <= i < |tasks| => RelayAt(height, tasks[i]));
      RelaysOfTasks(tasks[..n], height, x);
      assert all[..n] == seq(n, i requires 0 <= i < n => RelayAt(height, tasks[..n][i]));
      assert tasks == tasks[..n] + [tasks[n]];
    }
  }

  /** What a stretch of a round does: it keeps safety, and attempts these things. */
  ghost predicate Stretch(w: World, v: World, relayed: seq<Task>, height: Uint64) {
    && Follows(w, v) && w.attempts <= v.attempts
    && forall x :: RelaysAt(Since(w, v), x) == if x == height then relayed else []
  }

  lemma StretchJoin(u: World, v: World, w: World, a: seq<Task>, b: seq<Task>, height: Uint64)
    requires Stretch(u, v, a, height) && Stretch(v, w, b, height)
    ensures Stretch(u, w, a + b, height) && Since(u, w) == Since(u, v) + Since(v, w)
  {
    FollowsTransitive(u, v, w);
    SinceJoin(u, v, w);
    forall x
      ensures RelaysAt(Since(u, w), x) == if x == height then a + b else []
    {
      RelaysAtAppend(Since(u, v), Since(v, w), x);
    }
  }

  lemma QuietStretch(w: World, v: World, height: Uint64)
    requires Follows(w, v) && forall x :: x in Since(w, v) ==> !x.RelayAt?
    ensures Stretch(w, v, [], height)
  {
    hide Follows;
    FollowsGrows(w, v);
    forall x
      ensures RelaysAt(Since(w, v), x) == []
    {
      NoRelays(Since(w, v), x);
    }
  }

  lemma CleanStretch(env: Env, cfg: Config, w: World, at: Uint64, height: Uint64)
    ensures var v := Clean(env, cfg, w, at).world;
            && Stretch(w, v, [], height) && CleanupAt(at) in Since(w, v)
            && (forall x :: x in Since(w, v) && x.CleanupAt? ==> x.height == at)
            && (HeaderAt(height) in Since(w, v) ==> height == Add64(at, 1))
  {
    hide Follows, Clean;
    CleanKeeps(env, cfg, w, at);
    var v := Clean(env, cfg, w, at).world;
    FollowsGrows(w, v);
    assert v.attempts[|w.attempts|] == Note(w, CleanupAt(at)).attempts[|w.attempts|] == CleanupAt(at);
    assert Since(w, v)[0] == CleanupAt(at);
    QuietStretch(w, v, height);
  }

  lemma QuietQuery(env: Env, w: World, height: Uint64)
    ensures Stretch(w, Await(env, w), [], height) && Since(w, Await(env, w)) == []
  {
    hide Follows, Await;
    QueryKeeps(env, w);
    QuietStretch(w, Await(env, w), height);
  }

  lemma MonitorStretch(env: Env, w: World, height: Uint64, carried: Option<Bytes>, dest: Uint16)
    ensures var v := MonitorPackages(env, w, height, carried, dest).1;
            Stretch(w, v, [], height) && Since(w, v) == []
  {
    hide Follows, Await, Stretch, Since;
    QuietQuery(env, w, height);
    QuietQuery(env, Await(env, w), height);
    StretchJoin(w, Await(env, w), Await(env, Await(env, w)), [], [], height);
  }

  lemma SyncStretch(env: Env, w: World, at: Uint64, height: Uint64)
    ensures var v := SyncHeader(env, w, at).1;
            Stretch(w, v, [], height) && Since(w, v) == [HeaderAt(at)]
  {
    hide Follows, SyncHeader;
    SyncHeaderKeeps(env, w, at);
    FollowsGrows(w, SyncHeader(env, w, at).1);
    QuietStretch(w, SyncHeader(env, w, at).1, height);
  }

  lemma RelayAllStretch(env: Env, w: World, tasks: seq<Task>, height: Uint64)
    ensures var v := RelayAll(env, w, tasks, height);
            && Stretch(w, v, tasks, height)
            && forall x :: x in Since(w, v) ==> x.RelayAt?
  {
    hide Follows, RelayAll;
    var v := RelayAll(env, w, tasks, height);
    RelayAllKeeps(env, w, tasks, height);
    FollowsGrows(w, v);
    forall x
      ensures RelaysAt(Since(w, v), x) == if x == height then tasks else []
    {
      RelaysOfTasks(tasks, height, x);
    }
  }

  /** A header transaction for this height was submitted in between. */
  ghost predicate HeaderSent(w: World, v: World, height: Uint64) {
    exists i :: |w.sent| <= i < |v.sent| && v.sent[i].HeaderTx? && v.sent[i].height == height
  }

  lemma SyncIsSent(env: Env, w: World, height: Uint64)
    ensures var (ok, v) := SyncHeader(env, w, height); ok ==> HeaderSent(w, v, height)
  {
    hide SyncHeader, Follows;
    SyncHeaderKeeps(env, w, height);
    var (ok, v) := SyncHeader(env, w, height);
    if ok {
      assert v.sent[|w.sent|].HeaderTx? && v.sent[|w.sent|].height == height;
    }
  }

  lemma HeaderStaysSent(u: World, v: World, w: World, x: World, height: Uint64)
    requires HeaderSent(v, w, height) && u.sent <= v.sent && w.sent <= x.sent
    ensures HeaderSent(u, x, height)
  {
    var i :| |v.sent| <= i < |w.sent| && w.sent[i].HeaderTx? && w.sent[i].height == height;
    assert x.sent[i] == w.sent[i];
  }

  /** How a round goes on after its block was read, and what it attempts and submits for that. */
  ghost predicate Ended(cfg: Config, w: World, v: World, height: Uint64, tasks: seq<Task>, ending: Ending)
    requires cfg.Valid()
  {
    && (ending.Cleaned? <==> height % cfg.competitionInterval == 0)
    && (ending.Skipped? <==> !ending.Cleaned? && (tasks == [] || (|tasks| == 1 && tasks[0].channel == -1)))
    && (ending.Cleaned? ==> CleanupAt(height) in Since(w, v))
    && (ending.Relayed? || ending.HeaderFailed? ==> HeaderAt(Add64(height, 1)) in Since(w, v))
    && (ending.Relayed? ==> HeaderSent(w, v, Add64(height, 1)))
  }

  lemma RelayedStaySent(w: World, u: World, v: World, tasks: seq<Task>, height: Uint64)
    requires Stretch(u, v, tasks, height)
    ensures HeaderSent(w, u, Add64(height, 1)) ==> HeaderSent(w, v, Add64(height, 1))
  {
    if HeaderSent(w, u, Add64(height, 1)) {
      HeaderStaysSent(w, w, u, v, Add64(height, 1));
    }
  }

  lemma NotNext(height: Uint64)
    ensures Add64(height, 1) != height
  {
  }

  lemma IdleStretch(w: World, height: Uint64)
    ensures Stretch(w, w, [], height) && Since(w, w) == []
  {
    NothingBatched(w, 0, 0, 0, 0);
  }

  /** What the last part of a competition round attempts. */
  lemma EndingStretch(env: Env, cfg: Config, w: World, height: Uint64, tasks: seq<Task>)
    requires cfg.Valid()
    ensures var (ending, v) := CompetitionEnding(env, cfg, w, height, tasks);
            && Stretch(w, v, if ending.Relayed? then tasks else [], height)
            && Ended(cfg, w, v, height, tasks, ending)
            && HeaderAt(height) !in Since(w, v)
  {
    hide Follows, Stretch, Clean, SyncHeader, RelayAll, Since, HeaderSent;
    NotNext(height);
    if height % cfg.competitionInterval == 0 {
      CleanStretch(env, cfg, w, height, height);
    } else if tasks == [] || (|tasks| == 1 && tasks[0].channel == -1) {
      IdleStretch(w, height);
    } else {
      var (ok, w1) := SyncHeader(env, w, Add64(height, 1));
      SyncStretch(env, w, Add64(height, 1), height);
      SyncIsSent(env, w, Add64(height, 1));
      if ok {
        RelayAllStretch(env, w1, tasks, height);
        RelayedStaySent(w, w1, RelayAll(env, w1, tasks, height), tasks, height);
        StretchJoin(w, w1, RelayAll(env, w1, tasks, height), [], tasks, height);
        assert [] + tasks == tasks;
      }
    }
  }

  /** The record of a competition round against what the round attempted. */
  ghost predicate Recorded(cfg: Config, d: Daemon, e: Daemon, r: Round)
    requires cfg.Valid()
  {
    && e.rounds == d.rounds + [r]
    && Stretch(d.world, e.world, if r.BlockRead? && r.ending.Relayed? then r.tasks else [], r.height)
    && (r.CaughtUp? ==> CleanupAt(Sub64(r.latest, 1)) in Since(d.world, e.world))
    && (r.BlockRead? ==> (r.headerSync <==> HeaderAt(r.height) in Since(d.world, e.world)))
    && (r.BlockRead? ==>
          && r.tasks == TasksOf(d.carried, r.block, cfg.destChainID)
          && (r.ending.Skipped? <==> !r.ending.Cleaned? && EventTasks(r.block.events, cfg.destChainID) == [])
          && Ended(cfg, d.world, e.world, r.height, r.tasks, r.ending))
  }

  lemma EndedAfter(cfg: Config, u: World, w: World, v: World, none: seq<Task>, relayed: seq<Task>, height: Uint64,
      tasks: seq<Task>, ending: Ending)
    requires cfg.Valid() && Stretch(u, w, none, height) && Stretch(w, v, relayed, height)
    requires Ended(cfg, w, v, height, tasks, ending)
    ensures Ended(cfg, u, v, height, tasks, ending)
  {
    hide RelaysAt;
    SinceJoin(u, w, v);
    assert forall a :: a in Since(w, v) ==> a in Since(u, v);
    hide Since, HeaderSent;
    if ending.Relayed? {
      HeaderStaysSent(u, w, v, v, Add64(height, 1));
    }
  }

  /** A round after its block was read. */
  lemma ReadStretch(env: Env, cfg: Config, w: World, height: Uint64, tasks: seq<Task>)
    requires cfg.Valid()
    ensures var headerSync := StartsWithMarker(tasks);
            var u := if headerSync then SyncHeader(env, w, height).1 else w;
            var (ending, v) := CompetitionEnding(env, cfg, u, height, tasks);
            && Stretch(w, v, if ending.Relayed? then tasks else [], height)
            && (headerSync <==> HeaderAt(height) in Since(w, v))
            && Ended(cfg, w, v, height, tasks, ending)
  {
    hide Stretch, SyncHeader, CompetitionEnding, Since, Ended;
    SyncStretch(env, w, height, height);
    IdleStretch(w, height);
    var u := if StartsWithMarker(tasks) then SyncHeader(env, w, height).1 else w;
    EndingStretch(env, cfg, u, height, tasks);
    var (ending, v) := CompetitionEnding(env, cfg, u, height, tasks);
    var relayed := if ending.Relayed? then tasks else [];
    StretchJoin(w, u, v, [], relayed, height);
    EndedAfter(cfg, w, u, v, [], relayed, height, tasks, ending);
    assert [] + relayed == relayed;
  }

  lemma SeenTasks(env: Env, w: World, height: Uint64, carried: Option<Bytes>, dest: Uint16)
    ensures var seen := MonitorPackages(env, w, height, carried, dest).0;
            seen.Seen? ==>
              && seen.tasks == TasksOf(carried, seen.block, dest)
              && (seen.tasks == [] || (|seen.tasks| == 1 && seen.tasks[0].channel == -1) <==>
                  EventTasks(seen.block.events, dest) == [])
  {
    var seen := MonitorPackages(env, w, height, carried, dest).0;
    if seen.Seen? {
      MarkerOnlyInFront(carried, seen.block, dest);
    }
    hide Await, EventTasks;
  }

  lemma CompetitionRecorded(env: Env, cfg: Config, d: Daemon)
    requires cfg.Valid()
    ensures var e := CompetitionRound(env, cfg, d);
            |e.rounds| == |d.rounds| + 1 && Recorded(cfg, d, e, e.rounds[|d.rounds|])
  {
    hide Follows, Stretch, Clean, SyncHeader, Await, VerdictOf, Since, MonitorPackages, CompetitionEnding, Number,
        Carry, StartsWithMarker, ToUint64, Add64, Sub64, HeaderSent, TasksOf, EventTasks;
    var h := d.height;
    var none: seq<Task> := [];
    assert none + none == none;
    var (latest, w1) := LatestHeight(env, d.world);
    QuietQuery(env, d.world, h);
    if Sub64(latest, 1) > Add64(h, cfg.behindBlockThreshold) {
      var at := Sub64(latest, 1);
      CleanStretch(env, cfg, w1, at, h);
      StretchJoin(d.world, w1, Clean(env, cfg, w1, at).world, [], [], h);
    } else {
      var (seen, w2) := MonitorPackages(env, w1, h, d.carried, cfg.destChainID);
      MonitorStretch(env, w1, h, d.carried, cfg.destChainID);
      StretchJoin(d.world, w1, w2, [], [], h);
      if seen.Seen? {
        ReadStretch(env, cfg, w2, h, seen.tasks);
        var headerSync := StartsWithMarker(seen.tasks);
        var w3 := if headerSync then SyncHeader(env, w2, h).1 else w2;
        var (ending, w4) := CompetitionEnding(env, cfg, w3, h, seen.tasks);
        var relayed := if ending.Relayed? then seen.tasks else [];
        StretchJoin(d.world, w2, w4, [], relayed, h);
        EndedAfter(cfg, d.world, w2, w4, [], relayed, h, seen.tasks, ending);
        SeenTasks(env, w1, h, d.carried, cfg.destChainID);
        assert [] + relayed == relayed;
      }
    }
  }

  // Normal mode, one round.

  /** The height of the latest cleanup among `attempts`, or `start` when there is none. */
  function LastCleanup(attempts: seq<Attempt>, start: Uint64): Uint64 {
    if attempts == [] then start
    else
      var n := |attempts| - 1;
      if attempts[n].CleanupAt? then attempts[n].height else LastCleanup(attempts[..n], start)
  }

  lemma {:induction false} LastCleanupAppend(a: seq<Attempt>, b: seq<Attempt>, start: Uint64)
    ensures LastCleanup(a + b, start) == LastCleanup(b, LastCleanup(a, start))
  {
    if b == [] {
      assert a + b == a;
    } else {
      var n := |b| - 1;
      LastCleanupAppend(a, b[..n], start);
      assert (a + b)[..|a + b| - 1] == a + b[..n] && (a + b)[|a + b| - 1] == b[n];
    }
  }

  lemma {:induction false} NoCleanup(a: seq<Attempt>, start: Uint64)
    requires forall x :: x in a ==> !x.CleanupAt?
    ensures LastCleanup(a, start) == start
  {
    if a == [] {
    } else {
      assert a[|a| - 1] in a;
      NoCleanup(a[..|a| - 1], start);
    }
  }

  /** A stretch that relays no single task, with its last cleanup: `at` when `cleaned`. */
  ghost predicate Kept(w: World, v: World, cleaned: bool, at: Uint64) {
    && Follows(w, v) && w.attempts <= v.attempts
    && forall start :: LastCleanup(Since(w, v), start) == if cleaned then at else start
  }

  lemma KeptJoin(u: World, v: World, w: World, cleaned: bool, at: Uint64)
    requires Kept(u, v, false, at) && Kept(v, w, cleaned, at)
    ensures Kept(u, w, cleaned, at) && Since(u, w) == Since(u, v) + Since(v, w)
  {
    hide LastCleanup;
    FollowsTransitive(u, v, w);
    SinceJoin(u, v, w);
    forall start
      ensures LastCleanup(Since(u, w), start) == if cleaned then at else start
    {
      LastCleanupAppend(Since(u, v), Since(v, w), start);
    }
  }

  lemma IdleKept(w: World, v: World, at: Uint64)
    requires Follows(w, v) && forall x :: x in Since(w, v) ==> !x.CleanupAt?
    ensures Kept(w, v, false, at)
  {
    hide Follows;
    FollowsGrows(w, v);
    forall start
      ensures LastCleanup(Since(w, v), start) == start
    {
      NoCleanup(Since(w, v), start);
    }
  }

  lemma CleanKept(env: Env, cfg: Config, w: World, at: Uint64)
    ensures var v := Clean(env, cfg, w, at).world;
            Kept(w, v, true, at) && HeaderAt(at) !in Since(w, v)
  {
    hide Follows, Clean;
    CleanKeeps(env, cfg, w, at);
    var v := Clean(env, cfg, w, at).world;
    FollowsGrows(w, v);
    var first, rest := [CleanupAt(at)], Since(Note(w, CleanupAt(at)), v);
    assert Since(w, v) == first + rest;
    assert first[..0] == [];
    NotNext(at);
    forall start
      ensures LastCleanup(Since(w, v), start) == at
    {
      LastCleanupAppend(first, rest, start);
      NoCleanup(rest, at);
    }
  }

  lemma NormalEndingKept(env: Env, cfg: Config, w: World, height: Uint64, due: bool)
    ensures var v := NormalEnding(env, cfg, w, height, due).1;
            Kept(w, v, due, height) && HeaderAt(height) !in Since(w, v)
  {
    hide Kept, Clean;
    if due {
      CleanKept(env, cfg, w, height);
    } else {
      NothingBatched(w, 0, 0, 0, 0);
      IdleKept(w, w, height);
    }
  }

  lemma QueryKept(env: Env, w: World, at: Uint64)
    ensures Kept(w, Await(env, w), false, at) && Since(w, Await(env, w)) == []
  {
    hide Follows, Await;
    QueryKeeps(env, w);
    IdleKept(w, Await(env, w), at);
  }

  lemma SyncKept(env: Env, w: World, height: Uint64, headerSync: bool)
    ensures var v := if headerSync then SyncHeader(env, w, height).1 else w;
            Kept(w, v, false, height) && (headerSync <==> HeaderAt(height) in Since(w, v))
  {
    hide Follows, SyncHeader;
    NothingBatched(w, 0, 0, 0, 0);
    SyncHeaderKeeps(env, w, height);
    var v := if headerSync then SyncHeader(env, w, height).1 else w;
    FollowsGrows(w, v);
    IdleKept(w, v, height);
  }

  /** The daemon had fallen behind by more than the threshold. */
  predicate Jumped(d: Daemon, r: Round) {
    r.latest > Add64(d.height, HEIGHT_BEHIND_THRESHOLD)
  }

  /** The record of a normal round against what the round attempted. */
  ghost predicate NormallyRecorded(cfg: Config, d: Daemon, e: Daemon, r: Round)
    requires cfg.Valid()
  {
    && e.rounds == d.rounds + [r]
    && Kept(d.world, e.world, r.BlockRead? && r.ending.Cleaned?, r.height)
    && (r.BlockRead? ==> (r.headerSync <==> HeaderAt(r.height) in Since(d.world, e.world)))
    && !r.CaughtUp? && r.height == (if Jumped(d, r) then r.latest else d.height)
    && (r.BlockRead? ==>
          (r.ending.Cleaned? <==> Jumped(d, r) || d.needAccelerate || r.height % cfg.normalInterval == 0))
  }

  lemma NormalRecorded(env: Env, cfg: Config, d: Daemon)
    requires cfg.Valid()
    ensures var e := NormalRound(env, cfg, d);
            |e.rounds| == |d.rounds| + 1 && NormallyRecorded(cfg, d, e, e.rounds[|d.rounds|])
  {
    hide Kept, Clean, SyncHeader, Await, VerdictOf, Since, NormalEnding, Number, Carry, Changed, ToUint64, Add64;
    var (latest, w1) := LatestHeight(env, d.world);
    var (height, accelerate) := Accelerated(d, latest);
    QueryKept(env, d.world, height);
    var (block, w2) := QueryBlock(env, w1, height);
    QueryKept(env, w1, height);
    KeptJoin(d.world, w1, w2, false, height);
    if block.Some? {
      var headerSync := Changed(d.carried, block.value);
      SyncKept(env, w2, height, headerSync);
      var w3 := if headerSync then SyncHeader(env, w2, height).1 else w2;
      KeptJoin(d.world, w2, w3, false, height);
      var due := accelerate || height % cfg.normalInterval == 0;
      NormalEndingKept(env, cfg, w3, height, due);
      KeptJoin(d.world, w3, NormalEnding(env, cfg, w3, height, due).1, due, height);
    }
  }
}
