/** Coverage seen from the store: where blocks print the packages they store, no stored package is passed by. */
module Printed {
  import opened Machine
  import opened Events
  import opened Chains
  import opened Executors
  import opened Cleanup
  import opened Daemons
  import opened Runs
  import opened Coverage

  /** How often a task stands in a list. */
  function Times(tasks: seq<Task>, t: Task): nat {
    if tasks == [] then 0
    else
      var n := |tasks| - 1;
      Times(tasks[..n], t) + if tasks[n] == t then 1 else 0
  }

  lemma {:induction false} TimesAppend(a: seq<Task>, b: seq<Task>, t: Task)
    ensures Times(a + b, t) == Times(a, t) + Times(b, t)
  {
    if b == [] {
      assert a + b == a;
    } else {
      var n := |b| - 1;
      TimesAppend(a, b[..n], t);
      assert (a + b)[..|a + b| - 1] == a + b[..n] && (a + b)[|a + b| - 1] == b[n];
    }
  }

  lemma {:induction false} ListedOnce(tasks: seq<Task>, t: Task)
    ensures t in tasks <==> Times(tasks, t) >= 1
  {
    if tasks == [] {
    } else {
      var n := |tasks| - 1;
      ListedOnce(tasks[..n], t);
      assert tasks == tasks[..n] + [tasks[n]];
    }
  }

  lemma {:induction false} MarkersAside(tasks: seq<Task>, t: Task)
    requires t.channel != -1
    ensures Times(NoMarkers(tasks), t) == Times(tasks, t)
  {
    if tasks == [] {
    } else {
      var n := |tasks| - 1;
      MarkersAside(tasks[..n], t);
      var last := if tasks[n].channel == -1 then [] else [tasks[n]];
      TimesAppend(NoMarkers(tasks[..n]), last, t);
      assert last != [] ==> last[..0] == [];
    }
  }

  lemma TaskTimes(carried: Option<Bytes>, b: Block, dest: Uint16, t: Task)
    requires t.channel != -1
    ensures Times(TasksOf(carried, b, dest), t) == Times(EventTasks(b.events, dest), t)
  {
    hide EventTasks;
    var marker := if Changed(carried, b) then [MARKER] else [];
    assert marker != [] ==> marker[..0] == [];
    TimesAppend(marker, EventTasks(b.events, dest), t);
  }

  /** The block recorded is the one at the round's height, and the tasks are those of the block. */
  ghost predicate ReadTruly(env: Env, cfg: Config, r: Round) {
    r.BlockRead? ==>
      && r.block == env.blocks(ToInt64(r.height))
      && exists carried :: r.tasks == TasksOf(carried, r.block, cfg.destChainID)
  }

  lemma BlockIsAtHeight(env: Env, cfg: Config, d: Daemon, latest: Uint64)
    requires cfg.Valid()
    ensures var e := ReadRound(env, cfg, d, latest);
            && |e.rounds| == |d.rounds| + 1
            && (e.rounds[|d.rounds|].BlockRead? ==> e.rounds[|d.rounds|].block == env.blocks(ToInt64(d.height)))
  {
    hide Await, VerdictOf, SyncHeader, CompetitionEnding, TasksOf, Carry, StartsWithMarker, Add64, ToInt64;
  }

  lemma RoundReadsTruly(env: Env, cfg: Config, d: Daemon)
    requires cfg.Valid()
    ensures var e := CompetitionRound(env, cfg, d);
            |e.rounds| == |d.rounds| + 1 && ReadTruly(env, cfg, e.rounds[|d.rounds|])
  {
    hide LatestHeight, ReadRound, Clean, Add64, Sub64, TasksOf, Stretch, Ended, EventTasks, Since, ToInt64;
    CompetitionRecorded(env, cfg, d);
    CompetitionHeight(env, cfg, d);
    var (latest, w1) := LatestHeight(env, d.world);
    BlockIsAtHeight(env, cfg, d.(world := w1), latest);
  }

  lemma {:induction false} RunReadsTruly(env: Env, cfg: Config, d: Daemon, n: nat)
    requires cfg.Valid() && forall r :: r in d.rounds ==> ReadTruly(env, cfg, r)
    ensures forall r :: r in CompetitionRun(env, cfg, d, n).rounds ==> ReadTruly(env, cfg, r)
  {
    hide CompetitionRound, ReadTruly, Stretch, Ended;
    if n == 0 {
    } else {
      RunReadsTruly(env, cfg, d, n - 1);
      var e := CompetitionRun(env, cfg, d, n - 1);
      RoundReadsTruly(env, cfg, e);
      CompetitionRecorded(env, cfg, e);
    }
  }

  /** An event of the block names the package. */
  ghost predicate PrintedIn(b: Block, dest: Uint16, channel: Byte, sequence: nat) {
    exists e :: e in b.events && e.kind == PACKAGE_EVENT &&
                Attribute(PACKAGE_INFO, PrintInfo(dest, channel, sequence)) in e.attributes
  }

  /** Was the block read and its package attempted as often as the block prints it, at least once? */
  ghost predicate Attempted(env: Env, cfg: Config, attempts: seq<Attempt>, x: Uint64, t: Task) {
    Times(RelaysAt(attempts, x), t) == Times(EventTasks(env.blocks(ToInt64(x)).events, cfg.destChainID), t) >= 1
  }

  lemma CoveredIsAttempted(env: Env, cfg: Config, d: Daemon, x: Uint64, t: Task)
    requires forall r :: r in d.rounds ==> ReadTruly(env, cfg, r)
    requires Covered(d, x) && t.channel != -1
    requires t in EventTasks(env.blocks(ToInt64(x)).events, cfg.destChainID)
    ensures (exists c :: CleanupAt(c) in d.world.attempts && x <= c) || Attempted(env, cfg, d.world.attempts, x, t)
  {
    hide EventTasks, TasksOf, RelaysAt, NoMarkers, Times, ToInt64;
    if !exists c :: CleanupAt(c) in d.world.attempts && x <= c {
      var r :| r in d.rounds && r.BlockRead? && r.height == x
          && NoMarkers(RelaysAt(d.world.attempts, x)) == NoMarkers(r.tasks);
      var carried :| r.tasks == TasksOf(carried, r.block, cfg.destChainID);
      MarkersAside(RelaysAt(d.world.attempts, x), t);
      MarkersAside(r.tasks, t);
      TaskTimes(carried, r.block, cfg.destChainID, t);
      ListedOnce(EventTasks(r.block.events, cfg.destChainID), t);
    }
  }

  lemma NothingReadYet(env: Env, cfg: Config, w: World, start: Uint64, hash: Option<Bytes>)
    ensures CompetitionStart(env, cfg, w, start, hash).rounds == []
  {
  }

  /**
   Competition mode, on runs whose height queries succeed and whose arithmetic does not wrap: a package that
   is stored by a block the height has passed, and printed in it, was attempted there as often as the block
   prints it, at least once, or lies at most at the height of an attempted cleanup.
   */
  lemma StoredPackageIsCovered(env: Env, cfg: Config, w: World, start: Uint64, hash: Option<Bytes>, n: nat,
      channel: Byte, sequence: nat)
    requires cfg.Valid() && w.attempts == []
    requires forall r :: r in CompetitionRun(env, cfg, CompetitionStart(env, cfg, w, start, hash), n).rounds ==>
      Regular(cfg, r)
    requires channel <= 127 && sequence < 0x8000_0000_0000_0000
    ensures var d := CompetitionRun(env, cfg, CompetitionStart(env, cfg, w, start, hash), n);
            var log := Log(d.world.store, channel);
            sequence < |log| && start <= log[sequence].height < d.height ==>
              var x := log[sequence].height;
              PrintedIn(env.blocks(ToInt64(x)), cfg.destChainID, channel, sequence) ==>
                || (exists c :: CleanupAt(c) in d.world.attempts && x <= c)
                || Attempted(env, cfg, d.world.attempts, x, Task(channel, sequence))
  {
    hide CompetitionRun, CompetitionStart, Regular, Covered, ReadTruly, EventTasks, Attempted, PrintInfo, ToInt64, RelaysAt;
    var s := CompetitionStart(env, cfg, w, start, hash);
    var d := CompetitionRun(env, cfg, s, n);
    NothingReadYet(env, cfg, w, start, hash);
    RunReadsTruly(env, cfg, s, n);
    CompetitionCovers(env, cfg, w, start, hash, n);
    var log := Log(d.world.store, channel);
    if sequence < |log| && start <= log[sequence].height < d.height {
      var x := log[sequence].height;
      var b := env.blocks(ToInt64(x));
      if PrintedIn(b, cfg.destChainID, channel, sequence) {
        var e :| e in b.events && e.kind == PACKAGE_EVENT &&
                 Attribute(PACKAGE_INFO, PrintInfo(cfg.destChainID, channel, sequence)) in e.attributes;
        PrintedPackageIsFound(b.events, e, cfg.destChainID, channel, sequence);
        CoveredIsAttempted(env, cfg, d, x, Task(channel, sequence));
      }
    }
  }
}
