/** The acceleration flag of the normal daemon, from the gap a cleanup sees to the cleanup of the next height. */
module Acceleration {
  import opened Machine
  import opened Events
  import opened Chains
  import opened Executors
  import opened Cleanup
  import opened Safety
  import opened Daemons
  import opened Runs

  /** Some channel of the cleanup was at least half the alert threshold behind when its counters were read. */
  ghost predicate SawGap(cfg: Config, readings: seq<Reading>) {
    exists r :: r in readings && r.next > r.deliver && r.next - r.deliver >= cfg.sequenceGapThreshold / 2
  }

  /** The cleanup made from `w` ended in `v`, and the flag is what it saw. */
  ghost predicate FlagIsSeen(env: Env, cfg: Config, w: World, height: Uint64, v: World, flag: bool) {
    var out := Clean(env, cfg, w, height);
    v == out.world && (flag <==> SawGap(cfg, out.readings))
  }

  lemma EndingFlag(env: Env, cfg: Config, w: World, height: Uint64, due: bool)
    ensures var (flag, v) := NormalEnding(env, cfg, w, height, due);
            if due then FlagIsSeen(env, cfg, w, height, v, flag) else !flag && v == w
  {
    hide CleanFrom;
    AccelerateExactly(env, cfg, Note(w, CleanupAt(height)), height, cfg.channels, false);
  }

  /**
   After a round of the normal daemon that cleaned up, the flag is set exactly when the cleanup saw a channel
   at least half the threshold behind, however the cleanup ended. Without a cleanup it is not set, and after a
   failed block read it is what it was, or set by a jump.
   */
  lemma FlagExactly(env: Env, cfg: Config, d: Daemon)
    requires cfg.Valid()
    ensures var e := NormalRound(env, cfg, d);
            |e.rounds| == |d.rounds| + 1 &&
            match e.rounds[|d.rounds|]
            case BlockFailed(_, latest) => e.needAccelerate <==> latest > Add64(d.height, 10) || d.needAccelerate
            case BlockRead(height, _, _, _, headerSync, Cleaned) =>
              var w := Await(env, Await(env, d.world));
              var cleaned := if headerSync then SyncHeader(env, w, height).1 else w;
              FlagIsSeen(env, cfg, cleaned, height, e.world, e.needAccelerate)
            case _ => !e.needAccelerate
  {
    hide SyncHeader, Await, VerdictOf, Number, NormalEnding, FlagIsSeen, Changed, Carry, Add64;
    var (latest, w1) := LatestHeight(env, d.world);
    var (height, accelerate) := Accelerated(d, latest);
    var (block, w2) := QueryBlock(env, w1, height);
    if block.Some? {
      var headerSync := Changed(d.carried, block.value);
      var w3 := if headerSync then SyncHeader(env, w2, height).1 else w2;
      EndingFlag(env, cfg, w3, height, accelerate || height % cfg.normalInterval == 0);
    }
  }

  /** A round that starts with the flag set and reads its block attempts a cleanup at its height. */
  lemma FlagIsFollowed(env: Env, cfg: Config, d: Daemon)
    requires cfg.Valid() && d.needAccelerate
    ensures var e := NormalRound(env, cfg, d);
            && |e.rounds| == |d.rounds| + 1
            && (e.rounds[|d.rounds|].BlockRead? ==>
                  LastCleanup(Since(d.world, e.world), 0) == e.rounds[|d.rounds|].height &&
                  e.rounds[|d.rounds|].ending == Cleaned)
  {
    hide NormalRound, Since, LastCleanup, Follows;
    NormalRecorded(env, cfg, d);
  }
}
