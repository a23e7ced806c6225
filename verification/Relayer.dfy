/** The relayer object: cleanup and the two daemon loops, each doing what its function says. */
module RelayerObject {
  import opened Machine
  import opened Events
  import opened Chains
  import opened Executors
  import opened Cleanup
  import opened Daemons

  /** A cleanup seen from the middle of its loop. */
  ghost function Resume(needAccelerate: bool, readings: seq<Reading>, rest: Outcome): Outcome {
    Outcome(needAccelerate || rest.needAccelerate, rest.ok, rest.world, readings + rest.readings)
  }

  lemma SameByte(b: Byte)
    ensures ToByte(ToInt8(b)) == b
  {
  }

  lemma ResumeStops(needAccelerate: bool, readings: seq<Reading>)
    ensures forall ok, w :: Resume(needAccelerate, readings, Outcome(false, ok, w, [])) ==
                            Outcome(needAccelerate, ok, w, readings)
  {
    assert readings + [] == readings;
  }

  lemma ResumePrepends(cfg: Config, needAccelerate: bool, readings: seq<Reading>, r: Reading)
    ensures forall rest :: Resume(needAccelerate, readings, Prepend(cfg, r, rest)) ==
                           Resume(needAccelerate || FarBehind(cfg, r), readings + [r], rest)
    ensures forall ok, w :: Resume(needAccelerate, readings, Outcome(FarBehind(cfg, r), ok, w, [r])) ==
                            Outcome(needAccelerate || FarBehind(cfg, r), ok, w, readings + [r])
  {
    forall rest
      ensures Resume(needAccelerate, readings, Prepend(cfg, r, rest)) ==
              Resume(needAccelerate || FarBehind(cfg, r), readings + [r], rest)
    {
      assert readings + ([r] + rest.readings) == readings + [r] + rest.readings;
    }
  }

  class Relayer {
    const cfg: Config
    const bbcExecutor: BbcExecutor
    const bscExecutor: BscExecutor

    ghost predicate Valid() {
      && cfg.Valid()
      && bscExecutor.bbcExecutor == bbcExecutor && bscExecutor.wire == bbcExecutor.wire
      && bbcExecutor.destChainID == cfg.destChainID
    }

    constructor (cfg: Config, bbc: BbcExecutor, bsc: BscExecutor)
      requires cfg.Valid() && bsc.bbcExecutor == bbc && bsc.wire == bbc.wire && bbc.destChainID == cfg.destChainID
      ensures Valid() && this.cfg == cfg && bbcExecutor == bbc && bscExecutor == bsc
    {
      this.cfg := cfg;
      this.bbcExecutor := bbc;
      this.bscExecutor := bsc;
    }

    method GetLatestHeight() returns (height: Uint64)
      requires Valid()
      modifies bbcExecutor.wire
      ensures (height, bbcExecutor.wire.world) == LatestHeight(bbcExecutor.wire.env, old(bbcExecutor.wire.world))
    {
      var wire := bbcExecutor.wire;
      var (answer, w1) := QueryTip(wire.env, wire.world);
      wire.world := w1;
      if answer.None? { return 0; }
      height := answer.value;
    }

    /** `readings` are the counter pairs that were logged. */
    method CleanPreviousPackages(height: Uint64) returns (needAccelerate: bool, ok: bool, ghost readings: seq<Reading>)
      requires Valid()
      modifies bbcExecutor.wire
      ensures Outcome(needAccelerate, ok, bbcExecutor.wire.world, readings) ==
              Clean(bbcExecutor.wire.env, cfg, old(bbcExecutor.wire.world), height)
    {
      var wire := bbcExecutor.wire;
      wire.world := Note(wire.world, CleanupAt(height));
      var blockSynced := false;
      needAccelerate := false;
      readings := [];
      ghost var whole := CleanFrom(wire.env, cfg, wire.world, height, cfg.channels, false);
      for i := 0 to |cfg.channels|
        invariant whole == Resume(needAccelerate, readings, CleanFrom(wire.env, cfg, wire.world, height, cfg.channels[i..], blockSynced))
      {
        var channelId := cfg.channels[i];
        assert cfg.channels[i..][0] == channelId && cfg.channels[i..][1..] == cfg.channels[i + 1..];
        SameByte(channelId);
        hide QueryBbcCounter, QueryBscCounter, Visit, Prepend, Resume;
        ResumeStops(needAccelerate, readings);
        var nextSequence := bbcExecutor.GetNextSequence(ToInt8(channelId), height);
        if nextSequence.None? {
          wire.world := Rotate(wire.world);
          return needAccelerate, false, readings;
        }
        var nextDeliverSequence := bscExecutor.GetNextSequence(ToInt8(channelId));
        if nextDeliverSequence.None? { return needAccelerate, false, readings; }
        var next, deliver := nextSequence.value, nextDeliverSequence.value;
        ghost var r := Reading(channelId, next, deliver);
        ResumePrepends(cfg, needAccelerate, readings, r);
        ResumeStops(needAccelerate, readings + [r]);
        VisitIdle(wire.env, wire.world, height, r, blockSynced);
        readings := readings + [r];
        if next > deliver {
          var gap: Uint64 := next - deliver;
          if gap >= cfg.sequenceGapThreshold / 2 {
            needAccelerate := true;
          }
          var delivered := DeliverGap(channelId, next, deliver, height, blockSynced);
          if !delivered { return needAccelerate, false, readings; }
          blockSynced := true;
        }
      }
      ok := true;
    }

    /** The part of a cleanup that submits: the proof header once, then one capped batch. */
    method DeliverGap(channelId: Byte, nextSequence: Uint64, nextDeliverSequence: Uint64, height: Uint64,
        blockSynced: bool) returns (ok: bool)
      requires Valid() && nextSequence > nextDeliverSequence
      modifies bbcExecutor.wire
      ensures (ok, bbcExecutor.wire.world) ==
              Visit(bbcExecutor.wire.env, old(bbcExecutor.wire.world), height,
                    Reading(channelId, nextSequence, nextDeliverSequence), blockSynced)
    {
      hide SyncHeader, Batch;
      SameByte(channelId);
      if !blockSynced {
        var synced := bscExecutor.SyncTendermintLightClientHeader(Add64(height, 1));
        if !synced { return false; }
      }
      var end := nextSequence;
      if end > Add64(nextDeliverSequence, MAX_BATCH_SIZE) {
        end := Add64(nextDeliverSequence, MAX_BATCH_SIZE);
      }
      ok := bscExecutor.BatchRelayCrossChainPackages(ToInt8(channelId), nextDeliverSequence, end, height);
    }

    /** `for { ... }` of the competition daemon, stopped after any number of rounds. */
    method RelayerCompetitionDaemon(startHeight: Uint64, hash: Option<Bytes>, rounds: nat) returns (ghost end: Daemon)
      requires Valid()
      modifies bbcExecutor.wire
      ensures end == CompetitionRun(bbcExecutor.wire.env, cfg,
                                    Daemon(startHeight, hash, false, old(bbcExecutor.wire.world), []), rounds)
      ensures end.world == bbcExecutor.wire.world
    {
      var wire := bbcExecutor.wire;
      var height, curValidatorsHash := startHeight, hash;
      ghost var start := Daemon(startHeight, hash, false, wire.world, []);
      end := start;
      for n := 0 to rounds
        invariant end == CompetitionRun(wire.env, cfg, start, n)
        invariant end.height == height && end.carried == curValidatorsHash && end.world == wire.world
      {
        ghost var before := end;
        end := CompetitionRound(wire.env, cfg, before);
        height, curValidatorsHash := CompetitionStep(height, curValidatorsHash, before);
      }
    }

    /** The body of that loop. */
    method CompetitionStep(height0: Uint64, hash0: Option<Bytes>, ghost before: Daemon)
        returns (height: Uint64, curValidatorsHash: Option<Bytes>)
      requires Valid()
      requires before.height == height0 && before.carried == hash0 && before.world == bbcExecutor.wire.world
      modifies bbcExecutor.wire
      ensures var after := CompetitionRound(bbcExecutor.wire.env, cfg, before);
              after.height == height && after.carried == curValidatorsHash && after.world == bbcExecutor.wire.world
    {
      hide Clean, MonitorPackages, SyncHeader, RelayAll, LatestHeight;
      height, curValidatorsHash := height0, hash0;
      var latest := GetLatestHeight();
      var latestHeight := Sub64(latest, 1);
      if latestHeight > Add64(height, cfg.behindBlockThreshold) {
        var _, _, _ := CleanPreviousPackages(latestHeight);
        height := Add64(latestHeight, 1);
        return;
      }
      var seen, hash := bbcExecutor.MonitorCrossChainPackage(height, curValidatorsHash);
      curValidatorsHash := hash;
      if seen.MonitorFailed? { return; }
      var taskList := seen.tasks;
      if |taskList| > 0 {
        if taskList[0].channel == -1 {
          var _ := bscExecutor.SyncTendermintLightClientHeader(height);
        }
      }
      if height % cfg.competitionInterval == 0 {
        var _, _, _ := CleanPreviousPackages(height);
        height := Add64(height, 1);
        return;
      }
      if |taskList| == 0 || (|taskList| == 1 && taskList[0].channel == -1) {
        height := Add64(height, 1);
        return;
      }
      var synced := bscExecutor.SyncTendermintLightClientHeader(Add64(height, 1));
      if !synced { return; }
      RelayTasks(taskList, height);
      height := Add64(height, 1);
    }

    method RelayTasks(taskList: seq<Task>, height: Uint64)
      requires Valid()
      modifies bbcExecutor.wire
      ensures bbcExecutor.wire.world == RelayAll(bbcExecutor.wire.env, old(bbcExecutor.wire.world), taskList, height)
    {
      hide Relay;
      var wire := bbcExecutor.wire;
      for i := 0 to |taskList|
        invariant wire.world == RelayAll(wire.env, old(wire.world), taskList[..i], height)
      {
        assert taskList[..i + 1][..i] == taskList[..i];
        var _ := bscExecutor.RelayCrossChainPackage(taskList[i].channel, taskList[i].sequence, height);
      }
      assert taskList[..|taskList|] == taskList;
    }

    /** `for { ... }` of the normal daemon, stopped after any number of rounds. */
    method RelayerDaemon(hash: Option<Bytes>, rounds: nat) returns (ghost end: Daemon)
      requires Valid()
      modifies bbcExecutor.wire
      ensures end == NormalRun(bbcExecutor.wire.env, cfg,
                               NormalStart(bbcExecutor.wire.env, old(bbcExecutor.wire.world), hash), rounds)
      ensures end.world == bbcExecutor.wire.world
    {
      var wire := bbcExecutor.wire;
      ghost var start := NormalStart(wire.env, wire.world, hash);
      var curValidatorsHash := hash;
      var needAccelerate := false;
      var height := GetLatestHeight();
      end := start;
      for n := 0 to rounds
        invariant end == NormalRun(wire.env, cfg, start, n)
        invariant end.height == height && end.carried == curValidatorsHash
        invariant end.needAccelerate == needAccelerate && end.world == wire.world
      {
        ghost var before := end;
        end := NormalRound(wire.env, cfg, before);
        height, curValidatorsHash, needAccelerate := NormalStep(height, curValidatorsHash, needAccelerate, before);
      }
    }

    /** The body of that loop. */
    method NormalStep(height0: Uint64, hash0: Option<Bytes>, accelerate0: bool, ghost before: Daemon)
      returns (height: Uint64, curValidatorsHash: Option<Bytes>, needAccelerate: bool)
      requires Valid()
      requires before.height == height0 && before.carried == hash0
      requires before.needAccelerate == accelerate0 && before.world == bbcExecutor.wire.world
      modifies bbcExecutor.wire
      ensures var after := NormalRound(bbcExecutor.wire.env, cfg, before);
              && after.height == height && after.carried == curValidatorsHash
              && after.needAccelerate == needAccelerate && after.world == bbcExecutor.wire.world
    {
      hide Clean, SyncHeader, QueryBlock, LatestHeight;
      height, curValidatorsHash, needAccelerate := height0, hash0, accelerate0;
      var currHeight := GetLatestHeight();
      if currHeight > Add64(height, HEIGHT_BEHIND_THRESHOLD) {
        needAccelerate := true;
        height := currHeight;
      }
      var block, validatorSetChanged, hash := bbcExecutor.MonitorValidatorSetChange(height, curValidatorsHash);
      curValidatorsHash := hash;
      if block.None? { return; }
      if validatorSetChanged {
        var _ := bscExecutor.SyncTendermintLightClientHeader(height);
      }
      if needAccelerate {
        var again, _, _ := CleanPreviousPackages(height);
        needAccelerate := again;
      } else if height % cfg.normalInterval == 0 {
        var again, _, _ := CleanPreviousPackages(height);
        needAccelerate := again;
      }
      height := Add64(height, 1);
    }
  }
}
