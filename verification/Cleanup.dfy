/** One cleanup: compare the counters of every channel and submit capped batches. */
module Cleanup {
  import opened Machine
  import opened Chains
  import opened Executors

  const MAX_BATCH_SIZE: Uint64 := 30

  datatype Config = Config(
    channels: seq<Byte>,
    destChainID: Uint16,
    sequenceGapThreshold: Uint64,
    behindBlockThreshold: Uint64,
    competitionInterval: Uint64,   // BlockIntervalForCleanUpUndeliveredPackages
    normalInterval: Uint64         // CleanUpBlockInterval
  ) {
    /** Both intervals are divisors in the daemons. */
    predicate Valid() {
      competitionInterval != 0 && normalInterval != 0
    }
  }

  /** The two counters of one channel, as logged after both were read. */
  datatype Reading = Reading(channel: Byte, next: Uint64, deliver: Uint64)

  datatype Outcome = Outcome(needAccelerate: bool, ok: bool, world: World, readings: seq<Reading>)

  /** Binance Chain is ahead by at least half the alert threshold. */
  predicate FarBehind(cfg: Config, r: Reading) {
    r.next > r.deliver && r.next - r.deliver >= cfg.sequenceGapThreshold / 2
  }

  function Capped(r: Reading): Uint64 {
    if r.next > Add64(r.deliver, MAX_BATCH_SIZE) then Add64(r.deliver, MAX_BATCH_SIZE) else r.next
  }

  function Rotate(w: World): World {
    w.(rotations := w.rotations + 1)
  }

  /** What a cleanup does for a channel whose counters were read. */
  function Visit(env: Env, w: World, height: Uint64, r: Reading, blockSynced: bool): (bool, World) {
    if r.next <= r.deliver then (true, w)
    else
      var (ok, w1) := if blockSynced then (true, w) else SyncHeader(env, w, Add64(height, 1));
      if !ok then (false, w1)
      else Batch(env, w1, r.channel, r.deliver, Capped(r), height)
  }

  function Prepend(cfg: Config, r: Reading, rest: Outcome): Outcome {
    Outcome(FarBehind(cfg, r) || rest.needAccelerate, rest.ok, rest.world, [r] + rest.readings)
  }

  /** The rest of a cleanup, from the channels still to visit. */
  function CleanFrom(env: Env, cfg: Config, w: World, height: Uint64, channels: seq<Byte>, blockSynced: bool): Outcome
    decreases channels
  {
    if channels == [] then Outcome(false, true, w, [])
    else
      var (next, w1) := QueryBbcCounter(env, w, channels[0], height);
      if next.None? then Outcome(false, false, Rotate(w1), [])
      else
        var (deliver, w2) := QueryBscCounter(env, w1, channels[0]);
        if deliver.None? then Outcome(false, false, w2, [])
        else
          var r := Reading(channels[0], next.value, deliver.value);
          var (ok, w3) := Visit(env, w2, height, r, blockSynced);
          if !ok then Outcome(FarBehind(cfg, r), false, w3, [r])
          else Prepend(cfg, r, CleanFrom(env, cfg, w3, height, channels[1..], blockSynced || r.next > r.deliver))
  }

  function Clean(env: Env, cfg: Config, w: World, height: Uint64): Outcome {
    CleanFrom(env, cfg, Note(w, CleanupAt(height)), height, cfg.channels, false)
  }

  /** A channel that is not behind is left alone. */
  lemma VisitIdle(env: Env, w: World, height: Uint64, r: Reading, blockSynced: bool)
    ensures r.next <= r.deliver ==> Visit(env, w, height, r, blockSynced) == (true, w)
  {
  }

  /**
   The acceleration flag, however the cleanup ended: true exactly when some channel whose two
   counters were both read has Binance Chain ahead by half the threshold. The channels read are
   the first ones of the list, and all of them when the cleanup succeeded.
   */
  lemma {:induction false} AccelerateExactly(env: Env, cfg: Config, w: World, height: Uint64, channels: seq<Byte>,
      blockSynced: bool)
    ensures var out := CleanFrom(env, cfg, w, height, channels, blockSynced);
            && (out.needAccelerate <==>
                  exists r :: r in out.readings && r.next > r.deliver && r.next - r.deliver >= cfg.sequenceGapThreshold / 2)
            && |out.readings| <= |channels|
            && (forall i :: 0 <= i < |out.readings| ==> out.readings[i].channel == channels[i])
            && (out.ok ==> |out.readings| == |channels|)
    decreases channels
  {
    hide QueryBbcCounter, QueryBscCounter, Visit;
    if channels == [] {
    } else {
      var (next, w1) := QueryBbcCounter(env, w, channels[0], height);
      if next.Some? {
        var (deliver, w2) := QueryBscCounter(env, w1, channels[0]);
        if deliver.Some? {
          var r := Reading(channels[0], next.value, deliver.value);
          var (ok, w3) := Visit(env, w2, height, r, blockSynced);
          if ok {
            AccelerateExactly(env, cfg, w3, height, channels[1..], blockSynced || r.next > r.deliver);
          }
        }
      }
    }
  }
}
