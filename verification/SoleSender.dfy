/** Whole runs of the normal daemon for a relayer that is alone: nothing it submits is ever rejected. */
module SoleSender {
  import opened Machine
  import opened Events
  import opened Chains
  import opened Executors
  import opened Cleanup
  import opened Daemons
  import opened Delivery

  /** All submissions in between are in nonce order and accepted, and counters keep their room. */
  ghost predicate Unrejected(w: World, v: World) {
    Orderly(w, v) && Fits(Pending(v))
  }

  lemma UnrejectedTransitive(u: World, v: World, w: World)
    requires Unrejected(u, v) && Unrejected(v, w)
    ensures Unrejected(u, w)
  {
    hide Orderly;
    OrderlyTransitive(u, v, w);
  }

  lemma QueryUnrejected(env: Env, w: World)
    requires Alone(env) && Fits(Pending(w))
    ensures Unrejected(w, Await(env, w))
  {
    hide Await, Alone, Fits;
    AloneAwait(env, w);
    FitsStill(w, Await(env, w));
    OrderlyRefl(w, Await(env, w));
  }

  lemma SyncUnrejected(env: Env, w: World, height: Uint64, headerSync: bool)
    requires Alone(env) && Fits(Pending(w))
    ensures Unrejected(w, if headerSync then SyncHeader(env, w, height).1 else w)
  {
    hide SyncHeader, Alone, Pending, Orderly;
    StillRefl(w);
    OrderlyRefl(w, w);
    SyncOrderly(env, w, height, 0);
    var v := SyncHeader(env, w, height).1;
    FitsAfter(Pending(w), Pending(v), 0, 0);
  }

  lemma EndingUnrejected(env: Env, cfg: Config, w: World, height: Uint64, due: bool)
    requires Alone(env) && Fits(Pending(w))
    ensures Unrejected(w, NormalEnding(env, cfg, w, height, due).1)
  {
    hide Clean, Alone, Pending, Orderly, Fits;
    StillRefl(w);
    OrderlyRefl(w, w);
    CleanupNeverRejected(env, cfg, w, height);
  }

  lemma RoundUnrejected(env: Env, cfg: Config, d: Daemon)
    requires cfg.Valid() && Alone(env) && Fits(Pending(d.world))
    ensures Unrejected(d.world, NormalRound(env, cfg, d).world)
  {
    hide Alone, Orderly, Fits, Pending, Await, VerdictOf, Number, SyncHeader, NormalEnding, Changed, Carry, Add64;
    var (latest, w1) := LatestHeight(env, d.world);
    var (height, accelerate) := Accelerated(d, latest);
    var (block, w2) := QueryBlock(env, w1, height);
    QueryUnrejected(env, d.world);
    QueryUnrejected(env, w1);
    UnrejectedTransitive(d.world, w1, w2);
    if block.Some? {
      var headerSync := Changed(d.carried, block.value);
      SyncUnrejected(env, w2, height, headerSync);
      var w3 := if headerSync then SyncHeader(env, w2, height).1 else w2;
      UnrejectedTransitive(d.world, w2, w3);
      var due := accelerate || height % cfg.normalInterval == 0;
      EndingUnrejected(env, cfg, w3, height, due);
      UnrejectedTransitive(d.world, w3, NormalEnding(env, cfg, w3, height, due).1);
    }
  }

  lemma {:induction false} RoundsUnrejected(env: Env, cfg: Config, d: Daemon, n: nat)
    requires cfg.Valid() && Alone(env) && Fits(Pending(d.world))
    ensures Unrejected(d.world, NormalRun(env, cfg, d, n).world)
  {
    hide Alone, Orderly, Fits, Pending, NormalRound;
    if n == 0 {
      StillRefl(d.world);
      OrderlyRefl(d.world, d.world);
    } else {
      RoundsUnrejected(env, cfg, d, n - 1);
      var e := NormalRun(env, cfg, d, n - 1);
      RoundUnrejected(env, cfg, e);
      UnrejectedTransitive(d.world, e.world, NormalRound(env, cfg, e).world);
    }
  }

  /**
   Every run of the normal daemon of a relayer that is alone, with any calls failing: all its submissions
   carry consecutive nonces, executed in that order on the pending state they are all accepted, and no
   transaction is rejected when it is mined.
   */
  lemma RunNeverRejected(env: Env, cfg: Config, w: World, hash: Option<Bytes>, n: nat)
    requires cfg.Valid() && Alone(env) && Fits(Pending(w))
    ensures var v := NormalRun(env, cfg, NormalStart(env, w, hash), n).world;
            && w.sent <= v.sent && Pending(v) == ExecuteAll(Pending(w), New(w, v))
            && AllAccepted(Pending(w), New(w, v)) && (Clear(w) ==> Clear(v))
            && (forall i :: 0 <= i < |New(w, v)| ==> New(w, v)[i].nonce == ToUint64(w.mined + |w.pool| + i))
  {
    hide Alone, Fits, Pending, Await, VerdictOf, Number, NormalRun, AllAccepted, New, ToUint64, Clear;
    QueryUnrejected(env, w);
    var d := NormalStart(env, w, hash);
    RoundsUnrejected(env, cfg, d, n);
    UnrejectedTransitive(w, d.world, NormalRun(env, cfg, d, n).world);
  }
}
