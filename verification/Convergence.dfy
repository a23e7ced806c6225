/** When nothing fails and nothing new is stored, cleanups deliver everything, thirty packages a channel each. */
module Convergence {
  import opened Machine
  import opened Events
  import opened Chains
  import opened Executors
  import opened Cleanup
  import opened Safety
  import opened Delivery

  /** No call fails or comes back blank, and nothing new is stored; all else may happen on the chains. */
  ghost predicate Answering(env: Env) {
    forall t: nat :: env.answers(t).verdict.Fine? && forall m :: m in env.answers(t).moves ==> !m.Commit?
  }

  /** Besides, the relayer is alone: blocks go by, and its transactions are mined in nonce order. */
  ghost predicate Perfect(env: Env) {
    Answering(env) && Alone(env)
  }

  /** Every stored package of the channel is visible after block int64(height), is not empty, and counters have room. */
  ghost predicate Ready(w: World, channel: Byte, height: Uint64) {
    && CountAt(Log(w.store, channel), ToInt64(height)) == |Log(w.store, channel)|
    && (forall i :: 0 <= i < |Log(w.store, channel)| ==> Log(w.store, channel)[i].payload != [])
    && |Log(w.store, channel)| + MAX_BATCH_SIZE <= MAX_UINT64
    && Counter(Pending(w), channel) + MAX_BATCH_SIZE <= MAX_UINT64
  }

  /** Packages of a channel not yet submitted. */
  function Gap(w: World, channel: Byte): nat {
    var stored, delivered := |Log(w.store, channel)|, Counter(Pending(w), channel);
    if stored > delivered then stored - delivered else 0
  }

  function Shrunk(gap: nat): nat {
    if gap > MAX_BATCH_SIZE then gap - MAX_BATCH_SIZE else 0
  }

  function TotalGap(w: World, channels: seq<Byte>): nat {
    if channels == [] then 0 else Gap(w, channels[0]) + TotalGap(w, channels[1..])
  }

  ghost predicate Distinct(channels: seq<Byte>) {
    forall i, j :: 0 <= i < j < |channels| ==> channels[i] != channels[j]
  }

  lemma {:induction false} MovesStoreNothing(w: World, moves: seq<Move>)
    requires forall m :: m in moves ==> !m.Commit?
    ensures var v := ApplyAll(w, moves); v.store == w.store && v.sent == w.sent
  {
    if moves == [] {
    } else {
      MovesStoreNothing(w, moves[..|moves| - 1]);
    }
  }

  lemma Answered(env: Env, w: World)
    requires Answering(env)
    ensures VerdictOf(env, w) == Fine
    ensures Await(env, w).store == w.store && Await(env, w).sent == w.sent
  {
    MovesStoreNothing(w.(tick := w.tick + 1), env.answers(w.tick).moves);
  }

  lemma FetchSucceeds(env: Env, w: World, channel: Byte, sequence: Uint64, height: Uint64)
    requires Answering(env) && Lookup(w.store, channel, sequence, ToInt64(height)) != []
    ensures FetchPackage(env, w, channel, sequence, height, MAX_TRY_TIMES) ==
            (Some(Lookup(w.store, channel, sequence, ToInt64(height))), Await(env, w))
  {
    hide Lookup, Await;
    Answered(env, w);
  }

  lemma SubmitSucceeds(env: Env, w: World, tx: Tx)
    requires Answering(env)
    ensures var (ok, v) := Submit(env, w, tx);
            ok && v.store == w.store && v.sent == w.sent + [tx]
  {
    Answered(env, w);
  }

  lemma {:induction false} BatchFromSucceeds(env: Env, w: World, channel: Byte, start: Uint64, end: Uint64,
      height: Uint64, nonce: Uint64)
    requires Answering(env)
    requires forall s :: start <= s < end ==> Lookup(w.store, channel, s, ToInt64(height)) != []
    ensures var (ok, v) := BatchFrom(env, w, channel, start, end, height, nonce); ok && v.store == w.store
    decreases end - start
  {
    hide FetchPackage, Submit, Answering, Lookup;
    if start >= end {
    } else {
      Answered(env, w);
      FetchSucceeds(env, w, channel, start, height);
      var (payload, w1) := FetchPackage(env, w, channel, start, height, MAX_TRY_TIMES);
      var tx := PackageTx(nonce, channel, start, payload.value, Add64(height, 1));
      SubmitSucceeds(env, w1, tx);
      BatchFromSucceeds(env, CallContract(env, w1, channel, start, payload.value, height, nonce).1, channel,
          start + 1, end, height, Add64(nonce, 1));
    }
  }

  lemma SyncSucceeds(env: Env, w: World, height: Uint64)
    requires Answering(env)
    ensures SyncHeader(env, w, height).0 && SyncHeader(env, w, height).1.store == w.store
  {
    hide Await, Submit, VerdictOf, Answering;
    var w0 := Note(w, HeaderAt(height));
    Answered(env, w0);
    var w1 := Await(env, w0);
    Answered(env, w1);
    Answered(env, Await(env, w1));
    Answered(env, Await(env, Await(env, w1)));
    var (header, w2) := QueryHeader(env, w1, height);
    SubmitSucceeds(env, w2, HeaderTx(QueryNonce(env, w0).0.value, height, header.value));
  }

  lemma VisitSucceeds(env: Env, w: World, height: Uint64, r: Reading, blockSynced: bool)
    requires Answering(env) && Ready(w, r.channel, height)
    requires r.next == |Log(w.store, r.channel)| && r.deliver == Counter(Pending(w), r.channel)
    ensures var (ok, v) := Visit(env, w, height, r, blockSynced); ok && v.store == w.store
  {
    hide Answering, SyncHeader, BatchFrom, Await, VerdictOf, Pending;
    if r.next > r.deliver {
      SyncSucceeds(env, w, Add64(height, 1));
      var w1 := if blockSynced then w else SyncHeader(env, w, Add64(height, 1)).1;
      Answered(env, w1);
      CountAtBound(Log(w.store, r.channel), ToInt64(height));
      var (nonce, w2) := QueryNonce(env, w1);
      BatchFromSucceeds(env, w2, r.channel, r.deliver, Capped(r), height, nonce.value);
    }
  }

  /** The cap without wrap-around. */
  lemma CapFits(w: World, r: Reading, n: nat, height: Uint64)
    requires Ready(w, r.channel, height) && r.next == |Log(w.store, r.channel)| > r.deliver == Counter(Pending(w), r.channel)
    requires n == if r.deliver <= Capped(r) then Capped(r) - r.deliver else 0
    ensures n == Gap(w, r.channel) - Shrunk(Gap(w, r.channel))
  {
    hide Pending, CountAt;
  }

  /** One channel of a perfect cleanup. */
  lemma VisitConverges(env: Env, w: World, height: Uint64, r: Reading, blockSynced: bool)
    requires Perfect(env) && Ready(w, r.channel, height)
    requires r.next == |Log(w.store, r.channel)| && r.deliver == Counter(Pending(w), r.channel)
    requires blockSynced ==> Add64(height, 1) in Pending(w).headers
    ensures var (ok, v) := Visit(env, w, height, r, blockSynced);
            && ok && v.store == w.store && Gap(v, r.channel) == Shrunk(Gap(w, r.channel))
            && (blockSynced || r.next > r.deliver ==> Add64(height, 1) in Pending(v).headers)
            && Counter(Pending(w), r.channel) <= Counter(Pending(v), r.channel) <= Counter(Pending(w), r.channel) + Gap(w, r.channel)
            && (forall c :: c != r.channel ==> Counter(Pending(v), c) == Counter(Pending(w), c))
  {
    VisitIdle(env, w, height, r, blockSynced);
    assert Answering(env) && Alone(env);
    hide Perfect, Answering, Alone, Visit, Pending, CountAt, AllAccepted, ToUint64, New, Shape;
    VisitSucceeds(env, w, height, r, blockSynced);
    VisitOrderly(env, w, height, r, blockSynced);
    var v := Visit(env, w, height, r, blockSynced).1;
    if r.next > r.deliver {
      var n :| Served(Pending(w), Pending(v), r.channel, n)
          && n == if r.deliver <= Capped(r) then Capped(r) - r.deliver else 0;
      CapFits(w, r, n, height);
    }
  }

  /** The gaps of the listed channels shrink, all else stays, and the cleanup succeeds. */
  ghost predicate Converged(w: World, v: World, channels: seq<Byte>) {
    && v.store == w.store
    && (forall c :: c in channels ==> Gap(v, c) == Shrunk(Gap(w, c)))
    && (forall c :: c !in channels ==> Counter(Pending(v), c) == Counter(Pending(w), c))
    && (forall c :: Counter(Pending(w), c) <= Counter(Pending(v), c) <= Counter(Pending(w), c) + Gap(w, c))
  }

  lemma ConvergedNothing(w: World)
    ensures Converged(w, w, [])
  {
  }

  lemma ReadyValues(w: World, channel: Byte, height: Uint64)
    requires Ready(w, channel, height)
    ensures ToUint64(CountAt(Log(w.store, channel), ToInt64(height))) == |Log(w.store, channel)|
  {
  }

  /** Both counters of a channel are read, and truly. */
  lemma ReadBoth(env: Env, w: World, channel: Byte, height: Uint64)
    requires Perfect(env) && Fits(Pending(w)) && Ready(w, channel, height)
    ensures var (next, w1) := QueryBbcCounter(env, w, channel, height);
            var (deliver, w2) := QueryBscCounter(env, w1, channel);
            && next == Some(|Log(w.store, channel)|) && deliver == Some(Counter(Pending(w), channel))
            && w2.store == w.store && Pending(w2) == Pending(w)
  {
    hide Await, VerdictOf, Pending, CountAt;
    Answered(env, w);
    AloneAwait(env, w);
    ReadyValues(w, channel, height);
    var w1 := QueryBbcCounter(env, w, channel, height).1;
    FitsStill(w, w1);
    Answered(env, w1);
    ReadAlone(env, w1, channel);
  }

  lemma ReadyStays(w: World, v: World, channel: Byte, height: Uint64)
    requires Ready(w, channel, height) && v.store == w.store
    requires Counter(Pending(v), channel) == Counter(Pending(w), channel)
    ensures Ready(v, channel, height)
  {
  }

  lemma FitsGrows(w: World, v: World, channel: Byte, height: Uint64)
    requires Fits(Pending(w)) && Ready(w, channel, height)
    requires Counter(Pending(v), channel) <= Counter(Pending(w), channel) + Gap(w, channel)
    requires forall c :: c != channel ==> Counter(Pending(v), c) == Counter(Pending(w), c)
    ensures Fits(Pending(v))
  {
    hide Pending, CountAt;
    forall c
      ensures Counter(Pending(v), c) <= MAX_UINT64
    {
      assert Counter(Pending(w), c) <= MAX_UINT64;
    }
  }

  lemma ConvergedJoin(u: World, v: World, w: World, channels: seq<Byte>)
    requires channels != [] && Distinct(channels)
    requires v.store == u.store && Gap(v, channels[0]) == Shrunk(Gap(u, channels[0]))
    requires Counter(Pending(u), channels[0]) <= Counter(Pending(v), channels[0]) <= Counter(Pending(u), channels[0]) + Gap(u, channels[0])
    requires forall c :: c != channels[0] ==> Counter(Pending(v), c) == Counter(Pending(u), c)
    requires Converged(v, w, channels[1..])
    ensures Converged(u, w, channels)
  {
    hide Pending;
    assert channels[0] !in channels[1..];
    forall c | c in channels
      ensures Gap(w, c) == Shrunk(Gap(u, c))
    {
      if c != channels[0] { assert c in channels[1..]; }
    }
  }

  lemma {:induction false} CleanFromConverges(env: Env, cfg: Config, w: World, height: Uint64, channels: seq<Byte>,
      blockSynced: bool)
    requires Perfect(env) && Distinct(channels) && Fits(Pending(w))
    requires forall c :: c in channels ==> Ready(w, c, height)
    requires blockSynced ==> Add64(height, 1) in Pending(w).headers
    ensures var out := CleanFrom(env, cfg, w, height, channels, blockSynced);
            out.ok && Converged(w, out.world, channels)
    decreases channels
  {
    hide Converged;
    ConvergedNothing(w);
    if channels == [] {
    } else {
      var channel := channels[0];
      var (next, w1) := QueryBbcCounter(env, w, channel, height);
      var (deliver, w2) := QueryBscCounter(env, w1, channel);
      assert channel in channels && Ready(w, channel, height);
      ReadBoth(env, w, channel, height);
      hide Perfect, Alone, Visit, Pending, CountAt, QueryBbcCounter, QueryBscCounter, FarBehind, Await, VerdictOf,
          Fits, Ready;
      var r := Reading(channel, next.value, deliver.value);
      ReadyStays(w, w2, channel, height);
      VisitConverges(env, w2, height, r, blockSynced);
      var (ok, w3) := Visit(env, w2, height, r, blockSynced);
      forall c | c in channels[1..]
        ensures Ready(w3, c, height)
      {
        assert c in channels && c != channel;
        ReadyStays(w, w3, c, height);
      }
      FitsGrows(w2, w3, channel, height);
      var synced := blockSynced || r.next > r.deliver;
      CleanFromConverges(env, cfg, w3, height, channels[1..], synced);
      var v := CleanFrom(env, cfg, w3, height, channels[1..], synced).world;
      ConvergedJoin(w, w3, v, channels);
    }
  }

  lemma FitsSame(w: World, v: World)
    requires Fits(Pending(w)) && Pending(v) == Pending(w)
    ensures Fits(Pending(v))
  {
  }

  lemma {:induction false} TotalGapFalls(w: World, v: World, channels: seq<Byte>)
    requires forall c :: c in channels ==> Gap(v, c) == Shrunk(Gap(w, c))
    ensures TotalGap(v, channels) <= TotalGap(w, channels)
    ensures TotalGap(w, channels) > 0 ==> TotalGap(v, channels) < TotalGap(w, channels)
  {
    hide Gap;
    if channels == [] {
    } else {
      TotalGapFalls(w, v, channels[1..]);
    }
  }

  /** One perfect cleanup turns every gap g into max(0, g - 30). */
  lemma CleanupShrinksGaps(env: Env, cfg: Config, w: World, height: Uint64)
    requires Perfect(env) && Distinct(cfg.channels) && Fits(Pending(w))
    requires forall c :: c in cfg.channels ==> Ready(w, c, height)
    ensures var out := Clean(env, cfg, w, height);
            && out.ok && Converged(w, out.world, cfg.channels)
            && TotalGap(out.world, cfg.channels) <= TotalGap(w, cfg.channels)
            && (TotalGap(w, cfg.channels) > 0 ==> TotalGap(out.world, cfg.channels) < TotalGap(w, cfg.channels))
  {
    var w0 := Note(w, CleanupAt(height));
    EmptyNote(w, CleanupAt(height));
    hide Pending, CleanFrom, Perfect, Fits, CountAt;
    forall c | c in cfg.channels
      ensures Ready(w0, c, height)
    {
      ReadyStays(w, w0, c, height);
    }
    FitsSame(w, w0);
    CleanFromConverges(env, cfg, w0, height, cfg.channels, false);
    var v := CleanFrom(env, cfg, w0, height, cfg.channels, false).world;
    assert forall c :: Gap(w0, c) == Gap(w, c);
    TotalGapFalls(w, v, cfg.channels);
  }

  /** Such a cleanup leaves nothing undelivered exactly when no channel was more than 30 packages behind. */
  lemma CleanupDeliversExactly(env: Env, cfg: Config, w: World, height: Uint64)
    requires Perfect(env) && Distinct(cfg.channels) && Fits(Pending(w))
    requires forall c :: c in cfg.channels ==> Ready(w, c, height)
    ensures var v := Clean(env, cfg, w, height).world;
            (forall c :: c in cfg.channels ==> Gap(v, c) == 0) <==>
            (forall c :: c in cfg.channels ==> Gap(w, c) <= MAX_BATCH_SIZE)
  {
    CleanupShrinksGaps(env, cfg, w, height);
    hide Clean, Gap, Perfect, Ready, Fits;
    var v := Clean(env, cfg, w, height).world;
    assert forall c :: c in cfg.channels ==> Gap(v, c) == Shrunk(Gap(w, c));
  }

  /** Cleanups at the given heights, one after the other. */
  function Cleanups(env: Env, cfg: Config, w: World, heights: seq<Uint64>): World {
    if heights == [] then w
    else Clean(env, cfg, Cleanups(env, cfg, w, heights[..|heights| - 1]), heights[|heights| - 1]).world
  }

  lemma FitsWithin(w: World, u: World, v: World, cfg: Config, height: Uint64)
    requires Fits(Pending(u)) && Converged(u, v, cfg.channels)
    requires forall c :: c in cfg.channels ==> Ready(u, c, height)
    ensures Fits(Pending(v))
  {
    hide Pending, CountAt;
    forall c
      ensures Counter(Pending(v), c) <= MAX_UINT64
    {
      assert Counter(Pending(u), c) <= MAX_UINT64;
      if c in cfg.channels { assert Ready(u, c, height); }
    }
  }

  /** After n perfect cleanups every gap g is max(0, g - 30 n). */
  lemma {:induction false} CleanupsShrinkGaps(env: Env, cfg: Config, w: World, heights: seq<Uint64>)
    requires Perfect(env) && Distinct(cfg.channels) && Fits(Pending(w))
    requires forall c, h :: c in cfg.channels && h in heights ==> Ready(w, c, h)
    ensures var v := Cleanups(env, cfg, w, heights);
            && v.store == w.store && Fits(Pending(v))
            && (forall c :: c in cfg.channels ==>
                  Gap(v, c) == if Gap(w, c) > 30 * |heights| then Gap(w, c) - 30 * |heights| else 0)
            && (forall c :: Counter(Pending(w), c) <= Counter(Pending(v), c) <= Counter(Pending(w), c) + Gap(w, c))
  {
    hide Pending, Clean, Perfect, CountAt, Fits;
    if heights == [] {
    } else {
      var n := |heights| - 1;
      var u := Cleanups(env, cfg, w, heights[..n]);
      CleanupsShrinkGaps(env, cfg, w, heights[..n]);
      forall c | c in cfg.channels
        ensures Ready(u, c, heights[n])
      {
        assert heights[n] in heights && Ready(w, c, heights[n]);
      }
      CleanupShrinksGaps(env, cfg, u, heights[n]);
      FitsWithin(w, u, Clean(env, cfg, u, heights[n]).world, cfg, heights[n]);
    }
  }

  /** ceil(maxgap / 30) perfect cleanups deliver everything that was stored. */
  lemma CleanupsDeliverEverything(env: Env, cfg: Config, w: World, heights: seq<Uint64>, maxgap: nat)
    requires Perfect(env) && Distinct(cfg.channels) && Fits(Pending(w))
    requires forall c, h :: c in cfg.channels && h in heights ==> Ready(w, c, h)
    requires forall c :: c in cfg.channels ==> Gap(w, c) <= maxgap
    requires |heights| >= (maxgap + 29) / 30
    ensures var v := Cleanups(env, cfg, w, heights);
            forall c :: c in cfg.channels ==>
              && Counter(Pending(v), c) >= |Log(w.store, c)|
              && (v.pool == [] ==> Counter(v.contract, c) >= |Log(w.store, c)|)
  {
    CleanupsShrinkGaps(env, cfg, w, heights);
    hide Cleanups, Perfect, Ready, Fits;
    var v := Cleanups(env, cfg, w, heights);
    assert v.pool == [] ==> Pending(v) == v.contract;
    hide Pending;
    forall c | c in cfg.channels
      ensures Counter(Pending(v), c) >= |Log(w.store, c)|
    {
      assert Gap(v, c) == 0;
    }
  }

  /** The world after its pending transactions were all mined, oldest first. */
  function Drain(w: World): World {
    ApplyAll(w, seq(|w.pool|, _ => Mine(0)))
  }

  lemma {:induction false} Mining(w: World, n: nat)
    requires n <= |w.pool|
    ensures var v := ApplyAll(w, seq(n, _ => Mine(0)));
            && |v.pool| == |w.pool| - n && v.store == w.store && Still(w, v)
  {
    hide Still, Execute;
    var moves := seq(n, _ => Mine(0));
    if n == 0 {
      StillRefl(w);
    } else {
      assert moves[..n - 1] == seq(n - 1, _ => Mine(0));
      Mining(w, n - 1);
      var u := ApplyAll(w, moves[..n - 1]);
      MineOldest(u);
      StillTransitive(w, u, ApplyAll(w, moves));
    }
  }

  /** Mining all that is pending makes the pending state the contract's. */
  lemma DrainExecutes(w: World)
    ensures Drain(w).pool == [] && Drain(w).contract == Pending(w) && Drain(w).store == w.store
    ensures Safe(w) ==> Safe(Drain(w))
  {
    hide Execute, Safe;
    Mining(w, |w.pool|);
    MovesKeep(w, seq(|w.pool|, _ => Mine(0)));
  }

  lemma {:induction false} CleanupsKeep(env: Env, cfg: Config, w: World, heights: seq<Uint64>)
    ensures Follows(w, Cleanups(env, cfg, w, heights))
  {
    hide Follows, Clean;
    if heights == [] {
      NothingBatched(w, 0, 0, 0, 0);
    } else {
      var n := |heights| - 1;
      var u := Cleanups(env, cfg, w, heights[..n]);
      CleanupsKeep(env, cfg, w, heights[..n]);
      CleanKeeps(env, cfg, u, heights[n]);
      FollowsTransitive(w, u, Clean(env, cfg, u, heights[n]).world);
    }
  }

  /**
   Once what these cleanups left pending is mined, each listed channel has accepted exactly the
   stored packages: all of them, each once, in order and with its payload.
   */
  lemma EverythingIsAccepted(env: Env, cfg: Config, w: World, heights: seq<Uint64>, maxgap: nat)
    requires Perfect(env) && Distinct(cfg.channels) && Fits(Pending(w)) && Safe(w)
    requires forall c, h :: c in cfg.channels && h in heights ==> Ready(w, c, h)
    requires forall c :: c in cfg.channels ==> Gap(w, c) <= maxgap
    requires |heights| >= (maxgap + 29) / 30
    ensures var contract := Drain(Cleanups(env, cfg, w, heights)).contract;
            forall c :: c in cfg.channels ==>
              && |Delivered(contract, c)| == |Log(w.store, c)|
              && forall i :: 0 <= i < |Log(w.store, c)| ==>
                Delivered(contract, c)[i] == Delivery(i, Log(w.store, c)[i].payload)
  {
    CleanupsShrinkGaps(env, cfg, w, heights);
    CleanupsDeliverEverything(env, cfg, w, heights, maxgap);
    CleanupsKeep(env, cfg, w, heights);
    hide Cleanups, Drain, Perfect, Ready, Fits, Pending;
    var v := Cleanups(env, cfg, w, heights);
    DrainExecutes(v);
    forall c | c in cfg.channels
      ensures NumberedPrefix(Delivered(Drain(v).contract, c), Log(w.store, c))
      ensures |Delivered(Drain(v).contract, c)| >= |Log(w.store, c)|
    {
      assert Safe(Drain(v));
    }
  }

  /** Ten blank answers in a row. */
  lemma {:induction false} FetchFindsNothing(env: Env, w: World, channel: Byte, sequence: Uint64, height: Uint64,
      tries: nat)
    requires Answering(env) && Lookup(w.store, channel, sequence, ToInt64(height)) == []
    ensures var (payload, v) := FetchPackage(env, w, channel, sequence, height, tries);
            payload.None? && v.sent == w.sent && v.store == w.store
    decreases tries
  {
    hide Lookup, Await;
    if tries == 0 {
    } else {
      Answered(env, w);
      FetchFindsNothing(env, Await(env, w), channel, sequence, height, tries - 1);
    }
  }

  /**
   When nothing fails, a task is turned into a transaction exactly when its package is stored; a relayer
   that is alone gives it the next nonce. This also decides what becomes of the header-sync marker, which
   competition mode does not skip: it is submitted if and only if channel byte 255 holds a non-empty package 0.
   */
  lemma RelayedExactly(env: Env, w: World, task: Task, height: Uint64)
    requires Answering(env)
    ensures var (ok, v) := Relay(env, w, task, height);
            var payload := Lookup(w.store, ToByte(task.channel), task.sequence, ToInt64(height));
            && (ok <==> payload != []) && v.store == w.store
            && (payload == [] ==> v.sent == w.sent)
            && (payload != [] ==>
                  exists nonce ::
                    && v.sent == w.sent +
                       [PackageTx(nonce, ToByte(task.channel), task.sequence, payload, Add64(height, 1))]
                    && (Alone(env) ==> nonce == NextNonce(w)))
  {
    hide Lookup, Answering, Alone, FetchPackage, Await, VerdictOf, ToUint64, Submit, Pending, Clear;
    var channel := ToByte(task.channel);
    var w0 := Note(w, RelayAt(height, task));
    if Lookup(w.store, channel, task.sequence, ToInt64(height)) == [] {
      FetchFindsNothing(env, w0, channel, task.sequence, height, MAX_TRY_TIMES);
    } else {
      FetchSucceeds(env, w0, channel, task.sequence, height);
      Answered(env, w0);
      var (payload, w1) := FetchPackage(env, w0, channel, task.sequence, height, MAX_TRY_TIMES);
      Answered(env, w1);
      var (nonce, w2) := QueryNonce(env, w1);
      SubmitSucceeds(env, w2, PackageTx(nonce.value, channel, task.sequence, payload.value, Add64(height, 1)));
      if Alone(env) {
        AloneAwait(env, w0);
        AloneAwait(env, w1);
      }
    }
  }
}
