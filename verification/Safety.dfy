/** What every call keeps, whatever the environment does: only stored packages are submitted,
    and the contract's deliveries are a numbered prefix of what Binance Chain stored. */
module Safety {
  import opened Machine
  import opened Events
  import opened Chains
  import opened Executors
  import opened Cleanup

  /** The package is on Binance Chain, is not empty, and was committed before `proofHeight`. */
  predicate Stored(store: Store, channel: Byte, sequence: nat, payload: Bytes, proofHeight: int) {
    && payload != []
    && sequence < |Log(store, channel)|
    && Log(store, channel)[sequence].payload == payload
    && Log(store, channel)[sequence].height < proofHeight
  }

  predicate Honest(store: Store, tx: Tx) {
    tx.PackageTx? ==> Stored(store, tx.channel, tx.sequence, tx.payload, tx.proofHeight)
  }

  /** What was accepted on a channel is exactly 0, 1, .., k-1 in order, each with its stored payload. */
  ghost predicate NumberedPrefix(delivered: seq<Delivery>, log: seq<StoredPackage>) {
    && |delivered| <= |log|
    && forall i :: 0 <= i < |delivered| ==> delivered[i] == Delivery(i, log[i].payload)
  }

  ghost predicate Safe(w: World) {
    && (forall tx :: tx in w.pool ==> Honest(w.store, tx))
    && (forall tx :: tx in w.sent ==> Honest(w.store, tx))
    && (forall channel :: NumberedPrefix(Delivered(w.contract, channel), Log(w.store, channel)))
  }

  ghost predicate Grown(s: Store, t: Store) {
    forall channel :: Log(s, channel) <= Log(t, channel)
  }

  /** `v` can follow `w`: the store only grew, nothing sent is forgotten, and safety was kept. */
  ghost predicate Follows(w: World, v: World) {
    && Grown(w.store, v.store)
    && w.sent <= v.sent
    && w.attempts <= v.attempts
    && (Safe(w) ==> Safe(v))
  }

  /** Nothing was sent or attempted in between. */
  ghost predicate Waited(w: World, v: World) {
    Follows(w, v) && v.sent == w.sent && v.attempts == w.attempts
  }

  lemma FollowsTransitive(u: World, v: World, w: World)
    requires Follows(u, v) && Follows(v, w)
    ensures Follows(u, w)
  {
  }

  lemma HonestGrows(s: Store, t: Store, tx: Tx)
    requires Grown(s, t) && Honest(s, tx)
    ensures Honest(t, tx)
  {
    if tx.PackageTx? {
      assert Log(s, tx.channel) <= Log(t, tx.channel);
    }
  }

  lemma CommitKeeps(w: World, channel: Byte, payload: Bytes, block: nat)
    ensures Waited(w, Apply(w, Commit(channel, payload, block)))
  {
    var v := Apply(w, Commit(channel, payload, block));
    assert Grown(w.store, v.store);
    if Safe(w) {
      forall tx | tx in w.pool || tx in w.sent
        ensures Honest(v.store, tx)
      {
        HonestGrows(w.store, v.store, tx);
      }
      forall c
        ensures NumberedPrefix(Delivered(v.contract, c), Log(v.store, c))
      {
        assert NumberedPrefix(Delivered(w.contract, c), Log(w.store, c));
        assert Log(w.store, c) <= Log(v.store, c);
      }
    }
  }

  /** Executing an honest transaction, in whatever order, keeps the deliveries a numbered prefix. */
  lemma ExecuteKeeps(c: Contract, store: Store, tx: Tx, channel: Byte)
    requires Honest(store, tx)
    requires NumberedPrefix(Delivered(c, channel), Log(store, channel))
    ensures NumberedPrefix(Delivered(Execute(c, tx), channel), Log(store, channel))
  {
  }

  lemma MineKeeps(w: World, i: nat)
    requires i < |w.pool|
    ensures Waited(w, Apply(w, Mine(i)))
    ensures Waited(w, Apply(w, Drop(i)))
  {
    assert forall tx :: tx in Without(w.pool, i) ==> tx in w.pool;
    if Safe(w) {
      assert w.pool[i] in w.pool;
      forall c
        ensures NumberedPrefix(Delivered(Execute(w.contract, w.pool[i]), c), Log(w.store, c))
      {
        assert NumberedPrefix(Delivered(w.contract, c), Log(w.store, c));
        ExecuteKeeps(w.contract, w.store, w.pool[i], c);
      }
    }
  }

  lemma RivalKeeps(w: World, m: Move)
    requires m.RivalPackage? || m.RivalHeader?
    ensures Waited(w, Apply(w, m))
  {
    if Safe(w) {
      forall c
        ensures NumberedPrefix(Delivered(Apply(w, m).contract, c), Log(w.store, c))
      {
        assert NumberedPrefix(Delivered(w.contract, c), Log(w.store, c));
      }
    }
  }

  lemma MoveKeeps(w: World, m: Move)
    ensures Waited(w, Apply(w, m))
  {
    match m
    case Commit(channel, payload, block) => CommitKeeps(w, channel, payload, block);
    case Mine(i) => if i < |w.pool| { MineKeeps(w, i); }
    case Drop(i) => if i < |w.pool| { MineKeeps(w, i); }
    case RivalPackage(_) => RivalKeeps(w, m);
    case RivalHeader(_) => RivalKeeps(w, m);
    case Grow(_) =>
  }

  lemma {:induction false} MovesKeep(w: World, moves: seq<Move>)
    ensures Waited(w, ApplyAll(w, moves)) && ApplyAll(w, moves).tick == w.tick
  {
    if moves == [] {
    } else {
      var front := moves[..|moves| - 1];
      MovesKeep(w, front);
      MoveKeeps(ApplyAll(w, front), moves[|moves| - 1]);
      FollowsTransitive(w, ApplyAll(w, front), ApplyAll(w, moves));
    }
  }

  lemma AwaitKeeps(env: Env, w: World)
    ensures Waited(w, Await(env, w))
  {
    MovesKeep(w.(tick := w.tick + 1), env.answers(w.tick).moves);
  }

  lemma NoteKeeps(w: World, a: Attempt)
    ensures Follows(w, Note(w, a)) && Note(w, a).sent == w.sent
  {
  }

  /** Submitting an honest transaction is safe; it is sent exactly when the call did not fail. */
  lemma SubmitKeeps(env: Env, w: World, tx: Tx)
    requires Honest(w.store, tx)
    ensures var (ok, v) := Submit(env, w, tx);
            && Follows(w, v) && v.attempts == w.attempts
            && (v.sent == w.sent || v.sent == w.sent + [tx])
            && (ok ==> v.sent == w.sent + [tx])
  {
    AwaitKeeps(env, w);
    HonestGrows(w.store, Await(env, w).store, tx);
  }

  lemma LookupIsStored(store: Store, channel: Byte, sequence: nat, height: Uint64)
    requires Lookup(store, channel, sequence, ToInt64(height)) != []
    ensures Stored(store, channel, sequence, Lookup(store, channel, sequence, ToInt64(height)), Add64(height, 1))
  {
    CountAtBound(Log(store, channel), ToInt64(height));
  }

  lemma {:induction false} FetchKeeps(env: Env, w: World, channel: Byte, sequence: Uint64, height: Uint64, tries: nat)
    ensures var (payload, v) := FetchPackage(env, w, channel, sequence, height, tries);
            && Waited(w, v)
            && (payload.Some? ==> Stored(v.store, channel, sequence, payload.value, Add64(height, 1)))
    decreases tries
  {
    if tries == 0 {
    } else {
      AwaitKeeps(env, w);
      var (value, w1) := QueryPackage(env, w, channel, sequence, height);
      if value == Some([]) {
        FetchKeeps(env, w1, channel, sequence, height, tries - 1);
        FollowsTransitive(w, w1, FetchPackage(env, w, channel, sequence, height, tries).1);
      } else if value.Some? {
        LookupIsStored(w1.store, channel, sequence, height);
      }
    }
  }

  lemma QueryKeeps(env: Env, w: World)
    ensures Follows(w, Await(env, w)) && Await(env, w).sent == w.sent && Await(env, w).attempts == w.attempts
  {
    AwaitKeeps(env, w);
  }

  lemma HeaderKeeps(env: Env, w: World, height: Uint64)
    ensures var (header, v) := QueryHeader(env, w, height);
            && Follows(w, v) && v.sent == w.sent && v.attempts == w.attempts
            && (header.Some? ==> header.value == env.headers(ToInt64(height)))
  {
    hide Follows, Await, VerdictOf;
    var w1 := Await(env, w);
    var w2 := Await(env, w1);
    QueryKeeps(env, w);
    QueryKeeps(env, w1);
    QueryKeeps(env, w2);
    FollowsTransitive(w, w1, w2);
    FollowsTransitive(w, w2, Await(env, w2));
  }

  lemma SyncHeaderKeeps(env: Env, w: World, height: Uint64)
    ensures var (ok, v) := SyncHeader(env, w, height);
            && Follows(w, v) && v.attempts == w.attempts + [HeaderAt(height)]
            && (ok ==> v.sent != w.sent)
            && (v.sent == w.sent || exists n :: v.sent == w.sent + [HeaderTx(n, height, env.headers(ToInt64(height)))])
  {
    hide Follows, Await, Number, VerdictOf, Submit;
    var w0 := Note(w, HeaderAt(height));
    NoteKeeps(w, HeaderAt(height));
    var (nonce, w1) := QueryNonce(env, w0);
    QueryKeeps(env, w0);
    FollowsTransitive(w, w0, w1);
    if nonce.Some? {
      var (header, w2) := QueryHeader(env, w1, height);
      HeaderKeeps(env, w1, height);
      FollowsTransitive(w, w1, w2);
      if header.Some? {
        var tx := HeaderTx(nonce.value, height, header.value);
        SubmitKeeps(env, w2, tx);
        FollowsTransitive(w, w2, Submit(env, w2, tx).1);
      }
    }
  }

  /**
   The transactions added to `before` are those of the sequences start, start+1, .., in order and
   without a gap; the one of sequence s carries the nonce `nonce + (s - start)`, the proof height
   `height + 1` and the non-empty payload stored for s.
   */
  ghost predicate IsBatch(before: seq<Tx>, after: seq<Tx>, store: Store, channel: Byte, start: Uint64,
      height: Uint64, nonce: Uint64) {
    && before <= after
    && forall i :: |before| <= i < |after| ==>
         var tx := after[i];
         && tx.PackageTx? && Honest(store, tx)
         && tx.channel == channel && tx.sequence == start + (i - |before|)
         && tx.proofHeight == Add64(height, 1) && tx.nonce == ToUint64(nonce + (i - |before|))
  }

  lemma FirstNonce(nonce: Uint64)
    ensures ToUint64(nonce + 0) == nonce
  {
  }

  lemma NonceAfter(nonce: Uint64, k: int)
    ensures ToUint64(Add64(nonce, 1) + k) == ToUint64(nonce + (k + 1))
  {
  }

  lemma BatchGrows(before: seq<Tx>, tx: Tx, after: seq<Tx>, s: Store, t: Store, channel: Byte, start: Uint64,
      height: Uint64, nonce: Uint64)
    requires tx.PackageTx? && Honest(s, tx) && tx.channel == channel && tx.sequence == start < MAX_UINT64
    requires tx.nonce == nonce && tx.proofHeight == Add64(height, 1)
    requires Grown(s, t) && IsBatch(before + [tx], after, t, channel, start + 1, height, Add64(nonce, 1))
    ensures IsBatch(before, after, t, channel, start, height, nonce)
  {
    hide Honest, Grown, ToUint64, Add64;
    HonestGrows(s, t, tx);
    assert after[|before|] == (before + [tx])[|before|];
    FirstNonce(nonce);
    forall i | |before| < i < |after|
      ensures after[i].PackageTx? && after[i].nonce == ToUint64(nonce + (i - |before|))
    {
      NonceAfter(nonce, i - |before| - 1);
    }
  }

  lemma NothingBatched(w: World, channel: Byte, start: Uint64, height: Uint64, nonce: Uint64)
    ensures IsBatch(w.sent, w.sent, w.store, channel, start, height, nonce) && Follows(w, w)
  {
  }

  lemma WaitedFollows(w: World, v: World)
    requires Waited(w, v)
    ensures Follows(w, v) && v.sent == w.sent && v.attempts == w.attempts
  {
  }

  lemma StoredIsHonest(store: Store, tx: Tx)
    requires tx.PackageTx? && Stored(store, tx.channel, tx.sequence, tx.payload, tx.proofHeight)
    ensures Honest(store, tx)
  {
  }

  lemma FollowsGrows(w: World, v: World)
    requires Follows(w, v)
    ensures Grown(w.store, v.store) && w.sent <= v.sent && w.attempts <= v.attempts
  {
  }

  lemma OneBatched(before: seq<Tx>, tx: Tx, s: Store, t: Store, channel: Byte, start: Uint64, height: Uint64,
      nonce: Uint64)
    requires tx.PackageTx? && Honest(s, tx) && tx.channel == channel && tx.sequence == start
    requires tx.nonce == nonce && tx.proofHeight == Add64(height, 1) && Grown(s, t)
    ensures IsBatch(before, before + [tx], t, channel, start, height, nonce)
  {
    HonestGrows(s, t, tx);
  }

  /** Whatever call fails, the sequences a batch submits form a prefix of [start, end). */
  lemma {:induction false} BatchFromKeeps(env: Env, w: World, channel: Byte, start: Uint64, end: Uint64,
      height: Uint64, nonce: Uint64)
    ensures var (ok, v) := BatchFrom(env, w, channel, start, end, height, nonce);
            && Follows(w, v) && v.attempts == w.attempts
            && IsBatch(w.sent, v.sent, v.store, channel, start, height, nonce)
            && |v.sent| - |w.sent| <= (if start <= end then end - start else 0)
            && (ok ==> |v.sent| - |w.sent| == if start <= end then end - start else 0)
    decreases end - start
  {
    hide Follows, Waited, Grown, Honest, FetchPackage, Submit, IsBatch;
    if start >= end {
      NothingBatched(w, channel, start, height, nonce);
    } else {
      var (payload, w1) := FetchPackage(env, w, channel, start, height, MAX_TRY_TIMES);
      FetchKeeps(env, w, channel, start, height, MAX_TRY_TIMES);
      WaitedFollows(w, w1);
      if payload.None? {
        NothingBatched(w1, channel, start, height, nonce);
      } else {
        var tx := PackageTx(nonce, channel, start, payload.value, Add64(height, 1));
        StoredIsHonest(w1.store, tx);
        var (ok, w2) := CallContract(env, w1, channel, start, payload.value, height, nonce);
        SubmitKeeps(env, w1, tx);
        FollowsTransitive(w, w1, w2);
        FollowsGrows(w1, w2);
        if !ok {
          if w2.sent == w1.sent {
            NothingBatched(w2, channel, start, height, nonce);
          } else {
            OneBatched(w.sent, tx, w1.store, w2.store, channel, start, height, nonce);
          }
        } else {
          BatchFromKeeps(env, w2, channel, start + 1, end, height, Add64(nonce, 1));
          var v := BatchFrom(env, w2, channel, start + 1, end, height, Add64(nonce, 1)).1;
          FollowsTransitive(w, w2, v);
          FollowsTransitive(w1, w2, v);
          FollowsGrows(w1, v);
          BatchGrows(w.sent, tx, v.sent, w1.store, v.store, channel, start, height, nonce);
        }
      }
    }
  }

  /** The same for a whole batch call: the nonce is the one read at entry. */
  lemma BatchKeeps(env: Env, w: World, channel: Byte, start: Uint64, end: Uint64, height: Uint64)
    ensures var (ok, v) := Batch(env, w, channel, start, end, height);
            var entryNonce := QueryNonce(env, w).0;
            && Follows(w, v) && v.attempts == w.attempts
            && (entryNonce.None? ==> v.sent == w.sent && !ok)
            && (entryNonce.Some? ==> IsBatch(w.sent, v.sent, v.store, channel, start, height, entryNonce.value))
            && |v.sent| - |w.sent| <= (if start <= end then end - start else 0)
            && (ok ==> |v.sent| - |w.sent| == if start <= end then end - start else 0)
  {
    hide Follows, IsBatch, Await, Number, VerdictOf, BatchFrom;
    QueryKeeps(env, w);
    var (nonce, w1) := QueryNonce(env, w);
    if nonce.Some? {
      BatchFromKeeps(env, w1, channel, start, end, height, nonce.value);
      FollowsTransitive(w, w1, BatchFrom(env, w1, channel, start, end, height, nonce.value).1);
    }
  }

  /** One relayed task: attempted once, and at most one transaction, honest and for that task. */
  lemma RelayKeeps(env: Env, w: World, task: Task, height: Uint64)
    ensures var (ok, v) := Relay(env, w, task, height);
            && Follows(w, v) && v.attempts == w.attempts + [RelayAt(height, task)]
            && (v.sent == w.sent ||
                exists tx :: v.sent == w.sent + [tx] && tx.PackageTx? && tx.channel == ToByte(task.channel) &&
                             tx.sequence == task.sequence && Honest(v.store, tx))
  {
    hide Follows, Waited, Grown, Honest, FetchPackage, Await, Number, VerdictOf, Submit;
    var channel := ToByte(task.channel);
    var w0 := Note(w, RelayAt(height, task));
    NoteKeeps(w, RelayAt(height, task));
    var (payload, w1) := FetchPackage(env, w0, channel, task.sequence, height, MAX_TRY_TIMES);
    FetchKeeps(env, w0, channel, task.sequence, height, MAX_TRY_TIMES);
    WaitedFollows(w0, w1);
    FollowsTransitive(w, w0, w1);
    if payload.Some? {
      var (nonce, w2) := QueryNonce(env, w1);
      QueryKeeps(env, w1);
      FollowsTransitive(w, w1, w2);
      if nonce.Some? {
        var tx := PackageTx(nonce.value, channel, task.sequence, payload.value, Add64(height, 1));
        StoredIsHonest(w1.store, tx);
        FollowsGrows(w1, w2);
        HonestGrows(w1.store, w2.store, tx);
        SubmitKeeps(env, w2, tx);
        var v := Submit(env, w2, tx).1;
        FollowsTransitive(w, w2, v);
        FollowsGrows(w2, v);
        HonestGrows(w2.store, v.store, tx);
      }
    }
  }

  /** From `w` to `v` nothing was attempted but syncs of one header. */
  ghost predicate HeadersOnly(w: World, v: World, header: Uint64) {
    && w.attempts <= v.attempts
    && forall i :: |w.attempts| <= i < |v.attempts| ==> v.attempts[i] == HeaderAt(header)
  }

  lemma VisitKeeps(env: Env, w: World, height: Uint64, r: Reading, blockSynced: bool)
    ensures var (ok, v) := Visit(env, w, height, r, blockSynced);
            Follows(w, v) && HeadersOnly(w, v, Add64(height, 1))
  {
    hide Follows, SyncHeader, Batch;
    NothingBatched(w, 0, 0, 0, 0);
    FollowsGrows(w, w);
    if r.next > r.deliver {
      var h := Add64(height, 1);
      SyncHeaderKeeps(env, w, h);
      var (ok, w1) := if blockSynced then (true, w) else SyncHeader(env, w, h);
      FollowsGrows(w, w1);
      if ok {
        BatchKeeps(env, w1, r.channel, r.deliver, Capped(r), height);
        var v := Batch(env, w1, r.channel, r.deliver, Capped(r), height).1;
        FollowsTransitive(w, w1, v);
        FollowsGrows(w, v);
      }
    }
  }

  lemma RotateKeeps(w: World, v: World)
    requires Follows(w, v)
    ensures Follows(w, Rotate(v))
  {
  }

  lemma {:induction false} CleanFromKeeps(env: Env, cfg: Config, w: World, height: Uint64, channels: seq<Byte>,
      blockSynced: bool)
    ensures var v := CleanFrom(env, cfg, w, height, channels, blockSynced).world;
            Follows(w, v) && HeadersOnly(w, v, Add64(height, 1))
    decreases channels
  {
    hide Follows, Visit, Await, VerdictOf, Number;
    NothingBatched(w, 0, 0, 0, 0);
    if channels == [] {
    } else {
      var (next, w1) := QueryBbcCounter(env, w, channels[0], height);
      QueryKeeps(env, w);
      RotateKeeps(w, w1);
      if next.Some? {
        var (deliver, w2) := QueryBscCounter(env, w1, channels[0]);
        QueryKeeps(env, w1);
        FollowsTransitive(w, w1, w2);
        if deliver.Some? {
          var r := Reading(channels[0], next.value, deliver.value);
          var (ok, w3) := Visit(env, w2, height, r, blockSynced);
          VisitKeeps(env, w2, height, r, blockSynced);
          FollowsTransitive(w, w2, w3);
          FollowsGrows(w, w3);
          if ok {
            var synced := blockSynced || r.next > r.deliver;
            CleanFromKeeps(env, cfg, w3, height, channels[1..], synced);
            var v := CleanFrom(env, cfg, w3, height, channels[1..], synced).world;
            FollowsTransitive(w, w3, v);
            FollowsGrows(w, v);
          }
        }
      }
    }
  }

  /** A cleanup keeps safety, relays no single task, and is recorded once with its height. */
  lemma CleanKeeps(env: Env, cfg: Config, w: World, height: Uint64)
    ensures var v := Clean(env, cfg, w, height).world;
            && Follows(w, v)
            && HeadersOnly(Note(w, CleanupAt(height)), v, Add64(height, 1))
  {
    hide Follows, CleanFrom;
    var w0 := Note(w, CleanupAt(height));
    NoteKeeps(w, CleanupAt(height));
    CleanFromKeeps(env, cfg, w0, height, cfg.channels, false);
    var v := CleanFrom(env, cfg, w0, height, cfg.channels, false).world;
    FollowsTransitive(w, w0, v);
  }
}
