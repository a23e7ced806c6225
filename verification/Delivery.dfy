/**
 A relayer that is the only sender, with pending reads that reflect what it has sent: executing
 the submissions of a cleanup in nonce order is never rejected, even when the cleanup stops early.
 */
module Delivery {
  import opened Machine
  import opened Chains
  import opened Executors
  import opened Cleanup

  /** Binance Chain goes on, and this relayer's transactions are mined in nonce order. */
  predicate InOrder(m: Move) {
    m.Grow? || m.Commit? || (m.Mine? && m.i == 0)
  }

  /** Nobody else acts on Binance Smart Chain, and no number is read wrongly. Any call may still fail. */
  ghost predicate Alone(env: Env) {
    forall t: nat ::
      !env.answers(t).verdict.Stale? && forall m :: m in env.answers(t).moves ==> InOrder(m)
  }

  /** The contract's counters are uint64 values. */
  ghost predicate Fits(c: Contract) {
    forall channel :: Counter(c, channel) <= MAX_UINT64
  }

  /** No pending transaction will be rejected. */
  predicate Clear(w: World) {
    AllAccepted(w.contract, w.pool)
  }

  /** The transactions submitted between two worlds. */
  function New(w: World, v: World): seq<Tx> {
    if w.sent <= v.sent then v.sent[|w.sent|..] else []
  }

  /** From `w` to `v` nothing was submitted, and mining changed nothing of the pending state. */
  ghost predicate Still(w: World, v: World) {
    && Pending(v) == Pending(w) && v.sent == w.sent
    && v.mined + |v.pool| == w.mined + |w.pool|
    && (Clear(w) ==> Clear(v))
  }

  /** From `w` to `v` the pending state changed by the new transactions only, however many were mined meanwhile. */
  ghost predicate Appended(w: World, v: World) {
    && w.sent <= v.sent && Pending(v) == ExecuteAll(Pending(w), New(w, v))
    && v.mined + |v.pool| == w.mined + |w.pool| + |New(w, v)|
  }

  /** The nonce of the next transaction. */
  function NextNonce(w: World): Uint64 {
    ToUint64(w.mined + |w.pool|)
  }

  ghost predicate ConsecutiveNonces(w: World, v: World) {
    forall i :: 0 <= i < |New(w, v)| ==> New(w, v)[i].nonce == ToUint64(w.mined + |w.pool| + i)
  }

  /** The new transactions carry consecutive nonces and are all accepted when executed in that order. */
  ghost predicate Orderly(w: World, v: World) {
    && Appended(w, v)
    && AllAccepted(Pending(w), New(w, v))
    && ConsecutiveNonces(w, v)
    && (Clear(w) ==> Clear(v))
  }

  /** A header sync first unless the header is there already, then packages proved against it. */
  predicate Shape(txs: seq<Tx>, header: Uint64, blockSynced: bool) {
    forall i :: 0 <= i < |txs| ==>
      if i == 0 && !blockSynced then txs[i].HeaderTx? && txs[i].height == header
      else txs[i].PackageTx? && txs[i].proofHeight == header
  }

  lemma {:induction false} ExecuteAllAppend(c: Contract, a: seq<Tx>, b: seq<Tx>)
    ensures ExecuteAll(c, a + b) == ExecuteAll(ExecuteAll(c, a), b)
    ensures AllAccepted(c, a + b) == (AllAccepted(c, a) && AllAccepted(ExecuteAll(c, a), b))
  {
    hide Execute, Accepts;
    if b == [] {
      assert a + b == a;
    } else {
      var n := |b| - 1;
      ExecuteAllAppend(c, a, b[..n]);
      assert (a + b)[..|a + b| - 1] == a + b[..n];
    }
  }

  lemma SingleAccepted(c: Contract, tx: Tx)
    ensures AllAccepted(c, [tx]) == Accepts(c, tx) && ExecuteAll(c, [tx]) == Execute(c, tx)
  {
    hide Accepts, Execute;
    assert [tx][..0] == [];
    assert ExecuteAll(c, []) == c;
  }

  /** Mining the oldest transaction leaves the pending state as it is, and accepts it when all are acceptable. */
  lemma MineOldest(w: World)
    ensures Still(w, Apply(w, Mine(0)))
    ensures Clear(w) && w.pool != [] ==> Accepts(w.contract, w.pool[0])
  {
    hide Execute, Accepts, ExecuteAll, AllAccepted;
    if w.pool != [] {
      assert w.pool == [w.pool[0]] + w.pool[1..] && Without(w.pool, 0) == w.pool[1..];
      ExecuteAllAppend(w.contract, [w.pool[0]], w.pool[1..]);
      SingleAccepted(w.contract, w.pool[0]);
    }
  }

  lemma MoveStill(w: World, m: Move)
    requires InOrder(m)
    ensures Still(w, Apply(w, m))
  {
    if m.Mine? { MineOldest(w); }
  }

  lemma StillTransitive(u: World, v: World, w: World)
    requires Still(u, v) && Still(v, w)
    ensures Still(u, w)
  {
  }

  lemma StillRefl(w: World)
    ensures Still(w, w)
  {
  }

  lemma {:induction false} MovesStill(w: World, moves: seq<Move>)
    requires forall m :: m in moves ==> InOrder(m)
    ensures Still(w, ApplyAll(w, moves))
  {
    hide Still, Apply;
    if moves == [] {
      StillRefl(w);
    } else {
      var front := moves[..|moves| - 1];
      MovesStill(w, front);
      MoveStill(ApplyAll(w, front), moves[|moves| - 1]);
      StillTransitive(w, ApplyAll(w, front), ApplyAll(w, moves));
    }
  }

  lemma AloneAwait(env: Env, w: World)
    requires Alone(env)
    ensures Still(w, Await(env, w)) && !VerdictOf(env, w).Stale?
  {
    MovesStill(w.(tick := w.tick + 1), env.answers(w.tick).moves);
  }

  lemma OrderlyRefl(w: World, v: World)
    requires Still(w, v)
    ensures Orderly(w, v) && New(w, v) == [] && Pending(v) == Pending(w) && NextNonce(v) == NextNonce(w)
  {
  }

  lemma NewJoin(u: World, v: World, w: World)
    requires u.sent <= v.sent && v.sent <= w.sent
    ensures u.sent <= w.sent && New(u, w) == New(u, v) + New(v, w)
  {
  }

  lemma AppendedTransitive(u: World, v: World, w: World)
    requires Appended(u, v) && Appended(v, w)
    ensures Appended(u, w) && New(u, w) == New(u, v) + New(v, w)
  {
    hide New, Pending, ExecuteAll, AllAccepted;
    NewJoin(u, v, w);
    ExecuteAllAppend(Pending(u), New(u, v), New(v, w));
  }

  lemma NoncesJoin(a: seq<Tx>, b: seq<Tx>, base: nat)
    requires forall i :: 0 <= i < |a| ==> a[i].nonce == ToUint64(base + i)
    requires forall i :: 0 <= i < |b| ==> b[i].nonce == ToUint64(base + |a| + i)
    ensures forall i :: 0 <= i < |a + b| ==> (a + b)[i].nonce == ToUint64(base + i)
  {
    hide ToUint64;
    forall i | |a| <= i < |a + b|
      ensures (a + b)[i].nonce == ToUint64(base + i)
    {
      assert (a + b)[i] == b[i - |a|];
      assert base + |a| + (i - |a|) == base + i;
    }
  }

  lemma NoncesTransitive(u: World, v: World, w: World)
    requires Appended(u, v) && Appended(v, w) && ConsecutiveNonces(u, v) && ConsecutiveNonces(v, w)
    ensures ConsecutiveNonces(u, w)
  {
    hide Pending, ToUint64, ExecuteAll;
    AppendedTransitive(u, v, w);
    NoncesJoin(New(u, v), New(v, w), u.mined + |u.pool|);
  }

  lemma OrderlyTransitive(u: World, v: World, w: World)
    requires Orderly(u, v) && Orderly(v, w)
    ensures Orderly(u, w) && New(u, w) == New(u, v) + New(v, w)
  {
    hide AllAccepted, Pending, New, ExecuteAll, ConsecutiveNonces, Clear;
    AppendedTransitive(u, v, w);
    NoncesTransitive(u, v, w);
    ExecuteAllAppend(Pending(u), New(u, v), New(v, w));
  }

  ghost predicate NoneOrOne(w: World, v: World, tx: Tx) {
    || (New(w, v) == [] && Pending(v) == Pending(w))
    || (New(w, v) == [tx] && Pending(v) == Execute(Pending(w), tx))
  }

  lemma NonceSteps(w: World)
    ensures ToUint64(w.mined + |w.pool| + 1) == Add64(NextNonce(w), 1)
  {
  }

  /** Submitting any transaction. */
  lemma SubmitAppended(env: Env, w: World, tx: Tx)
    requires Alone(env)
    ensures var (ok, v) := Submit(env, w, tx);
            && Appended(w, v)
            && (ok ==> New(w, v) == [tx])
            && NoneOrOne(w, v, tx)
            && (New(w, v) == [tx] ==> NextNonce(v) == Add64(NextNonce(w), 1))
            && (Clear(w) && Accepts(Pending(w), tx) ==> Clear(v))
  {
    hide Accepts, Execute, ToUint64, Add64, ExecuteAll, Await, AllAccepted;
    AloneAwait(env, w);
    NonceSteps(w);
    var w1 := Await(env, w);
    var v := Submit(env, w, tx).1;
    OrderlyRefl(w, w1);
    if !VerdictOf(env, w).Failed? {
      assert New(w, v) == [tx];
      SingleAccepted(Pending(w), tx);
      ExecuteAllAppend(w1.contract, w1.pool, [tx]);
    }
  }

  /** Submitting an acceptable transaction with the next nonce. */
  lemma SubmitOrderly(env: Env, w: World, tx: Tx)
    requires Alone(env) && Accepts(Pending(w), tx) && tx.nonce == NextNonce(w)
    ensures var (ok, v) := Submit(env, w, tx);
            && Orderly(w, v)
            && (ok ==> New(w, v) == [tx])
            && NoneOrOne(w, v, tx)
            && (New(w, v) == [tx] ==> NextNonce(v) == Add64(NextNonce(w), 1))
  {
    hide Accepts, Execute, ExecuteAll, Submit, Clear, Pending, Add64;
    SubmitAppended(env, w, tx);
    SingleAccepted(Pending(w), tx);
    assert AllAccepted(Pending(w), []);
  }

  /**
   What a contract call does for a relayer that is alone: its transaction is accepted exactly when the
   sequence is the channel's pending counter and the header of `height + 1` is pending or synced. It then
   adds this payload to the channel, and otherwise it changes nothing.
   */
  lemma CallAcceptedExactly(env: Env, w: World, channel: Byte, sequence: Uint64, payload: Bytes, height: Uint64,
      nonce: Uint64)
    requires Alone(env)
    ensures var (ok, v) := CallContract(env, w, channel, sequence, payload, height, nonce);
            var accepted := sequence == Counter(Pending(w), channel) && Add64(height, 1) in Pending(w).headers;
            && (ok ==> |New(w, v)| == 1)
            && (New(w, v) == [] ==> Pending(v) == Pending(w))
            && (New(w, v) != [] ==>
                  && |New(w, v)| == 1 && New(w, v)[0].nonce == nonce
                  && (AllAccepted(Pending(w), New(w, v)) <==> accepted)
                  && Delivered(Pending(v), channel) ==
                     Delivered(Pending(w), channel) + if accepted then [Delivery(sequence, payload)] else [])
  {
    hide ExecuteAll, AllAccepted, Submit, Alone, Clear, ToUint64;
    var tx := PackageTx(nonce, channel, sequence, payload, Add64(height, 1));
    SubmitAppended(env, w, tx);
    SingleAccepted(Pending(w), tx);
  }

  /** The package transactions for a channel. */
  function Packages(txs: seq<Tx>, channel: Byte): nat {
    if txs == [] then 0
    else
      var tx := txs[|txs| - 1];
      Packages(txs[..|txs| - 1], channel) + if tx.PackageTx? && tx.channel == channel then 1 else 0
  }

  lemma {:induction false} AcceptedAreCounted(c: Contract, txs: seq<Tx>, channel: Byte)
    requires AllAccepted(c, txs)
    ensures Counter(ExecuteAll(c, txs), channel) == Counter(c, channel) + Packages(txs, channel)
  {
    if txs == [] {
      assert ExecuteAll(c, txs) == c;
    } else {
      AcceptedAreCounted(c, txs[..|txs| - 1], channel);
    }
  }

  /** The receive counter is read on the pending state: it counts what was delivered and what is under way. */
  lemma CounterSeesPending(env: Env, w: World, channel: Byte)
    requires VerdictOf(env, w) == Fine && Clear(Await(env, w))
    ensures var (deliver, v) := QueryBscCounter(env, w, channel);
            deliver == Some(ToUint64(|Delivered(v.contract, channel)| + Packages(v.pool, channel)))
  {
    hide ToUint64;
    AcceptedAreCounted(Await(env, w).contract, Await(env, w).pool, channel);
  }

  lemma {:induction false} FetchAlone(env: Env, w: World, channel: Byte, sequence: Uint64, height: Uint64, tries: nat)
    requires Alone(env)
    ensures var (payload, v) := FetchPackage(env, w, channel, sequence, height, tries);
            && Still(w, v)
            && (payload.Some? ==> payload.value != [])
    decreases tries
  {
    hide Still, Await, Alone;
    if tries == 0 {
      StillRefl(w);
    } else {
      AloneAwait(env, w);
      var (value, w1) := QueryPackage(env, w, channel, sequence, height);
      if value == Some([]) {
        FetchAlone(env, w1, channel, sequence, height, tries - 1);
        StillTransitive(w, w1, FetchPackage(env, w1, channel, sequence, height, tries - 1).1);
      }
    }
  }

  /** What a batch does to the pending counters. */
  ghost predicate Counted(before: Contract, after: Contract, channel: Byte, n: nat) {
    && Counter(after, channel) == Counter(before, channel) + n
    && (forall c :: c != channel ==> Counter(after, c) == Counter(before, c))
    && after.headers == before.headers
  }

  lemma CountOne(c: Contract, tx: Tx)
    requires tx.PackageTx? && Accepts(c, tx)
    ensures Counted(c, Execute(c, tx), tx.channel, 1)
  {
  }

  lemma CountedTransitive(a: Contract, b: Contract, c: Contract, channel: Byte, m: nat, n: nat)
    requires Counted(a, b, channel, m) && Counted(b, c, channel, n)
    ensures Counted(a, c, channel, m + n)
  {
  }

  lemma EmptyStep(w: World, v: World, channel: Byte, header: Uint64)
    requires Still(w, v)
    ensures Orderly(w, v) && New(w, v) == [] && Pending(v) == Pending(w) && NextNonce(v) == NextNonce(w)
    ensures Shape(New(w, v), header, true) && Counted(Pending(w), Pending(v), channel, 0)
  {
    OrderlyRefl(w, v);
  }

  lemma AcceptsNext(c: Contract, tx: Tx)
    requires tx.PackageTx? && tx.sequence == Counter(c, tx.channel) && tx.proofHeight in c.headers
    ensures Accepts(c, tx)
  {
  }

  lemma OneStep(w: World, w1: World, w2: World, tx: Tx)
    requires Orderly(w, w1) && New(w, w1) == [] && Pending(w1) == Pending(w) && Orderly(w1, w2)
    requires tx.PackageTx? && Accepts(Pending(w1), tx)
    requires NoneOrOne(w1, w2, tx)
    ensures Orderly(w, w2) && New(w, w2) == New(w1, w2)
    ensures Counted(Pending(w), Pending(w2), tx.channel, |New(w, w2)|)
    ensures Shape(New(w, w2), tx.proofHeight, true)
  {
    hide Execute, Accepts, Pending, Orderly;
    OrderlyTransitive(w, w1, w2);
    if New(w1, w2) == [tx] {
      CountOne(Pending(w1), tx);
    }
  }

  lemma CounterAfter(a: Contract, b: Contract, channel: Byte, start: nat)
    requires Counted(a, b, channel, 1) && Counter(a, channel) == start
    ensures Counter(b, channel) == start + 1 && b.headers == a.headers
  {
  }

  lemma JoinSteps(u: World, v: World, w: World, channel: Byte, header: Uint64)
    requires Orderly(u, v) && Orderly(v, w)
    requires Shape(New(u, v), header, true) && Shape(New(v, w), header, true)
    requires Counted(Pending(u), Pending(v), channel, |New(u, v)|)
        && Counted(Pending(v), Pending(w), channel, |New(v, w)|)
    ensures Orderly(u, w) && New(u, w) == New(u, v) + New(v, w) && Shape(New(u, w), header, true)
    ensures Counted(Pending(u), Pending(w), channel, |New(u, w)|)
  {
    hide Pending, Orderly, Counted;
    OrderlyTransitive(u, v, w);
    CountedTransitive(Pending(u), Pending(v), Pending(w), channel, |New(u, v)|, |New(v, w)|);
  }

  lemma {:induction false} BatchFromOrderly(env: Env, w: World, channel: Byte, start: Uint64, end: Uint64,
      height: Uint64, nonce: Uint64)
    requires Alone(env) && nonce == NextNonce(w)
    requires start == Counter(Pending(w), channel) && Add64(height, 1) in Pending(w).headers
    ensures var (ok, v) := BatchFrom(env, w, channel, start, end, height, nonce);
            && Orderly(w, v) && Shape(New(w, v), Add64(height, 1), true)
            && Counted(Pending(w), Pending(v), channel, |New(w, v)|)
            && |New(w, v)| <= (if start <= end then end - start else 0)
            && (ok ==> |New(w, v)| == if start <= end then end - start else 0)
    decreases end - start
  {
    hide Orderly, Appended, Still, FetchPackage, Submit, Accepts, Execute, Pending, Counted, Shape, Alone, NextNonce, ToUint64;
    if start >= end {
      StillRefl(w);
      EmptyStep(w, w, channel, Add64(height, 1));
    } else {
      var (payload, w1) := FetchPackage(env, w, channel, start, height, MAX_TRY_TIMES);
      FetchAlone(env, w, channel, start, height, MAX_TRY_TIMES);
      EmptyStep(w, w1, channel, Add64(height, 1));
      if payload.Some? {
        var tx := PackageTx(nonce, channel, start, payload.value, Add64(height, 1));
        AcceptsNext(Pending(w1), tx);
        var (ok, w2) := CallContract(env, w1, channel, start, payload.value, height, nonce);
        SubmitOrderly(env, w1, tx);
        OneStep(w, w1, w2, tx);
        if ok {
          CounterAfter(Pending(w), Pending(w2), channel, start);
          BatchFromOrderly(env, w2, channel, start + 1, end, height, Add64(nonce, 1));
          var v := BatchFrom(env, w2, channel, start + 1, end, height, Add64(nonce, 1)).1;
          JoinSteps(w, w2, v, channel, Add64(height, 1));
        }
      }
    }
  }

  lemma BatchOrderly(env: Env, w: World, channel: Byte, start: Uint64, end: Uint64, height: Uint64)
    requires Alone(env) && start == Counter(Pending(w), channel) && Add64(height, 1) in Pending(w).headers
    ensures var (ok, v) := Batch(env, w, channel, start, end, height);
            && Orderly(w, v) && Shape(New(w, v), Add64(height, 1), true)
            && Counted(Pending(w), Pending(v), channel, |New(w, v)|)
            && |New(w, v)| <= (if start <= end then end - start else 0)
            && (ok ==> |New(w, v)| == if start <= end then end - start else 0)
  {
    hide Orderly, Appended, BatchFrom, Pending, Still, Counted, Shape, Await, VerdictOf, ToUint64;
    AloneAwait(env, w);
    var (nonce, w1) := QueryNonce(env, w);
    hide Alone;
    EmptyStep(w, w1, channel, Add64(height, 1));
    if nonce.Some? {
      BatchFromOrderly(env, w1, channel, start, end, height, nonce.value);
      JoinSteps(w, w1, BatchFrom(env, w1, channel, start, end, height, nonce.value).1, channel, Add64(height, 1));
    }
  }

  /** What serving one channel does to the pending counters; headers are only added. */
  ghost predicate Served(before: Contract, after: Contract, channel: Byte, n: nat) {
    && Counter(after, channel) == Counter(before, channel) + n
    && (forall c :: c != channel ==> Counter(after, c) == Counter(before, c))
    && before.headers <= after.headers
  }

  lemma HeaderAlone(env: Env, w: World, height: Uint64)
    requires Alone(env)
    ensures Still(w, QueryHeader(env, w, height).1)
  {
    hide Still, Await, Alone;
    var w1 := Await(env, w);
    var w2 := Await(env, w1);
    AloneAwait(env, w);
    AloneAwait(env, w1);
    AloneAwait(env, w2);
    StillTransitive(w, w1, w2);
    StillTransitive(w, w2, Await(env, w2));
  }

  lemma EmptyNote(w: World, a: Attempt)
    ensures Orderly(w, Note(w, a)) && New(w, Note(w, a)) == [] && Pending(Note(w, a)) == Pending(w)
    ensures NextNonce(Note(w, a)) == NextNonce(w)
  {
    OrderlyRefl(w, Note(w, a));
  }

  lemma SyncOrderly(env: Env, w: World, height: Uint64, channel: Byte)
    requires Alone(env)
    ensures var (ok, v) := SyncHeader(env, w, height);
            && Orderly(w, v) && Shape(New(w, v), height, false)
            && Served(Pending(w), Pending(v), channel, 0)
            && |New(w, v)| <= 1
            && (ok ==> |New(w, v)| == 1 && height in Pending(v).headers)
  {
    hide Orderly, Appended, Pending, Await, VerdictOf, ToUint64, Submit, Still, QueryHeader;
    var w0 := Note(w, HeaderAt(height));
    EmptyNote(w, HeaderAt(height));
    AloneAwait(env, w0);
    var (nonce, w1) := QueryNonce(env, w0);
    EmptyStep(w0, w1, channel, height);
    OrderlyTransitive(w, w0, w1);
    if nonce.Some? {
      HeaderAlone(env, w1, height);
      var (header, w2) := QueryHeader(env, w1, height);
      EmptyStep(w1, w2, channel, height);
      OrderlyTransitive(w, w1, w2);
      if header.Some? {
        var tx := HeaderTx(nonce.value, height, header.value);
        SubmitOrderly(env, w2, tx);
        OrderlyTransitive(w, w2, Submit(env, w2, tx).1);
      }
    }
  }

  lemma ShapeJoin(a: seq<Tx>, b: seq<Tx>, header: Uint64, blockSynced: bool)
    requires Shape(a, header, blockSynced) && Shape(b, header, blockSynced || a != [])
    ensures Shape(a + b, header, blockSynced)
  {
  }

  lemma ServedNothing(w: World, channel: Byte, header: Uint64)
    ensures Served(Pending(w), Pending(w), channel, 0) && Shape([], header, true) && Shape([], header, false)
  {
  }

  lemma ServedAfter(a: Contract, b: Contract, c: Contract, channel: Byte, n: nat)
    requires Served(a, b, channel, 0) && Counted(b, c, channel, n)
    ensures Served(a, c, channel, n)
  {
  }

  lemma VisitOrderly(env: Env, w: World, height: Uint64, r: Reading, blockSynced: bool)
    requires Alone(env) && r.deliver == Counter(Pending(w), r.channel)
    requires blockSynced ==> Add64(height, 1) in Pending(w).headers
    ensures var (ok, v) := Visit(env, w, height, r, blockSynced);
            && Orderly(w, v) && Shape(New(w, v), Add64(height, 1), blockSynced)
            && (ok ==> blockSynced || r.next > r.deliver ==> Add64(height, 1) in Pending(v).headers)
            && (ok && New(w, v) == [] ==> blockSynced || r.next <= r.deliver)
            && (r.next <= r.deliver ==> New(w, v) == [])
            && exists n :: Served(Pending(w), Pending(v), r.channel, n) && r.deliver + n <= MAX_UINT64 &&
                           (ok && r.next > r.deliver ==> n == if r.deliver <= Capped(r) then Capped(r) - r.deliver else 0)
  {
    hide Orderly, Appended, Pending, Alone, SyncHeader, Batch, Shape;
    var header := Add64(height, 1);
    StillRefl(w);
    EmptyStep(w, w, r.channel, header);
    ServedNothing(w, r.channel, header);
    if r.next > r.deliver {
      SyncOrderly(env, w, header, r.channel);
      var (ok, w1) := if blockSynced then (true, w) else SyncHeader(env, w, header);
      if ok {
        assert Counter(Pending(w1), r.channel) == r.deliver;
        BatchOrderly(env, w1, r.channel, r.deliver, Capped(r), height);
        var v := Batch(env, w1, r.channel, r.deliver, Capped(r), height).1;
        OrderlyTransitive(w, w1, v);
        ShapeJoin(New(w, w1), New(w1, v), header, blockSynced);
        ServedAfter(Pending(w), Pending(w1), Pending(v), r.channel, |New(w1, v)|);
      }
    }
  }

  lemma FitsAfter(a: Contract, b: Contract, channel: Byte, n: nat)
    requires Fits(a) && Served(a, b, channel, n) && Counter(a, channel) + n <= MAX_UINT64
    ensures Fits(b)
  {
    forall c
      ensures Counter(b, c) <= MAX_UINT64
    {
      if c != channel { assert Counter(b, c) == Counter(a, c); }
    }
  }

  /** The counter read on the pending state is the true one. */
  lemma ReadAlone(env: Env, w: World, channel: Byte)
    requires Alone(env) && Fits(Pending(w))
    ensures var (deliver, v) := QueryBscCounter(env, w, channel);
            && Still(w, v)
            && (deliver.Some? ==> deliver.value == Counter(Pending(w), channel))
  {
    hide Await, Pending;
    AloneAwait(env, w);
    assert Counter(Pending(w), channel) <= MAX_UINT64;
  }

  lemma BbcReadAlone(env: Env, w: World, channel: Byte, height: Uint64)
    requires Alone(env)
    ensures Still(w, QueryBbcCounter(env, w, channel, height).1)
  {
    AloneAwait(env, w);
  }

  lemma RotateStill(w: World, v: World)
    requires Still(w, v)
    ensures Still(w, Rotate(v))
  {
  }

  lemma FitsStill(w: World, v: World)
    requires Fits(Pending(w)) && Still(w, v)
    ensures Fits(Pending(v))
  {
  }

  lemma JoinOrderly(u: World, v: World, w: World, header: Uint64, blockSynced: bool)
    requires Orderly(u, v) && New(u, v) == [] && Orderly(v, w) && Shape(New(v, w), header, blockSynced)
    ensures Orderly(u, w) && New(u, w) == New(v, w) && Shape(New(u, w), header, blockSynced)
  {
    OrderlyTransitive(u, v, w);
    assert [] + New(v, w) == New(v, w);
  }

  lemma {:induction false} CleanFromOrderly(env: Env, cfg: Config, w: World, height: Uint64, channels: seq<Byte>,
      blockSynced: bool)
    requires Alone(env) && Fits(Pending(w))
    requires blockSynced ==> Add64(height, 1) in Pending(w).headers
    ensures var v := CleanFrom(env, cfg, w, height, channels, blockSynced).world;
            Orderly(w, v) && Shape(New(w, v), Add64(height, 1), blockSynced) && Fits(Pending(v))
    decreases channels
  {
    hide Orderly, Pending, Alone, Fits, Served, Visit, Shape, QueryBbcCounter, QueryBscCounter, FarBehind, New, Still;
    var header := Add64(height, 1);
    ServedNothing(w, 0, header);
    StillRefl(w);
    OrderlyRefl(w, w);
    if channels == [] {
    } else {
      var channel := channels[0];
      var (next, w1) := QueryBbcCounter(env, w, channel, height);
      BbcReadAlone(env, w, channel, height);
      RotateStill(w, w1);
      OrderlyRefl(w, w1);
      OrderlyRefl(w, Rotate(w1));
      FitsStill(w, w1);
      FitsStill(w, Rotate(w1));
      if next.Some? {
        var (deliver, w2) := QueryBscCounter(env, w1, channel);
        ReadAlone(env, w1, channel);
        StillTransitive(w, w1, w2);
        FitsStill(w, w2);
        OrderlyRefl(w, w2);
        if deliver.Some? {
          var r := Reading(channel, next.value, deliver.value);
          EmptyStep(w, w2, channel, header);
          EmptyStep(w1, w2, channel, header);
          VisitOrderly(env, w2, height, r, blockSynced);
          var (ok, w3) := Visit(env, w2, height, r, blockSynced);
          JoinOrderly(w, w2, w3, header, blockSynced);
          var n :| Served(Pending(w2), Pending(w3), channel, n) && r.deliver + n <= MAX_UINT64;
          FitsAfter(Pending(w2), Pending(w3), channel, n);
          if ok {
            var synced := blockSynced || r.next > r.deliver;
            CleanFromOrderly(env, cfg, w3, height, channels[1..], synced);
            var v := CleanFrom(env, cfg, w3, height, channels[1..], synced).world;
            OrderlyTransitive(w, w3, v);
            ShapeJoin(New(w, w3), New(w3, v), header, blockSynced);
          }
        }
      }
    }
  }

  /**
   One cleanup of a relayer that is alone, while Binance Chain grows and transactions are mined: its
   submissions, executed in nonce order on the pending state, are all accepted, and no transaction
   is rejected when it is mined. The header of `height + 1` goes first and once; every package is
   proved against it. This holds however early the cleanup stops.
   */
  lemma CleanupNeverRejected(env: Env, cfg: Config, w: World, height: Uint64)
    requires Alone(env) && Fits(Pending(w))
    ensures var v := Clean(env, cfg, w, height).world;
            && w.sent <= v.sent && Pending(v) == ExecuteAll(Pending(w), New(w, v))
            && AllAccepted(Pending(w), New(w, v)) && (Clear(w) ==> Clear(v))
            && (forall i :: 0 <= i < |New(w, v)| ==> New(w, v)[i].nonce == ToUint64(w.mined + |w.pool| + i))
            && Shape(New(w, v), Add64(height, 1), false)
            && Orderly(w, v) && Fits(Pending(v))
  {
    var w0 := Note(w, CleanupAt(height));
    EmptyNote(w, CleanupAt(height));
    hide Pending, AllAccepted, Shape, CleanFrom, ToUint64, New, Alone, Fits, Clear;
    CleanFromOrderly(env, cfg, w0, height, cfg.channels, false);
    JoinOrderly(w, w0, CleanFrom(env, cfg, w0, height, cfg.channels, false).world, Add64(height, 1), false);
  }
}
