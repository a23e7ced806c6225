/** Which call ends an operation, and what it leaves behind. */
module Calls {
  import opened Machine
  import opened Events
  import opened Chains
  import opened Executors
  import opened Cleanup
  import opened Safety

  /** The world after a number of calls that change nothing themselves. */
  function AwaitTimes(env: Env, w: World, n: nat): World {
    if n == 0 then w else Await(env, AwaitTimes(env, w, n - 1))
  }

  lemma {:induction false} AwaitFirst(env: Env, w: World, n: nat)
    requires n > 0
    ensures AwaitTimes(env, w, n) == AwaitTimes(env, Await(env, w), n - 1)
  {
    hide Await;
    if n == 1 {
      assert AwaitTimes(env, w, 0) == w;
    } else {
      AwaitFirst(env, w, n - 1);
    }
  }

  lemma OneTick(env: Env, w: World)
    ensures Await(env, w).tick == w.tick + 1 && Await(env, w).sent == w.sent
  {
    MovesKeep(w.(tick := w.tick + 1), env.answers(w.tick).moves);
  }

  lemma {:induction false} AwaitTicks(env: Env, w: World, n: nat)
    ensures AwaitTimes(env, w, n).tick == w.tick + n && AwaitTimes(env, w, n).sent == w.sent
  {
    hide Await, Follows;
    if n == 0 {
    } else {
      AwaitTicks(env, w, n - 1);
      OneTick(env, AwaitTimes(env, w, n - 1));
    }
  }

  // Fetching a package.

  /** The answer to the query number i, if the ones before it were empty. */
  function Answer(env: Env, w: World, channel: Byte, sequence: Uint64, height: Uint64, i: nat): Option<Bytes> {
    QueryPackage(env, AwaitTimes(env, w, i), channel, sequence, height).0
  }

  lemma EmptyStep(env: Env, w: World, channel: Byte, sequence: Uint64, height: Uint64, tries: nat)
    requires tries > 0 && QueryPackage(env, w, channel, sequence, height).0 == Some([])
    ensures FetchPackage(env, w, channel, sequence, height, tries) ==
            FetchPackage(env, Await(env, w), channel, sequence, height, tries - 1)
  {
  }

  lemma {:induction false} EmptyAnswers(env: Env, w: World, channel: Byte, sequence: Uint64, height: Uint64, tries: nat,
      k: nat)
    requires k <= tries
    requires forall i :: 0 <= i < k ==> Answer(env, w, channel, sequence, height, i) == Some([])
    ensures FetchPackage(env, w, channel, sequence, height, tries) ==
            FetchPackage(env, AwaitTimes(env, w, k), channel, sequence, height, tries - k)
  {
    hide QueryPackage, Await, FetchPackage;
    if k == 0 {
    } else {
      EmptyAnswers(env, w, channel, sequence, height, tries, k - 1);
      assert Answer(env, w, channel, sequence, height, k - 1) == Some([]);
      EmptyStep(env, AwaitTimes(env, w, k - 1), channel, sequence, height, tries - (k - 1));
    }
  }

  /** Up to nine empty answers are got over: the next value that comes is returned, after that call. */
  lemma FetchGetsOverBlanks(env: Env, w: World, channel: Byte, sequence: Uint64, height: Uint64, k: nat)
    requires k < 10 && forall i :: 0 <= i < k ==> Answer(env, w, channel, sequence, height, i) == Some([])
    requires Answer(env, w, channel, sequence, height, k).Some?
    requires Answer(env, w, channel, sequence, height, k) != Some([])
    ensures FetchPackage(env, w, channel, sequence, height, MAX_TRY_TIMES) ==
            (Answer(env, w, channel, sequence, height, k), AwaitTimes(env, w, k + 1))
  {
    EmptyAnswers(env, w, channel, sequence, height, 10, k);
    hide Await;
  }

  /** Ten empty answers are the end. */
  lemma FetchGivesUp(env: Env, w: World, channel: Byte, sequence: Uint64, height: Uint64)
    requires forall i :: 0 <= i < 10 ==> Answer(env, w, channel, sequence, height, i) == Some([])
    ensures FetchPackage(env, w, channel, sequence, height, MAX_TRY_TIMES) == (None, AwaitTimes(env, w, 10))
  {
    EmptyAnswers(env, w, channel, sequence, height, 10, 10);
    hide Await;
  }

  /** So is the first error. */
  lemma FetchStopsAtError(env: Env, w: World, channel: Byte, sequence: Uint64, height: Uint64, k: nat)
    requires k < 10 && forall i :: 0 <= i < k ==> Answer(env, w, channel, sequence, height, i) == Some([])
    requires Answer(env, w, channel, sequence, height, k) == None
    ensures FetchPackage(env, w, channel, sequence, height, MAX_TRY_TIMES) == (None, AwaitTimes(env, w, k + 1))
  {
    EmptyAnswers(env, w, channel, sequence, height, 10, k);
    hide Await;
  }

  // Header sync and the monitor.

  /** Does the call number i from now on fail? */
  predicate Fails(env: Env, w: World, i: nat) {
    env.answers(w.tick + i).verdict.Failed?
  }

  lemma SyncTicks(env: Env, w: World)
    ensures forall i: nat :: i <= 5 ==> AwaitTimes(env, w, i).tick == w.tick + i && AwaitTimes(env, w, i).sent == w.sent
    ensures AwaitTimes(env, w, 1) == Await(env, w)
    ensures AwaitTimes(env, w, 2) == Await(env, Await(env, w))
    ensures AwaitTimes(env, w, 3) == Await(env, Await(env, Await(env, w)))
    ensures AwaitTimes(env, w, 4) == Await(env, Await(env, Await(env, Await(env, w))))
    ensures AwaitTimes(env, w, 5) == Await(env, Await(env, Await(env, Await(env, Await(env, w)))))
  {
    hide Await;
    assert AwaitTimes(env, w, 0) == w;
    forall i: nat | i <= 5
      ensures AwaitTimes(env, w, i).tick == w.tick + i && AwaitTimes(env, w, i).sent == w.sent
    {
      AwaitTicks(env, w, i);
    }
  }

  /** A header sync makes five calls. The first that fails ends it, and nothing is submitted then. */
  lemma SyncStopsAtFailure(env: Env, w: World, height: Uint64, k: nat)
    requires k < 5 && Fails(env, w, k) && forall i :: 0 <= i < k ==> !Fails(env, w, i)
    ensures var (ok, v) := SyncHeader(env, w, height);
            !ok && v == AwaitTimes(env, Note(w, HeaderAt(height)), k + 1) && v.sent == w.sent
  {
    SyncTicks(env, Note(w, HeaderAt(height)));
    assert Fails(env, w, k) && (k > 0 ==> !Fails(env, w, 0)) && (k > 1 ==> !Fails(env, w, 1));
    assert (k > 2 ==> !Fails(env, w, 2)) && (k > 3 ==> !Fails(env, w, 3));
    hide Await, ToUint64, ToInt64, Pending;
  }

  /** When none of the five fails, its transaction is submitted; only a row that is not saved is reported then. */
  lemma SyncSubmits(env: Env, w: World, height: Uint64)
    requires forall i :: 0 <= i < 5 ==> !Fails(env, w, i)
    ensures var (ok, v) := SyncHeader(env, w, height);
            && v.tick == w.tick + 5 && |v.sent| == |w.sent| + 1
            && (ok <==> !env.answers(w.tick + 4).verdict.Unsaved?)
  {
    SyncTicks(env, Note(w, HeaderAt(height)));
    assert !Fails(env, w, 0) && !Fails(env, w, 1) && !Fails(env, w, 2);
    assert !Fails(env, w, 3) && !Fails(env, w, 4);
    hide Await, ToUint64, ToInt64, Pending;
  }

  /** A block is read for its packages by two calls, and is seen exactly when both are answered. */
  lemma MonitorSeesExactly(env: Env, w: World, height: Uint64, carried: Option<Bytes>, dest: Uint16)
    ensures var (seen, v) := MonitorPackages(env, w, height, carried, dest);
            && (seen.Seen? <==> !Fails(env, w, 0) && !Fails(env, w, 1))
            && (seen.Seen? ==> seen.block == env.blocks(ToInt64(height)))
            && v.tick == w.tick + if Fails(env, w, 0) then 1 else 2
  {
    OneTick(env, w);
    OneTick(env, Await(env, w));
    hide Await, TasksOf, ToInt64;
  }

  // Relaying.

  /** From the nonce on: two calls, and what is submitted carries the nonce read. */
  lemma PackageCalls(env: Env, u: World, nonce: Uint64, tx: Tx)
    requires !Fails(env, u, 0) && QueryNonce(env, u).0 == Some(nonce) && tx.nonce == nonce
    ensures var (ok, v) := Submit(env, Await(env, u), tx);
            && (Fails(env, u, 1) ==> !ok && v == AwaitTimes(env, u, 2))
            && (!Fails(env, u, 1) ==>
                  && v.tick == u.tick + 2 && (ok <==> !env.answers(u.tick + 1).verdict.Unsaved?)
                  && |v.sent| > 0 && Some(v.sent[|v.sent| - 1].nonce) == QueryNonce(env, u).0)
  {
    SyncTicks(env, u);
    OneTick(env, u);
    OneTick(env, Await(env, u));
    hide Await, AwaitTimes, ToUint64;
  }

  /** A single relay fetches first. Without a package it makes no further call; then it reads the nonce, and it
      submits with what it read. */
  lemma RelayCalls(env: Env, w: World, task: Task, height: Uint64)
    ensures var (ok, v) := Relay(env, w, task, height);
            var (payload, u) :=
              FetchPackage(env, Note(w, RelayAt(height, task)), ToByte(task.channel), task.sequence, height, 10);
            && (payload.None? ==> !ok && v == u)
            && (payload.Some? && Fails(env, u, 0) ==> !ok && v == Await(env, u))
            && (payload.Some? && !Fails(env, u, 0) && Fails(env, u, 1) ==> !ok && v == AwaitTimes(env, u, 2))
            && (payload.Some? && !Fails(env, u, 0) && !Fails(env, u, 1) ==>
                  && v.tick == u.tick + 2 && (ok <==> !env.answers(u.tick + 1).verdict.Unsaved?)
                  && |v.sent| > 0 && Some(v.sent[|v.sent| - 1].nonce) == QueryNonce(env, u).0)
  {
    hide Await, AwaitTimes, FetchPackage, ToUint64, ToByte, Submit, Add64, ApplyAll, Pending;
    var channel := ToByte(task.channel);
    var (payload, u) := FetchPackage(env, Note(w, RelayAt(height, task)), channel, task.sequence, height, 10);
    if payload.Some? && !Fails(env, u, 0) {
      var nonce := QueryNonce(env, u).0.value;
      PackageCalls(env, u, nonce, PackageTx(nonce, channel, task.sequence, payload.value, Add64(height, 1)));
    }
  }

  /** A batch reads the nonce first, and then nothing is submitted if that fails, or if the first package does not come. */
  lemma BatchCalls(env: Env, w: World, channel: Byte, start: Uint64, end: Uint64, height: Uint64)
    requires start < end
    ensures var (ok, v) := Batch(env, w, channel, start, end, height);
            var (payload, u) := FetchPackage(env, Await(env, w), channel, start, height, 10);
            && (Fails(env, w, 0) ==> !ok && v == Await(env, w))
            && (!Fails(env, w, 0) && payload.None? ==> !ok && v == u)
            && (!Fails(env, w, 0) && payload.Some? && Fails(env, u, 0) ==> !ok && v == Await(env, u))
  {
    hide Await, FetchPackage, ToUint64;
  }

  // One channel of a cleanup.

  /** The cap of a batch: thirty packages, in uint64 arithmetic. Near the end it wraps, and the batch is empty. */
  lemma CapExactly(r: Reading)
    requires r.next > r.deliver
    ensures r.deliver + 30 <= MAX_UINT64 ==> Capped(r) == if r.next - r.deliver > 30 then r.deliver + 30 else r.next
    ensures r.deliver + 30 > MAX_UINT64 ==> Capped(r) < r.deliver
  {
  }

  /** What ends a cleanup at its next channel; the client is switched only when the first of the two reads fails. */
  lemma CleanStopsAtFailure(env: Env, cfg: Config, w: World, height: Uint64, channels: seq<Byte>, blockSynced: bool)
    requires channels != []
    ensures var out := CleanFrom(env, cfg, w, height, channels, blockSynced);
            var w1 := Await(env, w);
            var w2 := Await(env, w1);
            && (Fails(env, w, 0) ==>
                  !out.ok && out.readings == [] && out.world == w1.(rotations := w1.rotations + 1))
            && (!Fails(env, w, 0) && Fails(env, w, 1) ==> !out.ok && out.readings == [] && out.world == w2)
            && (!Fails(env, w, 0) && !Fails(env, w, 1) ==>
                  && |out.readings| > 0 && out.readings[0].channel == channels[0]
                  && QueryBbcCounter(env, w, channels[0], height).0 == Some(out.readings[0].next)
                  && QueryBscCounter(env, w1, channels[0]).0 == Some(out.readings[0].deliver)
                  && var (ok, w3) := Visit(env, w2, height, out.readings[0], blockSynced);
                  !ok ==> !out.ok && |out.readings| == 1 && out.world == w3)
  {
    OneTick(env, w);
    hide Await, Visit, FarBehind, Pending, CountAt, ToUint64, ToInt64;
  }

  /** Both numbers were read for this channel one after the other, in a world the cleanup passed through. */
  ghost predicate ReadOnTheWay(env: Env, w: World, height: Uint64, r: Reading) {
    exists u ::
      && Follows(w, u)
      && var (next, v) := QueryBbcCounter(env, u, r.channel, height);
      next == Some(r.next) && QueryBscCounter(env, v, r.channel).0 == Some(r.deliver)
  }

  lemma ReadAndVisitFollow(env: Env, w: World, height: Uint64, r: Reading, blockSynced: bool)
    ensures var w1 := QueryBbcCounter(env, w, r.channel, height).1;
            var w2 := QueryBscCounter(env, w1, r.channel).1;
            Follows(w, Visit(env, w2, height, r, blockSynced).1)
  {
    hide Follows, Visit, Await;
    var w1 := Await(env, w);
    var w2 := Await(env, w1);
    QueryKeeps(env, w);
    QueryKeeps(env, w1);
    VisitKeeps(env, w2, height, r, blockSynced);
    FollowsTransitive(w, w1, w2);
    FollowsTransitive(w, w2, Visit(env, w2, height, r, blockSynced).1);
  }

  lemma ReadLater(env: Env, w: World, v: World, height: Uint64, r: Reading)
    requires Follows(w, v) && ReadOnTheWay(env, v, height, r)
    ensures ReadOnTheWay(env, w, height, r)
  {
    hide Follows, QueryBbcCounter, QueryBscCounter;
    var u :| Follows(v, u) && var (next, x) := QueryBbcCounter(env, u, r.channel, height);
             next == Some(r.next) && QueryBscCounter(env, x, r.channel).0 == Some(r.deliver);
    FollowsTransitive(w, v, u);
  }

  /** Every reading of a cleanup holds the two counters, Binance Chain's at the cleanup's height first. */
  lemma {:induction false} ReadingsAreReads(env: Env, cfg: Config, w: World, height: Uint64, channels: seq<Byte>,
      blockSynced: bool)
    ensures forall r :: r in CleanFrom(env, cfg, w, height, channels, blockSynced).readings ==>
      ReadOnTheWay(env, w, height, r)
    decreases channels
  {
    hide Follows, Visit, QueryBbcCounter, QueryBscCounter, FarBehind;
    NothingBatched(w, 0, 0, 0, 0);
    if channels == [] {
    } else {
      var (next, w1) := QueryBbcCounter(env, w, channels[0], height);
      var (deliver, w2) := QueryBscCounter(env, w1, channels[0]);
      if next.Some? && deliver.Some? {
        var r := Reading(channels[0], next.value, deliver.value);
        assert ReadOnTheWay(env, w, height, r);
        var (ok, w3) := Visit(env, w2, height, r, blockSynced);
        ReadAndVisitFollow(env, w, height, r, blockSynced);
        if ok {
          var synced := blockSynced || r.next > r.deliver;
          ReadingsAreReads(env, cfg, w3, height, channels[1..], synced);
          forall q | q in CleanFrom(env, cfg, w3, height, channels[1..], synced).readings
            ensures ReadOnTheWay(env, w, height, q)
          {
            ReadLater(env, w, w3, height, q);
          }
        }
      }
    }
  }
}
