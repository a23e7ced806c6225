/** The single relays of a competition round, for a relayer that is alone: which of them are accepted. */
module Relays {
  import opened Machine
  import opened Events
  import opened Chains
  import opened Executors
  import opened Daemons
  import opened Delivery
  import opened Convergence

  /** How many tasks are for a channel byte. */
  function Count(tasks: seq<Task>, channel: Byte): nat {
    if tasks == [] then 0
    else
      var n := |tasks| - 1;
      Count(tasks[..n], channel) + if ToByte(tasks[n].channel) == channel then 1 else 0
  }

  /** On every channel the tasks go on from the contract's counter, one after the other. */
  ghost predicate InSequence(c: Contract, tasks: seq<Task>) {
    forall i :: 0 <= i < |tasks| ==>
      var channel := ToByte(tasks[i].channel);
      tasks[i].sequence == Counter(c, channel) + Count(tasks[..i], channel)
  }

  /** Which of the tasks became transactions. */
  function Submitted(env: Env, w: World, tasks: seq<Task>, height: Uint64): (flags: seq<bool>)
    ensures |flags| == |tasks|
  {
    if tasks == [] then []
    else
      var n := |tasks| - 1;
      Submitted(env, w, tasks[..n], height) +
      [RelayAll(env, w, tasks, height).sent != RelayAll(env, w, tasks[..n], height).sent]
  }

  /** No task became a transaction although an earlier one of its channel did not. */
  ghost predicate NoneSkipped(tasks: seq<Task>, flags: seq<bool>)
    requires |flags| == |tasks|
  {
    forall i, j :: 0 <= i < j < |tasks| && ToByte(tasks[i].channel) == ToByte(tasks[j].channel) && flags[j] ==> flags[i]
  }

  function CountFlagged(tasks: seq<Task>, flags: seq<bool>, channel: Byte): nat
    requires |flags| == |tasks|
  {
    if tasks == [] then 0
    else
      var n := |tasks| - 1;
      CountFlagged(tasks[..n], flags[..n], channel) +
      if ToByte(tasks[n].channel) == channel && flags[n] then 1 else 0
  }

  lemma {:induction false} AllFlaggedExactly(tasks: seq<Task>, flags: seq<bool>, channel: Byte)
    requires |flags| == |tasks|
    ensures CountFlagged(tasks, flags, channel) <= Count(tasks, channel)
    ensures CountFlagged(tasks, flags, channel) == Count(tasks, channel) <==>
            forall i :: 0 <= i < |tasks| && ToByte(tasks[i].channel) == channel ==> flags[i]
  {
    if tasks == [] {
    } else {
      var n := |tasks| - 1;
      AllFlaggedExactly(tasks[..n], flags[..n], channel);
      assert forall i :: 0 <= i < n ==> tasks[..n][i] == tasks[i] && flags[..n][i] == flags[i];
    }
  }

  lemma NoneSkippedGrows(tasks: seq<Task>, flags: seq<bool>)
    requires tasks != [] && |flags| == |tasks|
    ensures var n := |tasks| - 1;
            NoneSkipped(tasks, flags) <==>
            && NoneSkipped(tasks[..n], flags[..n])
            && (flags[n] ==> forall i :: 0 <= i < n && ToByte(tasks[i].channel) == ToByte(tasks[n].channel) ==> flags[i])
  {
    var n := |tasks| - 1;
    assert forall i :: 0 <= i < n ==> tasks[..n][i] == tasks[i] && flags[..n][i] == flags[i];
  }

  lemma FirstNonce(w: World)
    ensures ToUint64(w.mined + |w.pool| + 0) == NextNonce(w)
  {
  }

  /** One relay: no transaction, or one for the task, proved against the next header, with the next nonce. */
  lemma RelayAppended(env: Env, w: World, task: Task, height: Uint64)
    requires Alone(env)
    ensures var v := Relay(env, w, task, height).1;
            && Appended(w, v) && ConsecutiveNonces(w, v)
            && (v.sent == w.sent ==> New(w, v) == [] && Pending(v) == Pending(w))
            && (v.sent != w.sent ==>
                  exists payload ::
                    var tx := PackageTx(NextNonce(w), ToByte(task.channel), task.sequence, payload, Add64(height, 1));
                    New(w, v) == [tx] && Pending(v) == Execute(Pending(w), tx))
  {
    hide FetchPackage, Await, VerdictOf, Submit, Pending, Execute, Clear, ToUint64, Add64, ExecuteAll;
    var channel := ToByte(task.channel);
    var w0 := Note(w, RelayAt(height, task));
    EmptyNote(w, RelayAt(height, task));
    FetchAlone(env, w0, channel, task.sequence, height, MAX_TRY_TIMES);
    var (payload, w1) := FetchPackage(env, w0, channel, task.sequence, height, MAX_TRY_TIMES);
    OrderlyRefl(w0, w1);
    OrderlyTransitive(w, w0, w1);
    if payload.Some? {
      AloneAwait(env, w1);
      var (nonce, w2) := QueryNonce(env, w1);
      OrderlyRefl(w1, w2);
      OrderlyTransitive(w, w1, w2);
      if nonce.Some? {
        var tx := PackageTx(nonce.value, channel, task.sequence, payload.value, Add64(height, 1));
        SubmitAppended(env, w2, tx);
        var v := Submit(env, w2, tx).1;
        AppendedTransitive(w, w2, v);
        FirstNonce(w);
        if v.sent != w.sent {
          assert New(w, v) == [tx];
        }
      }
    }
  }

  /** After the first tasks: what the pending counters are when nothing was rejected so far. */
  ghost predicate Advanced(w: World, v: World, tasks: seq<Task>, flags: seq<bool>, header: Uint64)
    requires |flags| == |tasks|
  {
    && Appended(w, v) && ConsecutiveNonces(w, v)
    && (AllAccepted(Pending(w), New(w, v)) <==> NoneSkipped(tasks, flags))
    && (AllAccepted(Pending(w), New(w, v)) ==>
          && header in Pending(v).headers
          && forall c :: Counter(Pending(v), c) == Counter(Pending(w), c) + CountFlagged(tasks, flags, c))
  }

  lemma AdvanceIdle(w: World, u: World, v: World, tasks: seq<Task>, flags: seq<bool>, header: Uint64)
    requires tasks != [] && |flags| == |tasks| && !flags[|tasks| - 1]
    requires Advanced(w, u, tasks[..|tasks| - 1], flags[..|tasks| - 1], header)
    requires Appended(w, v) && ConsecutiveNonces(w, v) && New(w, v) == New(w, u) && Pending(v) == Pending(u)
    ensures Advanced(w, v, tasks, flags, header)
  {
    hide Pending, Appended, ConsecutiveNonces, New, AllAccepted, NoneSkipped;
    NoneSkippedGrows(tasks, flags);
  }

  lemma AdvanceOne(w: World, u: World, v: World, tasks: seq<Task>, flags: seq<bool>, header: Uint64, tx: Tx)
    requires tasks != [] && |flags| == |tasks| && flags[|tasks| - 1]
    requires Advanced(w, u, tasks[..|tasks| - 1], flags[..|tasks| - 1], header)
    requires Appended(w, v) && ConsecutiveNonces(w, v) && New(w, v) == New(w, u) + [tx]
    requires Pending(v) == Execute(Pending(u), tx) && Pending(u) == ExecuteAll(Pending(w), New(w, u))
    requires var task := tasks[|tasks| - 1];
             && tx.PackageTx? && tx.channel == ToByte(task.channel) && tx.proofHeight == header
             && tx.sequence == Counter(Pending(w), tx.channel) + Count(tasks[..|tasks| - 1], tx.channel)
    ensures Advanced(w, v, tasks, flags, header)
  {
    var n := |tasks| - 1;
    var before := AllAccepted(Pending(w), New(w, u));
    assert AllAccepted(Pending(w), New(w, v)) == (before && Accepts(Pending(u), tx)) by {
      hide Accepts, Execute, Pending, New, Appended, ConsecutiveNonces;
      ExecuteAllAppend(Pending(w), New(w, u), [tx]);
      SingleAccepted(Pending(u), tx);
    }
    hide Pending, Appended, ConsecutiveNonces, New, AllAccepted, NoneSkipped, ExecuteAll;
    NoneSkippedGrows(tasks, flags);
    AllFlaggedExactly(tasks[..n], flags[..n], tx.channel);
    assert forall i :: 0 <= i < n ==> tasks[..n][i] == tasks[i] && flags[..n][i] == flags[i];
    if before && Accepts(Pending(u), tx) {
      CountOne(Pending(u), tx);
    }
  }

  lemma NothingAdvanced(w: World, header: Uint64)
    requires header in Pending(w).headers && Orderly(w, w) && New(w, w) == []
    ensures Advanced(w, w, [], [], header)
  {
    hide Pending, New;
  }

  lemma AdvancedIsAppended(w: World, v: World, tasks: seq<Task>, flags: seq<bool>, header: Uint64)
    requires |flags| == |tasks| && Advanced(w, v, tasks, flags, header)
    ensures Appended(w, v) && ConsecutiveNonces(w, v) && Pending(v) == ExecuteAll(Pending(w), New(w, v))
  {
  }

  lemma {:induction false} RelaysAdvance(env: Env, w: World, tasks: seq<Task>, height: Uint64)
    requires Alone(env) && Add64(height, 1) in Pending(w).headers && InSequence(Pending(w), tasks)
    ensures Advanced(w, RelayAll(env, w, tasks, height), tasks, Submitted(env, w, tasks, height), Add64(height, 1))
  {
    hide Pending, Appended, ConsecutiveNonces, New, AllAccepted, NoneSkipped, ExecuteAll, Execute, Relay, Alone, Advanced;
    var header := Add64(height, 1);
    if tasks == [] {
      StillRefl(w);
      OrderlyRefl(w, w);
      NothingAdvanced(w, header);
    } else {
      var n := |tasks| - 1;
      var u := RelayAll(env, w, tasks[..n], height);
      var flags := Submitted(env, w, tasks, height);
      assert forall i :: 0 <= i < n ==> tasks[..n][..i] == tasks[..i];
      RelaysAdvance(env, w, tasks[..n], height);
      assert flags[..n] == Submitted(env, w, tasks[..n], height);
      AdvancedIsAppended(w, u, tasks[..n], flags[..n], header);
      RelayAppended(env, u, tasks[n], height);
      var v := Relay(env, u, tasks[n], height).1;
      AppendedTransitive(w, u, v);
      NoncesTransitive(w, u, v);
      if v.sent == u.sent {
        assert New(w, u) + [] == New(w, u);
        AdvanceIdle(w, u, v, tasks, flags, header);
      } else {
        var payload :|
          var tx := PackageTx(NextNonce(u), ToByte(tasks[n].channel), tasks[n].sequence, payload, header);
          New(u, v) == [tx] && Pending(v) == Execute(Pending(u), tx);
        AdvanceOne(w, u, v, tasks, flags, header, New(u, v)[0]);
      }
    }
  }

  lemma SameCounters(a: Contract, b: Contract, tasks: seq<Task>)
    requires Served(a, b, 0, 0) && InSequence(a, tasks)
    ensures InSequence(b, tasks)
  {
    assert forall c :: Counter(b, c) == Counter(a, c);
  }

  /**
   The relaying end of a competition round, once its proof header was submitted: with tasks that go on
   from the pending counters, all submissions are accepted in nonce order exactly when no task was
   submitted after an earlier one of its channel was not. One failed relay is thus enough to have the
   channel's later packages of the block rejected.
   */
  lemma RoundAcceptedExactly(env: Env, w: World, tasks: seq<Task>, height: Uint64)
    requires Alone(env) && InSequence(Pending(w), tasks)
    requires SyncHeader(env, w, Add64(height, 1)).0
    ensures var u := SyncHeader(env, w, Add64(height, 1)).1;
            var v := RelayAll(env, u, tasks, height);
            && Appended(w, v) && ConsecutiveNonces(w, v)
            && (AllAccepted(Pending(w), New(w, v)) <==> NoneSkipped(tasks, Submitted(env, u, tasks, height)))
  {
    hide Pending, New, AllAccepted, NoneSkipped, ExecuteAll, SyncHeader, RelayAll, Alone, ConsecutiveNonces, Shape;
    var header := Add64(height, 1);
    var u := SyncHeader(env, w, header).1;
    var v := RelayAll(env, u, tasks, height);
    SyncOrderly(env, w, header, 0);
    SameCounters(Pending(w), Pending(u), tasks);
    RelaysAdvance(env, u, tasks, height);
    AppendedTransitive(w, u, v);
    NoncesTransitive(w, u, v);
    ExecuteAllAppend(Pending(w), New(w, u), New(u, v));
  }

  lemma {:induction false} StoredAreSubmitted(env: Env, w: World, tasks: seq<Task>, height: Uint64)
    requires Answering(env)
    requires forall i :: 0 <= i < |tasks| ==>
      Lookup(w.store, ToByte(tasks[i].channel), tasks[i].sequence, ToInt64(height)) != []
    ensures var v := RelayAll(env, w, tasks, height);
            && v.store == w.store && |v.sent| == |w.sent| + |tasks|
            && forall i :: 0 <= i < |tasks| ==> Submitted(env, w, tasks, height)[i]
  {
    hide Answering, Lookup, Relay, ToByte, ToInt64;
    if tasks == [] {
    } else {
      var n := |tasks| - 1;
      assert forall i :: 0 <= i < n ==> tasks[..n][i] == tasks[i];
      StoredAreSubmitted(env, w, tasks[..n], height);
      RelayedExactly(env, RelayAll(env, w, tasks[..n], height), tasks[n], height);
    }
  }

  /**
   When nothing fails and all packages of a block are stored and in sequence, the relaying end of the
   round succeeds: the header and one package for each task are submitted, and all are accepted.
   */
  lemma StoredRoundIsAccepted(env: Env, w: World, tasks: seq<Task>, height: Uint64)
    requires Perfect(env) && InSequence(Pending(w), tasks)
    requires forall i :: 0 <= i < |tasks| ==>
      Lookup(w.store, ToByte(tasks[i].channel), tasks[i].sequence, ToInt64(height)) != []
    ensures var (ok, u) := SyncHeader(env, w, Add64(height, 1));
            var v := RelayAll(env, u, tasks, height);
            && ok && |New(w, v)| == |tasks| + 1
            && AllAccepted(Pending(w), New(w, v)) && ConsecutiveNonces(w, v)
  {
    assert Answering(env) && Alone(env);
    hide Answering, Alone, Lookup, RelayAll, Pending, SyncHeader, InSequence, ConsecutiveNonces, AllAccepted,
        ToByte, ToInt64,
        ExecuteAll, Shape, Add64;
    var header := Add64(height, 1);
    SyncSucceeds(env, w, header);
    SyncOrderly(env, w, header, 0);
    var u := SyncHeader(env, w, header).1;
    StoredAreSubmitted(env, u, tasks, height);
    RoundAcceptedExactly(env, w, tasks, height);
  }
}
