/** Which validator-set changes the daemons notice: all of them until a block read fails, none afterwards. */
module HashTracking {
  import opened Machine
  import opened Events
  import opened Chains
  import opened Executors
  import opened Cleanup
  import opened Daemons
  import opened Runs

  /** What one round does to the carried hash. */
  function CarriedOn(carried: Option<Bytes>, r: Round): Option<Bytes> {
    if r.CaughtUp? then carried else if r.BlockFailed? then None else Carry(carried, r.block)
  }

  /** The hash carried after some rounds. */
  function HashAfter(start: Option<Bytes>, rounds: seq<Round>): Option<Bytes> {
    if rounds == [] then start
    else
      var n := |rounds| - 1;
      CarriedOn(HashAfter(start, rounds[..n]), rounds[n])
  }

  /** The validators hash of the latest block read, or `start`. */
  function LastSeen(start: Bytes, rounds: seq<Round>): Bytes {
    if rounds == [] then start
    else
      var n := |rounds| - 1;
      if rounds[n].BlockRead? then rounds[n].block.validatorsHash else LastSeen(start, rounds[..n])
  }

  /** In every round the header was synced exactly when the carried hash called for it. */
  ghost predicate Tracked(start: Option<Bytes>, rounds: seq<Round>) {
    forall i :: 0 <= i < |rounds| && rounds[i].BlockRead? ==>
                  (rounds[i].headerSync <==> Changed(HashAfter(start, rounds[..i]), rounds[i].block))
  }

  lemma TrackedGrows(start: Option<Bytes>, rounds: seq<Round>, r: Round)
    requires Tracked(start, rounds)
    requires r.BlockRead? ==> (r.headerSync <==> Changed(HashAfter(start, rounds), r.block))
    ensures Tracked(start, rounds + [r])
  {
    hide HashAfter, Changed;
    var all := rounds + [r];
    assert all[..|rounds|] == rounds;
    forall i | 0 <= i < |all| && all[i].BlockRead?
      ensures all[i].headerSync <==> Changed(HashAfter(start, all[..i]), all[i].block)
    {
      if i < |rounds| {
        assert all[..i] == rounds[..i] && all[i] == rounds[i];
      }
    }
  }

  lemma HashAfterGrows(start: Option<Bytes>, rounds: seq<Round>, r: Round)
    ensures HashAfter(start, rounds + [r]) == CarriedOn(HashAfter(start, rounds), r)
  {
    assert (rounds + [r])[..|rounds|] == rounds;
  }

  ghost predicate CarriesOn(d: Daemon, e: Daemon) {
    && |e.rounds| == |d.rounds| + 1
    && var r := e.rounds[|d.rounds|];
    && e.rounds == d.rounds + [r]
    && e.carried == CarriedOn(d.carried, r)
    && (r.BlockRead? ==> (r.headerSync <==> Changed(d.carried, r.block)))
  }

  lemma ReadRoundCarries(env: Env, cfg: Config, d: Daemon, latest: Uint64)
    requires cfg.Valid()
    ensures CarriesOn(d, ReadRound(env, cfg, d, latest))
  {
    var (seen, w2) := MonitorPackages(env, d.world, d.height, d.carried, cfg.destChainID);
    if seen.Seen? {
      MarkerOnlyInFront(d.carried, seen.block, cfg.destChainID);
      assert StartsWithMarker(seen.tasks) <==> Changed(d.carried, seen.block);
    }
    hide MonitorPackages, SyncHeader, CompetitionEnding, Carry, Add64, Changed, StartsWithMarker, TasksOf,
        QueryBlock, QueryOther;
  }

  lemma CompetitionCarries(env: Env, cfg: Config, d: Daemon)
    requires cfg.Valid()
    ensures CarriesOn(d, CompetitionRound(env, cfg, d))
  {
    hide LatestHeight, Clean, SyncHeader, CompetitionEnding, Carry, Add64, Sub64;
    var (latest, w1) := LatestHeight(env, d.world);
    if Sub64(latest, 1) <= Add64(d.height, cfg.behindBlockThreshold) {
      ReadRoundCarries(env, cfg, d.(world := w1), latest);
    }
  }

  lemma NormalCarries(env: Env, cfg: Config, d: Daemon)
    requires cfg.Valid()
    ensures CarriesOn(d, NormalRound(env, cfg, d))
  {
    hide LatestHeight, QueryBlock, SyncHeader, NormalEnding, Carry, Add64, Changed;
  }

  lemma TrackedStep(start: Option<Bytes>, d: Daemon, e: Daemon)
    requires CarriesOn(d, e) && Tracked(start, d.rounds) && d.carried == HashAfter(start, d.rounds)
    ensures Tracked(start, e.rounds) && e.carried == HashAfter(start, e.rounds) && |e.rounds| == |d.rounds| + 1
  {
    hide HashAfter, Changed, Carry;
    var r := e.rounds[|d.rounds|];
    TrackedGrows(start, d.rounds, r);
    HashAfterGrows(start, d.rounds, r);
  }

  lemma NothingTracked(start: Option<Bytes>)
    ensures Tracked(start, [])
  {
  }

  lemma {:induction false} CompetitionTracks(env: Env, cfg: Config, d: Daemon, n: nat)
    requires cfg.Valid() && d.rounds == []
    ensures var e := CompetitionRun(env, cfg, d, n);
            |e.rounds| == n && Tracked(d.carried, e.rounds) && e.carried == HashAfter(d.carried, e.rounds)
  {
    hide CompetitionRound, Tracked, CarriesOn;
    if n == 0 {
      NothingTracked(d.carried);
    } else {
      CompetitionTracks(env, cfg, d, n - 1);
      var e := CompetitionRun(env, cfg, d, n - 1);
      CompetitionCarries(env, cfg, e);
      TrackedStep(d.carried, e, CompetitionRound(env, cfg, e));
    }
  }

  lemma {:induction false} NormalTracks(env: Env, cfg: Config, d: Daemon, n: nat)
    requires cfg.Valid() && d.rounds == []
    ensures var e := NormalRun(env, cfg, d, n);
            |e.rounds| == n && Tracked(d.carried, e.rounds) && e.carried == HashAfter(d.carried, e.rounds)
  {
    hide NormalRound, Tracked, CarriesOn;
    if n == 0 {
      NothingTracked(d.carried);
    } else {
      NormalTracks(env, cfg, d, n - 1);
      var e := NormalRun(env, cfg, d, n - 1);
      NormalCarries(env, cfg, e);
      TrackedStep(d.carried, e, NormalRound(env, cfg, e));
    }
  }

  lemma {:induction false} FailureForgets(start: Option<Bytes>, rounds: seq<Round>, j: nat)
    requires j < |rounds| && rounds[j].BlockFailed?
    ensures HashAfter(start, rounds) == None
  {
    var n := |rounds| - 1;
    if j >= n {
    } else {
      FailureForgets(start, rounds[..n], j);
    }
  }

  lemma {:induction false} SuccessRemembers(start: Bytes, rounds: seq<Round>)
    requires forall j :: 0 <= j < |rounds| ==> !rounds[j].BlockFailed?
    ensures HashAfter(Some(start), rounds) == Some(LastSeen(start, rounds))
  {
    if rounds == [] {
    } else {
      SuccessRemembers(start, rounds[..|rounds| - 1]);
    }
  }

  /** Until the first failed read: the hash differs from that of the previous block read, or from its own
      next hash. Afterwards: never. */
  ghost predicate Noticed(start: Bytes, rounds: seq<Round>, i: nat)
    requires i < |rounds| && rounds[i].BlockRead?
  {
    && (forall j :: 0 <= j < i ==> !rounds[j].BlockFailed?)
    && (rounds[i].block.validatorsHash != LastSeen(start, rounds[..i]) ||
        rounds[i].block.validatorsHash != rounds[i].block.nextValidatorsHash)
  }

  lemma TrackedNotices(start: Bytes, rounds: seq<Round>, i: nat)
    requires Tracked(Some(start), rounds) && i < |rounds| && rounds[i].BlockRead?
    ensures rounds[i].headerSync <==> Noticed(start, rounds, i)
  {
    hide HashAfter, LastSeen;
    var before := rounds[..i];
    if j :| 0 <= j < i && rounds[j].BlockFailed? {
      assert before[j] == rounds[j];
      FailureForgets(Some(start), before, j);
    } else {
      SuccessRemembers(start, before);
    }
  }

  lemma CarriedAfter(start: Bytes, rounds: seq<Round>)
    ensures HashAfter(Some(start), rounds) ==
            if exists r :: r in rounds && r.BlockFailed? then None else Some(LastSeen(start, rounds))
  {
    hide HashAfter, LastSeen;
    if r :| r in rounds && r.BlockFailed? {
      var j :| 0 <= j < |rounds| && rounds[j] == r;
      FailureForgets(Some(start), rounds, j);
    } else {
      SuccessRemembers(start, rounds);
    }
  }

  /** Round number n of a run that led from `d` to `e`: the header of its block was synced exactly when its
      change was noticed, and the hash carried on is that of the last block read, or nil after a failure. */
  ghost predicate SyncsWhenNoticed(start: Bytes, d: Daemon, e: Daemon, n: nat) {
    && |e.rounds| == n + 1
    && (e.rounds[n].BlockRead? ==>
          (HeaderAt(e.rounds[n].height) in Since(d.world, e.world) <==> Noticed(start, e.rounds, n)))
    && e.carried == if exists r :: r in e.rounds && r.BlockFailed? then None else Some(LastSeen(start, e.rounds))
  }

  /** Both daemons, every round of every run: header sync is attempted exactly at changes until the first failed
      read and never afterwards, when the carried hash stays nil. */
  lemma DaemonsNoticeChanges(env: Env, cfg: Config, d: Daemon, start: Bytes, n: nat)
    requires cfg.Valid() && d.rounds == [] && d.carried == Some(start)
    ensures SyncsWhenNoticed(start, CompetitionRun(env, cfg, d, n), CompetitionRun(env, cfg, d, n + 1), n)
    ensures SyncsWhenNoticed(start, NormalRun(env, cfg, d, n), NormalRun(env, cfg, d, n + 1), n)
  {
    hide CompetitionRound, NormalRound, Tracked, HashAfter, LastSeen, Noticed, Since, Stretch, Runs.Kept, Ended, TasksOf,
        EventTasks;
    CompetitionTracks(env, cfg, d, n);
    CompetitionTracks(env, cfg, d, n + 1);
    CompetitionRecorded(env, cfg, CompetitionRun(env, cfg, d, n));
    NormalTracks(env, cfg, d, n);
    NormalTracks(env, cfg, d, n + 1);
    NormalRecorded(env, cfg, NormalRun(env, cfg, d, n));
    var c, e := CompetitionRun(env, cfg, d, n + 1), NormalRun(env, cfg, d, n + 1);
    if c.rounds[n].BlockRead? { TrackedNotices(start, c.rounds, n); }
    if e.rounds[n].BlockRead? { TrackedNotices(start, e.rounds, n); }
    CarriedAfter(start, c.rounds);
    CarriedAfter(start, e.rounds);
  }
}
