/** The two daemons: what one round of each loop does, and any number of rounds. */
module Daemons {
  import opened Machine
  import opened Events
  import opened Chains
  import opened Executors
  import opened Cleanup

  const HEIGHT_BEHIND_THRESHOLD: Uint64 := 10

  /** How a round that read its block went on. */
  datatype Ending =
    | Cleaned          // a cleanup took the place of the tasks
    | Skipped          // nothing to relay
    | HeaderFailed     // the proof header was not synced; the height is tried again
    | Relayed

  /** One round: the height before it, the latest height reported, and what was done. */
  datatype Round =
    | CaughtUp(height: Uint64, latest: Uint64)
    | BlockFailed(height: Uint64, latest: Uint64)
    | BlockRead(height: Uint64, latest: Uint64, block: Block, tasks: seq<Task>, headerSync: bool, ending: Ending)

  /** A daemon's loop variables, the world it acts on, and the rounds so far. */
  datatype Daemon = Daemon(height: Uint64, carried: Option<Bytes>, needAccelerate: bool, world: World,
      rounds: seq<Round>)

  /** A failed query reads as height 0. */
  function LatestHeight(env: Env, w: World): (Uint64, World) {
    var (answer, w1) := QueryTip(env, w);
    (if answer.None? then 0 else answer.value, w1)
  }

  /** Every task is attempted; errors are only logged. */
  function RelayAll(env: Env, w: World, tasks: seq<Task>, height: Uint64): World {
    if tasks == [] then w
    else Relay(env, RelayAll(env, w, tasks[..|tasks| - 1], height), tasks[|tasks| - 1], height).1
  }

  predicate StartsWithMarker(tasks: seq<Task>) {
    tasks != [] && tasks[0].channel == -1
  }

  // Competition mode.

  /** Far behind: clean up one below the latest height and go on at the latest. */
  function CatchUp(env: Env, cfg: Config, d: Daemon, latest: Uint64): Daemon {
    var latestHeight := Sub64(latest, 1);
    d.(height := Add64(latestHeight, 1),
       world := Clean(env, cfg, d.world, latestHeight).world,
       rounds := d.rounds + [CaughtUp(d.height, latest)])
  }

  function CompetitionEnding(env: Env, cfg: Config, w: World, height: Uint64, tasks: seq<Task>): (Ending, World)
    requires cfg.Valid()
  {
    if height % cfg.competitionInterval == 0 then
      (Cleaned, Clean(env, cfg, w, height).world)
    else if tasks == [] || (|tasks| == 1 && tasks[0].channel == -1) then
      (Skipped, w)
    else
      var (ok, w1) := SyncHeader(env, w, Add64(height, 1));
      if !ok then (HeaderFailed, w1) else (Relayed, RelayAll(env, w1, tasks, height))
  }

  function ReadRound(env: Env, cfg: Config, d: Daemon, latest: Uint64): Daemon
    requires cfg.Valid()
  {
    var (seen, w2) := MonitorPackages(env, d.world, d.height, d.carried, cfg.destChainID);
    if seen.MonitorFailed? then
      d.(carried := None, world := w2, rounds := d.rounds + [BlockFailed(d.height, latest)])
    else
      var headerSync := StartsWithMarker(seen.tasks);
      var w3 := if headerSync then SyncHeader(env, w2, d.height).1 else w2;
      var (ending, w4) := CompetitionEnding(env, cfg, w3, d.height, seen.tasks);
      d.(height := if ending.HeaderFailed? then d.height else Add64(d.height, 1),
         carried := Carry(d.carried, seen.block),
         world := w4,
         rounds := d.rounds + [BlockRead(d.height, latest, seen.block, seen.tasks, headerSync, ending)])
  }

  function CompetitionRound(env: Env, cfg: Config, d: Daemon): Daemon
    requires cfg.Valid()
  {
    var (latest, w1) := LatestHeight(env, d.world);
    if Sub64(latest, 1) > Add64(d.height, cfg.behindBlockThreshold)
    then CatchUp(env, cfg, d.(world := w1), latest)
    else ReadRound(env, cfg, d.(world := w1), latest)
  }

  function CompetitionRun(env: Env, cfg: Config, d: Daemon, n: nat): Daemon
    requires cfg.Valid()
  {
    if n == 0 then d else CompetitionRound(env, cfg, CompetitionRun(env, cfg, d, n - 1))
  }

  /** Competition mode starts with a cleanup. */
  function CompetitionStart(env: Env, cfg: Config, w: World, startHeight: Uint64, hash: Option<Bytes>): Daemon {
    Daemon(startHeight, hash, false, Clean(env, cfg, w, startHeight).world, [])
  }

  // Normal mode.

  /** The height a round works at, and whether it has to accelerate. */
  function Accelerated(d: Daemon, latest: Uint64): (Uint64, bool) {
    if latest > Add64(d.height, HEIGHT_BEHIND_THRESHOLD) then (latest, true) else (d.height, d.needAccelerate)
  }

  function NormalEnding(env: Env, cfg: Config, w: World, height: Uint64, due: bool): (bool, World) {
    if due then
      var out := Clean(env, cfg, w, height);
      (out.needAccelerate, out.world)
    else (false, w)
  }

  function NormalRound(env: Env, cfg: Config, d: Daemon): Daemon
    requires cfg.Valid()
  {
    var (latest, w1) := LatestHeight(env, d.world);
    var (height, accelerate) := Accelerated(d, latest);
    var (block, w2) := QueryBlock(env, w1, height);
    if block.None? then
      Daemon(height, None, accelerate, w2, d.rounds + [BlockFailed(height, latest)])
    else
      var headerSync := Changed(d.carried, block.value);
      var w3 := if headerSync then SyncHeader(env, w2, height).1 else w2;
      var due := accelerate || height % cfg.normalInterval == 0;
      var (again, w4) := NormalEnding(env, cfg, w3, height, due);
      Daemon(Add64(height, 1), Carry(d.carried, block.value), again, w4,
             d.rounds + [BlockRead(height, latest, block.value, [], headerSync, if due then Cleaned else Skipped)])
  }

  function NormalRun(env: Env, cfg: Config, d: Daemon, n: nat): Daemon
    requires cfg.Valid()
  {
    if n == 0 then d else NormalRound(env, cfg, NormalRun(env, cfg, d, n - 1))
  }

  /** Normal mode starts at the latest height, or at 0 when that query fails. */
  function NormalStart(env: Env, w: World, hash: Option<Bytes>): Daemon {
    var (height, w1) := LatestHeight(env, w);
    Daemon(height, hash, false, w1, [])
  }
}
