/**
 The two chains as the relayer meets them. An `Env` fixes one future: before the call number
 `tick` is answered, the chains make the moves `answers(tick).moves`, and then the call fails,
 is served, or is served badly. A statement about all environments is one about all runs.

 Assumption on the BSC contract, which is visible only through its interface: a package is
 accepted exactly when its sequence equals the channel's receive counter and the header of its
 proof height is synced; a header sync is always accepted.
 */
module Chains {
  import opened Machine
  import opened Events

  // Binance Chain: per channel, the packages in sequence order and the block that stored each.

  datatype StoredPackage = StoredPackage(payload: Bytes, height: nat)

  type Store = map<Byte, seq<StoredPackage>>

  function Log(store: Store, channel: Byte): seq<StoredPackage> {
    if channel in store then store[channel] else []
  }

  /** The next sequence of a channel in the state after block `height`. */
  function CountAt(log: seq<StoredPackage>, height: int): nat {
    if log == [] || log[0].height > height then 0 else 1 + CountAt(log[1..], height)
  }

  lemma {:induction false} CountAtBound(log: seq<StoredPackage>, height: int)
    ensures CountAt(log, height) <= |log|
    ensures forall i :: 0 <= i < CountAt(log, height) ==> log[i].height <= height
  {
    if log == [] || log[0].height > height {
    } else {
      CountAtBound(log[1..], height);
      forall i | 0 <= i < CountAt(log, height)
        ensures log[i].height <= height
      {
        if i > 0 { assert log[i] == log[1..][i - 1]; }
      }
    }
  }

  /** The value stored for a package in the state after block `height`; empty when there is none. */
  function Lookup(store: Store, channel: Byte, sequence: nat, height: int): Bytes {
    var log := Log(store, channel);
    if sequence < CountAt(log, height) then CountAtBound(log, height); log[sequence].payload else []
  }

  // Binance Smart Chain: what was delivered on each channel, and the synced header heights.

  datatype Delivery = Delivery(sequence: nat, payload: Bytes)

  datatype Contract = Contract(delivered: map<Byte, seq<Delivery>>, headers: set<Uint64>)

  datatype Tx =
    | HeaderTx(nonce: Uint64, height: Uint64, header: Bytes)
    | PackageTx(nonce: Uint64, channel: Byte, sequence: Uint64, payload: Bytes, proofHeight: Uint64)

  function Delivered(c: Contract, channel: Byte): seq<Delivery> {
    if channel in c.delivered then c.delivered[channel] else []
  }

  function Counter(c: Contract, channel: Byte): nat {
    |Delivered(c, channel)|
  }

  predicate Accepts(c: Contract, tx: Tx) {
    match tx
    case HeaderTx(_, _, _) => true
    case PackageTx(_, channel, sequence, _, proofHeight) =>
      sequence == Counter(c, channel) && proofHeight in c.headers
  }

  function Deliver(c: Contract, channel: Byte, payload: Bytes): Contract {
    c.(delivered := c.delivered[channel := Delivered(c, channel) + [Delivery(Counter(c, channel), payload)]])
  }

  function Execute(c: Contract, tx: Tx): Contract {
    if !Accepts(c, tx) then c
    else
      match tx
      case HeaderTx(_, height, _) => c.(headers := c.headers + {height})
      case PackageTx(_, channel, _, payload, _) => Deliver(c, channel, payload)
  }

  function ExecuteAll(c: Contract, txs: seq<Tx>): Contract {
    if txs == [] then c else Execute(ExecuteAll(c, txs[..|txs| - 1]), txs[|txs| - 1])
  }

  predicate AllAccepted(c: Contract, txs: seq<Tx>) {
    txs == [] ||
    (AllAccepted(c, txs[..|txs| - 1]) && Accepts(ExecuteAll(c, txs[..|txs| - 1]), txs[|txs| - 1]))
  }

  // The world: both chains, this relayer's transactions, and a record of what it attempted.

  datatype Attempt =
    | HeaderAt(height: Uint64)
    | RelayAt(height: Uint64, task: Task)
    | CleanupAt(height: Uint64)

  datatype World = World(
    tip: Uint64,              // latest block of Binance Chain
    store: Store,
    contract: Contract,
    pool: seq<Tx>,            // this relayer's transactions not yet executed
    mined: nat,               // how many of them were executed
    sent: seq<Tx>,            // every transaction it ever submitted
    attempts: seq<Attempt>,   // header syncs, single relays and cleanups it started
    rotations: nat,           // calls of SwitchBCClient
    tick: nat                 // external calls made
  )

  datatype Move =
    | Grow(tip: Uint64)
    | Commit(channel: Byte, payload: Bytes, block: nat)
    | Mine(i: nat)            // some pending transaction is executed, not necessarily the oldest
    | Drop(i: nat)
    | RivalPackage(channel: Byte)
    | RivalHeader(height: Uint64)

  datatype Verdict =
    | Failed
    | Fine
    | Stale(value: Uint64)    // a number is read wrongly
    | Blank                   // a package query comes back empty
    | Unsaved                 // a transaction is submitted but its row is not saved

  datatype Answer = Answer(moves: seq<Move>, verdict: Verdict)

  /** `headers` are the encoded light-client headers of the blocks. */
  datatype Env = Env(answers: nat -> Answer, blocks: int -> Block, headers: int -> Bytes)

  function Without(pool: seq<Tx>, i: nat): seq<Tx>
    requires i < |pool|
  {
    pool[..i] + pool[i + 1..]
  }

  function Apply(w: World, m: Move): World {
    match m
    case Grow(tip) => w.(tip := tip)
    case Commit(channel, payload, block) =>
      var log := Log(w.store, channel);
      if log != [] && block < log[|log| - 1].height then w
      else w.(store := w.store[channel := log + [StoredPackage(payload, block)]])
    case Mine(i) =>
      if i < |w.pool|
      then w.(contract := Execute(w.contract, w.pool[i]), pool := Without(w.pool, i), mined := w.mined + 1)
      else w
    case Drop(i) => if i < |w.pool| then w.(pool := Without(w.pool, i)) else w
    case RivalPackage(channel) =>
      var k := Counter(w.contract, channel);
      if k < |Log(w.store, channel)|
      then w.(contract := Deliver(w.contract, channel, Log(w.store, channel)[k].payload))
      else w
    case RivalHeader(height) => w.(contract := w.contract.(headers := w.contract.headers + {height}))
  }

  function ApplyAll(w: World, moves: seq<Move>): World {
    if moves == [] then w else Apply(ApplyAll(w, moves[..|moves| - 1]), moves[|moves| - 1])
  }

  /** The world at the moment the next call is answered. */
  function Await(env: Env, w: World): World {
    ApplyAll(w.(tick := w.tick + 1), env.answers(w.tick).moves)
  }

  function VerdictOf(env: Env, w: World): Verdict {
    env.answers(w.tick).verdict
  }

  /** The contract state with all pending transactions of this relayer executed in order. */
  function Pending(w: World): Contract {
    ExecuteAll(w.contract, w.pool)
  }

  /** A read of a number whose true value is `truth`. */
  function Number(v: Verdict, truth: nat): Option<Uint64> {
    match v
    case Failed => None
    case Stale(x) => Some(x)
    case _ => Some(ToUint64(truth))
  }

  function QueryTip(env: Env, w: World): (Option<Uint64>, World) {
    var w1 := Await(env, w);
    (Number(VerdictOf(env, w), w1.tip), w1)
  }

  function QueryNonce(env: Env, w: World): (Option<Uint64>, World) {
    var w1 := Await(env, w);
    (Number(VerdictOf(env, w), w1.mined + |w1.pool|), w1)
  }

  /** The sequence counter on Binance Chain after block int64(height); a blank answer reads as 0. */
  function QueryBbcCounter(env: Env, w: World, channel: Byte, height: Uint64): (Option<Uint64>, World) {
    var w1 := Await(env, w);
    var v := VerdictOf(env, w);
    (if v.Blank? then Some(0) else Number(v, CountAt(Log(w1.store, channel), ToInt64(height))), w1)
  }

  /** The receive counter on Binance Smart Chain, read on the pending state. */
  function QueryBscCounter(env: Env, w: World, channel: Byte): (Option<Uint64>, World) {
    var w1 := Await(env, w);
    (Number(VerdictOf(env, w), Counter(Pending(w1), channel)), w1)
  }

  /** The package stored under a key after block int64(height). A node would answer height 0 with its latest
      state and refuse a negative height; here both are answered like any other height. */
  function QueryPackage(env: Env, w: World, channel: Byte, sequence: Uint64, height: Uint64): (Option<Bytes>, World) {
    var w1 := Await(env, w);
    match VerdictOf(env, w)
    case Failed => (None, w1)
    case Blank => (Some([]), w1)
    case _ => (Some(Lookup(w1.store, channel, sequence, ToInt64(height))), w1)
  }

  /** A query whose content the model does not look at: did it succeed? */
  function QueryOther(env: Env, w: World): (bool, World) {
    (!VerdictOf(env, w).Failed?, Await(env, w))
  }

  /** The light-client header of a block takes three calls: its commit, its validators and the next ones. */
  function QueryHeader(env: Env, w: World, height: Uint64): (Option<Bytes>, World) {
    var (commit, w1) := QueryOther(env, w);
    if !commit then (None, w1)
    else
      var (validators, w2) := QueryOther(env, w1);
      if !validators then (None, w2)
      else
        var (nextValidators, w3) := QueryOther(env, w2);
        (if nextValidators then Some(env.headers(ToInt64(height))) else None, w3)
  }

  function QueryBlock(env: Env, w: World, height: Uint64): (Option<Block>, World) {
    (if VerdictOf(env, w).Failed? then None else Some(env.blocks(ToInt64(height))), Await(env, w))
  }

  /** Submit a transaction and save its row; the error does not tell which of the two failed. */
  function Submit(env: Env, w: World, tx: Tx): (bool, World) {
    var w1 := Await(env, w);
    if VerdictOf(env, w).Failed? then (false, w1)
    else (!VerdictOf(env, w).Unsaved?, w1.(pool := w1.pool + [tx], sent := w1.sent + [tx]))
  }

  function Note(w: World, a: Attempt): World {
    w.(attempts := w.attempts + [a])
  }
}
