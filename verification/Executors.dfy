/** The calls the two executors make on the chains, and what each leaves behind. */
module Executors {
  import opened Machine
  import opened Decimal
  import opened Events
  import opened Chains
  import Keys
  import opened Stores

  const MAX_TRY_TIMES := 10

  // What each operation does to the world, as a function.

  function SyncHeader(env: Env, w: World, height: Uint64): (bool, World) {
    var (nonce, w1) := QueryNonce(env, Note(w, HeaderAt(height)));
    if nonce.None? then (false, w1)
    else
      var (header, w2) := QueryHeader(env, w1, height);
      if header.None? then (false, w2) else Submit(env, w2, HeaderTx(nonce.value, height, header.value))
  }

  /** Up to `tries` queries, until one brings a non-empty value. */
  function FetchPackage(env: Env, w: World, channel: Byte, sequence: Uint64, height: Uint64,
      tries: nat): (Option<Bytes>, World)
    decreases tries
  {
    if tries == 0 then (None, w)
    else
      var (value, w1) := QueryPackage(env, w, channel, sequence, height);
      if value.None? || value.value != [] then (value, w1)
      else FetchPackage(env, w1, channel, sequence, height, tries - 1)
  }

  function CallContract(env: Env, w: World, channel: Byte, sequence: Uint64, payload: Bytes, height: Uint64,
      nonce: Uint64): (bool, World) {
    Submit(env, w, PackageTx(nonce, channel, sequence, payload, Add64(height, 1)))
  }

  function Relay(env: Env, w: World, task: Task, height: Uint64): (bool, World) {
    var channel := ToByte(task.channel);
    var (payload, w1) := FetchPackage(env, Note(w, RelayAt(height, task)), channel, task.sequence, height, MAX_TRY_TIMES);
    if payload.None? then (false, w1)
    else
      var (nonce, w2) := QueryNonce(env, w1);
      if nonce.None? then (false, w2)
      else CallContract(env, w2, channel, task.sequence, payload.value, height, nonce.value)
  }

  function BatchFrom(env: Env, w: World, channel: Byte, sequence: Uint64, end: Uint64, height: Uint64,
      nonce: Uint64): (bool, World)
    decreases end - sequence
  {
    if sequence >= end then (true, w)
    else
      var (payload, w1) := FetchPackage(env, w, channel, sequence, height, MAX_TRY_TIMES);
      if payload.None? then (false, w1)
      else
        var (ok, w2) := CallContract(env, w1, channel, sequence, payload.value, height, nonce);
        if !ok then (false, w2)
        else BatchFrom(env, w2, channel, sequence + 1, end, height, Add64(nonce, 1))
  }

  function Batch(env: Env, w: World, channel: Byte, start: Uint64, end: Uint64, height: Uint64): (bool, World) {
    var (nonce, w1) := QueryNonce(env, w);
    if nonce.None? then (false, w1) else BatchFrom(env, w1, channel, start, end, height, nonce.value)
  }

  datatype Monitored = MonitorFailed | Seen(block: Block, tasks: seq<Task>)

  /** Reading one block for its packages takes two calls. */
  function MonitorPackages(env: Env, w: World, height: Uint64, carried: Option<Bytes>,
      dest: Uint16): (Monitored, World) {
    var (block, w1) := QueryBlock(env, w, height);
    if block.None? then (MonitorFailed, w1)
    else
      var (ok, w2) := QueryOther(env, w1);
      if !ok then (MonitorFailed, w2)
      else (Seen(block.value, TasksOf(carried, block.value, dest)), w2)
  }

  // The executors.

  /** The connection to both chains. */
  class Wire {
    const env: Env
    var world: World

    constructor (env: Env, world: World)
      ensures this.env == env && this.world == world
    {
      this.env := env;
      this.world := world;
    }
  }

  lemma NoEventsNoTasks(dest: Uint16)
    ensures EventTasks([], dest) == []
  {
  }

  lemma EventTasksGrow(events: seq<Event>, i: nat, dest: Uint16)
    requires i < |events|
    ensures EventTasks(events[..i + 1], dest) ==
            EventTasks(events[..i], dest) + AttributeTasks(events[i].kind, events[i].attributes, dest)
  {
    assert events[..i + 1][..i] == events[..i];
  }

  lemma {:induction false} OtherEventsHaveNoTasks(kind: string, attributes: seq<Attribute>, dest: Uint16)
    requires kind != PACKAGE_EVENT
    ensures AttributeTasks(kind, attributes, dest) == []
  {
    if attributes == [] {
    } else {
      OtherEventsHaveNoTasks(kind, attributes[..|attributes| - 1], dest);
    }
  }

  /** Both chain IDs name the pair of chains whose packages the store holds. */
  class BbcExecutor {
    const wire: Wire
    const destChainID: Uint16

    constructor (wire: Wire, destChainID: Uint16)
      ensures this.wire == wire && this.destChainID == destChainID
    {
      this.wire := wire;
      this.destChainID := destChainID;
    }

    method MonitorCrossChainPackage(height: Uint64, preValidatorsHash: Option<Bytes>)
      returns (seen: Monitored, curValidatorsHash: Option<Bytes>)
      modifies wire
      ensures (seen, wire.world) == MonitorPackages(wire.env, old(wire.world), height, preValidatorsHash, destChainID)
      ensures curValidatorsHash == if seen.Seen? then Carry(preValidatorsHash, seen.block) else None
    {
      curValidatorsHash := None;
      var (block, w1) := QueryBlock(wire.env, wire.world, height);
      wire.world := w1;
      if block.None? { return MonitorFailed, None; }
      var (ok, w2) := QueryOther(wire.env, wire.world);
      wire.world := w2;
      if !ok { return MonitorFailed, None; }
      var header := block.value;

      var taskList: seq<Task> := [];
      if preValidatorsHash.Some? {
        if header.validatorsHash != preValidatorsHash.value || header.validatorsHash != header.nextValidatorsHash {
          taskList := taskList + [MARKER];
          curValidatorsHash := Some(header.validatorsHash);
        } else {
          curValidatorsHash := preValidatorsHash;
        }
      }
      assert taskList == if Changed(preValidatorsHash, header) then [MARKER] else [];
      hide EventTasks;
      taskList := AppendEvents(taskList, header.events);
      seen := Seen(header, taskList);
    }

    /** The outer loop of the monitor: the packages of all events of a block. */
    method AppendEvents(before: seq<Task>, events: seq<Event>) returns (taskList: seq<Task>)
      ensures taskList == before + EventTasks(events, destChainID)
    {
      hide *;
      taskList := before;
      ghost var found: seq<Task> := [];
      NoEventsNoTasks(destChainID);
      assert events[..0] == [];
      for i := 0 to |events|
        invariant taskList == before + found
        invariant found == EventTasks(events[..i], destChainID)
      {
        EventTasksGrow(events, i, destChainID);
        found := found + AttributeTasks(events[i].kind, events[i].attributes, destChainID);
        if events[i].kind == PACKAGE_EVENT {
          taskList := AppendTasks(taskList, events[i].attributes);
        } else {
          OtherEventsHaveNoTasks(events[i].kind, events[i].attributes, destChainID);
        }
      }
      assert events[..|events|] == events;
    }

    /** The inner loop of the monitor: the packages of one event. */
    method AppendTasks(before: seq<Task>, attributes: seq<Attribute>) returns (taskList: seq<Task>)
      ensures taskList == before + AttributeTasks(PACKAGE_EVENT, attributes, destChainID)
    {
      taskList := before;
      for j := 0 to |attributes|
        invariant taskList == before + AttributeTasks(PACKAGE_EVENT, attributes[..j], destChainID)
      {
        var tag := attributes[j];
        assert attributes[..j + 1][..j] == attributes[..j];
        if tag.key != PACKAGE_INFO { continue; }
        var items := Split(tag.value);
        if |items| != 3 { continue; }
        var dest := Atoi(items[0]);
        if dest.None? { continue; }
        if ToUint16(dest.value) != destChainID { continue; }
        var channel := Atoi(items[1]);
        if channel.None? { continue; }
        if channel.value > 127 || channel.value < 0 { continue; }
        var sequence := Atoi(items[2]);
        if sequence.None? { continue; }
        if sequence.value < 0 { continue; }
        taskList := taskList + [Task(channel.value, sequence.value)];
      }
      assert attributes[..|attributes|] == attributes;
    }

    method MonitorValidatorSetChange(height: Uint64, preValidatorsHash: Option<Bytes>)
      returns (block: Option<Block>, validatorSetChanged: bool, curValidatorsHash: Option<Bytes>)
      modifies wire
      ensures (block, wire.world) == QueryBlock(wire.env, old(wire.world), height)
      ensures validatorSetChanged == (block.Some? && Changed(preValidatorsHash, block.value))
      ensures curValidatorsHash == if block.Some? then Carry(preValidatorsHash, block.value) else None
    {
      validatorSetChanged := false;
      curValidatorsHash := None;
      var (answer, w1) := QueryBlock(wire.env, wire.world, height);
      wire.world := w1;
      block := answer;
      if block.None? { return; }
      var header := block.value;
      if preValidatorsHash.Some? {
        if header.validatorsHash != preValidatorsHash.value || header.validatorsHash != header.nextValidatorsHash {
          validatorSetChanged := true;
          curValidatorsHash := Some(header.validatorsHash);
        } else {
          curValidatorsHash := preValidatorsHash;
        }
      }
    }

    method GetNextSequence(channelID: Int8, height: Uint64) returns (sequence: Option<Uint64>)
      modifies wire
      ensures (sequence, wire.world) == QueryBbcCounter(wire.env, old(wire.world), ToByte(channelID), height)
    {
      var key := Keys.BuildChannelSequenceKey(destChainID, channelID);
      CounterByKey(wire.env, wire.world, destChainID, channelID, height);
      var (response, w1) := QuerySequenceKey(wire.env, wire.world, destChainID, key[..], height);
      wire.world := w1;
      if response.NoResponse? { return None; }
      if response.value.None? { return Some(0); }
      sequence := Some(Keys.DecodeSequence(response.value));
    }

    /** A query of three calls for the light-client header of a block. */
    method QueryTendermintHeader(height: Uint64) returns (header: Option<Bytes>)
      modifies wire
      ensures (header, wire.world) == QueryHeader(wire.env, old(wire.world), height)
    {
      var (commit, w1) := QueryOther(wire.env, wire.world);
      wire.world := w1;
      if !commit { return None; }
      var (validators, w2) := QueryOther(wire.env, wire.world);
      wire.world := w2;
      if !validators { return None; }
      var (nextValidators, w3) := QueryOther(wire.env, wire.world);
      wire.world := w3;
      if !nextValidators { return None; }
      header := Some(wire.env.headers(ToInt64(height)));
    }
  }

  class BscExecutor {
    const wire: Wire
    const bbcExecutor: BbcExecutor
    const sourceChainID: Uint16
    const destChainID: Uint16

    constructor (bbc: BbcExecutor, sourceChainID: Uint16, destChainID: Uint16)
      ensures wire == bbc.wire && bbcExecutor == bbc
      ensures this.sourceChainID == sourceChainID && this.destChainID == destChainID
    {
      this.wire := bbc.wire;
      this.bbcExecutor := bbc;
      this.sourceChainID := sourceChainID;
      this.destChainID := destChainID;
    }

    method PendingNonce() returns (nonce: Option<Uint64>)
      modifies wire
      ensures (nonce, wire.world) == QueryNonce(wire.env, old(wire.world))
    {
      var (answer, w1) := QueryNonce(wire.env, wire.world);
      wire.world := w1;
      nonce := answer;
    }

    method Send(tx: Tx) returns (ok: bool)
      modifies wire
      ensures (ok, wire.world) == Submit(wire.env, old(wire.world), tx)
    {
      var (answer, w1) := Submit(wire.env, wire.world, tx);
      wire.world := w1;
      ok := answer;
    }

    method SyncTendermintLightClientHeader(height: Uint64) returns (ok: bool)
      requires bbcExecutor.wire == wire
      modifies wire
      ensures (ok, wire.world) == SyncHeader(wire.env, old(wire.world), height)
    {
      wire.world := Note(wire.world, HeaderAt(height));
      var nonce := PendingNonce();
      if nonce.None? { return false; }
      var header := bbcExecutor.QueryTendermintHeader(height);
      if header.None? { return false; }
      ok := Send(HeaderTx(nonce.value, height, header.value));
    }

    method CallBuildInSystemContract(channelID: Int8, height: Uint64, sequence: Uint64, msgBytes: Bytes,
        nonce: Uint64) returns (ok: bool)
      modifies wire
      ensures (ok, wire.world) ==
              CallContract(wire.env, old(wire.world), ToByte(channelID), sequence, msgBytes, height, nonce)
    {
      ok := Send(PackageTx(nonce, ToByte(channelID), sequence, msgBytes, Add64(height, 1)));
    }

    method GetPackage(channelID: Int8, sequence: Uint64, height: Uint64) returns (value: Option<Bytes>)
      modifies wire
      ensures (value, wire.world) ==
              FetchPackage(wire.env, old(wire.world), ToByte(channelID), sequence, height, MAX_TRY_TIMES)
    {
      var key := Keys.BuildCrossChainPackageKey(sourceChainID, destChainID, channelID, sequence);
      ghost var name := key[..];
      var found: Bytes := [];
      var i := 0;
      while i < MAX_TRY_TIMES
        invariant 0 <= i <= MAX_TRY_TIMES && found == [] && key[..] == name
        invariant FetchPackage(wire.env, old(wire.world), ToByte(channelID), sequence, height, MAX_TRY_TIMES) ==
                  FetchPackage(wire.env, wire.world, ToByte(channelID), sequence, height, MAX_TRY_TIMES - i)
      {
        PackageByKey(wire.env, wire.world, sourceChainID, destChainID, channelID, sequence, height);
        var (answer, w1) := QueryPackageKey(wire.env, wire.world, sourceChainID, destChainID, key[..], height);
        wire.world := w1;
        if answer.None? { return None; }
        found := answer.value;
        if |found| != 0 { break; }
        i := i + 1;
      }
      if |found| == 0 { return None; }
      value := Some(found);
    }

    method RelayCrossChainPackage(channelID: Int8, sequence: Uint64, height: Uint64) returns (ok: bool)
      modifies wire
      ensures (ok, wire.world) == Relay(wire.env, old(wire.world), Task(channelID, sequence), height)
    {
      wire.world := Note(wire.world, RelayAt(height, Task(channelID, sequence)));
      var msgBytes := GetPackage(channelID, sequence, height);
      if msgBytes.None? { return false; }
      var nonce := PendingNonce();
      if nonce.None? { return false; }
      ok := CallBuildInSystemContract(channelID, height, sequence, msgBytes.value, nonce.value);
    }

    method BatchRelayCrossChainPackages(channelID: Int8, startSequence: Uint64, endSequence: Uint64,
        height: Uint64) returns (ok: bool)
      modifies wire
      ensures (ok, wire.world) ==
              Batch(wire.env, old(wire.world), ToByte(channelID), startSequence, endSequence, height)
    {
      hide FetchPackage, CallContract, QueryNonce, Add64;
      var entryNonce := PendingNonce();
      if entryNonce.None? { return false; }
      var nonce := entryNonce.value;
      var seqno: Uint64 := startSequence;
      label entry:
      while seqno < endSequence
        invariant BatchFrom(wire.env, old@entry(wire.world), ToByte(channelID), startSequence, endSequence, height, entryNonce.value) ==
                  BatchFrom(wire.env, wire.world, ToByte(channelID), seqno, endSequence, height, nonce)
      {
        var msgBytes := GetPackage(channelID, seqno, height);
        if msgBytes.None? { return false; }
        // An empty value never leaves GetPackage, so the caller's own check for one does nothing.
        var sent := CallBuildInSystemContract(channelID, height, seqno, msgBytes.value, nonce);
        if !sent { return false; }
        nonce := Add64(nonce, 1);
        seqno := seqno + 1;
      }
      ok := true;
    }

    method GetNextSequence(channelID: Int8) returns (sequence: Option<Uint64>)
      modifies wire
      ensures (sequence, wire.world) == QueryBscCounter(wire.env, old(wire.world), ToByte(channelID))
    {
      var (answer, w1) := QueryBscCounter(wire.env, wire.world, ToByte(channelID));
      wire.world := w1;
      sequence := answer;
    }
  }
}
