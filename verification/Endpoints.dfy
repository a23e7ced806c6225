/** Choosing among the configured endpoints: health rounds and switches of one executor. */
module Endpoints {
  import opened Machine

  const FALL_BEHIND_THRESHOLD := 5

  /** The index and the greatest positive height, first occurrence; 0 and 0 when none is positive. */
  function Highest(heights: seq<Int64>): (nat, Int64) {
    if heights == [] then (0, 0)
    else
      var n := |heights| - 1;
      var best := Highest(heights[..n]);
      if heights[n] > best.1 then (n, heights[n]) else best
  }

  function Probed(heights: seq<Int64>, probes: seq<Option<Int64>>): seq<Int64>
    requires |probes| == |heights|
  {
    seq(|heights|, i requires 0 <= i < |heights| => if probes[i].Some? then probes[i].value else heights[i])
  }

  /** The switch a health round decides on, if any. The sum is an int64 sum. */
  function Decision(heights: seq<Int64>, idx: nat): Option<nat>
    requires idx < |heights|
  {
    var best := Highest(heights);
    if ToInt64(heights[idx] + FALL_BEHIND_THRESHOLD) < best.1 then Some(best.0) else None
  }

  function NextIndex(idx: nat, n: nat): nat {
    if idx + 1 >= n then 0 else idx + 1
  }

  class EndpointPool {
    const heights: array<Int64>   // the CurrentHeight of each client
    var clientIdx: nat

    ghost predicate Valid()
      reads this
    {
      clientIdx < heights.Length
    }

    constructor (clients: nat)
      requires clients > 0
      ensures Valid() && clientIdx == 0 && heights.Length == clients && fresh(heights)
      ensures forall i :: 0 <= i < clients ==> heights[i] == 0
    {
      heights := new Int64[clients](_ => 0);
      clientIdx := 0;
    }

    method SwitchClient()
      requires Valid()
      modifies this`clientIdx
      ensures Valid() && clientIdx == NextIndex(old(clientIdx), heights.Length)
    {
      clientIdx := clientIdx + 1;
      if clientIdx >= heights.Length {
        clientIdx := 0;
      }
    }

    /** One turn of UpdateClients; `probes` are the heights the clients report, None on an error. */
    method UpdateClients(probes: seq<Option<Int64>>)
      requires Valid() && |probes| == heights.Length
      modifies this`clientIdx, heights
      ensures Valid() && heights[..] == Probed(old(heights[..]), probes)
      ensures forall k :: 0 <= k < heights.Length ==>
                heights[k] == if probes[k].Some? then probes[k].value else old(heights[k])
      ensures clientIdx == match Decision(heights[..], old(clientIdx)) { case None => old(clientIdx) case Some(i) => i }
    {
      for i := 0 to heights.Length
        invariant forall k :: 0 <= k < heights.Length ==>
                    heights[k] == if k < i && probes[k].Some? then probes[k].value else old(heights[..])[k]
        invariant clientIdx == old(clientIdx)
      {
        if probes[i].None? { continue; }
        heights[i] := probes[i].value;
      }
      var highestHeight: Int64 := 0;
      var highestIdx := 0;
      for idx := 0 to heights.Length
        invariant (highestIdx, highestHeight) == Highest(heights[..idx]) && highestIdx < heights.Length
      {
        assert heights[..idx + 1][..idx] == heights[..idx];
        if heights[idx] > highestHeight {
          highestHeight := heights[idx];
          highestIdx := idx;
        }
      }
      assert heights[..heights.Length] == heights[..];
      if ToInt64(heights[clientIdx] + FALL_BEHIND_THRESHOLD) < highestHeight {
        clientIdx := highestIdx;
      }
    }
  }

  lemma {:induction false} HighestIsMaximum(heights: seq<Int64>)
    ensures var best := Highest(heights);
            && 0 <= best.1 && (forall h :: h in heights ==> h <= best.1)
            && (heights != [] ==> best.0 < |heights| && (best.1 > 0 ==> heights[best.0] == best.1))
            && (best.1 == 0 ==> best.0 == 0)
  {
    if heights == [] {
    } else {
      var n := |heights| - 1;
      HighestIsMaximum(heights[..n]);
      assert heights == heights[..n] + [heights[n]];
    }
  }

  /** Strictly before the chosen one all heights are smaller. */
  lemma {:induction false} HighestIsFirst(heights: seq<Int64>)
    ensures var best := Highest(heights);
            best.1 > 0 ==> best.0 < |heights| && forall i :: 0 <= i < best.0 ==> heights[i] < best.1
  {
    if heights == [] {
    } else {
      var n := |heights| - 1;
      HighestIsFirst(heights[..n]);
      HighestIsMaximum(heights[..n]);
      assert forall i :: 0 <= i < n ==> heights[..n][i] == heights[i] && heights[..n][i] in heights[..n];
    }
  }

  /**
   When a health round leaves its client: when some height exceeds the current one by more than 5, when the
   current one is below -5, or when adding 5 overflows. It then takes the first client of the greatest
   height, or client 0 when no height is positive.
   */
  lemma DecisionExactly(heights: seq<Int64>, idx: nat)
    requires idx < |heights|
    ensures var d := Decision(heights, idx);
            var current: int := heights[idx];
            && (d.Some? <==>
                || (exists h :: h in heights && h > current + 5)
                || current + 5 < 0 || current + 5 >= 0x8000_0000_0000_0000)
            && (d.Some? && (forall h :: h in heights ==> h <= 0) ==> d.value == 0)
            && (d.Some? && (exists h :: h in heights && h > 0) ==>
                  && d.value < |heights|
                  && (forall i :: 0 <= i < |heights| ==> heights[i] <= heights[d.value])
                  && (forall i :: 0 <= i < d.value ==> heights[i] < heights[d.value]))
  {
    HighestIsMaximum(heights);
    HighestIsFirst(heights);
    hide Highest;
    var best := Highest(heights);
    assert best.1 > 0 ==> heights[best.0] in heights;
    assert forall i :: 0 <= i < |heights| ==> heights[i] in heights;
  }

  /** A client that does not answer keeps its height. */
  lemma ProbedExactly(heights: seq<Int64>, probes: seq<Option<Int64>>, i: nat)
    requires |probes| == |heights| && i < |heights|
    ensures |Probed(heights, probes)| == |heights|
    ensures Probed(heights, probes)[i] == match probes[i] case None => heights[i] case Some(h) => h
  {
  }

  /** Within 5 of the best, the client is kept. */
  lemma CloseClientIsKept()
    ensures Decision([100, 103], 0) == None && Decision([100, 105], 0) == None && Decision([100, 106, 106], 0) == Some(1)
  {
    assert 106 in [100, 106, 106];
    DecisionExactly([100, 103], 0);
    DecisionExactly([100, 105], 0);
    DecisionExactly([100, 106, 106], 0);
  }

  /** A round without a switch in between: the chosen client, unless its height is negative, is within 5 of every other. */
  lemma RoundChoosesWell(heights: seq<Int64>, idx: nat)
    requires idx < |heights|
    ensures var d := Decision(heights, idx);
            var chosen := if d.Some? then d.value else idx;
            && chosen < |heights|
            && (heights[chosen] >= 0 ==> forall h :: h in heights ==> h <= heights[chosen] + FALL_BEHIND_THRESHOLD)
  {
    HighestIsMaximum(heights);
  }

  // Interleavings. A switch is two statements under the mutex; a health round reads the index without it.

  /** `decided` is a switch of a health round waiting for the mutex; `locked` says that a switch holds the mutex. */
  datatype Pool = Pool(idx: nat, heights: seq<Int64>, decided: Option<nat>, locked: bool)

  datatype Step =
    | Increment      // a switch takes the mutex and increments the index
    | Wrap           // it wraps the index and gives the mutex back
    | GetClient      // a caller picks the client, under the mutex
    | Probe(i: nat, height: Int64)
    | Decide         // a health round compares the client it reads without the mutex
    | Assign         // it takes the mutex and assigns the index it decided on

  /** Can this step be taken now? Only one health round runs, and the mutex keeps out what needs it. */
  predicate Enabled(p: Pool, s: Step) {
    match s
    case Increment => !p.locked
    case Wrap => p.locked
    case GetClient => !p.locked
    case Probe(i, _) => p.decided.None? && i < |p.heights|
    case Decide => p.decided.None?
    case Assign => p.decided.Some? && !p.locked
  }

  /** The step reads the client at an index that does not exist, and ends the program. */
  predicate OutOfRange(p: Pool, s: Step) {
    (s.GetClient? || s.Decide?) && p.idx >= |p.heights|
  }

  function Take(p: Pool, s: Step): Pool
    requires Enabled(p, s) && !OutOfRange(p, s)
  {
    match s
    case Increment => p.(idx := p.idx + 1, locked := true)
    case Wrap => p.(idx := if p.idx >= |p.heights| then 0 else p.idx, locked := false)
    case GetClient => p
    case Probe(i, height) => p.(heights := p.heights[i := height])
    case Decide => p.(decided := Decision(p.heights, p.idx))
    case Assign => p.(idx := p.decided.value, decided := None)
  }

  datatype Run = Running(pool: Pool) | Crashed | Blocked   // Blocked: a step was not enabled

  function TakeAll(p: Pool, steps: seq<Step>): Run {
    if steps == [] then Running(p)
    else
      var n := |steps| - 1;
      var front := TakeAll(p, steps[..n]);
      if !front.Running? then front
      else if !Enabled(front.pool, steps[n]) then Blocked
      else if OutOfRange(front.pool, steps[n]) then Crashed
      else Running(Take(front.pool, steps[n]))
  }

  /** The index from which a switch under way started, if there is one. */
  function SwitchingFrom(p: Pool, steps: seq<Step>): Option<nat> {
    if steps == [] then None
    else
      var n := |steps| - 1;
      match steps[n]
      case Increment => (match TakeAll(p, steps[..n]) case Running(q) => Some(q.idx) case _ => None)
      case Wrap => None
      case _ => SwitchingFrom(p, steps[..n])
  }

  /** The index is in range unless a switch is under way; then it is one above where that switch started. */
  ghost predicate Settled(q: Pool, from: Option<nat>) {
    && (q.decided.Some? ==> q.decided.value < |q.heights|)
    && (q.locked <==> from.Some?)
    && match from
       case None => q.idx < |q.heights|
       case Some(i) => i < |q.heights| && q.idx == i + 1
  }

  lemma TakeSettles(q: Pool, s: Step, from: Option<nat>)
    requires Settled(q, from) && Enabled(q, s)
    ensures OutOfRange(q, s) <==> s.Decide? && from == Some(|q.heights| - 1)
    ensures !OutOfRange(q, s) ==>
      && |Take(q, s).heights| == |q.heights|
      && Settled(Take(q, s), if s.Increment? then Some(q.idx) else if s.Wrap? then None else from)
      && (s.Wrap? ==> Take(q, s).idx == NextIndex(from.value, |q.heights|))
  {
    HighestIsMaximum(q.heights);
  }

  /**
   However health rounds, switches and callers interleave: between the steps the index is in range, or one
   above the index a switch under way started from. Every access under the mutex is in range. The unlocked
   read of a health round is out of range if and only if it falls between the two statements of a switch
   from the last endpoint.
   */
  lemma {:induction false} IndexStaysInRange(p: Pool, steps: seq<Step>)
    requires !p.locked && Settled(p, None)
    ensures var run := TakeAll(p, steps);
            run.Running? ==>
              && Settled(run.pool, SwitchingFrom(p, steps)) && |run.pool.heights| == |p.heights|
              && forall s :: Enabled(run.pool, s) ==>
                (OutOfRange(run.pool, s) <==> s.Decide? && SwitchingFrom(p, steps) == Some(|p.heights| - 1))
  {
    hide Decision;
    if steps == [] {
    } else {
      var n := |steps| - 1;
      IndexStaysInRange(p, steps[..n]);
      var front := TakeAll(p, steps[..n]);
      if front.Running? && Enabled(front.pool, steps[n]) {
        TakeSettles(front.pool, steps[n], SwitchingFrom(p, steps[..n]));
      }
    }
    var run := TakeAll(p, steps);
    if run.Running? {
      forall s | Enabled(run.pool, s)
        ensures OutOfRange(run.pool, s) <==> s.Decide? && SwitchingFrom(p, steps) == Some(|p.heights| - 1)
      {
        TakeSettles(run.pool, s, SwitchingFrom(p, steps));
      }
    }
  }

  /** A health round reads the index while a switch from the last endpoint is under way. */
  ghost predicate ReadsMidSwitch(p: Pool, steps: seq<Step>, k: nat) {
    && k < |steps| && steps[k].Decide?
    && TakeAll(p, steps[..k]).Running? && Enabled(TakeAll(p, steps[..k]).pool, Decide)
    && SwitchingFrom(p, steps[..k]) == Some(|p.heights| - 1)
  }

  /** A schedule crashes exactly when it contains such a read. */
  lemma {:induction false} CrashesExactly(p: Pool, steps: seq<Step>)
    requires !p.locked && Settled(p, None)
    ensures TakeAll(p, steps).Crashed? <==> exists k: nat :: ReadsMidSwitch(p, steps, k)
  {
    hide Decision, Settled, SwitchingFrom, Take;
    if steps == [] {
    } else {
      var n := |steps| - 1;
      CrashesExactly(p, steps[..n]);
      IndexStaysInRange(p, steps[..n]);
      assert forall k :: 0 <= k <= n ==> steps[..n][..k] == steps[..k];
      assert forall k: nat :: k < n ==> (ReadsMidSwitch(p, steps[..n], k) <==> ReadsMidSwitch(p, steps, k));
      if TakeAll(p, steps).Crashed? {
        if TakeAll(p, steps[..n]).Crashed? {
          var k: nat :| ReadsMidSwitch(p, steps[..n], k);
          assert ReadsMidSwitch(p, steps, k);
        } else {
          assert ReadsMidSwitch(p, steps, n);
        }
      }
      if k: nat :| ReadsMidSwitch(p, steps, k) {
        if k < n { assert ReadsMidSwitch(p, steps[..n], k); }
      }
    }
  }

  /** With a single endpoint every switch can be met by a health round at the wrong moment. */
  lemma OneEndpointCrashes()
    ensures TakeAll(Pool(0, [7], None, false), [Increment, Decide]) == Crashed
  {
    var steps := [Increment, Decide];
    assert steps[..1] == [Increment] && steps[..1][..0] == [];
  }

  /** The index after k consecutive switches. */
  function Switched(idx: nat, n: nat, k: nat): nat {
    if k == 0 then idx else NextIndex(Switched(idx, n, k - 1), n)
  }

  lemma {:induction false} SwitchedIs(idx: nat, n: nat, k: nat)
    requires idx < n && k <= n
    ensures Switched(idx, n, k) == if idx + k < n then idx + k else idx + k - n
  {
    if k == 0 {
    } else {
      SwitchedIs(idx, n, k - 1);
    }
  }

  ghost predicate Visits(idx: nat, n: nat, endpoint: nat) {
    exists k: nat :: k < n && Switched(idx, n, k) == endpoint
  }

  /** n consecutive switches visit each of the n endpoints once and return to the first. */
  lemma SwitchesVisitEach(idx: nat, n: nat)
    requires idx < n
    ensures Switched(idx, n, n) == idx
    ensures forall j, k :: 0 <= j < k < n ==> Switched(idx, n, j) != Switched(idx, n, k)
    ensures forall e: nat :: e < n ==> Visits(idx, n, e)
  {
    forall k: nat | k <= n
      ensures Switched(idx, n, k) == if idx + k < n then idx + k else idx + k - n
    {
      SwitchedIs(idx, n, k);
    }
    forall e: nat | e < n
      ensures Visits(idx, n, e)
    {
      var k: nat := if e >= idx then e - idx else e + n - idx;
      assert Switched(idx, n, k) == e;
    }
  }
}
