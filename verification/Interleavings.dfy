/** The double-sign monitor over arbitrary interleavings of the headers of its channels. */
module Interleavings {
  import opened Machine
  import opened DoubleSign

  datatype Arrival = Arrival(channel: nat, header: Header)

  predicate Channels(trace: seq<Arrival>, n: nat) {
    forall i :: 0 <= i < |trace| ==> trace[i].channel < n
  }

  /** The headers that arrived on one channel. */
  function On(trace: seq<Arrival>, channel: nat): seq<Header> {
    if trace == [] then []
    else
      var k := |trace| - 1;
      On(trace[..k], channel) + if trace[k].channel == channel then [trace[k].header] else []
  }

  function CachesAfter(n: nat, trace: seq<Arrival>): (caches: seq<Cache>)
    requires Channels(trace, n)
    ensures |caches| == n
  {
    if trace == [] then seq(n, _ => EMPTY)
    else
      var k := |trace| - 1;
      var caches := CachesAfter(n, trace[..k]);
      caches[trace[k].channel := Push(caches[trace[k].channel], trace[k].header)]
  }

  /** All evidence submitted along a trace. */
  function Submitted(n: nat, trace: seq<Arrival>): seq<Evidence>
    requires Channels(trace, n)
  {
    if trace == [] then []
    else
      var k := |trace| - 1;
      Submitted(n, trace[..k]) + CheckAll(CachesAfter(n, trace[..k]), trace[k].header)
  }

  /** The monitor fed with a trace, one arrival after the other under its mutex. */
  method Monitor(n: nat, trace: seq<Arrival>) returns (monitor: DoubleSignMonitor)
    requires Channels(trace, n)
    ensures fresh(monitor) && monitor.Valid()
    ensures monitor.Caches() == CachesAfter(n, trace) && monitor.submitted == Submitted(n, trace)
  {
    hide CheckAll, Push;
    monitor := new DoubleSignMonitor(n);
    for i := 0 to |trace|
      invariant fresh(monitor) && monitor.Valid()
      invariant monitor.Caches() == CachesAfter(n, trace[..i]) && monitor.submitted == Submitted(n, trace[..i])
    {
      assert trace[..i + 1][..i] == trace[..i];
      monitor.DoubleSignChecker(trace[i].channel, Some(trace[i].header));
    }
    assert trace[..|trace|] == trace;
  }

  /** Channels do not disturb each other: a cache depends on its own channel's headers only. */
  lemma {:induction false} CachesAreIndependent(n: nat, trace: seq<Arrival>, channel: nat)
    requires Channels(trace, n) && channel < n
    ensures CachesAfter(n, trace)[channel] == CacheAfter(On(trace, channel))
  {
    hide Push;
    if trace == [] {
    } else {
      var k := |trace| - 1;
      CachesAreIndependent(n, trace[..k], channel);
      var hs := On(trace[..k], channel);
      assert (hs + [trace[k].header])[..|hs|] == hs;
      assert hs + [] == hs;
    }
  }

  lemma {:induction false} CheckedExactly(caches: seq<Cache>, h: Header, e: Evidence)
    ensures e in CheckAll(caches, h) <==> exists c :: c in caches && e in CheckOne(c, h)
  {
    hide CheckOne;
    if caches == [] {
    } else {
      var k := |caches| - 1;
      CheckedExactly(caches[..k], h, e);
      assert caches == caches[..k] + [caches[k]];
    }
  }

  /** One signer signed both headers, of one number and with different parents, by different signatures. */
  ghost predicate Conflict(b: Header, a: Header) {
    exists s, t, signer ::
      && b.number == a.number && b.parentHash != a.parentHash
      && b.signature == Some(s) && a.signature == Some(t) && s != t
      && b.signer == Some(signer) == a.signer
  }

  lemma ConflictExactly(b: Header, a: Header)
    ensures IsDoubleSign(b, a) <==> Conflict(b, a)
  {
    if IsDoubleSign(b, a) {
      assert b.signature == Some(b.signature.value) && a.signature == Some(a.signature.value)
          && b.signer == Some(b.signer.value);
    }
  }

  /** The caches are checked in order, and each submits at most one piece of evidence: its header of that number,
      when the two conflict. */
  lemma {:induction false} ChecksInOrder(caches: seq<Cache>, more: seq<Cache>, h: Header)
    ensures CheckAll(caches + more, h) == CheckAll(caches, h) + CheckAll(more, h)
    ensures forall c :: CheckAll([c], h) ==
                        if h.number in c.headers && Conflict(h, c.headers[h.number])
                        then [Evidence(h, c.headers[h.number])] else []
  {
    hide Conflict, IsDoubleSign;
    forall c
      ensures CheckAll([c], h) == CheckOne(c, h)
      ensures h.number in c.headers ==> (IsDoubleSign(h, c.headers[h.number]) <==> Conflict(h, c.headers[h.number]))
    {
      assert [c][..0] == [] && CheckAll([c][..0], h) == [];
      if h.number in c.headers { ConflictExactly(h, c.headers[h.number]); }
    }
    if more == [] {
      assert caches + more == caches;
    } else {
      var k := |more| - 1;
      ChecksInOrder(caches, more[..k], h);
      assert (caches + more)[..|caches + more| - 1] == caches + more[..k] && (caches + more)[|caches + more| - 1] == more[k];
    }
  }

  /** Some channel still holds header `a`. */
  ghost predicate Holds(n: nat, trace: seq<Arrival>, a: Header) {
    exists c: nat, p: nat :: c < n && p < |On(trace, c)| && Live(On(trace, c), p) && On(trace, c)[p] == a
  }

  lemma HeldIsLive(hs: seq<Header>, a: Header) returns (p: nat)
    requires var c := CacheAfter(hs); a.number in c.headers && c.headers[a.number] == a
    ensures p < |hs| && Live(hs, p) && hs[p] == a
  {
    CacheInvariant(hs);
    var q :| 0 <= q < |hs| && Live(hs, q) && hs[q].number == a.number;
    p := q;
  }

  lemma LiveIsHeld(hs: seq<Header>, p: nat)
    requires p < |hs| && Live(hs, p)
    ensures var c := CacheAfter(hs); hs[p].number in c.headers && c.headers[hs[p].number] == hs[p]
  {
    CacheInvariant(hs);
  }

  /**
   What is submitted when header b arrives, for any trace before it: (b, a) exactly for the
   headers a that are live on some channel and conflict with b.
   */
  lemma SubmittedExactly(n: nat, trace: seq<Arrival>, b: Header, a: Header)
    requires Channels(trace, n)
    ensures Evidence(b, a) in CheckAll(CachesAfter(n, trace), b) <==> Conflict(b, a) && Holds(n, trace, a)
  {
    ConflictExactly(b, a);
    var caches := CachesAfter(n, trace);
    CheckedExactly(caches, b, Evidence(b, a));
    hide CheckAll, CachesAfter, CacheAfter, Live;
    if Evidence(b, a) in CheckAll(caches, b) {
      var c :| 0 <= c < n && Evidence(b, a) in CheckOne(caches[c], b);
      CachesAreIndependent(n, trace, c);
      var p := HeldIsLive(On(trace, c), a);
    }
    if IsDoubleSign(b, a) && Holds(n, trace, a) {
      var c: nat, p: nat :| c < n && p < |On(trace, c)| && Live(On(trace, c), p) && On(trace, c)[p] == a;
      CachesAreIndependent(n, trace, c);
      LiveIsHeld(On(trace, c), p);
      assert caches[c] in caches && Evidence(b, a) in CheckOne(caches[c], b);
    }
  }

  lemma {:induction false} OnSplits(s: seq<Arrival>, t: seq<Arrival>, channel: nat)
    ensures On(s + t, channel) == On(s, channel) + On(t, channel)
  {
    if t == [] {
      assert s + t == s;
    } else {
      var k := |t| - 1;
      OnSplits(s, t[..k], channel);
      assert (s + t)[..|s + t| - 1] == s + t[..k] && (s + t)[|s + t| - 1] == t[k];
    }
  }

  /** With distinct numbers, a header is live exactly while at most 99 further ones reached its channel. */
  lemma LiveForNinetyNine(before: seq<Header>, a: Header, after: seq<Header>)
    requires DistinctNumbers(before + [a] + after)
    ensures Live(before + [a] + after, |before|) <==> |after| <= 99
  {
    var hs := before + [a] + after;
    if |after| <= 99 {
      WindowIsLiveExactly(hs, |before|);
    } else if Live(hs, |before|) {
      LiveIsInWindow(hs, |before|);
    }
  }

  /**
   Completeness: two conflicting headers arrive, whichever first, on channels whose numbers are
   distinct; if at most 99 further headers reached the first one's channel in between, the
   second arrival causes a submission of the two.
   */
  lemma ConflictIsSubmitted(n: nat, before: seq<Arrival>, first: Arrival, between: seq<Arrival>, second: Arrival)
    requires Channels(before + [first] + between + [second], n)
    requires DistinctNumbers(On(before + [first] + between, first.channel))
    requires Conflict(first.header, second.header)
    requires |On(between, first.channel)| <= 99
    ensures Evidence(second.header, first.header) in Submitted(n, before + [first] + between + [second])
  {
    hide CheckAll, CachesAfter, Live;
    var trace, c := before + [first] + between, first.channel;
    OnSplits(before + [first], between, c);
    OnSplits(before, [first], c);
    assert [first][..0] == [] && On([first], c) == [first.header];
    var p := |On(before, c)|;
    LiveForNinetyNine(On(before, c), first.header, On(between, c));
    assert Holds(n, trace, first.header) by {
      assert c == (before + [first] + between + [second])[|before|].channel < n;
      assert On(trace, c)[p] == first.header;
    }
    assert Channels(trace, n) by {
      forall i | 0 <= i < |trace| ensures trace[i].channel < n {
        assert trace[i] == (trace + [second])[i];
      }
    }
    SubmittedExactly(n, trace, second.header, first.header);
    assert (trace + [second])[..|trace|] == trace;
  }

  /** The bound is tight: after a hundred further headers the first one is gone from its channel. */
  lemma HundredForgets(before: seq<Header>, a: Header, after: seq<Header>)
    requires DistinctNumbers(before + [a] + after) && |after| >= 100
    ensures a.number !in CacheAfter(before + [a] + after).headers
  {
    hide CacheAfter;
    var hs := before + [a] + after;
    DistinctCacheIsWindow(hs);
    assert hs[|before|] == a && |before| < WindowStart(hs);
    forall p | WindowStart(hs) <= p < |hs|
      ensures hs[p].number != a.number
    {
      assert |before| < p;
    }
  }

  lemma ArrivedNow(caches: seq<Cache>, h: Header, e: Evidence)
    requires e in CheckAll(caches, h)
    ensures e.arrived == h
  {
    CheckedExactly(caches, h, e);
  }

  lemma {:induction false} OnArrived(trace: seq<Arrival>, channel: nat, p: nat) returns (i: nat)
    requires p < |On(trace, channel)|
    ensures i < |trace| && trace[i].header == On(trace, channel)[p]
  {
    var k := |trace| - 1;
    if p < |On(trace[..k], channel)| {
      i := OnArrived(trace[..k], channel, p);
    } else {
      i := k;
    }
  }

  /** Everything submitted names two conflicting headers, the second of which really arrived before. */
  lemma {:induction false} SubmittedIsReal(n: nat, trace: seq<Arrival>, e: Evidence)
    requires Channels(trace, n) && e in Submitted(n, trace)
    ensures exists i, j :: 0 <= i < j < |trace| && trace[i].header == e.cached && trace[j].header == e.arrived &&
                           Conflict(e.arrived, e.cached)
  {
    hide CheckAll, CachesAfter, Live, Conflict;
    var k := |trace| - 1;
    if e in Submitted(n, trace[..k]) {
      SubmittedIsReal(n, trace[..k], e);
      var i, j :| 0 <= i < j < k && trace[..k][i].header == e.cached && trace[..k][j].header == e.arrived;
      assert trace[i].header == e.cached && trace[j].header == e.arrived;
    } else {
      var h := trace[k].header;
      ArrivedNow(CachesAfter(n, trace[..k]), h, e);
      SubmittedExactly(n, trace[..k], h, e.cached);
      var c: nat, p: nat :| c < n && p < |On(trace[..k], c)| && Live(On(trace[..k], c), p)
          && On(trace[..k], c)[p] == e.cached;
      var i := OnArrived(trace[..k], c, p);
      assert trace[i].header == e.cached && trace[k].header == e.arrived;
    }
  }

  // Duplicate numbers.

  /** Number 7 twice, then 99 other numbers. */
  function Duplicated(): seq<Header> {
    seq(101, i requires 0 <= i < 101 => Header(if i <= 1 then 7 else 1000 + i, [i], [], None, None))
  }

  /** With duplicates the keys need not be the list: 7 still stands in the list, but its header is gone. */
  lemma DuplicateIsForgotten()
    ensures var c := CacheAfter(Duplicated());
            7 in c.numbers && 7 !in c.headers
  {
    var hs := Duplicated();
    CacheInvariant(hs);
    var c := CacheAfter(hs);
    hide CacheAfter, Live;
    assert c.numbers[0] == hs[1].number;
    assert Repeats(hs, 0, 1);
    WindowIsLiveExactly(hs, 1);
    forall p | 0 <= p < |hs| && Live(hs, p)
      ensures hs[p].number != 7
    {
      LiveIsInWindow(hs, p);
    }
  }

  lemma LatestIsUnique(hs: seq<Header>, p: nat, r: nat)
    requires p < |hs| && r < |hs| && Live(hs, r) && hs[r].number == hs[p].number
    requires forall t :: p < t < |hs| ==> hs[t].number != hs[p].number
    ensures r == p
  {
  }

  /** The latest arrival of the number of arrival k. */
  lemma Latest(hs: seq<Header>, k: nat) returns (p: nat)
    requires k < |hs|
    ensures k <= p < |hs| && hs[p].number == hs[k].number
    ensures forall t :: p < t < |hs| ==> hs[t].number != hs[p].number
    decreases |hs| - k
  {
    if t :| k < t < |hs| && hs[t].number == hs[k].number {
      p := Latest(hs, t);
    } else {
      p := k;
    }
  }

  /** The keys are exactly the numbers in the list if and only if no number was pushed out after it arrived again. */
  lemma KeysAreTheListExactly(hs: seq<Header>)
    ensures var c := CacheAfter(hs);
            (forall n :: n in c.numbers <==> n in c.headers) <==> !exists q: nat, p: nat :: Repeats(hs, q, p)
  {
    CacheInvariant(hs);
    CacheIsBounded(hs);
    var c := CacheAfter(hs);
    hide CacheAfter, Live;
    if q: nat, p: nat :| Repeats(hs, q, p) {
      assert c.numbers[p - WindowStart(hs)] == hs[p].number;
      WindowIsLiveExactly(hs, p);
      if hs[p].number in c.headers {
        var r :| 0 <= r < |hs| && Live(hs, r) && hs[r].number == hs[p].number;
        LatestIsUnique(hs, p, r);
      }
    } else {
      forall n | n in c.numbers
        ensures n in c.headers
      {
        var k :| 0 <= k < |c.numbers| && c.numbers[k] == n;
        var p := Latest(hs, WindowStart(hs) + k);
        WindowIsLiveExactly(hs, p);
        LiveIsHeld(hs, p);
      }
    }
  }
}
