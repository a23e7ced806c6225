/** The double-sign monitor: per channel a FIFO of header numbers beside a map of headers. */
module DoubleSign {
  import opened Machine

  const MAX_CACHE_HEADER := 100

  /** A block header with what can be extracted from it; extraction of the last two can fail. */
  datatype Header = Header(number: Int64, parentHash: Bytes, content: Bytes, signature: Option<Bytes>,
      signer: Option<Bytes>)

  /** Two headers by which one signer signed two blocks of one number. */
  predicate IsDoubleSign(a: Header, b: Header) {
    && a.number == b.number
    && a.parentHash != b.parentHash
    && a.signature.Some? && b.signature.Some? && a.signature != b.signature
    && a.signer.Some? && b.signer.Some? && a.signer == b.signer
  }

  datatype Cache = Cache(numbers: seq<Int64>, headers: map<Int64, Header>)

  datatype Evidence = Evidence(arrived: Header, cached: Header)

  const EMPTY := Cache([], map[])

  function Push(c: Cache, h: Header): Cache {
    if |c.numbers| >= MAX_CACHE_HEADER
    then Cache(c.numbers[1..] + [h.number], (c.headers - {c.numbers[0]})[h.number := h])
    else Cache(c.numbers + [h.number], c.headers[h.number := h])
  }

  function CheckOne(c: Cache, h: Header): seq<Evidence> {
    if h.number in c.headers && IsDoubleSign(h, c.headers[h.number]) then [Evidence(h, c.headers[h.number])] else []
  }

  /** The evidence submitted for an arriving header, channel by channel. */
  function CheckAll(caches: seq<Cache>, h: Header): seq<Evidence> {
    if caches == [] then [] else CheckAll(caches[..|caches| - 1], h) + CheckOne(caches[|caches| - 1], h)
  }

  ghost function CachesOf(numbers: seq<seq<Int64>>, headers: seq<map<Int64, Header>>): seq<Cache>
    requires |numbers| == |headers|
  {
    seq(|numbers|, i requires 0 <= i < |numbers| => Cache(numbers[i], headers[i]))
  }

  lemma CheckAllGrows(caches: seq<Cache>, i: nat, h: Header)
    requires i < |caches|
    ensures CheckAll(caches[..i + 1], h) == CheckAll(caches[..i], h) + CheckOne(caches[i], h)
  {
    assert caches[..i + 1][..i] == caches[..i];
  }

  class DoubleSignMonitor {
    var ethereumHeaderNumbers: seq<seq<Int64>>
    var ethereumHeaders: seq<map<Int64, Header>>
    var submitted: seq<Evidence>   // evidence handed to Binance Chain, accepted or not

    ghost predicate Valid()
      reads this
    {
      |ethereumHeaderNumbers| == |ethereumHeaders|
    }

    ghost function Caches(): seq<Cache>
      reads this
      requires Valid()
    {
      CachesOf(ethereumHeaderNumbers, ethereumHeaders)
    }

    constructor (channels: nat)
      ensures Valid() && Caches() == seq(channels, _ => EMPTY) && submitted == []
    {
      ethereumHeaderNumbers := seq(channels, _ => []);
      ethereumHeaders := seq(channels, _ => map[]);
      submitted := [];
    }

    method DoubleSignChecker(channelNumber: nat, header: Option<Header>)
      requires Valid() && channelNumber < |ethereumHeaders|
      modifies this
      ensures Valid()
      ensures header.None? ==> Caches() == old(Caches()) && submitted == old(submitted)
      ensures header.Some? ==>
                && Caches() == old(Caches())[channelNumber := Push(old(Caches())[channelNumber], header.value)]
                && submitted == old(submitted) + CheckAll(old(Caches()), header.value)
    {
      if header.None? { return; }
      var number := header.value.number;
      ghost var caches := Caches();
      hide Push, IsDoubleSign;
      for i := 0 to |ethereumHeaders|
        invariant submitted == old(submitted) + CheckAll(caches[..i], header.value)
        invariant Valid() && Caches() == caches && |ethereumHeaders| == |caches|
      {
        CheckAllGrows(caches, i, header.value);
        if number !in ethereumHeaders[i] { continue; }
        var previousHeader := ethereumHeaders[i][number];
        if !IsDoubleSign(header.value, previousHeader) { continue; }
        submitted := submitted + [Evidence(header.value, previousHeader)];
      }
      assert caches[..|caches|] == caches;
      Remember(channelNumber, header.value);
    }

    /** The second half: push out the oldest number of a full cache, then enter the header. */
    method Remember(channelNumber: nat, header: Header)
      requires Valid() && channelNumber < |ethereumHeaders|
      modifies this`ethereumHeaderNumbers, this`ethereumHeaders
      ensures Valid() && Caches() == old(Caches())[channelNumber := Push(old(Caches())[channelNumber], header)]
    {
      var number := header.number;
      var numbers, headers := ethereumHeaderNumbers[channelNumber], ethereumHeaders[channelNumber];
      if |numbers| >= MAX_CACHE_HEADER {
        var removedHeaderNumber := numbers[0];
        numbers := numbers[1..];
        headers := headers - {removedHeaderNumber};
      }
      numbers := numbers + [number];
      headers := headers[number := header];
      ethereumHeaderNumbers := ethereumHeaderNumbers[channelNumber := numbers];
      ethereumHeaders := ethereumHeaders[channelNumber := headers];
    }
  }

  // One channel: what the cache holds after the headers hs arrived on it.

  function CacheAfter(hs: seq<Header>): Cache {
    if hs == [] then EMPTY else Push(CacheAfter(hs[..|hs| - 1]), hs[|hs| - 1])
  }

  /** Where the sliding window of the last hundred arrivals begins. */
  function WindowStart(hs: seq<Header>): nat {
    if |hs| > MAX_CACHE_HEADER then |hs| - MAX_CACHE_HEADER else 0
  }

  /** Arrival t pushed out arrival t - 100, and with it the map entry of that number. */
  predicate Evicts(hs: seq<Header>, t: nat, number: Int64) {
    MAX_CACHE_HEADER <= t < |hs| && hs[t - MAX_CACHE_HEADER].number == number
  }

  /** Arrival p is the latest of its number, and that number was not pushed out since. */
  ghost predicate Live(hs: seq<Header>, p: nat) {
    && p < |hs|
    && (forall t :: p < t < |hs| ==> hs[t].number != hs[p].number)
    && (forall t: nat :: p < t ==> !Evicts(hs, t, hs[p].number))
  }

  ghost predicate IsWindow(hs: seq<Header>, c: Cache) {
    && |c.numbers| == |hs| - WindowStart(hs)
    && forall k :: 0 <= k < |c.numbers| ==> c.numbers[k] == hs[WindowStart(hs) + k].number
  }

  ghost predicate HoldsTheLive(hs: seq<Header>, c: Cache) {
    && (forall p :: 0 <= p < |hs| && Live(hs, p) ==> hs[p].number in c.headers && c.headers[hs[p].number] == hs[p])
    && (forall n :: n in c.headers ==> exists p :: 0 <= p < |hs| && Live(hs, p) && hs[p].number == n)
  }

  lemma LiveGrows(hs: seq<Header>, h: Header, p: nat)
    requires p < |hs|
    ensures Live(hs + [h], p) <==> Live(hs, p) && h.number != hs[p].number && !Evicts(hs + [h], |hs|, hs[p].number)
  {
    var all := hs + [h];
    assert all[p] == hs[p] && all[|hs|] == h;
    if Live(all, p) {
      forall t | p < t < |hs|
        ensures hs[t].number != hs[p].number
      {
        assert all[t] == hs[t];
      }
      forall t: nat | p < t
        ensures !Evicts(hs, t, hs[p].number)
      {
        assert Evicts(hs, t, hs[p].number) ==> Evicts(all, t, hs[p].number);
      }
    }
    if Live(hs, p) && h.number != hs[p].number && !Evicts(all, |hs|, hs[p].number) {
      forall t: nat | p < t
        ensures !Evicts(all, t, all[p].number)
      {
        assert t < |hs| ==> (Evicts(all, t, hs[p].number) <==> Evicts(hs, t, hs[p].number));
      }
    }
  }

  lemma NewestIsLive(hs: seq<Header>, h: Header)
    ensures Live(hs + [h], |hs|)
  {
  }

  lemma PushKeepsWindow(hs: seq<Header>, h: Header, c: Cache)
    requires IsWindow(hs, c)
    ensures IsWindow(hs + [h], Push(c, h))
    ensures |c.numbers| >= MAX_CACHE_HEADER <==> |hs| >= MAX_CACHE_HEADER
    ensures |hs| >= MAX_CACHE_HEADER ==> |c.numbers| > 0 && c.numbers[0] == hs[|hs| - MAX_CACHE_HEADER].number
  {
  }

  /** Push on the map: all but the evicted number stay, then the new header is entered. */
  lemma PushedMap(hs: seq<Header>, h: Header, c: Cache)
    requires IsWindow(hs, c)
    ensures forall n :: n in Push(c, h).headers <==> n == h.number || (n in c.headers && !Evicts(hs + [h], |hs|, n))
    ensures forall n :: n in Push(c, h).headers ==> Push(c, h).headers[n] == if n == h.number then h else c.headers[n]
  {
    PushKeepsWindow(hs, h, c);
    hide IsWindow;
    assert |hs| >= MAX_CACHE_HEADER ==> (hs + [h])[|hs| - MAX_CACHE_HEADER] == hs[|hs| - MAX_CACHE_HEADER];
  }

  lemma PushKeepsLive(hs: seq<Header>, h: Header, c: Cache)
    requires IsWindow(hs, c) && HoldsTheLive(hs, c)
    ensures HoldsTheLive(hs + [h], Push(c, h))
  {
    hide Live, IsWindow, Push;
    var all, d := hs + [h], Push(c, h);
    PushKeepsWindow(hs, h, c);
    PushedMap(hs, h, c);
    NewestIsLive(hs, h);
    forall p | 0 <= p < |all| && Live(all, p)
      ensures all[p].number in d.headers && d.headers[all[p].number] == all[p]
    {
      if p < |hs| {
        LiveGrows(hs, h, p);
      }
    }
    forall n | n in d.headers
      ensures exists p :: 0 <= p < |all| && Live(all, p) && all[p].number == n
    {
      if n == h.number {
        assert all[|hs|].number == n;
      } else {
        var p :| 0 <= p < |hs| && Live(hs, p) && hs[p].number == n;
        LiveGrows(hs, h, p);
        assert all[p].number == n;
      }
    }
  }

  lemma EmptyCache()
    ensures IsWindow([], EMPTY) && HoldsTheLive([], EMPTY)
  {
  }

  /**
   The cache after any arrivals, duplicate numbers included: the list is the window of the last
   hundred numbers, and the map holds exactly the live arrivals - for each number its latest
   header, unless that number was pushed out after it.
   */
  lemma {:induction false} CacheInvariant(hs: seq<Header>)
    ensures IsWindow(hs, CacheAfter(hs)) && HoldsTheLive(hs, CacheAfter(hs))
  {
    hide IsWindow, HoldsTheLive, Push;
    if hs == [] {
      EmptyCache();
    } else {
      var front, h := hs[..|hs| - 1], hs[|hs| - 1];
      CacheInvariant(front);
      PushKeepsWindow(front, h, CacheAfter(front));
      PushKeepsLive(front, h, CacheAfter(front));
      assert front + [h] == hs;
    }
  }

  /** A live arrival is one of the last hundred. */
  lemma LiveIsInWindow(hs: seq<Header>, p: nat)
    requires Live(hs, p)
    ensures WindowStart(hs) <= p < |hs|
  {
    if p < WindowStart(hs) {
      assert Evicts(hs, p + MAX_CACHE_HEADER, hs[p].number);
    }
  }

  /** The list is never longer than a hundred, and every map key stands in it. */
  lemma {:induction false} CacheIsBounded(hs: seq<Header>)
    ensures var c := CacheAfter(hs);
            && |c.numbers| <= MAX_CACHE_HEADER
            && (forall n :: n in c.headers ==> n in c.numbers && c.headers[n].number == n)
  {
    CacheInvariant(hs);
    var c := CacheAfter(hs);
    hide CacheAfter, Live;
    forall n | n in c.headers
      ensures n in c.numbers && c.headers[n].number == n
    {
      var p :| 0 <= p < |hs| && Live(hs, p) && hs[p].number == n;
      LiveIsInWindow(hs, p);
      assert c.numbers[p - WindowStart(hs)] == n;
    }
  }

  ghost predicate DistinctNumbers(hs: seq<Header>) {
    forall i, j :: 0 <= i < j < |hs| ==> hs[i].number != hs[j].number
  }

  /** A number in the window is pushed out although it arrived again meanwhile. */
  ghost predicate Repeats(hs: seq<Header>, q: nat, p: nat) {
    q < WindowStart(hs) <= p < |hs| && p < q + MAX_CACHE_HEADER && hs[q].number == hs[p].number &&
    forall t :: p < t < |hs| ==> hs[t].number != hs[p].number
  }

  /** Exactly which arrivals of the window are live. */
  lemma WindowIsLiveExactly(hs: seq<Header>, p: nat)
    requires WindowStart(hs) <= p < |hs| && forall t :: p < t < |hs| ==> hs[t].number != hs[p].number
    ensures Live(hs, p) <==> !exists q: nat :: Repeats(hs, q, p)
  {
    if q: nat :| Repeats(hs, q, p) {
      assert Evicts(hs, q + MAX_CACHE_HEADER, hs[p].number);
    } else {
      forall t: nat | p < t
        ensures !Evicts(hs, t, hs[p].number)
      {
        if Evicts(hs, t, hs[p].number) {
          var q: nat := t - MAX_CACHE_HEADER;
          if q != p {
            assert Repeats(hs, q, p);
          }
        }
      }
    }
  }

  /** With distinct numbers the cache is exactly the last min(100, n) headers. */
  lemma DistinctCacheIsWindow(hs: seq<Header>)
    requires DistinctNumbers(hs)
    ensures var c := CacheAfter(hs);
            && (forall p :: WindowStart(hs) <= p < |hs| ==> hs[p].number in c.headers && c.headers[hs[p].number] == hs[p])
            && (forall n :: n in c.headers ==> exists p :: WindowStart(hs) <= p < |hs| && hs[p].number == n)
  {
    CacheInvariant(hs);
    var c := CacheAfter(hs);
    hide CacheAfter, Live, IsWindow;
    forall p | WindowStart(hs) <= p < |hs|
      ensures hs[p].number in c.headers && c.headers[hs[p].number] == hs[p]
    {
      WindowIsLiveExactly(hs, p);
    }
    forall n | n in c.headers
      ensures exists p :: WindowStart(hs) <= p < |hs| && hs[p].number == n
    {
      var p :| 0 <= p < |hs| && Live(hs, p) && hs[p].number == n;
      LiveIsInWindow(hs, p);
    }
  }
}
