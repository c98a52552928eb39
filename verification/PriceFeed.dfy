/** The TTL cache (pkg/cache/cache.go) and the token-price feed that answers from it,
    from upstream, or from a stale entry (GetTokenPrices in
    internal/adapter/price/adapter.go). */
module PriceFeed {
  import opened Text
  import opened PriceKey

  // ----------------------------------------------------------------- the cache

  datatype Entry<V> = Entry(value: V, expiresAt: int)

  class TtlCache<V> {
    var entries: map<string, Entry<V>>
    const ttl: int

    constructor (ttl: int)
      ensures entries == map[] && this.ttl == ttl
    {
      entries := map[];
      this.ttl := ttl;
    }

    method Get(key: string, now: int) returns (r: Option<V>)
      ensures r == if key in entries then FreshValue(entries[key], now) else None
      ensures r.Some? <==> key in entries && now <= entries[key].expiresAt
      ensures r.Some? ==> r.value == entries[key].value
    {
      if key !in entries || now > entries[key].expiresAt {
        return None;
      }
      return Some(entries[key].value);
    }

    method GetStale(key: string) returns (r: Option<V>)
      ensures r == if key in entries then Some(entries[key].value) else None
    {
      if key !in entries {
        return None;
      }
      return Some(entries[key].value);
    }

    method Set(key: string, value: V, now: int)
      modifies this`entries
      ensures entries == old(entries)[key := Entry(value, now + ttl)]
    {
      entries := entries[key := Entry(value, now + ttl)];
    }

    method Delete(key: string)
      modifies this`entries
      ensures entries == old(entries) - {key}
    {
      entries := entries - {key};
    }

    /** Purging changes no answer of `Get` from now on. */
    method Purge(now: int)
      modifies this`entries
      ensures forall k :: k in entries <==> k in old(entries) && now <= old(entries)[k].expiresAt
      ensures forall k :: k in entries ==> entries[k] == old(entries)[k]
      ensures forall k, later: int {:trigger FreshValue(entries[k], later)} :: k in entries && now <= later ==>
        FreshValue(entries[k], later) == FreshValue(old(entries)[k], later)
      ensures forall k, later: int {:trigger FreshValue(old(entries)[k], later)} ::
        k in old(entries) && k !in entries && now <= later ==> FreshValue(old(entries)[k], later) == None
    {
      var keys := entries.Keys;
      while keys != {}
        invariant keys <= old(entries).Keys
        invariant forall k :: k in entries <==>
          k in old(entries) && (k in keys || now <= old(entries)[k].expiresAt)
        invariant forall k :: k in entries ==> entries[k] == old(entries)[k]
        decreases |keys|
      {
        var k :| k in keys;
        if now > entries[k].expiresAt {
          entries := entries - {k};
        }
        keys := keys - {k};
      }
    }
  }

  function FreshValue<V>(e: Entry<V>, now: int): Option<V> {
    if now > e.expiresAt then None else Some(e.value)
  }

  // ------------------------------------------------------------------ the feed

  datatype Quote = Quote(priceUsd: real, change24hPct: real, changePositive: bool)
  type TokenPrices = map<string, Quote>

  /** One request that went upstream, and what came back. */
  datatype Attempt = Attempt(asked: seq<string>, at: int, result: Option<TokenPrices>)

  /** The last attempt that succeeded for a list with this key. */
  ghost function Latest(log: seq<Attempt>, key: string): (r: Option<Attempt>)
    ensures r.Some? ==> r.value in log && r.value.result.Some? && TokenKey(r.value.asked) == key
  {
    if log == [] then None
    else
      var last := log[|log| - 1];
      if last.result.Some? && TokenKey(last.asked) == key then Some(last) else Latest(log[..|log| - 1], key)
  }

  /** The cache holds the latest success of every key, and nothing else. */
  ghost predicate Remembers(entries: map<string, Entry<TokenPrices>>, ttl: int, log: seq<Attempt>) {
    forall k {:trigger HoldsFor(entries, ttl, k, Latest(log, k))} :: HoldsFor(entries, ttl, k, Latest(log, k))
  }

  predicate HoldsFor(entries: map<string, Entry<TokenPrices>>, ttl: int, k: string, hit: Option<Attempt>) {
    match hit
    case None => k !in entries
    case Some(a) =>
      a.result.Some? && k in entries && entries[k] == Entry(a.result.value, a.at + ttl)
  }

  lemma {:induction false} RemembersAttempt(entries: map<string, Entry<TokenPrices>>, ttl: int, log: seq<Attempt>,
      a: Attempt)
    requires Remembers(entries, ttl, log)
    ensures a.result.None? ==> Remembers(entries, ttl, log + [a])
    ensures a.result.Some? ==>
      Remembers(entries[TokenKey(a.asked) := Entry(a.result.value, a.at + ttl)], ttl, log + [a])
  {
    assert (log + [a])[..|log|] == log;
    forall k
      ensures HoldsFor(entries, ttl, k, Latest(log, k))
      ensures Latest(log + [a], k) == (if a.result.Some? && TokenKey(a.asked) == k then Some(a) else Latest(log, k))
    {
    }
  }

  class Feed {
    const tokenCache: TtlCache<TokenPrices>
    ghost var log: seq<Attempt>

    ghost predicate Valid()
      reads this, tokenCache
    {
      Remembers(tokenCache.entries, tokenCache.ttl, log)
    }

    constructor (ttl: int)
      ensures Valid() && log == [] && fresh(tokenCache) && tokenCache.ttl == ttl
    {
      tokenCache := new TtlCache(ttl);
      log := [];
    }

    /** `now` is the clock at the lookup, `later` after the fetch, `reply` what the
        upstream would say. */
    method GetTokenPrices(addresses: seq<string>, now: int, later: int, reply: Option<TokenPrices>)
      returns (prices: TokenPrices)
      requires Valid()
      modifies this`log, tokenCache
      ensures Valid()
      ensures log == LogAfter(old(log), tokenCache.ttl, addresses, now, later, reply)
      ensures prices == Answer(old(log), tokenCache.ttl, addresses, now, reply)
    {
      if addresses == [] {
        return map[];
      }
      var key := KeyOf(addresses);
      assert HoldsFor(tokenCache.entries, tokenCache.ttl, key, Latest(log, key));
      var cached := tokenCache.Get(key, now);
      if cached.Some? {
        return cached.value;
      }
      ghost var attempt := Attempt(addresses, later, reply);
      RemembersAttempt(tokenCache.entries, tokenCache.ttl, log, attempt);
      log := log + [attempt];
      if reply.Some? {
        tokenCache.Set(key, reply.value, later);
        return reply.value;
      }
      var stale := tokenCache.GetStale(key);
      if stale.Some? {
        return stale.value;
      }
      return map[];
    }
  }

  /** Served without going upstream. */
  ghost predicate Served(log: seq<Attempt>, ttl: int, ss: seq<string>, now: int) {
    var hit := Latest(log, TokenKey(ss));
    hit.Some? && now <= hit.value.at + ttl
  }

  ghost function LogAfter(log: seq<Attempt>, ttl: int, ss: seq<string>, now: int, later: int,
                          reply: Option<TokenPrices>): seq<Attempt> {
    if ss == [] || Served(log, ttl, ss, now) then log else log + [Attempt(ss, later, reply)]
  }

  ghost function Answer(log: seq<Attempt>, ttl: int, ss: seq<string>, now: int,
      reply: Option<TokenPrices>): TokenPrices {
    var hit := Latest(log, TokenKey(ss));
    if ss == [] then map[]
    else if reply.Some? && !Served(log, ttl, ss, now) then reply.value
    else if hit.Some? then hit.value.result.value
    else map[]
  }

  // ------------------------------------------------------ what the answers mean

  ghost predicate Clean(log: seq<Attempt>) {
    forall i :: 0 <= i < |log| ==> log[i].asked != [] && AllCommaFree(log[i].asked)
  }

  /** `log[i]` is the newest success for exactly the addresses of `ss`. */
  ghost predicate Newest(log: seq<Attempt>, i: nat, ss: seq<string>)
    requires i < |log|
  {
    && log[i].result.Some? && LowerSet(log[i].asked) == LowerSet(ss)
    && forall j :: i < j < |log| ==> !(log[j].result.Some? && LowerSet(log[j].asked) == LowerSet(ss))
  }

  ghost predicate NeverFetched(log: seq<Attempt>, ss: seq<string>) {
    forall j :: 0 <= j < |log| ==> !(log[j].result.Some? && LowerSet(log[j].asked) == LowerSet(ss))
  }

  lemma {:induction false} LatestIsNewest(log: seq<Attempt>, ss: seq<string>) returns (i: int)
    requires Clean(log) && ss != [] && AllCommaFree(ss)
    ensures match Latest(log, TokenKey(ss))
            case Some(a) => 0 <= i < |log| && log[i] == a && Newest(log, i, ss)
            case None => i == -1 && NeverFetched(log, ss)
  {
    i := -1;
    if log != [] {
      var n := |log| - 1;
      KeysAgree(log[n].asked, ss);
      if log[n].result.Some? && TokenKey(log[n].asked) == TokenKey(ss) {
        i := n;
      } else {
        i := LatestIsNewest(log[..n], ss);
        assert forall j :: 0 <= j < n ==> log[..n][j] == log[j];
      }
    }
  }

  /** Every answer is empty, because these addresses were never fetched, or is the
      newest successful reply for exactly these addresses; it is older than the TTL
      only when this call's own fetch failed. */
  lemma {:induction false} AnswerIsForTheseAddresses(log: seq<Attempt>, ttl: int, ss: seq<string>, now: int, later: int,
                                  reply: Option<TokenPrices>) returns (i: int)
    requires Clean(log) && ss != [] && AllCommaFree(ss)
    ensures
      var end, prices := LogAfter(log, ttl, ss, now, later, reply), Answer(log, ttl, ss, now, reply);
      if NeverFetched(end, ss) then prices == map[]
      else
        && 0 <= i < |end| && Newest(end, i, ss) && end[i].result == Some(prices)
        && (i == |log| || now <= end[i].at + ttl || reply.None?)
  {
    i := LatestIsNewest(log, ss);
    var end := LogAfter(log, ttl, ss, now, later, reply);
    assert forall j :: 0 <= j < |log| ==> end[j] == log[j];
    if reply.Some? && !Served(log, ttl, ss, now) {
      i := |log|;
    }
    assert Latest(log, TokenKey(ss)).Some? ==> !NeverFetched(log, ss);
    assert i >= 0 ==> end[i].result.Some? && LowerSet(end[i].asked) == LowerSet(ss);
  }

  // ---------------------------------------------------------------- over a run

  datatype Call = Call(addresses: seq<string>, now: int, later: int, reply: Option<TokenPrices>)

  ghost function RunLog(calls: seq<Call>, ttl: int): seq<Attempt> {
    if calls == [] then []
    else
      var c := calls[|calls| - 1];
      LogAfter(RunLog(calls[..|calls| - 1], ttl), ttl, c.addresses, c.now, c.later, c.reply)
  }

  /** After a success, the same addresses are not fetched again before the TTL is over. */
  ghost predicate Spaced(log: seq<Attempt>, ttl: int) {
    forall i, j :: 0 <= i < j < |log| && log[i].result.Some? && LowerSet(log[i].asked) == LowerSet(log[j].asked) ==>
      log[j].at > log[i].at + ttl
  }

  lemma {:induction false} FetchesAreSpaced(calls: seq<Call>, ttl: nat)
    requires forall i :: 0 <= i < |calls| ==> AllCommaFree(calls[i].addresses) && calls[i].now <= calls[i].later
    ensures Clean(RunLog(calls, ttl)) && Spaced(RunLog(calls, ttl), ttl)
  {
    if calls != [] {
      var n := |calls| - 1;
      var c := calls[n];
      FetchesAreSpaced(calls[..n], ttl);
      var log := RunLog(calls[..n], ttl);
      if c.addresses != [] {
        OneMoreIsSpaced(log, ttl, c);
      }
    }
  }

  lemma {:induction false} OneMoreIsSpaced(log: seq<Attempt>, ttl: nat, c: Call)
    requires Clean(log) && Spaced(log, ttl)
    requires c.addresses != [] && AllCommaFree(c.addresses) && c.now <= c.later
    ensures
      var end := LogAfter(log, ttl, c.addresses, c.now, c.later, c.reply);
      Clean(end) && Spaced(end, ttl)
  {
    var k := LatestIsNewest(log, c.addresses);
    if !Served(log, ttl, c.addresses, c.now) {
      forall i | 0 <= i < |log| && log[i].result.Some? && LowerSet(log[i].asked) == LowerSet(c.addresses)
        ensures c.later > log[i].at + ttl
      {
        assert i < k ==> log[k].at > log[i].at + ttl;
      }
    }
  }
}
