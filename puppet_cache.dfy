/**
 * The browser-side cache of each stream's puppets, used for typeahead
 * (web/src/stream_puppets.ts): one list per stream, the set of streams
 * already fetched, and the set of streams with a request in flight. The
 * asynchronous request is split into the call that issues it and the two
 * callbacks that complete it.
 */
module PuppetCache {
  import StreamPuppets

  type StreamId = StreamPuppets.StreamId

  /** One puppet as the server lists it: {id, name, avatar_url, color}. */
  type StreamPuppet = StreamPuppets.PuppetView

  predicate HasName(puppets: seq<StreamPuppet>, name: string)
  {
    exists i :: 0 <= i < |puppets| && puppets[i].name == name
  }

  ghost predicate UniqueNames(puppets: seq<StreamPuppet>)
  {
    forall i, j :: 0 <= i < j < |puppets| ==> puppets[i].name != puppets[j].name
  }

  /** The list after a sent puppet is recorded locally: appended unless a
      puppet of that name is already listed. */
  function WithPuppet(existing: seq<StreamPuppet>, puppet: StreamPuppet): (r: seq<StreamPuppet>)
    ensures HasName(r, puppet.name)
    ensures HasName(existing, puppet.name) ==> r == existing
    ensures !HasName(existing, puppet.name) ==> r == existing + [puppet]
    ensures forall n :: HasName(r, n) <==> HasName(existing, n) || n == puppet.name
    ensures UniqueNames(existing) ==> UniqueNames(r)
  {
    if HasName(existing, puppet.name) then existing
    else
      var r := existing + [puppet];
      assert r[|existing|] == puppet;
      forall n ensures HasName(r, n) ==> HasName(existing, n) || n == puppet.name {
        if HasName(r, n) {
          var i :| 0 <= i < |r| && r[i].name == n;
          if i < |existing| { assert existing[i] == r[i]; }
        }
      }
      forall n | HasName(existing, n) ensures HasName(r, n) {
        var i :| 0 <= i < |existing| && existing[i].name == n;
        assert r[i] == existing[i];
      }
      r
  }

  /** Recording the same puppet twice is the same as recording it once. */
  lemma WithPuppetIdempotent(existing: seq<StreamPuppet>, puppet: StreamPuppet)
    ensures WithPuppet(WithPuppet(existing, puppet), puppet) == WithPuppet(existing, puppet)
  {
  }

  class StreamPuppetCache {
    var cache: map<StreamId, seq<StreamPuppet>>
    var fetched: set<StreamId>
    var pending: set<StreamId>

    /**
     * A stream is never both fetched and awaiting its answer, so each stream
     * is in exactly one of three states: not asked, pending, fetched. Every
     * method keeps this; it is what makes a request's answer the only way
     * out of "pending" and the fetch guard the only way into it.
     */
    ghost predicate Valid()
      reads this
    {
      fetched !! pending
    }

    constructor ()
      ensures Valid() && cache == map[] && fetched == {} && pending == {}
    {
      cache := map[];
      fetched := {};
      pending := {};
    }

    /** The cached list, or the empty list for a stream never cached. */
    function PuppetsForStream(stream: StreamId): (r: seq<StreamPuppet>)
      reads this
      ensures stream in cache ==> r == cache[stream]
      ensures stream !in cache ==> r == []
    {
      if stream in cache then cache[stream] else []
    }

    /** Whether an answer (success or failure) for `stream` has been recorded since the last clear. */
    function HasFetchedPuppets(stream: StreamId): (r: bool)
      reads this
      ensures r <==> stream in fetched
    {
      stream in fetched
    }

    /**
     * Issues the request for `stream` unless it is already fetched or in
     * flight; `requested` tells whether it did. At most one request per
     * stream is ever outstanding.
     */
    method FetchPuppetsForStream(stream: StreamId) returns (requested: bool)
      requires Valid()
      modifies this
      ensures Valid()
      ensures requested <==> stream !in old(fetched) && stream !in old(pending)
      ensures pending == if requested then old(pending) + {stream} else old(pending)
      ensures cache == old(cache) && fetched == old(fetched)
    {
      if stream in fetched || stream in pending {
        return false;
      }
      pending := pending + {stream};
      requested := true;
    }

    /** The request for `stream` answered with `puppets`. */
    method FetchSucceeded(stream: StreamId, puppets: seq<StreamPuppet>)
      requires Valid()
      modifies this
      ensures Valid()
      ensures cache == old(cache)[stream := puppets]
      ensures fetched == old(fetched) + {stream} && pending == old(pending) - {stream}
      ensures PuppetsForStream(stream) == puppets && HasFetchedPuppets(stream)
    {
      cache := cache[stream := puppets];
      fetched := fetched + {stream};
      pending := pending - {stream};
    }

    /** The request for `stream` failed (for instance, puppet mode is off):
        the stream counts as fetched with no puppets, so it is not asked again. */
    method FetchFailed(stream: StreamId)
      requires Valid()
      modifies this
      ensures Valid()
      ensures cache == old(cache)[stream := []]
      ensures fetched == old(fetched) + {stream} && pending == old(pending) - {stream}
      ensures PuppetsForStream(stream) == [] && HasFetchedPuppets(stream)
    {
      cache := cache[stream := []];
      fetched := fetched + {stream};
      pending := pending - {stream};
    }

    /** Forgets every cached list and every fetched mark; requests in flight
        stay recorded, so they are not issued a second time. */
    method ClearCache()
      requires Valid()
      modifies this
      ensures Valid()
      ensures cache == map[] && fetched == {} && pending == old(pending)
      ensures forall s :: PuppetsForStream(s) == [] && !HasFetchedPuppets(s)
    {
      cache := map[];
      fetched := {};
    }

    /** Records a puppet the user just sent as, so typeahead offers it at once. */
    method AddPuppetToCache(stream: StreamId, puppet: StreamPuppet)
      requires Valid()
      modifies this
      ensures Valid()
      ensures cache == old(cache)[stream := WithPuppet(old(PuppetsForStream(stream)), puppet)]
      ensures fetched == old(fetched) && pending == old(pending)
      ensures forall s :: s != stream ==> PuppetsForStream(s) == old(PuppetsForStream(s))
      ensures UniqueNames(old(PuppetsForStream(stream))) ==> UniqueNames(PuppetsForStream(stream))
    {
      var existing := PuppetsForStream(stream);
      if !HasName(existing, puppet.name) {
        cache := cache[stream := existing + [puppet]];
      }
    }
  }

  /** A second fetch while one is in flight issues nothing, a failed fetch is
      not retried, and clearing the cache allows a new request. */
  method FetchIsIssuedOnce() returns (first: bool, second: bool, third: bool, listAfterFailure: seq<StreamPuppet>, fourth: bool)
    ensures first && !second
    ensures !third && listAfterFailure == []
    ensures fourth
  {
    var c := new StreamPuppetCache();
    first := c.FetchPuppetsForStream(5);
    second := c.FetchPuppetsForStream(5);
    c.FetchFailed(5);
    third := c.FetchPuppetsForStream(5);
    listAfterFailure := c.PuppetsForStream(5);
    c.ClearCache();
    fourth := c.FetchPuppetsForStream(5);
  }
}
