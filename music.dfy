/**
 * The cache-aside `/api/music/nepalese` handler over a Redis store whose
 * entries expire, in front of the Deezer chart.
 */
module Music {
  import opened Wrappers
  import opened Js
  import opened Http
  import opened Tracks

  const CacheKey := "deezer_music_data_nepalese"
  /** The `setEx` expiry, in seconds. */
  const CacheTtl := 3600
  const InternalError := "Internal server error"

  /** A Redis value with the second from which it has expired. Values are
      kept in their parsed form; their JSON text is not modelled. */
  datatype Entry = Entry(value: Js, expiresAt: int)

  /** Whether the Redis client rejects the GET and the SETEX of this request. */
  datatype RedisFaults = RedisFaults(getFails: bool, setFails: bool)

  /** Redis `GET key` at time `now`: the value while it has not expired,
      nil otherwise. */
  function CacheGet(entries: map<string, Entry>, key: string, now: int): Option<Js>
  {
    if key in entries && now < entries[key].expiresAt then Some(entries[key].value) else None
  }

  /** `SETEX key ttl v` at time `t` followed by `GET` at time `t'`: the value
      is read back exactly while fewer than `ttl` seconds have passed, and
      other keys read as before. */
  lemma SetExThenGet(entries: map<string, Entry>, key: string, v: Js, t: int, t': int, other: string)
    requires other != key
    ensures CacheGet(entries[key := Entry(v, t + CacheTtl)], key, t') == if t' < t + CacheTtl then Some(v) else None
    ensures CacheGet(entries[key := Entry(v, t + CacheTtl)], other, t') == CacheGet(entries, other, t')
  {
  }

  /** The list to serve on a miss: None when `fetch` or `response.json()`
      rejected (`chart` is None) or the mapping threw. There is a list
      exactly when the chart's `tracks.data` is an array of mappable tracks,
      and it holds one summary per track, in order. */
  function Fetched(chart: Option<Js>): (r: Option<seq<Js>>)
    ensures r.Some? <==>
              && chart.Some? && TrackList(chart.value).Some?
              && forall i :: 0 <= i < |TrackList(chart.value).value| ==> Mappable(TrackList(chart.value).value[i])
    ensures r.Some? ==>
              var tracks := TrackList(chart.value).value;
              && |r.value| == |tracks|
              && forall i :: 0 <= i < |tracks| ==> Summary(tracks[i]) == Success(r.value[i])
  {
    match chart
    case None => None
    case Some(c) =>
      MapChartSpec(c);
      match MapChart(c)
      case Failure(_) => None
      case Success(list) => Some(list)
  }

  /** The Redis store and the upstream chart service. `deezer(t)` is what
      fetching the chart and parsing its JSON yields at time `t` (None: one of
      them rejected); `fetches` counts the calls made to it. */
  class ChartCache {
    var entries: map<string, Entry>
    var fetches: nat
    const deezer: int -> Option<Js>

    /** Every cached value is one JSON text can carry. */
    ghost predicate Valid()
      reads this
    {
      forall k :: k in entries ==> IsWire(entries[k].value)
    }

    constructor (deezer: int -> Option<Js>)
      ensures Valid() && this.deezer == deezer
      ensures entries == map[] && fetches == 0
    {
      this.deezer := deezer;
      entries := map[];
      fetches := 0;
    }

    /** The handler. A hit answers the cached value and does not fetch; a
        miss fetches once, and only a list that was fetched and mapped is
        written (for one hour) and answered; every failure answers 500 and
        leaves the cache as it was. */
    method Nepalese(now: int, faults: RedisFaults) returns (resp: Response)
      requires Valid()
      modifies this
      ensures Valid()
      ensures faults.getFails ==>
                resp == MessageReply(500, InternalError) && entries == old(entries) && fetches == old(fetches)
      ensures !faults.getFails && CacheGet(old(entries), CacheKey, now).Some? ==>
                && resp == Response(200, CacheGet(old(entries), CacheKey, now).value)
                && entries == old(entries) && fetches == old(fetches)
      ensures !faults.getFails && CacheGet(old(entries), CacheKey, now).None? ==>
                && fetches == old(fetches) + 1
                && var list := Fetched(deezer(now));
                   if list.None? || faults.setFails then
                     resp == MessageReply(500, InternalError) && entries == old(entries)
                   else
                     && entries == old(entries)[CacheKey := Entry(resp.body, now + CacheTtl)]
                     && resp == Reply(200, Arr(list.value))
    {
      if faults.getFails {
        return MessageReply(500, InternalError);
      }
      var cached := CacheGet(entries, CacheKey, now);
      if cached.Some? {
        WireFormOfWire(cached.value);
        return Reply(200, cached.value);
      }
      fetches := fetches + 1;
      var list := Fetched(deezer(now));
      if list.None? {
        return MessageReply(500, InternalError);
      }
      if faults.setFails {
        return MessageReply(500, InternalError);
      }
      var music := Arr(list.value);
      WireFormIsWire(music);
      entries := entries[CacheKey := Entry(WireForm(music), now + CacheTtl)];
      resp := Reply(200, music);
    }
  }

  /** The cache-aside cycle from an empty cache: the first request fetches and
      populates, a second one within the hour answers the same body without
      fetching, and one after the hour fetches again. */
  method WithinAndAfterTtl(deezer: int -> Option<Js>, t0: int, t1: int, t2: int)
    returns (r0: Response, r1: Response, r2: Response, fetches: nat)
    requires Fetched(deezer(t0)).Some? && Fetched(deezer(t2)).Some?
    requires t0 <= t1 < t0 + CacheTtl <= t2
    ensures r0 == Reply(200, Arr(Fetched(deezer(t0)).value))
    ensures r1 == r0
    ensures r2 == Reply(200, Arr(Fetched(deezer(t2)).value))
    ensures fetches == 2
  {
    var cache := new ChartCache(deezer);
    var ok := RedisFaults(false, false);
    r0 := cache.Nepalese(t0, ok);
    r1 := cache.Nepalese(t1, ok);
    r2 := cache.Nepalese(t2, ok);
    fetches := cache.fetches;
  }
}
