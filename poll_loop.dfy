/** One iteration of the monitoring loop in `main`: gather the peer lines of
    every configured torrent id, extract the addresses, merge them into one
    list, make a single update call and compute the summary; and a finite run
    of such iterations from an empty store. The `transmission-remote` call is
    modelled as a `SampleSource`, which yields the lines for an id (the empty
    list when the command fails, as `get_peers_list` returns then). */
module PollLoop {
  import opened Sequences
  import opened AddressExtractor
  import opened GeoResolver
  import opened AggregationStore
  import opened Summary

  /** A torrent id as passed to `-t`, including the sentinel "all". */
  type TorrentId = string

  /** `get_peers_list`: the output lines for one torrent id. */
  type SampleSource = TorrentId -> seq<string>

  /** The lines of all the ids, one id after the other. */
  function AllLines(ids: seq<TorrentId>, source: SampleSource): seq<string> {
    if ids == [] then [] else AllLines(ids[..|ids| - 1], source) + source(ids[|ids| - 1])
  }

  /** The inner loop of `main`: `all_peers.extend(parse_peers_from_lines(get_peers_list(tid)))`
      for every id. Merging the per-id results gives what parsing all the
      lines at once would give. */
  method GatherPeers(ids: seq<TorrentId>, source: SampleSource) returns (allPeers: seq<Address>)
    ensures allPeers == ParsePeers(AllLines(ids, source))
    ensures |allPeers| <= |AllLines(ids, source)|
  {
    allPeers := [];
    var i := 0;
    while i < |ids|
      invariant 0 <= i <= |ids|
      invariant allPeers == ParsePeers(AllLines(ids[..i], source))
    {
      var tid := ids[i];
      var lines := source(tid);
      var peerIps := ParsePeersFromLines(lines);
      ParsePeersAppend(AllLines(ids[..i], source), lines);
      allPeers := allPeers + peerIps;
      assert ids[..i + 1][..i] == ids[..i];
      i := i + 1;
    }
    assert ids[..i] == ids;
    ParsePeersBounds(AllLines(ids, source));
  }

  lemma {:induction false} AllLinesAppend(a: seq<TorrentId>, b: seq<TorrentId>, source: SampleSource)
    ensures AllLines(a + b, source) == AllLines(a, source) + AllLines(b, source)
    decreases |b|
  {
    if b == [] {
      assert a + b == a;
    } else {
      var b', last := b[..|b| - 1], b[|b| - 1];
      assert (a + b)[..|a + b| - 1] == a + b';
      assert (a + b)[|a + b| - 1] == last;
      calc {
        AllLines(a + b, source);
        AllLines(a + b', source) + source(last);
        { AllLinesAppend(a, b', source); }
        (AllLines(a, source) + AllLines(b', source)) + source(last);
        AllLines(a, source) + (AllLines(b', source) + source(last));
        AllLines(a, source) + AllLines(b, source);
      }
    }
  }

  /** An id whose command failed yields no lines, so the addresses gathered
      from the other ids are exactly what they would have been without it. */
  lemma FailedIdSkipped(a: seq<TorrentId>, failed: TorrentId, b: seq<TorrentId>, source: SampleSource)
    requires source(failed) == []
    ensures ParsePeers(AllLines(a + [failed] + b, source)) == ParsePeers(AllLines(a + b, source))
  {
    assert [failed][..0] == [];
    assert AllLines([failed], source) == [];
    AllLinesAppend(a, [failed], source);
    AllLinesAppend(a + [failed], b, source);
    AllLinesAppend(a, b, source);
    assert AllLines(a + [failed] + b, source) == AllLines(a + b, source);
  }

  /** The first half of one pass of `while True`: gather the addresses of
      every id, then make the single update call with the merged list. */
  method Collect(store: Store, ids: seq<TorrentId>, source: SampleSource, now: Timestamp, hour: nat, lookup: Lookup)
    returns (allPeers: seq<Address>)
    requires store.Valid() && hour < HoursPerDay
    modifies store
    ensures allPeers == ParsePeers(AllLines(ids, source))
    ensures store.Valid()
    ensures store.sightings == old(store.sightings) + |allPeers|
    ensures HourCount(store.hours, hour) == HourCount(old(store.hours), hour) + |allPeers|
    ensures store.peers == SightingsOf(old(store.peers), old(store.order), allPeers, now, lookup).peers
    ensures store.order == SightingsOf(old(store.peers), old(store.order), allPeers, now, lookup).order
  {
    ghost var hours0 := store.hours;
    allPeers := GatherPeers(ids, source);
    assert store.hours == hours0;
    store.Observe(allPeers, now, hour, lookup);
  }

  /** One pass of `while True`: gather, update once with the merged list, summarize. */
  method PollOnce(store: Store, ids: seq<TorrentId>, source: SampleSource, now: Timestamp, hour: nat, lookup: Lookup)
    returns (view: SummaryView)
    requires store.Valid() && hour < HoursPerDay
    modifies store
    ensures store.Valid()
    ensures store.sightings == old(store.sightings) + |ParsePeers(AllLines(ids, source))|
    ensures HourCount(store.hours, hour) == HourCount(old(store.hours), hour) + |ParsePeers(AllLines(ids, source))|
    ensures store.peers == SightingsOf(old(store.peers), old(store.order), ParsePeers(AllLines(ids, source)), now, lookup).peers
    ensures store.order == SightingsOf(old(store.peers), old(store.order), ParsePeers(AllLines(ids, source)), now, lookup).order
    ensures view.totalConnections == store.sightings
    ensures view.uniqueIps == |store.peers|
    ensures SumValues(view.hourTable) == SumValues(view.countries) == view.totalConnections
  {
    var allPeers := Collect(store, ids, source, now, hour, lookup);
    view := Summarize(store);
  }

  /** One tick of the loop: the time it runs at and what the daemon reports then. */
  datatype Tick = Tick(now: Timestamp, hour: nat, source: SampleSource)

  /** The number of addresses the first ticks pass to the store. */
  function Gathered(ticks: seq<Tick>, ids: seq<TorrentId>): nat {
    if ticks == [] then 0
    else Gathered(ticks[..|ticks| - 1], ids) + |ParsePeers(AllLines(ids, ticks[|ticks| - 1].source))|
  }

  lemma GatheredSnoc(ticks: seq<Tick>, i: nat, ids: seq<TorrentId>)
    requires i < |ticks|
    ensures Gathered(ticks[..i + 1], ids) == Gathered(ticks[..i], ids) + |ParsePeers(AllLines(ids, ticks[i].source))|
  {
    assert ticks[..i + 1][..i] == ticks[..i];
  }

  /** A finite run of the loop from `stats = {'peers': {}, 'hours': {}}` with
      one geolocation reader. Afterwards the peer counts, the hour buckets and
      the number of addresses gathered all agree, and the lookup has run at
      most once per distinct address. */
  method Monitor(ticks: seq<Tick>, ids: seq<TorrentId>, lookup: Lookup) returns (store: Store)
    requires forall k :: 0 <= k < |ticks| ==> ticks[k].hour < HoursPerDay
    ensures store.Valid()
    ensures store.sightings == Gathered(ticks, ids)
    ensures SumCounts(store.order, store.peers) == HourSum(store.hours, HoursPerDay) == Gathered(ticks, ids)
    ensures NoDuplicates(store.lookups) && Elems(store.lookups) == store.peers.Keys
  {
    store := new Store();
    var i := 0;
    while i < |ticks|
      invariant 0 <= i <= |ticks|
      invariant store.Valid()
      invariant store.sightings == Gathered(ticks[..i], ids)
    {
      var view := PollOnce(store, ids, ticks[i].source, ticks[i].now, ticks[i].hour, lookup);
      GatheredSnoc(ticks, i, ids);
      i := i + 1;
    }
    assert ticks[..i] == ticks;
  }
}
