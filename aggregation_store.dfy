/** The global `stats` structure and `update_stats_with_peers`, which
    updates it in place.

    `stats['peers']` is a Python dict, so besides its key-to-record map it has
    an insertion order, which decides the order of ties in the summary; the
    store keeps that order in `order`. The wall clock is replaced by the
    parameters `now` and `hour`, and the geolocation lookup by a `Lookup`
    value passed to each update. */
module AggregationStore {
  import opened Wrappers
  import opened Sequences
  import opened AddressExtractor
  import opened GeoResolver

  /** A moment as the source's `datetime` value: only stored. */
  type Timestamp = int

  const HoursPerDay: nat := 24

  /** One entry of `stats['peers']`: `{count, geo_info, last_seen}`. */
  datatype PeerRecord = PeerRecord(count: nat, geo: Option<GeoRecord>, lastSeen: Timestamp)

  /** `stats['peers'][ip]['count']`, or 0 for an address never seen. */
  function CountOf(peers: map<Address, PeerRecord>, ip: Address): nat {
    if ip in peers then peers[ip].count else 0
  }

  /** `stats['hours'].get(h, 0)`. */
  function HourCount(hours: map<nat, nat>, h: nat): nat {
    if h in hours then hours[h] else 0
  }

  /** The sum of the counts of the peers listed in `keys`. */
  function SumCounts(keys: seq<Address>, peers: map<Address, PeerRecord>): nat {
    if keys == [] then 0
    else SumCounts(keys[..|keys| - 1], peers) + CountOf(peers, keys[|keys| - 1])
  }

  /** The sum of the hour buckets for the hours below `n`. */
  function HourSum(hours: map<nat, nat>, n: nat): nat {
    if n == 0 then 0 else HourSum(hours, n - 1) + HourCount(hours, n - 1)
  }

  /** The addresses of `ips` that are neither in `known` nor earlier in
      `ips`, in the order they first occur: the ones an update inserts.
      With no known addresses this is `FirstOccurrences(ips)`
      (`FirstSightingsOfNothing`). */
  function FirstSightings(known: set<Address>, ips: seq<Address>): seq<Address> {
    if ips == [] then []
    else
      var init, last := ips[..|ips| - 1], ips[|ips| - 1];
      if last in known || last in init then FirstSightings(known, init)
      else FirstSightings(known, init) + [last]
  }

  // ---------------------------------------------------------------------------
  // Facts about the sums and the first sightings

  lemma {:induction false} FirstSightingsOfNothing(ips: seq<Address>)
    ensures FirstSightings({}, ips) == FirstOccurrences(ips)
  {
    if ips != [] {
      FirstSightingsOfNothing(ips[..|ips| - 1]);
    }
  }

  /** Adding to one hour bucket below `n` adds as much to the total. */
  lemma {:induction false} HourSumAdd(hours: map<nat, nat>, h: nat, d: nat, n: nat)
    ensures HourSum(hours[h := HourCount(hours, h) + d], n)
         == HourSum(hours, n) + (if h < n then d else 0)
  {
    if n > 0 {
      HourSumAdd(hours, h, d, n - 1);
    }
  }

  /** The sum only looks at the peers in `keys`. */
  lemma {:induction false} SumCountsFrame(keys: seq<Address>, p: map<Address, PeerRecord>, q: map<Address, PeerRecord>)
    requires forall ip :: ip in keys ==> CountOf(p, ip) == CountOf(q, ip)
    ensures SumCounts(keys, p) == SumCounts(keys, q)
  {
    if keys != [] {
      SumCountsFrame(keys[..|keys| - 1], p, q);
    }
  }

  lemma {:induction false} HourSumEmpty(n: nat)
    ensures HourSum(map[], n) == 0
  {
    if n > 0 {
      HourSumEmpty(n - 1);
    }
  }

  /** Raising the count of one listed peer by one raises the sum by one. */
  lemma {:induction false} SumCountsBump(keys: seq<Address>, peers: map<Address, PeerRecord>, ip: Address, r: PeerRecord)
    requires NoDuplicates(keys) && ip in keys && ip in peers
    requires r.count == peers[ip].count + 1
    ensures SumCounts(keys, peers[ip := r]) == SumCounts(keys, peers) + 1
  {
    var init, last := keys[..|keys| - 1], keys[|keys| - 1];
    if last == ip {
      assert ip !in init;
      SumCountsFrame(init, peers, peers[ip := r]);
    } else {
      SumCountsBump(init, peers, ip, r);
    }
  }

  /** Listing one more peer, whose count is zero, leaves the sum as it was. */
  lemma SumCountsInsert(keys: seq<Address>, peers: map<Address, PeerRecord>, ip: Address, r: PeerRecord)
    requires ip !in keys && r.count == 0
    ensures SumCounts(keys + [ip], peers[ip := r]) == SumCounts(keys, peers)
  {
    assert (keys + [ip])[..|keys|] == keys;
    SumCountsFrame(keys, peers, peers[ip := r]);
  }

  /** The addresses an update inserts are new, distinct, and are exactly the
      addresses of `ips` that were not known. */
  lemma {:induction false} FirstSightingsFacts(known: set<Address>, ips: seq<Address>)
    ensures NoDuplicates(FirstSightings(known, ips))
    ensures Elems(FirstSightings(known, ips)) == Elems(ips) - known
  {
    if ips != [] {
      var init, last := ips[..|ips| - 1], ips[|ips| - 1];
      FirstSightingsFacts(known, init);
      assert Elems(ips) == Elems(init) + {last} by {
        assert ips == init + [last];
      }
      if !(last in known || last in init) {
        assert last !in Elems(FirstSightings(known, init));
        NoDuplicatesAppend(FirstSightings(known, init), last);
        assert Elems(FirstSightings(known, init) + [last]) == Elems(FirstSightings(known, init)) + {last};
      }
    }
  }

  // ---------------------------------------------------------------------------
  // One pass of the update loop, on values

  /** The `peers` dictionary together with its insertion order. */
  datatype Table = Table(peers: map<Address, PeerRecord>, order: seq<Address>)

  /** The state after the loop body has handled `ip`: a first sighting
      inserts a record with the looked-up geography and appends the address
      to the insertion order; then the count goes up by one and `last_seen`
      becomes `now`. */
  function Sighting(peers: map<Address, PeerRecord>, order: seq<Address>, ip: Address,
                    now: Timestamp, lookup: Lookup): Table
  {
    if ip in peers then
      Table(peers[ip := peers[ip].(count := peers[ip].count + 1, lastSeen := now)], order)
    else
      Table(peers[ip := PeerRecord(1, GeolocationInfo(lookup(ip)), now)], order + [ip])
  }

  /** The keys after handling `done`, starting from `p0` listed in `o0`. */
  ghost predicate KeysAfter(p0: map<Address, PeerRecord>, o0: seq<Address>, done: seq<Address>,
                            peers: map<Address, PeerRecord>, order: seq<Address>)
  {
    && NoDuplicates(order)
    && Elems(order) == peers.Keys
    && order == o0 + FirstSightings(p0.Keys, done)
    && peers.Keys == p0.Keys + Elems(done)
  }

  /** Each count grew by the occurrences in `done`, and none is zero. */
  ghost predicate CountsAfter(p0: map<Address, PeerRecord>, done: seq<Address>, peers: map<Address, PeerRecord>) {
    && (forall ip :: ip in peers ==> peers[ip].count == CountOf(p0, ip) + multiset(done)[ip])
    && (forall ip :: ip in peers ==> peers[ip].count >= 1)
  }

  /** Known peers keep their geography; new ones have the looked-up one. */
  ghost predicate GeoAfter(p0: map<Address, PeerRecord>, lookup: Lookup, peers: map<Address, PeerRecord>) {
    && (forall ip :: ip in p0 ==> ip in peers && peers[ip].geo == p0[ip].geo)
    && (forall ip :: ip in peers && ip !in p0 ==> peers[ip].geo == GeolocationInfo(lookup(ip)))
  }

  /** Every address of `done` was last seen `now`; other peers are untouched. */
  ghost predicate SeenAfter(p0: map<Address, PeerRecord>, done: seq<Address>, now: Timestamp,
                            peers: map<Address, PeerRecord>) {
    && (forall ip :: ip in done ==> ip in peers && peers[ip].lastSeen == now)
    && (forall ip :: ip in p0 && ip !in done ==> ip in peers && peers[ip] == p0[ip])
  }

  lemma FirstSightingsSnoc(known: set<Address>, done: seq<Address>, ip: Address)
    ensures FirstSightings(known, done + [ip])
         == if ip in known || ip in done then FirstSightings(known, done) else FirstSightings(known, done) + [ip]
  {
    assert (done + [ip])[..|done|] == done;
  }

  lemma SightingKeys(p0: map<Address, PeerRecord>, o0: seq<Address>, done: seq<Address>,
                     peers: map<Address, PeerRecord>, order: seq<Address>, ip: Address, now: Timestamp, lookup: Lookup)
    requires KeysAfter(p0, o0, done, peers, order)
    ensures KeysAfter(p0, o0, done + [ip], Sighting(peers, order, ip, now, lookup).peers, Sighting(peers, order, ip, now, lookup).order)
  {
    FirstSightingsSnoc(p0.Keys, done, ip);
    assert Elems(done + [ip]) == Elems(done) + {ip};
    if ip in peers {
      KnownSightingKeys(p0, o0, done, peers, order, ip, now);
    } else {
      NewSightingKeys(p0, o0, done, peers, order, ip, now, lookup);
    }
  }

  lemma KnownSightingKeys(p0: map<Address, PeerRecord>, o0: seq<Address>, done: seq<Address>,
                          peers: map<Address, PeerRecord>, order: seq<Address>, ip: Address, now: Timestamp)
    requires KeysAfter(p0, o0, done, peers, order) && ip in peers
    requires FirstSightings(p0.Keys, done + [ip]) == FirstSightings(p0.Keys, done)
    requires Elems(done + [ip]) == Elems(done) + {ip}
    ensures KeysAfter(p0, o0, done + [ip], peers[ip := peers[ip].(count := peers[ip].count + 1, lastSeen := now)], order)
  {
  }

  lemma NewSightingKeys(p0: map<Address, PeerRecord>, o0: seq<Address>, done: seq<Address>,
                        peers: map<Address, PeerRecord>, order: seq<Address>, ip: Address, now: Timestamp, lookup: Lookup)
    requires KeysAfter(p0, o0, done, peers, order) && ip !in peers
    requires FirstSightings(p0.Keys, done + [ip]) == FirstSightings(p0.Keys, done) + [ip]
    requires Elems(done + [ip]) == Elems(done) + {ip}
    ensures KeysAfter(p0, o0, done + [ip], peers[ip := PeerRecord(1, GeolocationInfo(lookup(ip)), now)], order + [ip])
  {
    var peers' := peers[ip := PeerRecord(1, GeolocationInfo(lookup(ip)), now)];
    assert peers'.Keys == peers.Keys + {ip};
    AppendFresh(order, ip, o0, FirstSightings(p0.Keys, done), p0.Keys, Elems(done), peers.Keys);
  }

  /** Appending an address that is not yet a key keeps the order free of
      repeats, in step with the keys, and equal to the earlier order followed
      by the first sightings. */
  lemma AppendFresh(order: seq<Address>, ip: Address, o0: seq<Address>, first: seq<Address>,
                    known: set<Address>, seen: set<Address>, keys: set<Address>)
    requires NoDuplicates(order) && Elems(order) == keys && ip !in keys
    requires order == o0 + first && keys == known + seen
    ensures NoDuplicates(order + [ip]) && Elems(order + [ip]) == keys + {ip}
    ensures order + [ip] == o0 + (first + [ip]) && keys + {ip} == known + (seen + {ip})
  {
    NoDuplicatesAppend(order, ip);
    assert Elems(order + [ip]) == Elems(order) + {ip};
  }

  lemma SightingCounts(p0: map<Address, PeerRecord>, done: seq<Address>, peers: map<Address, PeerRecord>,
                       order: seq<Address>, ip: Address, now: Timestamp, lookup: Lookup)
    requires CountsAfter(p0, done, peers)
    requires peers.Keys == p0.Keys + Elems(done)
    ensures CountsAfter(p0, done + [ip], Sighting(peers, order, ip, now, lookup).peers)
  {
    assert multiset(done + [ip]) == multiset(done) + multiset{ip};
  }

  lemma SightingGeo(p0: map<Address, PeerRecord>, lookup: Lookup, peers: map<Address, PeerRecord>,
                    order: seq<Address>, ip: Address, now: Timestamp)
    requires GeoAfter(p0, lookup, peers)
    ensures GeoAfter(p0, lookup, Sighting(peers, order, ip, now, lookup).peers)
  {
  }

  lemma SightingSeen(p0: map<Address, PeerRecord>, done: seq<Address>, now: Timestamp,
                     peers: map<Address, PeerRecord>, order: seq<Address>, ip: Address, lookup: Lookup)
    requires SeenAfter(p0, done, now, peers)
    ensures SeenAfter(p0, done + [ip], now, Sighting(peers, order, ip, now, lookup).peers)
  {
  }

  /** Each sighting adds exactly one to the sum of the counts. */
  lemma SightingSum(peers: map<Address, PeerRecord>, order: seq<Address>, ip: Address, now: Timestamp, lookup: Lookup)
    requires NoDuplicates(order) && Elems(order) == peers.Keys
    ensures SumCounts(Sighting(peers, order, ip, now, lookup).order, Sighting(peers, order, ip, now, lookup).peers)
         == SumCounts(order, peers) + 1
  {
    if ip in peers {
      SumCountsBump(order, peers, ip, peers[ip].(count := peers[ip].count + 1, lastSeen := now));
    } else {
      var r0 := PeerRecord(0, GeolocationInfo(lookup(ip)), now);
      SumCountsInsert(order, peers, ip, r0);
      NoDuplicatesAppend(order, ip);
      SumCountsBump(order + [ip], peers[ip := r0], ip, r0.(count := 1));
      assert peers[ip := r0][ip := r0.(count := 1)] == peers[ip := PeerRecord(1, GeolocationInfo(lookup(ip)), now)];
    }
  }

  /** The state after the update loop has handled every address of `ips`,
      in order, starting from `peers` listed in `order`. */
  function SightingsOf(peers: map<Address, PeerRecord>, order: seq<Address>, ips: seq<Address>,
                       now: Timestamp, lookup: Lookup): Table
  {
    if ips == [] then Table(peers, order)
    else
      var before := SightingsOf(peers, order, ips[..|ips| - 1], now, lookup);
      Sighting(before.peers, before.order, ips[|ips| - 1], now, lookup)
  }

  /** Handling a list keeps the keys and the insertion order in step, and
      adds one to the sum of the counts per address handled. */
  lemma {:induction false} SightingsOfKeys(p0: map<Address, PeerRecord>, o0: seq<Address>, ips: seq<Address>,
                                           now: Timestamp, lookup: Lookup)
    requires NoDuplicates(o0) && Elems(o0) == p0.Keys
    ensures var after := SightingsOf(p0, o0, ips, now, lookup);
      && KeysAfter(p0, o0, ips, after.peers, after.order)
      && SumCounts(after.order, after.peers) == SumCounts(o0, p0) + |ips|
  {
    if ips == [] {
      assert Elems(ips) == {};
    } else {
      var init, ip := ips[..|ips| - 1], ips[|ips| - 1];
      assert ips == init + [ip];
      SightingsOfKeys(p0, o0, init, now, lookup);
      var before := SightingsOf(p0, o0, init, now, lookup);
      SightingKeys(p0, o0, init, before.peers, before.order, ip, now, lookup);
      SightingSum(before.peers, before.order, ip, now, lookup);
    }
  }

  /** Each count grows by the occurrences of its address in the list. */
  lemma {:induction false} SightingsOfCounts(p0: map<Address, PeerRecord>, o0: seq<Address>, ips: seq<Address>,
                                             now: Timestamp, lookup: Lookup)
    requires NoDuplicates(o0) && Elems(o0) == p0.Keys
    requires forall ip :: ip in p0 ==> p0[ip].count >= 1
    ensures CountsAfter(p0, ips, SightingsOf(p0, o0, ips, now, lookup).peers)
  {
    if ips == [] {
      assert multiset(ips) == multiset{};
    } else {
      var init, ip := ips[..|ips| - 1], ips[|ips| - 1];
      assert ips == init + [ip];
      SightingsOfCounts(p0, o0, init, now, lookup);
      SightingsOfKeys(p0, o0, init, now, lookup);
      var before := SightingsOf(p0, o0, init, now, lookup);
      SightingCounts(p0, init, before.peers, before.order, ip, now, lookup);
    }
  }

  /** Known peers keep their geography; new ones get the looked-up one. */
  lemma {:induction false} SightingsOfGeo(p0: map<Address, PeerRecord>, o0: seq<Address>, ips: seq<Address>,
                                          now: Timestamp, lookup: Lookup)
    ensures GeoAfter(p0, lookup, SightingsOf(p0, o0, ips, now, lookup).peers)
  {
    if ips != [] {
      var init, ip := ips[..|ips| - 1], ips[|ips| - 1];
      SightingsOfGeo(p0, o0, init, now, lookup);
      var before := SightingsOf(p0, o0, init, now, lookup);
      SightingGeo(p0, lookup, before.peers, before.order, ip, now);
    }
  }

  /** Every handled address was last seen `now`; the others are untouched. */
  lemma {:induction false} SightingsOfSeen(p0: map<Address, PeerRecord>, o0: seq<Address>, ips: seq<Address>,
                                           now: Timestamp, lookup: Lookup)
    ensures SeenAfter(p0, ips, now, SightingsOf(p0, o0, ips, now, lookup).peers)
  {
    if ips != [] {
      var init, ip := ips[..|ips| - 1], ips[|ips| - 1];
      assert ips == init + [ip];
      SightingsOfSeen(p0, o0, init, now, lookup);
      var before := SightingsOf(p0, o0, init, now, lookup);
      SightingSeen(p0, init, now, before.peers, before.order, ip, lookup);
    }
  }

  /** The peers part of the invariant of the `stats` structure: the lookup
      ran once per stored peer and never twice for one address (`lookups` is
      the insertion order, without repeats); every stored peer was seen; the
      counts add up to the number of addresses observed. */
  ghost predicate PeersConsistent(peers: map<Address, PeerRecord>, order: seq<Address>,
                                  lookups: seq<Address>, sightings: nat)
  {
    && NoDuplicates(order)
    && Elems(order) == peers.Keys
    && lookups == order
    && (forall ip :: ip in peers ==> peers[ip].count >= 1)
    && SumCounts(order, peers) == sightings
  }

  /** The hours part of the invariant: buckets are hours of the day, and they
      add up to the number of addresses observed. */
  ghost predicate HoursConsistent(hours: map<nat, nat>, sightings: nat) {
    && (forall h :: h in hours ==> h < HoursPerDay)
    && HourSum(hours, HoursPerDay) == sightings
  }

  /** The hour buckets after an update: still within the day, and their sum
      grown by `d`. */
  lemma HoursUpdate(hours: map<nat, nat>, hour: nat, sightings: nat, d: nat)
    requires HoursConsistent(hours, sightings) && hour < HoursPerDay
    ensures HoursConsistent(hours[hour := HourCount(hours, hour) + d], sightings + d)
  {
    HourSumAdd(hours, hour, d, HoursPerDay);
  }

  /** The peers after an update are consistent with the sightings grown by
      `|ips|`, and the old order is a prefix of the new one: the lookups made
      before are kept and the new ones appended. */
  lemma PeersUpdate(peers: map<Address, PeerRecord>, order: seq<Address>, sightings: nat,
                    ips: seq<Address>, now: Timestamp, lookup: Lookup,
                    peers': map<Address, PeerRecord>, order': seq<Address>)
    requires PeersConsistent(peers, order, order, sightings)
    requires peers' == SightingsOf(peers, order, ips, now, lookup).peers
    requires order' == SightingsOf(peers, order, ips, now, lookup).order
    ensures PeersConsistent(peers', order', order', sightings + |ips|) && order <= order'
  {
    SightingsOfKeys(peers, order, ips, now, lookup);
    SightingsOfCounts(peers, order, ips, now, lookup);
  }

  // ---------------------------------------------------------------------------
  // The store

  /** The `stats` global: `peers` and `hours` as in the source, `order` the
      insertion order of `peers`, and two ghost fields that record history:
      `lookups`, every address the geolocation lookup was asked about, in
      order, and `sightings`, the number of addresses passed to all updates. */
  class Store {
    var peers: map<Address, PeerRecord>
    var order: seq<Address>
    var hours: map<nat, nat>
    ghost var lookups: seq<Address>
    ghost var sightings: nat

    /** The invariant every update keeps. */
    ghost predicate Valid()
      reads this
    {
      PeersConsistent(peers, order, lookups, sightings) && HoursConsistent(hours, sightings)
    }

    /** `stats = {'peers': {}, 'hours': {}}`. */
    constructor ()
      ensures Valid()
      ensures peers == map[] && order == [] && hours == map[]
      ensures lookups == [] && sightings == 0
    {
      peers, order, hours := map[], [], map[];
      HourSumEmpty(HoursPerDay);
      lookups, sightings := [], 0;
    }

    /** The body of the update loop for one address `ip`. */
    method See(ip: Address, now: Timestamp, lookup: Lookup)
      requires lookups == order
      modifies this`peers, this`order, this`lookups
      ensures lookups == order
      ensures peers == Sighting(old(peers), old(order), ip, now, lookup).peers
      ensures order == Sighting(old(peers), old(order), ip, now, lookup).order
    {
      if ip !in peers {
        // first sighting: the only place the lookup runs
        var geoInfo := GeolocationInfo(lookup(ip));
        lookups := lookups + [ip];
        peers := peers[ip := PeerRecord(0, geoInfo, now)];
        order := order + [ip];
      }
      var rec := peers[ip];
      peers := peers[ip := rec.(count := rec.count + 1, lastSeen := now)];
      assert peers == old(peers)[ip := rec.(count := rec.count + 1, lastSeen := now)];
    }

    /** The loop of `update_stats_with_peers`: each address in turn. */
    method SeeAll(ips: seq<Address>, now: Timestamp, lookup: Lookup)
      requires lookups == order
      modifies this`peers, this`order, this`lookups
      ensures lookups == order
      ensures peers == SightingsOf(old(peers), old(order), ips, now, lookup).peers
      ensures order == SightingsOf(old(peers), old(order), ips, now, lookup).order
    {
      var i := 0;
      while i < |ips|
        invariant 0 <= i <= |ips|
        invariant lookups == order
        invariant peers == SightingsOf(old(peers), old(order), ips[..i], now, lookup).peers
        invariant order == SightingsOf(old(peers), old(order), ips[..i], now, lookup).order
      {
        var ip := ips[i];
        assert ips[..i + 1][..i] == ips[..i];
        See(ip, now, lookup);
        i := i + 1;
      }
      assert ips[..i] == ips;
    }

    /** `stats['hours'][hour] += d` (with the bucket created at zero) and the
        matching growth of the number of sightings. */
    method Bump(hour: nat, d: nat)
      requires HoursConsistent(hours, sightings) && hour < HoursPerDay
      modifies this`hours, this`sightings
      ensures HoursConsistent(hours, sightings)
      ensures sightings == old(sightings) + d
      ensures hours == old(hours)[hour := HourCount(old(hours), hour) + d]
    {
      HoursUpdate(hours, hour, sightings, d);
      hours := hours[hour := HourCount(hours, hour) + d];
      sightings := sightings + d;
    }

    /** `update_stats_with_peers(ips)` at time `now`, whose hour of the day is
        `hour`, with `lookup` standing for `geo_reader`. */
    method Observe(ips: seq<Address>, now: Timestamp, hour: nat, lookup: Lookup)
      requires Valid()
      requires hour < HoursPerDay
      modifies this
      ensures Valid()
      ensures sightings == old(sightings) + |ips|
      ensures peers == SightingsOf(old(peers), old(order), ips, now, lookup).peers
      ensures order == SightingsOf(old(peers), old(order), ips, now, lookup).order
      // the bucket of this hour grows by len(ips), the others stay as they were
      ensures hours == old(hours)[hour := HourCount(old(hours), hour) + |ips|]
      // earlier lookups stay in the log: the new ones are appended
      ensures old(lookups) <= lookups
    {
      ghost var peers0, order0, sightings0 := peers, order, sightings;
      Bump(hour, |ips|);
      SeeAll(ips, now, lookup);
      PeersUpdate(peers0, order0, sightings0, ips, now, lookup, peers, order);
    }
  }
}
