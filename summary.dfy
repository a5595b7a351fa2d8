/** The figures `print_stats` computes before printing them: total sightings,
    number of distinct addresses, the tally per country ranked by count, and
    the 24-row table of hour buckets. */
module Summary {
  import opened Wrappers
  import opened Sequences
  import opened AddressExtractor
  import opened GeoResolver
  import opened AggregationStore

  /** The key under which peers without geography are tallied. */
  const Unknown: string := "Sconosciuto"

  /** A dict from key to count, listed in insertion order. */
  type Tally = seq<(string, nat)>

  /** The key a peer is tallied under. */
  function CountryKey(r: PeerRecord): string {
    if r.geo.Some? then r.geo.value.country else Unknown
  }

  function TallyKeys(t: Tally): seq<string> {
    seq(|t|, k requires 0 <= k < |t| => t[k].0)
  }

  /** `t.get(c, 0)`. */
  function Get(t: Tally, c: string): nat {
    if t == [] then 0 else if t[0].0 == c then t[0].1 else Get(t[1..], c)
  }

  /** The sum of the counts of a list of entries. */
  function SumValues<K>(s: seq<(K, nat)>): nat {
    if s == [] then 0 else s[0].1 + SumValues(s[1..])
  }

  /** `t[c] = t.get(c, 0) + n`: an existing key keeps its place, a new key goes last. */
  function Add(t: Tally, c: string, n: nat): Tally {
    if t == [] then [(c, n)]
    else if t[0].0 == c then [(c, t[0].1 + n)] + t[1..]
    else [t[0]] + Add(t[1..], c, n)
  }

  /** The country tally built by the loop over `stats['peers'].items()`, whose
      keys in insertion order are `keys`. */
  function TallyOf(keys: seq<Address>, peers: map<Address, PeerRecord>): Tally
    requires forall ip :: ip in keys ==> ip in peers
  {
    if keys == [] then []
    else
      var ip := keys[|keys| - 1];
      Add(TallyOf(keys[..|keys| - 1], peers), CountryKey(peers[ip]), peers[ip].count)
  }

  /** Reference definition: the sightings of the peers in `keys` that are
      tallied under `c`. */
  function CountryTotal(keys: seq<Address>, peers: map<Address, PeerRecord>, c: string): nat
    requires forall ip :: ip in keys ==> ip in peers
  {
    if keys == [] then 0
    else
      var ip := keys[|keys| - 1];
      CountryTotal(keys[..|keys| - 1], peers, c) + (if CountryKey(peers[ip]) == c then peers[ip].count else 0)
  }

  /** The country keys of the peers in `keys`, in order. */
  function CountryKeys(keys: seq<Address>, peers: map<Address, PeerRecord>): seq<string>
    requires forall ip :: ip in keys ==> ip in peers
  {
    seq(|keys|, k requires 0 <= k < |keys| => CountryKey(peers[keys[k]]))
  }

  /** The loop of `print_stats` that fills `country_count`. */
  method CountCountries(order: seq<Address>, peers: map<Address, PeerRecord>) returns (countryCount: Tally)
    requires forall ip :: ip in order ==> ip in peers
    ensures countryCount == TallyOf(order, peers)
  {
    countryCount := [];
    var i := 0;
    while i < |order|
      invariant 0 <= i <= |order|
      invariant countryCount == TallyOf(order[..i], peers)
    {
      var data := peers[order[i]];
      var country := if data.geo.Some? then data.geo.value.country else Unknown;
      countryCount := Add(countryCount, country, data.count);
      assert order[..i + 1][..i] == order[..i];
      i := i + 1;
    }
    assert order[..i] == order;
  }

  // ---------------------------------------------------------------------------
  // The tally

  /** What one dict update does: the sum grows by `n`, only key `c` changes,
      and a new key is appended. */
  lemma AddFacts(t: Tally, c: string, n: nat)
    ensures SumValues(Add(t, c, n)) == SumValues(t) + n
    ensures forall d :: Get(Add(t, c, n), d) == Get(t, d) + (if d == c then n else 0)
    ensures TallyKeys(Add(t, c, n)) == TallyKeys(t) + (if c in TallyKeys(t) then [] else [c])
  {
    AddSum(t, c, n);
    forall d ensures Get(Add(t, c, n), d) == Get(t, d) + (if d == c then n else 0) {
      AddGet(t, c, n, d);
    }
    AddKeys(t, c, n);
  }

  lemma {:induction false} AddSum(t: Tally, c: string, n: nat)
    ensures SumValues(Add(t, c, n)) == SumValues(t) + n
  {
    if t != [] && t[0].0 != c {
      AddSum(t[1..], c, n);
    }
  }

  lemma {:induction false} AddGet(t: Tally, c: string, n: nat, d: string)
    ensures Get(Add(t, c, n), d) == Get(t, d) + (if d == c then n else 0)
  {
    if t != [] && t[0].0 != c {
      AddGet(t[1..], c, n, d);
    }
  }

  lemma {:induction false} AddKeys(t: Tally, c: string, n: nat)
    ensures TallyKeys(Add(t, c, n)) == TallyKeys(t) + (if c in TallyKeys(t) then [] else [c])
  {
    if t != [] {
      assert TallyKeys(t) == [t[0].0] + TallyKeys(t[1..]);
      if t[0].0 == c {
        assert TallyKeys(Add(t, c, n)) == [c] + TallyKeys(t[1..]);
      } else {
        AddKeys(t[1..], c, n);
        assert TallyKeys(Add(t, c, n)) == [t[0].0] + TallyKeys(Add(t[1..], c, n));
      }
    }
  }

  /** The country tally: its counts add up to the total number of sightings;
      each key's count is the sightings of the peers tallied under it (peers
      without geography under "Sconosciuto"); its keys are the country keys in
      the order they are first met, each once. */
  lemma {:induction false} TallyOfFacts(keys: seq<Address>, peers: map<Address, PeerRecord>)
    requires forall ip :: ip in keys ==> ip in peers
    ensures SumValues(TallyOf(keys, peers)) == SumCounts(keys, peers)
    ensures forall c :: Get(TallyOf(keys, peers), c) == CountryTotal(keys, peers, c)
    ensures TallyKeys(TallyOf(keys, peers)) == FirstOccurrences(CountryKeys(keys, peers))
    ensures NoDuplicates(TallyKeys(TallyOf(keys, peers)))
  {
    if keys == [] {
      assert CountryKeys(keys, peers) == [];
    } else {
      var init, ip := keys[..|keys| - 1], keys[|keys| - 1];
      TallyOfFacts(init, peers);
      AddFacts(TallyOf(init, peers), CountryKey(peers[ip]), peers[ip].count);
      var ck := CountryKeys(keys, peers);
      assert ck[..|ck| - 1] == CountryKeys(init, peers);
      var c := CountryKey(peers[ip]);
      assert ck[|ck| - 1] == c;
      FirstOccurrencesFacts(CountryKeys(init, peers));
      assert c in TallyKeys(TallyOf(init, peers)) <==> c in CountryKeys(init, peers) by {
        assert c in Elems(FirstOccurrences(CountryKeys(init, peers))) <==> c in Elems(CountryKeys(init, peers));
      }
      assert FirstOccurrences(ck) == FirstOccurrences(CountryKeys(init, peers)) + (if c in CountryKeys(init, peers) then [] else [c]);
      FirstOccurrencesFacts(ck);
    }
  }

  /** A peer whose lookup failed is counted under "Sconosciuto". */
  lemma {:induction false} UnknownGeographyTallied(keys: seq<Address>, peers: map<Address, PeerRecord>, ip: Address)
    requires forall a :: a in keys ==> a in peers
    requires ip in keys && peers[ip].geo.None?
    ensures Get(TallyOf(keys, peers), Unknown) >= peers[ip].count
  {
    TallyOfFacts(keys, peers);
    CountryTotalCovers(keys, peers, ip);
  }

  lemma {:induction false} CountryTotalCovers(keys: seq<Address>, peers: map<Address, PeerRecord>, ip: Address)
    requires forall a :: a in keys ==> a in peers
    requires ip in keys
    ensures CountryTotal(keys, peers, CountryKey(peers[ip])) >= peers[ip].count
  {
    var init := keys[..|keys| - 1];
    if keys[|keys| - 1] != ip {
      assert keys == init + [keys[|keys| - 1]];
      CountryTotalCovers(init, peers, ip);
    }
  }

  /** A record whose country name is missing is tallied under "N/A", not
      under "Sconosciuto". */
  lemma MissingCountryIsNotUnknown(r: PeerRecord, response: GeoResponse)
    requires r.geo == GeolocationInfo(Some(response)) && response.countryName.None?
    ensures CountryKey(r) == NotAvailable && CountryKey(r) != Unknown
  {
  }

  // ---------------------------------------------------------------------------
  // sorted(country_count.items(), key=lambda x: x[1], reverse=True)

  /** Counts never increase along `s`. */
  ghost predicate NonIncreasing(s: Tally) {
    forall i, j :: 0 <= i < j < |s| ==> s[i].1 >= s[j].1
  }

  /** The entries of `s` whose count is `n`, in order. */
  function WithCount(s: Tally, n: nat): Tally {
    if s == [] then []
    else (if s[0].1 == n then [s[0]] else []) + WithCount(s[1..], n)
  }

  /** Place `x` before the first entry whose count is not larger. */
  function InsertByCount(x: (string, nat), s: Tally): Tally {
    if s == [] || s[0].1 <= x.1 then [x] + s
    else [s[0]] + InsertByCount(x, s[1..])
  }

  /** Python's stable sort by count, largest first. */
  function SortByCountDesc(t: Tally): Tally {
    if t == [] then [] else InsertByCount(t[0], SortByCountDesc(t[1..]))
  }

  lemma InsertByCountFacts(x: (string, nat), s: Tally)
    requires NonIncreasing(s)
    ensures NonIncreasing(InsertByCount(x, s))
    ensures multiset(InsertByCount(x, s)) == multiset{x} + multiset(s)
    ensures SumValues(InsertByCount(x, s)) == x.1 + SumValues(s)
    ensures forall n :: WithCount(InsertByCount(x, s), n) == (if x.1 == n then [x] else []) + WithCount(s, n)
  {
    InsertByCountPermutes(x, s);
    InsertByCountSorted(x, s);
    forall n ensures WithCount(InsertByCount(x, s), n) == (if x.1 == n then [x] else []) + WithCount(s, n) {
      InsertByCountStable(x, s, n);
    }
  }

  lemma {:induction false} InsertByCountPermutes(x: (string, nat), s: Tally)
    ensures multiset(InsertByCount(x, s)) == multiset{x} + multiset(s)
    ensures SumValues(InsertByCount(x, s)) == x.1 + SumValues(s)
  {
    if s != [] && s[0].1 > x.1 {
      InsertByCountPermutes(x, s[1..]);
      assert s == [s[0]] + s[1..];
    }
  }

  /** Inserted before the first entry that is not larger, `x` goes before every
      entry of its own count and leaves their order unchanged. */
  lemma {:induction false} InsertByCountStable(x: (string, nat), s: Tally, n: nat)
    ensures WithCount(InsertByCount(x, s), n) == (if x.1 == n then [x] else []) + WithCount(s, n)
  {
    var xs: Tally := if x.1 == n then [x] else [];
    if s != [] && s[0].1 > x.1 {
      var hs: Tally := if s[0].1 == n then [s[0]] else [];
      InsertByCountStable(x, s[1..], n);
      assert WithCount(InsertByCount(x, s), n) == hs + WithCount(InsertByCount(x, s[1..]), n);
      assert xs == [] || hs == [];
      assert WithCount(s, n) == hs + WithCount(s[1..], n);
    } else {
      assert ([x] + s)[1..] == s;
      assert WithCount(InsertByCount(x, s), n) == xs + WithCount(s, n);
    }
  }

  /** An entry whose count bounds every count of a non-increasing `r` can go
      in front of it. */
  lemma ConsNonIncreasing(h: (string, nat), r: Tally)
    requires NonIncreasing(r) && forall k :: 0 <= k < |r| ==> r[k].1 <= h.1
    ensures NonIncreasing([h] + r)
  {
    var hr := [h] + r;
    forall i, j | 0 <= i < j < |hr| ensures hr[i].1 >= hr[j].1 {
      assert hr[j] == r[j - 1];
      if i > 0 {
        assert hr[i] == r[i - 1];
      }
    }
  }

  /** Every entry of `InsertByCount(x, s)` is `x` or an entry of `s`. */
  lemma InsertByCountBound(x: (string, nat), s: Tally, b: nat)
    requires x.1 <= b && forall k :: 0 <= k < |s| ==> s[k].1 <= b
    ensures forall k :: 0 <= k < |InsertByCount(x, s)| ==> InsertByCount(x, s)[k].1 <= b
  {
    InsertByCountPermutes(x, s);
    var r := InsertByCount(x, s);
    forall k | 0 <= k < |r| ensures r[k].1 <= b {
      assert r[k] in multiset(r);
      if r[k] != x {
        assert r[k] in multiset(s);
        var m :| 0 <= m < |s| && s[m] == r[k];
      }
    }
  }

  lemma {:induction false} InsertByCountSorted(x: (string, nat), s: Tally)
    requires NonIncreasing(s)
    ensures NonIncreasing(InsertByCount(x, s))
  {
    if s != [] && s[0].1 > x.1 {
      InsertByCountSorted(x, s[1..]);
      InsertByCountBound(x, s[1..], s[0].1);
      ConsNonIncreasing(s[0], InsertByCount(x, s[1..]));
    } else if s != [] {
      ConsNonIncreasing(x, s);
    }
  }

  /** The ranking is ordered by count, largest first; it is a permutation of
      the tally with the same total; and it is stable: the entries with any
      one count keep the tally's order (ties stay in first-encounter order). */
  lemma SortByCountDescFacts(t: Tally)
    ensures NonIncreasing(SortByCountDesc(t))
    ensures multiset(SortByCountDesc(t)) == multiset(t)
    ensures SumValues(SortByCountDesc(t)) == SumValues(t)
    ensures forall n :: WithCount(SortByCountDesc(t), n) == WithCount(t, n)
  {
    SortSorted(t);
    SortPermutes(t);
    forall n ensures WithCount(SortByCountDesc(t), n) == WithCount(t, n) {
      SortStable(t, n);
    }
  }

  lemma {:induction false} SortSorted(t: Tally)
    ensures NonIncreasing(SortByCountDesc(t))
  {
    if t != [] {
      SortSorted(t[1..]);
      InsertByCountSorted(t[0], SortByCountDesc(t[1..]));
    }
  }

  lemma {:induction false} SortPermutes(t: Tally)
    ensures multiset(SortByCountDesc(t)) == multiset(t)
    ensures SumValues(SortByCountDesc(t)) == SumValues(t)
  {
    if t != [] {
      SortPermutes(t[1..]);
      InsertByCountPermutes(t[0], SortByCountDesc(t[1..]));
      assert t == [t[0]] + t[1..];
    }
  }

  lemma {:induction false} SortStable(t: Tally, n: nat)
    ensures WithCount(SortByCountDesc(t), n) == WithCount(t, n)
  {
    if t != [] {
      SortStable(t[1..], n);
      InsertByCountStable(t[0], SortByCountDesc(t[1..]), n);
    }
  }

  /** Ties keep their order: countries A:5, C:3, B:5, met in that order, rank
      A, B, C. */
  lemma RankingExample()
    ensures SortByCountDesc([("A", 5), ("C", 3), ("B", 5)]) == [("A", 5), ("B", 5), ("C", 3)]
  {
    assert SortByCountDesc([("B", 5)]) == [("B", 5)];
    assert SortByCountDesc([("C", 3), ("B", 5)]) == [("B", 5), ("C", 3)];
  }

  // ---------------------------------------------------------------------------
  // The hour table and the summary

  /** `for h in range(24)`: hour `h` and `stats['hours'].get(h, 0)`. */
  function HourTable(hours: map<nat, nat>): (r: seq<(nat, nat)>)
    ensures |r| == HoursPerDay
  {
    seq(HoursPerDay, h requires 0 <= h < HoursPerDay => (h, HourCount(hours, h)))
  }

  lemma {:induction false} SumValuesAppend<K>(a: seq<(K, nat)>, b: seq<(K, nat)>)
    ensures SumValues(a + b) == SumValues(a) + SumValues(b)
  {
    if a == [] {
      assert a + b == b;
    } else {
      assert (a + b)[1..] == a[1..] + b;
      SumValuesAppend(a[1..], b);
    }
  }

  /** The table lists hours 0 to 23 in ascending order, missing hours as 0,
      and its rows add up to the sum of the hour buckets. */
  lemma {:induction false} HourTableFacts(hours: map<nat, nat>)
    ensures forall h :: 0 <= h < HoursPerDay ==> HourTable(hours)[h] == (h, HourCount(hours, h))
    ensures forall h :: 0 <= h < HoursPerDay ==> HourTable(hours)[h].0 == h
    ensures forall h :: 0 <= h < HoursPerDay && h !in hours ==> HourTable(hours)[h].1 == 0
    ensures SumValues(HourTable(hours)) == HourSum(hours, HoursPerDay)
  {
    HourTablePrefixSum(hours, HoursPerDay);
    assert HourTable(hours)[..HoursPerDay] == HourTable(hours);
  }

  lemma {:induction false} HourTablePrefixSum(hours: map<nat, nat>, n: nat)
    requires n <= HoursPerDay
    ensures SumValues(HourTable(hours)[..n]) == HourSum(hours, n)
  {
    if n > 0 {
      var t := HourTable(hours);
      HourTablePrefixSum(hours, n - 1);
      assert t[..n] == t[..n - 1] + [t[n - 1]];
      SumValuesAppend(t[..n - 1], [t[n - 1]]);
    }
  }

  /** What `print_stats` shows. */
  datatype SummaryView = SummaryView(
    totalConnections: nat,
    uniqueIps: nat,
    countries: Tally,
    hourTable: seq<(nat, nat)>)

  /** The non-printing part of `print_stats`. */
  method Summarize(store: Store) returns (view: SummaryView)
    requires store.Valid()
    ensures view.totalConnections == store.sightings
    ensures view.uniqueIps == |store.peers| == |store.order|
    ensures view.countries == SortByCountDesc(TallyOf(store.order, store.peers))
    ensures NonIncreasing(view.countries)
    ensures SumValues(view.countries) == view.totalConnections
    ensures NoDuplicates(TallyKeys(TallyOf(store.order, store.peers)))
    ensures view.hourTable == HourTable(store.hours)
    ensures SumValues(view.hourTable) == view.totalConnections
  {
    var totalConnections := SumCounts(store.order, store.peers);
    var uniqueIps := |store.peers|;
    var countryCount := CountCountries(store.order, store.peers);
    var sortedCountries := SortByCountDesc(countryCount);
    view := SummaryView(totalConnections, uniqueIps, sortedCountries, HourTable(store.hours));
    TallyOfFacts(store.order, store.peers);
    SortByCountDescFacts(countryCount);
    HourTableFacts(store.hours);
    DistinctCardinality(store.order);
  }

  /** A list without repeats has as many elements as its set. */
  lemma {:induction false} DistinctCardinality<T>(s: seq<T>)
    requires NoDuplicates(s)
    ensures |Elems(s)| == |s|
  {
    if s != [] {
      var init, last := s[..|s| - 1], s[|s| - 1];
      DistinctCardinality(init);
      assert s == init + [last];
      assert Elems(s) == Elems(init) + {last};
      assert last !in Elems(init);
    }
  }
}
