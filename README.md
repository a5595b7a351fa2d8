# monitor_transmission: a verified model of the sampling and aggregation core

`monitor_transmission.py` polls a Transmission daemon (`transmission-remote -t <id> -pi`) at a fixed interval. It pulls an IPv4 address out of each peer line and enriches first-seen addresses with a GeoLite2 city lookup. It accumulates the sightings in the global `stats` structure and prints a summary after every pass.

This project models the part of that program that computes something:

- **Address extraction** (`address_extractor.dfy`, module `AddressExtractor`).
  - `IP_REGEX = (\d{1,3}\.){3}\d{1,3}` under Python's `re.search` is defined twice:
    - declaratively, as "the regex matches `s[i..j]`" (`MatchAt`);
    - as a deterministic greedy matcher (`FindFrom`, `SearchAddress`).
  - The two are proved to agree: the matcher returns the leftmost start, and at that start the longest end.
  - `parse_peers_from_lines` is a method with the source's loop, proved equal to the fold `ParsePeers`.
- **Geolocation post-processing** (`geo_resolver.dfy`, module `GeoResolver`).
  - The lookup `geo_reader.city(ip)` is an injected function `Lookup` from address to an optional response.
  - `get_geolocation_info` maps a failure to `None`, and a missing or empty name to `"N/A"`.
- **The `stats` store** (`aggregation_store.dfy`, module `AggregationStore`).
  - `class Store` holds the two dicts. `peers` is kept together with its insertion order `order`, because Python dicts are ordered and that order decides ties in the summary.
  - It also holds two ghost fields:
    - `lookups` logs every geolocation call;
    - `sightings` counts every address ever passed in.
  - `update_stats_with_peers` is `Store.Observe`: the hour bucket first (`Store.Bump`), then the per-address loop (`Store.SeeAll`, `Store.See`).
  - Each is proved against the value-level fold `SightingsOf`. Lemmas about the fold give the per-address effects.
- **The summary** (`summary.dfy`, module `Summary`).
  - These are the figures `print_stats` computes before printing: the total, the unique count, the country tally with its reserved `'Sconosciuto'` key, the stable descending sort by count, and the 24-row hour table.
- **One pass of `main`** (`poll_loop.dfy`, module `PollLoop`).
  - The addresses of all configured torrent ids are concatenated, then there is one update and one summary.
  - A finite run of passes starts from the empty `stats`.
  - The `transmission-remote` call is a `SampleSource` from torrent id to lines. It yields no lines when the command fails, as `get_peers_list` returns `[]` then.

`wrappers.dfy` holds `Option`. `sequences.dfy` holds the sequence helpers `NoDuplicates`, `Elems` and `FirstOccurrences`.

## Model

| member | source | states |
|---|---|---|
| AddressExtractor.FindFromLeftmostLongest | monitor_transmission.py:28 | scanning from position `i`, the matcher fails exactly when no match starts at or after `i`; otherwise it returns a span where the regex matches, with no match starting earlier and none ending later at that start |
| AddressExtractor.SearchAddressIsLeftmostLongest | monitor_transmission.py:122-124 | `IP_REGEX.search(line)` is `None` exactly when no substring of the line matches; otherwise it is `line[p..q]` for the leftmost start `p` and the greedy (longest) end `q` there |
| AddressExtractor.SearchAddress | monitor_transmission.py:122-124 | `IP_REGEX.search(line).group(0)`, or `None` when the search fails; its contract is stated by `SearchAddressIsLeftmostLongest` (the leftmost, then longest, match) and `AddressOfMatch` (the match is address-shaped) |
| AddressExtractor.GroupsEndSound | monitor_transmission.py:28 | whatever end the greedy group matcher reports, the regex's `n` dotted groups really do match up to it |
| AddressExtractor.GroupsEndComplete | monitor_transmission.py:28 | if the dotted groups match `s[i..j]`, the greedy matcher succeeds at `i` and reaches at least `j` |
| AddressExtractor.DottedAtSlice | monitor_transmission.py:28 | a match of the groups inside a line is also a match inside any slice of the line that contains it, in particular of the extracted substring |
| AddressExtractor.AddressOfMatch | monitor_transmission.py:124-125 | the substring a match covers is itself address-shaped (`IsAddress`) |
| AddressExtractor.LinePeers | monitor_transmission.py:122-125 | the addresses one line contributes to `found_ips`: `[match.group(0)]` or nothing; its contract is stated by `LinePeersAddress` (at most one, address-shaped) and `ParsePeersOneLine` |
| AddressExtractor.ParsePeers | monitor_transmission.py:113-126 | the value `parse_peers_from_lines` returns; its contract is stated by `ParsePeersAppend` (line by line, in order), `ParsePeersOneLine` and `ParsePeersBounds` (one address-shaped result per matching line at most) |
| AddressExtractor.ParsePeersFromLines | monitor_transmission.py:113-126 | the loop returns `ParsePeers(lines)`: the match of each line that has one, in line order |
| AddressExtractor.ParsePeersAppend | monitor_transmission.py:120-126 | parsing `a + b` gives the result of `a` followed by the result of `b`: lines are handled independently and in order |
| AddressExtractor.ParsePeersOneLine | monitor_transmission.py:122-125 | a single line gives `[match]` when it holds an address-shaped substring and `[]` when it does not |
| AddressExtractor.ParsePeersBounds | monitor_transmission.py:120-126 | at most one result per line; every result is address-shaped; no lines give no result |
| AddressExtractor.LinePeersAddress | monitor_transmission.py:122-125 | one line contributes at most one address, and it is address-shaped |
| AddressExtractor.GreedyLastGroupExample | monitor_transmission.py:28 | on `"1.2.3.4567"` the search returns `"1.2.3.456"`: the last group takes three digits |
| AddressExtractor.LeftmostStartExample | monitor_transmission.py:28 | on `"1234.5.6.7"` the search returns `"234.5.6.7"`: the match starts at index 1 |
| AddressExtractor.OctetRangeNotCheckedExample | monitor_transmission.py:28 | `"999.1.1.1"` matches the regex as a whole: octets above 255 are not rejected |
| AddressExtractor.NoDigitNoAddress | monitor_transmission.py:122-123 | a line without any digit (such as the table header) yields no match |
| AddressExtractor.DocCommentPeerLine | monitor_transmission.py:117 | the line `"203.0.113.125    60% ..."` yields `"203.0.113.125"` |
| AddressExtractor.DocCommentExample | monitor_transmission.py:114-118 | the header line plus that peer line parse to exactly `["203.0.113.125"]` |
| GeoResolver.OrNotAvailable | monitor_transmission.py:140-141 | the result is the name when it is present and non-empty, `"N/A"` otherwise; it is never empty |
| GeoResolver.GeolocationInfo | monitor_transmission.py:128-147 | `None` exactly when the lookup failed; otherwise a record whose country and city are the looked-up names, with missing or empty names replaced by `"N/A"` |
| AggregationStore.HourSumAdd | monitor_transmission.py:157 | adding `d` to one hour bucket below `n` adds `d` to the sum of the buckets below `n` |
| AggregationStore.SumCountsBump | monitor_transmission.py:168 | raising one peer's count by one raises the sum of the counts by one |
| AggregationStore.SumCountsInsert | monitor_transmission.py:163-167 | inserting a new peer with count 0 leaves the sum of the counts unchanged |
| AggregationStore.FirstSightingsFacts | monitor_transmission.py:161-167 | the addresses an update inserts are distinct, and they are exactly the addresses of `ips` that were not keys before |
| AggregationStore.FirstSightingsOfNothing | monitor_transmission.py:161-167 | into an empty `stats['peers']`, an update inserts each distinct address of `ips` once, in the order of its first occurrence |
| AggregationStore.Sighting | monitor_transmission.py:160-169 | the peers table after one pass of the loop body; its contract is stated by `SightingCounts`, `SightingGeo`, `SightingSeen` and `SightingSum` (count up by one, `geo_info` looked up only for a new address, `last_seen` set, count sum up by one) |
| AggregationStore.SightingsOf | monitor_transmission.py:159-169 | the peers table and insertion order after the whole `for ip in peer_ips` loop; its contract is stated by `SightingsOfKeys`, `SightingsOfCounts`, `SightingsOfGeo` and `SightingsOfSeen` |
| AggregationStore.SightingsOfKeys | monitor_transmission.py:159-169 | after the loop, the keys are the old keys plus the addresses of `ips`; the insertion order is the old order followed by the first sightings and has no repeats; the sum of the counts grew by `len(ips)` |
| AggregationStore.SightingsOfCounts | monitor_transmission.py:159-169 | each peer's count is its old count plus the number of times its address occurs in `ips`, and every count is at least 1 |
| AggregationStore.SightingsOfGeo | monitor_transmission.py:161-167 | known peers keep their `geo_info`; a new peer gets `get_geolocation_info` of the lookup for its address |
| AggregationStore.SightingsOfSeen | monitor_transmission.py:169 | every address of `ips` has `last_seen == now`; a known peer whose address is not in `ips` keeps its record unchanged |
| AggregationStore.HoursUpdate | monitor_transmission.py:157 | bumping an hour of the day by `d` keeps every bucket key below 24 and grows the bucket sum by `d` |
| AggregationStore.PeersUpdate | monitor_transmission.py:159-169 | the loop keeps the peers invariant: order without repeats matching the keys, lookups equal to the order, counts at least 1, and a count sum grown by `len(ips)`; the old order is a prefix of the new one |
| AggregationStore.Store.constructor | monitor_transmission.py:84-87 | `stats = {'peers': {}, 'hours': {}}`: empty maps, no lookups, no sightings, and the invariant holds |
| AggregationStore.Store.See | monitor_transmission.py:160-169 | one pass of the loop body: a first sighting appends the address to the lookup log and the order and inserts a looked-up record; then the count goes up by one and `last_seen` becomes `now` (the state is `Sighting` of the old state) |
| AggregationStore.Store.SeeAll | monitor_transmission.py:159-169 | the loop over `ips` leaves `peers` and the insertion order equal to `SightingsOf` of the old state, and the lookup log equal to the order |
| AggregationStore.Store.Bump | monitor_transmission.py:157 | `hours[hour]` grows by `d` (from 0 when missing), every other bucket is unchanged, the sightings grow by `d`, and the hours invariant is kept |
| AggregationStore.Store.Observe | monitor_transmission.py:149-169 | `update_stats_with_peers`: the invariant is kept, so the sum of the counts equals the sum of the hour buckets equals all addresses ever passed, and the lookup ran at most once per address; `hours[hour]` grows by `len(ips)` and no other bucket changes; `peers` and the order become `SightingsOf` of the old state; earlier lookups stay in the log |
| Summary.CountryKey | monitor_transmission.py:188-194 | the key a peer is tallied under: `geo['country']` when `geo_info` is set, `'Sconosciuto'` otherwise; its contract is stated by `UnknownGeographyTallied` and `MissingCountryIsNotUnknown` |
| Summary.Add | monitor_transmission.py:191-194 | `d[c] = d.get(c, 0) + n` on an insertion-ordered dictionary; its contract is stated by `AddFacts` |
| Summary.TallyOf | monitor_transmission.py:186-194 | `country_count` after the loop over the peers in insertion order; its contract is stated by `TallyOfFacts` |
| Summary.CountCountries | monitor_transmission.py:186-194 | the loop over `stats['peers'].items()` in insertion order builds `TallyOf(order, peers)` |
| Summary.AddFacts | monitor_transmission.py:191-194 | `d[c] = d.get(c, 0) + n` grows the sum by `n`, changes only key `c`, and appends `c` to the keys when it is new |
| Summary.TallyOfFacts | monitor_transmission.py:186-194 | the tally values sum to the total count; each key's value is the count of the peers tallied under it (`CountryTotal`); its keys are the countries in first-encounter order, without repeats |
| Summary.UnknownGeographyTallied | monitor_transmission.py:193-194 | a peer whose `geo_info` is `None` is counted under `'Sconosciuto'` |
| Summary.MissingCountryIsNotUnknown | monitor_transmission.py:188-191 | a peer whose lookup succeeded without a country name is tallied under `"N/A"`, not under `'Sconosciuto'` |
| Summary.InsertByCount | monitor_transmission.py:197 | one insertion step of a stable sort by descending count; its contract is stated by `InsertByCountFacts` |
| Summary.SortByCountDesc | monitor_transmission.py:197 | `sorted(country_count.items(), key=lambda x: x[1], reverse=True)`; its contract is stated by `SortByCountDescFacts` (non-increasing, a permutation, stable) |
| Summary.InsertByCountFacts | monitor_transmission.py:197 | one insertion step of the sort keeps the list non-increasing, adds exactly the inserted entry, and puts it before the entries of equal count, whose order it leaves unchanged |
| Summary.SortByCountDescFacts | monitor_transmission.py:197 | `sorted(..., key=count, reverse=True)`: the result is non-increasing by count, a permutation of the tally with the same total, and stable (the entries of any one count keep their tally order) |
| Summary.RankingExample | monitor_transmission.py:197 | the tally A:5, C:3, B:5 ranks as A, B, C |
| Summary.HourTable | monitor_transmission.py:203-204 | the 24 lines `h: stats['hours'].get(h, 0)`; its length is 24, and the rest of its contract is stated by `HourTableFacts` |
| Summary.HourTableFacts | monitor_transmission.py:203-204 | the table has 24 rows, row `h` is `(h, hours.get(h, 0))` for hours 0 to 23 in order, missing hours show 0, and the rows add up to the sum of the hour buckets |
| Summary.Summarize | monitor_transmission.py:181-204 | the total equals all addresses observed, the unique count equals the number of peers; the ranking is the sorted tally, non-increasing, and sums to the total; the tally keys are distinct; the hour table sums to the total |
| Summary.DistinctCardinality | monitor_transmission.py:182 | a list without repeats has as many elements as its set, so `len(stats['peers'])` equals the length of the insertion order |
| PollLoop.AllLines | monitor_transmission.py:219-221 | the lines `get_peers_list(tid)` yields for each id, concatenated in id order; its contract is stated by `AllLinesAppend` and `FailedIdSkipped` |
| PollLoop.GatherPeers | monitor_transmission.py:219-223 | the merged list is `ParsePeers` of all the ids' lines in order, and no longer than those lines |
| PollLoop.AllLinesAppend | monitor_transmission.py:220 | the lines of `a + b` are the lines of `a` followed by those of `b` |
| PollLoop.FailedIdSkipped | monitor_transmission.py:108-111 | an id whose command failed contributes nothing: the merged addresses are as if it were absent |
| PollLoop.Collect | monitor_transmission.py:219-226 | the merged list is `ParsePeers` of all the lines; the single update is made with that list, so peers and insertion order become `SightingsOf` of the old state and it; the invariant holds, the sightings grew by its length, and so did the current hour's bucket |
| PollLoop.PollOnce | monitor_transmission.py:218-229 | one pass of `while True`: the effects of `Collect` (peers and order become `SightingsOf` of the old state and the merged list), and a summary whose total equals all addresses observed, whose unique count is the number of peers, and whose ranking and hour table both sum to that total |
| PollLoop.Monitor | monitor_transmission.py:208-232 | after any finite run from empty `stats`: the sum of the counts equals the sum of the hour buckets equals the number of addresses gathered, and the lookup log has no repeats and covers exactly the stored peers |

## Left out

- `get_peers_list` runs `transmission-remote` as a subprocess. It is not modelled. Its output is a `SampleSource` parameter, which yields `[]` for a failed command. Exceptions other than `CalledProcessError` are not modelled.
- The `geoip2.database.Reader` and its `city()` call are foreign code. They are an injected `Lookup` function, whose `None` stands for any exception the bare `except:` catches.
- Latitude and longitude are floats that nothing else reads, so the geo record carries only country and city.
- Terminal colours, TTY detection, `os.system('clear')` and every `print` are output only and are not modelled.
- `datetime.datetime.now()` is not modelled. The time `now` and its hour of day `hour` (below 24) are parameters. `now` is an integer that is only stored.
- A Ctrl-C during the loop of `update_stats_with_peers` reaches `print_stats` with `hours` already raised and `peers` only partly updated, so the model's equation of counts and hour buckets holds only between complete updates; a Ctrl-C during a lookup is caught by the bare `except:` and gives `geo_info = None`, the `None` outcome of `Lookup`.
- The `while True` loop, `time.sleep`, the `KeyboardInterrupt` handler, the database-file check with `sys.exit`, and `geo_reader.close()` are process lifecycle. `PollLoop.Monitor` models a finite run of passes instead.
- The configuration constants (host, credentials, paths, interval) are not modelled. `TORRENT_IDS` is a parameter.
- `\d` is modelled as the ASCII digits `0`-`9`. On `str` patterns, Python's `\d` also matches other Unicode decimal digits.
- PollLoop.Collect: states only the current hour's bucket. The full map update, with every other bucket unchanged, is stated on `Store.Observe` and `Store.Bump`, which it calls.
- PollLoop.PollOnce: states the same hour-bucket effect as `Collect`. It states the summary's link to the store and not the summary's full contents, which `Summary.Summarize` states.
- AggregationStore.Store.Observe: states the per-address effects through `SightingsOf`. The counts, keys, geography and `last_seen` of the result are stated by the `SightingsOf*` lemmas.
