/** Address extraction: the regular expression `(\d{1,3}\.){3}\d{1,3}` as
    Python's `re.search` applies it to one line, and the per-line scan of
    `parse_peers_from_lines`.

    The pattern is first given declaratively (`IsAddress`: a string made of
    four groups of one to three digits joined by dots, octet values not
    checked), then as the deterministic greedy matcher that a backtracking
    engine amounts to here (`GroupsEnd`, `FindAddress`). The lemmas prove that
    the matcher returns the leftmost match and, at that start, the longest. */
module AddressExtractor {
  import opened Wrappers

  type Address = string

  predicate IsDigit(c: char) {
    '0' <= c <= '9'
  }

  /** `s[i..j]` is a run of digits. */
  predicate Digits(s: string, i: nat, j: nat) {
    i <= j <= |s| && forall k :: i <= k < j ==> IsDigit(s[k])
  }

  /** `s[i..j]` matches `\d{1,3}`. */
  predicate GroupAt(s: string, i: nat, j: nat) {
    i < j <= i + 3 && Digits(s, i, j)
  }

  /** `s[i..j]` matches `(\d{1,3}\.){n}\d{1,3}`. */
  predicate DottedAt(s: string, i: nat, j: nat, n: nat)
    decreases n, 1
  {
    if n == 0 then GroupAt(s, i, j)
    else GroupDotAt(s, i, i + 1, j, n) || GroupDotAt(s, i, i + 2, j, n) || GroupDotAt(s, i, i + 3, j, n)
  }

  /** `s[i..k]` is a group, `s[k]` a literal dot, and `s[k + 1..j]` matches
      `(\d{1,3}\.){n-1}\d{1,3}`. */
  predicate GroupDotAt(s: string, i: nat, k: nat, j: nat, n: nat)
    requires n >= 1
    decreases n, 0
  {
    k < j <= |s| && GroupAt(s, i, k) && s[k] == '.' && DottedAt(s, k + 1, j, n - 1)
  }

  /** The pattern matches `s[i..j]`. */
  predicate MatchAt(s: string, i: nat, j: nat) {
    i < j <= |s| && DottedAt(s, i, j, 3)
  }

  /** `t` is shaped like a dotted-quad IPv4 address: four groups of one to
      three digits joined by dots. */
  predicate IsAddress(t: string) {
    MatchAt(t, 0, |t|)
  }

  /** Length of the run of digits starting at `s[i]`. */
  function DigitRun(s: string, i: nat): (r: nat)
    requires i <= |s|
    ensures i + r <= |s|
    ensures i + r == |s| || !IsDigit(s[i + r])
    decreases |s| - i
  {
    if i < |s| && IsDigit(s[i]) then 1 + DigitRun(s, i + 1) else 0
  }

  /** Where a greedy match of `(\d{1,3}\.){n}\d{1,3}` starting at `i` ends.
      A group followed by a dot must be the whole digit run (a dot is not a
      digit, so backtracking never helps); the last group takes up to three
      digits. */
  function GroupsEnd(s: string, i: nat, n: nat): (r: Option<nat>)
    requires i <= |s|
    ensures r.Some? ==> i < r.value <= |s|
    decreases n
  {
    var d := DigitRun(s, i);
    if n == 0 then
      if d == 0 then None else Some(i + (if d < 3 then d else 3))
    else if 1 <= d <= 3 && i + d < |s| && s[i + d] == '.' then
      GroupsEnd(s, i + d + 1, n - 1)
    else
      None
  }

  /** The part of a line that a search matched: `line[start..end]`. */
  datatype Span = Span(start: nat, end: nat)

  /** `re.search` from position `i`: try each start in turn. */
  function FindFrom(s: string, i: nat): (r: Option<Span>)
    requires i <= |s|
    ensures r.Some? ==> i <= r.value.start < r.value.end <= |s|
    decreases |s| - i
  {
    match GroupsEnd(s, i, 3)
    case Some(e) => Some(Span(i, e))
    case None => if i == |s| then None else FindFrom(s, i + 1)
  }

  /** `IP_REGEX.search(line)`, as the span of the match. */
  function FindAddress(line: string): Option<Span> {
    FindFrom(line, 0)
  }

  /** `IP_REGEX.search(line).group(0)`, or `None` when the search fails. */
  function SearchAddress(line: string): Option<Address> {
    match FindAddress(line)
    case Some(m) => Some(line[m.start..m.end])
    case None => None
  }

  // ---------------------------------------------------------------------------
  // The greedy matcher agrees with the pattern

  /** `DigitRun` measures a run of digits. */
  lemma {:induction false} DigitRunDigits(s: string, i: nat)
    requires i <= |s|
    ensures Digits(s, i, i + DigitRun(s, i))
    decreases |s| - i
  {
    if i < |s| && IsDigit(s[i]) {
      DigitRunDigits(s, i + 1);
    }
  }

  /** A digit run `s[i..j]` ended by a non-digit (or the end of the line) is
      exactly what `DigitRun` measures. */
  lemma {:induction false} DigitRunExact(s: string, i: nat, j: nat)
    requires Digits(s, i, j) && (j == |s| || !IsDigit(s[j]))
    ensures DigitRun(s, i) == j - i
    decreases j - i
  {
    if i < j {
      DigitRunExact(s, i + 1, j);
    }
  }

  /** `DigitRun` covers every run of digits that starts at `i`. */
  lemma {:induction false} DigitRunCovers(s: string, i: nat, j: nat)
    requires Digits(s, i, j)
    ensures DigitRun(s, i) >= j - i
    decreases j - i
  {
    if i < j {
      DigitRunCovers(s, i + 1, j);
    }
  }

  /** A group `s[i..k]` closed by a dot: the matcher moves past the dot. */
  lemma GroupsEndStep(s: string, i: nat, k: nat, n: nat)
    requires i < k <= i + 3 && k < |s| && n >= 1
    requires Digits(s, i, k) && s[k] == '.'
    ensures GroupsEnd(s, i, n) == GroupsEnd(s, k + 1, n - 1)
  {
    DigitRunExact(s, i, k);
  }

  /** The last group: a run of digits `s[i..f]`, of which the match takes
      three at most. */
  lemma GroupsEndLast(s: string, i: nat, f: nat)
    requires i < f && Digits(s, i, f) && (f == |s| || !IsDigit(s[f]))
    ensures GroupsEnd(s, i, 0) == Some(if f - i < 3 then f else i + 3)
  {
    DigitRunExact(s, i, f);
  }

  /** What the greedy matcher returns is a match. */
  lemma {:induction false} GroupsEndSound(s: string, i: nat, n: nat, e: nat)
    requires i <= |s| && GroupsEnd(s, i, n) == Some(e)
    ensures DottedAt(s, i, e, n)
    decreases n
  {
    var d := DigitRun(s, i);
    DigitRunDigits(s, i);
    if n > 0 {
      assert 1 <= d <= 3 && i + d < |s| && s[i + d] == '.';
      assert GroupsEnd(s, i + d + 1, n - 1) == Some(e);
      GroupsEndSound(s, i + d + 1, n - 1, e);
      assert GroupDotAt(s, i, i + d, e, n);
    }
  }

  /** Every match starting at `i` ends at or before where the greedy matcher ends. */
  lemma {:induction false} GroupsEndComplete(s: string, i: nat, j: nat, n: nat)
    requires i <= |s| && DottedAt(s, i, j, n)
    ensures GroupsEnd(s, i, n).Some? && j <= GroupsEnd(s, i, n).value
    decreases n
  {
    if n == 0 {
      DigitRunCovers(s, i, j);
    } else {
      var k: nat := if GroupDotAt(s, i, i + 1, j, n) then i + 1
        else if GroupDotAt(s, i, i + 2, j, n) then i + 2 else i + 3;
      assert GroupDotAt(s, i, k, j, n);
      GroupsEndStep(s, i, k, n);
      GroupsEndComplete(s, k + 1, j, n - 1);
    }
  }

  /** A start where the greedy matcher succeeds: its end is the longest match there. */
  lemma LongestAt(s: string, i: nat, e: nat)
    requires i <= |s| && GroupsEnd(s, i, 3) == Some(e)
    ensures MatchAt(s, i, e)
    ensures forall j: nat :: MatchAt(s, i, j) ==> j <= e
  {
    GroupsEndSound(s, i, 3, e);
    forall j: nat | MatchAt(s, i, j) ensures j <= e {
      GroupsEndComplete(s, i, j, 3);
    }
  }

  /** A start where the greedy matcher fails: nothing matches there. */
  lemma NoneAt(s: string, i: nat)
    requires i <= |s| && GroupsEnd(s, i, 3).None?
    ensures forall j: nat :: !MatchAt(s, i, j)
  {
    forall j: nat | MatchAt(s, i, j) ensures false {
      GroupsEndComplete(s, i, j, 3);
    }
  }

  /** A failed search from `i` means no match starts at or after `i`. */
  lemma {:induction false} FindFromNone(s: string, i: nat)
    requires i <= |s| && FindFrom(s, i).None?
    ensures forall p: nat, j: nat :: i <= p ==> !MatchAt(s, p, j)
    decreases |s| - i
  {
    NoneAt(s, i);
    if i < |s| {
      FindFromNone(s, i + 1);
    }
  }

  /** A successful search from `i` finds the leftmost match at or after `i`,
      and the longest one at that start. */
  lemma {:induction false} FindFromSome(s: string, i: nat)
    requires i <= |s| && FindFrom(s, i).Some?
    ensures var m := FindFrom(s, i).value;
      && i <= m.start
      && MatchAt(s, m.start, m.end)
      && (forall j: nat :: MatchAt(s, m.start, j) ==> j <= m.end)
      && (forall p: nat, j: nat :: i <= p < m.start ==> !MatchAt(s, p, j))
    decreases |s| - i
  {
    match GroupsEnd(s, i, 3)
    case Some(e) =>
      assert FindFrom(s, i).value == Span(i, e);
      LongestAt(s, i, e);
    case None =>
      assert i < |s| && FindFrom(s, i) == FindFrom(s, i + 1);
      NoneAt(s, i);
      FindFromSome(s, i + 1);
  }

  /** Python's search semantics: the result is the leftmost match, and at that
      start the longest one (the last group is greedy); no result means no
      substring of the line has the address shape. */
  lemma FindFromLeftmostLongest(s: string, i: nat)
    requires i <= |s|
    ensures FindFrom(s, i).Some? ==>
      var m := FindFrom(s, i).value;
      && i <= m.start
      && MatchAt(s, m.start, m.end)
      && (forall j: nat :: MatchAt(s, m.start, j) ==> j <= m.end)
      && (forall p: nat, j: nat :: i <= p < m.start ==> !MatchAt(s, p, j))
    ensures FindFrom(s, i).None? ==> forall p: nat, j: nat :: i <= p ==> !MatchAt(s, p, j)
  {
    if FindFrom(s, i).Some? {
      FindFromSome(s, i);
    } else {
      FindFromNone(s, i);
    }
  }

  /** A match of the groups inside `s` is also a match inside any slice
      `s[a..b]` that contains it. */
  lemma {:induction false} DottedAtSlice(s: string, a: nat, b: nat, i: nat, j: nat, n: nat)
    requires a <= i <= j <= b <= |s| && DottedAt(s, i, j, n)
    ensures DottedAt(s[a..b], i - a, j - a, n)
    decreases n
  {
    var t := s[a..b];
    if n == 0 {
      assert forall k :: i - a <= k < j - a ==> t[k] == s[k + a];
    } else {
      var k: nat := if GroupDotAt(s, i, i + 1, j, n) then i + 1
        else if GroupDotAt(s, i, i + 2, j, n) then i + 2 else i + 3;
      assert GroupDotAt(s, i, k, j, n);
      DottedAtSlice(s, a, b, k + 1, j, n - 1);
      assert forall q :: i - a <= q < k - a ==> t[q] == s[q + a];
      assert t[k - a] == s[k];
      assert GroupDotAt(t, i - a, k - a, j - a, n);
    }
  }

  /** A matched part of a line, taken on its own, is address-shaped. */
  lemma AddressOfMatch(s: string, p: nat, q: nat)
    requires MatchAt(s, p, q)
    ensures IsAddress(s[p..q])
  {
    DottedAtSlice(s, p, q, p, q, 3);
  }

  /** `SearchAddress` returns exactly the leftmost-longest match of the line,
      and fails exactly when the line holds no address-shaped substring. */
  lemma SearchAddressIsLeftmostLongest(line: string)
    ensures SearchAddress(line).None? <==> forall p: nat, j: nat :: !MatchAt(line, p, j)
    ensures SearchAddress(line).Some? ==>
      exists p: nat, q: nat :: && MatchAt(line, p, q)
                     && SearchAddress(line).value == line[p..q]
                     && (forall j: nat :: MatchAt(line, p, j) ==> j <= q)
                     && (forall p': nat, j: nat :: p' < p ==> !MatchAt(line, p', j))
  {
    FindFromLeftmostLongest(line, 0);
  }

  // ---------------------------------------------------------------------------
  // parse_peers_from_lines

  /** The addresses one line contributes: its match, if it has one. */
  function LinePeers(line: string): seq<Address> {
    match SearchAddress(line)
    case Some(a) => [a]
    case None => []
  }

  /** The list `parse_peers_from_lines` returns, built one line at a time. */
  function ParsePeers(lines: seq<string>): seq<Address> {
    if lines == [] then []
    else ParsePeers(lines[..|lines| - 1]) + LinePeers(lines[|lines| - 1])
  }

  /** `parse_peers_from_lines`: scan the lines in order and keep the match of
      each line that has one. */
  method ParsePeersFromLines(lines: seq<string>) returns (foundIps: seq<Address>)
    ensures foundIps == ParsePeers(lines)
  {
    foundIps := [];
    var i := 0;
    while i < |lines|
      invariant 0 <= i <= |lines|
      invariant foundIps == ParsePeers(lines[..i])
    {
      var line := lines[i];
      var found := SearchAddress(line);
      if found.Some? {
        foundIps := foundIps + [found.value];
      }
      assert lines[..i + 1][..i] == lines[..i];
      i := i + 1;
    }
    assert lines[..i] == lines;
  }

  /** Parsing two blocks of lines gives the two results one after the other:
      the result is in line order and each line is handled on its own. */
  lemma {:induction false} ParsePeersAppend(a: seq<string>, b: seq<string>)
    ensures ParsePeers(a + b) == ParsePeers(a) + ParsePeers(b)
    decreases |b|
  {
    if b == [] {
      assert a + b == a;
    } else {
      var b' := b[..|b| - 1];
      assert (a + b)[..|a + b| - 1] == a + b';
      ParsePeersAppend(a, b');
    }
  }

  /** One address per line that has a match, none for a line without one. */
  lemma ParsePeersOneLine(line: string)
    ensures ParsePeers([line]) == (if SearchAddress(line).Some? then [SearchAddress(line).value] else [])
    ensures |ParsePeers([line])| == 1 <==> exists p: nat, j: nat :: MatchAt(line, p, j)
  {
    assert [line][..0] == [];
    SearchAddressIsLeftmostLongest(line);
  }

  /** Lines without an address are skipped, so there are never more results
      than lines, every result is address-shaped, and no lines give no result. */
  lemma {:induction false} ParsePeersBounds(lines: seq<string>)
    ensures |ParsePeers(lines)| <= |lines|
    ensures forall k :: 0 <= k < |ParsePeers(lines)| ==> IsAddress(ParsePeers(lines)[k])
    ensures lines == [] ==> ParsePeers(lines) == []
  {
    if lines != [] {
      var init, last := lines[..|lines| - 1], lines[|lines| - 1];
      ParsePeersBounds(init);
      LinePeersAddress(last);
      var r, a, b := ParsePeers(lines), ParsePeers(init), LinePeers(last);
      assert r == a + b;
      forall k | 0 <= k < |r| ensures IsAddress(r[k]) {
        if k < |a| {
          assert r[k] == a[k];
        } else {
          assert r[k] == b[k - |a|];
        }
      }
    }
  }

  /** A line contributes at most one result, and that result is address-shaped. */
  lemma LinePeersAddress(line: string)
    ensures |LinePeers(line)| <= 1
    ensures forall k :: 0 <= k < |LinePeers(line)| ==> IsAddress(LinePeers(line)[k])
  {
    if SearchAddress(line).Some? {
      FindFromLeftmostLongest(line, 0);
      var m := FindAddress(line).value;
      AddressOfMatch(line, m.start, m.end);
      assert LinePeers(line)[0] == line[m.start..m.end];
    }
  }

  // ---------------------------------------------------------------------------
  // Worked examples: the greedy last group, the leftmost start, unchecked
  // octet values, and the listing in the doc comment of parse_peers_from_lines

  /** The last two groups: `s[c + 1..d]`, a dot at `d`, and a run of digits
      up to `f`. */
  lemma GroupsEndLastTwo(s: string, c: nat, d: nat, f: nat)
    requires c + 1 < d <= c + 4 && d + 1 < f <= |s|
    requires Digits(s, c + 1, d) && s[d] == '.'
    requires Digits(s, d + 1, f) && (f == |s| || !IsDigit(s[f]))
    ensures GroupsEnd(s, c + 1, 1) == Some(if f - d - 1 < 3 then f else d + 4)
  {
    GroupsEndLast(s, d + 1, f);
    GroupsEndStep(s, c + 1, d, 1);
  }

  /** Four digit groups starting at `a`, with dots at `b`, `c` and `d` and a
      last run of digits up to `f`: the match ends three digits past the
      last dot at most. */
  lemma GroupsEndQuad(s: string, a: nat, b: nat, c: nat, d: nat, f: nat)
    requires a < b <= a + 3 && b + 1 < c <= b + 4 && c + 1 < d <= c + 4 && d + 1 < f <= |s|
    requires Digits(s, a, b) && s[b] == '.'
    requires Digits(s, b + 1, c) && s[c] == '.'
    requires Digits(s, c + 1, d) && s[d] == '.'
    requires Digits(s, d + 1, f) && (f == |s| || !IsDigit(s[f]))
    ensures GroupsEnd(s, a, 3) == Some(if f - d - 1 < 3 then f else d + 4)
  {
    GroupsEndLastTwo(s, c, d, f);
    GroupsEndStep(s, b + 1, c, 2);
    GroupsEndStep(s, a, b, 3);
  }

  lemma GreedyLastGroupShape(s: string)
    requires s == "1.2.3.4567"
    ensures Digits(s, 0, 1) && s[1] == '.' && Digits(s, 2, 3) && s[3] == '.'
    ensures Digits(s, 4, 5) && s[5] == '.' && Digits(s, 6, 10) && |s| == 10
    ensures s[..9] == "1.2.3.456"
  {
  }

  /** Greedy last group: "1.2.3.4567" yields "1.2.3.456". */
  lemma GreedyLastGroupExample(s: string)
    requires s == "1.2.3.4567"
    ensures SearchAddress(s) == Some("1.2.3.456")
  {
    GreedyLastGroupShape(s);
    GroupsEndQuad(s, 0, 1, 3, 5, 10);
    MatchAtLineStart(s, 9);
  }

  lemma LeftmostStartShape(s: string)
    requires s == "1234.5.6.7"
    ensures Digits(s, 0, 4) && s[4] == '.' && Digits(s, 5, 6) && s[6] == '.'
    ensures Digits(s, 7, 8) && s[8] == '.' && Digits(s, 9, 10) && |s| == 10
    ensures s[1..10] == "234.5.6.7"
  {
  }

  /** Too many leading digits: in "1234.5.6.7" the match starts at index 1. */
  lemma LeftmostStartExample(s: string)
    requires s == "1234.5.6.7"
    ensures SearchAddress(s) == Some("234.5.6.7")
  {
    LeftmostStartShape(s);
    DigitRunExact(s, 0, 4);
    assert GroupsEnd(s, 0, 3) == None;
    GroupsEndQuad(s, 1, 4, 6, 8, 10);
    assert FindFrom(s, 1) == Some(Span(1, 10));
  }

  /** Octet values are not range-checked: "999.1.1.1" is accepted. */
  lemma OctetRangeNotCheckedExample(t: string)
    requires t == "999.1.1.1"
    ensures IsAddress(t)
  {
    assert Digits(t, 0, 3) && t[3] == '.' && Digits(t, 4, 5) && t[5] == '.';
    assert Digits(t, 6, 7) && t[7] == '.' && Digits(t, 8, 9) && |t| == 9;
    GroupsEndQuad(t, 0, 3, 5, 7, 9);
    GroupsEndSound(t, 0, 3, 9);
  }

  /** Every match begins with a digit. */
  lemma FirstCharIsDigit(s: string, p: nat, j: nat)
    requires MatchAt(s, p, j)
    ensures IsDigit(s[p])
  {
    assert GroupDotAt(s, p, p + 1, j, 3) || GroupDotAt(s, p, p + 2, j, 3) || GroupDotAt(s, p, p + 3, j, 3);
  }

  /** A line without digits (such as the header line of the peer listing)
      contributes nothing. */
  lemma NoDigitNoAddress(line: string)
    requires forall k :: 0 <= k < |line| ==> !IsDigit(line[k])
    ensures SearchAddress(line) == None
  {
    forall p: nat, j: nat | MatchAt(line, p, j) ensures false {
      FirstCharIsDigit(line, p, j);
    }
    SearchAddressIsLeftmostLongest(line);
  }

  /** A match at the very start of a line is the one the search returns. */
  lemma MatchAtLineStart(line: string, e: nat)
    requires GroupsEnd(line, 0, 3) == Some(e)
    ensures SearchAddress(line) == Some(line[..e])
  {
  }

  lemma PeerLineShape(peer: string)
    requires peer == "203.0.113.125    60% ..."
    ensures Digits(peer, 0, 3) && peer[3] == '.' && Digits(peer, 4, 5) && peer[5] == '.'
    ensures Digits(peer, 6, 9) && peer[9] == '.' && Digits(peer, 10, 13) && !IsDigit(peer[13])
    ensures peer[..13] == "203.0.113.125"
  {
  }

  /** The peer line of that listing yields its address. */
  lemma DocCommentPeerLine(peer: string)
    requires peer == "203.0.113.125    60% ..."
    ensures SearchAddress(peer) == Some("203.0.113.125")
  {
    PeerLineShape(peer);
    GroupsEndQuad(peer, 0, 3, 5, 9, 13);
    MatchAtLineStart(peer, 13);
  }

  /** The listing shown in the documentation of `parse_peers_from_lines`: the
      header yields nothing and the peer line yields its address. */
  lemma DocCommentExample(header: string, peer: string)
    requires header == "IP               Done ..."
    requires peer == "203.0.113.125    60% ..."
    ensures ParsePeers([header, peer]) == ["203.0.113.125"]
  {
    NoDigitNoAddress(header);
    DocCommentPeerLine(peer);
    assert [header][..0] == [];
    assert ParsePeers([header]) == [];
    assert LinePeers(peer) == ["203.0.113.125"];
    assert [header, peer][..1] == [header];
  }
}
