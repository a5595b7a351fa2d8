/** Small facts about sequences shared by the extractor, the store and the summary. */
module Sequences {

  /** No element occurs twice (the keys of a Python dict, listed in insertion order). */
  ghost predicate NoDuplicates<T>(s: seq<T>) {
    forall i, j :: 0 <= i < j < |s| ==> s[i] != s[j]
  }

  /** The elements of `s` as a set (Python's `set(s)`). */
  function Elems<T>(s: seq<T>): set<T> {
    set x | x in s
  }

  lemma NoDuplicatesAppend<T>(s: seq<T>, x: T)
    requires NoDuplicates(s) && x !in s
    ensures NoDuplicates(s + [x])
  {
  }

  /** The elements of `s` without repeats, each where it first occurs
      (the first sightings of an update that starts from no known addresses). */
  function FirstOccurrences<T(==)>(s: seq<T>): seq<T> {
    if s == [] then []
    else
      var init, last := s[..|s| - 1], s[|s| - 1];
      if last in init then FirstOccurrences(init) else FirstOccurrences(init) + [last]
  }

  lemma {:induction false} FirstOccurrencesFacts<T>(s: seq<T>)
    ensures NoDuplicates(FirstOccurrences(s))
    ensures Elems(FirstOccurrences(s)) == Elems(s)
  {
    if s != [] {
      var init, last := s[..|s| - 1], s[|s| - 1];
      FirstOccurrencesFacts(init);
      assert s == init + [last];
      assert Elems(s) == Elems(init) + {last};
      if last !in init {
        assert last !in Elems(FirstOccurrences(init));
        assert Elems(FirstOccurrences(init) + [last]) == Elems(FirstOccurrences(init)) + {last};
      }
    }
  }
}
