/** Sequences read as sets, without repetition. */
module Seqs {
  function ToSet<T>(s: seq<T>): set<T> {
    set x | x in s
  }

  predicate Distinct<T(==)>(s: seq<T>) {
    forall i, j :: 0 <= i < j < |s| ==> s[i] != s[j]
  }

  /** First occurrences, in order: `[...new Set(s)]`, or dict.fromkeys. */
  function Dedupe<T(==)>(s: seq<T>): seq<T> {
    if s == [] then [] else
      var before, last := Dedupe(s[..|s| - 1]), s[|s| - 1];
      if last in before then before else before + [last]
  }

  lemma DistinctLast<T>(s: seq<T>)
    requires Distinct(s) && s != []
    ensures var before, last := s[..|s| - 1], s[|s| - 1];
            Distinct(before) && last !in before && ToSet(s) == ToSet(before) + {last}
  {
    assert s == s[..|s| - 1] + [s[|s| - 1]];
  }

  lemma DistinctPush<T>(s: seq<T>, x: T)
    requires Distinct(s) && x !in ToSet(s)
    ensures Distinct(s + [x]) && ToSet(s + [x]) == ToSet(s) + {x}
  {
  }

  lemma {:induction false} DistinctSize<T>(s: seq<T>)
    requires Distinct(s)
    ensures |ToSet(s)| == |s|
  {
    if s == [] {
    } else {
      DistinctLast(s);
      DistinctSize(s[..|s| - 1]);
    }
  }

  lemma {:induction false} DedupeKeepsMembers<T>(s: seq<T>)
    ensures ToSet(Dedupe(s)) == ToSet(s)
    ensures Distinct(Dedupe(s))
  {
    if s == [] {
    } else {
      var before, last := s[..|s| - 1], s[|s| - 1];
      DedupeKeepsMembers(before);
      assert s == before + [last];
      assert ToSet(s) == ToSet(before) + {last};
      if last in Dedupe(before) {
        assert last in ToSet(Dedupe(before));
      } else {
        assert ToSet(Dedupe(before) + [last]) == ToSet(Dedupe(before)) + {last};
      }
    }
  }

  lemma {:induction false} DedupeKeepsOrder<T>(base: seq<T>, extra: seq<T>)
    ensures Dedupe(base) <= Dedupe(base + extra)
  {
    if extra == [] {
      assert base + extra == base;
    } else {
      DedupeKeepsOrder(base, extra[..|extra| - 1]);
      assert (base + extra)[..|base + extra| - 1] == base + extra[..|extra| - 1];
    }
  }
}
