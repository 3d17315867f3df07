/**
 * The OpenTracing text-map view used for header propagation. The text map
 * is the sequence of its (key, value) pairs in enumeration order; looking up
 * a header yields the value of every pair whose key matches the name,
 * ignoring case, in that order and with repeats kept.
 */
module Headers {
  import opened Text

  /** The values of the pairs whose key matches `name`, in enumeration order. */
  function Matching(textMap: seq<(string, string)>, name: string): seq<string>
    decreases |textMap|
  {
    if |textMap| == 0 then []
    else
      var last := textMap[|textMap| - 1];
      Matching(textMap[..|textMap| - 1], name) + (if EqualsIgnoreCase(last.0, name) then [last.1] else [])
  }

  /** `GetValuesIterator`: the values yielded while enumerating the text map. */
  method GetValues(textMap: seq<(string, string)>, name: string) returns (values: seq<string>)
    ensures values == Matching(textMap, name)
    ensures forall v :: v in values <==> exists i :: 0 <= i < |textMap| && textMap[i].1 == v && EqualsIgnoreCase(textMap[i].0, name)
  {
    values := [];
    var i := 0;
    while i < |textMap|
      invariant 0 <= i <= |textMap|
      invariant values == Matching(textMap[..i], name)
    {
      assert textMap[..i + 1][..i] == textMap[..i];
      if EqualsIgnoreCase(textMap[i].0, name) {
        values := values + [textMap[i].1];
      }
      i := i + 1;
    }
    assert textMap[..i] == textMap;
    forall v
      ensures v in values <==> exists i :: 0 <= i < |textMap| && textMap[i].1 == v && EqualsIgnoreCase(textMap[i].0, name)
    {
      MatchingMembers(textMap, name, v);
    }
  }

  /** A value is yielded exactly when some pair with a matching key holds it. */
  lemma {:induction false} MatchingMembers(textMap: seq<(string, string)>, name: string, v: string)
    ensures v in Matching(textMap, name) <==> exists i :: 0 <= i < |textMap| && textMap[i].1 == v && EqualsIgnoreCase(textMap[i].0, name)
    decreases |textMap|
  {
    if |textMap| > 0 {
      var n := |textMap| - 1;
      var init := textMap[..n];
      MatchingMembers(init, name, v);
      if v in Matching(textMap, name) && v !in Matching(init, name) {
        assert textMap[n].1 == v && EqualsIgnoreCase(textMap[n].0, name);
      }
      if v !in Matching(init, name) {
        forall i | 0 <= i < n
          ensures !(textMap[i].1 == v && EqualsIgnoreCase(textMap[i].0, name))
        {
          assert textMap[i] == init[i];
        }
      } else {
        var i :| 0 <= i < |init| && init[i].1 == v && EqualsIgnoreCase(init[i].0, name);
        assert textMap[i] == init[i];
      }
    }
  }

  /** A single pair yields its value exactly when its key matches. */
  lemma MatchingSingle(pair: (string, string), name: string)
    ensures Matching([pair], name) == if EqualsIgnoreCase(pair.0, name) then [pair.1] else []
  {
    assert [pair][..0] == [];
  }

  /**
   * Lookups follow the enumeration: the values of a text map enumerated as
   * `a` then `b` are those of `a` followed by those of `b`. With
   * `MatchingSingle` this pins the order and the repeats down completely.
   */
  lemma {:induction false} MatchingAppend(a: seq<(string, string)>, b: seq<(string, string)>, name: string)
    ensures Matching(a + b, name) == Matching(a, name) + Matching(b, name)
    decreases |b|
  {
    if |b| == 0 {
      assert a + b == a;
    } else {
      var init := b[..|b| - 1];
      MatchingAppend(a, init, name);
      assert (a + b)[..|a + b| - 1] == a + init;
      assert (a + b)[|a + b| - 1] == b[|b| - 1];
    }
  }

  /** Names that differ only in letter case look up the same values. */
  lemma {:induction false} CaseOfNameIrrelevant(textMap: seq<(string, string)>, name1: string, name2: string)
    requires EqualsIgnoreCase(name1, name2)
    ensures Matching(textMap, name1) == Matching(textMap, name2)
    decreases |textMap|
  {
    if |textMap| > 0 {
      CaseOfNameIrrelevant(textMap[..|textMap| - 1], name1, name2);
    }
  }
}
