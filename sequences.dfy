/**
 * Sequences used as insertion-ordered sets: the order in which JavaScript's
 * `Map` and `Set` enumerate their keys, and arrays filtered by value.
 */
module Sequences {

  /** No element occurs twice. */
  ghost predicate Distinct<T>(s: seq<T>) {
    forall i, j :: 0 <= i < j < |s| ==> s[i] != s[j]
  }

  /** The elements of `s` as a set. */
  function Elements<T>(s: seq<T>): set<T> {
    set x | x in s
  }

  /**
   * `Set.add` / `Map.set` on the key order: a new element goes to the end,
   * an element already present keeps its place.
   */
  function Insert<T(==,!new)>(s: seq<T>, x: T): (r: seq<T>)
    ensures forall y :: y in r <==> y in s || y == x
    ensures x in s ==> r == s
    ensures x !in s ==> r == s + [x]
  {
    if x in s then s else s + [x]
  }

  lemma InsertDistinct<T(!new)>(s: seq<T>, x: T)
    requires Distinct(s)
    ensures Distinct(Insert(s, x))
  {
    if x !in s {
      var r := s + [x];
      forall i, j | 0 <= i < j < |r| ensures r[i] != r[j] {
        if j == |s| {
          assert r[i] == s[i];
        }
      }
    }
  }

  /** `s.filter(y => y !== x)`: every occurrence of `x` removed, the rest in order. */
  function RemoveAll<T(==,!new)>(s: seq<T>, x: T): (r: seq<T>)
    ensures forall y :: y in r <==> y in s && y != x
    ensures |r| <= |s|
    decreases |s|
  {
    if |s| == 0 then []
    else if s[0] == x then RemoveAll(s[1..], x)
    else [s[0]] + RemoveAll(s[1..], x)
  }

  /**
   * Filtering distributes over concatenation. With `RemoveAllOne` this pins
   * `RemoveAll` down as the filter: the remaining elements keep their order
   * and their multiplicity.
   */
  lemma {:induction false} RemoveAllConcat<T(!new)>(s: seq<T>, t: seq<T>, x: T)
    ensures RemoveAll(s + t, x) == RemoveAll(s, x) + RemoveAll(t, x)
    decreases |s|
  {
    if |s| > 0 {
      assert (s + t)[0] == s[0] && (s + t)[1..] == s[1..] + t;
      RemoveAllConcat(s[1..], t, x);
    } else {
      assert s + t == t;
    }
  }

  /** A single element is dropped exactly when it is the filtered value. */
  lemma RemoveAllOne<T(!new)>(y: T, x: T)
    ensures RemoveAll([y], x) == if y == x then [] else [y]
  {
    assert [y][1..] == [];
  }

  /** In a sequence without duplicates, the `i`-th element occurs neither before nor after position `i`. */
  lemma DistinctAround<T>(s: seq<T>, i: nat)
    requires Distinct(s) && i < |s|
    ensures s[i] !in s[..i] && s[i] !in s[i + 1..]
  {
    var before, after := s[..i], s[i + 1..];
    forall k | 0 <= k < |before| ensures before[k] != s[i] { assert before[k] == s[k]; }
    forall k | 0 <= k < |after| ensures after[k] != s[i] { assert after[k] == s[i + 1 + k]; }
  }

  /** In a sequence without duplicates, filtering out its `i`-th element cuts out exactly that position. */
  lemma RemoveAllAt<T(!new)>(s: seq<T>, i: nat)
    requires Distinct(s) && i < |s|
    ensures RemoveAll(s, s[i]) == s[..i] + s[i + 1..]
  {
    DistinctAround(s, i);
    SplitAround(s, i);
    RemoveAllBetween(s[..i], s[i], s[i + 1..]);
  }

  /** A sequence is what comes before position `i`, the element there, and what comes after. */
  lemma SplitAround<T>(s: seq<T>, i: nat)
    requires i < |s|
    ensures s == (s[..i] + [s[i]]) + s[i + 1..]
  {
    assert s[i..] == [s[i]] + s[i + 1..];
    assert s == s[..i] + s[i..];
  }

  /** Filtering out a value that occurs only between two parts joins the parts. */
  lemma RemoveAllBetween<T(!new)>(before: seq<T>, x: T, after: seq<T>)
    requires x !in before && x !in after
    ensures RemoveAll((before + [x]) + after, x) == before + after
  {
    RemoveAllConcat(before + [x], after, x);
    RemoveAllConcat(before, [x], x);
    RemoveAllOne(x, x);
    RemoveAllAbsent(before, x);
    RemoveAllAbsent(after, x);
    assert RemoveAll(before + [x], x) == before + [];
  }

  /** Filtering out a value that does not occur changes nothing. */
  lemma {:induction false} RemoveAllAbsent<T(!new)>(s: seq<T>, x: T)
    requires x !in s
    ensures RemoveAll(s, x) == s
    decreases |s|
  {
    if |s| > 0 {
      assert s[0] != x;
      assert x !in s[1..];
      RemoveAllAbsent(s[1..], x);
      assert s == [s[0]] + s[1..];
    }
  }

  /** Filtering keeps a sequence free of duplicates. */
  lemma {:induction false} RemoveAllDistinct<T(!new)>(s: seq<T>, x: T)
    requires Distinct(s)
    ensures Distinct(RemoveAll(s, x))
    decreases |s|
  {
    if |s| > 0 {
      var tail := s[1..];
      assert Distinct(tail) by {
        forall i, j | 0 <= i < j < |tail| ensures tail[i] != tail[j] {
          assert tail[i] == s[i + 1] && tail[j] == s[j + 1];
        }
      }
      RemoveAllDistinct(tail, x);
      if s[0] != x {
        var r := [s[0]] + RemoveAll(tail, x);
        assert s[0] !in tail by {
          forall k | 0 <= k < |tail| ensures tail[k] != s[0] {
            assert tail[k] == s[k + 1];
          }
        }
        assert s[0] !in RemoveAll(tail, x);
        forall i, j | 0 <= i < j < |r| ensures r[i] != r[j] {
          if i == 0 {
            assert r[j] in RemoveAll(tail, x);
          } else {
            assert r[i] == RemoveAll(tail, x)[i - 1] && r[j] == RemoveAll(tail, x)[j - 1];
          }
        }
      }
    }
  }

  /** Filtering out a value just appended to a sequence that lacked it gives the sequence back. */
  lemma {:induction false} RemoveAllAppended<T(!new)>(s: seq<T>, x: T)
    requires x !in s
    ensures RemoveAll(s + [x], x) == s
    decreases |s|
  {
    if |s| == 0 {
      assert RemoveAll([x], x) == RemoveAll([], x);
    } else {
      assert (s + [x])[1..] == s[1..] + [x];
      RemoveAllAppended(s[1..], x);
      assert s == [s[0]] + s[1..];
    }
  }
}
