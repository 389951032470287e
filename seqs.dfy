/**
 * The array operations the client uses on its lists, as functions on
 * sequences: `filter` with an element predicate, `filter` on the position
 * (drop one index), `map` on the position (rewrite one index), and `find`.
 */
module Seqs {
  import opened Wrappers

  /** No element occurs twice. */
  predicate Distinct<T(==)>(s: seq<T>) {
    forall i, j :: 0 <= i < j < |s| ==> s[i] != s[j]
  }

  /** `s.filter(keep)`: the elements `keep` accepts, in their original order. */
  function Filter<T>(s: seq<T>, keep: T -> bool): seq<T>
  {
    if s == [] then [] else (if keep(s[0]) then [s[0]] else []) + Filter(s[1..], keep)
  }

  /** The filtered list holds exactly the accepted elements of the original, and
      is no longer than it. */
  lemma {:induction false} FilterMembers<T>(s: seq<T>, keep: T -> bool)
    ensures |Filter(s, keep)| <= |s|
    ensures forall k :: 0 <= k < |Filter(s, keep)| ==> Filter(s, keep)[k] in s && keep(Filter(s, keep)[k])
    ensures forall k :: 0 <= k < |s| && keep(s[k]) ==> s[k] in Filter(s, keep)
  {
    if s != [] {
      FilterMembers(s[1..], keep);
      var r := Filter(s, keep);
      var head := if keep(s[0]) then [s[0]] else [];
      assert r == head + Filter(s[1..], keep);
      forall k | 0 <= k < |s| && keep(s[k]) ensures s[k] in r {
        if k > 0 { assert s[k] == s[1..][k - 1]; }
      }
    }
  }

  /** Filtering a concatenation filters each part; with `Filter([x])` being `[x]`
      or `[]`, this pins down the order of the result. */
  lemma {:induction false} FilterConcat<T>(a: seq<T>, b: seq<T>, keep: T -> bool)
    ensures Filter(a + b, keep) == Filter(a, keep) + Filter(b, keep)
  {
    if a == [] {
      assert a + b == b;
    } else {
      var head := if keep(a[0]) then [a[0]] else [];
      assert (a + b)[0] == a[0];
      assert (a + b)[1..] == a[1..] + b;
      assert Filter(a + b, keep) == head + Filter(a[1..] + b, keep);
      FilterConcat(a[1..], b, keep);
      assert Filter(a, keep) == head + Filter(a[1..], keep);
    }
  }

  /** Every occurrence of an accepted element is kept, every occurrence of a
      rejected one is dropped. */
  lemma {:induction false} FilterMultiplicity<T>(s: seq<T>, keep: T -> bool, x: T)
    ensures multiset(Filter(s, keep))[x] == if keep(x) then multiset(s)[x] else 0
  {
    if s != [] {
      assert s == [s[0]] + s[1..];
      FilterMultiplicity(s[1..], keep, x);
    }
  }

  /** A filter that accepts every element changes nothing. */
  lemma {:induction false} FilterKeepsAll<T>(s: seq<T>, keep: T -> bool)
    requires forall k :: 0 <= k < |s| ==> keep(s[k])
    ensures Filter(s, keep) == s
  {
    if s != [] {
      FilterKeepsAll(s[1..], keep);
    }
  }

  /** Filtering a list without repetitions yields a list without repetitions. */
  lemma {:induction false} FilterDistinct<T>(s: seq<T>, keep: T -> bool)
    requires Distinct(s)
    ensures Distinct(Filter(s, keep))
  {
    if s != [] {
      FilterDistinct(s[1..], keep);
      FilterMembers(s[1..], keep);
      assert s[0] !in s[1..];
    }
  }

  /** `s.filter((_, i) => i !== index)`: every element whose position differs from `index`. */
  function DropIndex<T>(s: seq<T>, index: int): seq<T>
  {
    if s == [] then [] else DropIndex(s[..|s| - 1], index) + (if |s| - 1 == index then [] else [s[|s| - 1]])
  }

  /** Dropping an index in range removes exactly that element and keeps the others in
      order; an index out of range leaves the list unchanged. */
  lemma {:induction false} DropIndexSpec<T>(s: seq<T>, index: int)
    ensures 0 <= index < |s| ==> DropIndex(s, index) == s[..index] + s[index + 1..]
    ensures !(0 <= index < |s|) ==> DropIndex(s, index) == s
  {
    if s != [] {
      var init := s[..|s| - 1];
      DropIndexSpec(init, index);
      if index == |s| - 1 {
        assert s[index + 1..] == [];
      } else if 0 <= index < |s| - 1 {
        assert init[..index] == s[..index];
        assert init[index + 1..] + [s[|s| - 1]] == s[index + 1..];
      } else {
        assert init + [s[|s| - 1]] == s;
      }
    }
  }

  /** `s.map((x, i) => i === index ? f(x) : x)`: rewrite the element at `index`. */
  function MapAt<T>(s: seq<T>, index: int, f: T -> T): seq<T>
  {
    if s == [] then [] else MapAt(s[..|s| - 1], index, f) + [if |s| - 1 == index then f(s[|s| - 1]) else s[|s| - 1]]
  }

  /** Rewriting an index in range replaces exactly that element by its image;
      an index out of range leaves the list unchanged. */
  lemma MapAtSpec<T>(s: seq<T>, index: int, f: T -> T)
    ensures 0 <= index < |s| ==> MapAt(s, index, f) == s[index := f(s[index])]
    ensures !(0 <= index < |s|) ==> MapAt(s, index, f) == s
  {
    if 0 <= index < |s| {
      MapAtInRange(s, index, f);
    } else {
      MapAtOutOfRange(s, index, f);
    }
  }

  lemma {:induction false} MapAtInRange<T>(s: seq<T>, index: int, f: T -> T)
    requires 0 <= index < |s|
    ensures MapAt(s, index, f) == s[index := f(s[index])]
  {
    var n := |s| - 1;
    var init := s[..n];
    if index == n {
      MapAtOutOfRange(init, index, f);
      assert init + [f(s[n])] == s[index := f(s[index])];
    } else {
      MapAtInRange(init, index, f);
      var lhs := init[index := f(s[index])] + [s[n]];
      assert |lhs| == |s|;
      forall k | 0 <= k < |s| ensures lhs[k] == s[index := f(s[index])][k] {
      }
    }
  }

  lemma {:induction false} MapAtOutOfRange<T>(s: seq<T>, index: int, f: T -> T)
    requires !(0 <= index < |s|)
    ensures MapAt(s, index, f) == s
  {
    if s != [] {
      var n := |s| - 1;
      MapAtOutOfRange(s[..n], index, f);
      assert s[..n] + [s[n]] == s;
    }
  }

  /** `find` (as the position found): the first element that satisfies `p`, or
      nothing when none does. */
  function FindFirst<T>(s: seq<T>, p: T -> bool): (r: Option<nat>)
    ensures r.Some? ==> r.value < |s| && p(s[r.value])
    ensures r.Some? ==> forall k | 0 <= k < r.value :: !p(s[k])
    ensures r.None? <==> forall k | 0 <= k < |s| :: !p(s[k])
  {
    if s == [] then None
    else if p(s[0]) then Some(0)
    else match FindFirst(s[1..], p)
      case None => None
      case Some(k) => Some(k + 1)
  }
}
