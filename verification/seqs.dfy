/**
 Sequence helpers: an insertion-ordered set (the behaviour of a JavaScript
 `Set` that is filled with `add` and then spread into an array), filtering,
 concatenation and joining.
 */
module Seqs {

  /** No value occurs twice. */
  predicate NoDuplicates<T(==)>(s: seq<T>) {
    forall i, j :: 0 <= i < j < |s| ==> s[i] != s[j]
  }

  /** `s` ends with `suffix` (JavaScript `endsWith`). */
  predicate EndsWith(s: string, suffix: string) {
    |suffix| <= |s| && s[|s| - |suffix|..] == suffix
  }

  /** The position of the first occurrence of `x` in `xs`. */
  function FirstIndex<T(==)>(xs: seq<T>, x: T): (i: nat)
    requires x in xs
    ensures i < |xs| && xs[i] == x
    ensures forall k :: 0 <= k < i ==> xs[k] != x
  {
    if xs[0] == x then 0 else 1 + FirstIndex(xs[1..], x)
  }

  /** One `Set.add`: a value already present keeps its place, a new one goes last. */
  function Add<T(==,!new)>(s: seq<T>, x: T): (r: seq<T>)
    ensures x in r
    ensures forall y :: y in r <==> y in s || y == x
    ensures NoDuplicates(s) ==> NoDuplicates(r)
    ensures |s| <= |r| && r[..|s|] == s
  {
    if x in s then s else s + [x]
  }

  /** `Set.add` for every element of `xs`, left to right. */
  function AddAll<T(==,!new)>(s: seq<T>, xs: seq<T>): seq<T>
    decreases |xs|
  {
    if |xs| == 0 then s else AddAll(Add(s, xs[0]), xs[1..])
  }

  /** `[...new Set(xs)]`: each value once, at the place it was first seen. */
  function Dedup<T(==,!new)>(xs: seq<T>): (r: seq<T>)
    ensures NoDuplicates(r)
    ensures forall x :: x in r <==> x in xs
    ensures |r| <= |xs|
  {
    DedupIsSet(xs);
    AddAll([], xs)
  }

  /** Dedup lists values in the order of their first occurrence. */
  lemma DedupKeepsFirstSeenOrder<T(!new)>(xs: seq<T>)
    ensures forall i, j :: 0 <= i < j < |Dedup(xs)| ==> FirstIndex(xs, Dedup(xs)[i]) < FirstIndex(xs, Dedup(xs)[j])
  {
    DedupIsFirstSeen(xs);
  }

  /** A duplicate-free sequence has as many elements as its set of values. */
  lemma {:induction false} DistinctCardinality<T>(s: seq<T>)
    requires NoDuplicates(s)
    ensures |set x | x in s| == |s|
  {
    if |s| != 0 {
      var t := s[1..];
      assert NoDuplicates(t) by {
        forall i, j | 0 <= i < j < |t| ensures t[i] != t[j] {
          assert t[i] == s[i + 1] && t[j] == s[j + 1];
        }
      }
      DistinctCardinality(t);
      assert s[0] !in t by {
        forall i | 0 <= i < |t| ensures t[i] != s[0] {
          assert t[i] == s[i + 1];
        }
      }
      assert (set x | x in s) == (set x | x in t) + {s[0]} by {
        forall x | x in s && x != s[0] ensures x in t {
          var k :| 0 <= k < |s| && s[k] == x;
          assert t[k - 1] == x;
        }
      }
    }
  }

  /** `new Set(xs).size`: the de-duplicated sequence is as long as the number of distinct values. */
  lemma DedupCardinality<T(!new)>(xs: seq<T>)
    ensures |Dedup(xs)| == |set x | x in xs|
  {
    DistinctCardinality(Dedup(xs));
    assert (set x | x in Dedup(xs)) == (set x | x in xs);
  }

  lemma {:induction false} AddAllSnoc<T(!new)>(s: seq<T>, xs: seq<T>, y: T)
    ensures AddAll(s, xs + [y]) == Add(AddAll(s, xs), y)
    decreases |xs|
  {
    if |xs| == 0 {
      assert xs + [y] == [y];
      assert [y][1..] == [];
    } else {
      assert (xs + [y])[0] == xs[0];
      assert (xs + [y])[1..] == xs[1..] + [y];
      AddAllSnoc(Add(s, xs[0]), xs[1..], y);
    }
  }

  lemma {:induction false} AddAllAppend<T(!new)>(s: seq<T>, xs: seq<T>, ys: seq<T>)
    ensures AddAll(s, xs + ys) == AddAll(AddAll(s, xs), ys)
    decreases |xs|
  {
    if |xs| == 0 {
      assert xs + ys == ys;
    } else {
      assert (xs + ys)[0] == xs[0];
      assert (xs + ys)[1..] == xs[1..] + ys;
      AddAllAppend(Add(s, xs[0]), xs[1..], ys);
    }
  }

  /** Adding to a duplicate-free prefix keeps that prefix and adds exactly the new values. */
  lemma {:induction false} AddAllKeepsPrefix<T(!new)>(s: seq<T>, xs: seq<T>)
    requires NoDuplicates(s)
    ensures NoDuplicates(AddAll(s, xs))
    ensures forall x :: x in AddAll(s, xs) <==> x in s || x in xs
    ensures |s| <= |AddAll(s, xs)| && AddAll(s, xs)[..|s|] == s
    decreases |xs|
  {
    if |xs| != 0 {
      var s' := Add(s, xs[0]);
      AddAllKeepsPrefix(s', xs[1..]);
      var r := AddAll(s', xs[1..]);
      assert r[..|s|] == r[..|s'|][..|s|];
      forall x ensures x in r <==> x in s || x in xs {
        if x in xs[1..] { assert x in xs; }
        if x in xs && x != xs[0] {
          var k :| 0 <= k < |xs| && xs[k] == x;
          assert xs[1..][k - 1] == x;
        }
      }
    }
  }

  /** A duplicate-free sequence is its own de-duplication. */
  lemma {:induction false} AddAllOfDistinct<T(!new)>(xs: seq<T>)
    requires NoDuplicates(xs)
    ensures AddAll([], xs) == xs
    decreases |xs|
  {
    var n := |xs|;
    if n != 0 {
      var p, y := xs[..n - 1], xs[n - 1];
      assert p + [y] == xs;
      AddAllSnoc([], p, y);
      assert NoDuplicates(p) by {
        forall i, j | 0 <= i < j < |p| ensures p[i] != p[j] {
          assert p[i] == xs[i] && p[j] == xs[j];
        }
      }
      AddAllOfDistinct(p);
      assert y !in p by {
        forall i | 0 <= i < |p| ensures p[i] != y {
          assert p[i] == xs[i];
        }
      }
    }
  }

  lemma FirstIndexOfPrefix<T(!new)>(xs: seq<T>, ys: seq<T>, x: T)
    requires x in xs
    ensures FirstIndex(xs + ys, x) == FirstIndex(xs, x)
  {
    if xs[0] != x {
      assert (xs + ys)[1..] == xs[1..] + ys;
    }
  }

  /** `AddAll([], xs)` holds each element of `xs` exactly once and is no longer than `xs`. */
  lemma {:induction false} DedupIsSet<T(!new)>(xs: seq<T>)
    ensures NoDuplicates(AddAll([], xs))
    ensures forall x :: x in AddAll([], xs) <==> x in xs
    ensures |AddAll([], xs)| <= |xs|
    decreases |xs|
  {
    var n := |xs|;
    if n != 0 {
      var p := xs[..n - 1];
      var y := xs[n - 1];
      assert xs == p + [y];
      DedupIsSet(p);
      AddAllSnoc([], p, y);
      var r := AddAll([], xs);
      forall x ensures x in r <==> x in xs {
        if x in xs && x != y {
          var k :| 0 <= k < |xs| && xs[k] == x;
          assert p[k] == x;
        }
      }
    }
  }

  /** The first-seen characterisation of `AddAll([], xs)`, by induction on a growing prefix. */
  lemma {:induction false} DedupIsFirstSeen<T(!new)>(xs: seq<T>)
    ensures NoDuplicates(AddAll([], xs))
    ensures forall x :: x in AddAll([], xs) <==> x in xs
    ensures forall i, j :: 0 <= i < j < |AddAll([], xs)| ==>
              FirstIndex(xs, AddAll([], xs)[i]) < FirstIndex(xs, AddAll([], xs)[j])
    decreases |xs|
  {
    var n := |xs|;
    if n != 0 {
      var p := xs[..n - 1];
      var y := xs[n - 1];
      assert xs == p + [y];
      DedupIsFirstSeen(p);
      AddAllSnoc([], p, y);
      var d := AddAll([], p);
      var r := AddAll([], xs);
      assert r == Add(d, y);
      forall x ensures x in r <==> x in xs {
        if x in xs && x != y {
          var k :| 0 <= k < |xs| && xs[k] == x;
          assert p[k] == x;
        }
      }
      forall i, j | 0 <= i < j < |r|
        ensures FirstIndex(xs, r[i]) < FirstIndex(xs, r[j])
      {
        assert r[i] == d[i];
        FirstIndexOfPrefix(p, [y], d[i]);
        if j < |d| {
          assert r[j] == d[j];
          FirstIndexOfPrefix(p, [y], d[j]);
        } else {
          assert r[j] == y && y !in p;
          assert FirstIndex(xs, y) == n - 1;
        }
      }
    }
  }

  /** The elements of `s` satisfying `keep`, in order (JavaScript `filter`). */
  function Filter<T(!new)>(keep: T -> bool, s: seq<T>): (r: seq<T>)
    ensures |r| <= |s|
    ensures forall x :: x in r <==> x in s && keep(x)
  {
    if |s| == 0 then []
    else if keep(s[0]) then [s[0]] + Filter(keep, s[1..])
    else Filter(keep, s[1..])
  }

  /** All sequences of `ss` one after another. */
  function Concat<T>(ss: seq<seq<T>>): seq<T>
  {
    if |ss| == 0 then [] else ss[0] + Concat(ss[1..])
  }

  lemma {:induction false} ConcatAppend<T(!new)>(ss: seq<seq<T>>, ts: seq<seq<T>>)
    ensures Concat(ss + ts) == Concat(ss) + Concat(ts)
    decreases |ss|
  {
    if |ss| == 0 {
      assert ss + ts == ts;
    } else {
      assert (ss + ts)[1..] == ss[1..] + ts;
      ConcatAppend(ss[1..], ts);
    }
  }

  /** `parts.join(sep)`. */
  function JoinWith(parts: seq<string>, sep: string): string
  {
    if |parts| == 0 then ""
    else if |parts| == 1 then parts[0]
    else parts[0] + sep + JoinWith(parts[1..], sep)
  }

  /** `needle` is found in `hay` starting at position `i`. */
  predicate OccursAt(needle: string, hay: string, i: nat) {
    i + |needle| <= |hay| && hay[i..i + |needle|] == needle
  }

  /** `needle` occurs as a contiguous run inside `hay` (JavaScript `includes` on strings). */
  predicate Occurs(needle: string, hay: string) {
    exists i: nat | i <= |hay| :: OccursAt(needle, hay, i)
  }

  /** Every joined part can be found in the joined text. */
  lemma {:induction false} JoinedPartOccurs(parts: seq<string>, sep: string, k: nat)
    requires k < |parts|
    ensures Occurs(parts[k], JoinWith(parts, sep))
    decreases |parts|
  {
    var j := JoinWith(parts, sep);
    if |parts| == 1 {
      assert OccursAt(parts[0], j, 0);
    } else if k == 0 {
      assert j == parts[0] + (sep + JoinWith(parts[1..], sep));
      assert OccursAt(parts[0], j, 0);
    } else {
      JoinedPartOccurs(parts[1..], sep, k - 1);
      var rest := JoinWith(parts[1..], sep);
      assert parts[1..][k - 1] == parts[k];
      var i: nat :| i <= |rest| && OccursAt(parts[k], rest, i);
      var off := |parts[0]| + |sep|;
      assert j == (parts[0] + sep) + rest;
      assert j[off + i..off + i + |parts[k]|] == rest[i..i + |parts[k]|];
      assert OccursAt(parts[k], j, off + i);
    }
  }

  /** `a` can be obtained from `b` by deleting elements (order kept). */
  predicate SubsequenceOf<T(==)>(a: seq<T>, b: seq<T>)
    decreases |b|
  {
    |a| == 0 || (|b| > 0 && if a[0] == b[0] then SubsequenceOf(a[1..], b[1..]) else SubsequenceOf(a, b[1..]))
  }

  lemma {:induction false} FilterIsSubsequence<T(!new)>(keep: T -> bool, s: seq<T>)
    ensures SubsequenceOf(Filter(keep, s), s)
    decreases |s|
  {
    if |s| != 0 {
      FilterIsSubsequence(keep, s[1..]);
    }
  }

  /** Filtering keeps each value as often as it occurs when it passes, and drops it otherwise. */
  lemma {:induction false} FilterMultiplicity<T(!new)>(keep: T -> bool, s: seq<T>, x: T)
    ensures multiset(Filter(keep, s))[x] == if keep(x) then multiset(s)[x] else 0
    decreases |s|
  {
    if |s| != 0 {
      FilterMultiplicity(keep, s[1..], x);
      assert s == [s[0]] + s[1..];
    }
  }

  lemma {:induction false} FilterAppend<T(!new)>(keep: T -> bool, a: seq<T>, b: seq<T>)
    ensures Filter(keep, a + b) == Filter(keep, a) + Filter(keep, b)
    decreases |a|
  {
    if |a| == 0 {
      assert a + b == b;
    } else {
      assert (a + b)[0] == a[0];
      assert (a + b)[1..] == a[1..] + b;
      FilterAppend(keep, a[1..], b);
    }
  }

  /** Every element of a non-empty sequence passes exactly when its head and every element of its tail do. */
  lemma AllOfCons<T>(keep: T -> bool, s: seq<T>)
    requires |s| > 0
    ensures (forall i :: 0 <= i < |s| ==> keep(s[i]))
            <==> keep(s[0]) && forall i :: 0 <= i < |s[1..]| ==> keep(s[1..][i])
  {
    if keep(s[0]) && forall i :: 0 <= i < |s[1..]| ==> keep(s[1..][i]) {
      forall i | 0 <= i < |s| ensures keep(s[i]) {
        if i > 0 {
          assert s[i] == s[1..][i - 1];
        }
      }
    }
  }

  /** When every element passes, filtering changes nothing. */
  lemma {:induction false} FilterAllPass<T(!new)>(keep: T -> bool, s: seq<T>)
    requires forall i :: 0 <= i < |s| ==> keep(s[i])
    ensures Filter(keep, s) == s
    decreases |s|
  {
    if |s| != 0 {
      AllOfCons(keep, s);
      FilterAllPass(keep, s[1..]);
      assert s == [s[0]] + s[1..];
    }
  }

  /** An element that fails makes the filtered sequence strictly shorter. */
  lemma {:induction false} FilterDropsFailing<T(!new)>(keep: T -> bool, s: seq<T>, i: nat)
    requires i < |s| && !keep(s[i])
    ensures |Filter(keep, s)| < |s|
    decreases i
  {
    if i > 0 {
      assert s[1..][i - 1] == s[i];
      FilterDropsFailing(keep, s[1..], i - 1);
    }
  }

  /** Filtering keeps every element exactly when every element passes. */
  lemma {:induction false} FilterKeepsAllIff<T(!new)>(keep: T -> bool, s: seq<T>)
    ensures |Filter(keep, s)| == |s| <==> forall i :: 0 <= i < |s| ==> keep(s[i])
    ensures (forall i :: 0 <= i < |s| ==> keep(s[i])) ==> Filter(keep, s) == s
  {
    if forall i :: 0 <= i < |s| ==> keep(s[i]) {
      FilterAllPass(keep, s);
    } else {
      var i :| 0 <= i < |s| && !keep(s[i]);
      FilterDropsFailing(keep, s, i);
    }
  }

  /** Filtering keeps nothing exactly when no element passes. */
  lemma {:induction false} FilterKeepsNoneIff<T(!new)>(keep: T -> bool, s: seq<T>)
    ensures Filter(keep, s) == [] <==> forall i :: 0 <= i < |s| ==> !keep(s[i])
  {
    if Filter(keep, s) != [] {
      assert Filter(keep, s)[0] in Filter(keep, s);
    }
    if exists i :: 0 <= i < |s| && keep(s[i]) {
      var i :| 0 <= i < |s| && keep(s[i]);
      assert s[i] in Filter(keep, s);
    }
  }

  /**
   A duplicate-free sequence that starts with `s` and draws its elements from
   `s` and `g` is `s` followed by elements of `g` only.
   */
  lemma DistinctExtension<T(!new)>(r: seq<T>, s: seq<T>, g: seq<T>)
    requires NoDuplicates(r) && |s| <= |r| && r[..|s|] == s
    requires forall x :: x in r ==> x in s || x in g
    ensures r == s + r[|s|..]
    ensures forall x :: x in r[|s|..] ==> x in g
  {
    assert r == r[..|s|] + r[|s|..];
    forall x | x in r[|s|..] ensures x in g {
      var k :| 0 <= k < |r[|s|..]| && r[|s|..][k] == x;
      assert r[|s| + k] == x;
    }
  }
}
