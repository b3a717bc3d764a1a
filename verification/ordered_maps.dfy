/**
 A JavaScript `Map` as a sequence of (key, value) entries in insertion order.
 `Set` on a key that is already present replaces its value but keeps its
 position; a new key goes last. Iterating `entries()`/`values()` follows that
 order.
 */
module OrderedMaps {
  import opened Basics
  import opened Seqs

  function Keys<K, V>(m: seq<(K, V)>): seq<K>
  {
    seq(|m|, i requires 0 <= i < |m| => m[i].0)
  }

  function Values<K, V>(m: seq<(K, V)>): seq<V>
  {
    seq(|m|, i requires 0 <= i < |m| => m[i].1)
  }

  /** `map.get(k)`: the value stored under `k`, if any. */
  function Get<K(==), V>(m: seq<(K, V)>, k: K): (r: Option<V>)
    ensures r.Some? <==> k in Keys(m)
    ensures r.Some? ==> exists i :: 0 <= i < |m| && m[i] == (k, r.value)
  {
    if k in Keys(m) then
      var i := FirstIndex(Keys(m), k);
      assert m[i] == (k, m[i].1);
      Some(m[i].1)
    else None
  }

  /** `map.set(k, v)`. */
  function Set<K(==,!new), V>(m: seq<(K, V)>, k: K, v: V): (r: seq<(K, V)>)
    ensures Keys(r) == Add(Keys(m), k)
    ensures NoDuplicates(Keys(m)) ==>
              forall i :: 0 <= i < |r| ==> r[i].1 == (if r[i].0 == k then v else m[i].1)
  {
    if k in Keys(m) then
      var i := FirstIndex(Keys(m), k);
      var r := m[i := (k, v)];
      assert Keys(r) == Keys(m);
      assert forall j :: 0 <= j < |m| ==> Keys(m)[j] == m[j].0;
      r
    else
      var r := m + [(k, v)];
      assert Keys(r) == Keys(m) + [k];
      assert forall j :: 0 <= j < |m| ==> Keys(m)[j] == m[j].0;
      r
  }

  /** `map.set(k, v)` for every entry of `entries`, left to right. */
  function SetAll<K(==,!new), V>(m: seq<(K, V)>, entries: seq<(K, V)>): seq<(K, V)>
    decreases |entries|
  {
    if |entries| == 0 then m
    else SetAll(Set(m, entries[0].0, entries[0].1), entries[1..])
  }

  /** The position of the last entry with key `k`. */
  function LastIndex<K(==), V>(entries: seq<(K, V)>, k: K): (i: nat)
    requires k in Keys(entries)
    ensures i < |entries| && entries[i].0 == k
    ensures forall j :: i < j < |entries| ==> entries[j].0 != k
  {
    var n := |entries|;
    if entries[n - 1].0 == k then n - 1
    else
      assert Keys(entries) == Keys(entries[..n - 1]) + [entries[n - 1].0];
      LastIndex(entries[..n - 1], k)
  }

  /**
   The map that setting `entries` into an empty map produces, stated without
   replaying the sets: each key once, in first-seen order, holding the value
   of its last entry.
   */
  function Summary<K(==,!new), V>(entries: seq<(K, V)>): seq<(K, V)>
  {
    var ks := Dedup(Keys(entries));
    seq(|ks|, i requires 0 <= i < |ks| => (ks[i], entries[LastIndex(entries, ks[i])].1))
  }

  lemma {:induction false} SetAllSnoc<K(!new), V>(m: seq<(K, V)>, entries: seq<(K, V)>, e: (K, V))
    ensures SetAll(m, entries + [e]) == Set(SetAll(m, entries), e.0, e.1)
    decreases |entries|
  {
    if |entries| == 0 {
      assert entries + [e] == [e];
      assert [e][1..] == [];
    } else {
      assert (entries + [e])[0] == entries[0];
      assert (entries + [e])[1..] == entries[1..] + [e];
      SetAllSnoc(Set(m, entries[0].0, entries[0].1), entries[1..], e);
    }
  }

  lemma {:induction false} SetAllAppend<K(!new), V>(m: seq<(K, V)>, a: seq<(K, V)>, b: seq<(K, V)>)
    ensures SetAll(m, a + b) == SetAll(SetAll(m, a), b)
    decreases |a|
  {
    if |a| == 0 {
      assert a + b == b;
    } else {
      assert (a + b)[0] == a[0];
      assert (a + b)[1..] == a[1..] + b;
      SetAllAppend(Set(m, a[0].0, a[0].1), a[1..], b);
    }
  }

  /** A key other than the last entry's keeps its last position when an entry is appended. */
  lemma LastIndexSnocOther<K(!new), V>(entries: seq<(K, V)>, e: (K, V), k: K)
    requires k in Keys(entries) && k != e.0
    ensures k in Keys(entries + [e])
    ensures LastIndex(entries + [e], k) == LastIndex(entries, k)
  {
    var p := entries + [e];
    assert Keys(p) == Keys(entries) + [e.0];
    var i := LastIndex(entries, k);
    assert p[i] == entries[i];
    forall j | i < j < |p| ensures p[j].0 != k {
      if j < |entries| {
        assert p[j] == entries[j];
      }
    }
  }

  /** The keys of a summary are the distinct keys of its entries, in first-seen order. */
  lemma SummaryKeys<K(!new), V>(entries: seq<(K, V)>)
    ensures Keys(Summary(entries)) == Dedup(Keys(entries))
  {
  }

  /** Appending an entry adds its key to the summary's keys as one `Set` does. */
  lemma SummarySnocKeys<K(!new), V>(entries: seq<(K, V)>, e: (K, V))
    ensures Keys(Summary(entries + [e])) == Keys(Set(Summary(entries), e.0, e.1))
  {
    var p := entries + [e];
    assert Keys(p) == Keys(entries) + [e.0];
    calc {
      Keys(Summary(p));
      { SummaryKeys(p); }
      Dedup(Keys(entries) + [e.0]);
      { AddAllSnoc([], Keys(entries), e.0); }
      Add(Dedup(Keys(entries)), e.0);
      { SummaryKeys(entries); }
      Add(Keys(Summary(entries)), e.0);
      Keys(Set(Summary(entries), e.0, e.1));
    }
  }

  /** One position of a summary: a distinct key and the value of its last entry. */
  lemma SummaryAt<K(!new), V>(entries: seq<(K, V)>, i: nat)
    requires i < |Dedup(Keys(entries))|
    ensures |Summary(entries)| == |Dedup(Keys(entries))|
    ensures Summary(entries)[i] ==
              (Dedup(Keys(entries))[i], entries[LastIndex(entries, Dedup(Keys(entries))[i])].1)
  {
  }

  /** The appended entry's key holds the appended value in the summary. */
  lemma SummarySnocAtNewKey<K(!new), V>(entries: seq<(K, V)>, e: (K, V), i: nat)
    requires i < |Dedup(Keys(entries + [e]))| && Dedup(Keys(entries + [e]))[i] == e.0
    ensures Summary(entries + [e])[i] == (e.0, e.1)
  {
    var p := entries + [e];
    SummaryAt(p, i);
    assert Keys(p) == Keys(entries) + [e.0];
    assert LastIndex(p, e.0) == |entries|;
  }

  /** Any other key keeps the value it had in the summary before. */
  lemma SummarySnocAtOldKey<K(!new), V>(entries: seq<(K, V)>, e: (K, V), i: nat)
    requires i < |Dedup(Keys(entries + [e]))| && i < |Dedup(Keys(entries))|
    requires Dedup(Keys(entries + [e]))[i] == Dedup(Keys(entries))[i] != e.0
    ensures Summary(entries + [e])[i] == Summary(entries)[i]
  {
    var key := Dedup(Keys(entries))[i];
    SummaryAt(entries + [e], i);
    SummaryAt(entries, i);
    LastIndexSnocOther(entries, e, key);
  }

  /** Position by position, the summary after an appended entry holds what one `Set` stores. */
  lemma SummarySnocAt<K(!new), V>(entries: seq<(K, V)>, e: (K, V), i: nat)
    requires i < |Summary(entries + [e])|
    requires Keys(Summary(entries + [e])) == Keys(Set(Summary(entries), e.0, e.1))
    ensures i < |Set(Summary(entries), e.0, e.1)|
    ensures Summary(entries + [e])[i] == Set(Summary(entries), e.0, e.1)[i]
  {
    var p := entries + [e];
    var s := Summary(entries);
    var r := Set(s, e.0, e.1);
    SummaryKeys(entries);
    SummaryKeys(p);
    assert Keys(r)[i] == Dedup(Keys(p))[i];
    if Dedup(Keys(p))[i] == e.0 {
      SummarySnocAtNewKey(entries, e, i);
    } else {
      assert i < |s| && Keys(s)[i] == Keys(r)[i];
      SummarySnocAtOldKey(entries, e, i);
    }
  }

  /** One more entry changes the summary exactly as one `map.set` does. */
  lemma SummarySnoc<K(!new), V>(entries: seq<(K, V)>, e: (K, V))
    ensures Summary(entries + [e]) == Set(Summary(entries), e.0, e.1)
  {
    SummarySnocKeys(entries, e);
    var s' := Summary(entries + [e]);
    var r := Set(Summary(entries), e.0, e.1);
    assert |s'| == |Keys(s')| == |Keys(r)| == |r|;
    forall i | 0 <= i < |s'| ensures s'[i] == r[i] {
      SummarySnocAt(entries, e, i);
    }
  }

  /** Setting entries into an empty map yields their summary. */
  lemma {:induction false} SetAllIsSummary<K(!new), V>(entries: seq<(K, V)>)
    ensures SetAll([], entries) == Summary(entries)
    decreases |entries|
  {
    var n := |entries|;
    if n == 0 {
      assert Keys(entries) == [];
    } else {
      var p := entries[..n - 1];
      var e := entries[n - 1];
      assert entries == p + [e];
      SetAllSnoc([], p, e);
      SetAllIsSummary(p);
      SummarySnoc(p, e);
    }
  }

  /** Continuing to set entries into a summary is the summary of the longer run. */
  lemma SetAllOnSummary<K(!new), V>(a: seq<(K, V)>, b: seq<(K, V)>)
    ensures SetAll(Summary(a), b) == Summary(a + b)
  {
    SetAllIsSummary(a);
    SetAllAppend([], a, b);
    SetAllIsSummary(a + b);
  }
}
