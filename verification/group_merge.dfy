/**
 `mergePermissionGroups`: combines group lists by label. A label keeps the
 position of its first appearance; within a label, items are keyed by their
 permission string, and a later item with the same key replaces the earlier
 one in the earlier one's position (a JavaScript `Map.set` on an existing key).
 */
module GroupMerge {
  import opened Basics
  import opened Seqs
  import opened OrderedMaps
  import opened PermissionTypes

  /** Items keyed by permission string, in insertion order. */
  type ItemMap = seq<(string, PermissionItem)>

  /** Item maps keyed by label, in insertion order. */
  type LabelMap = seq<(string, ItemMap)>

  function Entries(items: seq<PermissionItem>): ItemMap
  {
    seq(|items|, i requires 0 <= i < |items| => (items[i].permission, items[i]))
  }

  /**
   The body of the loop over one group: set each item into the label's map,
   then store it. The group's label joins the labels as `Map.set` adds a key;
   every other label keeps its items.
   */
  function MergeGroup(byLabel: LabelMap, g: PermissionGroup): (r: LabelMap)
    ensures Keys(r) == Add(Keys(byLabel), g.groupLabel)
    ensures NoDuplicates(Keys(byLabel)) ==>
              forall i :: 0 <= i < |byLabel| && byLabel[i].0 != g.groupLabel ==> r[i] == byLabel[i]
    ensures NoDuplicates(Keys(byLabel)) ==>
              Get(r, g.groupLabel) == Some(SetAll(Get(byLabel, g.groupLabel).GetOr([]), Entries(g.permissions)))
  {
    var existing := Get(byLabel, g.groupLabel).GetOr([]);
    var r := Set(byLabel, g.groupLabel, SetAll(existing, Entries(g.permissions)));
    assert forall i :: 0 <= i < |byLabel| ==> Keys(byLabel)[i] == byLabel[i].0 == Keys(r)[i] == r[i].0;
    r
  }

  /** The loop over every group: the labels are the input labels added in order, as a `Set` of them would be. */
  function MergeAll(byLabel: LabelMap, groups: seq<PermissionGroup>): (r: LabelMap)
    ensures Keys(r) == AddAll(Keys(byLabel), Labels(groups))
    decreases |groups|
  {
    if |groups| == 0 then byLabel
    else
      assert Labels(groups)[1..] == Labels(groups[1..]);
      MergeAll(MergeGroup(byLabel, groups[0]), groups[1..])
  }

  /** Every item filed under `label`, across all groups in order. */
  function ItemsWithLabel(groups: seq<PermissionGroup>, name: string): seq<PermissionItem>
  {
    if |groups| == 0 then []
    else (if groups[0].groupLabel == name then groups[0].permissions else [])
         + ItemsWithLabel(groups[1..], name)
  }

  /** `it` occurs in `items`, and no later item has the same permission string. */
  predicate LastOccurrence(items: seq<PermissionItem>, it: PermissionItem)
  {
    exists t :: 0 <= t < |items| && items[t] == it
      && forall u :: t < u < |items| ==> items[u].permission != it.permission
  }

  /**
   The merge of `lists`. Labels are unique and ordered by first appearance;
   under each label the permission strings are unique, ordered by first
   appearance, together exactly the strings filed under that label anywhere,
   and each is carried by the last item filed with it.
   */
  function MergePermissionGroups(lists: seq<seq<PermissionGroup>>): (r: seq<PermissionGroup>)
    ensures Labels(r) == Dedup(Labels(Concat(lists)))
    ensures NoDuplicates(Labels(r))
    ensures forall l :: l in Labels(r) <==> l in Labels(Concat(lists))
    ensures forall i :: 0 <= i < |r| ==>
              PermissionStrings(r[i].permissions)
              == Dedup(PermissionStrings(ItemsWithLabel(Concat(lists), r[i].groupLabel)))
    ensures forall i, j :: 0 <= i < |r| && 0 <= j < |r[i].permissions| ==>
              LastOccurrence(ItemsWithLabel(Concat(lists), r[i].groupLabel), r[i].permissions[j])
  {
    var all := Concat(lists);
    var m := MergeAll([], all);
    MergeAllIsReference(all);
    ReferenceKeys(all);
    var r := GroupsOf(m);
    forall i | 0 <= i < |r|
      ensures PermissionStrings(r[i].permissions)
              == Dedup(PermissionStrings(ItemsWithLabel(all, r[i].groupLabel)))
      ensures forall j :: 0 <= j < |r[i].permissions| ==>
                LastOccurrence(ItemsWithLabel(all, r[i].groupLabel), r[i].permissions[j])
    {
      ReferenceGroupAt(all, i);
    }
    r
  }

  /** `Array.from(byLabel.entries()).map(...)`: one group per label, its items in map order. */
  function GroupsOf(m: LabelMap): (r: seq<PermissionGroup>)
    ensures |r| == |m| && Labels(r) == Keys(m)
    ensures forall i :: 0 <= i < |r| ==> r[i] == PermissionGroup(m[i].0, Values(m[i].1))
  {
    var r := seq(|m|, i requires 0 <= i < |m| => PermissionGroup(m[i].0, Values(m[i].1)));
    assert Labels(r) == Keys(m);
    r
  }

  /** The labels of the reference are the distinct input labels, in first-seen order. */
  lemma ReferenceKeys(groups: seq<PermissionGroup>)
    ensures Keys(Reference(groups)) == Dedup(Labels(groups))
  {
  }

  /** Each label's items in the reference: first-seen strings, carried by their last items. */
  lemma ReferenceGroupAt(groups: seq<PermissionGroup>, i: nat)
    requires i < |Reference(groups)|
    ensures var e := Reference(groups)[i];
            && PermissionStrings(Values(e.1)) == Dedup(PermissionStrings(ItemsWithLabel(groups, e.0)))
            && forall j :: 0 <= j < |Values(e.1)| ==> LastOccurrence(ItemsWithLabel(groups, e.0), Values(e.1)[j])
  {
    SummaryOfItems(ItemsWithLabel(groups, Reference(groups)[i].0));
  }

  /** The item-level reading of a summary: keys in first-seen order, last items as values. */
  lemma SummaryOfItems(items: seq<PermissionItem>)
    ensures PermissionStrings(Values(Summary(Entries(items)))) == Dedup(PermissionStrings(items))
    ensures forall j :: 0 <= j < |Values(Summary(Entries(items)))| ==>
              LastOccurrence(items, Values(Summary(Entries(items)))[j])
  {
    var e := Entries(items);
    assert Keys(e) == PermissionStrings(items);
    var vs := Values(Summary(e));
    forall j | 0 <= j < |vs| ensures LastOccurrence(items, vs[j]) {
      var ks := Dedup(Keys(e));
      var t := LastIndex(e, ks[j]);
      assert vs[j] == items[t];
      assert forall u :: t < u < |items| ==> items[u].permission == e[u].0;
    }
  }

  /** What `MergeAll` builds, stated per label without replaying the loop. */
  function Reference(groups: seq<PermissionGroup>): LabelMap
  {
    var ls := Dedup(Labels(groups));
    seq(|ls|, i requires 0 <= i < |ls| => (ls[i], ItemMapOf(groups, ls[i])))
  }

  lemma {:induction false} MergeAllSnoc(m: LabelMap, groups: seq<PermissionGroup>, g: PermissionGroup)
    ensures MergeAll(m, groups + [g]) == MergeGroup(MergeAll(m, groups), g)
    decreases |groups|
  {
    if |groups| == 0 {
      assert groups + [g] == [g];
      assert [g][1..] == [];
    } else {
      assert (groups + [g])[0] == groups[0];
      assert (groups + [g])[1..] == groups[1..] + [g];
      MergeAllSnoc(MergeGroup(m, groups[0]), groups[1..], g);
    }
  }

  lemma {:induction false} ItemsWithLabelSnoc(groups: seq<PermissionGroup>, g: PermissionGroup, name: string)
    ensures ItemsWithLabel(groups + [g], name)
            == ItemsWithLabel(groups, name) + (if g.groupLabel == name then g.permissions else [])
    decreases |groups|
  {
    if |groups| == 0 {
      assert groups + [g] == [g];
      assert [g][1..] == [];
    } else {
      var head := if groups[0].groupLabel == name then groups[0].permissions else [];
      var tail := if g.groupLabel == name then g.permissions else [];
      assert (groups + [g])[0] == groups[0];
      assert (groups + [g])[1..] == groups[1..] + [g];
      ItemsWithLabelSnoc(groups[1..], g, name);
      assert ItemsWithLabel(groups + [g], name) == head + (ItemsWithLabel(groups[1..], name) + tail);
      assert ItemsWithLabel(groups, name) == head + ItemsWithLabel(groups[1..], name);
    }
  }

  lemma {:induction false} ItemsWithLabelAppend(a: seq<PermissionGroup>, b: seq<PermissionGroup>, name: string)
    ensures ItemsWithLabel(a + b, name) == ItemsWithLabel(a, name) + ItemsWithLabel(b, name)
    decreases |a|
  {
    if |a| == 0 {
      assert a + b == b;
    } else {
      assert (a + b)[1..] == a[1..] + b;
      ItemsWithLabelAppend(a[1..], b, name);
    }
  }

  lemma {:induction false} ItemsWithUnusedLabel(groups: seq<PermissionGroup>, name: string)
    requires name !in Labels(groups)
    ensures ItemsWithLabel(groups, name) == []
    decreases |groups|
  {
    if |groups| != 0 {
      assert groups[0].groupLabel == Labels(groups)[0];
      assert Labels(groups[1..]) == Labels(groups)[1..];
      ItemsWithUnusedLabel(groups[1..], name);
    }
  }

  lemma EntriesAppend(a: seq<PermissionItem>, b: seq<PermissionItem>)
    ensures Entries(a + b) == Entries(a) + Entries(b)
  {
  }

  /** Looking a label up in the reference gives the summary of its items (empty when unused). */
  lemma ReferenceGet(groups: seq<PermissionGroup>, name: string)
    ensures Get(Reference(groups), name).GetOr([]) == ItemMapOf(groups, name)
  {
    var ref := Reference(groups);
    var ls := Dedup(Labels(groups));
    assert Keys(ref) == ls;
    if name in ls {
      var k :| 0 <= k < |ref| && ref[k] == (name, Get(ref, name).value);
      assert ls[k] == name;
    } else {
      ItemsWithUnusedLabel(groups, name);
      assert Keys(Entries([])) == [];
    }
  }

  /** The item map the merge keeps for `name`. */
  function ItemMapOf(groups: seq<PermissionGroup>, name: string): ItemMap
  {
    Summary(Entries(ItemsWithLabel(groups, name)))
  }

  /** A group does not change the item map of any other label. */
  lemma ItemMapOfOtherLabel(groups: seq<PermissionGroup>, g: PermissionGroup, name: string)
    requires name != g.groupLabel
    ensures ItemMapOf(groups + [g], name) == ItemMapOf(groups, name)
  {
    ItemsWithLabelSnoc(groups, g, name);
    assert ItemsWithLabel(groups, name) + [] == ItemsWithLabel(groups, name);
  }

  /** Adding a group adds its label to the reference's labels as one `Set` does. */
  lemma ReferenceSetKeys(groups: seq<PermissionGroup>, g: PermissionGroup, v: ItemMap)
    ensures Keys(Reference(groups + [g])) == Keys(Set(Reference(groups), g.groupLabel, v))
  {
    var l := g.groupLabel;
    assert Labels(groups + [g]) == Labels(groups) + [l];
    calc {
      Keys(Reference(groups + [g]));
      { ReferenceKeys(groups + [g]); }
      Dedup(Labels(groups) + [l]);
      { AddAllSnoc([], Labels(groups), l); }
      Add(Dedup(Labels(groups)), l);
      { ReferenceKeys(groups); }
      Add(Keys(Reference(groups)), l);
      Keys(Set(Reference(groups), l, v));
    }
  }

  /** A label other than the added group's keeps its entry in the reference. */
  lemma ReferenceSetAtOldLabel(groups: seq<PermissionGroup>, g: PermissionGroup, i: nat)
    requires i < |Dedup(Labels(groups + [g]))| && i < |Dedup(Labels(groups))|
    requires Dedup(Labels(groups + [g]))[i] == Dedup(Labels(groups))[i] != g.groupLabel
    ensures i < |Reference(groups + [g])| && i < |Reference(groups)|
    ensures Reference(groups + [g])[i] == Reference(groups)[i]
  {
    var key := Dedup(Labels(groups))[i];
    ItemMapOfOtherLabel(groups, g, key);
  }

  /** Adding a group to the input is one `Set` on the reference, at the group's label. */
  lemma ReferenceSet(groups: seq<PermissionGroup>, g: PermissionGroup)
    ensures Reference(groups + [g])
            == Set(Reference(groups), g.groupLabel, ItemMapOf(groups + [g], g.groupLabel))
  {
    var l := g.groupLabel;
    var ref := Reference(groups);
    var v := ItemMapOf(groups + [g], l);
    var merged := Set(ref, l, v);
    var next := Reference(groups + [g]);
    ReferenceSetKeys(groups, g, v);
    ReferenceKeys(groups);
    ReferenceKeys(groups + [g]);
    assert |next| == |Keys(next)| == |Keys(merged)| == |merged|;
    forall i | 0 <= i < |next| ensures next[i] == merged[i] {
      var key := Keys(next)[i];
      assert merged[i].0 == key;
      if key != l {
        assert Keys(merged) == Add(Keys(ref), l);
        assert i < |ref| && Keys(ref)[i] == key;
        ReferenceSetAtOldLabel(groups, g, i);
      }
    }
  }

  /** Merging one more group changes the reference exactly as the loop body does. */
  lemma ReferenceSnoc(groups: seq<PermissionGroup>, g: PermissionGroup)
    ensures Reference(groups + [g]) == MergeGroup(Reference(groups), g)
  {
    var l := g.groupLabel;
    var items := ItemsWithLabel(groups, l);
    ReferenceGet(groups, l);
    EntriesAppend(items, g.permissions);
    SetAllOnSummary(Entries(items), Entries(g.permissions));
    ItemsWithLabelSnoc(groups, g, l);
    ReferenceSet(groups, g);
  }

  /** The loop's result from an empty map is the reference. */
  lemma {:induction false} MergeAllIsReference(groups: seq<PermissionGroup>)
    ensures MergeAll([], groups) == Reference(groups)
    decreases |groups|
  {
    var n := |groups|;
    if n == 0 {
      assert Labels(groups) == [];
    } else {
      var p := groups[..n - 1];
      assert groups == p + [groups[n - 1]];
      MergeAllSnoc([], p, groups[n - 1]);
      MergeAllIsReference(p);
      ReferenceSnoc(p, groups[n - 1]);
    }
  }

  /** Two groups merged: both inputs, one after the other. */
  lemma ConcatPair(a: seq<PermissionGroup>, b: seq<PermissionGroup>)
    ensures Concat([a, b]) == a + b
  {
    assert [a, b][1..] == [b];
    assert [b][1..] == [];
    assert Concat([b]) == b + Concat([]);
    assert b + [] == b;
  }

  /** Merging two lists yields no group exactly when both lists are empty. */
  lemma MergeEmptyIff(a: seq<PermissionGroup>, b: seq<PermissionGroup>)
    ensures |MergePermissionGroups([a, b])| == 0 <==> |a| == 0 && |b| == 0
  {
    ConcatPair(a, b);
    var r := MergePermissionGroups([a, b]);
    assert |Labels(r)| == |r|;
    if |a + b| != 0 {
      assert Labels(a + b)[0] in Labels(a + b);
    }
  }

  /** Merging two lists keeps exactly the labels of either list. */
  lemma MergePairLabels(a: seq<PermissionGroup>, b: seq<PermissionGroup>)
    ensures forall l :: l in Labels(MergePermissionGroups([a, b])) <==> l in Labels(a) || l in Labels(b)
  {
    ConcatPair(a, b);
    assert Labels(a + b) == Labels(a) + Labels(b);
  }

  /** Of two items that are both last with the same permission string, there is only one. */
  lemma LastOccurrenceUnique(items: seq<PermissionItem>, x: PermissionItem, y: PermissionItem)
    requires LastOccurrence(items, x) && LastOccurrence(items, y)
    requires x.permission == y.permission
    ensures x == y
  {
    var s :| 0 <= s < |items| && items[s] == x
             && forall u :: s < u < |items| ==> items[u].permission != x.permission;
    var t :| 0 <= t < |items| && items[t] == y
             && forall u :: t < u < |items| ==> items[u].permission != y.permission;
  }

  /** A label that files at least one item occurs among the labels. */
  lemma {:induction false} LabelOfFiledItem(groups: seq<PermissionGroup>, name: string)
    requires |ItemsWithLabel(groups, name)| != 0
    ensures name in Labels(groups)
  {
    if name !in Labels(groups) {
      ItemsWithUnusedLabel(groups, name);
    }
  }

  /** An item last with its permission string in `m` stays last after anything is put before `m`. */
  lemma LastOccurrenceAfter(a: seq<PermissionItem>, m: seq<PermissionItem>, it: PermissionItem)
    requires LastOccurrence(m, it)
    ensures LastOccurrence(a + m, it)
  {
    var t :| 0 <= t < |m| && m[t] == it
             && forall u :: t < u < |m| ==> m[u].permission != it.permission;
    var items := a + m;
    assert items[|a| + t] == it;
    forall u | |a| + t < u < |items| ensures items[u].permission != it.permission {
      assert items[u] == m[u - |a|];
    }
  }

  /** The merged group of a label carries every item that is last with its string under that label. */
  lemma MergedCarriesLast(lists: seq<seq<PermissionGroup>>, name: string, it: PermissionItem)
    requires LastOccurrence(ItemsWithLabel(Concat(lists), name), it)
    ensures exists i, j :: 0 <= i < |MergePermissionGroups(lists)|
              && 0 <= j < |MergePermissionGroups(lists)[i].permissions|
              && MergePermissionGroups(lists)[i].groupLabel == name
              && MergePermissionGroups(lists)[i].permissions[j] == it
  {
    var r := MergePermissionGroups(lists);
    var all := Concat(lists);
    var items := ItemsWithLabel(all, name);
    LabelOfFiledItem(all, name);
    assert name in Labels(r);
    var i :| 0 <= i < |Labels(r)| && Labels(r)[i] == name;
    assert r[i].groupLabel == name;
    var keys := PermissionStrings(r[i].permissions);
    assert keys == Dedup(PermissionStrings(items));
    var t :| 0 <= t < |items| && items[t] == it;
    assert PermissionStrings(items)[t] == it.permission;
    assert it.permission in PermissionStrings(items);
    assert it.permission in keys;
    var j :| 0 <= j < |keys| && keys[j] == it.permission;
    assert r[i].permissions[j].permission == it.permission;
    assert LastOccurrence(items, r[i].permissions[j]);
    LastOccurrenceUnique(items, r[i].permissions[j], it);
  }

  /**
   Manual groups win: the last manual item filed under a label with a given
   permission string is the item the merged group carries for that string.
   */
  lemma ManualItemWins(auto: seq<PermissionGroup>, manual: seq<PermissionGroup>, name: string, it: PermissionItem)
    requires LastOccurrence(ItemsWithLabel(manual, name), it)
    ensures exists i, j :: 0 <= i < |MergePermissionGroups([auto, manual])|
              && 0 <= j < |MergePermissionGroups([auto, manual])[i].permissions|
              && MergePermissionGroups([auto, manual])[i].groupLabel == name
              && MergePermissionGroups([auto, manual])[i].permissions[j] == it
  {
    ConcatPair(auto, manual);
    ItemsWithLabelAppend(auto, manual, name);
    LastOccurrenceAfter(ItemsWithLabel(auto, name), ItemsWithLabel(manual, name), it);
    MergedCarriesLast([auto, manual], name, it);
  }

  /** A permission filed under some label is granted by the groups. */
  lemma {:induction false} FiledIsGranted(groups: seq<PermissionGroup>, name: string, p: string)
    requires p in PermissionStrings(ItemsWithLabel(groups, name))
    ensures Grants(groups, p)
    decreases |groups|
  {
    var head: seq<PermissionItem> := if groups[0].groupLabel == name then groups[0].permissions else [];
    var tail := ItemsWithLabel(groups[1..], name);
    var items := head + tail;
    assert ItemsWithLabel(groups, name) == items;
    var k :| 0 <= k < |items| && PermissionStrings(items)[k] == p;
    if k < |head| {
      assert groups[0].permissions[k].permission == p;
    } else {
      assert PermissionStrings(tail)[k - |head|] == p;
      FiledIsGranted(groups[1..], name, p);
      var g, j :| 0 <= g < |groups[1..]| && 0 <= j < |groups[1..][g].permissions|
                  && groups[1..][g].permissions[j].permission == p;
      assert groups[g + 1].permissions[j].permission == p;
    }
  }

  /** A granted permission is filed under the label of the group that grants it. */
  lemma {:induction false} GrantedIsFiled(groups: seq<PermissionGroup>, g: nat, j: nat)
    requires g < |groups| && j < |groups[g].permissions|
    ensures groups[g].permissions[j].permission
            in PermissionStrings(ItemsWithLabel(groups, groups[g].groupLabel))
    decreases g
  {
    var name := groups[g].groupLabel;
    var p := groups[g].permissions[j].permission;
    var head: seq<PermissionItem> := if groups[0].groupLabel == name then groups[0].permissions else [];
    var tail := ItemsWithLabel(groups[1..], name);
    assert ItemsWithLabel(groups, name) == head + tail;
    if g == 0 {
      assert PermissionStrings(head + tail)[j] == p;
    } else {
      assert groups[1..][g - 1] == groups[g];
      GrantedIsFiled(groups[1..], g - 1, j);
      var k :| 0 <= k < |tail| && PermissionStrings(tail)[k] == p;
      assert PermissionStrings(head + tail)[|head| + k] == p;
    }
  }

  /** A permission string of a merged group is filed under that group's label in the input. */
  lemma MergedStringIsFiled(lists: seq<seq<PermissionGroup>>, i: nat, j: nat)
    requires i < |MergePermissionGroups(lists)| && j < |MergePermissionGroups(lists)[i].permissions|
    ensures var g := MergePermissionGroups(lists)[i];
            g.permissions[j].permission in PermissionStrings(ItemsWithLabel(Concat(lists), g.groupLabel))
  {
    var g := MergePermissionGroups(lists)[i];
    assert PermissionStrings(g.permissions)[j] == g.permissions[j].permission;
  }

  /** Every permission the merge grants is granted by its inputs. */
  lemma MergedGrantIsInput(lists: seq<seq<PermissionGroup>>, p: string)
    requires Grants(MergePermissionGroups(lists), p)
    ensures Grants(Concat(lists), p)
  {
    var r := MergePermissionGroups(lists);
    var i, j :| 0 <= i < |r| && 0 <= j < |r[i].permissions| && r[i].permissions[j].permission == p;
    MergedStringIsFiled(lists, i, j);
    FiledIsGranted(Concat(lists), r[i].groupLabel, p);
  }

  /** Every permission the inputs grant is granted by the merge. */
  lemma InputGrantIsMerged(lists: seq<seq<PermissionGroup>>, p: string)
    requires Grants(Concat(lists), p)
    ensures Grants(MergePermissionGroups(lists), p)
  {
    var r := MergePermissionGroups(lists);
    var all := Concat(lists);
    var g, j :| 0 <= g < |all| && 0 <= j < |all[g].permissions| && all[g].permissions[j].permission == p;
    var name := all[g].groupLabel;
    GrantedIsFiled(all, g, j);
    LabelOfFiledItem(all, name);
    assert name in Labels(r);
    var i :| 0 <= i < |Labels(r)| && Labels(r)[i] == name;
    var keys := PermissionStrings(r[i].permissions);
    assert keys == Dedup(PermissionStrings(ItemsWithLabel(all, name)));
    assert p in keys;
    var k :| 0 <= k < |keys| && keys[k] == p;
    assert r[i].permissions[k].permission == p;
  }

  /** Merging neither loses nor invents a permission: the merge grants what its inputs grant. */
  lemma MergeKeepsGrants(lists: seq<seq<PermissionGroup>>, p: string)
    ensures Grants(MergePermissionGroups(lists), p) <==> Grants(Concat(lists), p)
  {
    if Grants(MergePermissionGroups(lists), p) {
      MergedGrantIsInput(lists, p);
    }
    if Grants(Concat(lists), p) {
      InputGrantIsMerged(lists, p);
    }
  }

  /** The items filed under a label that only one group carries are that group's items. */
  lemma {:induction false} ItemsWithSoleLabel(groups: seq<PermissionGroup>, g: nat)
    requires g < |groups|
    requires forall k :: 0 <= k < |groups| && k != g ==> groups[k].groupLabel != groups[g].groupLabel
    ensures ItemsWithLabel(groups, groups[g].groupLabel) == groups[g].permissions
    decreases g
  {
    var name := groups[g].groupLabel;
    if g == 0 {
      assert name !in Labels(groups[1..]);
      ItemsWithUnusedLabel(groups[1..], name);
      assert ItemsWithLabel(groups, name) == groups[0].permissions + [];
    } else {
      assert groups[1..][g - 1] == groups[g];
      ItemsWithSoleLabel(groups[1..], g - 1);
    }
  }

  /**
   A label carried by exactly one group, whose permission strings are
   distinct, is merged into a group with the same strings in the same order.
   */
  lemma SoleGroupKeepsStrings(lists: seq<seq<PermissionGroup>>, g: nat)
    requires g < |Concat(lists)|
    requires forall k :: 0 <= k < |Concat(lists)| && k != g ==>
               Concat(lists)[k].groupLabel != Concat(lists)[g].groupLabel
    requires NoDuplicates(PermissionStrings(Concat(lists)[g].permissions))
    ensures exists i :: 0 <= i < |MergePermissionGroups(lists)|
              && MergePermissionGroups(lists)[i].groupLabel == Concat(lists)[g].groupLabel
              && PermissionStrings(MergePermissionGroups(lists)[i].permissions)
                 == PermissionStrings(Concat(lists)[g].permissions)
  {
    var all := Concat(lists);
    var r := MergePermissionGroups(lists);
    var name := all[g].groupLabel;
    ItemsWithSoleLabel(all, g);
    assert Labels(all)[g] == name;
    assert name in Labels(r);
    var i :| 0 <= i < |Labels(r)| && Labels(r)[i] == name;
    AddAllOfDistinct(PermissionStrings(all[g].permissions));
    assert PermissionStrings(r[i].permissions) == PermissionStrings(all[g].permissions);
  }

  /**
   Every permission filed under a label survives the merge: a merged group
   with that label exists, and it carries the permission string.
   */
  lemma MergedGroupHasFiled(lists: seq<seq<PermissionGroup>>, g: nat, j: nat)
    requires g < |Concat(lists)| && j < |Concat(lists)[g].permissions|
    ensures var r := MergePermissionGroups(lists);
            var name := Concat(lists)[g].groupLabel;
            && (exists i :: 0 <= i < |r| && r[i].groupLabel == name)
            && forall i :: 0 <= i < |r| && r[i].groupLabel == name ==>
                 Concat(lists)[g].permissions[j].permission in PermissionStrings(r[i].permissions)
  {
    var all := Concat(lists);
    var r := MergePermissionGroups(lists);
    var name := all[g].groupLabel;
    GrantedIsFiled(all, g, j);
    assert Labels(all)[g] == name;
    assert name in Labels(r);
    var i :| 0 <= i < |Labels(r)| && Labels(r)[i] == name;
    assert r[i].groupLabel == name;
    var p := all[g].permissions[j].permission;
    var filed := PermissionStrings(ItemsWithLabel(all, name));
    assert p in filed;
    forall k | 0 <= k < |r| && r[k].groupLabel == name ensures p in PermissionStrings(r[k].permissions) {
      assert PermissionStrings(r[k].permissions) == Dedup(filed);
    }
  }
}
