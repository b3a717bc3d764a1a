/**
 The pure logic of the permissions matrix editor: reading the groups from the
 field's admin object, coercing the stored value, toggling one permission or a
 whole group, and the three-state group checkbox.
 */
module PermissionsMatrix {
  import opened Basics
  import opened Seqs
  import opened JsValues
  import opened Validation
  import opened PermissionTypes
  import opened HostConfig
  import Plugin

  /** The groups the editor renders: `admin.custom.rbac.permissionGroups`, or none. */
  function ReadPermissionGroups(admin: map<string, AdminValue>): (r: seq<PermissionGroup>)
    ensures "custom" !in admin ==> r == []
    ensures "custom" in admin && admin["custom"].RbacCustom? ==> r == admin["custom"].permissionGroups
    ensures "custom" in admin && !admin["custom"].RbacCustom? ==> r == []
  {
    if "custom" in admin && admin["custom"].RbacCustom? then admin["custom"].permissionGroups else []
  }

  /** The selection the editor works on: the string elements of the stored value, in order. */
  function SafeValue(value: JsValue): (r: seq<string>)
    ensures !value.Arr? ==> r == []
    ensures value.Arr? ==> StrArray(r).elements == Filter(IsString, value.elements)
    ensures forall p :: p in r <==> value.Arr? && Str(p) in value.elements
  {
    CoerceStringArray(value)
  }

  /** Whether a permission is selected: membership in the set built from the selection. */
  predicate Selected(safe: seq<string>, permission: string)
  {
    permission in safe
  }

  /** The headline count: the size of the set of selected permissions. */
  function SelectedTotal(safe: seq<string>): (n: nat)
    ensures n <= |safe|
    ensures NoDuplicates(safe) ==> n == |safe|
    ensures n == 0 <==> safe == []
    ensures n == |set p | p in safe|
  {
    DedupCardinality(safe);
    if NoDuplicates(safe) then AddAllOfDistinct(safe); |Dedup(safe)| else |Dedup(safe)|
  }

  /**
   Toggling one permission: a selected permission is removed (every copy of
   it), an unselected one is appended at the end.
   */
  function TogglePermission(safe: seq<string>, permission: string): (r: seq<string>)
    ensures Selected(r, permission) <==> !Selected(safe, permission)
    ensures forall q :: q != permission ==> (Selected(r, q) <==> Selected(safe, q))
    ensures Selected(safe, permission) ==> SubsequenceOf(r, safe)
    ensures !Selected(safe, permission) ==>
              |r| == |safe| + 1 && r[..|safe|] == safe && r[|safe|] == permission
  {
    if permission in safe then
      FilterIsSubsequence((p: string) => p != permission, safe);
      Filter((p: string) => p != permission, safe)
    else safe + [permission]
  }

  /** Toggling keeps the count of every other permission, and removing leaves no copy behind. */
  lemma ToggleCounts(safe: seq<string>, permission: string, q: string)
    ensures q != permission ==> multiset(TogglePermission(safe, permission))[q] == multiset(safe)[q]
    ensures Selected(safe, permission) ==> multiset(TogglePermission(safe, permission))[permission] == 0
  {
    if permission in safe {
      FilterMultiplicity((p: string) => p != permission, safe, q);
      FilterMultiplicity((p: string) => p != permission, safe, permission);
    } else {
      assert multiset(safe + [permission]) == multiset(safe) + multiset{permission};
    }
  }

  /** Selecting an unselected permission and toggling it again gives back the same selection. */
  lemma ToggleTwiceRestores(safe: seq<string>, permission: string)
    requires !Selected(safe, permission)
    ensures TogglePermission(TogglePermission(safe, permission), permission) == safe
  {
    var keep := (p: string) => p != permission;
    var once := TogglePermission(safe, permission);
    assert once == safe + [permission];
    FilterAppend(keep, safe, [permission]);
    FilterKeepsAllIff(keep, safe);
    assert Filter(keep, [permission]) == [];
  }

  /** The permission strings of a group, in item order. */
  function GroupPermissions(group: PermissionGroup): seq<string>
  {
    PermissionStrings(group.permissions)
  }

  /** `every(permission => selected)`, the test the group toggle makes. */
  predicate EverySelected(safe: seq<string>, groupPermissions: seq<string>)
  {
    forall i :: 0 <= i < |groupPermissions| ==> Selected(safe, groupPermissions[i])
  }

  /**
   Toggling a whole group: when every permission of the group is selected they
   are all removed and the rest of the selection is kept in order; otherwise the
   group's permissions are added, the result listing each permission once in
   first-seen order.
   */
  function ToggleGroup(safe: seq<string>, groupPermissions: seq<string>): (r: seq<string>)
    ensures EverySelected(safe, groupPermissions) ==>
              && (forall q :: q in groupPermissions ==> !Selected(r, q))
              && (forall q :: q !in groupPermissions ==> (Selected(r, q) <==> Selected(safe, q)))
              && SubsequenceOf(r, safe)
    ensures !EverySelected(safe, groupPermissions) ==>
              && NoDuplicates(r)
              && (forall q :: Selected(r, q) <==> Selected(safe, q) || q in groupPermissions)
              && (NoDuplicates(safe) ==> |safe| <= |r| && r[..|safe|] == safe)
  {
    if EverySelected(safe, groupPermissions) then
      FilterIsSubsequence((p: string) => p !in groupPermissions, safe);
      Filter((p: string) => p !in groupPermissions, safe)
    else
      AddAllAppend([], safe, groupPermissions);
      if NoDuplicates(safe) then
        AddAllOfDistinct(safe);
        AddAllKeepsPrefix(safe, groupPermissions);
        Dedup(safe + groupPermissions)
      else Dedup(safe + groupPermissions)
  }

  /**
   Adding a group lists the values in the order they are first met in the old
   selection followed by the group.
   */
  lemma ToggleGroupFirstSeenOrder(safe: seq<string>, groupPermissions: seq<string>)
    requires !EverySelected(safe, groupPermissions)
    ensures var r := ToggleGroup(safe, groupPermissions);
            && (forall q :: q in r <==> q in safe + groupPermissions)
            && forall i, j :: 0 <= i < j < |r| ==>
                 FirstIndex(safe + groupPermissions, r[i]) < FirstIndex(safe + groupPermissions, r[j])
  {
    DedupKeepsFirstSeenOrder(safe + groupPermissions);
  }

  /** Removing a fully selected group keeps the count of every permission outside it. */
  lemma ToggleGroupCounts(safe: seq<string>, groupPermissions: seq<string>, q: string)
    requires EverySelected(safe, groupPermissions) && q !in groupPermissions
    ensures multiset(ToggleGroup(safe, groupPermissions))[q] == multiset(safe)[q]
  {
    FilterMultiplicity((p: string) => p !in groupPermissions, safe, q);
  }

  /** How many of the group's permissions are selected (counting a repeated permission each time). */
  function SelectedCount(safe: seq<string>, groupPermissions: seq<string>): (n: nat)
    ensures n <= |groupPermissions|
  {
    |Filter((p: string) => Selected(safe, p), groupPermissions)|
  }

  /** The group checkbox: checked, indeterminate, or clear. */
  datatype CheckboxState = Checked | Indeterminate | Clear

  /** `allSelected` is `count == length`; `someSelected` is `count > 0 && !allSelected`. */
  function GroupState(safe: seq<string>, groupPermissions: seq<string>): (s: CheckboxState)
    ensures s.Checked? <==> EverySelected(safe, groupPermissions)
    ensures s.Clear? <==>
              |groupPermissions| > 0 && forall i :: 0 <= i < |groupPermissions| ==> !Selected(safe, groupPermissions[i])
  {
    var keep := (p: string) => Selected(safe, p);
    FilterKeepsAllIff(keep, groupPermissions);
    var n := SelectedCount(safe, groupPermissions);
    FilterKeepsNoneIff(keep, groupPermissions);
    if n == |groupPermissions| then Checked
    else if n > 0 then Indeterminate
    else Clear
  }

  /** The indeterminate state means some but not all of the group is selected. */
  lemma IndeterminateIffMixed(safe: seq<string>, groupPermissions: seq<string>)
    ensures GroupState(safe, groupPermissions).Indeterminate? <==>
              (exists i :: 0 <= i < |groupPermissions| && Selected(safe, groupPermissions[i]))
              && (exists j :: 0 <= j < |groupPermissions| && !Selected(safe, groupPermissions[j]))
  {
  }

  /** A group toggle always lands on a settled checkbox: checked after adding, clear after removing. */
  lemma ToggleGroupSettles(safe: seq<string>, groupPermissions: seq<string>)
    ensures !EverySelected(safe, groupPermissions) ==>
              GroupState(ToggleGroup(safe, groupPermissions), groupPermissions) == Checked
    ensures EverySelected(safe, groupPermissions) && |groupPermissions| > 0 ==>
              GroupState(ToggleGroup(safe, groupPermissions), groupPermissions) == Clear
  {
    var r := ToggleGroup(safe, groupPermissions);
    if EverySelected(safe, groupPermissions) {
      assert forall i :: 0 <= i < |groupPermissions| ==> !Selected(r, groupPermissions[i]) by {
        forall i | 0 <= i < |groupPermissions| ensures !Selected(r, groupPermissions[i]) {
          assert groupPermissions[i] in groupPermissions;
        }
      }
    } else {
      assert EverySelected(r, groupPermissions) by {
        forall i | 0 <= i < |groupPermissions| ensures Selected(r, groupPermissions[i]) {
          assert groupPermissions[i] in groupPermissions;
        }
      }
    }
  }

  /**
   Adding a group to a selection without duplicates appends only group
   permissions after the old selection.
   */
  lemma ToggleGroupAppendsGroupOnly(safe: seq<string>, groupPermissions: seq<string>)
    requires NoDuplicates(safe) && !EverySelected(safe, groupPermissions)
    ensures var once := ToggleGroup(safe, groupPermissions);
            |safe| <= |once| && once == safe + once[|safe|..]
            && forall x :: x in once[|safe|..] ==> x in groupPermissions
  {
    var once := ToggleGroup(safe, groupPermissions);
    DistinctExtension(once, safe, groupPermissions);
  }

  /** Toggling a group twice from a state where none of it is selected restores the selection. */
  lemma ToggleGroupTwiceFromClear(safe: seq<string>, groupPermissions: seq<string>)
    requires NoDuplicates(safe) && |groupPermissions| > 0
    requires forall q :: q in groupPermissions ==> !Selected(safe, q)
    ensures ToggleGroup(ToggleGroup(safe, groupPermissions), groupPermissions) == safe
  {
    var keep := (p: string) => p !in groupPermissions;
    assert !EverySelected(safe, groupPermissions) by {
      assert groupPermissions[0] in groupPermissions;
    }
    var once := ToggleGroup(safe, groupPermissions);
    ToggleGroupSettles(safe, groupPermissions);
    ToggleGroupAppendsGroupOnly(safe, groupPermissions);
    var rest := once[|safe|..];
    FilterAppend(keep, safe, rest);
    assert Filter(keep, safe) == safe by {
      assert forall i :: 0 <= i < |safe| ==> keep(safe[i]);
      FilterKeepsAllIff(keep, safe);
    }
    assert Filter(keep, rest) == [] by {
      assert forall i :: 0 <= i < |rest| ==> !keep(rest[i]) by {
        forall i | 0 <= i < |rest| ensures !keep(rest[i]) {
          assert rest[i] in rest;
        }
      }
      FilterKeepsNoneIff(keep, rest);
    }
    assert ToggleGroup(once, groupPermissions) == Filter(keep, safe + rest);
  }

  /**
   The editor sees what the plugin injected: reading the groups from the
   permissions field of a configured roles collection gives the resolved groups.
   */
  lemma EditorReadsInjectedGroups(collection: Collection, options: Plugin.PluginOptions,
                                  allowedPermissions: seq<string>, groups: seq<PermissionGroup>)
    requires options.onConfigureRolesCollection.None? && !Plugin.LeftAlone(collection, options)
    ensures var r := Plugin.ConfigureRolesCollection(collection, options, allowedPermissions, groups);
            var i := Plugin.FindFieldIndex(r.fields, Plugin.FieldName(options));
            0 <= i < |r.fields| && ReadPermissionGroups(r.fields[i].admin) == groups
  {
    Plugin.InjectedField(collection, options, allowedPermissions, groups);
  }
}
