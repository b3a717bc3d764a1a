/** The allow-list: every permission string of a group list, once each. */
module PermissionSets {
  import opened Seqs
  import opened PermissionTypes

  /**
   The nested loop that adds each item's permission string to one `Set`:
   the same as adding the group list's strings, flattened, one by one.
   */
  function AddGroups(acc: seq<string>, groups: seq<PermissionGroup>): (r: seq<string>)
    ensures r == AddAll(acc, AllPermissionStrings(groups))
    decreases |groups|
  {
    if |groups| == 0 then acc
    else
      var here := PermissionStrings(groups[0].permissions);
      AddAllAppend(acc, here, AllPermissionStrings(groups[1..]));
      AddGroups(AddAll(acc, here), groups[1..])
  }

  /**
   `flattenPermissionGroups`: each permission string of `groups` exactly once,
   in the order it is first met scanning groups, then items.
   */
  function FlattenPermissionGroups(groups: seq<PermissionGroup>): (r: seq<string>)
    ensures NoDuplicates(r)
    ensures forall p :: p in r <==> Grants(groups, p)
    ensures r == Dedup(AllPermissionStrings(groups))
  {
    assert AddGroups([], groups) == Dedup(AllPermissionStrings(groups));
    forall p ensures p in Dedup(AllPermissionStrings(groups)) <==> Grants(groups, p) {
      AllPermissionStringsGrants(groups, p);
    }
    AddGroups([], groups)
  }

}
