/** The permission model: items grouped under labels, and the strings they carry. */
module PermissionTypes {
  import opened Seqs

  /** One checkbox of the matrix; `permission` is the stored, validated identifier. */
  datatype PermissionItem = PermissionItem(action: string, description: string, permission: string)

  /** A labelled bucket of items; the label (`groupLabel`, since `label` is a Dafny keyword) is the merge key. */
  datatype PermissionGroup = PermissionGroup(groupLabel: string, permissions: seq<PermissionItem>)

  /** The permission strings of `items`, in item order. */
  function PermissionStrings(items: seq<PermissionItem>): seq<string>
  {
    seq(|items|, i requires 0 <= i < |items| => items[i].permission)
  }

  /** The labels of `groups`, in group order. */
  function Labels(groups: seq<PermissionGroup>): seq<string>
  {
    seq(|groups|, i requires 0 <= i < |groups| => groups[i].groupLabel)
  }

  /** Every permission string of `groups`, scanning groups in order and items within each group. */
  function AllPermissionStrings(groups: seq<PermissionGroup>): seq<string>
  {
    if |groups| == 0 then []
    else PermissionStrings(groups[0].permissions) + AllPermissionStrings(groups[1..])
  }

  /** Some item of some group carries permission `p`. */
  predicate Grants(groups: seq<PermissionGroup>, p: string)
  {
    exists g, j :: 0 <= g < |groups| && 0 <= j < |groups[g].permissions| && groups[g].permissions[j].permission == p
  }

  /** The scan of all permission strings meets exactly the granted permissions. */
  lemma {:induction false} AllPermissionStringsGrants(groups: seq<PermissionGroup>, p: string)
    ensures p in AllPermissionStrings(groups) <==> Grants(groups, p)
    decreases |groups|
  {
    if |groups| != 0 {
      AllPermissionStringsGrants(groups[1..], p);
      var here := PermissionStrings(groups[0].permissions);
      if p in here {
        var j :| 0 <= j < |here| && here[j] == p;
        assert groups[0].permissions[j].permission == p;
      }
      if Grants(groups[1..], p) {
        var g, j :| 0 <= g < |groups[1..]| && 0 <= j < |groups[1..][g].permissions|
                    && groups[1..][g].permissions[j].permission == p;
        assert groups[g + 1].permissions[j].permission == p;
      }
      if Grants(groups, p) {
        var g, j :| 0 <= g < |groups| && 0 <= j < |groups[g].permissions|
                    && groups[g].permissions[j].permission == p;
        if g == 0 {
          assert here[j] == p;
        } else {
          assert groups[1..][g - 1].permissions[j].permission == p;
        }
      }
    }
  }
}
