/**
 The repository's test expectations, stated about the model on the same
 concrete inputs.
 */
module Scenarios {
  import opened Basics
  import opened Seqs
  import opened JsValues
  import opened Validation
  import opened PermissionTypes
  import opened PermissionSets
  import opened Naming
  import opened HostConfig
  import opened AutoDiscovery
  import opened GroupMerge
  import opened Plugin
  import PermissionsMatrix

  lemma SingularPosts()
    ensures Singularize("posts") == "post"
  {
  }

  lemma PascalPost()
    ensures PascalChars("post", true) == "Post"
  {
    PlainWordPascal("post", true);
    assert Capitalize("post") == "Post";
  }

  /** `posts` names the entity `Post`. */
  lemma PostsEntity()
    ensures EntityName("posts") == "Post"
  {
    SingularPosts();
    PascalPost();
  }

  lemma PascalSiteSetting()
    ensures PascalChars("site-setting", true) == "SiteSetting"
  {
    assert "site-setting" == "site" + ['-'] + "setting";
    TwoWordPascal("site", '-', "setting");
    assert Capitalize("site") == "Site";
    assert Capitalize("setting") == "Setting";
    assert "Site" + "Setting" == "SiteSetting";
  }

  lemma SingularSiteSettings()
    ensures Singularize("site-settings") == "site-setting"
  {
  }

  /** `site-settings` names the entity `SiteSetting`. */
  lemma SiteSettingsEntity()
    ensures EntityName("site-settings") == "SiteSetting"
  {
    SingularSiteSettings();
    PascalSiteSetting();
  }

  const ReadUser: PermissionItem := PermissionItem("Read", "Read users", "Read:User")
  const CreateUser: PermissionItem := PermissionItem("Create", "Create users", "Create:User")

  /** Flattening lists each permission once, in first-seen order. */
  lemma FlattenDeduplicates()
    ensures FlattenPermissionGroups([PermissionGroup("Users", [ReadUser, CreateUser]),
                                     PermissionGroup("Users duplicate group", [ReadUser])])
            == ["Read:User", "Create:User"]
  {
    var groups := [PermissionGroup("Users", [ReadUser, CreateUser]),
                   PermissionGroup("Users duplicate group", [ReadUser])];
    var all := AllPermissionStrings(groups);
    assert PermissionStrings([ReadUser, CreateUser]) == ["Read:User", "Create:User"];
    assert PermissionStrings([ReadUser]) == ["Read:User"];
    assert AllPermissionStrings(groups[1..]) == ["Read:User"] + AllPermissionStrings(groups[2..]);
    assert all == ["Read:User", "Create:User"] + ["Read:User"];
    AddAllSnoc([], ["Read:User", "Create:User"], "Read:User");
    assert ["Read:User", "Create:User"] + ["Read:User"] == all;
    AddAllOfDistinct(["Read:User", "Create:User"]);
  }

  /** The allow-list of the validator examples. */
  const UserAllowList: seq<string> := ["Read:User", "Create:User"]

  /** An allowed array passes, `null` passes, and a bare string is not an array. */
  lemma ValidateAcceptsAndRejects()
    ensures ValidatePermissionArray(StrArray(["Read:User"]), UserAllowList) == Valid
    ensures ValidatePermissionArray(Null, UserAllowList) == Valid
    ensures ValidatePermissionArray(Str("Read:User"), UserAllowList)
            == Invalid("Permissions must be an array of strings.")
  {
    ValidateStrings(["Read:User"], UserAllowList);
  }

  /** An array holding a permission off the allow-list fails with a message naming it. */
  lemma ValidateNamesUnknownPermission()
    ensures var r := ValidatePermissionArray(StrArray(["Read:User", "Delete:User"]), UserAllowList);
            && r.Invalid?
            && Occurs("Invalid permissions found", r.message)
            && Occurs("Delete:User", r.message)
  {
    var v := StrArray(["Read:User", "Delete:User"]);
    assert v.elements[1] == Str("Delete:User");
    assert "Delete:User" !in UserAllowList;
    MessageNamesOffender(v.elements, UserAllowList, 1);
    var r := ValidatePermissionArray(v, UserAllowList);
    assert r.message[..|InvalidPrefix|] == InvalidPrefix;
    assert r.message[0..25] == "Invalid permissions found";
    assert OccursAt("Invalid permissions found", r.message, 0);
  }

  /** The manual groups of the plugin examples. */
  const UserGroups: seq<PermissionGroup> :=
    [PermissionGroup("Users", [PermissionItem("Create", "Create users", "Create:User"),
                               PermissionItem("Read", "Read users", "Read:User")])]

  /** `rbacUIPlugin({ permissionGroups })`. */
  const ManualOptions: PluginOptions := PluginOptions(None, None, Some(UserGroups), None, None, None, None, Off)

  /** The message for a missing `roles` collection, spelled out. */
  lemma MissingRolesText()
    ensures MissingRolesMessage("roles") == "rbacUIPlugin could not find roles collection: \"roles\""
  {
    assert MissingRolesLead + "roles" + "\""
           == "rbacUIPlugin could not find roles collection: \"roles\"";
  }

  /** A host configuration with only a `users` collection. */
  const UsersOnly: Config := Config([Collection("users", [])], [])

  /** Without a `roles` collection the plugin fails with the message naming the slug. */
  lemma MissingRolesCollection(config: Config)
    requires config == UsersOnly
    ensures RbacUIPlugin(ManualOptions, config)
            == Err("rbacUIPlugin could not find roles collection: \"roles\"")
  {
    assert CollectionSlugs(config.collections) == ["users"];
    assert "roles" != "users";
    MissingRolesText();
  }

  /** A roles collection holding a bare `permissions` json field. */
  const PlainRoles: Collection := Collection("roles", [Field(Some("permissions"), "json", map[], None, map[])])

  /** The manual groups grant `Read:User` and not `Delete:User`. */
  lemma ManualGrants()
    ensures Grants(UserGroups, "Read:User") && !Grants(UserGroups, "Delete:User")
  {
    assert AllPermissionStrings(UserGroups) == ["Create:User", "Read:User"];
    AllPermissionStringsGrants(UserGroups, "Read:User");
    AllPermissionStringsGrants(UserGroups, "Delete:User");
    assert "Create:User"[0] != "Delete:User"[0];
    assert "Read:User"[0] != "Delete:User"[0];
  }

  /** The allow-list resolved from the manual groups grants `Read:User` and not `Delete:User`. */
  lemma ManualAllowList(config: Config)
    ensures var allowed := FlattenPermissionGroups(ResolvedGroups(ManualOptions, config));
            "Read:User" in allowed && "Delete:User" !in allowed
  {
    assert CreateAutoPermissionGroups(config, "roles", Off) == [];
    assert [] + UserGroups == UserGroups;
    AllowListIsInputGrants(ManualOptions, config, "Read:User");
    AllowListIsInputGrants(ManualOptions, config, "Delete:User");
    ManualGrants();
  }

  /** On the plain roles collection the permissions field is overwritten in place. */
  lemma PlainRolesOverwritten(options: PluginOptions, allowed: seq<string>, groups: seq<PermissionGroup>)
    requires options.permissionsFieldName.None? && options.onConfigureRolesCollection.None?
    ensures var c := ConfigureRolesCollection(PlainRoles, options, allowed, groups);
            && |c.fields| == 1
            && c.fields[0] == OverlayField(PlainRoles.fields[0], FieldPatch(options, allowed, groups))
  {
    assert FindFieldIndex(PlainRoles.fields, "permissions") == 0;
  }

  /** With some group resolved, the plugin succeeds and rewrites the plain roles collection in first position. */
  lemma PluginRewritesPlainRoles(options: PluginOptions, config: Config)
    requires options.rolesCollectionSlug.None?
    requires |config.collections| > 0 && config.collections[0] == PlainRoles
    requires |ResolvedGroups(options, config)| > 0
    ensures var r := RbacUIPlugin(options, config);
            var groups := ResolvedGroups(options, config);
            && r.Ok?
            && |r.value.collections| == |config.collections|
            && r.value.collections[0]
               == ConfigureRolesCollection(PlainRoles, options, FlattenPermissionGroups(groups), groups)
  {
    assert CollectionSlugs(config.collections)[0] == "roles";
    MergeEmptyIff(CreateAutoPermissionGroups(config, "roles", options.autoDiscover),
                  options.permissionGroups.GetOr([]));
  }

  /**
   When the plain roles collection comes first, the editor of the rewritten
   permissions field reads the resolved groups.
   */
  lemma EditorGroupsOfPlainRoles(options: PluginOptions, config: Config)
    requires options.permissionsFieldName.None? && options.onConfigureRolesCollection.None?
    requires options.rolesCollectionSlug.None?
    requires |config.collections| > 0 && config.collections[0] == PlainRoles
    requires |ResolvedGroups(options, config)| > 0
    ensures var r := RbacUIPlugin(options, config);
            && r.Ok?
            && |r.value.collections| == |config.collections| && |r.value.collections[0].fields| == 1
            && PermissionsMatrix.ReadPermissionGroups(r.value.collections[0].fields[0].admin)
               == ResolvedGroups(options, config)
  {
    var groups := ResolvedGroups(options, config);
    PluginRewritesPlainRoles(options, config);
    PlainRolesOverwritten(options, FlattenPermissionGroups(groups), groups);
  }

  /** With the manual groups and a roles collection the plugin succeeds and rewrites that collection. */
  lemma PlainRolesAccepted()
    ensures var config := Config([PlainRoles], []);
            var r := RbacUIPlugin(ManualOptions, config);
            var groups := ResolvedGroups(ManualOptions, config);
            && r.Ok?
            && r.value.collections
               == [ConfigureRolesCollection(PlainRoles, ManualOptions, FlattenPermissionGroups(groups), groups)]
  {
    var config := Config([PlainRoles], []);
    assert CollectionSlugs(config.collections) == ["roles"];
    assert CreateAutoPermissionGroups(config, "roles", Off) == [];
    MergeEmptyIff([], UserGroups);
  }

  /**
   The plugin overwrites the existing permissions field in place: it stays a
   `json` field named `permissions` and gets the matrix component.
   */
  lemma InjectsPermissionsField()
    ensures var r := RbacUIPlugin(ManualOptions, Config([PlainRoles], []));
            && r.Ok?
            && |r.value.collections| == 1
            && |r.value.collections[0].fields| == 1
            && var f := r.value.collections[0].fields[0];
               && f.name == Some("permissions")
               && f.fieldType == "json"
               && f.admin["components"]
                  == FieldComponent("@salemaljebaly/payload-plugin-rbac-ui/client#PermissionsMatrixField")
  {
    var config := Config([PlainRoles], []);
    var groups := ResolvedGroups(ManualOptions, config);
    PlainRolesAccepted();
    PlainRolesOverwritten(ManualOptions, FlattenPermissionGroups(groups), groups);
  }

  /** A validator over an allow-list with `Read:User` and without `Delete:User`. */
  lemma ReadUserAllowedDeleteUserNot(allowed: seq<string>)
    requires "Read:User" in allowed && "Delete:User" !in allowed
    ensures ValidatePermissionArray(StrArray(["Read:User"]), allowed) == Valid
    ensures ValidatePermissionArray(StrArray(["Delete:User"]), allowed).Invalid?
  {
    ValidateStrings(["Read:User"], allowed);
    ValidateStrings(["Delete:User"], allowed);
  }

  /** The injected validator accepts a granted permission and rejects an unknown one. */
  lemma InjectedValidatorChecksAllowList()
    ensures var r := RbacUIPlugin(ManualOptions, Config([PlainRoles], []));
            && r.Ok? && |r.value.collections| == 1 && |r.value.collections[0].fields| == 1
            && var v := r.value.collections[0].fields[0].validate;
               && v.Some? && v.value.PermissionValidator?
               && ValidatePermissionArray(StrArray(["Read:User"]), v.value.allowList) == Valid
               && ValidatePermissionArray(StrArray(["Delete:User"]), v.value.allowList).Invalid?
  {
    var config := Config([PlainRoles], []);
    var groups := ResolvedGroups(ManualOptions, config);
    var allowed := FlattenPermissionGroups(groups);
    PlainRolesAccepted();
    PlainRolesOverwritten(ManualOptions, allowed, groups);
    ManualAllowList(config);
    ReadUserAllowedDeleteUserNot(allowed);
  }

  /** `roles` names the entity `Role`. */
  lemma RolesEntity()
    ensures EntityName("roles") == "Role"
  {
    SingularRoles();
    PascalRole();
  }

  lemma SingularRoles()
    ensures Singularize("roles") == "role"
  {
  }

  lemma PascalRole()
    ensures PascalChars("role", true) == "Role"
  {
    PlainWordPascal("role", true);
    assert Capitalize("role") == "Role";
  }

  /** `rbacUIPlugin({ autoDiscover: true })`. */
  const AutoOptions: PluginOptions := PluginOptions(None, None, None, None, None, None, None, On)

  /** The schema of the auto-discovery examples: `roles` and `posts`, and optionally the `site-settings` global. */
  function ExampleConfig(globals: seq<GlobalConfig>): Config
  {
    Config([PlainRoles, Collection("posts", [])], globals)
  }

  /** Both example collections are discovered, the roles collection included. */
  lemma ExampleCollectionsDiscovered(globals: seq<GlobalConfig>)
    ensures CollectionsToDiscover(ExampleConfig(globals), "roles", NormalizeAutoDiscoverOptions(On)) == ["roles", "posts"]
  {
    assert CollectionSlugs(ExampleConfig(globals).collections) == ["roles", "posts"];
    AllDiscoverable(["roles", "posts"], None);
  }

  /** The `site-settings` global, when present, is discovered. */
  lemma ExampleGlobalsDiscovered(globals: seq<GlobalConfig>)
    requires globals == [] || globals == [GlobalConfig("site-settings")]
    ensures GlobalsToDiscover(ExampleConfig(globals), NormalizeAutoDiscoverOptions(On))
            == if globals == [] then [] else ["site-settings"]
  {
    if globals != [] {
      assert GlobalSlugs(globals) == ["site-settings"];
      AllDiscoverable(["site-settings"], None);
    }
  }

  /** Auto-discovery visits both collections (the roles collection included) and then the global. */
  lemma ExampleDiscovery(globals: seq<GlobalConfig>)
    requires globals == [] || globals == [GlobalConfig("site-settings")]
    ensures var opts := NormalizeAutoDiscoverOptions(On);
            var auto := CreateAutoPermissionGroups(ExampleConfig(globals), "roles", On);
            && |auto| == 2 + |globals|
            && auto[0] == GroupFor("roles", CollectionSource, DefaultCollectionActions, opts)
            && auto[1] == GroupFor("posts", CollectionSource, DefaultCollectionActions, opts)
            && (|globals| == 1 ==> auto[2] == GroupFor("site-settings", GlobalSource, DefaultGlobalActions, opts))
  {
    ExampleDiscoveryLength(globals);
    ExampleCollectionGroups(globals);
    if |globals| == 1 {
      ExampleGlobalGroup(globals);
    }
  }

  lemma ExampleDiscoveryLength(globals: seq<GlobalConfig>)
    requires globals == [] || globals == [GlobalConfig("site-settings")]
    ensures |CreateAutoPermissionGroups(ExampleConfig(globals), "roles", On)| == 2 + |globals|
  {
    ExampleCollectionsDiscovered(globals);
    ExampleGlobalsDiscovered(globals);
  }

  lemma ExampleCollectionGroups(globals: seq<GlobalConfig>)
    requires globals == [] || globals == [GlobalConfig("site-settings")]
    ensures var opts := NormalizeAutoDiscoverOptions(On);
            var auto := CreateAutoPermissionGroups(ExampleConfig(globals), "roles", On);
            && |auto| >= 2
            && auto[0] == GroupFor("roles", CollectionSource, DefaultCollectionActions, opts)
            && auto[1] == GroupFor("posts", CollectionSource, DefaultCollectionActions, opts)
  {
    ExampleCollectionGroupAt(globals, 0, "roles");
    ExampleCollectionGroupAt(globals, 1, "posts");
  }

  lemma ExampleCollectionGroupAt(globals: seq<GlobalConfig>, i: nat, slug: string)
    requires i < 2 && slug == ["roles", "posts"][i]
    ensures var auto := CreateAutoPermissionGroups(ExampleConfig(globals), "roles", On);
            && |auto| >= 2
            && auto[i] == GroupFor(slug, CollectionSource, DefaultCollectionActions, NormalizeAutoDiscoverOptions(On))
  {
    ExampleCollectionsDiscovered(globals);
  }

  lemma ExampleGlobalGroup(globals: seq<GlobalConfig>)
    requires globals == [GlobalConfig("site-settings")]
    ensures var opts := NormalizeAutoDiscoverOptions(On);
            var auto := CreateAutoPermissionGroups(ExampleConfig(globals), "roles", On);
            && |auto| == 3
            && auto[2] == GroupFor("site-settings", GlobalSource, DefaultGlobalActions, opts)
  {
    ExampleCollectionsDiscovered(globals);
    ExampleGlobalsDiscovered(globals);
  }

  lemma CrudGroupOf(slug: string, e: string)
    requires EntityName(slug) == e
    ensures var g := GroupFor(slug, CollectionSource, DefaultCollectionActions, NormalizeAutoDiscoverOptions(On));
            && g.groupLabel == e
            && PermissionStrings(g.permissions) == ["Create:" + e, "Read:" + e, "Update:" + e, "Delete:" + e]
  {
    DefaultCollectionPermissions(slug);
  }

  lemma GlobalGroupOf(slug: string, e: string)
    requires EntityName(slug) == e
    ensures var g := GroupFor(slug, GlobalSource, DefaultGlobalActions, NormalizeAutoDiscoverOptions(On));
            && g.groupLabel == "Global " + e
            && PermissionStrings(g.permissions) == ["Read:Global:" + e, "Update:Global:" + e]
  {
    DefaultGlobalPermissions(slug);
  }

  /** The `posts` permission strings as single literals, proved apart so the callers stay small. */
  lemma PostStrings()
    ensures ["Create:" + "Post", "Read:" + "Post", "Update:" + "Post", "Delete:" + "Post"]
            == ["Create:Post", "Read:Post", "Update:Post", "Delete:Post"]
  {
    assert "Create:" + "Post" == "Create:Post";
    assert "Read:" + "Post" == "Read:Post";
    assert "Update:" + "Post" == "Update:Post";
    assert "Delete:" + "Post" == "Delete:Post";
  }

  /** The `site-settings` label and permission strings as single literals, proved apart so the callers stay small. */
  lemma SiteSettingStrings()
    ensures "Global " + "SiteSetting" == "Global SiteSetting"
    ensures ["Read:Global:" + "SiteSetting", "Update:Global:" + "SiteSetting"]
            == ["Read:Global:SiteSetting", "Update:Global:SiteSetting"]
  {
    assert "Read:Global:" + "SiteSetting" == "Read:Global:SiteSetting";
    assert "Update:Global:" + "SiteSetting" == "Update:Global:SiteSetting";
  }

  /** The `Post` group: the four CRUD permissions of `Post`. */
  lemma PostGroup()
    ensures var g := GroupFor("posts", CollectionSource, DefaultCollectionActions, NormalizeAutoDiscoverOptions(On));
            && g.groupLabel == "Post"
            && PermissionStrings(g.permissions) == ["Create:Post", "Read:Post", "Update:Post", "Delete:Post"]
  {
    PostsEntity();
    CrudGroupOf("posts", "Post");
    PostStrings();
  }

  /** The `Role` group of the roles collection. */
  lemma RoleGroup()
    ensures GroupFor("roles", CollectionSource, DefaultCollectionActions, NormalizeAutoDiscoverOptions(On)).groupLabel
            == "Role"
  {
    RolesEntity();
    CrudGroupOf("roles", "Role");
  }

  /** The `Global SiteSetting` group: read and update of `Global:SiteSetting`. */
  lemma SiteSettingGroup()
    ensures var g := GroupFor("site-settings", GlobalSource, DefaultGlobalActions, NormalizeAutoDiscoverOptions(On));
            && g.groupLabel == "Global SiteSetting"
            && PermissionStrings(g.permissions) == ["Read:Global:SiteSetting", "Update:Global:SiteSetting"]
  {
    SiteSettingsEntity();
    GlobalGroupOf("site-settings", "SiteSetting");
    SiteSettingStrings();
  }

  /** The discovered labels `Role`, `Post` and `Global SiteSetting` are distinct. */
  lemma ExampleLabelsDistinct()
    ensures "Role" != "Post" && "Role" != "Global SiteSetting" && "Post" != "Global SiteSetting"
  {
    assert "Role"[0] != "Post"[0];
    assert "Role"[0] != "Global SiteSetting"[0];
    assert "Post"[0] != "Global SiteSetting"[0];
  }

  lemma CrudDistinct(e: string)
    ensures NoDuplicates(["Create:" + e, "Read:" + e, "Update:" + e, "Delete:" + e])
  {
    var xs := ["Create:" + e, "Read:" + e, "Update:" + e, "Delete:" + e];
    assert xs[0][0] == 'C' && xs[1][0] == 'R' && xs[2][0] == 'U' && xs[3][0] == 'D';
  }

  lemma ReadUpdateDistinct(e: string)
    ensures NoDuplicates(["Read:Global:" + e, "Update:Global:" + e])
  {
    var xs := ["Read:Global:" + e, "Update:Global:" + e];
    assert xs[0][0] == 'R' && xs[1][0] == 'U';
  }

  /** The schema with the `site-settings` global. */
  const SiteConfig: Config := ExampleConfig([GlobalConfig("site-settings")])

  /** The groups auto-discovered on `roles`, `posts` and `site-settings`. */
  lemma ExampleAutoGroups(config: Config)
    requires config == SiteConfig
    ensures var auto := CreateAutoPermissionGroups(config, "roles", On);
            && |auto| == 3
            && auto[0].groupLabel == "Role"
            && auto[1].groupLabel == "Post"
            && PermissionStrings(auto[1].permissions) == ["Create:Post", "Read:Post", "Update:Post", "Delete:Post"]
            && auto[2].groupLabel == "Global SiteSetting"
            && PermissionStrings(auto[2].permissions) == ["Read:Global:SiteSetting", "Update:Global:SiteSetting"]
  {
    ExampleDiscovery([GlobalConfig("site-settings")]);
    RoleGroup();
    PostGroup();
    SiteSettingGroup();
  }

  /** Three groups with distinct labels and distinct strings keep their strings through the merge. */
  lemma ThreeGroupsResolve(auto: seq<PermissionGroup>, k: nat)
    requires |auto| == 3 && k < 3
    requires auto[0].groupLabel != auto[1].groupLabel && auto[0].groupLabel != auto[2].groupLabel
    requires auto[1].groupLabel != auto[2].groupLabel
    requires NoDuplicates(PermissionStrings(auto[k].permissions))
    ensures var groups := MergePermissionGroups([auto, []]);
            exists i :: 0 <= i < |groups| && groups[i].groupLabel == auto[k].groupLabel
              && PermissionStrings(groups[i].permissions) == PermissionStrings(auto[k].permissions)
  {
    ConcatPair(auto, []);
    assert auto + [] == auto;
    SoleGroupKeepsStrings([auto, []], k);
  }

  /** The resolved groups hold a `Post` group with CRUD and a `Global SiteSetting` group with read and update. */
  lemma ExampleResolvedGroups(config: Config)
    requires config == SiteConfig
    ensures var groups := ResolvedGroups(AutoOptions, config);
            && (exists i :: 0 <= i < |groups| && groups[i].groupLabel == "Post"
                  && PermissionStrings(groups[i].permissions)
                     == ["Create:Post", "Read:Post", "Update:Post", "Delete:Post"])
            && (exists i :: 0 <= i < |groups| && groups[i].groupLabel == "Global SiteSetting"
                  && PermissionStrings(groups[i].permissions)
                     == ["Read:Global:SiteSetting", "Update:Global:SiteSetting"])
  {
    var auto := CreateAutoPermissionGroups(config, "roles", On);
    ExampleAutoGroups(config);
    ExampleLabelsDistinct();
    CrudDistinct("Post");
    ReadUpdateDistinct("SiteSetting");
    PostStrings();
    SiteSettingStrings();
    var groups := ResolvedGroups(AutoOptions, config);
    assert groups == MergePermissionGroups([auto, []]);
    ThreeGroupsResolve(auto, 1);
    var i :| 0 <= i < |groups| && groups[i].groupLabel == auto[1].groupLabel
             && PermissionStrings(groups[i].permissions) == PermissionStrings(auto[1].permissions);
    ThreeGroupsResolve(auto, 2);
    var j :| 0 <= j < |groups| && groups[j].groupLabel == auto[2].groupLabel
             && PermissionStrings(groups[j].permissions) == PermissionStrings(auto[2].permissions);
  }

  /**
   `autoDiscover: true` on `roles`, `posts` and the `site-settings` global:
   the editor of the permissions field finds the `Post` CRUD group and the
   `Global SiteSetting` read/update group.
   */
  lemma AutoDiscoversCollectionsAndGlobals(config: Config)
    requires config == SiteConfig
    ensures var r := RbacUIPlugin(AutoOptions, config);
            && r.Ok?
            && |r.value.collections| == 2 && |r.value.collections[0].fields| == 1
            && var groups := PermissionsMatrix.ReadPermissionGroups(r.value.collections[0].fields[0].admin);
               && (exists i :: 0 <= i < |groups| && groups[i].groupLabel == "Post"
                     && PermissionStrings(groups[i].permissions)
                        == ["Create:Post", "Read:Post", "Update:Post", "Delete:Post"])
               && (exists i :: 0 <= i < |groups| && groups[i].groupLabel == "Global SiteSetting"
                     && PermissionStrings(groups[i].permissions)
                        == ["Read:Global:SiteSetting", "Update:Global:SiteSetting"])
  {
    ExampleResolvedGroups(config);
    var groups := ResolvedGroups(AutoOptions, config);
    var i :| 0 <= i < |groups| && groups[i].groupLabel == "Post"
             && PermissionStrings(groups[i].permissions) == ["Create:Post", "Read:Post", "Update:Post", "Delete:Post"];
    var j :| 0 <= j < |groups| && groups[j].groupLabel == "Global SiteSetting"
             && PermissionStrings(groups[j].permissions) == ["Read:Global:SiteSetting", "Update:Global:SiteSetting"];
    EditorGroupsOfPlainRoles(AutoOptions, config);
  }

  /** `rbacUIPlugin({ autoDiscover: true, permissionGroups: [Post: Publish] })`. */
  const PublishOptions: PluginOptions :=
    PluginOptions(None, None,
                  Some([PermissionGroup("Post", [PermissionItem("Publish", "Publish post", "Publish:Post")])]),
                  None, None, None, None, On)

  /** A discovered CRUD `Post` group and a manual `Post` group merge into one group carrying all five strings. */
  lemma PostGroupsMerge(auto: seq<PermissionGroup>, manual: seq<PermissionGroup>)
    requires |auto| == 2 && auto[1].groupLabel == "Post"
    requires PermissionStrings(auto[1].permissions) == ["Create:Post", "Read:Post", "Update:Post", "Delete:Post"]
    requires manual == PublishOptions.permissionGroups.value
    ensures var groups := MergePermissionGroups([auto, manual]);
            && (exists i :: 0 <= i < |groups| && groups[i].groupLabel == "Post")
            && forall i :: 0 <= i < |groups| && groups[i].groupLabel == "Post" ==>
                 var ps := PermissionStrings(groups[i].permissions);
                 && "Create:Post" in ps && "Read:Post" in ps && "Update:Post" in ps && "Delete:Post" in ps
                 && "Publish:Post" in ps
  {
    ConcatPair(auto, manual);
    var all := auto + manual;
    assert all[1] == auto[1] && all[2] == manual[0];
    var ps := PermissionStrings(all[1].permissions);
    assert all[1].permissions[0].permission == ps[0] == "Create:Post";
    assert all[1].permissions[1].permission == ps[1] == "Read:Post";
    assert all[1].permissions[2].permission == ps[2] == "Update:Post";
    assert all[1].permissions[3].permission == ps[3] == "Delete:Post";
    MergedGroupHasFiled([auto, manual], 1, 0);
    MergedGroupHasFiled([auto, manual], 1, 1);
    MergedGroupHasFiled([auto, manual], 1, 2);
    MergedGroupHasFiled([auto, manual], 1, 3);
    MergedGroupHasFiled([auto, manual], 2, 0);
  }

  /** The merged `Post` group carries the four discovered permissions and the manual one. */
  lemma PublishMerged(config: Config)
    requires config == ExampleConfig([])
    ensures var groups := ResolvedGroups(PublishOptions, config);
            && (exists i :: 0 <= i < |groups| && groups[i].groupLabel == "Post")
            && forall i :: 0 <= i < |groups| && groups[i].groupLabel == "Post" ==>
                 var ps := PermissionStrings(groups[i].permissions);
                 && "Create:Post" in ps && "Read:Post" in ps && "Update:Post" in ps && "Delete:Post" in ps
                 && "Publish:Post" in ps
  {
    var auto := CreateAutoPermissionGroups(config, "roles", On);
    ExampleDiscovery([]);
    PostGroup();
    PostStrings();
    var manual := PublishOptions.permissionGroups.value;
    PostGroupsMerge(auto, manual);
    var groups := ResolvedGroups(PublishOptions, config);
    assert groups == MergePermissionGroups([auto, manual]);
    var i :| 0 <= i < |groups| && groups[i].groupLabel == "Post";
  }

  /**
   Auto-discovered and manual groups merge under the `Post` label: the editor
   of the permissions field finds all five permissions in that group.
   */
  lemma MergesAutoAndManualGroups(config: Config)
    requires config == ExampleConfig([])
    ensures var r := RbacUIPlugin(PublishOptions, config);
            && r.Ok?
            && |r.value.collections| == 2 && |r.value.collections[0].fields| == 1
            && var groups := PermissionsMatrix.ReadPermissionGroups(r.value.collections[0].fields[0].admin);
               && (exists i :: 0 <= i < |groups| && groups[i].groupLabel == "Post")
               && forall i :: 0 <= i < |groups| && groups[i].groupLabel == "Post" ==>
                    var ps := PermissionStrings(groups[i].permissions);
                    && "Create:Post" in ps && "Read:Post" in ps && "Update:Post" in ps && "Delete:Post" in ps
                    && "Publish:Post" in ps
  {
    PublishMerged(config);
    var groups := ResolvedGroups(PublishOptions, config);
    var i :| 0 <= i < |groups| && groups[i].groupLabel == "Post";
    EditorGroupsOfPlainRoles(PublishOptions, config);
  }
}
