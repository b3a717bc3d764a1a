/**
 The plugin's configuration transform: find the roles collection, resolve the
 permission groups (auto-discovered, then manual), build the allow-list, and
 insert or overwrite the permissions field of the roles collection only.
 */
module Plugin {
  import opened Basics
  import opened Seqs
  import opened PermissionTypes
  import opened JsValues
  import opened Validation
  import opened HostConfig
  import opened AutoDiscovery
  import opened GroupMerge
  import opened PermissionSets

  const DefaultRolesCollection: string := "roles"
  const DefaultPermissionsField: string := "permissions"
  const DefaultComponentPath: string := "@salemaljebaly/payload-plugin-rbac-ui/client#PermissionsMatrixField"
  const DefaultDescription: string := "Select permissions for this role"
  const MessagePrefix: string := "rbacUIPlugin "
  const ZeroGroupsText: string := "resolved zero permission groups. Provide permissionGroups or enable autoDiscover."
  const ZeroGroupsMessage: string := MessagePrefix + ZeroGroupsText

  const MissingRolesLead: string := "rbacUIPlugin could not find roles collection: \""

  function MissingRolesMessage(slug: string): string
  {
    MissingRolesLead + slug + "\""
  }

  /** The two configuration errors never share a message. */
  lemma MessagesDiffer(slug: string)
    ensures MissingRolesMessage(slug) != ZeroGroupsMessage
  {
    var m := MissingRolesMessage(slug);
    var z := ZeroGroupsMessage;
    assert m[|m| - 1] == '"';
    assert z[|z| - 1] == ZeroGroupsText[|ZeroGroupsText| - 1] == '.';
  }

  /** The plugin options; the post-processing hook is an arbitrary caller-supplied function. */
  datatype PluginOptions = PluginOptions(
    rolesCollectionSlug: Option<string>,
    permissionsFieldName: Option<string>,
    permissionGroups: Option<seq<PermissionGroup>>,
    rolesFieldDescription: Option<Description>,
    ensurePermissionsField: Option<bool>,
    customFieldPath: Option<string>,
    onConfigureRolesCollection: Option<Collection -> Collection>,
    autoDiscover: AutoDiscover)

  /** `resolveDescription`: a falsy description (absent or the empty string) becomes the default text. */
  function ResolveDescription(description: Option<Description>): (r: Description)
    ensures r != Text("")
    ensures description.Some? && description.value != Text("") ==> r == description.value
    ensures description.None? || description.value == Text("") ==> r == Text(DefaultDescription)
  {
    if description.None? || description.value == Text("") then Text(DefaultDescription)
    else description.value
  }

  function FieldName(options: PluginOptions): string
  {
    options.permissionsFieldName.GetOr(DefaultPermissionsField)
  }

  /** `findIndex` of the first field carrying the given name, `-1` when there is none. */
  function FindFieldIndex(fields: seq<Field>, name: string): (i: int)
    ensures -1 <= i < |fields|
    ensures i == -1 <==> forall k :: 0 <= k < |fields| ==> fields[k].name != Some(name)
    ensures i != -1 ==> fields[i].name == Some(name) && forall k :: 0 <= k < i ==> fields[k].name != Some(name)
  {
    if |fields| == 0 then -1
    else if fields[0].name == Some(name) then 0
    else
      var j := FindFieldIndex(fields[1..], name);
      if j == -1 then -1 else j + 1
  }

  /** The admin keys the patch sets. */
  const PatchAdminKeys: set<string> := {"description", "custom", "components"}

  /**
   The field definition the plugin contributes: a `json` field under the
   configured name (`permissions` by default) whose admin object holds a
   non-empty description, the resolved groups and the component path
   (the package's matrix component by default), validated against the
   allow-list.
   */
  function FieldPatch(options: PluginOptions, allowedPermissions: seq<string>, groups: seq<PermissionGroup>): (r: Field)
    ensures r.name == Some(if options.permissionsFieldName.Some? then options.permissionsFieldName.value
                           else DefaultPermissionsField)
    ensures r.fieldType == "json" && r.otherKeys == map[]
    ensures r.admin.Keys == PatchAdminKeys
    ensures r.admin["description"].DescriptionValue? && r.admin["description"].description != Text("")
    ensures r.admin["custom"] == RbacCustom(groups)
    ensures r.admin["components"] == FieldComponent(if options.customFieldPath.Some? then options.customFieldPath.value
                                                     else DefaultComponentPath)
    ensures r.validate == Some(PermissionValidator(allowedPermissions))
  {
    Field(
      Some(FieldName(options)),
      "json",
      map["description" := DescriptionValue(ResolveDescription(options.rolesFieldDescription)),
          "custom" := RbacCustom(groups),
          "components" := FieldComponent(options.customFieldPath.GetOr(DefaultComponentPath))],
      Some(PermissionValidator(allowedPermissions)),
      map[])
  }

  /**
   `{ ...existing, ...patch, admin: { ...existing.admin, ...patch.admin } }`:
   name, type and validator come from the patch; the admin object is merged
   one level deep with the patch's keys winning; other keys stay.
   */
  function OverlayField(existing: Field, patch: Field): (r: Field)
    ensures r.name == patch.name && r.fieldType == patch.fieldType && r.validate == patch.validate
    ensures r.admin.Keys == existing.admin.Keys + patch.admin.Keys
    ensures forall k :: k in patch.admin ==> r.admin[k] == patch.admin[k]
    ensures forall k :: k in existing.admin && k !in patch.admin ==> r.admin[k] == existing.admin[k]
    ensures r.otherKeys.Keys == existing.otherKeys.Keys + patch.otherKeys.Keys
    ensures forall k :: k in existing.otherKeys && k !in patch.otherKeys ==> r.otherKeys[k] == existing.otherKeys[k]
  {
    Field(patch.name, patch.fieldType, existing.admin + patch.admin, patch.validate,
          existing.otherKeys + patch.otherKeys)
  }

  /** The roles collection is left alone: its field is absent and creation is switched off. */
  predicate LeftAlone(collection: Collection, options: PluginOptions)
  {
    FindFieldIndex(collection.fields, FieldName(options)) == -1 && options.ensurePermissionsField == Some(false)
  }

  /**
   `configureRolesCollection`. Without a hook: an absent field is appended
   (unless creation is switched off, when the collection comes back as it
   was), and a present one is overlaid in place, so the other fields keep
   their positions. A hook post-processes exactly the collection that would
   otherwise be returned.
   */
  function ConfigureRolesCollection(collection: Collection, options: PluginOptions,
                                    allowedPermissions: seq<string>, groups: seq<PermissionGroup>): (r: Collection)
    ensures LeftAlone(collection, options) ==> r == collection
    ensures options.onConfigureRolesCollection.None? && !LeftAlone(collection, options) ==>
              var i := FindFieldIndex(collection.fields, FieldName(options));
              var patch := FieldPatch(options, allowedPermissions, groups);
              && r.slug == collection.slug
              && (i == -1 ==> r.fields == collection.fields + [patch])
              && (i != -1 ==>
                    && |r.fields| == |collection.fields|
                    && r.fields[i] == OverlayField(collection.fields[i], patch)
                    && forall k :: 0 <= k < |r.fields| && k != i ==> r.fields[k] == collection.fields[k])
    ensures options.onConfigureRolesCollection.Some? && !LeftAlone(collection, options) ==>
              r == options.onConfigureRolesCollection.value(
                     ConfigureRolesCollection(collection, options.(onConfigureRolesCollection := None),
                                              allowedPermissions, groups))
    decreases options.onConfigureRolesCollection.Some?
  {
    var name := FieldName(options);
    var fields := collection.fields;
    var i := FindFieldIndex(fields, name);
    var patch := FieldPatch(options, allowedPermissions, groups);
    if i == -1 && options.ensurePermissionsField == Some(false) then collection
    else
      var newFields := if i == -1 then fields + [patch] else fields[i := OverlayField(fields[i], patch)];
      var updated := collection.(fields := newFields);
      if options.onConfigureRolesCollection.Some? then options.onConfigureRolesCollection.value(updated)
      else updated
  }

  /**
   The groups the plugin resolves: `merge(auto, manual)`. None exactly when
   both inputs are empty; each label of either input once.
   */
  function ResolvedGroups(options: PluginOptions, config: Config): (r: seq<PermissionGroup>)
    ensures var roles := options.rolesCollectionSlug.GetOr(DefaultRolesCollection);
            var auto := CreateAutoPermissionGroups(config, roles, options.autoDiscover);
            var manual := options.permissionGroups.GetOr([]);
            && (|r| == 0 <==> |auto| == 0 && |manual| == 0)
            && NoDuplicates(Labels(r))
            && forall l :: l in Labels(r) <==> l in Labels(auto) || l in Labels(manual)
  {
    var roles := options.rolesCollectionSlug.GetOr(DefaultRolesCollection);
    var auto := CreateAutoPermissionGroups(config, roles, options.autoDiscover);
    var manual := options.permissionGroups.GetOr([]);
    MergeEmptyIff(auto, manual);
    MergePairLabels(auto, manual);
    MergePermissionGroups([auto, manual])
  }

  /**
   `rbacUIPlugin(options)(config)`. Fails when no collection has the roles
   slug, and when no group at all is resolved (nothing auto-discovered and no
   manual groups); otherwise rewrites the roles collection(s) and returns
   every other collection, and the globals, unchanged and in order.
   */
  function RbacUIPlugin(options: PluginOptions, config: Config): (r: Result<Config>)
    ensures var roles := options.rolesCollectionSlug.GetOr(DefaultRolesCollection);
            (roles !in CollectionSlugs(config.collections) <==> r == Err(MissingRolesMessage(roles)))
    ensures var roles := options.rolesCollectionSlug.GetOr(DefaultRolesCollection);
            roles in CollectionSlugs(config.collections) ==>
              (r == Err(ZeroGroupsMessage)
               <==> |CreateAutoPermissionGroups(config, roles, options.autoDiscover)| == 0
                    && |options.permissionGroups.GetOr([])| == 0)
    ensures var roles := options.rolesCollectionSlug.GetOr(DefaultRolesCollection);
            roles in CollectionSlugs(config.collections)
            && (|CreateAutoPermissionGroups(config, roles, options.autoDiscover)| > 0
                || |options.permissionGroups.GetOr([])| > 0)
            ==> r.Ok?
    ensures r.Ok? ==>
              var roles := options.rolesCollectionSlug.GetOr(DefaultRolesCollection);
              var groups := ResolvedGroups(options, config);
              && |r.value.collections| == |config.collections|
              && r.value.globals == config.globals
              && forall i :: 0 <= i < |config.collections| ==>
                   r.value.collections[i]
                   == if config.collections[i].slug != roles then config.collections[i]
                      else ConfigureRolesCollection(config.collections[i], options,
                                                    FlattenPermissionGroups(groups), groups)
  {
    var roles := options.rolesCollectionSlug.GetOr(DefaultRolesCollection);
    var collections := config.collections;
    if roles !in CollectionSlugs(collections) then
      Err(MissingRolesMessage(roles))
    else
      var resolved := ResolvedGroups(options, config);
      MessagesDiffer(roles);
      if |resolved| == 0 then
        Err(ZeroGroupsMessage)
      else
        Ok(Config(RewriteCollections(collections, roles, options, resolved), config.globals))
  }

  /** The `collections.map(...)` step: every collection with the roles slug is configured, the rest pass through. */
  function RewriteCollections(collections: seq<Collection>, roles: string, options: PluginOptions,
                              groups: seq<PermissionGroup>): (r: seq<Collection>)
    ensures |r| == |collections|
    ensures forall i :: 0 <= i < |collections| ==>
              r[i] == if collections[i].slug != roles then collections[i]
                      else ConfigureRolesCollection(collections[i], options, FlattenPermissionGroups(groups), groups)
  {
    var allowed := FlattenPermissionGroups(groups);
    seq(|collections|, i requires 0 <= i < |collections| =>
      if collections[i].slug != roles then collections[i]
      else ConfigureRolesCollection(collections[i], options, allowed, groups))
  }

  /** The injected validator accepts an array of strings exactly when each is granted by a resolved group. */
  lemma ValidatorAcceptsGranted(groups: seq<PermissionGroup>, xs: seq<string>)
    ensures ValidatePermissionArray(StrArray(xs), FlattenPermissionGroups(groups)) == Valid
            <==> forall i :: 0 <= i < |xs| ==> Grants(groups, xs[i])
  {
    ValidateStrings(xs, FlattenPermissionGroups(groups));
  }

  /**
   The allow-list the plugin injects holds exactly the permissions granted by
   the auto-discovered groups or the manual groups.
   */
  lemma AllowListIsInputGrants(options: PluginOptions, config: Config, p: string)
    ensures var roles := options.rolesCollectionSlug.GetOr(DefaultRolesCollection);
            p in FlattenPermissionGroups(ResolvedGroups(options, config))
            <==> Grants(CreateAutoPermissionGroups(config, roles, options.autoDiscover)
                        + options.permissionGroups.GetOr([]), p)
  {
    var roles := options.rolesCollectionSlug.GetOr(DefaultRolesCollection);
    var auto := CreateAutoPermissionGroups(config, roles, options.autoDiscover);
    var manual := options.permissionGroups.GetOr([]);
    ConcatPair(auto, manual);
    MergeKeepsGrants([auto, manual], p);
  }

  /** Overlaying the same patch twice is overlaying it once. */
  lemma OverlayIdempotent(existing: Field, patch: Field)
    ensures OverlayField(OverlayField(existing, patch), patch) == OverlayField(existing, patch)
  {
    var once := OverlayField(existing, patch);
    assert once.admin + patch.admin == once.admin;
    assert once.otherKeys + patch.otherKeys == once.otherKeys;
  }

  /**
   After configuration without a hook, the first field with the permissions
   name is the injected one: a `json` field whose admin object carries the
   description, the resolved groups and the component path, and whose
   validator closes over the allow-list.
   */
  lemma InjectedField(collection: Collection, options: PluginOptions,
                      allowedPermissions: seq<string>, groups: seq<PermissionGroup>)
    requires options.onConfigureRolesCollection.None? && !LeftAlone(collection, options)
    ensures var r := ConfigureRolesCollection(collection, options, allowedPermissions, groups);
            var i := FindFieldIndex(r.fields, FieldName(options));
            && i != -1
            && r.fields[i].fieldType == "json"
            && r.fields[i].validate == Some(PermissionValidator(allowedPermissions))
            && r.fields[i].admin["description"] == DescriptionValue(ResolveDescription(options.rolesFieldDescription))
            && r.fields[i].admin["custom"] == RbacCustom(groups)
            && r.fields[i].admin["components"] == FieldComponent(options.customFieldPath.GetOr(DefaultComponentPath))
  {
    var r := ConfigureRolesCollection(collection, options, allowedPermissions, groups);
    var name := FieldName(options);
    var j := FindFieldIndex(collection.fields, name);
    if j == -1 {
      assert r.fields[|collection.fields|].name == Some(name);
    } else {
      assert r.fields[j].name == Some(name);
    }
  }

  /** Configuring an already configured roles collection again changes nothing. */
  lemma ConfigureIdempotent(collection: Collection, options: PluginOptions,
                            allowedPermissions: seq<string>, groups: seq<PermissionGroup>)
    requires options.onConfigureRolesCollection.None?
    ensures var once := ConfigureRolesCollection(collection, options, allowedPermissions, groups);
            ConfigureRolesCollection(once, options, allowedPermissions, groups) == once
  {
    if !LeftAlone(collection, options) {
      if FindFieldIndex(collection.fields, FieldName(options)) == -1 {
        ConfigureAgainAppended(collection, options, allowedPermissions, groups);
      } else {
        ConfigureAgainOverlaid(collection, options, allowedPermissions, groups);
      }
    }
  }

  /** Once the field has been appended, configuring again overlays the patch on itself. */
  lemma ConfigureAgainAppended(collection: Collection, options: PluginOptions,
                               allowedPermissions: seq<string>, groups: seq<PermissionGroup>)
    requires options.onConfigureRolesCollection.None? && !LeftAlone(collection, options)
    requires FindFieldIndex(collection.fields, FieldName(options)) == -1
    ensures var once := ConfigureRolesCollection(collection, options, allowedPermissions, groups);
            ConfigureRolesCollection(once, options, allowedPermissions, groups) == once
  {
    var once := ConfigureRolesCollection(collection, options, allowedPermissions, groups);
    var name := FieldName(options);
    var patch := FieldPatch(options, allowedPermissions, groups);
    var k := |collection.fields|;
    assert once.fields[k].name == Some(name);
    assert FindFieldIndex(once.fields, name) == k;
    assert patch.admin + patch.admin == patch.admin;
    assert OverlayField(patch, patch) == patch;
    ConfigurePatchedField(once, options, allowedPermissions, groups, k);
  }

  /** Once the field has been overlaid, configuring again overlays the same patch a second time. */
  lemma ConfigureAgainOverlaid(collection: Collection, options: PluginOptions,
                               allowedPermissions: seq<string>, groups: seq<PermissionGroup>)
    requires options.onConfigureRolesCollection.None?
    requires FindFieldIndex(collection.fields, FieldName(options)) != -1
    ensures var once := ConfigureRolesCollection(collection, options, allowedPermissions, groups);
            ConfigureRolesCollection(once, options, allowedPermissions, groups) == once
  {
    var once := ConfigureRolesCollection(collection, options, allowedPermissions, groups);
    var name := FieldName(options);
    var patch := FieldPatch(options, allowedPermissions, groups);
    var k := FindFieldIndex(collection.fields, name);
    assert once.fields[k].name == Some(name);
    assert FindFieldIndex(once.fields, name) == k;
    OverlayIdempotent(collection.fields[k], patch);
    ConfigurePatchedField(once, options, allowedPermissions, groups, k);
  }

  /** A collection whose permissions field already carries the patch is configured to itself. */
  lemma ConfigurePatchedField(collection: Collection, options: PluginOptions,
                              allowedPermissions: seq<string>, groups: seq<PermissionGroup>, k: nat)
    requires options.onConfigureRolesCollection.None?
    requires FindFieldIndex(collection.fields, FieldName(options)) == k
    requires collection.fields[k]
             == OverlayField(collection.fields[k], FieldPatch(options, allowedPermissions, groups))
    ensures ConfigureRolesCollection(collection, options, allowedPermissions, groups) == collection
  {
    assert collection.fields[k := collection.fields[k]] == collection.fields;
  }

  /** Auto-discovery reads only the slugs of the host schema. */
  lemma AutoGroupsReadSlugsOnly(a: Config, b: Config, roles: string, setting: AutoDiscover)
    requires CollectionSlugs(a.collections) == CollectionSlugs(b.collections) && a.globals == b.globals
    ensures CreateAutoPermissionGroups(a, roles, setting) == CreateAutoPermissionGroups(b, roles, setting)
  {
  }

  /** The plugin's output keeps the collection slugs and globals, so it resolves the same groups. */
  lemma OutputResolvesSameGroups(options: PluginOptions, config: Config)
    requires options.onConfigureRolesCollection.None?
    requires RbacUIPlugin(options, config).Ok?
    ensures var out := RbacUIPlugin(options, config).value;
            && CollectionSlugs(out.collections) == CollectionSlugs(config.collections)
            && ResolvedGroups(options, out) == ResolvedGroups(options, config)
  {
    var roles := options.rolesCollectionSlug.GetOr(DefaultRolesCollection);
    var out := RbacUIPlugin(options, config).value;
    PluginKeepsSlugs(options, config);
    AutoGroupsReadSlugsOnly(out, config, roles, options.autoDiscover);
  }

  /** Without a hook, the plugin's output has the input's collection slugs, in order. */
  lemma PluginKeepsSlugs(options: PluginOptions, config: Config)
    requires options.onConfigureRolesCollection.None?
    requires RbacUIPlugin(options, config).Ok?
    ensures CollectionSlugs(RbacUIPlugin(options, config).value.collections) == CollectionSlugs(config.collections)
  {
    var roles := options.rolesCollectionSlug.GetOr(DefaultRolesCollection);
    var out := RbacUIPlugin(options, config).value;
    var groups := ResolvedGroups(options, config);
    forall i | 0 <= i < |out.collections| ensures out.collections[i].slug == config.collections[i].slug {
      if config.collections[i].slug == roles {
        ConfigureKeepsSlug(config.collections[i], options, FlattenPermissionGroups(groups), groups);
      }
    }
    SameSlugs(out.collections, config.collections);
  }

  lemma SameSlugs(a: seq<Collection>, b: seq<Collection>)
    requires |a| == |b| && forall i :: 0 <= i < |a| ==> a[i].slug == b[i].slug
    ensures CollectionSlugs(a) == CollectionSlugs(b)
  {
  }

  /** Without a hook, configuring a collection keeps its slug. */
  lemma ConfigureKeepsSlug(collection: Collection, options: PluginOptions,
                           allowedPermissions: seq<string>, groups: seq<PermissionGroup>)
    requires options.onConfigureRolesCollection.None?
    ensures ConfigureRolesCollection(collection, options, allowedPermissions, groups).slug == collection.slug
  {
  }

  /** Without a hook, applying the plugin to its own output gives that output again. */
  lemma PluginIdempotent(options: PluginOptions, config: Config)
    requires options.onConfigureRolesCollection.None?
    requires RbacUIPlugin(options, config).Ok?
    ensures RbacUIPlugin(options, RbacUIPlugin(options, config).value) == RbacUIPlugin(options, config)
  {
    var roles := options.rolesCollectionSlug.GetOr(DefaultRolesCollection);
    var out := RbacUIPlugin(options, config).value;
    var groups := ResolvedGroups(options, config);
    PluginAcceptsOwnOutput(options, config);
    PluginOutputIsRewrite(options, config);
    PluginOutputIsRewrite(options, out);
    OutputResolvesSameGroups(options, config);
    RewriteIdempotent(config.collections, roles, options, groups);
  }

  /** A successful run's output: the collections rewritten with the resolved groups, the globals as they were. */
  lemma PluginOutputIsRewrite(options: PluginOptions, config: Config)
    requires RbacUIPlugin(options, config).Ok?
    ensures var roles := options.rolesCollectionSlug.GetOr(DefaultRolesCollection);
            RbacUIPlugin(options, config).value
            == Config(RewriteCollections(config.collections, roles, options, ResolvedGroups(options, config)),
                      config.globals)
  {
  }

  /** Without a hook, rewriting the rewritten collections changes nothing. */
  lemma RewriteIdempotent(collections: seq<Collection>, roles: string, options: PluginOptions,
                          groups: seq<PermissionGroup>)
    requires options.onConfigureRolesCollection.None?
    ensures var once := RewriteCollections(collections, roles, options, groups);
            RewriteCollections(once, roles, options, groups) == once
  {
    var allowed := FlattenPermissionGroups(groups);
    var once := RewriteCollections(collections, roles, options, groups);
    var twice := RewriteCollections(once, roles, options, groups);
    forall i | 0 <= i < |collections| ensures twice[i] == once[i] {
      if collections[i].slug == roles {
        ConfigureKeepsSlug(collections[i], options, allowed, groups);
        ConfigureIdempotent(collections[i], options, allowed, groups);
      }
    }
  }

  /** Without a hook, the plugin accepts its own output. */
  lemma PluginAcceptsOwnOutput(options: PluginOptions, config: Config)
    requires options.onConfigureRolesCollection.None?
    requires RbacUIPlugin(options, config).Ok?
    ensures RbacUIPlugin(options, RbacUIPlugin(options, config).value).Ok?
  {
    var roles := options.rolesCollectionSlug.GetOr(DefaultRolesCollection);
    var out := RbacUIPlugin(options, config).value;
    PluginKeepsSlugs(options, config);
    AutoGroupsReadSlugsOnly(out, config, roles, options.autoDiscover);
  }
}
