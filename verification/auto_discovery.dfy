/**
 `createAutoPermissionGroups`: one group per collection and per global of the
 host schema, crossed with configured action lists.
 */
module AutoDiscovery {
  import opened Basics
  import opened Seqs
  import opened PermissionTypes
  import opened Naming
  import opened HostConfig

  /** The fields of an `autoDiscover` options object; each may be left out. */
  datatype AutoDiscoverOptions = AutoDiscoverOptions(
    collections: Option<bool>,
    globals: Option<bool>,
    collectionActions: Option<seq<string>>,
    globalActions: Option<seq<string>>,
    includeRolesCollection: Option<bool>,
    formatPermission: Option<AutoDiscoverContext -> string>,
    formatGroupLabel: Option<(string, AutoDiscoverSource) -> string>)

  /** The `autoDiscover` setting: falsy (`false`, absent), `true`, or an options object. */
  datatype AutoDiscover = Off | On | WithOptions(options: AutoDiscoverOptions)

  /** Every option with its default filled in. */
  datatype ResolvedOptions = ResolvedOptions(
    collections: bool,
    globals: bool,
    collectionActions: seq<string>,
    globalActions: seq<string>,
    includeRolesCollection: bool,
    formatPermission: AutoDiscoverContext -> string,
    formatGroupLabel: (string, AutoDiscoverSource) -> string)

  const DefaultCollectionActions: seq<string> := ["Create", "Read", "Update", "Delete"]
  const DefaultGlobalActions: seq<string> := ["Read", "Update"]

  /** The options object of a setting; `true` and falsy settings have none, so every default applies. */
  function OptionsOf(setting: AutoDiscover): AutoDiscoverOptions
  {
    if setting.WithOptions? then setting.options
    else AutoDiscoverOptions(None, None, None, None, None, None, None)
  }

  /**
   `normalizeAutoDiscoverOptions`: a given option wins, a missing one takes
   its default (both kinds on, CRUD for collections, read/update for globals,
   the roles collection included, the default formatters).
   */
  function NormalizeAutoDiscoverOptions(setting: AutoDiscover): (r: ResolvedOptions)
    ensures !setting.WithOptions? ==>
              r == ResolvedOptions(true, true, DefaultCollectionActions, DefaultGlobalActions, true,
                                   DefaultPermissionFormatter, DefaultGroupLabelFormatter)
    ensures setting.WithOptions? ==>
              var o := setting.options;
              && r.collections == (if o.collections.Some? then o.collections.value else true)
              && r.globals == (if o.globals.Some? then o.globals.value else true)
              && r.collectionActions
                 == (if o.collectionActions.Some? then o.collectionActions.value else DefaultCollectionActions)
              && r.globalActions == (if o.globalActions.Some? then o.globalActions.value else DefaultGlobalActions)
              && r.includeRolesCollection
                 == (if o.includeRolesCollection.Some? then o.includeRolesCollection.value else true)
              && r.formatPermission
                 == (if o.formatPermission.Some? then o.formatPermission.value else DefaultPermissionFormatter)
              && r.formatGroupLabel
                 == (if o.formatGroupLabel.Some? then o.formatGroupLabel.value else DefaultGroupLabelFormatter)
  {
    var o := OptionsOf(setting);
    ResolvedOptions(
      o.collections.GetOr(true),
      o.globals.GetOr(true),
      o.collectionActions.GetOr(DefaultCollectionActions),
      o.globalActions.GetOr(DefaultGlobalActions),
      o.includeRolesCollection.GetOr(true),
      o.formatPermission.GetOr(DefaultPermissionFormatter),
      o.formatGroupLabel.GetOr(DefaultGroupLabelFormatter))
  }

  /** One item per action, in action order, described as `action label`. */
  function ItemsFor(actions: seq<string>, slug: string, source: AutoDiscoverSource, groupLabel: string,
                    format: AutoDiscoverContext -> string): (r: seq<PermissionItem>)
    ensures |r| == |actions|
    ensures forall j :: 0 <= j < |r| ==>
              && r[j].action == actions[j]
              && r[j].description == actions[j] + " " + groupLabel
              && r[j].permission == format(AutoDiscoverContext(actions[j], slug, source))
  {
    if |actions| == 0 then []
    else
      var a := actions[0];
      [PermissionItem(a, a + " " + groupLabel, format(AutoDiscoverContext(a, slug, source)))]
      + ItemsFor(actions[1..], slug, source, groupLabel, format)
  }

  /**
   The group auto-discovery builds for one resource: labelled by the label
   formatter, with one item per action, in action order, whose permission
   string comes from the permission formatter and whose description is the
   action followed by the label.
   */
  function GroupFor(slug: string, source: AutoDiscoverSource, actions: seq<string>, opts: ResolvedOptions)
    : (r: PermissionGroup)
    ensures r.groupLabel == opts.formatGroupLabel(slug, source)
    ensures |r.permissions| == |actions|
    ensures forall j :: 0 <= j < |actions| ==>
              && r.permissions[j].action == actions[j]
              && r.permissions[j].description == actions[j] + " " + r.groupLabel
              && r.permissions[j].permission == opts.formatPermission(AutoDiscoverContext(actions[j], slug, source))
  {
    var groupLabel := opts.formatGroupLabel(slug, source);
    PermissionGroup(groupLabel, ItemsFor(actions, slug, source, groupLabel, opts.formatPermission))
  }

  /** The slugs that get a group: non-empty, and not the skipped one. */
  function Discoverable(slugs: seq<string>, skip: Option<string>): seq<string>
  {
    Filter((s: string) => s != "" && skip != Some(s), slugs)
  }

  /** When every slug is non-empty and none is skipped, every slug is discoverable, in order. */
  lemma AllDiscoverable(slugs: seq<string>, skip: Option<string>)
    requires forall i :: 0 <= i < |slugs| ==> slugs[i] != "" && skip != Some(slugs[i])
    ensures Discoverable(slugs, skip) == slugs
  {
    FilterKeepsAllIff((s: string) => s != "" && skip != Some(s), slugs);
  }

  /** The loop over one kind of resource: `continue` past empty or skipped slugs, push a group otherwise. */
  function DiscoverGroups(slugs: seq<string>, skip: Option<string>, source: AutoDiscoverSource,
                          actions: seq<string>, opts: ResolvedOptions): (r: seq<PermissionGroup>)
    ensures |r| == |Discoverable(slugs, skip)|
    ensures forall i :: 0 <= i < |r| ==> r[i] == GroupFor(Discoverable(slugs, skip)[i], source, actions, opts)
  {
    if |slugs| == 0 then []
    else if slugs[0] == "" || skip == Some(slugs[0]) then DiscoverGroups(slugs[1..], skip, source, actions, opts)
    else [GroupFor(slugs[0], source, actions, opts)] + DiscoverGroups(slugs[1..], skip, source, actions, opts)
  }

  /** The collection slugs that get a group. */
  function CollectionsToDiscover(config: Config, rolesCollectionSlug: string, opts: ResolvedOptions): seq<string>
  {
    if !opts.collections then []
    else Discoverable(CollectionSlugs(config.collections),
                      if opts.includeRolesCollection then None else Some(rolesCollectionSlug))
  }

  /** The global slugs that get a group; the roles flag never applies to globals. */
  function GlobalsToDiscover(config: Config, opts: ResolvedOptions): seq<string>
  {
    if !opts.globals then [] else Discoverable(GlobalSlugs(config.globals), None)
  }

  /**
   `createAutoPermissionGroups`: nothing when the setting is falsy; otherwise
   one group per discoverable collection, in schema order, then one per
   discoverable global, each crossed with its kind's action list.
   */
  function CreateAutoPermissionGroups(config: Config, rolesCollectionSlug: string, setting: AutoDiscover)
    : (r: seq<PermissionGroup>)
    ensures setting.Off? ==> r == []
    ensures !setting.Off? ==>
              var opts := NormalizeAutoDiscoverOptions(setting);
              var cs := CollectionsToDiscover(config, rolesCollectionSlug, opts);
              var gs := GlobalsToDiscover(config, opts);
              && |r| == |cs| + |gs|
              && (forall i :: 0 <= i < |cs| ==> r[i] == GroupFor(cs[i], CollectionSource, opts.collectionActions, opts))
              && (forall i :: |cs| <= i < |r| ==> r[i] == GroupFor(gs[i - |cs|], GlobalSource, opts.globalActions, opts))
  {
    if setting.Off? then []
    else
      AutoGroups(config, rolesCollectionSlug, NormalizeAutoDiscoverOptions(setting))
  }

  /** Both loops under resolved options: the collection groups, then the global groups. */
  function AutoGroups(config: Config, rolesCollectionSlug: string, opts: ResolvedOptions): (r: seq<PermissionGroup>)
    ensures var cs := CollectionsToDiscover(config, rolesCollectionSlug, opts);
            var gs := GlobalsToDiscover(config, opts);
            && |r| == |cs| + |gs|
            && (forall i :: 0 <= i < |cs| ==> r[i] == GroupFor(cs[i], CollectionSource, opts.collectionActions, opts))
            && (forall i :: |cs| <= i < |r| ==> r[i] == GroupFor(gs[i - |cs|], GlobalSource, opts.globalActions, opts))
  {
    CollectionGroups(config, rolesCollectionSlug, opts) + GlobalGroups(config, opts)
  }

  /** The first loop: a group per discoverable collection, when collections are enabled. */
  function CollectionGroups(config: Config, rolesCollectionSlug: string, opts: ResolvedOptions)
    : (r: seq<PermissionGroup>)
    ensures var cs := CollectionsToDiscover(config, rolesCollectionSlug, opts);
            && |r| == |cs|
            && forall i :: 0 <= i < |cs| ==> r[i] == GroupFor(cs[i], CollectionSource, opts.collectionActions, opts)
  {
    if opts.collections then
      DiscoverGroups(CollectionSlugs(config.collections),
                     if opts.includeRolesCollection then None else Some(rolesCollectionSlug),
                     CollectionSource, opts.collectionActions, opts)
    else []
  }

  /** The second loop: a group per discoverable global, when globals are enabled. */
  function GlobalGroups(config: Config, opts: ResolvedOptions): (r: seq<PermissionGroup>)
    ensures var gs := GlobalsToDiscover(config, opts);
            && |r| == |gs|
            && forall i :: 0 <= i < |gs| ==> r[i] == GroupFor(gs[i], GlobalSource, opts.globalActions, opts)
  {
    if opts.globals then DiscoverGroups(GlobalSlugs(config.globals), None, GlobalSource, opts.globalActions, opts)
    else []
  }

  /**
   With `includeRolesCollection: false` no collection group comes from the
   roles slug, while a global with that slug still gets its group.
   */
  lemma RolesSkippedOnlyAmongCollections(config: Config, rolesCollectionSlug: string, options: AutoDiscoverOptions)
    requires options.includeRolesCollection == Some(false)
    ensures rolesCollectionSlug !in CollectionsToDiscover(config, rolesCollectionSlug,
                                                           NormalizeAutoDiscoverOptions(WithOptions(options)))
    ensures var opts := NormalizeAutoDiscoverOptions(WithOptions(options));
            opts.globals && rolesCollectionSlug != "" && rolesCollectionSlug in GlobalSlugs(config.globals) ==>
              rolesCollectionSlug in GlobalsToDiscover(config, opts)
  {
  }

  /** Under the default formatters, the items of a group carry `action:E` or `action:Global:E`. */
  lemma DefaultItems(slug: string, source: AutoDiscoverSource, actions: seq<string>)
    ensures var g := GroupFor(slug, source, actions, NormalizeAutoDiscoverOptions(On));
            var e := EntityName(slug);
            && g.groupLabel == (if source == CollectionSource then e else "Global " + e)
            && |g.permissions| == |actions|
            && forall j :: 0 <= j < |actions| ==>
                 g.permissions[j].permission
                 == actions[j] + (if source == CollectionSource then ":" else ":Global:") + e
  {
    var opts := NormalizeAutoDiscoverOptions(On);
    var g := GroupFor(slug, source, actions, opts);
    forall j | 0 <= j < |actions|
      ensures g.permissions[j].permission
              == actions[j] + (if source == CollectionSource then ":" else ":Global:") + EntityName(slug)
    {
      var ctx := AutoDiscoverContext(actions[j], slug, source);
      assert g.permissions[j].permission == opts.formatPermission(ctx);
      assert opts.formatPermission(ctx) == DefaultPermissionFormatter(ctx);
    }
    assert g.groupLabel == DefaultGroupLabelFormatter(slug, source);
  }

  /** With the defaults, a collection's permissions are the four CRUD strings of its entity. */
  lemma DefaultCollectionPermissions(slug: string)
    ensures var g := GroupFor(slug, CollectionSource, DefaultCollectionActions, NormalizeAutoDiscoverOptions(On));
            var e := EntityName(slug);
            && g.groupLabel == e
            && PermissionStrings(g.permissions) == ["Create:" + e, "Read:" + e, "Update:" + e, "Delete:" + e]
  {
    DefaultItems(slug, CollectionSource, DefaultCollectionActions);
    var g := GroupFor(slug, CollectionSource, DefaultCollectionActions, NormalizeAutoDiscoverOptions(On));
    var e := EntityName(slug);
    var ps := PermissionStrings(g.permissions);
    CrudPrefixes();
    assert ps[0] == "Create:" + e;
    assert ps[1] == "Read:" + e;
    assert ps[2] == "Update:" + e;
    assert ps[3] == "Delete:" + e;
  }

  /** The CRUD prefixes as single literals, proved apart so the callers stay small. */
  lemma CrudPrefixes()
    ensures "Create" + ":" == "Create:" && "Read" + ":" == "Read:"
    ensures "Update" + ":" == "Update:" && "Delete" + ":" == "Delete:"
  {
  }

  /** With the defaults, a global's label is `Global E` and its permissions are read and update of `Global:E`. */
  lemma DefaultGlobalPermissions(slug: string)
    ensures var g := GroupFor(slug, GlobalSource, DefaultGlobalActions, NormalizeAutoDiscoverOptions(On));
            var e := EntityName(slug);
            && g.groupLabel == "Global " + e
            && PermissionStrings(g.permissions) == ["Read:Global:" + e, "Update:Global:" + e]
  {
    DefaultItems(slug, GlobalSource, DefaultGlobalActions);
    var g := GroupFor(slug, GlobalSource, DefaultGlobalActions, NormalizeAutoDiscoverOptions(On));
    var e := EntityName(slug);
    var ps := PermissionStrings(g.permissions);
    GlobalPrefixes();
    assert ps[0] == "Read:Global:" + e;
    assert ps[1] == "Update:Global:" + e;
  }

  /** The global prefixes as single literals, proved apart so the callers stay small. */
  lemma GlobalPrefixes()
    ensures "Read" + ":Global:" == "Read:Global:"
    ensures "Update" + ":Global:" == "Update:Global:"
  {
  }
}
