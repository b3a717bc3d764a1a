# payload-plugin-rbac-ui in Dafny

A Dafny model of the RBAC UI plugin for the Payload admin panel. The plugin
does three things, and the model proves properties of each:

- **Permission engine.** It derives permission groups from the host schema,
  merges them with hand-written groups by label, and flattens them into an
  allow-list. It then validates the stored permission array of a role against
  that allow-list.
- **Configuration transform.** It finds the roles collection, and fails when
  that collection is missing or when no group is resolved. It then inserts or
  overwrites the permissions field of the roles collection and leaves every
  other collection as it was.
- **Matrix editor.** The editor toggles one permission or a whole group in the
  stored string array, and shows a three-state checkbox per group.

Modules, leaf first:

| module | file | content |
|---|---|---|
| `Basics` | basics.dfy | `Option` (with `GetOr`, JavaScript's `??`) and `Result` (an `Err` carries the thrown message) |
| `Seqs` | seqs.dfy | a JavaScript `Set` filled with `add` and spread into an array (`Add`, `AddAll`, `Dedup`), `filter`, `join`, substring search |
| `OrderedMaps` | ordered_maps.dfy | a JavaScript `Map` as insertion-ordered entries; `Summary` is the map a run of `set` calls builds, stated without replaying them |
| `PermissionTypes` | permission_types.dfy | `PermissionItem`, `PermissionGroup`, and the permission strings a group list grants |
| `JsValues` | js_values.dfy | the untyped value of a JSON field, distinguished as far as `null`, `undefined`, `typeof 'string'` and `Array.isArray` do |
| `Validation` | validation.dfy | `validatePermissionArray`, `coerceStringArray` |
| `PermissionSets` | permission_sets.dfy | `flattenPermissionGroups` |
| `Naming` | naming.dfy | `singularize`, `toPascalCase`, the default formatters |
| `HostConfig` | host_config.dfy | collections, globals, fields and a field's `admin` object |
| `AutoDiscovery` | auto_discovery.dfy | `normalizeAutoDiscoverOptions`, `createAutoPermissionGroups` |
| `GroupMerge` | group_merge.dfy | `mergePermissionGroups` |
| `Plugin` | plugin.dfy | `resolveDescription`, `configureRolesCollection`, `rbacUIPlugin` |
| `PermissionsMatrix` | matrix.dfy | the pure logic of `PermissionsMatrixField` |
| `Scenarios` | scenarios.dfy | the repository's test expectations, proved on the same inputs |

Modelling choices:

- **Ordering.** A JavaScript `Set` or `Map` becomes a sequence without
  duplicate keys, because iteration order matters here. `Dedup` is
  `[...new Set(xs)]`, with its first-seen order proved. A `Map.set` on a key
  that is already present keeps that key's position.
- **The merge.** `mergePermissionGroups` is modelled as the loop the source
  runs (`MergeAll`). It is proved equal to a per-label reference definition:
  - labels appear in first-seen order;
  - under a label, the permission strings appear in first-seen order;
  - each string is carried by the last item filed with it.
- **PascalCase.** `toPascalCase` keeps the source's pipeline: split on runs of
  `[-_\s/]`, drop empty parts, capitalise each part, join. The pipeline is
  proved equal to a character-by-character reading (`PascalChars`).
  - `\s` is the ECMAScript set of white-space and line-terminator characters.
  - Upper-casing covers ASCII letters only.
- **Missing slugs.** A collection or global without a slug has the empty slug
  `""`. Auto-discovery skips it, as the source's `!slug` tests skip a missing
  or empty slug. The plugin's strict slug comparisons can tell the two apart;
  see "## Left out".
- **Formatters and the hook.** The caller-supplied formatters and the
  `onConfigureRolesCollection` hook are function-typed option fields. Their
  bodies are never inspected.
- **The validator** is represented by the allow-list it closes over.
- **The plugin transform** is the inner function
  `(incomingConfig) => Config`. A throw becomes `Err(message)`, carrying the
  exact message text.

Where the specification and the code differ, the model follows the code:

- **The `ses` rule.** `singularize` removes the last two characters of a
  `ses` suffix (`statuses` becomes `status`; src/lib/permissions.ts:48). It
  does not just drop the trailing `s`.
- **Empty groups.** A group with no permissions shows as checked, because
  `selectedCount === groupPermissions.length` holds at 0
  (src/components/PermissionsMatrixField.tsx:70-71). It is not unchecked.
- **The hook.** When the permissions field is absent and
  `ensurePermissionsField` is `false`, the collection is returned before the
  post-processing hook would run (src/index.ts:59). So the hook does not see
  every roles collection.
- **Options type.** `src/types.ts` declares neither the `autoDiscover` option
  nor the auto-discovery types that `src/lib/permissions.ts` imports. The
  model reconstructs them from their use in src/lib/permissions.ts:53-83.

## Model

| member | source | states |
|---|---|---|
| Seqs.Add | src/lib/permissions.ts:9 | `Set.add`: the value is present afterwards and nothing else is added; existing values keep their places; no duplicates are introduced |
| Seqs.Dedup | src/lib/permissions.ts:5-13 | `[...new Set(xs)]`: no duplicates, exactly the values of `xs`, never longer |
| Seqs.DistinctCardinality | src/components/PermissionsMatrixField.tsx:65 | a sequence without duplicates has as many elements as its set of values |
| Seqs.DedupCardinality | src/components/PermissionsMatrixField.tsx:65 | the de-duplicated sequence is as long as the number of distinct values, which is what `Set.size` reports |
| Seqs.DedupKeepsFirstSeenOrder | src/lib/permissions.ts:5-13 | the spread set lists values in the order of their first occurrence in the input |
| Seqs.Filter | src/lib/permissions.ts:23-25 | `filter`: keeps exactly the elements that pass, never lengthens |
| Seqs.FilterKeepsAllIff | src/components/PermissionsMatrixField.tsx:70-71 | filtering keeps the full length exactly when every element passes, and then changes nothing |
| Seqs.FilterKeepsNoneIff | src/components/PermissionsMatrixField.tsx:70-72 | filtering keeps nothing exactly when no element passes |
| Seqs.FilterMultiplicity | src/components/PermissionsMatrixField.tsx:32 | a passing value keeps its number of copies; a failing value loses all of them |
| Seqs.JoinedPartOccurs | src/lib/permissions.ts:28 | every part of `parts.join(sep)` occurs in the joined text |
| OrderedMaps.Get | src/lib/permissions.ts:141 | `map.get` finds a value exactly for a present key, and it is the stored one |
| OrderedMaps.Set | src/lib/permissions.ts:143 | `map.set` adds the key as `Set.add` would (an existing key keeps its position); the key takes the new value and every other value stays |
| OrderedMaps.SetAllIsSummary | src/lib/permissions.ts:142-144 | setting entries into an empty map gives each key once, in first-seen order, holding the value of its last entry |
| OrderedMaps.SetAllOnSummary | src/lib/permissions.ts:141-145 | continuing to set entries into such a map gives the summary of the concatenated run |
| PermissionTypes.AllPermissionStringsGrants | src/lib/permissions.ts:7-11 | the scan over groups and then items meets exactly the permission strings the groups grant |
| PermissionSets.FlattenPermissionGroups | src/lib/permissions.ts:4-14 | the allow-list has no duplicates, holds exactly the granted strings, and is their first-seen de-duplication when scanning groups and then items |
| PermissionSets.AddGroups | src/lib/permissions.ts:4-14 | the nested loop adds the same strings as one `add` per string of the flattened scan |
| Validation.Offending | src/lib/permissions.ts:23-25 | the collected elements are exactly those that are not allowed strings; none are collected exactly when every element passes |
| Validation.ValidatePermissionArray | src/lib/permissions.ts:16-32 | `null` and `undefined` pass; a non-array fails with the fixed message; an array passes exactly when every element is an allowed string, and otherwise the message starts with `Invalid permissions found: ` |
| Validation.MessageNamesOffender | src/lib/permissions.ts:23-29 | an array holding a string that is not allowed fails, and the message contains that string |
| Validation.ValidateStrings | src/lib/permissions.ts:20-31 | an array of strings passes exactly when each string is on the allow-list |
| Validation.StringElements | src/lib/permissions.ts:36 | the kept elements are the input's string elements, in input order with every copy (the input filtered for strings), so a string is kept exactly when it occurs |
| Validation.CoerceStringArray | src/lib/permissions.ts:34-37 | a non-array becomes `[]`; an array becomes its string elements, in order with every copy, and nothing else |
| Validation.CoerceStrArray | src/lib/permissions.ts:34-37 | an array of strings coerces back to exactly those strings, in order |
| Validation.CoerceIdempotent | src/lib/permissions.ts:34-37 | coercing an already coerced value changes nothing |
| Naming.Upper | src/lib/permissions.ts:43 | `toUpperCase` on one character: a lower-case ASCII letter becomes the upper-case letter at the same place in the alphabet, and everything else is unchanged |
| Naming.FirstSeparator | src/lib/permissions.ts:41 | the end of the first part of the split: no separator before it, a separator at it |
| Naming.DropSeparators | src/lib/permissions.ts:41 | skips the whole run of separators the pattern's `+` consumes: every skipped character is a separator, and what remains is a suffix that does not start with one |
| Naming.PascalChars | src/lib/permissions.ts:39-44 | the PascalCase reading has no separators and one character per non-separator of the input |
| Naming.ToPascalCase | src/lib/permissions.ts:39-44 | the split/filter/capitalise/join pipeline equals the character-level reading, so it has no separators and one character per non-separator |
| Naming.PascalCaseIsCharLevel | src/lib/permissions.ts:39-44 | the pipeline and the character-level reading agree on every input |
| Naming.PlainWordPascal | src/lib/permissions.ts:43 | a word without separators is only capitalised |
| Naming.TwoWordPascal | src/lib/permissions.ts:39-44 | two words around one separator become both words capitalised and run together |
| Naming.Singularize | src/lib/permissions.ts:46-51 | `ies` becomes `y`; `ses` loses its last two characters; `ss` is left alone; any other trailing `s` is dropped; a slug not ending in `s` is left alone. Never lengthens and shortens by at most two |
| Naming.SingularizeUndoesPluralize | src/lib/permissions.ts:46-51 | singularising undoes regular English pluralisation for every word not ending in `ie` or `se` |
| Naming.SingularizeMisreadsIeAndSe | src/lib/permissions.ts:47-48 | the excluded words really are misread: `movies` becomes `movy` and `courses` becomes `cours` |
| Naming.EntityName | src/lib/permissions.ts:54 | the entity name of a slug has no separators and is never longer than the slug |
| Naming.DefaultPermissionFormatter | src/lib/permissions.ts:53-57 | a collection's permission is `action:E`, a global's `action:Global:E`, where `E` is the slug's entity name; never longer than the action plus eight plus the slug |
| Naming.DefaultGroupLabelFormatter | src/lib/permissions.ts:59-68 | a collection's label is its entity name, a global's is `Global ` followed by it; never longer than the slug plus seven |
| Naming.PascalCaseOfWord | src/lib/permissions.ts:39-44 | a string without separators goes through the pipeline as one capitalised word |
| Naming.SplitStepJoin | src/lib/permissions.ts:41-44 | the pipeline capitalises the text before the first separator and continues after the separator run |
| Naming.SplitStepChars | src/lib/permissions.ts:41-44 | the character-level reading takes the same step at the first separator |
| Naming.DefaultFormattersAgree | src/lib/permissions.ts:53-68 | a collection's permission is `action:` plus its label; a global's label is `Global E` and its permission `action:Global:E` for the same entity `E` |
| Naming.ActionReadsBack | src/lib/permissions.ts:55-56 | the action can be read back from a default permission string when it contains no `:` |
| AutoDiscovery.NormalizeAutoDiscoverOptions | src/lib/permissions.ts:70-84 | `true` gets every default; in an options object each given option wins and each missing one takes its default |
| AutoDiscovery.GroupFor | src/lib/permissions.ts:105-129 | the group of one resource: labelled by the label formatter, one item per action in action order, each with the formatter's permission string and described as `action label` |
| AutoDiscovery.ItemsFor | src/lib/permissions.ts:108-112 | one item per action, in action order, described as `action label`, with the formatter's permission string |
| AutoDiscovery.DiscoverGroups | src/lib/permissions.ts:101-114 | the loop yields one group per discoverable slug, in schema order |
| AutoDiscovery.AllDiscoverable | src/lib/permissions.ts:102-103 | when no slug is empty or skipped, every slug is discovered, in order |
| AutoDiscovery.CreateAutoPermissionGroups | src/lib/permissions.ts:86-134 | a falsy setting yields nothing; otherwise it yields one group per discoverable collection, then one per discoverable global, each crossed with its kind's actions |
| AutoDiscovery.AutoGroups | src/lib/permissions.ts:97-133 | under resolved options, the collection groups come first and then the global groups |
| AutoDiscovery.CollectionGroups | src/lib/permissions.ts:100-115 | a group per collection that is not empty and not skipped, when collections are enabled |
| AutoDiscovery.GlobalGroups | src/lib/permissions.ts:117-131 | a group per global that is not empty, when globals are enabled |
| AutoDiscovery.RolesSkippedOnlyAmongCollections | src/lib/permissions.ts:100-131 | with `includeRolesCollection: false` the roles slug gets no collection group, while a global with that slug still gets one |
| AutoDiscovery.DefaultItems | src/lib/permissions.ts:105-128 | with the defaults, a group is labelled `E` or `Global E`, and its permissions are `action:E` or `action:Global:E`, one per action |
| AutoDiscovery.DefaultCollectionPermissions | src/lib/permissions.ts:105-112 | with the defaults, a collection's permissions are the four CRUD strings of its entity |
| AutoDiscovery.DefaultGlobalPermissions | src/lib/permissions.ts:121-128 | with the defaults, a global's permissions are read and update of `Global:E` |
| GroupMerge.MergePermissionGroups | src/lib/permissions.ts:136-153 | labels are unique and in first-seen order; under each label the permission strings are the first-seen de-duplication of every string filed under it; each string is carried by the last item filed with it |
| GroupMerge.MergeGroup | src/lib/permissions.ts:140-146 | one pass of the loop body: the group's label is added as `Map.set` adds a key, every other label keeps its items, and the label's items are its earlier items with the group's items set on top |
| GroupMerge.MergeAll | src/lib/permissions.ts:139-147 | the loop over all groups: the labels are those already present followed by the new input labels in first-seen order |
| GroupMerge.MergePairLabels | src/lib/permissions.ts:136-153 | merging two lists keeps exactly the labels of either list |
| GroupMerge.GroupsOf | src/lib/permissions.ts:149-152 | one group per map entry, in map order, with the items in their map's order |
| GroupMerge.MergeAllIsReference | src/lib/permissions.ts:137-147 | the loop over all groups builds the per-label reference map |
| GroupMerge.ReferenceSnoc | src/lib/permissions.ts:140-146 | one more group changes the reference exactly as one pass of the loop body does |
| GroupMerge.MergeEmptyIff | src/lib/permissions.ts:136-153 | the merge of two lists is empty exactly when both lists are |
| GroupMerge.LastOccurrenceUnique | src/lib/permissions.ts:143 | two items that are both last for the same permission string are the same item |
| GroupMerge.MergedCarriesLast | src/lib/permissions.ts:141-145 | the last item filed under a label for a string is the item the merged group holds for it |
| GroupMerge.ManualItemWins | src/index.ts:98 | merged as `(auto, manual)`, the last manual item for a label and string is the item the result carries |
| GroupMerge.MergeKeepsGrants | src/lib/permissions.ts:136-153 | the merge grants exactly the permission strings its inputs grant |
| GroupMerge.MergedGroupHasFiled | src/lib/permissions.ts:136-153 | every permission filed under a label survives in that label's merged group |
| GroupMerge.SoleGroupKeepsStrings | src/lib/permissions.ts:136-153 | a label used by one group whose strings are distinct keeps that group's strings in order |
| Plugin.MessagesDiffer | src/index.ts:89-103 | the missing-roles message and the zero-groups message never coincide |
| Plugin.ResolveDescription | src/index.ts:14-19 | an absent or empty-string description becomes `Select permissions for this role`; any other is kept; the result is never the empty string |
| Plugin.FindFieldIndex | src/index.ts:36-39 | `findIndex`: the first field with the name, or `-1` exactly when none has it |
| Plugin.FieldPatch | src/index.ts:32-56 | the patch is a `json` field under the configured name (`permissions` by default), with exactly the admin keys `description`, `custom` and `components`; the description is never empty, `custom` carries the groups, the component path defaults to the package's matrix component, and the validator closes over the allow-list |
| Plugin.OverlayField | src/index.ts:62-70 | name, type and validator come from the patch; admin keys merge one level deep with the patch winning; other admin and top-level keys stay |
| Plugin.OverlayIdempotent | src/index.ts:62-70 | overlaying the same patch twice is overlaying it once |
| Plugin.ConfigureRolesCollection | src/index.ts:21-79 | an absent field with creation off leaves the collection as it was, hook included; otherwise an absent field is appended and a present one is overlaid in place, with the other fields unchanged; a hook post-processes exactly that result |
| Plugin.InjectedField | src/index.ts:41-71 | after configuration the first field with the name is a `json` field carrying the description, the groups, the component path and the allow-list validator |
| Plugin.ConfigureIdempotent | src/index.ts:21-79 | without a hook, configuring a configured collection again changes nothing |
| Plugin.ConfigureAgainAppended | src/index.ts:58-71 | after the field was appended, configuring again finds it at the end and leaves it as it is |
| Plugin.ConfigureAgainOverlaid | src/index.ts:58-71 | after the field was overlaid, configuring again finds it at the same place and leaves it as it is |
| Plugin.ConfigurePatchedField | src/index.ts:58-71 | a collection whose first field with the name already carries the patch is configured to itself |
| Plugin.ConfigureKeepsSlug | src/index.ts:73-78 | without a hook, configuring keeps the collection's slug |
| Plugin.ResolvedGroups | src/index.ts:92-98 | the resolved groups are empty exactly when both the discovered and the manual groups are; labels are unique and are exactly those of either input |
| Plugin.RbacUIPlugin | src/index.ts:81-122 | fails with the missing-roles message exactly when no collection has the roles slug; then fails with the zero-groups message exactly when neither auto-discovery nor the manual groups yield a group; succeeds whenever the roles collection exists and some group is resolved; on success every roles collection is configured and every other collection, and the globals, stay unchanged and in order |
| Plugin.RewriteCollections | src/index.ts:108-120 | the map over collections keeps their count and rewrites exactly those with the roles slug |
| Plugin.ValidatorAcceptsGranted | src/index.ts:55 | the injected validator accepts an array of strings exactly when each one is granted by a resolved group |
| Plugin.AllowListIsInputGrants | src/index.ts:92-106 | the allow-list holds exactly the permissions granted by the auto-discovered or the manual groups |
| Plugin.AutoGroupsReadSlugsOnly | src/index.ts:93-97 | auto-discovery depends only on the collection slugs and the globals |
| Plugin.PluginKeepsSlugs | src/index.ts:108-120 | without a hook, the output has the input's collection slugs, in order |
| Plugin.OutputResolvesSameGroups | src/index.ts:108-120 | without a hook, the output keeps every collection slug and so resolves the same groups |
| Plugin.PluginIdempotent | src/index.ts:81-122 | without a hook, running the plugin on its own output gives that output again |
| Plugin.PluginAcceptsOwnOutput | src/index.ts:84-104 | without a hook, the plugin's output passes both of its checks again |
| Plugin.PluginOutputIsRewrite | src/index.ts:106-120 | a successful run returns the collections rewritten with the resolved groups and the globals as they were |
| Plugin.RewriteIdempotent | src/index.ts:110-119 | without a hook, rewriting the rewritten collections changes nothing |
| PermissionsMatrix.ReadPermissionGroups | src/components/PermissionsMatrixField.tsx:15-19 | the groups under `admin.custom.rbac`, or none when they are absent |
| PermissionsMatrix.EditorReadsInjectedGroups | src/components/PermissionsMatrixField.tsx:15-19 | the editor of a configured permissions field reads exactly the groups the plugin injected |
| PermissionsMatrix.SafeValue | src/components/PermissionsMatrixField.tsx:26 | the selection is `[]` for a stored value that is not an array, and otherwise the value's string elements in order with every copy |
| PermissionsMatrix.SelectedTotal | src/components/PermissionsMatrixField.tsx:65 | the count equals the number of distinct selected permissions (`Set.size`); never more than the selection's length, equal to it when there are no duplicates, zero exactly for the empty selection |
| PermissionsMatrix.TogglePermission | src/components/PermissionsMatrixField.tsx:29-38 | flips the one permission and no other; removal keeps the rest in order; adding appends at the end |
| PermissionsMatrix.ToggleCounts | src/components/PermissionsMatrixField.tsx:31-33 | every other permission keeps its number of copies, and removal leaves no copy behind |
| PermissionsMatrix.ToggleTwiceRestores | src/components/PermissionsMatrixField.tsx:29-38 | selecting and then deselecting a permission restores the selection |
| PermissionsMatrix.ToggleGroup | src/components/PermissionsMatrixField.tsx:40-52 | a fully selected group is removed, with the rest kept in order; otherwise the result has no duplicates, is the union with the group, and extends a duplicate-free selection |
| PermissionsMatrix.ToggleGroupFirstSeenOrder | src/components/PermissionsMatrixField.tsx:47 | adding a group lists each value at its first occurrence in the old selection followed by the group |
| PermissionsMatrix.ToggleGroupCounts | src/components/PermissionsMatrixField.tsx:46 | removing a group keeps the number of copies of every permission outside it |
| PermissionsMatrix.ToggleGroupAppendsGroupOnly | src/components/PermissionsMatrixField.tsx:47 | adding a group to a duplicate-free selection appends only permissions of the group |
| PermissionsMatrix.ToggleGroupTwiceFromClear | src/components/PermissionsMatrixField.tsx:40-52 | toggling a group twice, starting with none of it selected, restores the selection |
| PermissionsMatrix.SelectedCount | src/components/PermissionsMatrixField.tsx:70 | never more than the group's size |
| PermissionsMatrix.GroupState | src/components/PermissionsMatrixField.tsx:69-72 | checked exactly when every permission of the group is selected (so an empty group is checked); clear exactly when a non-empty group has none selected |
| PermissionsMatrix.IndeterminateIffMixed | src/components/PermissionsMatrixField.tsx:71-72 | indeterminate exactly when some permissions of the group are selected and some are not |
| PermissionsMatrix.ToggleGroupSettles | src/components/PermissionsMatrixField.tsx:40-72 | after a group toggle the checkbox is checked (after adding) or clear (after removing a non-empty group) |
| Scenarios.FlattenDeduplicates | tests/permissions.spec.ts:5-21 | the two user groups flatten to `Read:User`, `Create:User` |
| Scenarios.ValidateAcceptsAndRejects | tests/permissions.spec.ts:23-30 | an allowed array and `null` pass; a bare string gets the non-array message |
| Scenarios.ValidateNamesUnknownPermission | tests/permissions.spec.ts:32-34 | an array with `Delete:User` fails with a message containing `Invalid permissions found` and `Delete:User` |
| Scenarios.InjectsPermissionsField | tests/plugin.spec.ts:16-42 | the existing `permissions` field stays a `json` field and gets the matrix component |
| Scenarios.InjectedValidatorChecksAllowList | tests/plugin.spec.ts:44-46 | the injected validator accepts `Read:User` and rejects `Delete:User` |
| Scenarios.MissingRolesCollection | tests/plugin.spec.ts:49-59 | without a `roles` collection the plugin fails with `rbacUIPlugin could not find roles collection: "roles"` |
| Scenarios.PostsEntity | tests/plugin.spec.ts:78 | `posts` names the entity `Post` |
| Scenarios.SiteSettingsEntity | tests/plugin.spec.ts:79 | `site-settings` names the entity `SiteSetting` |
| Scenarios.ExampleDiscovery | tests/plugin.spec.ts:61-70 | auto-discovery on `roles`, `posts` (and `site-settings`) visits both collections, then the global |
| Scenarios.ExampleAutoGroups | tests/plugin.spec.ts:61-93 | the discovered groups are `Role`, `Post` with CRUD, and `Global SiteSetting` with read and update |
| Scenarios.AutoDiscoversCollectionsAndGlobals | tests/plugin.spec.ts:61-94 | the editor of the injected field finds the `Post` CRUD group and the `Global SiteSetting` read/update group |
| Scenarios.PostGroupsMerge | tests/plugin.spec.ts:96-130 | a discovered CRUD `Post` group and a manual `Publish:Post` group merge into one group carrying all five strings |
| Scenarios.MergesAutoAndManualGroups | tests/plugin.spec.ts:96-130 | the editor finds all five permissions in the merged `Post` group |

## Left out

- React rendering (JSX, styles, `useField`, `useMemo`, `useCallback`, the `indeterminate` DOM ref) is UI. Only the toggle rules, the count and the three-state computation are modelled.
- The asynchronous `Plugin` wrapper of the host framework is not modelled. The transform is the synchronous function it wraps.
- The host framework's `Config` and `CollectionConfig` types are reduced to the keys the plugin reads and writes. Other admin settings are opaque values. Other top-level field keys are an opaque string map.
- Caller-supplied `formatPermission`, `formatGroupLabel` and `onConfigureRolesCollection` are arbitrary functions. They appear as function values and nothing is assumed about them.
- `toUpperCase` is modelled for ASCII letters only. Full Unicode case mapping is not modelled.
- JavaScript's dynamic typing is reduced to five kinds of value: `undefined`, `null`, string, array and anything else. `Array.prototype.join` writes an element that is neither string nor array through the text it would print (`Other.shown`).
- `tsup.config.ts` is packaging only. The re-exports of src/index.ts:124-139 add no behaviour.
- Validation.ValidatePermissionArray: the failure message's full layout is not stated as one equation. The contract states its fixed prefix, and Validation.MessageNamesOffender states that it names every string that is not allowed.
- Plugin.OutputResolvesSameGroups: needs the hook to be absent, because a hook may change a collection's slug.
- Plugin.PluginIdempotent: needs the hook to be absent, because a hook need not be idempotent.
- Plugin.ConfigureIdempotent: needs the hook to be absent, for the same reason.
- Plugin.RewriteIdempotent, Plugin.PluginAcceptsOwnOutput, Plugin.PluginKeepsSlugs, Plugin.ConfigureKeepsSlug: need the hook to be absent, for the same reasons.
- Plugin.RbacUIPlugin: a collection without a slug has the empty slug `""`, so the model cannot tell a missing slug from an empty one. The `!slug` tests at src/lib/permissions.ts:102 and :119 treat both alike, so auto-discovery is exact. The strict comparisons at src/index.ts:87 and :111 do not. With `rolesCollectionSlug: ""` and a collection that has no slug, the source throws the missing-roles error (`undefined === ""` is false). The model instead takes that collection as the roles collection and configures it. Every roles slug other than `""` behaves as in the source.
- PermissionsMatrix.ToggleTwiceRestores: starts from an unselected permission only. Deselecting a permission removes every copy, so selecting it again does not restore a selection that held duplicates.
- PermissionsMatrix.ToggleGroupTwiceFromClear: starts from a duplicate-free selection with none of a non-empty group selected. Adding a group de-duplicates the whole selection, so other starting points are not restored.
