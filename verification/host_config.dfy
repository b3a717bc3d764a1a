/**
 The small part of the host framework's configuration the plugin reads and
 writes: collections with fields, globals, and a field's `admin` object.
 */
module HostConfig {
  import opened Basics
  import opened PermissionTypes

  /** A field description: one string, or one string per locale. */
  datatype Description = Text(text: string) | Localized(byLocale: map<string, string>)

  /**
   The values of a field's `admin` object. `custom` holds `{ rbac: { permissionGroups } }`,
   `components` holds `{ Field: path }`; any other admin setting is opaque.
   */
  datatype AdminValue =
    | DescriptionValue(description: Description)
    | RbacCustom(permissionGroups: seq<PermissionGroup>)
    | FieldComponent(path: string)
    | Setting(value: string)

  /** A field validator: the permission validator is represented by the allow-list it closes over. */
  datatype Validator = PermissionValidator(allowList: seq<string>) | HostValidator(id: string)

  /** A field: an optional name, a type tag, the `admin` object, the validator, and any other keys. */
  datatype Field = Field(
    name: Option<string>,
    fieldType: string,
    admin: map<string, AdminValue>,
    validate: Option<Validator>,
    otherKeys: map<string, string>)

  datatype Collection = Collection(slug: string, fields: seq<Field>)

  datatype GlobalConfig = GlobalConfig(slug: string)

  /** An absent `collections` or `globals` list is the empty sequence. */
  datatype Config = Config(collections: seq<Collection>, globals: seq<GlobalConfig>)

  function CollectionSlugs(cs: seq<Collection>): seq<string>
  {
    seq(|cs|, i requires 0 <= i < |cs| => cs[i].slug)
  }

  function GlobalSlugs(gs: seq<GlobalConfig>): seq<string>
  {
    seq(|gs|, i requires 0 <= i < |gs| => gs[i].slug)
  }
}
