/** Shapes shared by the product form, the category editor and the settings API
    (the interfaces of types/index.ts), plus the Option type that stands for an
    absent (`undefined`) field. */
module Common {

  datatype Option<+T> = None | Some(value: T)

  /** A category property as stored: a name and its allowed values
      (`PropertyType`). */
  datatype Property = Property(name: string, values: seq<string>)

  /** A category as the categories endpoint returns it (`CategoryWithParentType`).
      `parentId` is `parent?._id`; `properties` is absent when the record has
      no such field, which is different from an empty list. */
  datatype Category = Category(
    id: Option<string>,
    name: string,
    parentId: Option<string>,
    properties: Option<seq<Property>>)

  /** JavaScript truthiness of an optional string: absent and `''` are falsy. */
  predicate TruthyText(s: Option<string>)
  {
    s.Some? && s.value != ""
  }
}
