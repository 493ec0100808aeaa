/** What the JSON values of a body and the caller's identity stand for in a row, said without the builders. */
module JsonMeaning {
  import opened Wrappers
  import opened Catalog
  import opened SqlStatements
  import opened SqlMeaning

  /** The text fits the type, and this is its value. */
  ghost predicate IsCast<V>(I: Interp<V>, text: string, cast: string, v: Value<V>) {
    I.cast(text, cast).Some? && v == Val(I.cast(text, cast).value)
  }

  /**
   * Storing a JSON value: null is NULL, a string is its own characters cast to the column's type, without
   * quotes, and a number, a boolean, an array or an object is its serialised text cast to it.
   */
  ghost predicate Stores<V>(I: Interp<V>, j: Json, cast: string, v: Value<V>) {
    match j
    case JNull => v.Null?
    case JString(s) => IsCast(I, s, cast, v)
    case JScalar(text) => IsCast(I, text, cast, v)
    case JArray(_, text) => IsCast(I, text, cast, v)
    case JObject(_, text) => IsCast(I, text, cast, v)
  }

  lemma BoundStores<V>(I: Interp<V>, j: Json, cast: string)
    requires !j.JNull? && I.cast(BindText(j), cast).Some?
    ensures Stores(I, j, cast, CastValue(I, BindText(j), cast))
  {
  }

  /** The backend manages the owner: the caller is known, and the table has a column `user_id`. */
  predicate Managed(meta: TableMeta, user: Option<CurrentUser>) {
    user.Some? && exists i | 0 <= i < |meta.columns| :: meta.columns[i].name == "user_id"
  }
}
