/** Values shared by the handler, plugin and dispatch models. */
module Values {

  datatype Option<T> = None | Some(value: T)

  /**
    A request or response struct, seen as its fields: field name to field
    text. A field that is absent holds its zero value, so the empty map is
    the zero value of every struct (what `reflect.New` points to and what
    `reflect.Zero` returns). A field present with its zero text, as in
    map["message" := ""], is the same Go struct but a different map, so
    `== Zero` is stricter than Go's zero-value test; only the response reset
    writes Zero, and it writes this canonical form.
   */
  type Value = map<string, string>

  const Zero: Value := map[]

  /** The text of field `f`, or "" (the zero string) when it is absent. */
  function Field(v: Value, f: string): string
  {
    if f in v then v[f] else ""
  }
}
