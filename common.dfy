/** Values shared by every module: optional values and the JavaScript
    conventions the application relies on for optional strings. */
module Common {

  datatype Option<+T> = None | Some(value: T)

  /** JavaScript truthiness of an optional string field: present and non-empty. */
  predicate Truthy(o: Option<string>)
  {
    o.Some? && o.value != ""
  }

  /** `o || d` on an optional string field. */
  function OrElse(o: Option<string>, d: string): string
  {
    if Truthy(o) then o.value else d
  }

  /** Template-literal interpolation `${o}` of an optional string field:
      an absent field is rendered as the text "undefined". */
  function Show(o: Option<string>): string
  {
    if o.Some? then o.value else "undefined"
  }
}
