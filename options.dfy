/** The JavaScript `undefined`-or-value idiom used by the bridge's globals. */
module Options {

  datatype Option<+T> = None | Some(value: T)
}
