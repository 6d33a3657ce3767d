/** The optional value used wherever the plugin deals with `None`. */
module Wrappers {

  datatype Option<+T> = None | Some(value: T)

  /** How Python's f-string renders an optional string: `None` prints as "None". */
  function Show(o: Option<string>): string
  {
    match o
    case None => "None"
    case Some(s) => s
  }
}
