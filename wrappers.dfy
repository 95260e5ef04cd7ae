/** An optional value, for a regex that may not match, a page that may
    have no text layer and a report draft that may not exist yet. */
module Wrappers {

  datatype Option<+T> = None | Some(value: T)
}
