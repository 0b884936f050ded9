/** Optional values: a missing spreadsheet cell, an unparsed timestamp, a null duration. */
module Options {

  datatype Option<+T> = None | Some(value: T)
}
