/** The "value or nothing" type the engine and the scan panel use where the
    source keeps `null` in a field. */
module Optional {
  datatype Option<+T> = None | Some(value: T)
}
