/** An optional value, used for the browser store's absent key, for a
    function that returns `null`, and for "no navigation". */
module Options {
  datatype Option<+T> = None | Some(value: T)
}
