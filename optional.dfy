/** The conventional optional value; `None` stands for JavaScript `undefined` or `null`
    wherever the source treats the two alike. */
module Optional {
  datatype Option<+T> = None | Some(value: T)
}
