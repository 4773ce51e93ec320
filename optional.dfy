/** An optional value: stands for JavaScript's `undefined` where the source
    lets a field or a timer handle be absent. */
module Optional {

  datatype Option<+T> = None | Some(value: T)

}
