/** Small shared vocabulary: optional values, as TypeScript's `T | undefined` and
    nullable database columns (`null` and `undefined` are both `None`). */
module Common {

  datatype Option<+T> = None | Some(value: T) {

    /** `x ?? default` */
    function GetOr(default: T): T
    {
      match this
      case Some(v) => v
      case None => default
    }
  }
}
