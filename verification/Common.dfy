// Datatypes shared by every module of the project.
module Common {

  /** A nullable column, an absent map entry or a call that may not find anything. */
  datatype Option<+T> = None | Some(value: T)

  /** A call that answers with a value or with one of the source's error outcomes. */
  datatype Result<+T, +E> = Ok(value: T) | Err(error: E)

  /** Tokens are stored hashed only; SHA-256 is taken to be injective. */
  datatype Hash = Sha256(token: string)

  /** The order in which rows or map entries come is anybody's. */
  method AnyOf<T>(s: set<T>) returns (x: T)
    requires s != {}
    ensures x in s
  {
    x :| x in s;
  }
}
