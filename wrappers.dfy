/** Option, references to stored entities, the error taxonomy of the domain services, and Result. */
module Wrappers {

  /** A value that may be absent: a Java reference that may be null. */
  datatype Option<+T> = None | Some(value: T) {
    /** The value, or `default` when there is none. */
    function GetOr(default: T): T {
      match this
      case Some(v) => v
      case None => default
    }

    /** This option when it holds a value, otherwise `other`: a setter guarded by `!= null`. */
    function OrElse(other: Option<T>): Option<T> {
      if Some? then this else other
    }
  }

  /**
   * How a reference to another entity arrives in a request body: a nested
   * `user` or `company` object, or a plain id number.
   */
  datatype Ref =
    | NullRef          // the object (or number) is absent or null
    | NullId           // an object is given, but without an `id`
    | RefTo(id: int)   // an object with this `id`, or this number

  /** The id a reference carries, if any: `getUser() != null && getUser().getId() != null`. */
  function RefId(ref: Ref): Option<int> {
    if ref.RefTo? then Some(ref.id) else None
  }

  /**
   * The reasons a service call fails. Every failure in the services is a
   * RuntimeException that rolls the transaction back; the variant says which
   * check threw it.
   */
  datatype Error =
    | ShiftNotFound(shiftId: int)
    | UserNotFound(userId: int)
    | CompanyNotFound(companyId: int)
    | IdIsNull   // a lookup by an id that is null, which the repository refuses
    | UnsavedReference   // a saved row refers to an entity object that was never saved
    | StartNotBeforeStop
    | PublishedIsNull
    | CompanyNameTaken(name: string)
    | UsernameTaken(username: string)
    | EmailTaken(email: string)

  /** The outcome of a service call: its return value, or the exception it threw. */
  datatype Result<+T> = Ok(value: T) | Err(error: Error)
}
