/** Failure-compatible Option and Result types used by every endpoint model. */
module Wrappers {

  datatype Option<+T> = None | Some(value: T)

  /** The outcome of an endpoint: a value, or the error it raises. */
  datatype Result<+T, +E> = Success(value: T) | Failure(error: E) {

    predicate IsFailure() {
      Failure?
    }

    function PropagateFailure<U>(): Result<U, E>
      requires Failure?
    {
      Failure(error)
    }

    function Extract(): T
      requires Success?
    {
      value
    }
  }

  /** One field of a partial-update request: `Unset` when the client left the
      field out (pydantic's `exclude_unset` drops it), `Set(v)` otherwise. */
  datatype Patch<+T> = Unset | Set(value: T) {

    /** The column's value after `setattr` runs for the fields that were set. */
    function ApplyTo(current: T): (r: T)
      ensures Unset? ==> r == current
      ensures Set? ==> r == value
    {
      if Set? then value else current
    }
  }

  /** What an INSERT stores in a nullable column with a Python-side default,
      given the create body's field: the ORM leaves an attribute holding None
      out of the statement, so the default applies both when the field was
      left out and when it was sent as an explicit null. */
  function Inserted<T>(field: Patch<Option<T>>, default: T): (r: T)
    ensures field.Set? && field.value.Some? ==> r == field.value.value
    ensures field.Unset? || field.value.None? ==> r == default
  {
    if field.Set? && field.value.Some? then field.value.value else default
  }
}

/** The HTTP error statuses the backend raises. */
module Http {

  /** `InternalError` stands for an uncaught Python exception (a TypeError or a
      database integrity error), which the server reports as status 500. */
  datatype Status = BadRequest | Unauthorized | Forbidden | NotFound | InternalError {
    function Code(): int {
      match this
      case BadRequest => 400
      case Unauthorized => 401
      case Forbidden => 403
      case NotFound => 404
      case InternalError => 500
    }
  }
}

/** The role strings stored in the `users.role` column and compared by the role gate. */
module Roles {
  const Admin: string := "admin"
  const HospitalAdmin: string := "hospital_admin"
  const SystemAdmin: string := "system_admin"
  const Doctor: string := "doctor"
  const Patient: string := "patient"
  const LabWorker: string := "lab_worker"
  const Pharmacist: string := "pharmacist"
}
