/** Datatypes shared by every component: optional values, request outcomes and the errors the services raise. */
module Basics {

  datatype Option<+T> = None | Some(value: T)

  /** The exceptions of the services; QueryFailed is any failure of the database or of the connection, Internal any
      other error that no service turns into an answer of its own. */
  datatype Error =
    | QueryFailed
    | Internal
    | BadRequest
    | Unauthorized
    | Forbidden
    | NotFound
    | Conflict

  datatype Result<+T> = Success(value: T) | Failure(error: Error)

  /** The row that a SELECT with neither ORDER BY nor a tie-break puts first: some fixed choice function. */
  ghost predicate IsChoice<T(!new)>(choose: set<T> -> T) {
    forall s: set<T> :: s != {} ==> choose(s) in s
  }

  /** The password hash: hash(value, salt) and compare(value, hash). */
  datatype Bcrypt<!T> = Bcrypt(hash: (T, nat) -> string, compare: (T, string) -> bool)

  /** All that is assumed of it: a value matches its own hash. It may match others. */
  ghost predicate Honest<T(!new)>(bcrypt: Bcrypt<T>) {
    forall t: T, salt: nat :: bcrypt.compare(t, bcrypt.hash(t, salt))
  }
}
