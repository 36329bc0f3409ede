/**
  Value wrappers shared by the whole model.

  - `Option` stands for a JavaScript value that may be `null`/`undefined`.
  - `ApiResult` stands for the settled promise of one call to the remote
    article store: the call either resolves with a value or rejects with an
    error whose message the page shows to the user.
 */
module Outcomes {

  datatype Option<+T> = None | Some(value: T) {
    function GetOr(default: T): T {
      match this
      case Some(v) => v
      case None => default
    }
  }

  datatype ApiResult<+T> = Success(value: T) | Failure(message: string)

  /** JavaScript truthiness of an optional string: present and not empty. */
  predicate IsTruthy(s: Option<string>) {
    s.Some? && s.value != ""
  }
}
