/**
  HTTP statuses, response codes and the failures the core raises or lets
  escape. A Java exception becomes a `Failure`; a method that may throw
  returns a `Result`.
 */
module Errors {

  /** The `HttpStatus` values the core uses. */
  datatype HttpStatus =
    | HttpOk
    | HttpCreated
    | HttpBadRequest
    | HttpUnauthorized
    | HttpInternalServerError
  {
    predicate IsSuccess() {
      this == HttpOk || this == HttpCreated
    }
  }

  /**
    The `ResponseMessage` codes the core names; `OtherCode` carries a code
    raised by a service outside this model.
   */
  datatype ResponseCode =
    | Success
    | Unauthorized
    | AlreadyExist
    | InvalidNik
    | BadRequest
    | InvalidInput
    | InternalServerError
    | OtherCode(name: string)

  /** The payload of a `BusinessFlowException`. */
  datatype BusinessError = BusinessError(status: HttpStatus, code: ResponseCode, message: string)

  /** What a call can throw. */
  datatype Failure =
    | Business(error: BusinessError)     // BusinessFlowException
    | UsernameNotFound(message: string)  // Spring's UsernameNotFoundException
    | ConstraintViolation                // thrown by the field validator
    | IndexOutOfBounds                   // `split(..)[1]` of a one-element array
    | NullDereference                    // a method call on a null reference
    | ClassCast                          // `(Admin)` applied to a user record

  datatype Result<+T> = Ok(value: T) | Err(failure: Failure)

  /** getInfoByPrincipal's miss */
  const InfoNotFound := BusinessError(HttpUnauthorized, Unauthorized, "Info not found!")

  /** loadUserByUsername's miss */
  const CredentialsNotFound := "Credentials not found"

  /** register's duplicate-nik rejection */
  const UserAlreadyExists := BusinessError(HttpBadRequest, AlreadyExist, "User already exist!")

  /** register's rejection of a nik the registry does not know */
  const NikNotFound := BusinessError(HttpBadRequest, InvalidNik, "Nik not found!")

  /** find(id)'s miss */
  const UserNotFound := BusinessError(HttpBadRequest, BadRequest, "User not found!")

}
