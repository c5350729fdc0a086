/**
 * The errors the services throw. The application error classes come from
 * backend/src/utils/errors.ts, which is not part of this model: each of
 * them is taken to be a subclass of `AppError` with the HTTP status its
 * name conventionally carries (404, 401, 409, 403). Store and cipher
 * errors are not `AppError`s.
 */
module Errors {

  datatype Error =
    | NotFoundError(message: string)
    | UnauthorizedError(message: string)
    | ConflictError(message: string)
    | ChangePasswordError(message: string)
      /** `new AppError(message, statusCode)` */
    | AppError(message: string, statusCode: nat)
      /** A Prisma known-request error: its `code` and `meta.target`. */
    | PrismaError(code: string, target: seq<string>, message: string)
      /** What `decipher.final()` throws when authentication fails. */
    | CipherError(message: string)
      /** A query argument the store refuses; `message` names the argument. */
    | InvalidArgument(message: string)

  /** `err instanceof AppError`. */
  predicate IsAppError(e: Error)
  {
    !e.PrismaError? && !e.CipherError? && !e.InvalidArgument?
  }

  /** `err.statusCode` of an application error. */
  function StatusCode(e: Error): nat
    requires IsAppError(e)
  {
    match e
    case NotFoundError(_) => 404
    case UnauthorizedError(_) => 401
    case ConflictError(_) => 409
    case ChangePasswordError(_) => 403
    case AppError(_, code) => code
  }
}
